/** What XED's decoder tells about an instruction, `src/xed_metadata.hpp`. */
module XedMetadata {

  datatype MemoryOperand = MemoryOperand(isRead: bool, isWritten: bool)

  datatype Metadata = Metadata(
    ok: bool,
    length: nat,
    operandWidth: nat,
    iclass: string,
    category: string,
    extension: string,
    comparableWrittenFlags: bv32,
    memoryOperands: seq<MemoryOperand>)
}
