/** Facts about single bits of 16-bit words, one mask at a time. */
module BitLaws {

  lemma KeepBit10(w: bv16, bit: bool)
    requires bit == (w & 0x400 != 0)
    ensures (w & 0x3b7f) | (if bit then 0x400 else 0) == w & 0x3f7f
  {
  }

  lemma KeepBit14(w: bv16, bit: bool)
    requires bit == (w & 0x4000 != 0)
    ensures (w & 0x3f7f) | (if bit then 0x4000 else 0) == w & 0x7f7f
  {
  }
}
