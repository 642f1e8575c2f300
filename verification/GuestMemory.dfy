/** The sparse paged store of `src/guest_memory.cpp`, each operation proved to be the one on flat memory. */
module GuestMemory {
  import opened Wrappers
  import opened FlatMemory

  type PageBytes = s: seq<byte> | |s| == PAGE_SIZE witness Zeros(PAGE_SIZE)

  datatype Page = Page(bytes: PageBytes, permissions: bv8)

  type Pages = map<u64, Page>

  /** The pages a range touches: first and last base, one page apart at each step. */
  lemma PageBaseIs(address: u64)
    ensures 0 <= PageBase(address) <= address < PageBase(address) + PAGE_SIZE <= TWO64
    ensures 0 <= PageOffset(address) < PAGE_SIZE
    ensures PageOffset(PageBase(address)) == 0
  {
  }

  lemma BaseMonotone(a: u64, b: u64)
    requires a <= b
    ensures PageBase(a) <= PageBase(b)
  {
  }

  lemma NextPage(base: u64, end: u64)
    requires PageOffset(base) == 0 && PageOffset(end) == 0 && base < end
    ensures base + PAGE_SIZE <= end && PageOffset(base + PAGE_SIZE) == 0
  {
  }

  /** Page keys are aligned addresses. */
  predicate Aligned(pages: Pages) {
    forall base :: base in pages ==> PageOffset(base) == 0
  }

  predicate Mapped(pages: Pages, x: u64) {
    PageBase(x) in pages
  }

  function CellAt(pages: Pages, x: u64): Cell
    requires Mapped(pages, x)
  {
    Cell(pages[PageBase(x)].bytes[PageOffset(x)], pages[PageBase(x)].permissions)
  }

  ghost function View(pages: Pages): Cells {
    map x: u64 | Mapped(pages, x) :: CellAt(pages, x)
  }

  /** The cursor of the chunk loops is a 64-bit address: past the last byte it wraps to 0. */
  function Advance(address: u64, chunk: u64): (next: u64)
    ensures address + chunk < TWO64 ==> next == address + chunk
  {
    if address + chunk < TWO64 then address + chunk else address + chunk - TWO64
  }

  lemma ViewAt(pages: Pages, address: u64)
    ensures address in View(pages) <==> PageBase(address) in pages
    ensures address in View(pages) ==> View(pages)[address] == CellAt(pages, address)
  {
  }

  lemma SamePage(address: int, x: int)
    requires address <= x < PageBase(address) + PAGE_SIZE
    ensures PageBase(x) == PageBase(address)
    ensures PageOffset(x) == PageOffset(address) + (x - address)
  {
  }

  function Splice(bytes: PageBytes, offset: int, chunk: seq<byte>): PageBytes
    requires 0 <= offset && offset + |chunk| <= PAGE_SIZE
  {
    bytes[..offset] + chunk + bytes[offset + |chunk|..]
  }

  lemma SpliceAt(bytes: PageBytes, offset: int, chunk: seq<byte>, i: int)
    requires 0 <= offset && offset + |chunk| <= PAGE_SIZE && 0 <= i < PAGE_SIZE
    ensures Splice(bytes, offset, chunk)[i] == if offset <= i < offset + |chunk| then chunk[i - offset] else bytes[i]
  {
  }

  function WithChunk(pages: Pages, address: u64, chunk: seq<byte>): (pages': Pages)
    requires PageBase(address) in pages
    requires PageOffset(address) + |chunk| <= PAGE_SIZE
    ensures pages'.Keys == pages.Keys
  {
    var page := pages[PageBase(address)];
    pages[PageBase(address) := Page(Splice(page.bytes, PageOffset(address), chunk), page.permissions)]
  }

  /** Copying one chunk into its page writes those bytes of flat memory and no others. */
  lemma WithChunkIsPoke(pages: Pages, address: u64, chunk: seq<byte>)
    requires PageBase(address) in pages
    requires PageOffset(address) + |chunk| <= PAGE_SIZE
    ensures View(WithChunk(pages, address, chunk)) == Poke(View(pages), address, chunk)
  {
    var before, after := View(pages), View(WithChunk(pages, address, chunk));
    forall x | x in before ensures after[x] == Poke(before, address, chunk)[x] {
      WithChunkAt(pages, address, chunk, x);
    }
  }

  lemma WithChunkAt(pages: Pages, address: u64, chunk: seq<byte>, x: u64)
    requires PageBase(address) in pages && PageBase(x) in pages
    requires PageOffset(address) + |chunk| <= PAGE_SIZE
    ensures var bytes := WithChunk(pages, address, chunk)[PageBase(x)].bytes;
      bytes[PageOffset(x)] ==
        if address <= x < address + |chunk| then chunk[x - address] else pages[PageBase(x)].bytes[PageOffset(x)]
    ensures WithChunk(pages, address, chunk)[PageBase(x)].permissions == pages[PageBase(x)].permissions
  {
    if address <= x < address + |chunk| {
      SamePage(address, x);
    }
    if PageBase(x) == PageBase(address) {
      assert x - address == PageOffset(x) - PageOffset(address);
      SpliceAt(pages[PageBase(address)].bytes, PageOffset(address), chunk, PageOffset(x));
    }
  }

  lemma ChunkIsPeek(pages: Pages, address: u64, chunk: nat)
    requires PageBase(address) in pages && PageOffset(address) + chunk <= PAGE_SIZE
    requires address + chunk <= TWO64
    ensures AllMapped(View(pages), address, chunk)
    ensures Peek(View(pages), address, chunk)
      == pages[PageBase(address)].bytes[PageOffset(address)..PageOffset(address) + chunk]
  {
    forall x | address <= x < address + chunk
      ensures PageBase(x) == PageBase(address) && PageOffset(x) == PageOffset(address) + (x - address)
    {
      SamePage(address, x);
    }
  }

  lemma ChunkIsAccessible(pages: Pages, address: u64, chunk: nat, required: bv8)
    requires PageBase(address) in pages && PageOffset(address) + chunk <= PAGE_SIZE
    requires address + chunk <= TWO64
    requires pages[PageBase(address)].permissions & required == required
    ensures AllAccessible(View(pages), address, chunk, required)
  {
    forall x | address <= x < address + chunk ensures Accessible(View(pages), x, required) {
      SamePage(address, x);
    }
  }

  /** A page that is missing or lacks the permission blocks the access at the cursor. */
  lemma ChunkBlocks(pages: Pages, address: u64, size: u64, required: bv8, operation: Operation, done: nat)
    requires done < size && address + size <= TWO64
    requires AllAccessible(View(pages), address, done, required)
    requires PageBase(address + done) in pages ==> pages[PageBase(address + done)].permissions & required != required
    ensures AccessFault(View(pages), address, size, required, operation)
         == var mapped := PageBase(address + done) in pages;
            Some(MemoryFault(if mapped then Permission else Unmapped, address + done,
                             Min(size - done, PAGE_SIZE - PageOffset(address + done)), operation,
                             if mapped then NotAllowed else NotMapped))
  {
    ViewAt(pages, address + done);
    BlockedAt(View(pages), address, size, required, operation, done);
  }

  function WithPage(pages: Pages, base: u64, permissions: bv8): Pages {
    pages[base := Page(if base in pages then pages[base].bytes else Zeros(PAGE_SIZE), permissions)]
  }

  /** Setting the permissions of one page, zero-filling it when new, covers its addresses. */
  lemma WithPageIsCover(pages: Pages, base: u64, permissions: bv8)
    requires PageOffset(base) == 0
    ensures View(WithPage(pages, base, permissions)) == Cover(View(pages), base, base + PAGE_SIZE, permissions)
  {
    var before, after := View(pages), View(WithPage(pages, base, permissions));
    var covered := Cover(before, base, base + PAGE_SIZE, permissions);
    forall x: u64 ensures x in after <==> x in covered {
      InPage(base, x);
    }
    forall x | x in after && x in covered ensures after[x] == covered[x] {
      WithPageAt(pages, base, permissions, x);
    }
  }

  lemma WithPageAt(pages: Pages, base: u64, permissions: bv8, x: u64)
    requires PageOffset(base) == 0 && PageBase(x) in WithPage(pages, base, permissions)
    ensures var page := WithPage(pages, base, permissions)[PageBase(x)];
      if base <= x < base + PAGE_SIZE
      then page == Page(if base in pages then pages[base].bytes else Zeros(PAGE_SIZE), permissions)
      else PageBase(x) in pages && page == pages[PageBase(x)]
  {
    InPage(base, x);
  }

  lemma InPage(base: u64, x: int)
    requires PageOffset(base) == 0
    ensures base <= x < base + PAGE_SIZE <==> PageBase(x) == base
    ensures base + PAGE_SIZE <= TWO64
  {
  }

  lemma WithPageAligned(pages: Pages, base: u64, permissions: bv8)
    requires Aligned(pages) && PageOffset(base) == 0
    ensures Aligned(WithPage(pages, base, permissions))
  {
  }

  class GuestMemory {
    var pages: Pages
    var lastFault: Option<MemoryFault>

    ghost predicate Valid()
      reads this
    {
      Aligned(pages)
    }

    ghost function Flat(): Memory
      reads this
    {
      Memory(View(pages), lastFault)
    }

    constructor ()
      ensures Valid() && Flat() == EMPTY
    {
      pages := map[];
      lastFault := None;
    }

    method SetFault(fault: MemoryFault)
      modifies this`lastFault
      ensures Flat() == Raise(old(Flat()), fault)
    {
      if lastFault.None? {
        lastFault := Some(fault);
      }
    }

    method SetUnsupported(address: u64, detail: string)
      modifies this`lastFault
      ensures Flat() == Raise(old(Flat()), MemoryFault(Unsupported, address, 0, UnsupportedOp, Intrinsic(detail)))
    {
      SetFault(MemoryFault(Unsupported, address, 0, UnsupportedOp, Intrinsic(detail)));
    }

    method Map(address: u64, size: u64, permissions: bv8) returns (ok: bool)
      requires Valid()
      modifies this
      ensures Valid()
      ensures Access(Flat(), ok, []) == MapRange(old(Flat()), address, size, permissions)
    {
      hide View, Cover, PageBase, PageOffset;
      if size == 0 {
        return true;
      }
      if address > TWO64 - 1 - (size - 1) {
        SetFault(MemoryFault(BackendError, address, size, MapOp, MappingOverflow));
        return false;
      }
      PageBaseIs(address);
      PageBaseIs(address + size - 1);
      BaseMonotone(address, address + size - 1);
      MapPages(PageBase(address), PageBase(address + size - 1), permissions);
      return true;
    }

    /** The loop of `Map`, over page addresses up to and including the last. */
    method MapPages(start: u64, end: u64, permissions: bv8)
      requires Valid() && start <= end && PageOffset(start) == 0 && PageOffset(end) == 0
      requires end + PAGE_SIZE <= TWO64
      modifies this`pages
      ensures Valid()
      ensures View(pages) == Cover(View(old(pages)), start, end + PAGE_SIZE, permissions)
    {
      hide View, Cover, PageOffset;
      var pageAddress := start;
      CoverNothing(View(pages), start, permissions);
      while true
        invariant start <= pageAddress <= end && PageOffset(pageAddress) == 0
        invariant Aligned(pages)
        invariant View(pages) == Cover(View(old(pages)), start, pageAddress, permissions)
        decreases end - pageAddress
      {
        WithPageIsCover(pages, pageAddress, permissions);
        WithPageAligned(pages, pageAddress, permissions);
        CoverCover(View(old(pages)), start, pageAddress, pageAddress + PAGE_SIZE, permissions);
        pages := WithPage(pages, pageAddress, permissions);
        if pageAddress == end {
          break;
        }
        NextPage(pageAddress, end);
        pageAddress := pageAddress + PAGE_SIZE;
      }
    }

    method CheckAccess(address: u64, size: u64, required: bv8, operation: Operation) returns (ok: bool)
      requires Valid()
      modifies this`lastFault
      ensures ok == AccessFault(View(pages), address, size, required, operation).None?
      ensures Flat() == match AccessFault(View(pages), address, size, required, operation)
                        case Some(fault) => Raise(old(Flat()), fault)
                        case None => old(Flat())
    {
      hide View, AccessFault, Raise;
      AccessFaultAtOnce(View(pages), address, size, required, operation);
      if size == 0 {
        return true;
      }
      if address > TWO64 - 1 - (size - 1) {
        SetFault(MemoryFault(BackendError, address, size, operation, RangeOverflow));
        return false;
      }
      var blocked := BlockedChunk(address, size, required, operation);
      if blocked.Some? {
        SetFault(blocked.value);
      }
      return blocked.None?;
    }

    /** The loop of `CheckAccess`: the part of the first page that blocks the access, if any. */
    method BlockedChunk(address: u64, size: u64, required: bv8,
        operation: Operation) returns (fault: Option<MemoryFault>)
      requires Valid() && 0 < size && address + size <= TWO64
      ensures fault == AccessFault(View(pages), address, size, required, operation)
    {
      hide *;
      var remaining := size;
      var current: u64 := address;
      NothingIsAccessible(View(pages), address, required);
      while remaining != 0
        invariant 0 <= remaining <= size
        invariant remaining != 0 ==> current == address + (size - remaining)
        invariant AllAccessible(View(pages), address, size - remaining, required)
      {
        PageBaseIs(current);
        var chunk := Min(remaining, PAGE_SIZE - PageOffset(current));
        if PageBase(current) !in pages {
          ChunkBlocks(pages, address, size, required, operation, size - remaining);
          return Some(MemoryFault(Unmapped, current, chunk, operation, NotMapped));
        }
        if pages[PageBase(current)].permissions & required != required {
          ChunkBlocks(pages, address, size, required, operation, size - remaining);
          return Some(MemoryFault(Permission, current, chunk, operation, NotAllowed));
        }
        ChunkIsAccessible(pages, current, chunk, required);
        AllAccessibleExtends(View(pages), address, size - remaining, chunk, required);
        remaining := remaining - chunk;
        current := Advance(current, chunk);
      }
      AllAccessibleIsClear(View(pages), address, size, required, operation);
      return None;
    }

    /** All bytes are written, or none and the first blocked one is the fault. */
    method Write(address: u64, bytes: seq<byte>) returns (ok: bool)
      requires Valid() && |bytes| < TWO64
      modifies this
      ensures Valid()
      ensures Access(Flat(), ok, []) == FlatMemory.Write(old(Flat()), address, bytes)
    {
      if |bytes| == 0 {
        PokeEmpty(View(pages), address);
        return true;
      }
      var allowed := CheckAccess(address, |bytes|, WRITE, WriteOp);
      if allowed {
        AccessibleIsMapped(View(pages), address, |bytes|, WRITE);
        CopyIn(address, bytes);
      }
      return allowed;
    }

    /** The loop of `Write`, one `memcpy` per page. */
    method CopyIn(address: u64, bytes: seq<byte>)
      requires Valid() && address + |bytes| <= TWO64 && AllMapped(View(pages), address, |bytes|)
      modifies this`pages
      ensures Valid()
      ensures View(pages) == Poke(View(old(pages)), address, bytes)
    {
      hide View, Poke, PageBase, PageOffset;
      var done := 0;
      var current := address;
      PokeEmpty(View(pages), address);
      while done != |bytes|
        invariant 0 <= done <= |bytes|
        invariant done < |bytes| ==> current == address + done
        invariant Aligned(pages)
        invariant View(pages) == Poke(View(old(pages)), address, bytes[..done])
        decreases |bytes| - done
      {
        PageBaseIs(current);
        ViewAt(pages, current);
        var chunk := Min(|bytes| - done, PAGE_SIZE - PageOffset(current));
        var piece := bytes[done..done + chunk];
        WithChunkIsPoke(pages, current, piece);
        PokePoke(View(old(pages)), address, bytes[..done], piece);
        assert bytes[..done] + piece == bytes[..done + chunk];
        pages := WithChunk(pages, current, piece);
        done := done + chunk;
        current := Advance(current, chunk);
      }
      assert bytes[..done] == bytes;
    }

    /** The flat slice, or zeros when the range wraps or some byte is not readable. */
    method Read(address: u64, out: array<byte>) returns (ok: bool)
      requires Valid() && out.Length < TWO64
      modifies this`lastFault, out
      ensures Access(Flat(), ok, out[..]) == FlatMemory.Read(old(Flat()), address, out.Length)
    {
      if out.Length == 0 {
        assert Peek(View(pages), address, 0) == out[..];
        return true;
      }
      var allowed := CheckAccess(address, out.Length, READ, ReadOp);
      if allowed {
        AccessibleIsMapped(View(pages), address, out.Length, READ);
        CopyOut(address, out);
      } else {
        forall i | 0 <= i < out.Length {
          out[i] := 0;
        }
        assert out[..] == Zeros(out.Length);
      }
      return allowed;
    }

    /** The loop of `Read`, one `memcpy` per page. */
    method CopyOut(address: u64, out: array<byte>)
      requires Valid() && address + out.Length <= TWO64 && AllMapped(View(pages), address, out.Length)
      modifies out
      ensures out[..] == Peek(View(pages), address, out.Length)
    {
      hide View, Peek, PageBase, PageOffset;
      var done := 0;
      var current := address;
      while done != out.Length
        invariant 0 <= done <= out.Length
        invariant done < out.Length ==> current == address + done
        invariant out[..done] == Peek(View(pages), address, out.Length)[..done]
        decreases out.Length - done
      {
        PageBaseIs(current);
        ViewAt(pages, current);
        var offset := PageOffset(current);
        var chunk := Min(out.Length - done, PAGE_SIZE - offset);
        var piece := pages[PageBase(current)].bytes[offset..offset + chunk];
        ChunkIsPeek(pages, current, chunk);
        PeekSlice(View(pages), address, out.Length, done, chunk);
        forall i | done <= i < done + chunk {
          out[i] := piece[i - done];
        }
        assert out[..done + chunk] == out[..done] + piece;
        done := done + chunk;
        current := Advance(current, chunk);
      }
      assert out[..done] == out[..];
    }
  }
}
