/**
 * The overflow file's in-memory control state: the header (page count and
 * one write cursor per hash-index partition), the list of partition handles,
 * and the page counter that hands out fresh page indexes.
 *
 * A C++ handle holds a reference into `header.cursors`; here a handle holds
 * its owning file and the index of its slot, and reads and writes the cursor
 * through that index. The atomic counter and flag are plain fields: the model
 * is sequential.
 */
module OverflowStorage {

  type uint32 = x: int | 0 <= x < 0x1_0000_0000
  type byte = x: int | 0 <= x < 0x100

  /** common::KUZU_PAGE_SIZE */
  const KUZU_PAGE_SIZE: nat := 4096
  /** sizeof(common::page_idx_t) */
  const PAGE_IDX_SIZE: nat := 4
  /** The offset of the next-page index at the tail of an overflow page; string bytes are written before it. */
  const END_OF_PAGE: nat := KUZU_PAGE_SIZE - PAGE_IDX_SIZE
  /** The number of hash-index partitions, hence of header cursors. */
  const NUM_HASH_INDEXES: nat := 256
  /** Page 0 of the file holds the header itself. */
  const HEADER_PAGE_IDX: nat := 0

  /** A write position: a page and a byte offset in it. */
  datatype PageCursor = PageCursor(pageIdx: uint32, elemPosInPage: uint32)

  /** The value a cursor slot of a freshly constructed header holds (`cursors{}`). */
  const INITIAL_CURSOR := PageCursor(0, 0)

  /** An in-memory page image held in a handle's write cache. */
  type Page = seq<byte>

  class StringOverflowFileHeader {
    var pages: uint32
    const cursors: array<PageCursor>

    /** The default constructor: one page, reserved for the header, and every cursor at its initial value. */
    constructor ()
      ensures pages == 1
      ensures fresh(cursors) && cursors.Length == NUM_HASH_INDEXES
      ensures forall i :: 0 <= i < cursors.Length ==> cursors[i] == INITIAL_CURSOR
    {
      pages := 1;
      cursors := new PageCursor[NUM_HASH_INDEXES](_ => INITIAL_CURSOR);
    }
  }

  class OverflowFileHandle {
    /** The file that owns this handle and its cursor. */
    const file: OverflowFile
    /** The header slot that `nextPosToWriteTo` refers to. */
    const slot: nat
    /** Pages written in the current transaction, by page index. */
    var pageWriteCache: map<uint32, Page>

    constructor (file: OverflowFile, slot: nat)
      ensures this.file == file && this.slot == slot
      ensures pageWriteCache == map[]
    {
      this.file := file;
      this.slot := slot;
      pageWriteCache := map[];
    }

    /** The handle's slot lies inside the header's cursor array. */
    predicate Bound()
    {
      slot < file.header.cursors.Length
    }

    /** nextPosToWriteTo: the header slot this handle writes through. */
    function NextPosToWriteTo(): PageCursor
      requires Bound()
      reads file.header.cursors
    {
      file.header.cursors[slot]
    }

    /** Commits in memory: the pages written so far are no longer cached; the cursor stays. */
    method CheckpointInMemory()
      modifies this`pageWriteCache
      ensures pageWriteCache == map[]
    {
      pageWriteCache := map[];
    }

    /**
     * Rolls back in memory: drops the cached pages and puts the cursor, hence
     * the handle's header slot, back to exactly `nextPosToWriteTo_`. No other
     * header slot changes.
     */
    method RollbackInMemory(nextPosToWriteTo_: PageCursor)
      requires Bound()
      modifies this`pageWriteCache, file.header.cursors
      ensures pageWriteCache == map[]
      ensures NextPosToWriteTo() == nextPosToWriteTo_
      ensures file.header.cursors[..] == old(file.header.cursors[..])[slot := nextPosToWriteTo_]
    {
      pageWriteCache := map[];
      file.header.cursors[slot] := nextPosToWriteTo_;
    }
  }

  class OverflowFile {
    var handles: seq<OverflowFileHandle>
    const header: StringOverflowFileHeader
    var pageCounter: uint32
    var headerChanged: bool

    /**
     * Handle k belongs to this file and is bound to cursor slot k, and there
     * are at most NUM_HASH_INDEXES handles, one per slot.
     */
    ghost predicate Valid()
      reads this
    {
      && header.cursors.Length == NUM_HASH_INDEXES
      && |handles| <= NUM_HASH_INDEXES
      && forall k :: 0 <= k < |handles| ==> handles[k].file == this && handles[k].slot == k
    }

    /**
     * A file with a default header, no handles, and the page counter at the
     * header page (the first page handed out is the header's own).
     */
    constructor ()
      ensures Valid() && fresh(header) && fresh(header.cursors)
      ensures handles == [] && header.pages == 1
      ensures forall i :: 0 <= i < header.cursors.Length ==> header.cursors[i] == INITIAL_CURSOR
      ensures pageCounter == HEADER_PAGE_IDX && !headerChanged
    {
      handles := [];
      header := new StringOverflowFileHeader();
      pageCounter := HEADER_PAGE_IDX;
      headerChanged := false;
    }

    /**
     * Adds the handle for the next partition, bound to the cursor slot whose
     * index is the old handle count. Existing handles are kept as they are.
     */
    method AddHandle() returns (h: OverflowFileHandle)
      requires Valid()
      requires |handles| < NUM_HASH_INDEXES
      modifies this`handles
      ensures Valid()
      ensures fresh(h) && h.file == this && h.slot == old(|handles|) && h.pageWriteCache == map[]
      ensures handles == old(handles) + [h]
      ensures h.Bound() && h.NextPosToWriteTo() == header.cursors[old(|handles|)]
    {
      h := new OverflowFileHandle(this, |handles|);
      handles := handles + [h];
    }

    /**
     * Fetch-and-increment of the 32-bit page counter: returns the old value
     * and advances the counter by one (wrapping at 2^32 like the atomic).
     */
    method GetNewPageIdx() returns (pageIdx: uint32)
      requires pageCounter == HEADER_PAGE_IDX || headerChanged
      modifies this`pageCounter
      ensures pageIdx == old(pageCounter)
      ensures pageCounter == (old(pageCounter) + 1) % 0x1_0000_0000
      ensures old(pageCounter) < 0xFFFF_FFFF ==> pageCounter == pageIdx + 1
    {
      pageIdx := pageCounter;
      pageCounter := (pageCounter + 1) % 0x1_0000_0000;
    }
  }

  /**
   * Two allocations in a row, once the header has been marked changed, give
   * two distinct, increasing page indexes (short of the counter's wrap-around).
   */
  method AllocateTwoPages(file: OverflowFile) returns (first: uint32, second: uint32)
    requires file.headerChanged
    requires file.pageCounter < 0xFFFF_FFFE
    modifies file
    ensures first < second && second == first + 1
    ensures first == old(file.pageCounter) && file.pageCounter == second + 1
  {
    first := file.GetNewPageIdx();
    second := file.GetNewPageIdx();
  }

  /**
   * Rolling one handle back leaves every other handle's cursor where it was,
   * whatever that handle wrote in between.
   */
  method RollbackIsolated(file: OverflowFile, a: OverflowFileHandle, b: OverflowFileHandle, prior: PageCursor)
    requires file.Valid() && a in file.handles && b in file.handles && a != b
    modifies a`pageWriteCache, file.header.cursors
    ensures a.Bound() && b.Bound()
    ensures a.NextPosToWriteTo() == prior
    ensures b.NextPosToWriteTo() == old(b.NextPosToWriteTo())
    ensures b.pageWriteCache == old(b.pageWriteCache)
  {
    assert a.Bound() && b.Bound();
    a.RollbackInMemory(prior);
  }
}
