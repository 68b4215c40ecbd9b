/**
 Where the chains of a page start (<mach-o/fixup-chains.h>), as the first half of
 `chained_pointer_format` of scripts/closure_analyze.py finds it: the header of the fixups, the table of
 segments, the record of one segment and its table of page starts. What is found is what is written
 there.
 */
module ChainedStarts {
  import opened Prelude
  import opened Leb128
  import opened ByteOrder
  import opened Macho

  /** A page: its first address, its size, and where in it the chains start. */
  datatype Page = Page(format: nat, vm: int, size: nat, starts: seq<nat>)

  function Limit(page: Page): int {
    page.vm + page.size
  }

  // ------------------------------------------------------ the starts of a page

  /** A list of starts in the table: the last has its high bit set. */
  function StartList(table: seq<nat>, k: nat): Option<seq<nat>>
    decreases |table| - k
  {
    if k >= |table| then None
    else if table[k] >= 0x8000 then Some([table[k] - 0x8000])
    else
      var rest := StartList(table, k + 1);
      if rest.None? then None else Some([table[k]] + rest.value)
  }

  /** The starts of the page `index`; its table entry is a start, a list of them or none. */
  function PageStarts(table: seq<nat>, pages: nat, index: nat): Option<seq<nat>>
    requires index < pages <= |table|
  {
    var v := table[index];
    if v == 0xFFFF then None
    else if v < 0x8000 then Some([v])
    else if v - 0x8000 < pages then None
    else StartList(table, v - 0x8000)
  }

  /** These starts stand in the table from `k` on, the last of them marked. */
  predicate IsList(table: seq<nat>, k: nat, starts: seq<nat>) {
    && starts != [] && k + |starts| <= |table|
    && (forall i | 0 <= i < |starts| - 1 :: starts[i] < 0x8000 && table[k + i] == starts[i])
    && table[k + |starts| - 1] == 0x8000 + starts[|starts| - 1]
  }

  /** The entry of a page is its one start, or leads to the list of its starts behind the entries of all pages. */
  predicate AreStarts(table: seq<nat>, pages: nat, index: nat, starts: seq<nat>)
    requires index < pages <= |table|
  {
    || (starts == [table[index]] && table[index] < 0x8000)
    || (table[index] >= 0x8000 + pages && table[index] != 0xFFFF && IsList(table, table[index] - 0x8000, starts))
  }

  lemma ListFirst(table: seq<nat>, k: nat, starts: seq<nat>)
    requires k < |table| && starts != []
    ensures IsList(table, k, starts) <==>
      if |starts| == 1 then table[k] == 0x8000 + starts[0]
      else starts[0] < 0x8000 && table[k] == starts[0] && IsList(table, k + 1, starts[1..])
  {
    if |starts| > 1 {
      var rest := starts[1..];
      if IsList(table, k, starts) {
        assert forall i | 0 <= i < |rest| - 1 :: rest[i] == starts[i + 1] && table[k + 1 + i] == table[k + (i + 1)];
        assert table[k + 0] == starts[0];
      }
      if table[k] == starts[0] < 0x8000 && IsList(table, k + 1, rest) {
        forall i | 0 <= i < |starts| - 1 ensures starts[i] < 0x8000 && table[k + i] == starts[i] {
          assert i > 0 ==> starts[i] == rest[i - 1] && table[k + 1 + (i - 1)] == rest[i - 1];
        }
      }
    }
  }

  lemma Split(x: nat, rest: seq<nat>, starts: seq<nat>)
    requires starts != []
    ensures [x] + rest == starts <==> x == starts[0] && rest == starts[1..]
  {
    assert ([x] + rest)[1..] == rest;
    assert starts == [starts[0]] + starts[1..];
  }

  lemma {:induction false} ListIff(table: seq<nat>, k: nat, starts: seq<nat>)
    ensures StartList(table, k) == Some(starts) <==> IsList(table, k, starts)
    decreases |table| - k
  {
    if starts == [] {
      NeverEmpty(table, k);
    } else if k < |table| {
      ListFirst(table, k, starts);
      if table[k] >= 0x8000 {
        Split(table[k] - 0x8000, [], starts);
        assert [table[k] - 0x8000] + [] == [table[k] - 0x8000];
      } else {
        NeverEmpty(table, k + 1);
        ListIff(table, k + 1, starts[1..]);
        if StartList(table, k + 1).Some? {
          Split(table[k], StartList(table, k + 1).value, starts);
        }
      }
    }
  }

  lemma {:induction false} NeverEmpty(table: seq<nat>, k: nat)
    ensures StartList(table, k) != Some([])
  {
  }

  /** The starts of a page are those that its entry stands for. */
  lemma StartsIff(table: seq<nat>, pages: nat, index: nat, starts: seq<nat>)
    requires index < pages <= |table|
    ensures PageStarts(table, pages, index) == Some(starts) <==> AreStarts(table, pages, index, starts)
  {
    if table[index] >= 0x8000 {
      ListIff(table, table[index] - 0x8000, starts);
    }
  }

  // ---------------------------------------------------- the record of a segment

  /** What is said of the chains of one segment. */
  datatype Record = Record(pageSize: nat, format: nat, offset: nat, maxPointer: nat, pages: nat, table: seq<nat>)

  predicate IsRecord(x: Record) {
    && 22 + 2 * |x.table| < Power256(4) && x.pageSize < Power256(2) && x.format < Power256(2) && x.offset < Power256(8)
    && x.maxPointer < Power256(4) && x.pages < Power256(2) && AllBelow(x.table, Power256(2))
  }

  /** The bytes of a record: its size, its fields and its table. */
  function Written(x: Record): Bytes {
    Little(22 + 2 * |x.table|, 4) + (Little(x.pageSize, 2) + (Little(x.format, 2) + (Little(x.offset, 8)
    + (Little(x.maxPointer, 4) + (Little(x.pages, 2) + Numbers(x.table, 2))))))
  }

  /** The record that stands at `at`; nothing when its size is wrong. */
  function RecordAt(blob: Bytes, at: nat): Option<Record> {
    if at + 22 > |blob| then None
    else
      var size := LittleEndian(blob, at, 4);
      if size < 22 || at + size > |blob| || size % 2 != 0 then None
      else
        Some(Record(LittleEndian(blob, at + 4, 2), LittleEndian(blob, at + 6, 2), LittleEndian(blob, at + 8, 8),
          LittleEndian(blob, at + 16, 4), LittleEndian(blob, at + 20, 2), NumbersAt(blob, at + 22, 2, (size - 22) / 2)))
  }

  /** The parts of a written record stand where they are read. */
  lemma WrittenParts(blob: Bytes, at: nat, x: Record)
    ensures Has(blob, at, Written(x)) <==>
      && Has(blob, at, Little(22 + 2 * |x.table|, 4)) && Has(blob, at + 4, Little(x.pageSize, 2))
      && Has(blob, at + 6, Little(x.format, 2)) && Has(blob, at + 8, Little(x.offset, 8))
      && Has(blob, at + 16, Little(x.maxPointer, 4)) && Has(blob, at + 20, Little(x.pages, 2))
      && Has(blob, at + 22, Numbers(x.table, 2))
  {
    Parts(blob, at, Little(22 + 2 * |x.table|, 4), Little(x.pageSize, 2), Little(x.format, 2), Little(x.offset, 8),
      Little(x.maxPointer, 4), Little(x.pages, 2), Numbers(x.table, 2));
  }

  lemma Parts(blob: Bytes, at: nat, a: Bytes, b: Bytes, c: Bytes, d: Bytes, e: Bytes, f: Bytes, g: Bytes)
    requires |a| == |e| == 4 && |b| == |c| == |f| == 2 && |d| == 8
    ensures Has(blob, at, a + (b + (c + (d + (e + (f + g)))))) <==>
      && Has(blob, at, a) && Has(blob, at + 4, b) && Has(blob, at + 6, c) && Has(blob, at + 8, d)
      && Has(blob, at + 16, e) && Has(blob, at + 20, f) && Has(blob, at + 22, g)
  {
    HasJoin(blob, at, a, b + (c + (d + (e + (f + g)))));
    HasJoin(blob, at + 4, b, c + (d + (e + (f + g))));
    HasJoin(blob, at + 6, c, d + (e + (f + g)));
    HasJoin(blob, at + 8, d, e + (f + g));
    HasJoin(blob, at + 16, e, f + g);
    HasJoin(blob, at + 20, f, g);
  }

  /** The number stands there in full. */
  predicate IsSpelt(blob: Bytes, at: nat, n: nat, v: nat) {
    v < Power256(n) && Has(blob, at, Little(v, n))
  }

  lemma SpeltIff(blob: Bytes, at: nat, n: nat, v: nat)
    requires at + n <= |blob|
    ensures IsSpelt(blob, at, n, v) <==> LittleEndian(blob, at, n) == v
  {
    LittleIff(blob, at, n, v);
  }

  lemma FirstFields(blob: Bytes, at: nat, x: Record)
    requires at + 22 + 2 * |x.table| <= |blob|
    ensures IsSpelt(blob, at, 4, 22 + 2 * |x.table|) && IsSpelt(blob, at + 4, 2, x.pageSize) && IsSpelt(blob, at + 6, 2, x.format) <==>
      && LittleEndian(blob, at, 4) == 22 + 2 * |x.table| && LittleEndian(blob, at + 4, 2) == x.pageSize
      && LittleEndian(blob, at + 6, 2) == x.format
  {
    SpeltIff(blob, at, 4, 22 + 2 * |x.table|);
    SpeltIff(blob, at + 4, 2, x.pageSize);
    SpeltIff(blob, at + 6, 2, x.format);
  }

  lemma LastFields(blob: Bytes, at: nat, x: Record)
    requires at + 22 + 2 * |x.table| <= |blob|
    ensures IsSpelt(blob, at + 8, 8, x.offset) && IsSpelt(blob, at + 16, 4, x.maxPointer) && IsSpelt(blob, at + 20, 2, x.pages) <==>
      && LittleEndian(blob, at + 8, 8) == x.offset && LittleEndian(blob, at + 16, 4) == x.maxPointer
      && LittleEndian(blob, at + 20, 2) == x.pages
  {
    SpeltIff(blob, at + 8, 8, x.offset);
    SpeltIff(blob, at + 16, 4, x.maxPointer);
    SpeltIff(blob, at + 20, 2, x.pages);
  }

  lemma WrittenFields(blob: Bytes, at: nat, x: Record)
    requires at + 22 + 2 * |x.table| <= |blob|
    ensures IsRecord(x) && Has(blob, at, Written(x)) <==>
      && LittleEndian(blob, at, 4) == 22 + 2 * |x.table| && LittleEndian(blob, at + 4, 2) == x.pageSize
      && LittleEndian(blob, at + 6, 2) == x.format && LittleEndian(blob, at + 8, 8) == x.offset
      && LittleEndian(blob, at + 16, 4) == x.maxPointer && LittleEndian(blob, at + 20, 2) == x.pages
      && NumbersAt(blob, at + 22, 2, |x.table|) == x.table
  {
    WrittenParts(blob, at, x);
    FirstFields(blob, at, x);
    LastFields(blob, at, x);
    NumbersIff(blob, at + 22, 2, x.table);
  }

  /** A record is read exactly where it is written. */
  lemma RecordIff(blob: Bytes, at: nat, x: Record)
    ensures RecordAt(blob, at) == Some(x) <==> IsRecord(x) && Has(blob, at, Written(x))
  {
    if at + 22 + 2 * |x.table| <= |blob| {
      WrittenFields(blob, at, x);
    }
  }

  // ----------------------------------------------------- the header of the fixups

  /** Where the table of segments stands, and its entries: the distance to each segment's record, 0 for none. */
  datatype Header = Header(at: nat, offsets: seq<nat>)

  predicate IsHeader(h: Header) {
    28 <= h.at < Power256(4) && |h.offsets| < Power256(4) && AllBelow(h.offsets, Power256(4))
  }

  function HeaderAt(blob: Bytes): Option<Header> {
    if |blob| < 28 || LittleEndian(blob, 0, 4) != 0 then None
    else
      var at := LittleEndian(blob, 4, 4);
      if at < 28 || at + 4 > |blob| then None
      else
        var count := LittleEndian(blob, at, 4);
        if at + 4 + 4 * count > |blob| then None else Some(Header(at, NumbersAt(blob, at + 4, 4, count)))
  }

  /** The header is version 0 and leads to the table. */
  predicate SaysHeader(blob: Bytes, h: Header) {
    && IsHeader(h) && Has(blob, 0, Little(0, 4)) && Has(blob, 4, Little(h.at, 4))
    && Has(blob, h.at, Little(|h.offsets|, 4)) && Has(blob, h.at + 4, Numbers(h.offsets, 4))
  }

  lemma HeaderIff(blob: Bytes, h: Header)
    ensures HeaderAt(blob) == Some(h) <==> SaysHeader(blob, h)
  {
    if |blob| >= 28 {
      LittleIff(blob, 0, 4, 0);
      LittleIff(blob, 4, 4, h.at);
      if h.at + 4 + 4 * |h.offsets| <= |blob| {
        LittleIff(blob, h.at, 4, |h.offsets|);
        NumbersIff(blob, h.at + 4, 4, h.offsets);
      }
    }
  }

  // ------------------------------------------------------------ the page itself

  /** The page of an address in the segment of the record. */
  function PageIn(x: Record, seg: Segment, base: int, address: int): Option<Page>
    requires seg.vmaddr <= address
  {
    var vm := base + x.offset;
    if x.pages > |x.table| || (x.pageSize != 0x1000 && x.pageSize != 0x4000) then None
    else if (x.format != 2 && x.format != 6) || vm != seg.vmaddr then None
    else
      var index := (address - vm) / x.pageSize;
      if index >= x.pages then None
      else
        var starts := PageStarts(x.table, x.pages, index);
        if starts.None? then None else Some(Page(x.format, vm + index * x.pageSize, x.pageSize, starts.value))
  }

  /** The page of an address, by the header of the fixups and the table of their segments. */
  function PageOf(blob: Bytes, segments: seq<Segment>, base: int, address: int): Option<Page> {
    var h, loc := HeaderAt(blob), LocationOf(segments, address, 8);
    if h.None? || |h.value.offsets| > |segments| || loc.None? || loc.value.segment >= |h.value.offsets| then None
    else
      var offset := h.value.offsets[loc.value.segment];
      if offset == 0 || offset < 4 + 4 * |h.value.offsets| then None
      else
        var x := RecordAt(blob, h.value.at + offset);
        if x.None? then None else PageIn(x.value, segments[loc.value.segment], base, address)
  }

  /** The page is the one of the record's segment that holds the address, with the starts of its entry. */
  predicate IsPage(x: Record, seg: Segment, base: int, address: int, page: Page) {
    && x.pages <= |x.table| && (x.pageSize == 0x1000 || x.pageSize == 0x4000) && (x.format == 2 || x.format == 6)
    && base + x.offset == seg.vmaddr && page.format == x.format && page.size == x.pageSize
    && page.vm <= address < Limit(page)
    && exists index: nat :: index < x.pages && page.vm == seg.vmaddr + index * x.pageSize
                         && AreStarts(x.table, x.pages, index, page.starts)
  }

  lemma InPage(n: nat, size: nat, k: nat)
    requires size > 0
    ensures n / size == k <==> k * size <= n < k * size + size
  {
    if k * size <= n < k * size + size {
      var d := n / size - k;
      assert d >= 1 ==> size * d >= size;
      assert d <= -1 ==> size * d + size <= 0;
    }
  }

  lemma PageInIff(x: Record, seg: Segment, base: int, address: int, page: Page)
    requires seg.vmaddr <= address
    ensures PageIn(x, seg, base, address) == Some(page) <==> IsPage(x, seg, base, address, page)
  {
    if x.pageSize > 0 && base + x.offset == seg.vmaddr && x.pages <= |x.table| {
      var at := address - seg.vmaddr;
      var index := at / x.pageSize;
      InPage(at, x.pageSize, index);
      if index < x.pages {
        StartsIff(x.table, x.pages, index, page.starts);
      }
      if IsPage(x, seg, base, address, page) {
        var k: nat :| k < x.pages && page.vm == seg.vmaddr + k * x.pageSize && AreStarts(x.table, x.pages, k, page.starts);
        InPage(at, x.pageSize, k);
      }
    }
  }

  /** What the bytes say: a header, for the segment of the address a record, and in it the page. */
  predicate SaysPage(blob: Bytes, segments: seq<Segment>, base: int, address: int, page: Page, h: Header, x: Record, s: nat) {
    && SaysHeader(blob, h) && s < |h.offsets| <= |segments|
    && Covers(segments[s], address, 8) && (forall j | 0 <= j < |segments| :: Covers(segments[j], address, 8) ==> j == s)
    && 0 <= address && h.offsets[s] >= 4 + 4 * |h.offsets|
    && IsRecord(x) && Has(blob, h.at + h.offsets[s], Written(x)) && IsPage(x, segments[s], base, address, page)
  }

  /** The parts that are found make up the page. */
  lemma PageFrom(blob: Bytes, segments: seq<Segment>, base: int, address: int, page: Page, h: Header, x: Record, loc: Location)
    requires HeaderAt(blob) == Some(h) && LocationOf(segments, address, 8) == Some(loc)
    requires loc.segment < |h.offsets| <= |segments| && h.offsets[loc.segment] >= 4 + 4 * |h.offsets|
    requires RecordAt(blob, h.at + h.offsets[loc.segment]) == Some(x) && segments[loc.segment].vmaddr <= address
    requires PageIn(x, segments[loc.segment], base, address) == Some(page)
    ensures PageOf(blob, segments, base, address) == Some(page)
  {
  }

  lemma SaidLocation(segments: seq<Segment>, address: int, s: nat) returns (loc: Location)
    requires s < |segments| && Covers(segments[s], address, 8) && 0 <= address
    requires forall j | 0 <= j < |segments| :: Covers(segments[j], address, 8) ==> j == s
    ensures LocationOf(segments, address, 8) == Some(loc) && loc.segment == s
  {
    loc := Location(s, segments[s].fileoff + (address - segments[s].vmaddr));
    LocationIff(segments, address, 8, s, loc.offset);
  }

  lemma SaidRecord(blob: Bytes, seg: Segment, base: int, address: int, page: Page, at: nat, x: Record)
    requires IsRecord(x) && Has(blob, at, Written(x)) && IsPage(x, seg, base, address, page) && seg.vmaddr <= address
    ensures RecordAt(blob, at) == Some(x) && PageIn(x, seg, base, address) == Some(page)
  {
    RecordIff(blob, at, x);
    PageInIff(x, seg, base, address, page);
  }

  lemma SaidIsFound(blob: Bytes, segments: seq<Segment>, base: int, address: int, page: Page, h: Header, x: Record, s: nat)
    requires SaysPage(blob, segments, base, address, page, h, x, s)
    ensures PageOf(blob, segments, base, address) == Some(page)
  {
    HeaderIff(blob, h);
    SaidRecord(blob, segments[s], base, address, page, h.at + h.offsets[s], x);
    var loc := SaidLocation(segments, address, s);
    PageFrom(blob, segments, base, address, page, h, x, loc);
  }

  lemma FoundIsSaid(blob: Bytes, segments: seq<Segment>, base: int, address: int, page: Page)
      returns (h: Header, x: Record, s: nat)
    requires PageOf(blob, segments, base, address) == Some(page)
    ensures SaysPage(blob, segments, base, address, page, h, x, s)
  {
    var loc := LocationOf(segments, address, 8).value;
    h, s := HeaderAt(blob).value, loc.segment;
    x := RecordAt(blob, h.at + h.offsets[s]).value;
    HeaderIff(blob, h);
    LocationIff(segments, address, 8, s, loc.offset);
    RecordIff(blob, h.at + h.offsets[s], x);
    PageInIff(x, segments[s], base, address, page);
  }

  /** The page that is found is the one that the bytes say, and there is one exactly when they do. */
  lemma PageIff(blob: Bytes, segments: seq<Segment>, base: int, address: int, page: Page)
    ensures PageOf(blob, segments, base, address) == Some(page) <==>
      exists h, x, s: nat :: SaysPage(blob, segments, base, address, page, h, x, s)
  {
    if h, x, s: nat :| SaysPage(blob, segments, base, address, page, h, x, s) {
      SaidIsFound(blob, segments, base, address, page, h, x, s);
    }
    if PageOf(blob, segments, base, address) == Some(page) {
      var h, x, s := FoundIsSaid(blob, segments, base, address, page);
    }
  }

  /** The page that is walked is the one that holds the address. */
  lemma PageHolds(blob: Bytes, segments: seq<Segment>, base: int, address: int)
    requires PageOf(blob, segments, base, address).Some?
    ensures var page := PageOf(blob, segments, base, address).value;
      page.vm <= address < Limit(page) && (page.size == 0x1000 || page.size == 0x4000)
  {
    PageIff(blob, segments, base, address, PageOf(blob, segments, base, address).value);
  }
}
