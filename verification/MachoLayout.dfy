/**
 The bytes of universal files and load commands (<mach-o/fat.h>, <mach-o/loader.h>), field by field:
 `macho_slices` and `_read_load_commands` of scripts/closure_analyze.py find exactly what is written
 there.
 */
module MachoLayout {
  import opened Prelude
  import opened Leb128
  import opened ByteOrder
  import opened Macho

  // ---------------------------------------------------------- universal files

  /** A record of the architecture table: CPU type, subtype, offset and size, the last two `width` bytes wide. */
  predicate SaysSlice(data: Bytes, at: nat, width: nat, s: Slice) {
    && s.cpu < Power256(4) && s.offset < Power256(width) && s.size < Power256(width)
    && Has(data, at, Big(s.cpu, 4)) && Has(data, at + 8, Big(s.offset, width)) && Has(data, at + 8 + width, Big(s.size, width))
  }

  predicate SaysRecords(data: Bytes, stride: nat, width: nat, slices: seq<Slice>) {
    forall i | 0 <= i < |slices| :: SaysSlice(data, 8 + i * stride, width, slices[i])
  }

  predicate LieBetween(slices: seq<Slice>, low: nat, high: nat) {
    forall i | 0 <= i < |slices| :: low <= slices[i].offset && 8 <= slices[i].size && slices[i].offset + slices[i].size <= high
  }

  /** A table of slices behind the magic number and the count, and each slice behind the table and inside the file. */
  predicate SaysSlices(data: Bytes, stride: nat, width: nat, slices: seq<Slice>) {
    && 0 < |slices| < Power256(4) && Has(data, 4, Big(|slices|, 4)) && 8 + |slices| * stride <= |data|
    && SaysRecords(data, stride, width, slices) && LieBetween(slices, 8 + |slices| * stride, |data|)
  }

  lemma SliceIff(data: Bytes, magic: nat, at: nat, width: nat, s: Slice)
    requires at + Stride(magic) <= |data| && width == Width(magic)
    ensures SliceAt(data, magic, at) == s <==> SaysSlice(data, at, width, s)
  {
    BigIff(data, at, 4, s.cpu);
    BigIff(data, at + 8, width, s.offset);
    BigIff(data, at + 8 + width, width, s.size);
  }

  lemma RecordsIff(data: Bytes, magic: nat, stride: nat, width: nat, slices: seq<Slice>)
    requires stride == Stride(magic) && width == Width(magic) && 8 + |slices| * stride <= |data|
    ensures AreRecords(data, magic, slices) <==> SaysRecords(data, stride, width, slices)
  {
    forall i | 0 <= i < |slices|
      ensures 8 + i * stride + stride <= |data|
      ensures slices[i] == SliceAt(data, magic, 8 + i * stride) <==> SaysSlice(data, 8 + i * stride, width, slices[i])
    {
      RecordFits(magic, |slices|, i, |data|);
      SliceIff(data, magic, 8 + i * stride, width, slices[i]);
    }
  }

  lemma InsideIff(slices: seq<Slice>, table: nat, length: nat)
    ensures AreInside(slices, table, length) <==> LieBetween(slices, table, length)
  {
    assert forall i | 0 <= i < |slices| :: Inside(slices[i], table, length) <==>
      table <= slices[i].offset && 8 <= slices[i].size && slices[i].offset + slices[i].size <= length;
  }

  lemma TableIff(data: Bytes, magic: nat, stride: nat, width: nat, slices: seq<Slice>)
    requires |data| >= 8 && magic == BigEndian(data, 0, 4) && IsFat(magic) && stride == Stride(magic) && width == Width(magic)
    ensures AreSlices(data, slices) <==> SaysSlices(data, stride, width, slices)
  {
    BigIff(data, 4, 4, |slices|);
    InsideIff(slices, 8 + |slices| * stride, |data|);
    if 8 + |slices| * stride <= |data| {
      RecordsIff(data, magic, stride, width, slices);
    }
  }

  /** What the slices of a file are: those of its table, narrow or wide, or else the whole file. */
  lemma SlicesIff(data: Bytes, slices: seq<Slice>)
    ensures AreSlices(data, slices) <==>
      && |data| >= 8
      && if Has(data, 0, Big(0xCAFEBABE, 4)) then SaysSlices(data, 20, 4, slices)
         else if Has(data, 0, Big(0xCAFEBABF, 4)) then SaysSlices(data, 32, 8, slices)
         else slices == [Slice(0, 0, |data|)]
  {
    if |data| >= 8 {
      var magic := BigEndian(data, 0, 4);
      BigIff(data, 0, 4, 0xCAFEBABE);
      BigIff(data, 0, 4, 0xCAFEBABF);
      FourBytes(0xCAFEBABE);
      FourBytes(0xCAFEBABF);
      if IsFat(magic) {
        TableIff(data, magic, Stride(magic), Width(magic), slices);
      }
    }
  }

  lemma FourBytes(v: nat)
    requires v < 0x1_0000_0000
    ensures v < Power256(4)
  {
    assert Power256(4) == 256 * Power256(3) == 256 * (256 * (256 * (256 * Power256(0))));
  }

  // ------------------------------------------------------------- load commands

  /** What a load command says: a segment, where the chained fixups are, or nothing that is used. */
  datatype Item = SegmentItem(seg: Segment) | FixupsItem(range: Range) | OtherItem(code: nat)

  function CodeOf(item: Item): nat {
    match item
    case SegmentItem(_) => 0x19
    case FixupsItem(_) => 0x80000034
    case OtherItem(code) => code
  }

  /** The four fields behind the name of a segment command. */
  predicate SaysSegment(blob: Bytes, at: nat, seg: Segment) {
    && seg.vmaddr < Power256(8) && seg.vmsize < Power256(8) && seg.fileoff < Power256(8) && seg.filesize < Power256(8)
    && Has(blob, at + 24, Little(seg.vmaddr, 8)) && Has(blob, at + 32, Little(seg.vmsize, 8))
    && Has(blob, at + 40, Little(seg.fileoff, 8)) && Has(blob, at + 48, Little(seg.filesize, 8))
  }

  predicate SaysRange(blob: Bytes, at: nat, range: Range) {
    && range.at < Power256(4) && range.size < Power256(4)
    && Has(blob, at + 8, Little(range.at, 4)) && Has(blob, at + 12, Little(range.size, 4))
  }

  /** The offset of a name, the eight words of the dyld info and the range of the export trie are in the slice. */
  predicate HasPrefix(blob: Bytes, at: nat, code: nat) {
    && at + 8 <= |blob|
    && (code in {0xC, 0xD, 0x80000018, 0x8000001C, 0x8000001F, 0x80000020, 0x80000023} ==> at + 12 <= |blob|)
    && (code in {0x22, 0x80000022} ==> at + 40 <= |blob|) && (code == 0x80000033 ==> at + 16 <= |blob|)
  }

  /** The command is long enough for what it says, and what it names lies inside the slice. */
  predicate SaysItem(blob: Bytes, at: nat, size: nat, item: Item) {
    match item
    case SegmentItem(seg) => 72 <= size && SaysSegment(blob, at, seg) && seg.fileoff + seg.filesize <= |blob|
    case FixupsItem(range) => 16 <= size && SaysRange(blob, at, range) && range.at + range.size <= |blob|
    case OtherItem(code) =>
      code != 0x19 && code != 0x80000034 && (code == 0x1B ==> 24 <= size) && HasPrefix(blob, at, code)
  }

  /** The command at its place: code, size and content. */
  predicate SaysCommand(blob: Bytes, c: Command, end: nat, item: Item) {
    && c.code == CodeOf(item) && c.code < Power256(4) && 8 <= c.size < Power256(4) && c.at + c.size <= end <= |blob|
    && Has(blob, c.at, Little(c.code, 4)) && Has(blob, c.at + 4, Little(c.size, 4)) && SaysItem(blob, c.at, c.size, item)
  }

  lemma SegmentIff(blob: Bytes, at: nat, seg: Segment)
    requires at + 56 <= |blob|
    ensures SegmentAt(blob, at) == seg <==> SaysSegment(blob, at, seg)
  {
    LittleIff(blob, at + 24, 8, seg.vmaddr);
    LittleIff(blob, at + 32, 8, seg.vmsize);
    LittleIff(blob, at + 40, 8, seg.fileoff);
    LittleIff(blob, at + 48, 8, seg.filesize);
  }

  lemma RangeIff(blob: Bytes, at: nat, range: Range)
    requires at + 16 <= |blob|
    ensures Range(LittleEndian(blob, at + 8, 4), LittleEndian(blob, at + 12, 4)) == range <==> SaysRange(blob, at, range)
  {
    LittleIff(blob, at + 8, 4, range.at);
    LittleIff(blob, at + 12, 4, range.size);
  }

  /** The item of a command that is well-formed. */
  function ItemOf(blob: Bytes, c: Command, end: nat): Item
    requires IsCommand(blob, c, end)
  {
    if c.code == LC_SEGMENT_64 then SegmentItem(SegmentAt(blob, c.at))
    else if c.code == LC_DYLD_CHAINED_FIXUPS then
      FixupsItem(Range(LittleEndian(blob, c.at + 8, 4), LittleEndian(blob, c.at + 12, 4)))
    else OtherItem(c.code)
  }

  lemma CommandSays(blob: Bytes, c: Command, end: nat)
    requires IsCommand(blob, c, end)
    ensures SaysCommand(blob, c, end, ItemOf(blob, c, end))
  {
    LittleIff(blob, c.at, 4, c.code);
    LittleIff(blob, c.at + 4, 4, c.size);
    if c.code == LC_SEGMENT_64 {
      SegmentIff(blob, c.at, SegmentAt(blob, c.at));
    } else if c.code == LC_DYLD_CHAINED_FIXUPS {
      RangeIff(blob, c.at, Range(LittleEndian(blob, c.at + 8, 4), LittleEndian(blob, c.at + 12, 4)));
    }
  }

  lemma SaidIsSegment(blob: Bytes, c: Command, end: nat, seg: Segment)
    requires SaysCommand(blob, c, end, SegmentItem(seg))
    ensures IsCommand(blob, c, end) && ItemOf(blob, c, end) == SegmentItem(seg)
  {
    LittleIff(blob, c.at, 4, c.code);
    LittleIff(blob, c.at + 4, 4, c.size);
    SegmentIff(blob, c.at, seg);
  }

  lemma SaidIsCommand(blob: Bytes, c: Command, end: nat, item: Item)
    requires SaysCommand(blob, c, end, item)
    ensures IsCommand(blob, c, end) && ItemOf(blob, c, end) == item
  {
    if item.SegmentItem? {
      SaidIsSegment(blob, c, end, item.seg);
    } else {
      LittleIff(blob, c.at, 4, c.code);
      LittleIff(blob, c.at + 4, 4, c.size);
      if item.FixupsItem? {
        RangeIff(blob, c.at, item.range);
      }
    }
  }

  /** A well-formed command is one whose bytes say it. */
  lemma CommandIff(blob: Bytes, c: Command, end: nat)
    ensures IsCommand(blob, c, end) <==> exists item :: SaysCommand(blob, c, end, item)
  {
    if IsCommand(blob, c, end) {
      CommandSays(blob, c, end);
    }
    if item :| SaysCommand(blob, c, end, item) {
      SaidIsCommand(blob, c, end, item);
    }
  }

  // -------------------------------------------------------- all commands of a slice

  /** Each command says its item, and they follow each other without a gap. */
  predicate SaysCommands(blob: Bytes, cs: seq<Command>, items: seq<Item>, at: nat, end: nat) {
    && |items| == |cs| && (forall k | 0 <= k < |cs| :: SaysCommand(blob, cs[k], end, items[k]))
    && (if cs == [] then at == end else cs[0].at == at && cs[|cs| - 1].at + cs[|cs| - 1].size == end)
    && forall k | 0 < k < |cs| :: cs[k].at == cs[k - 1].at + cs[k - 1].size
  }

  function OwnSegment(item: Item): seq<Segment> {
    if item.SegmentItem? then [item.seg] else []
  }

  function SegmentsOf(items: seq<Item>): seq<Segment> {
    if items == [] then []
    else OwnSegment(items[0]) + SegmentsOf(items[1..])
  }

  /** The fixups are where the last command that says it says. */
  predicate AreFixups(items: seq<Item>, fixups: Option<Range>) {
    match fixups
    case None => forall k | 0 <= k < |items| :: !items[k].FixupsItem?
    case Some(range) => exists k | 0 <= k < |items| ::
      items[k] == FixupsItem(range) && forall j | k < j < |items| :: !items[j].FixupsItem?
  }

  lemma SaysRest(blob: Bytes, cs: seq<Command>, items: seq<Item>, at: nat, end: nat)
    requires cs != [] && SaysCommands(blob, cs, items, at, end)
    ensures cs[0].at == at && SaysCommand(blob, cs[0], end, items[0])
    ensures SaysCommands(blob, cs[1..], items[1..], at + cs[0].size, end)
  {
    assert forall k | 0 <= k < |cs[1..]| :: cs[1..][k] == cs[k + 1] && items[1..][k] == items[k + 1];
  }

  lemma SaysMore(blob: Bytes, cs: seq<Command>, items: seq<Item>, end: nat)
    requires |cs| == |items| > 0 && SaysCommand(blob, cs[0], end, items[0])
    requires SaysCommands(blob, cs[1..], items[1..], cs[0].at + cs[0].size, end)
    ensures SaysCommands(blob, cs, items, cs[0].at, end)
  {
    var ds, rest := cs[1..], items[1..];
    forall k | 0 <= k < |cs| ensures SaysCommand(blob, cs[k], end, items[k]) {
      assert k > 0 ==> cs[k] == ds[k - 1] && items[k] == rest[k - 1];
    }
    forall k | 0 < k < |cs| ensures cs[k].at == cs[k - 1].at + cs[k - 1].size {
      assert k > 1 ==> ds[k - 1].at == ds[k - 2].at + ds[k - 2].size;
    }
  }

  lemma {:induction false} TileSays(blob: Bytes, cs: seq<Command>, at: nat, end: nat) returns (items: seq<Item>)
    requires Tile(blob, cs, at, end)
    ensures SaysCommands(blob, cs, items, at, end)
  {
    if cs == [] {
      items := [];
    } else {
      CommandSays(blob, cs[0], end);
      var rest := TileSays(blob, cs[1..], at + cs[0].size, end);
      items := [ItemOf(blob, cs[0], end)] + rest;
      assert items[1..] == rest;
      SaysMore(blob, cs, items, end);
    }
  }

  lemma {:induction false} SaidIsTile(blob: Bytes, cs: seq<Command>, items: seq<Item>, at: nat, end: nat)
    requires SaysCommands(blob, cs, items, at, end)
    ensures Tile(blob, cs, at, end)
    decreases |cs|
  {
    if cs != [] {
      SaysRest(blob, cs, items, at, end);
      SaidIsTile(blob, cs[1..], items[1..], at + cs[0].size, end);
      assert IsCommand(blob, cs[0], end) by {
        SaidIsCommand(blob, cs[0], end, items[0]);
      }
    }
  }

  lemma SegmentsNext(item: Item, items: seq<Item>)
    ensures SegmentsOf([item] + items) == OwnSegment(item) + SegmentsOf(items)
  {
    assert ([item] + items)[1..] == items;
  }

  lemma {:induction false} SegmentsLast(items: seq<Item>, item: Item)
    ensures SegmentsOf(items + [item]) == SegmentsOf(items) + OwnSegment(item)
  {
    if items == [] {
      SegmentsNext(item, []);
      assert items + [item] == [item] + [];
    } else {
      SegmentsLast(items[1..], item);
      SegmentsNext(items[0], items[1..]);
      SegmentsNext(items[0], items[1..] + [item]);
      assert items == [items[0]] + items[1..];
      assert items + [item] == [items[0]] + (items[1..] + [item]);
    }
  }

  lemma FixupsLast(items: seq<Item>, item: Item, fixups: Option<Range>)
    requires AreFixups(items, fixups)
    ensures AreFixups(items + [item], if item.FixupsItem? then Some(item.range) else fixups)
  {
    var all := items + [item];
    if item.FixupsItem? {
      assert all[|items|] == FixupsItem(item.range);
    } else if fixups.Some? {
      var k :| 0 <= k < |items| && items[k] == FixupsItem(fixups.value) && forall j | k < j < |items| :: !items[j].FixupsItem?;
      assert all[k] == FixupsItem(fixups.value);
    }
  }

  lemma AllCommands(blob: Bytes, cs: seq<Command>, items: seq<Item>, end: nat)
    requires |items| == |cs| && forall k | 0 <= k < |cs| :: SaysCommand(blob, cs[k], end, items[k])
    ensures forall c | c in cs :: IsCommand(blob, c, end)
  {
    forall c | c in cs ensures IsCommand(blob, c, end) {
      var k :| 0 <= k < |cs| && cs[k] == c;
      SaidIsCommand(blob, c, end, items[k]);
    }
  }

  lemma NotedItem(blob: Bytes, c: Command, end: nat, item: Item, so: Commands)
    requires SaysCommand(blob, c, end, item)
    ensures IsCommand(blob, c, end)
    ensures Noted(blob, c, so, end) ==
      Commands(so.segments + OwnSegment(item), if item.FixupsItem? then Some(item.range) else so.fixups)
  {
    SaidIsCommand(blob, c, end, item);
    assert so.segments + [] == so.segments;
  }

  /** What is collected: the segments in their order, and the last place of the fixups. */
  lemma {:induction false} Collected(blob: Bytes, cs: seq<Command>, items: seq<Item>, end: nat)
    requires |items| == |cs| && forall k | 0 <= k < |cs| :: SaysCommand(blob, cs[k], end, items[k])
    ensures forall c | c in cs :: IsCommand(blob, c, end)
    ensures Collect(blob, cs, end).segments == SegmentsOf(items) && AreFixups(items, Collect(blob, cs, end).fixups)
    decreases |cs|
  {
    AllCommands(blob, cs, items, end);
    if cs != [] {
      var n := |cs| - 1;
      Collected(blob, cs[..n], items[..n], end);
      NotedItem(blob, cs[n], end, items[n], Collect(blob, cs[..n], end));
      assert items == items[..n] + [items[n]];
      SegmentsLast(items[..n], items[n]);
      FixupsLast(items[..n], items[n], Collect(blob, cs[..n], end).fixups);
    }
  }

  /** The header of a slice: CPU type, number and total size of the commands. */
  predicate SaysSize(blob: Bytes, cpu: nat, count: nat, size: nat) {
    && |blob| >= 32 && (cpu == 0 || (cpu < Power256(4) && Has(blob, 4, Little(cpu, 4))))
    && count < Power256(4) && Has(blob, 16, Little(count, 4)) && size < Power256(4) && Has(blob, 20, Little(size, 4))
    && 32 + size <= |blob|
  }

  lemma SizeIff(blob: Bytes, cpu: nat, count: nat, size: nat)
    requires |blob| >= 32
    ensures SaysSize(blob, cpu, count, size) <==>
      && (cpu == 0 || cpu == LittleEndian(blob, 4, 4)) && count == LittleEndian(blob, 16, 4)
      && size == LittleEndian(blob, 20, 4) && 32 + size <= |blob|
  {
    LittleIff(blob, 4, 4, cpu);
    LittleIff(blob, 16, 4, count);
    LittleIff(blob, 20, 4, size);
  }

  /** The header, and from there to the end the commands. */
  predicate SaysAll(blob: Bytes, cpu: nat, cs: seq<Command>, items: seq<Item>, size: nat) {
    SaysSize(blob, cpu, |cs|, size) && SaysCommands(blob, cs, items, 32, 32 + size)
  }

  lemma SaidAreCommands(blob: Bytes, cpu: nat, cs: seq<Command>, items: seq<Item>, size: nat)
    requires SaysAll(blob, cpu, cs, items, size)
    ensures AreCommands(blob, cpu, cs)
  {
    SizeIff(blob, cpu, |cs|, size);
    SaidIsTile(blob, cs, items, 32, 32 + size);
  }

  lemma CommandsAreSaid(blob: Bytes, cpu: nat, cs: seq<Command>) returns (items: seq<Item>, size: nat)
    requires AreCommands(blob, cpu, cs)
    ensures SaysAll(blob, cpu, cs, items, size)
  {
    size := LittleEndian(blob, 20, 4);
    SizeIff(blob, cpu, |cs|, size);
    items := TileSays(blob, cs, 32, 32 + size);
  }

  /** The commands of a slice are those that its bytes say. */
  lemma CommandsIff(blob: Bytes, cpu: nat, cs: seq<Command>)
    ensures AreCommands(blob, cpu, cs) <==> exists items, size: nat :: SaysAll(blob, cpu, cs, items, size)
  {
    if items, size: nat :| SaysAll(blob, cpu, cs, items, size) {
      SaidAreCommands(blob, cpu, cs, items, size);
    }
    if AreCommands(blob, cpu, cs) {
      var items, size := CommandsAreSaid(blob, cpu, cs);
    }
  }
}
