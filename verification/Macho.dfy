/**
 The containers that scripts/closure_analyze.py reads pointers from: universal files with their slices
 (`macho_slices`), the load commands of a slice (`_read_load_commands`) and the map from addresses to
 file offsets (`vm_file_location`). Whatever is accepted stays inside the slice, and the slice inside
 the file.
 */
module Macho {
  import opened Prelude
  import opened Leb128
  import opened ByteOrder

  const FAT_MAGIC: nat := 0xCAFEBABE
  const FAT_MAGIC_64: nat := 0xCAFEBABF
  const MH_MAGIC_64: nat := 0xFEEDFACF
  const LC_SEGMENT_64: nat := 0x19
  const LC_UUID: nat := 0x1B
  const LC_ID_DYLIB: nat := 0xD
  const LC_RPATH: nat := 0x8000001C
  const LC_DYLD_INFO: nat := 0x22
  const LC_DYLD_INFO_ONLY: nat := 0x80000022
  const LC_DYLD_EXPORTS_TRIE: nat := 0x80000033
  const LC_DYLD_CHAINED_FIXUPS: nat := 0x80000034

  // ------------------------------------------------------------------ slices

  datatype Slice = Slice(cpu: nat, offset: nat, size: nat)

  predicate IsFat(magic: nat) {
    magic == FAT_MAGIC || magic == FAT_MAGIC_64
  }

  /** The size of one record of the architecture table, and of its offset and size fields. */
  function Stride(magic: nat): nat {
    if magic == FAT_MAGIC_64 then 32 else 20
  }

  function Width(magic: nat): nat {
    if magic == FAT_MAGIC_64 then 8 else 4
  }

  function TableEnd(magic: nat, count: nat): nat {
    8 + count * Stride(magic)
  }

  /** The slice that the record at `at` describes. */
  function SliceAt(data: Bytes, magic: nat, at: nat): Slice
    requires at + Stride(magic) <= |data|
  {
    Slice(BigEndian(data, at, 4), BigEndian(data, at + 8, Width(magic)), BigEndian(data, at + 8 + Width(magic), Width(magic)))
  }

  /** A slice lies behind the table, holds a header and ends within the file. */
  predicate Inside(s: Slice, table: nat, length: nat) {
    table <= s.offset && 8 <= s.size && s.offset + s.size <= length
  }

  lemma RecordFits(magic: nat, count: nat, i: nat, length: nat)
    requires TableEnd(magic, count) <= length && i < count
    ensures 8 + i * Stride(magic) + Stride(magic) <= length
  {
    assert (i + 1) * Stride(magic) <= count * Stride(magic);
  }

  /** The records of the architecture table. */
  predicate AreRecords(data: Bytes, magic: nat, slices: seq<Slice>) {
    forall i | 0 <= i < |slices| ::
      8 + i * Stride(magic) + Stride(magic) <= |data| && slices[i] == SliceAt(data, magic, 8 + i * Stride(magic))
  }

  predicate AreInside(slices: seq<Slice>, table: nat, length: nat) {
    forall i | 0 <= i < |slices| :: Inside(slices[i], table, length)
  }

  /** The file is one slice, or a table of slices of which every one is inside the file. */
  predicate AreSlices(data: Bytes, slices: seq<Slice>) {
    && |data| >= 8
    && var magic, count := BigEndian(data, 0, 4), BigEndian(data, 4, 4);
       if !IsFat(magic) then slices == [Slice(0, 0, |data|)]
       else
         && count > 0 && TableEnd(magic, count) <= |data| && |slices| == count
         && AreRecords(data, magic, slices) && AreInside(slices, TableEnd(magic, count), |data|)
  }

  /** The slices of a file, exactly when it is well-formed. */
  method MachoSlices(data: Bytes) returns (r: Option<seq<Slice>>)
    ensures r.Some? ==> AreSlices(data, r.value)
    ensures r.None? ==> forall slices :: !AreSlices(data, slices)
  {
    if |data| < 8 {
      return None;
    }
    var magic := BigEndian(data, 0, 4);
    if !IsFat(magic) {
      return Some([Slice(0, 0, |data|)]);
    }
    var count := BigEndian(data, 4, 4);
    if count == 0 || TableEnd(magic, count) > |data| {
      return None;
    }
    var out: seq<Slice> := [];
    for i := 0 to count
      invariant |out| == i && AreRecords(data, magic, out) && AreInside(out, TableEnd(magic, count), |data|)
    {
      RecordFits(magic, count, i, |data|);
      var s := SliceAt(data, magic, 8 + i * Stride(magic));
      if !Inside(s, TableEnd(magic, count), |data|) {
        return None;
      }
      out := out + [s];
    }
    r := Some(out);
  }

  lemma SlicesInFile(data: Bytes, slices: seq<Slice>, i: nat)
    requires AreSlices(data, slices) && i < |slices|
    ensures slices[i].offset + slices[i].size <= |data|
  {
  }

  // ----------------------------------------------------------- load commands

  datatype Segment = Segment(vmaddr: nat, vmsize: nat, fileoff: nat, filesize: nat)

  /** Where the chained fixups stand in the slice. */
  datatype Range = Range(at: nat, size: nat)

  datatype Commands = Commands(segments: seq<Segment>, fixups: Option<Range>)

  /** One load command: its code, place and size. */
  datatype Command = Command(code: nat, at: nat, size: nat)

  function SegmentAt(blob: Bytes, at: nat): Segment
    requires at + 56 <= |blob|
  {
    Segment(LittleEndian(blob, at + 24, 8), LittleEndian(blob, at + 32, 8), LittleEndian(blob, at + 40, 8),
      LittleEndian(blob, at + 48, 8))
  }

  /** LC_LOAD_DYLIB and its weak, re-exported, lazy and upward forms. */
  predicate IsDylibCommand(code: nat) {
    code == 0xC || code == 0x80000018 || code == 0x8000001F || code == 0x80000020 || code == 0x80000023
  }

  /** How many bytes of a command are read whatever its size; they only have to be in the slice. */
  function BytesRead(code: nat): nat {
    if IsDylibCommand(code) || code == LC_RPATH || code == LC_ID_DYLIB then 12
    else if code == LC_DYLD_INFO || code == LC_DYLD_INFO_ONLY then 40
    else if code == LC_DYLD_EXPORTS_TRIE then 16
    else 8
  }

  /** A command that is whole, and whose file range, if it has one, is inside the slice. */
  predicate IsCommand(blob: Bytes, c: Command, end: nat) {
    && c.at + 8 <= end <= |blob| && c.code == LittleEndian(blob, c.at, 4) && c.size == LittleEndian(blob, c.at + 4, 4)
    && 8 <= c.size && c.at + c.size <= end && (c.code == LC_UUID ==> 24 <= c.size) && c.at + BytesRead(c.code) <= |blob|
    && (c.code == LC_SEGMENT_64 ==>
          72 <= c.size && SegmentAt(blob, c.at).fileoff + SegmentAt(blob, c.at).filesize <= |blob|)
    && (c.code == LC_DYLD_CHAINED_FIXUPS ==>
          16 <= c.size && LittleEndian(blob, c.at + 8, 4) + LittleEndian(blob, c.at + 12, 4) <= |blob|)
  }

  /** The commands fill the command area without a gap. */
  predicate Tile(blob: Bytes, cs: seq<Command>, at: nat, end: nat) {
    if cs == [] then at == end
    else cs[0].at == at && IsCommand(blob, cs[0], end) && Tile(blob, cs[1..], at + cs[0].size, end)
  }

  /** What one more command says: segments are kept in order, of the fixups the last. */
  function Noted(blob: Bytes, c: Command, so: Commands, end: nat): Commands
    requires IsCommand(blob, c, end)
  {
    if c.code == LC_SEGMENT_64 then so.(segments := so.segments + [SegmentAt(blob, c.at)])
    else if c.code == LC_DYLD_CHAINED_FIXUPS then
      so.(fixups := Some(Range(LittleEndian(blob, c.at + 8, 4), LittleEndian(blob, c.at + 12, 4))))
    else so
  }

  function Collect(blob: Bytes, cs: seq<Command>, end: nat): Commands
    requires forall c | c in cs :: IsCommand(blob, c, end)
  {
    if cs == [] then Commands([], None)
    else
      assert IsCommand(blob, cs[|cs| - 1], end);
      Noted(blob, cs[|cs| - 1], Collect(blob, cs[..|cs| - 1], end), end)
  }

  /** Every range that the commands name lies inside the slice. */
  predicate AllInside(cs: Commands, length: nat) {
    && (forall i | 0 <= i < |cs.segments| :: cs.segments[i].fileoff + cs.segments[i].filesize <= length)
    && (cs.fixups.Some? ==> cs.fixups.value.at + cs.fixups.value.size <= length)
  }

  lemma {:induction false} CollectInside(blob: Bytes, cs: seq<Command>, end: nat)
    requires forall c | c in cs :: IsCommand(blob, c, end)
    ensures AllInside(Collect(blob, cs, end), |blob|)
  {
    if cs != [] {
      assert IsCommand(blob, cs[|cs| - 1], end);
      CollectInside(blob, cs[..|cs| - 1], end);
    }
  }

  /** The commands of a slice: as many as the header says, exactly as long as the header says. */
  predicate AreCommands(blob: Bytes, cpu: nat, cs: seq<Command>) {
    && |blob| >= 32 && (cpu == 0 || cpu == LittleEndian(blob, 4, 4))
    && |cs| == LittleEndian(blob, 16, 4) && 32 + LittleEndian(blob, 20, 4) <= |blob|
    && Tile(blob, cs, 32, 32 + LittleEndian(blob, 20, 4))
  }

  predicate IsDefined(blob: Bytes) {
    |blob| >= 32 && LittleEndian(blob, 0, 4) == MH_MAGIC_64
  }

  /** The command that starts at `at`, when a whole one does. */
  function CommandAt(blob: Bytes, at: nat, end: nat): (c: Option<Command>)
    requires end <= |blob|
    ensures c.Some? <==> exists x: Command :: x.at == at && IsCommand(blob, x, end)
    ensures forall x: Command | x.at == at && IsCommand(blob, x, end) :: c == Some(x)
  {
    if at + 8 > end then None
    else
      var c := Command(LittleEndian(blob, at, 4), at, LittleEndian(blob, at + 4, 4));
      if IsCommand(blob, c, end) then Some(c) else None
  }

  /** Any way to fill the rest of the command area goes on with the command found there. */
  lemma TileNext(blob: Bytes, cs: seq<Command>, at: nat, end: nat)
    requires end <= |blob| && cs != [] && Tile(blob, cs, at, end)
    ensures CommandAt(blob, at, end) == Some(cs[0]) && Tile(blob, cs[1..], at + cs[0].size, end)
  {
  }

  lemma {:induction false} TileJoin(blob: Bytes, cs: seq<Command>, at: nat, mid: nat, c: Command, end: nat)
    requires Fills(blob, cs, at, mid, end) && c.at == mid && IsCommand(blob, c, end)
    ensures Fills(blob, cs + [c], at, mid + c.size, end)
  {
    if cs == [] {
      assert (cs + [c])[1..] == [];
    } else {
      assert (cs + [c])[1..] == cs[1..] + [c];
      TileJoin(blob, cs[1..], at + cs[0].size, mid, c, end);
    }
  }

  /** Commands that fill the area up to `stop` only. */
  predicate Fills(blob: Bytes, cs: seq<Command>, at: nat, stop: nat, end: nat) {
    if cs == [] then at == stop
    else cs[0].at == at && IsCommand(blob, cs[0], end) && Fills(blob, cs[1..], at + cs[0].size, stop, end)
  }

  lemma {:induction false} FillsTile(blob: Bytes, cs: seq<Command>, at: nat, end: nat)
    ensures Fills(blob, cs, at, end, end) <==> Tile(blob, cs, at, end)
  {
    if cs != [] {
      FillsTile(blob, cs[1..], at + cs[0].size, end);
    }
  }

  /** A whole tiling starts with every part of it that is filled already. */
  lemma {:induction false} FillsPrefix(blob: Bytes, cs: seq<Command>, all: seq<Command>, at: nat, stop: nat, end: nat)
    requires end <= |blob| && Fills(blob, cs, at, stop, end) && Tile(blob, all, at, end) && |cs| <= |all|
    ensures all[..|cs|] == cs && Tile(blob, all[|cs|..], stop, end)
  {
    if cs == [] {
      assert all[0..] == all;
    } else {
      TileNext(blob, all, at, end);
      TileNextOf(blob, cs[0], at, end);
      FillsPrefix(blob, cs[1..], all[1..], at + cs[0].size, stop, end);
      assert all[1..][|cs| - 1..] == all[|cs|..];
      assert all[..|cs|] == [all[0]] + all[1..][..|cs| - 1];
    }
  }

  lemma TileNextOf(blob: Bytes, c: Command, at: nat, end: nat)
    requires end <= |blob| && c.at == at && IsCommand(blob, c, end)
    ensures CommandAt(blob, at, end) == Some(c)
  {
  }

  /** The commands noted so far fill the area up to `off`. */
  ghost predicate Noting(blob: Bytes, cs: seq<Command>, off: nat, end: nat, so: Commands) {
    && off <= end <= |blob| && Fills(blob, cs, 32, off, end)
    && (forall c | c in cs :: IsCommand(blob, c, end)) && so == Collect(blob, cs, end)
  }

  lemma NotingNext(blob: Bytes, cs: seq<Command>, off: nat, end: nat, so: Commands, c: Command)
    requires Noting(blob, cs, off, end, so) && c.at == off && IsCommand(blob, c, end)
    ensures Noting(blob, cs + [c], off + c.size, end, Noted(blob, c, so, end))
  {
    TileJoin(blob, cs, 32, off, c, end);
    assert (cs + [c])[..|cs|] == cs;
  }

  /** The commands of a slice that has a header, exactly when they are well-formed. */
  method ReadLoadCommands(blob: Bytes, cpu: nat) returns (r: Option<Commands>, ghost cs: seq<Command>)
    requires IsDefined(blob)
    ensures r.Some? ==> AreCommands(blob, cpu, cs) && (forall c | c in cs :: IsCommand(blob, c, 32 + LittleEndian(blob, 20, 4)))
    ensures r.Some? ==> r.value == Collect(blob, cs, 32 + LittleEndian(blob, 20, 4)) && AllInside(r.value, |blob|)
    ensures r.None? ==> forall all :: !AreCommands(blob, cpu, all)
  {
    cs := [];
    if cpu != 0 && LittleEndian(blob, 4, 4) != cpu {
      return None, [];
    }
    var n, end := LittleEndian(blob, 16, 4), 32 + LittleEndian(blob, 20, 4);
    if end > |blob| {
      return None, [];
    }
    var off: nat, so := 32, Commands([], None);
    for i := 0 to n
      invariant |cs| == i && Noting(blob, cs, off, end, so)
    {
      var c := CommandAt(blob, off, end);
      if c.None? {
        NoTiling(blob, cpu, cs, off);
        return None, [];
      }
      NotingNext(blob, cs, off, end, so, c.value);
      so := Noted(blob, c.value, so, end);
      off := off + c.value.size;
      cs := cs + [c.value];
    }
    if off != end {
      NoTilingAtEnd(blob, cpu, cs, off);
      return None, [];
    }
    FillsTile(blob, cs, 32, end);
    CollectInside(blob, cs, end);
    r := Some(so);
  }

  lemma NoTiling(blob: Bytes, cpu: nat, cs: seq<Command>, off: nat)
    requires IsDefined(blob) && 32 + LittleEndian(blob, 20, 4) <= |blob| && |cs| < LittleEndian(blob, 16, 4)
    requires Fills(blob, cs, 32, off, 32 + LittleEndian(blob, 20, 4))
    requires CommandAt(blob, off, 32 + LittleEndian(blob, 20, 4)).None?
    ensures forall all :: !AreCommands(blob, cpu, all)
  {
    var end := 32 + LittleEndian(blob, 20, 4);
    forall all ensures !AreCommands(blob, cpu, all) {
      if AreCommands(blob, cpu, all) {
        FillsPrefix(blob, cs, all, 32, off, end);
      }
    }
  }

  lemma NoTilingAtEnd(blob: Bytes, cpu: nat, cs: seq<Command>, off: nat)
    requires IsDefined(blob) && 32 + LittleEndian(blob, 20, 4) <= |blob| && |cs| == LittleEndian(blob, 16, 4)
    requires Fills(blob, cs, 32, off, 32 + LittleEndian(blob, 20, 4)) && off != 32 + LittleEndian(blob, 20, 4)
    ensures forall all :: !AreCommands(blob, cpu, all)
  {
    var end := 32 + LittleEndian(blob, 20, 4);
    forall all ensures !AreCommands(blob, cpu, all) {
      if AreCommands(blob, cpu, all) {
        FillsPrefix(blob, cs, all, 32, off, end);
      }
    }
  }

  // --------------------------------------------------------------- addresses

  function Min(a: nat, b: nat): nat {
    if a < b then a else b
  }

  /** The segment holds the range, and has it in the file. */
  predicate Backs(seg: Segment, address: int, size: int) {
    seg.vmaddr <= address && address + size <= seg.vmaddr + Min(seg.vmsize, seg.filesize)
  }

  /** The range lies in the segment, both in memory and in the file. */
  predicate Covers(seg: Segment, address: int, size: int) {
    && seg.vmaddr <= address && address + size <= seg.vmaddr + seg.vmsize
    && address + size <= seg.vmaddr + seg.filesize
  }

  lemma BacksIff(seg: Segment, address: int, size: int)
    ensures Backs(seg, address, size) <==> Covers(seg, address, size)
  {
  }

  /** The range is in exactly one segment, and this is where. */
  predicate IsLocation(segments: seq<Segment>, address: int, size: int, i: nat, offset: int) {
    && 0 <= address && 1 <= size && i < |segments| && Covers(segments[i], address, size)
    && (forall j | 0 <= j < |segments| :: Covers(segments[j], address, size) ==> j == i)
    && offset == segments[i].fileoff + (address - segments[i].vmaddr)
  }

  datatype Location = Location(segment: nat, offset: nat)

  /** The segments, among the first `n`, that hold the range. */
  function Backing(segments: seq<Segment>, address: int, size: int, n: nat): (m: seq<nat>)
    requires n <= |segments|
    ensures forall k | 0 <= k < |m| :: m[k] < n && Backs(segments[m[k]], address, size)
  {
    if n == 0 then []
    else Backing(segments, address, size, n - 1) + if Backs(segments[n - 1], address, size) then [n - 1] else []
  }

  function LocationOf(segments: seq<Segment>, address: int, size: int): Option<Location> {
    var m := Backing(segments, address, size, |segments|);
    if address < 0 || size < 1 || |m| != 1 then None
    else Some(Location(m[0], segments[m[0]].fileoff + (address - segments[m[0]].vmaddr)))
  }

  /** Maps a range of addresses to its offset in the slice. */
  method VmFileLocation(segments: seq<Segment>, address: int, size: int) returns (r: Option<Location>)
    ensures r == LocationOf(segments, address, size)
  {
    var matches: seq<nat> := [];
    for j := 0 to |segments|
      invariant matches == Backing(segments, address, size, j)
    {
      if Backs(segments[j], address, size) {
        matches := matches + [j];
      }
    }
    if address < 0 || size < 1 || |matches| != 1 {
      return None;
    }
    var i := matches[0];
    r := Some(Location(i, segments[i].fileoff + (address - segments[i].vmaddr)));
  }

  lemma {:induction false} BackingAll(segments: seq<Segment>, address: int, size: int, n: nat, i: nat)
    requires i < n <= |segments| && Backs(segments[i], address, size)
    ensures i in Backing(segments, address, size, n)
  {
    if i < n - 1 {
      BackingAll(segments, address, size, n - 1, i);
    }
  }

  lemma {:induction false} BackingOnce(segments: seq<Segment>, address: int, size: int, n: nat, k: nat, l: nat)
    requires n <= |segments| && k < l < |Backing(segments, address, size, n)|
    ensures Backing(segments, address, size, n)[k] < Backing(segments, address, size, n)[l]
  {
    if l < |Backing(segments, address, size, n - 1)| {
      BackingOnce(segments, address, size, n - 1, k, l);
    }
  }

  /** The map is defined exactly on the ranges that one segment alone holds. */
  lemma LocationIff(segments: seq<Segment>, address: int, size: int, i: nat, offset: nat)
    ensures LocationOf(segments, address, size) == Some(Location(i, offset)) <==>
      IsLocation(segments, address, size, i, offset)
  {
    var m := Backing(segments, address, size, |segments|);
    forall j | 0 <= j < |segments| ensures Backs(segments[j], address, size) <==> Covers(segments[j], address, size) {
      BacksIff(segments[j], address, size);
    }
    forall j | 0 <= j < |segments| && Covers(segments[j], address, size) ensures j in m {
      BackingAll(segments, address, size, |segments|, j);
    }
    if |m| >= 2 {
      BackingOnce(segments, address, size, |segments|, 0, 1);
      assert Covers(segments[m[0]], address, size) && Covers(segments[m[1]], address, size);
    }
  }

  /** A mapped range lies inside the slice, and inside the file of which the slice is a part. */
  lemma LocationInside(data: Bytes, slices: seq<Slice>, s: nat, cs: Commands, address: int, size: int, i: nat, offset: int)
    requires AreSlices(data, slices) && s < |slices| && AllInside(cs, slices[s].size)
    requires IsLocation(cs.segments, address, size, i, offset)
    ensures 0 <= offset && offset + size <= slices[s].size
    ensures slices[s].offset + offset + size <= |data|
  {
    SlicesInFile(data, slices, s);
  }
}
