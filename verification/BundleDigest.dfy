/**
 The byte stream that the bundle digest of ci/native-transport.py covers (`bundle_identity`). Two
 bundles give the same stream exactly when their files and links are the same; directories do not
 count.
 */
module BundleDigest {
  import opened Prelude
  import opened Leb128

  datatype Kind = Link | File | Executable

  /** What is digested of one path: a link's payload is its target. */
  datatype Asset = Asset(kind: Kind, path: Bytes, payload: Bytes)

  function KindName(k: Kind): Bytes {
    match k
    case Link => [108, 105, 110, 107]
    case File => [102, 105, 108, 101]
    case Executable => [102, 105, 108, 101, 45, 101, 120, 101, 99, 117, 116, 97, 98, 108, 101]
  }

  predicate NoZero(bs: Bytes) {
    forall i | 0 <= i < |bs| :: bs[i] != 0
  }

  const ZERO: Byte := 48

  /** `str(size)`. */
  function Decimal(n: nat): Bytes {
    if n < 10 then [ZERO + n] else Decimal(n / 10) + [ZERO + n % 10]
  }

  function Encode(a: Asset): Bytes {
    KindName(a.kind) + ([0] + (a.path + ([0] + (Decimal(|a.payload|) + ([0] + (a.payload + [0]))))))
  }

  function EncodeAll(assets: seq<Asset>): Bytes {
    if assets == [] then [] else Encode(assets[0]) + EncodeAll(assets[1..])
  }

  // ---------------------------------------------------------------- decoding

  /** A field up to a zero byte, and what comes after it. */
  datatype Cut = NoCut | Cut(field: Bytes, rest: Bytes)

  function CutField(bs: Bytes): (c: Cut)
    ensures c.Cut? ==> |c.rest| < |bs|
  {
    if bs == [] then NoCut
    else if bs[0] == 0 then Cut([], bs[1..])
    else
      var c := CutField(bs[1..]);
      if c.NoCut? then NoCut else Cut([bs[0]] + c.field, c.rest)
  }

  function KindOf(name: Bytes): Option<Kind> {
    if name == KindName(Link) then Some(Link)
    else if name == KindName(File) then Some(File)
    else if name == KindName(Executable) then Some(Executable)
    else None
  }

  function Number(bs: Bytes): int {
    if bs == [] then 0 else 10 * Number(bs[..|bs| - 1]) + (bs[|bs| - 1] as int - ZERO as int)
  }

  datatype Decoded = NoAsset | Decoded(asset: Asset, rest: Bytes)

  /** Reads one asset: the size says where its payload ends, whatever bytes it holds. */
  function Decode(bs: Bytes): (d: Decoded)
    ensures d.Decoded? ==> |d.rest| < |bs|
  {
    var kind := CutField(bs);
    if kind.NoCut? || KindOf(kind.field).None? then NoAsset
    else
      var path := CutField(kind.rest);
      if path.NoCut? then NoAsset
      else
        var size := CutField(path.rest);
        if size.NoCut? || Number(size.field) < 0 || Number(size.field) >= |size.rest| then NoAsset
        else
          var n := Number(size.field);
          Decoded(Asset(KindOf(kind.field).value, path.field, size.rest[..n]), size.rest[n + 1..])
  }

  function DecodeAll(bs: Bytes): Option<seq<Asset>>
    decreases |bs|
  {
    if bs == [] then Some([])
    else
      var d := Decode(bs);
      if d.NoAsset? then None
      else
        var rest := DecodeAll(d.rest);
        if rest.None? then None else Some([d.asset] + rest.value)
  }

  lemma {:induction false} CutAt(field: Bytes, rest: Bytes)
    requires NoZero(field)
    ensures CutField(field + ([0] + rest)) == Cut(field, rest)
  {
    var bs := field + ([0] + rest);
    if field == [] {
      assert bs == [0] + rest && bs[1..] == rest;
    } else {
      assert bs[1..] == field[1..] + ([0] + rest);
      CutAt(field[1..], rest);
      assert [field[0]] + field[1..] == field;
    }
  }

  lemma {:induction false} DecimalReads(n: nat)
    ensures NoZero(Decimal(n)) && Number(Decimal(n)) == n
  {
    var d := Decimal(n);
    if n < 10 {
      assert d[..0] == [] && Number(d[..0]) == 0;
    } else {
      DecimalReads(n / 10);
      assert d[..|d| - 1] == Decimal(n / 10);
    }
  }

  lemma KindReads(k: Kind)
    ensures NoZero(KindName(k)) && KindOf(KindName(k)) == Some(k)
  {
    assert |KindName(Link)| == 4 && |KindName(File)| == 4 && KindName(Link)[0] != KindName(File)[0];
    assert |KindName(Executable)| == 15;
  }

  /** An encoded asset is read back, and what comes after it is left. */
  lemma DecodeEncode(a: Asset, more: Bytes)
    requires NoZero(a.path)
    ensures Decode(Encode(a) + more) == Decoded(a, more)
  {
    var n := |a.payload|;
    var body := a.payload + ([0] + more);
    var size := Decimal(n) + ([0] + body);
    var path := a.path + ([0] + size);
    Nest(KindName(a.kind), a.path, Decimal(n), a.payload, more);
    KindReads(a.kind);
    DecimalReads(n);
    CutAt(KindName(a.kind), path);
    CutAt(a.path, size);
    CutAt(Decimal(n), body);
    assert body[..n] == a.payload && body[n + 1..] == more;
  }

  lemma Nest(kind: Bytes, path: Bytes, size: Bytes, payload: Bytes, more: Bytes)
    ensures (kind + ([0] + (path + ([0] + (size + ([0] + (payload + [0]))))))) + more
         == kind + ([0] + (path + ([0] + (size + ([0] + (payload + ([0] + more)))))))
  {
    var a := payload + [0];
    assert a + more == payload + ([0] + more);
    var b := size + ([0] + a);
    assert b + more == size + ([0] + (a + more));
    var c := path + ([0] + b);
    assert c + more == path + ([0] + (b + more));
    assert (kind + ([0] + c)) + more == kind + ([0] + (c + more));
  }

  predicate AreAssets(assets: seq<Asset>) {
    forall i | 0 <= i < |assets| :: NoZero(assets[i].path)
  }

  /** Every list of assets is read back from its stream. */
  lemma {:induction false} DecodeAllEncodeAll(assets: seq<Asset>)
    requires AreAssets(assets)
    ensures DecodeAll(EncodeAll(assets)) == Some(assets)
  {
    if assets != [] {
      var bs := EncodeAll(assets);
      DecodeEncode(assets[0], EncodeAll(assets[1..]));
      DecodeAllEncodeAll(assets[1..]);
      assert |Encode(assets[0])| > 0 && bs != [];
      assert [assets[0]] + assets[1..] == assets;
    }
  }

  /** Equal streams come from equal lists of assets. */
  lemma StreamIsInjective(a: seq<Asset>, b: seq<Asset>)
    requires AreAssets(a) && AreAssets(b) && EncodeAll(a) == EncodeAll(b)
    ensures a == b
  {
    DecodeAllEncodeAll(a);
    DecodeAllEncodeAll(b);
  }

  // -------------------------------------------------------------- the program

  /** What stands at a path of the bundle. */
  datatype Entry =
    | Directory
    | Regular(executable: bool, chunks: seq<Bytes>)
    | Symlink(target: Bytes, absolute: bool, inside: bool)
    | Unsupported

  function Content(chunks: seq<Bytes>): Bytes {
    if chunks == [] then [] else Content(chunks[..|chunks| - 1]) + chunks[|chunks| - 1]
  }

  /** A symbolic link must be relative and lead to something inside the bundle. */
  predicate IsRefused(e: Entry) {
    e.Unsupported? || (e.Symlink? && (e.absolute || !e.inside))
  }

  function AssetOf(path: Bytes, e: Entry): seq<Asset> {
    match e
    case Regular(executable, chunks) => [Asset(if executable then Executable else File, path, Content(chunks))]
    case Symlink(target, _, _) => [Asset(Link, path, target)]
    case _ => []
  }

  function AssetsOf(entries: seq<(Bytes, Entry)>): seq<Asset> {
    if entries == [] then []
    else AssetsOf(entries[..|entries| - 1]) + AssetOf(entries[|entries| - 1].0, entries[|entries| - 1].1)
  }

  lemma {:induction false} EncodeAppend(a: seq<Asset>, b: seq<Asset>)
    ensures EncodeAll(a + b) == EncodeAll(a) + EncodeAll(b)
  {
    if a == [] {
      assert a + b == b;
    } else {
      assert (a + b)[1..] == a[1..] + b;
      EncodeAppend(a[1..], b);
    }
  }

  lemma EncodeOne(a: Asset)
    ensures EncodeAll([a]) == Encode(a)
  {
    assert [a][1..] == [] && EncodeAll([]) == [];
  }

  /** The chunks of a file, one after the other. */
  method Chunked(stream: Bytes, chunks: seq<Bytes>) returns (r: Bytes)
    ensures r == stream + Content(chunks)
  {
    r := stream;
    for i := 0 to |chunks|
      invariant r == stream + Content(chunks[..i])
    {
      assert chunks[..i + 1][..i] == chunks[..i];
      r := r + chunks[i];
    }
    assert chunks[..|chunks|] == chunks;
  }

  /** What is digested for one asset, piece by piece. */
  method Digested(stream: Bytes, path: Bytes, e: Entry) returns (r: Bytes)
    requires e.Regular? || e.Symlink?
    ensures r == stream + EncodeAll(AssetOf(path, e))
  {
    var kind := if e.Symlink? then Link else if e.executable then Executable else File;
    ghost var payload := if e.Symlink? then e.target else Content(e.chunks);
    var size := if e.Symlink? then |e.target| else |Content(e.chunks)|;
    var head := stream + (KindName(kind) + ([0] + (path + [0])));
    head := head + (Decimal(size) + [0]);
    if e.Symlink? {
      r := head + e.target;
    } else {
      r := Chunked(head, e.chunks);
    }
    r := r + [0];
    EncodeOne(Asset(kind, path, payload));
    Pieces(stream, KindName(kind), path, Decimal(size), payload);
  }

  lemma Pieces(stream: Bytes, kind: Bytes, path: Bytes, size: Bytes, payload: Bytes)
    ensures (((stream + (kind + ([0] + (path + [0])))) + (size + [0])) + payload) + [0]
         == stream + (kind + ([0] + (path + ([0] + (size + ([0] + (payload + [0])))))))
  {
    var tail := payload + [0];
    assert (((stream + (kind + ([0] + (path + [0])))) + (size + [0])) + payload) + [0]
        == (stream + (kind + ([0] + (path + [0])))) + ((size + [0]) + tail);
    assert (size + [0]) + tail == size + ([0] + tail);
    var rest := size + ([0] + tail);
    assert (stream + (kind + ([0] + (path + [0])))) + rest == stream + ((kind + ([0] + (path + [0]))) + rest);
    assert (kind + ([0] + (path + [0]))) + rest == kind + (([0] + (path + [0])) + rest);
    assert ([0] + (path + [0])) + rest == [0] + (path + ([0] + rest));
  }

  /** What has been digested after `n` entries. */
  function StreamUpTo(entries: seq<(Bytes, Entry)>, n: nat): Bytes
    requires n <= |entries|
  {
    if n == 0 then [] else StreamUpTo(entries, n - 1) + EncodeAll(AssetOf(entries[n - 1].0, entries[n - 1].1))
  }

  lemma {:induction false} StreamIsAssets(entries: seq<(Bytes, Entry)>, n: nat)
    requires n <= |entries|
    ensures StreamUpTo(entries, n) == EncodeAll(AssetsOf(entries[..n]))
  {
    if n > 0 {
      StreamIsAssets(entries, n - 1);
      assert entries[..n][..n - 1] == entries[..n - 1];
      EncodeAppend(AssetsOf(entries[..n - 1]), AssetOf(entries[n - 1].0, entries[n - 1].1));
    }
  }

  method DigestedNext(stream: Bytes, entries: seq<(Bytes, Entry)>, i: nat) returns (r: Bytes)
    requires i < |entries| && !IsRefused(entries[i].1) && stream == StreamUpTo(entries, i)
    ensures r == StreamUpTo(entries, i + 1)
  {
    if entries[i].1.Directory? {
      r := stream;
    } else {
      r := Digested(stream, entries[i].0, entries[i].1);
    }
  }

  /** The stream of a bundle whose entries are sorted by path; nothing when an entry is refused. */
  method BundleStream(entries: seq<(Bytes, Entry)>) returns (r: Option<Bytes>)
    ensures r.Some? <==> forall i | 0 <= i < |entries| :: !IsRefused(entries[i].1)
    ensures r.Some? ==> r.value == EncodeAll(AssetsOf(entries))
  {
    var stream: Bytes := [];
    for i := 0 to |entries|
      invariant forall j | 0 <= j < i :: !IsRefused(entries[j].1)
      invariant stream == StreamUpTo(entries, i)
    {
      var e := entries[i].1;
      if e.Unsupported? {
        return None;
      }
      if e.Symlink? && (e.absolute || !e.inside) {
        return None;
      }
      stream := DigestedNext(stream, entries, i);
    }
    StreamIsAssets(entries, |entries|);
    assert entries[..|entries|] == entries;
    r := Some(stream);
  }

  /** The bytes spell the name. */
  predicate Spells(bs: Bytes, name: string) {
    |bs| == |name| && forall i | 0 <= i < |bs| :: bs[i] as int == name[i] as int
  }

  lemma KindNames()
    ensures Spells(KindName(Link), "link") && Spells(KindName(File), "file")
    ensures Spells(KindName(Executable), "file-executable")
  {
  }

  // ----------------------------------------------------- bundles with one stream

  /** The entries that are digested: all but directories. */
  function Listed(entries: seq<(Bytes, Entry)>): seq<(Bytes, Entry)> {
    if entries == [] then []
    else
      var last := entries[|entries| - 1];
      Listed(entries[..|entries| - 1]) + if last.1.Directory? then [] else [last]
  }

  /** The same path with the same contents: of a file its bytes and whether it can be executed, of a link its target. */
  predicate SameEntry(a: (Bytes, Entry), b: (Bytes, Entry)) {
    && a.0 == b.0
    && match (a.1, b.1)
       case (Regular(x, c), Regular(y, d)) => x == y && Content(c) == Content(d)
       case (Symlink(s, _, _), Symlink(t, _, _)) => s == t
       case _ => false
  }

  predicate SameEntries(a: seq<(Bytes, Entry)>, b: seq<(Bytes, Entry)>) {
    |a| == |b| && forall i | 0 <= i < |a| :: SameEntry(a[i], b[i])
  }

  /** A bundle that is not refused; paths have no zero byte. */
  predicate IsBundle(entries: seq<(Bytes, Entry)>) {
    forall i | 0 <= i < |entries| :: !IsRefused(entries[i].1) && NoZero(entries[i].0)
  }

  /** An asset for each entry that is digested. */
  lemma {:induction false} ListedAssets(entries: seq<(Bytes, Entry)>)
    requires IsBundle(entries)
    ensures IsBundle(Listed(entries)) && |AssetsOf(entries)| == |Listed(entries)|
    ensures forall i | 0 <= i < |Listed(entries)| :: [AssetsOf(entries)[i]] == AssetOf(Listed(entries)[i].0, Listed(entries)[i].1)
  {
    if entries != [] {
      ListedAssets(entries[..|entries| - 1]);
    }
  }

  lemma AssetIff(a: (Bytes, Entry), b: (Bytes, Entry), x: Asset, y: Asset)
    requires [x] == AssetOf(a.0, a.1) && [y] == AssetOf(b.0, b.1)
    ensures x == y <==> SameEntry(a, b)
  {
    assert [x][0] == x && [y][0] == y;
  }

  lemma AssetsProper(entries: seq<(Bytes, Entry)>)
    requires IsBundle(entries)
    ensures AreAssets(AssetsOf(entries))
  {
    ListedAssets(entries);
    forall i | 0 <= i < |AssetsOf(entries)| ensures NoZero(AssetsOf(entries)[i].path) {
      var l := Listed(entries)[i];
      assert AssetsOf(entries)[i] == AssetOf(l.0, l.1)[0];
    }
  }

  /** Bundles have the same stream exactly when they have the same files and links, in the same order. */
  lemma SameStreamIff(a: seq<(Bytes, Entry)>, b: seq<(Bytes, Entry)>)
    requires IsBundle(a) && IsBundle(b)
    ensures EncodeAll(AssetsOf(a)) == EncodeAll(AssetsOf(b)) <==> SameEntries(Listed(a), Listed(b))
  {
    ListedAssets(a);
    ListedAssets(b);
    AssetsProper(a);
    AssetsProper(b);
    var x, y := AssetsOf(a), AssetsOf(b);
    if EncodeAll(x) == EncodeAll(y) {
      StreamIsInjective(x, y);
    }
    forall i | 0 <= i < |x| && i < |y| ensures x[i] == y[i] <==> SameEntry(Listed(a)[i], Listed(b)[i]) {
      AssetIff(Listed(a)[i], Listed(b)[i], x[i], y[i]);
    }
    if SameEntries(Listed(a), Listed(b)) {
      assert x == y;
    }
  }

  /** A directory adds nothing, so bundles that differ in empty directories share their stream. */
  lemma DirectoryIsLost(entries: seq<(Bytes, Entry)>, path: Bytes)
    ensures AssetsOf(entries + [(path, Directory)]) == AssetsOf(entries)
  {
    var more := entries + [(path, Directory)];
    assert more[..|more| - 1] == entries && more[|more| - 1] == (path, Directory);
    assert AssetsOf(entries) + [] == AssetsOf(entries);
  }
}
