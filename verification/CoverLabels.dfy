/**
 How an import is labelled (`supplied_by_loaded`, `_absence_label`, `_cover_label` of
 scripts/closure_analyze.py) and which imports stop the load (`cover_events`): what the images of a
 fixed load graph export decides, and exporting more never makes a new stop.
 */
module CoverLabels {
  import opened Prelude
  import opened ReexportClosure

  /** `flat`: the import names no image; `weakLookup`: its ordinal tolerates absence. */
  datatype Import = Import(name: string, weak: bool, weakLookup: bool, eager: bool, flat: bool)

  datatype Label = Flat | ImageAbsent | Own | Reexport | LoadOrder | AbsentWeak | AbsentLazy | Missing

  /** What an image exports itself, and what it supplies through its re-exports. */
  datatype Supply = Supply(own: string -> set<string>, chain: string -> set<string>)

  function AbsenceLabel(imp: Import): Label {
    if imp.weak || imp.weakLookup then AbsentWeak else if !imp.eager then AbsentLazy else Missing
  }

  // ------------------------------------------------------------------ supply

  predicate Supplies(s: Supply, path: string, name: string) {
    name in s.own(path) || name in s.chain(path)
  }

  /** The first image that exports the name itself, or else the first that supplies it otherwise. */
  predicate IsSupplier(s: Supply, paths: seq<string>, name: string, i: nat) {
    && i < |paths|
    && (|| (name in s.own(paths[i]) && forall j | 0 <= j < i :: name !in s.own(paths[j]))
        || ((forall j | 0 <= j < |paths| :: name !in s.own(paths[j]))
            && name in s.chain(paths[i]) && forall j | 0 <= j < i :: name !in s.chain(paths[j])))
  }

  method SuppliedByLoaded(s: Supply, paths: seq<string>, name: string) returns (r: Option<string>)
    ensures r.Some? <==> exists i | 0 <= i < |paths| :: Supplies(s, paths[i], name)
    ensures r.Some? ==> exists i: nat :: IsSupplier(s, paths, name, i) && paths[i] == r.value
  {
    for i := 0 to |paths|
      invariant forall j | 0 <= j < i :: name !in s.own(paths[j])
    {
      if name in s.own(paths[i]) {
        assert Supplies(s, paths[i], name) && IsSupplier(s, paths, name, i);
        return Some(paths[i]);
      }
    }
    for i := 0 to |paths|
      invariant forall j | 0 <= j < i :: name !in s.chain(paths[j])
    {
      if name in s.chain(paths[i]) {
        assert Supplies(s, paths[i], name) && IsSupplier(s, paths, name, i);
        return Some(paths[i]);
      }
    }
    r := None;
  }

  predicate SomeSupplies(s: Supply, paths: seq<string>, name: string) {
    exists i | 0 <= i < |paths| :: Supplies(s, paths[i], name)
  }

  // ------------------------------------------------------------------ labels

  /** The label of an import whose field image, if it has one, is at `field`. */
  function LabelOf(imp: Import, field: Option<string>, s: Supply, loaded: seq<string>, closure: seq<string>): Label {
    if imp.flat && closure != [] then if SomeSupplies(s, closure, imp.name) then Flat else AbsenceLabel(imp)
    else if imp.flat then if SomeSupplies(s, loaded, imp.name) then Flat else AbsenceLabel(imp)
    else if field.None? then ImageAbsent
    else if imp.name in s.own(field.value) then Own
    else if imp.name in s.chain(field.value) then Reexport
    else if SomeSupplies(s, loaded, imp.name) then LoadOrder
    else AbsenceLabel(imp)
  }

  method CoverLabel(imp: Import, field: Option<string>, s: Supply, loaded: seq<string>, closure: seq<string>)
      returns (r: Label)
    ensures r == LabelOf(imp, field, s, loaded, closure)
  {
    if imp.flat {
      var where := SuppliedByLoaded(s, if closure != [] then closure else loaded, imp.name);
      return if where.Some? then Flat else AbsenceLabel(imp);
    }
    if field.None? {
      return ImageAbsent;
    }
    if imp.name in s.own(field.value) {
      return Own;
    }
    if imp.name in s.chain(field.value) {
      return Reexport;
    }
    var where := SuppliedByLoaded(s, loaded, imp.name);
    r := if where.Some? then LoadOrder else AbsenceLabel(imp);
  }

  /** One of the images exports the name or passes it on. */
  predicate Reaches(s: Supply, paths: seq<string>, name: string) {
    exists path | path in paths :: name in s.own(path) || name in s.chain(path)
  }

  lemma SuppliesIsReaches(s: Supply, paths: seq<string>, name: string)
    ensures SomeSupplies(s, paths, name) <==> Reaches(s, paths, name)
  {
    if path :| path in paths && (name in s.own(path) || name in s.chain(path)) {
      var i :| 0 <= i < |paths| && paths[i] == path;
      assert Supplies(s, paths[i], name);
    }
  }

  /** Where a name is found: a flat lookup searches the whole closure, once that is known, and else what is loaded. */
  lemma FoundIff(imp: Import, field: Option<string>, s: Supply, loaded: seq<string>, closure: seq<string>)
    ensures var found, n := LabelOf(imp, field, s, loaded, closure), imp.name;
      && (found == Flat <==> imp.flat && (if closure != [] then Reaches(s, closure, n) else Reaches(s, loaded, n)))
      && (found == ImageAbsent <==> !imp.flat && field.None?)
      && (found == Own <==> !imp.flat && field.Some? && n in s.own(field.value))
      && (found == Reexport <==> !imp.flat && field.Some? && n !in s.own(field.value) && n in s.chain(field.value))
      && (found == LoadOrder <==> !imp.flat && field.Some? && !Reaches(s, [field.value], n) && Reaches(s, loaded, n))
  {
    SuppliesIsReaches(s, closure, imp.name);
    SuppliesIsReaches(s, loaded, imp.name);
    if field.Some? {
      SuppliesIsReaches(s, [field.value], imp.name);
      assert SomeSupplies(s, [field.value], imp.name) <==> Supplies(s, [field.value][0], imp.name);
    }
  }

  /** Nothing that the lookup reaches has the name. */
  predicate Nowhere(imp: Import, field: Option<string>, s: Supply, loaded: seq<string>, closure: seq<string>) {
    if imp.flat && closure != [] then !Reaches(s, closure, imp.name)
    else if imp.flat then !Reaches(s, loaded, imp.name)
    else field.Some? && !Reaches(s, [field.value], imp.name) && !Reaches(s, loaded, imp.name)
  }

  /** An import is missing exactly when it is eager, may not be absent, and nothing supplies it; else it is merely absent. */
  lemma MissingIff(imp: Import, field: Option<string>, s: Supply, loaded: seq<string>, closure: seq<string>)
    ensures var found, nowhere := LabelOf(imp, field, s, loaded, closure), Nowhere(imp, field, s, loaded, closure);
      && (found == Missing <==> nowhere && imp.eager && !imp.weak && !imp.weakLookup)
      && (found == AbsentWeak <==> nowhere && (imp.weak || imp.weakLookup))
      && (found == AbsentLazy <==> nowhere && !imp.eager && !imp.weak && !imp.weakLookup)
  {
    FoundIff(imp, field, s, loaded, closure);
  }

  /** Every image supplies at least as much. */
  ghost predicate Grows(s: Supply, s': Supply) {
    forall path :: s.own(path) <= s'.own(path) && s.chain(path) <= s'.chain(path)
  }

  /** Every image supplies the same but for one name. */
  ghost predicate SameBut(s: Supply, s': Supply, name: string) {
    forall path :: s.own(path) - {name} == s'.own(path) - {name} && s.chain(path) - {name} == s'.chain(path) - {name}
  }

  lemma SupplyGrows(s: Supply, s': Supply, paths: seq<string>, name: string)
    requires Grows(s, s') && SomeSupplies(s, paths, name)
    ensures SomeSupplies(s', paths, name)
  {
    var i :| 0 <= i < |paths| && Supplies(s, paths[i], name);
    assert Supplies(s', paths[i], name);
  }

  /** Supplying more never makes an import missing. */
  lemma LabelsAreAntitone(imp: Import, field: Option<string>, s: Supply, s': Supply, loaded: seq<string>, closure: seq<string>)
    requires Grows(s, s') && LabelOf(imp, field, s', loaded, closure) == Missing
    ensures LabelOf(imp, field, s, loaded, closure) == Missing
  {
    if SomeSupplies(s, closure, imp.name) {
      SupplyGrows(s, s', closure, imp.name);
    }
    if SomeSupplies(s, loaded, imp.name) {
      SupplyGrows(s, s', loaded, imp.name);
    }
  }

  lemma SupplySame(s: Supply, s': Supply, paths: seq<string>, name: string, other: string)
    requires SameBut(s, s', other) && name != other
    ensures SomeSupplies(s, paths, name) <==> SomeSupplies(s', paths, name)
  {
    forall path ensures Supplies(s, path, name) <==> Supplies(s', path, name) {
      assert name in s.own(path) <==> name in s.own(path) - {other};
      assert name in s'.own(path) <==> name in s'.own(path) - {other};
      assert name in s.chain(path) <==> name in s.chain(path) - {other};
      assert name in s'.chain(path) <==> name in s'.chain(path) - {other};
    }
  }

  /** One name more or less changes the labels of the imports with that name only. */
  lemma LabelsAreLocal(imp: Import, field: Option<string>, s: Supply, s': Supply, loaded: seq<string>, closure: seq<string>,
      other: string)
    requires SameBut(s, s', other) && imp.name != other
    ensures LabelOf(imp, field, s, loaded, closure) == LabelOf(imp, field, s', loaded, closure)
  {
    SupplySame(s, s', closure, imp.name, other);
    SupplySame(s, s', loaded, imp.name, other);
    if field.Some? {
      var path := field.value;
      assert imp.name in s.own(path) <==> imp.name in s.own(path) - {other};
      assert imp.name in s'.own(path) <==> imp.name in s'.own(path) - {other};
      assert imp.name in s.chain(path) <==> imp.name in s.chain(path) - {other};
      assert imp.name in s'.chain(path) <==> imp.name in s'.chain(path) - {other};
    }
  }

  // -------------------------------------------- supply from the export tables

  /** The supply of images: their own exports and their re-export closure. */
  ghost predicate IsSupply(w: Images, bound: nat, s: Supply) {
    forall path :: s.own(path) == w.exports(w.realpath(path)) && AreClosureNames(w, w.realpath(path), bound, s.chain(path))
  }

  /** The same load graph with other exports. */
  ghost predicate SameGraph(w: Images, w': Images) {
    w' == w.(exports := w'.exports)
  }

  lemma {:induction false} ReachedSame(w: Images, w': Images, root: Real, d: nat, r: Real)
    requires SameGraph(w, w')
    ensures Reached(w, root, d, r) <==> Reached(w', root, d, r)
  {
    if d > 0 {
      ReachedSame(w, w', root, d - 1, r);
      forall a ensures Reached(w, root, d - 1, a) && IsEdge(w, a, r) <==> Reached(w', root, d - 1, a) && IsEdge(w', a, r) {
        ReachedSame(w, w', root, d - 1, a);
        TargetsSame(w, w', a, |w.reexports(a)|);
      }
    }
  }

  lemma {:induction false} TargetsSame(w: Images, w': Images, a: Real, k: nat)
    requires SameGraph(w, w') && k <= |w.reexports(a)|
    ensures Targets(w, a, k) == Targets(w', a, k)
  {
    if k > 0 {
      TargetsSame(w, w', a, k - 1);
    }
  }

  /** Images that export more supply more. */
  lemma SupplyFollowsExports(w: Images, w': Images, bound: nat, s: Supply, s': Supply)
    requires SameGraph(w, w') && IsSupply(w, bound, s) && IsSupply(w', bound, s')
    requires forall r :: w.exports(r) <= w'.exports(r)
    ensures Grows(s, s')
  {
    forall path ensures s.own(path) <= s'.own(path) && s.chain(path) <= s'.chain(path) {
      var root := w.realpath(path);
      forall n | n in s.chain(path) ensures n in s'.chain(path) {
        assert AreClosureNames(w, root, bound, s.chain(path)) && AreClosureNames(w', root, bound, s'.chain(path));
        var r :| Reached(w, root, bound, r) && r != root && n in w.exports(r);
        ReachedSame(w, w', root, bound, r);
        assert n in w'.exports(r);
      }
    }
  }

  /** Exports that differ by one name give supplies that differ by that name. */
  lemma SupplyFollowsName(w: Images, w': Images, bound: nat, s: Supply, s': Supply, name: string)
    requires SameGraph(w, w') && IsSupply(w, bound, s) && IsSupply(w', bound, s')
    requires forall r :: w.exports(r) - {name} == w'.exports(r) - {name}
    ensures SameBut(s, s', name)
  {
    forall path ensures s.own(path) - {name} == s'.own(path) - {name} && s.chain(path) - {name} == s'.chain(path) - {name} {
      assert SameGraph(w', w);
      forall n | n != name ensures n in s.chain(path) <==> n in s'.chain(path) {
        ChainSame(w, w', bound, s, s', name, path, n);
        ChainSame(w', w, bound, s', s, name, path, n);
      }
    }
  }

  lemma ChainSame(w: Images, w': Images, bound: nat, s: Supply, s': Supply, name: string, path: string, n: string)
    requires SameGraph(w, w') && IsSupply(w, bound, s) && IsSupply(w', bound, s') && n != name
    requires forall r :: w.exports(r) - {name} == w'.exports(r) - {name}
    ensures n in s.chain(path) ==> n in s'.chain(path)
  {
    var root := w.realpath(path);
    assert AreClosureNames(w, root, bound, s.chain(path)) && AreClosureNames(w', root, bound, s'.chain(path));
    if n in s.chain(path) {
      var r :| Reached(w, root, bound, r) && r != root && n in w.exports(r);
      ReachedSame(w, w', root, bound, r);
      assert n in w.exports(r) - {name} && n in w'.exports(r) - {name};
    }
  }

  // ------------------------------------------------------------------- stops

  /** A load command that resolves nowhere. */
  datatype Edge = Edge(referrer: string, installName: string, weak: bool)

  /** An import that nothing plainly supplies, with its label. */
  datatype Miss = Miss(kind: Label, weak: bool, image: string, symbol: string)

  datatype Event = ImageStop(referrer: string, installName: string) | SymbolStop(referrer: string, symbol: string)

  /** The place of the referrer in the bind order, last when it has none, then the symbol. */
  datatype SortKey = SortKey(place: nat, symbol: string)

  function Place(order: seq<string>, name: string): nat {
    if order == [] then 0 else if order[0] == name then 0 else 1 + Place(order[1..], name)
  }

  function KeyOf(order: seq<string>, e: Event): SortKey {
    SortKey(Place(order, e.referrer), if e.SymbolStop? then e.symbol else "")
  }

  /** Strings in the order of their characters. */
  predicate TextLe(a: string, b: string) {
    a == "" || (b != "" && (a[0] < b[0] || (a[0] == b[0] && TextLe(a[1..], b[1..]))))
  }

  predicate KeyLe(a: SortKey, b: SortKey) {
    a.place < b.place || (a.place == b.place && TextLe(a.symbol, b.symbol))
  }

  function ImageStops(edges: seq<Edge>, reached: set<string>): seq<Event> {
    if edges == [] then []
    else
      var e, before := edges[|edges| - 1], ImageStops(edges[..|edges| - 1], reached);
      if !e.weak && e.referrer in reached then before + [ImageStop(e.referrer, e.installName)] else before
  }

  function SymbolStops(misses: seq<Miss>, reached: set<string>): seq<Event> {
    if misses == [] then []
    else
      var m, before := misses[|misses| - 1], SymbolStops(misses[..|misses| - 1], reached);
      if m.kind == Missing && !m.weak && m.image in reached then before + [SymbolStop(m.image, m.symbol)] else before
  }

  predicate Sorted(order: seq<string>, es: seq<Event>) {
    forall i, j | 0 <= i < j < |es| :: KeyLe(KeyOf(order, es[i]), KeyOf(order, es[j]))
  }

  /** One text is a part of the other from its start, or has the smaller character where they first differ. */
  lemma {:induction false} TextLeIff(a: string, b: string)
    ensures TextLe(a, b) <==>
      a <= b || exists k | 0 <= k < |a| && k < |b| :: a[..k] == b[..k] && a[k] < b[k]
  {
    if a != "" && b != "" {
      if a[0] == b[0] {
        TextLeIff(a[1..], b[1..]);
        if k :| 0 <= k < |a[1..]| && k < |b[1..]| && a[1..][..k] == b[1..][..k] && a[1..][k] < b[1..][k] {
          assert a[..k + 1] == [a[0]] + a[1..][..k] && b[..k + 1] == [b[0]] + b[1..][..k];
          assert a[k + 1] < b[k + 1];
        }
        if k :| 0 <= k < |a| && k < |b| && a[..k] == b[..k] && a[k] < b[k] {
          assert a[1..][..k - 1] == a[..k][1..] && b[1..][..k - 1] == b[..k][1..];
          assert a[1..][k - 1] < b[1..][k - 1];
        }
      } else {
        assert a[..0] == b[..0];
        assert forall k | 0 <= k < |a| && k < |b| :: k > 0 ==> a[..k][0] == a[0] && b[..k][0] == b[0];
      }
    }
  }

  lemma {:induction false} TextTotal(a: string, b: string)
    ensures TextLe(a, b) || TextLe(b, a)
  {
    if a != "" && b != "" && a[0] == b[0] {
      TextTotal(a[1..], b[1..]);
    }
  }

  lemma {:induction false} TextTransitive(a: string, b: string, c: string)
    requires TextLe(a, b) && TextLe(b, c)
    ensures TextLe(a, c)
  {
    if a != "" && a[0] == b[0] && b[0] == c[0] {
      TextTransitive(a[1..], b[1..], c[1..]);
    }
  }

  lemma KeyOrder(a: SortKey, b: SortKey, c: SortKey)
    ensures KeyLe(a, b) || KeyLe(b, a)
    ensures KeyLe(a, b) && KeyLe(b, c) ==> KeyLe(a, c)
  {
    TextTotal(a.symbol, b.symbol);
    if TextLe(a.symbol, b.symbol) && TextLe(b.symbol, c.symbol) {
      TextTransitive(a.symbol, b.symbol, c.symbol);
    }
  }

  /** Puts an event behind all that come before it or are equal to it, as a stable sort does. */
  function Insert(order: seq<string>, es: seq<Event>, e: Event): (r: seq<Event>)
    ensures multiset(r) == multiset(es) + multiset{e}
  {
    if es == [] then [e]
    else
      var n := |es| - 1;
      assert es == es[..n] + [es[n]];
      if KeyLe(KeyOf(order, es[n]), KeyOf(order, e)) then es + [e] else Insert(order, es[..n], e) + [es[n]]
  }

  lemma {:induction false} InsertSorted(order: seq<string>, es: seq<Event>, e: Event)
    requires Sorted(order, es)
    ensures Sorted(order, Insert(order, es, e))
  {
    if es != [] {
      var n := |es| - 1;
      var last, k := KeyOf(order, es[n]), KeyOf(order, e);
      KeyOrder(last, k, k);
      if KeyLe(last, k) {
        forall i | 0 <= i < |es| ensures KeyLe(KeyOf(order, es[i]), k) {
          KeyOrder(KeyOf(order, es[i]), last, k);
        }
      } else {
        InsertSorted(order, es[..n], e);
        var r := Insert(order, es[..n], e);
        forall i | 0 <= i < |r| ensures KeyLe(KeyOf(order, r[i]), last) {
          InsertFrom(order, es[..n], e, i);
          KeyOrder(last, last, last);
        }
      }
    }
  }

  lemma InsertFrom(order: seq<string>, es: seq<Event>, e: Event, i: nat)
    requires i < |Insert(order, es, e)|
    ensures Insert(order, es, e)[i] == e || Insert(order, es, e)[i] in es
  {
    var r := Insert(order, es, e);
    assert r[i] in multiset(r);
  }

  /** `events.sort(key=...)`. */
  function SortEvents(order: seq<string>, es: seq<Event>): (r: seq<Event>)
    ensures multiset(r) == multiset(es)
  {
    if es == [] then []
    else
      assert es == es[..|es| - 1] + [es[|es| - 1]];
      Insert(order, SortEvents(order, es[..|es| - 1]), es[|es| - 1])
  }

  lemma {:induction false} EventsSorted(order: seq<string>, es: seq<Event>)
    ensures Sorted(order, SortEvents(order, es))
  {
    if es != [] {
      EventsSorted(order, es[..|es| - 1]);
      InsertSorted(order, SortEvents(order, es[..|es| - 1]), es[|es| - 1]);
    }
  }

  /** An image is listed before another, or the other is not listed. */
  predicate ListedBefore(order: seq<string>, a: string, b: string) {
    b in order ==> exists i: nat :: i < |order| && order[i] == a && forall j | 0 <= j < i :: order[j] != b
  }

  lemma {:induction false} PlaceIs(order: seq<string>, name: string)
    ensures Place(order, name) <= |order| && (Place(order, name) == |order| <==> name !in order)
    ensures name in order ==> order[Place(order, name)] == name
    ensures forall j | 0 <= j < Place(order, name) :: order[j] != name
  {
    if order != [] && order[0] != name {
      PlaceIs(order[1..], name);
    }
  }

  /** The order of the events, without keys: by image in bind order, then by symbol, an absent image first. */
  predicate InOrder(order: seq<string>, d: Event, e: Event) {
    && ListedBefore(order, d.referrer, e.referrer)
    && (ListedBefore(order, e.referrer, d.referrer) ==>
          d.ImageStop? || (e.SymbolStop? && TextLe(d.symbol, e.symbol)) || d.symbol == "")
  }

  lemma KeyIsOrder(order: seq<string>, d: Event, e: Event)
    ensures KeyLe(KeyOf(order, d), KeyOf(order, e)) <==> InOrder(order, d, e)
  {
    PlaceIs(order, d.referrer);
    PlaceIs(order, e.referrer);
    BeforeIff(order, d.referrer, e.referrer);
    BeforeIff(order, e.referrer, d.referrer);
  }

  lemma BeforeIff(order: seq<string>, a: string, b: string)
    ensures ListedBefore(order, a, b) <==> Place(order, a) <= Place(order, b)
  {
    PlaceIs(order, a);
    PlaceIs(order, b);
  }

  predicate Ties(order: seq<string>, d: Event, e: Event) {
    InOrder(order, d, e) && InOrder(order, e, d)
  }

  /** The events that nothing puts before or behind `e`, in their order. */
  function Beside(order: seq<string>, es: seq<Event>, e: Event): seq<Event> {
    if es == [] then []
    else
      var n := |es| - 1;
      Beside(order, es[..n], e) + if Ties(order, es[n], e) then [es[n]] else []
  }

  lemma BesideLast(order: seq<string>, es: seq<Event>, x: Event, e: Event)
    ensures Beside(order, es + [x], e) == Beside(order, es, e) + if Ties(order, x, e) then [x] else []
  {
    assert (es + [x])[..|es|] == es;
  }

  lemma NotBoth(order: seq<string>, d: Event, x: Event, e: Event)
    requires !KeyLe(KeyOf(order, d), KeyOf(order, x))
    ensures !Ties(order, d, e) || !Ties(order, x, e)
  {
    KeyIsOrder(order, d, e);
    KeyIsOrder(order, e, x);
    KeyOrder(KeyOf(order, d), KeyOf(order, e), KeyOf(order, x));
  }

  lemma InsertLast(order: seq<string>, es: seq<Event>, last: Event, x: Event)
    ensures Insert(order, es + [last], x) ==
      if KeyLe(KeyOf(order, last), KeyOf(order, x)) then es + [last] + [x] else Insert(order, es, x) + [last]
  {
    assert (es + [last])[..|es|] == es;
  }

  lemma Swap(es: seq<Event>, a: seq<Event>, b: seq<Event>)
    requires a == [] || b == []
    ensures es + a + b == es + b + a
  {
  }

  lemma {:induction false} InsertStable(order: seq<string>, es: seq<Event>, x: Event, e: Event)
    ensures Beside(order, Insert(order, es, x), e) == Beside(order, es + [x], e)
    decreases |es|, 1
  {
    if es == [] {
      assert Insert(order, es, x) == es + [x];
    } else {
      InsertBefore(order, es[..|es| - 1], es[|es| - 1], x, e);
      assert es == es[..|es| - 1] + [es[|es| - 1]];
    }
  }

  lemma {:induction false} InsertBefore(order: seq<string>, es: seq<Event>, last: Event, x: Event, e: Event)
    ensures Beside(order, Insert(order, es + [last], x), e) == Beside(order, es + [last] + [x], e)
    decreases |es| + 1, 0
  {
    InsertLast(order, es, last, x);
    if !KeyLe(KeyOf(order, last), KeyOf(order, x)) {
      InsertStable(order, es, x, e);
      BesideLast(order, es, x, e);
      BesideLast(order, es, last, e);
      BesideLast(order, es + [last], x, e);
      BesideLast(order, Insert(order, es, x), last, e);
      NotBoth(order, last, x, e);
      Swap(Beside(order, es, e), if Ties(order, x, e) then [x] else [], if Ties(order, last, e) then [last] else []);
    }
  }

  lemma {:induction false} SortStable(order: seq<string>, es: seq<Event>, e: Event)
    ensures Beside(order, SortEvents(order, es), e) == Beside(order, es, e)
  {
    if es != [] {
      var n := |es| - 1;
      SortStable(order, es[..n], e);
      InsertStable(order, SortEvents(order, es[..n]), es[n], e);
      BesideLast(order, SortEvents(order, es[..n]), es[n], e);
    }
  }

  /** The stops that dyld would report: images that are absent and eager imports that are missing, in bind order. */
  method CoverEvents(edges: seq<Edge>, misses: seq<Miss>, reached: set<string>, order: seq<string>)
      returns (events: seq<Event>)
    ensures forall i, j | 0 <= i < j < |events| :: InOrder(order, events[i], events[j])
    ensures multiset(events) == multiset(ImageStops(edges, reached)) + multiset(SymbolStops(misses, reached))
    ensures forall e :: Beside(order, events, e) == Beside(order, ImageStops(edges, reached) + SymbolStops(misses, reached), e)
  {
    events := [];
    for i := 0 to |edges|
      invariant events == ImageStops(edges[..i], reached)
    {
      assert edges[..i + 1][..i] == edges[..i];
      if !edges[i].weak && edges[i].referrer in reached {
        events := events + [ImageStop(edges[i].referrer, edges[i].installName)];
      }
    }
    assert edges[..|edges|] == edges;
    for i := 0 to |misses|
      invariant events == ImageStops(edges, reached) + SymbolStops(misses[..i], reached)
    {
      assert misses[..i + 1][..i] == misses[..i];
      if misses[i].kind == Missing && !misses[i].weak && misses[i].image in reached {
        events := events + [SymbolStop(misses[i].image, misses[i].symbol)];
      }
    }
    assert misses[..|misses|] == misses;
    ghost var found := events;
    EventsSorted(order, found);
    events := SortEvents(order, events);
    forall i, j | 0 <= i < j < |events| ensures InOrder(order, events[i], events[j]) {
      KeyIsOrder(order, events[i], events[j]);
    }
    forall e ensures Beside(order, events, e) == Beside(order, found, e) {
      SortStable(order, found, e);
    }
  }

  /** One row per import of an image, as the label says. */
  datatype Demand = Demand(image: string, imp: Import, field: Option<string>, loaded: seq<string>)

  function Misses(demands: seq<Demand>, s: Supply, closure: seq<string>): seq<Miss> {
    if demands == [] then []
    else
      var d := demands[|demands| - 1];
      Misses(demands[..|demands| - 1], s, closure)
      + [Miss(LabelOf(d.imp, d.field, s, d.loaded, closure), d.imp.weak, d.image, d.imp.name)]
  }

  /** An import is a symbol stop: it is missing and its image is reached. */
  predicate IsStop(d: Demand, s: Supply, closure: seq<string>, reached: set<string>) {
    LabelOf(d.imp, d.field, s, d.loaded, closure) == Missing && d.image in reached
  }

  /** The symbol stops are those of the missing imports, in their order. */
  function Stops(demands: seq<Demand>, s: Supply, closure: seq<string>, reached: set<string>): seq<Event> {
    if demands == [] then []
    else
      var d := demands[|demands| - 1];
      Stops(demands[..|demands| - 1], s, closure, reached)
      + if IsStop(d, s, closure, reached) then [SymbolStop(d.image, d.imp.name)] else []
  }

  lemma {:induction false} StopsAreMisses(demands: seq<Demand>, s: Supply, closure: seq<string>, reached: set<string>)
    ensures SymbolStops(Misses(demands, s, closure), reached) == Stops(demands, s, closure, reached)
  {
    if demands != [] {
      var n := |demands| - 1;
      var d := demands[n];
      StopsAreMisses(demands[..n], s, closure, reached);
      MissingIff(d.imp, d.field, s, d.loaded, closure);
      var ms := Misses(demands, s, closure);
      assert ms[..|ms| - 1] == Misses(demands[..n], s, closure);
    }
  }

  /** Exporting more never makes a new symbol stop: the stops that are left are among those before. */
  lemma {:induction false} StopsAreAntitone(demands: seq<Demand>, s: Supply, s': Supply, closure: seq<string>, reached: set<string>)
    requires Grows(s, s')
    ensures multiset(Stops(demands, s', closure, reached)) <= multiset(Stops(demands, s, closure, reached))
  {
    if demands != [] {
      var n := |demands| - 1;
      var d := demands[n];
      StopsAreAntitone(demands[..n], s, s', closure, reached);
      if LabelOf(d.imp, d.field, s', d.loaded, closure) == Missing {
        LabelsAreAntitone(d.imp, d.field, s, s', d.loaded, closure);
      }
    }
  }

  /** For a fixed load graph, enlarging what images export makes no new stop. */
  lemma ExportsMakeNoStop(w: Images, w': Images, bound: nat, s: Supply, s': Supply, demands: seq<Demand>,
      closure: seq<string>, reached: set<string>)
    requires SameGraph(w, w') && IsSupply(w, bound, s) && IsSupply(w', bound, s')
    requires forall r :: w.exports(r) <= w'.exports(r)
    ensures multiset(Stops(demands, s', closure, reached)) <= multiset(Stops(demands, s, closure, reached))
  {
    SupplyFollowsExports(w, w', bound, s, s');
    StopsAreAntitone(demands, s, s', closure, reached);
  }

  /** For a fixed load graph, exporting one name or not changes labels of imports of that name only. */
  lemma NameIsLocal(w: Images, w': Images, bound: nat, s: Supply, s': Supply, name: string, d: Demand, closure: seq<string>)
    requires SameGraph(w, w') && IsSupply(w, bound, s) && IsSupply(w', bound, s')
    requires forall r :: w.exports(r) - {name} == w'.exports(r) - {name}
    ensures LabelOf(d.imp, d.field, s, d.loaded, closure) != LabelOf(d.imp, d.field, s', d.loaded, closure) ==>
      d.imp.name == name
  {
    SupplyFollowsName(w, w', bound, s, s', name);
    if d.imp.name != name {
      LabelsAreLocal(d.imp, d.field, s, s', d.loaded, closure, name);
    }
  }
}
