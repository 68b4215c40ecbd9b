/**
 The census of contract files (`unaccounted_contracts` of ci/run-host-tier.py): a worklist over
 source files that accounts for every contract some scanned source invokes. It computes a least
 fixed point.
 */
module ContractCensus {
  import opened Prelude

  type Path = seq<string>

  datatype Workload = Workload(env: string, repo: Option<string>, script: Option<Path>)

  /** The files: what a path resolves to and what stands there, where that can be had and read. */
  datatype Files = Files(identity: Path -> Option<Path>, content: Path -> Option<string>)

  /** What the tier lists, and how the text of a source is read. */
  datatype Tier = Tier(
    contracts: map<string, Path>,
    registered: seq<Path>,
    explicit: seq<Path>,
    excluded: seq<Path>,
    family: string -> Option<string>,
    invokes: (string, string) -> bool)

  function Name(p: Path): string {
    if p == [] then "" else p[|p| - 1]
  }

  function Names(ps: seq<Path>): set<string> {
    set i | 0 <= i < |ps| :: Name(ps[i])
  }

  function Elements(ps: seq<Path>): set<Path> {
    set p | p in ps
  }

  /** The source can be read and its text invokes the contract. */
  predicate Invokes(files: Files, tier: Tier, source: Path, name: string) {
    && name in tier.contracts && files.identity(source).Some?
    && var text := files.content(files.identity(source).value);
       text.Some? && tier.invokes(text.value, name)
  }

  // --------------------------------------------------------------- the start

  /** The last part of the path is this name. */
  predicate IsNamed(p: Path, name: string) {
    if p == [] then name == "" else p[|p| - 1] == name
  }

  lemma NamesIff(ps: seq<Path>, name: string)
    ensures name in Names(ps) <==> exists p | p in ps :: IsNamed(p, name)
  {
    if p :| p in ps && IsNamed(p, name) {
      var i :| 0 <= i < |ps| && ps[i] == p;
      assert Name(ps[i]) == name;
    }
    if name in Names(ps) {
      var i :| 0 <= i < |ps| && name == Name(ps[i]);
      assert ps[i] in ps && IsNamed(ps[i], name);
    }
  }

  /** A contract of the family of some excluded one. */
  ghost predicate InExcludedFamily(tier: Tier, name: string) {
    && name in tier.contracts && tier.family(name).Some?
    && exists p, x | p in tier.excluded && IsNamed(p, x) :: tier.family(x) == tier.family(name)
  }

  /** A workload of the host in this repository, whose script is a contract. */
  predicate IsHostScript(tier: Tier, w: Workload, script: Path, name: string) {
    && w.env == "host" && (w.repo == None || w.repo == Some("darling-workspace")) && w.script == Some(script)
    && IsNamed(script, name) && name in tier.contracts
  }

  /** Some of the workloads is for this script and this contract. */
  ghost predicate HasScript(tier: Tier, workloads: seq<Workload>, script: Path, name: string) {
    exists w | w in workloads :: IsHostScript(tier, w, script, name)
  }

  /** The contracts accounted for without reading any source. */
  ghost predicate Listed(tier: Tier, workloads: seq<Workload>, name: string) {
    || (exists p | p in tier.registered + tier.explicit + tier.excluded :: IsNamed(p, name))
    || InExcludedFamily(tier, name)
    || exists script :: HasScript(tier, workloads, script, name)
  }

  ghost predicate IsRoot(tier: Tier, entrypoints: seq<Path>, workloads: seq<Workload>, p: Path) {
    || p in entrypoints || p in tier.registered || p in tier.explicit
    || exists name :: HasScript(tier, workloads, p, name)
  }

  // --------------------------------------------------------- the fixed point

  /**
   A set of contracts that is closed: what is listed is in it, what a root source invokes is in it,
   and so is what a contract in it invokes, unless that contract is accounted for by a listing alone.
   */
  ghost predicate Closed(files: Files, tier: Tier, listed: set<string>, roots: set<Path>, a: set<string>) {
    && listed <= a
    && (forall p, n | p in roots && Invokes(files, tier, p, n) :: n in a)
    && (forall m, n | m in a && m !in listed && m in tier.contracts && Invokes(files, tier, tier.contracts[m], n) :: n in a)
  }

  /** Everything invoked from here is accounted for. */
  ghost predicate Covered(files: Files, tier: Tier, p: Path, a: set<string>) {
    forall n | Invokes(files, tier, p, n) :: n in a
  }

  /** Scanning the text of one source: every contract it invokes is accounted for and, if new, queued. */
  method ScanText(files: Files, tier: Tier, source: Path, text: string, accounted: set<string>, sources: seq<Path>)
      returns (accounted': set<string>, sources': seq<Path>)
    requires files.identity(source).Some? && files.content(files.identity(source).value) == Some(text)
    ensures accounted <= accounted' && Covered(files, tier, source, accounted')
    ensures forall n | n in accounted' && n !in accounted :: Invokes(files, tier, source, n)
    ensures forall p :: p in sources' <==>
      p in sources || exists n | n in accounted' && n !in accounted && n in tier.contracts :: tier.contracts[n] == p
    ensures |sources'| + |tier.contracts.Keys - accounted'| == |sources| + |tier.contracts.Keys - accounted|
  {
    accounted', sources' := accounted, sources;
    var todo := tier.contracts.Keys;
    while todo != {}
      invariant todo <= tier.contracts.Keys && accounted <= accounted'
      invariant forall n | Invokes(files, tier, source, n) && n !in todo :: n in accounted'
      invariant forall n | n in accounted' && n !in accounted :: Invokes(files, tier, source, n)
      invariant forall p :: p in sources' <==>
        p in sources || exists n | n in accounted' && n !in accounted && n in tier.contracts :: tier.contracts[n] == p
      invariant |sources'| + |tier.contracts.Keys - accounted'| == |sources| + |tier.contracts.Keys - accounted|
      decreases |todo|
    {
      var name :| name in todo;
      todo := todo - {name};
      if name !in accounted' && tier.invokes(text, name) {
        assert tier.contracts.Keys - (accounted' + {name}) == (tier.contracts.Keys - accounted') - {name};
        accounted' := accounted' + {name};
        sources' := sources' + [tier.contracts[name]];
      }
    }
  }

  ghost predicate Settled(files: Files, p: Path, scanned: set<Path>) {
    files.identity(p).None? || files.identity(p).value in scanned
  }

  /** Where the worklist stands: what is scanned is covered, what is new is scanned or queued. */
  ghost predicate Pending(files: Files, tier: Tier, listed: set<string>, roots: set<Path>, accounted: set<string>,
    sources: seq<Path>, scanned: set<Path>)
  {
    && listed <= accounted
    && (forall p | p in roots :: p in sources || Settled(files, p, scanned))
    && (forall m | m in accounted && m !in listed && m in tier.contracts ::
          tier.contracts[m] in sources || Settled(files, tier.contracts[m], scanned))
    && (forall p | files.identity(p).Some? && files.identity(p).value in scanned :: Covered(files, tier, p, accounted))
  }

  /** Nothing is accounted for or queued but what every closed set has. */
  ghost predicate Needed(files: Files, tier: Tier, listed: set<string>, roots: set<Path>, accounted: set<string>,
    sources: seq<Path>)
  {
    forall a | Closed(files, tier, listed, roots, a) ::
      accounted <= a && forall p | p in sources :: Covered(files, tier, p, a)
  }

  /** One source taken from the worklist. */
  method ScanSource(files: Files, tier: Tier, source: Path, accounted: set<string>, sources: seq<Path>, scanned: set<Path>,
      ghost listed: set<string>, ghost roots: set<Path>)
      returns (accounted': set<string>, sources': seq<Path>, scanned': set<Path>)
    requires Pending(files, tier, listed, roots, accounted, sources + [source], scanned)
    requires Needed(files, tier, listed, roots, accounted, sources + [source])
    ensures Pending(files, tier, listed, roots, accounted', sources', scanned')
    ensures Needed(files, tier, listed, roots, accounted', sources')
    ensures |sources'| + |tier.contracts.Keys - accounted'| == |sources| + |tier.contracts.Keys - accounted|
  {
    accounted', sources', scanned' := accounted, sources, scanned;
    var identity := files.identity(source);
    if identity.None? || identity.value in scanned {
      return;
    }
    scanned' := scanned + {identity.value};
    var text := files.content(identity.value);
    if text.None? {
      return;
    }
    accounted', sources' := ScanText(files, tier, source, text.value, accounted, sources);
    ScanPending(files, tier, listed, roots, source, accounted, sources, scanned, accounted', sources');
    ScanNeeded(files, tier, listed, roots, source, accounted, sources, accounted', sources');
  }

  ghost predicate Scans(files: Files, tier: Tier, source: Path, accounted: set<string>, sources: seq<Path>,
    accounted': set<string>, sources': seq<Path>)
  {
    && accounted <= accounted' && Covered(files, tier, source, accounted')
    && (forall n | n in accounted' && n !in accounted :: Invokes(files, tier, source, n))
    && (forall p :: p in sources' <==>
          p in sources || exists n | n in accounted' && n !in accounted && n in tier.contracts :: tier.contracts[n] == p)
  }

  lemma ScanPending(files: Files, tier: Tier, listed: set<string>, roots: set<Path>, source: Path,
      accounted: set<string>, sources: seq<Path>, scanned: set<Path>, accounted': set<string>, sources': seq<Path>)
    requires files.identity(source).Some?
    requires Pending(files, tier, listed, roots, accounted, sources + [source], scanned)
    requires Scans(files, tier, source, accounted, sources, accounted', sources')
    ensures Pending(files, tier, listed, roots, accounted', sources', scanned + {files.identity(source).value})
  {
    var scanned' := scanned + {files.identity(source).value};
    forall p | p in roots ensures p in sources' || Settled(files, p, scanned') {
      assert p in sources + [source] || Settled(files, p, scanned);
    }
    forall m | m in accounted' && m !in listed && m in tier.contracts
      ensures tier.contracts[m] in sources' || Settled(files, tier.contracts[m], scanned')
    {
      if m in accounted {
        assert tier.contracts[m] in sources + [source] || Settled(files, tier.contracts[m], scanned);
      }
    }
    forall p | files.identity(p).Some? && files.identity(p).value in scanned' ensures Covered(files, tier, p, accounted') {
      if files.identity(p) == files.identity(source) {
        forall n | Invokes(files, tier, p, n) ensures n in accounted' {
          assert Invokes(files, tier, source, n);
        }
      }
    }
  }

  lemma ScanNeeded(files: Files, tier: Tier, listed: set<string>, roots: set<Path>, source: Path,
      accounted: set<string>, sources: seq<Path>, accounted': set<string>, sources': seq<Path>)
    requires listed <= accounted && Needed(files, tier, listed, roots, accounted, sources + [source])
    requires Scans(files, tier, source, accounted, sources, accounted', sources')
    ensures Needed(files, tier, listed, roots, accounted', sources')
  {
    forall a | Closed(files, tier, listed, roots, a)
      ensures accounted' <= a && forall p | p in sources' :: Covered(files, tier, p, a)
    {
      assert source in sources + [source] && Covered(files, tier, source, a);
      assert accounted' <= a;
      forall p | p in sources' ensures Covered(files, tier, p, a) {
        if p in sources {
          assert p in sources + [source];
        }
      }
    }
  }

  /** The least closed set. */
  method Worklist(files: Files, tier: Tier, listed: set<string>, start: seq<Path>) returns (accounted: set<string>)
    ensures Closed(files, tier, listed, Elements(start), accounted)
    ensures forall a | Closed(files, tier, listed, Elements(start), a) :: accounted <= a
  {
    ghost var roots := Elements(start);
    accounted := listed;
    var sources, scanned: set<Path> := start, {};
    while sources != []
      invariant Pending(files, tier, listed, roots, accounted, sources, scanned)
      invariant Needed(files, tier, listed, roots, accounted, sources)
      decreases |sources| + |tier.contracts.Keys - accounted|
    {
      var source := sources[|sources| - 1];
      assert sources == sources[..|sources| - 1] + [source];
      accounted, sources, scanned :=
        ScanSource(files, tier, source, accounted, sources[..|sources| - 1], scanned, listed, roots);
    }
    PendingIsClosed(files, tier, listed, roots, accounted, scanned);
  }

  lemma PendingIsClosed(files: Files, tier: Tier, listed: set<string>, roots: set<Path>, accounted: set<string>,
      scanned: set<Path>)
    requires Pending(files, tier, listed, roots, accounted, [], scanned)
    ensures Closed(files, tier, listed, roots, accounted)
  {
    forall p, n | p in roots && Invokes(files, tier, p, n) ensures n in accounted {
      assert Settled(files, p, scanned);
      assert Covered(files, tier, p, accounted);
    }
    forall m, n | m in accounted && m !in listed && m in tier.contracts && Invokes(files, tier, tier.contracts[m], n)
      ensures n in accounted
    {
      assert Settled(files, tier.contracts[m], scanned);
      assert Covered(files, tier, tier.contracts[m], accounted);
    }
  }

  // -------------------------------------------------------------- the census

  /** The names of registered, explicit and excluded contracts, and of the families of the last. */
  method ListedByTier(tier: Tier) returns (listed: set<string>)
    ensures forall n :: n in listed <==>
      (exists p | p in tier.registered + tier.explicit + tier.excluded :: IsNamed(p, n)) || InExcludedFamily(tier, n)
  {
    var excluded := Names(tier.excluded);
    listed := Names(tier.registered) + Names(tier.explicit) + excluded;
    ghost var named := listed;
    var families := set x | x in excluded && tier.family(x).Some? :: tier.family(x).value;
    listed := listed + set n | n in tier.contracts && tier.family(n).Some? && tier.family(n).value in families;
    forall n ensures n in named <==> exists p | p in tier.registered + tier.explicit + tier.excluded :: IsNamed(p, n) {
      AllNames(tier, n);
    }
    forall n ensures InExcludedFamily(tier, n) <==>
      n in tier.contracts && tier.family(n).Some? && tier.family(n).value in families
    {
      FamilyIff(tier, n, families);
    }
  }

  lemma AllNames(tier: Tier, n: string)
    ensures n in Names(tier.registered) + Names(tier.explicit) + Names(tier.excluded) <==>
      exists p | p in tier.registered + tier.explicit + tier.excluded :: IsNamed(p, n)
  {
    NamesIff(tier.registered, n);
    NamesIff(tier.explicit, n);
    NamesIff(tier.excluded, n);
    var all := tier.registered + tier.explicit + tier.excluded;
    assert forall p :: p in all <==> p in tier.registered || p in tier.explicit || p in tier.excluded;
  }

  lemma FamilyIff(tier: Tier, n: string, families: set<string>)
    requires families == set x | x in Names(tier.excluded) && tier.family(x).Some? :: tier.family(x).value
    ensures InExcludedFamily(tier, n) <==> n in tier.contracts && tier.family(n).Some? && tier.family(n).value in families
  {
    if InExcludedFamily(tier, n) {
      var p, x :| p in tier.excluded && IsNamed(p, x) && tier.family(x) == tier.family(n);
      NamesIff(tier.excluded, x);
    }
    if n in tier.contracts && tier.family(n).Some? && tier.family(n).value in families {
      var x :| x in Names(tier.excluded) && tier.family(x).Some? && tier.family(x).value == tier.family(n).value;
      NamesIff(tier.excluded, x);
      var p :| p in tier.excluded && IsNamed(p, x);
      assert tier.family(x) == tier.family(n);
    }
  }

  lemma ScriptMore(tier: Tier, workloads: seq<Workload>, w: Workload, script: Path, name: string)
    ensures HasScript(tier, workloads + [w], script, name) <==>
      HasScript(tier, workloads, script, name) || IsHostScript(tier, w, script, name)
  {
    assert forall x :: x in workloads + [w] <==> x in workloads || x == w;
  }

  /** These are the names and the scripts of such workloads. */
  ghost predicate AreScripts(tier: Tier, workloads: seq<Workload>, names: set<string>, scripts: seq<Path>) {
    && (forall n :: n in names <==> exists script :: HasScript(tier, workloads, script, n))
    && forall p :: p in scripts <==> exists n :: HasScript(tier, workloads, p, n)
  }

  lemma NoScript(tier: Tier, workloads: seq<Workload>, w: Workload, names: set<string>, scripts: seq<Path>)
    requires AreScripts(tier, workloads, names, scripts) && forall p, n :: !IsHostScript(tier, w, p, n)
    ensures AreScripts(tier, workloads + [w], names, scripts)
  {
    forall p, n ensures HasScript(tier, workloads + [w], p, n) <==> HasScript(tier, workloads, p, n) {
      ScriptMore(tier, workloads, w, p, n);
    }
  }

  lemma OneScript(tier: Tier, workloads: seq<Workload>, w: Workload, names: set<string>, scripts: seq<Path>, script: Path,
                  name: string)
    requires AreScripts(tier, workloads, names, scripts) && IsHostScript(tier, w, script, name)
    ensures AreScripts(tier, workloads + [w], names + {name}, scripts + [script])
  {
    forall p, n
      ensures HasScript(tier, workloads + [w], p, n) <==> HasScript(tier, workloads, p, n) || (p == script && n == name)
    {
      ScriptMore(tier, workloads, w, p, n);
    }
    assert HasScript(tier, workloads + [w], script, name);
  }

  /** The scripts of host workloads that are contracts, with their names. */
  method HostScripts(tier: Tier, workloads: seq<Workload>) returns (names: set<string>, scripts: seq<Path>)
    ensures AreScripts(tier, workloads, names, scripts)
  {
    names, scripts := {}, [];
    for i := 0 to |workloads|
      invariant AreScripts(tier, workloads[..i], names, scripts)
    {
      var w := workloads[i];
      assert workloads[..i + 1] == workloads[..i] + [w];
      if w.env != "host" || (w.repo.Some? && w.repo.value != "darling-workspace") || w.script.None?
         || Name(w.script.value) !in tier.contracts {
        NoScript(tier, workloads[..i], w, names, scripts);
      } else {
        OneScript(tier, workloads[..i], w, names, scripts, w.script.value, Name(w.script.value));
        names, scripts := names + {Name(w.script.value)}, scripts + [w.script.value];
      }
    }
    assert workloads[..|workloads|] == workloads;
  }

  /** What is listed, before any source is read, and the sources to start from. */
  method Listing(tier: Tier, entrypoints: seq<Path>, workloads: seq<Workload>)
      returns (listed: set<string>, start: seq<Path>)
    ensures forall n :: n in listed <==> Listed(tier, workloads, n)
    ensures forall p :: p in start <==> IsRoot(tier, entrypoints, workloads, p)
  {
    listed := ListedByTier(tier);
    var names, scripts := HostScripts(tier, workloads);
    listed, start := listed + names, entrypoints + scripts + tier.registered + tier.explicit;
  }

  /** The listed names and the root sources. */
  ghost predicate AreGiven(tier: Tier, entrypoints: seq<Path>, workloads: seq<Workload>, listed: set<string>, roots: set<Path>)
  {
    && (forall n :: n in listed <==> Listed(tier, workloads, n))
    && (forall p :: p in roots <==> IsRoot(tier, entrypoints, workloads, p))
  }

  /**
   The contracts that nothing accounts for: a name is reported exactly when some closed set over the
   listed names and the root sources does without it.
   */
  method Unaccounted(files: Files, tier: Tier, entrypoints: seq<Path>, workloads: seq<Workload>)
      returns (names: set<string>)
    ensures forall n :: n in names <==>
      n in tier.contracts && exists listed, roots, a ::
        AreGiven(tier, entrypoints, workloads, listed, roots) && Closed(files, tier, listed, roots, a) && n !in a
  {
    var listed, start := Listing(tier, entrypoints, workloads);
    var accounted := Worklist(files, tier, listed, start);
    names := set n | n in tier.contracts && n !in accounted;
    ghost var roots := Elements(start);
    assert AreGiven(tier, entrypoints, workloads, listed, roots) && Closed(files, tier, listed, roots, accounted);
    forall l, r | AreGiven(tier, entrypoints, workloads, l, r) ensures l == listed && r == roots {
      GivenOnce(tier, entrypoints, workloads, l, r, listed, roots);
    }
  }

  lemma GivenOnce(tier: Tier, entrypoints: seq<Path>, workloads: seq<Workload>, l: set<string>, r: set<Path>,
      l': set<string>, r': set<Path>)
    requires AreGiven(tier, entrypoints, workloads, l, r) && AreGiven(tier, entrypoints, workloads, l', r')
    ensures l == l' && r == r'
  {
    assert forall n :: n in l <==> n in l';
    assert forall p :: p in r <==> p in r';
  }
}
