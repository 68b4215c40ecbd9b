/**
 File trees as the transactions see them: one record for every path below a root, keyed by the
 path relative to that root. The root itself is the empty path, so an absent file or directory is
 the tree with no records. Two trees are equal exactly when their `_snapshot` digests are, since
 the digest covers every (path, kind, mode, content) record and is taken to be injective.

 A rename moves a whole tree in one step; a recursive deletion removes one leaf at a time and can
 be cut short anywhere; a recursive copy likewise adds one record at a time.
 */
module Trees {

  type Path = seq<string>

  datatype Entry =
    | File(mode: nat, content: string)
    | Directory(mode: nat)
    | Symlink(mode: nat, target: string)

  type Tree = map<Path, Entry>

  const Absent: Tree := map[]

  /** A record with nothing below it: the only kind that `unlink` or `rmdir` accepts. */
  predicate IsLeaf(t: Tree, p: Path) {
    p in t && forall q | q in t :: !(p < q)
  }

  ghost predicate RemovesLeaf(t: Tree, t': Tree) {
    exists p :: IsLeaf(t, p) && t' == t - {p}
  }

  ghost predicate CopiesRecord(source: Tree, copy: Tree, copy': Tree) {
    exists p :: p in source && p !in copy && copy' == copy[p := source[p]]
  }

  predicate AllAbsent(ts: seq<Tree>) {
    forall i | 0 <= i < |ts| :: ts[i] == Absent
  }

  /** One step of deleting a directory that holds the numbered trees `ts`. */
  ghost predicate RemovesOneOf(ts: seq<Tree>, ts': seq<Tree>) {
    exists i, t' :: 0 <= i < |ts| && RemovesLeaf(ts[i], t') && ts' == ts[i := t']
  }

  /** A non-empty tree always has a leaf, so a recursive deletion can always go on. */
  lemma LeafExists(t: Tree) returns (p: Path)
    requires t != Absent
    ensures IsLeaf(t, p)
  {
    p :| p in t;
    while !IsLeaf(t, p)
      invariant p in t
      decreases LongestPath(t) - |p|
    {
      var q :| q in t && p < q;
      LongestPathBounds(t, q);
      p := q;
    }
  }

  /** Deletes one record of a tree, the way a recursive deletion proceeds. */
  method DeleteLeaf(t: Tree) returns (t': Tree)
    requires t != Absent
    ensures RemovesLeaf(t, t') && |t'| < |t|
  {
    ghost var q := LeafExists(t);
    var p :| p in t && IsLeaf(t, p);
    t' := t - {p};
    assert t.Keys == t'.Keys + {p};
  }

  ghost function LongestPath(t: Tree): nat {
    if t == Absent then 0
    else
      var p :| p in t;
      var rest := LongestPath(t - {p});
      if |p| > rest then |p| else rest
  }

  lemma LongestPathBounds(t: Tree, q: Path)
    requires q in t
    ensures |q| <= LongestPath(t)
  {
    var p :| p in t && LongestPath(t) == if |p| > LongestPath(t - {p}) then |p| else LongestPath(t - {p});
    if q != p {
      LongestPathBounds(t - {p}, q);
    }
  }
}
