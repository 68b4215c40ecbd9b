/**
 Which projects a manifest has (`parse_projects` of scripts/west-pin-sync.py), told without the line
 machine: below the heading `projects:` every block that starts with a name is a project, with the
 first path and the first revision of its lines, whatever else stands between the blocks and around
 the section.
 */
module PinManifest {
  import opened Prelude
  import opened PinSync

  // ------------------------------------------------------- blocks of line forms

  predicate IsHeader(f: Form) {
    f.section.Some? && f.section.value.key == "projects"
  }

  /** A heading of another section that ends the one with this indent. */
  predicate IsEnd(f: Form, section: nat) {
    f.section.Some? && f.section.value.key != "projects" && f.section.value.indent <= section
  }

  /** The line stays in the section. */
  predicate IsWithin(f: Form, section: nat) {
    !IsHeader(f) && !IsEnd(f, section)
  }

  /** The line belongs to the block whose dash has this indent. */
  predicate IsInner(f: Form, section: nat, dash: nat) {
    IsWithin(f, section) && if f.name.Some? then f.name.value.indent > dash else f.quiet || f.margin > dash
  }

  /** A line of no block. */
  predicate IsLoose(f: Form, section: nat) {
    IsWithin(f, section) && f.name.None?
  }

  /** A name, the lines that belong to it, and lines up to the next name that belong to nothing. */
  datatype Group = Group(head: Form, body: seq<Form>, loose: seq<Form>)

  predicate IsGroup(g: Group, section: nat) {
    && g.head.name.Some? && IsWithin(g.head, section)
    && (forall i | 0 <= i < |g.body| :: IsInner(g.body[i], section, g.head.name.value.indent))
    && (forall i | 0 <= i < |g.loose| :: IsLoose(g.loose[i], section))
    && (g.loose != [] ==> !g.loose[0].quiet && g.loose[0].margin <= g.head.name.value.indent)
  }

  function FormsIn(g: Group): seq<Form> {
    [g.head] + g.body + g.loose
  }

  function AllForms(gs: seq<Group>): seq<Form> {
    if gs == [] then [] else FormsIn(gs[0]) + AllForms(gs[1..])
  }

  /** A name right behind a block starts a block of its own, so its dash is not deeper. */
  predicate Follows(g: Group, h: Group)
    requires g.head.name.Some? && h.head.name.Some?
  {
    g.loose == [] ==> h.head.name.value.indent <= g.head.name.value.indent
  }

  predicate AreGroups(gs: seq<Group>, section: nat) {
    && (forall k | 0 <= k < |gs| :: IsGroup(gs[k], section))
    && forall k | 0 < k < |gs| :: Follows(gs[k - 1], gs[k])
  }

  /** No line is read for more than one thing. */
  predicate IsForm(f: Form) {
    && (f.path.Some? ==> f.revision.None? && !f.quiet && f.name.None?)
    && (f.revision.Some? ==> !f.quiet && f.name.None?)
  }

  // ------------------------------------------------------------ the first of its kind

  /** The value of the first line that has one, and the number of that line. */
  predicate IsFirst(values: seq<Option<string>>, at: nat, value: Option<string>, line: nat) {
    if value.None? then line == 0 && forall i | 0 <= i < |values| :: values[i].None?
    else exists i | 0 <= i < |values| :: values[i] == value && line == at + i && forall j | 0 <= j < i :: values[j].None?
  }

  function PathsOf(forms: seq<Form>): seq<Option<string>> {
    seq(|forms|, i requires 0 <= i < |forms| => forms[i].path)
  }

  function RevisionsOf(forms: seq<Form>): seq<Option<string>> {
    seq(|forms|, i requires 0 <= i < |forms| => forms[i].revision)
  }

  /** The project of a group whose name is on line `at`. */
  predicate IsProject(x: Project, g: Group, at: nat) {
    && g.head.name.Some? && x.name == g.head.name.value.word && x.nameLine == at
    && IsFirst(PathsOf(g.body), at + 1, x.path, x.pathLine) && IsFirst(RevisionsOf(g.body), at + 1, x.revision, x.revLine)
  }

  lemma FirstMore(values: seq<Option<string>>, at: nat, value: Option<string>, line: nat, next: Option<string>)
    requires IsFirst(values, at, value, line)
    ensures value.Some? || next.None? ==> IsFirst(values + [next], at, value, line)
    ensures value.None? && next.Some? ==> IsFirst(values + [next], at, next, at + |values|)
  {
    var all := values + [next];
    if value.Some? {
      var i :| 0 <= i < |values| && values[i] == value && line == at + i && forall j | 0 <= j < i :: values[j].None?;
      assert all[i] == value && forall j | 0 <= j < i :: all[j] == values[j];
    } else if next.Some? {
      assert all[|values|] == next && forall j | 0 <= j < |values| :: all[j] == values[j];
    }
  }

  // ------------------------------------------------------------ runs of the machine

  type Step = (Parser, Form, nat) -> Parser

  function Fold(step: Step, p: Parser, forms: seq<Form>, at: nat): Parser {
    if forms == [] then p else step(Fold(step, p, forms[..|forms| - 1], at), forms[|forms| - 1], at + |forms| - 1)
  }

  lemma FoldLast(step: Step, p: Parser, forms: seq<Form>, f: Form, at: nat)
    ensures Fold(step, p, forms + [f], at) == step(Fold(step, p, forms, at), f, at + |forms|)
  {
    assert (forms + [f])[..|forms|] == forms;
  }

  lemma {:induction false} FoldJoin(step: Step, p: Parser, a: seq<Form>, b: seq<Form>, at: nat)
    ensures Fold(step, p, a + b, at) == Fold(step, Fold(step, p, a, at), b, at + |a|)
    decreases |b|
  {
    if b == [] {
      assert a + b == a;
    } else {
      var c, f := b[..|b| - 1], b[|b| - 1];
      FoldJoin(step, p, a, c, at);
      FoldLast(step, p, a + c, f, at);
      FoldLast(step, Fold(step, p, a, at), c, f, at + |a|);
      assert b == c + [f] && a + b == (a + c) + [f];
    }
  }

  lemma FoldFirst(step: Step, p: Parser, f: Form, forms: seq<Form>, at: nat)
    ensures Fold(step, p, [f] + forms, at) == Fold(step, step(p, f, at), forms, at + 1)
  {
    FoldJoin(step, p, [f], forms, at);
    FoldLast(step, p, [], f, at);
    assert [] + [f] == [f];
  }

  const FEED: Step := (p: Parser, f: Form, i: nat) => Feed(p, f, i)

  /** The machine over lines that start at `at`. */
  function Run(p: Parser, forms: seq<Form>, at: nat): Parser {
    Fold(FEED, p, forms, at)
  }

  lemma {:induction false} RunIsFeed(forms: seq<Form>, n: nat)
    requires n <= |forms|
    ensures Run(START, forms[..n], 0) == FeedAll(forms, n)
  {
    if n > 0 {
      RunIsFeed(forms, n - 1);
      assert forms[..n][..n - 1] == forms[..n - 1];
    }
  }

  lemma RunLast(p: Parser, forms: seq<Form>, f: Form, at: nat)
    ensures Run(p, forms + [f], at) == Feed(Run(p, forms, at), f, at + |forms|)
  {
    FoldLast(FEED, p, forms, f, at);
  }

  lemma RunJoin(p: Parser, a: seq<Form>, b: seq<Form>, at: nat)
    ensures Run(p, a + b, at) == Run(Run(p, a, at), b, at + |a|)
  {
    FoldJoin(FEED, p, a, b, at);
  }

  lemma RunFirst(p: Parser, f: Form, forms: seq<Form>, at: nat)
    ensures Run(p, [f] + forms, at) == Run(Feed(p, f, at), forms, at + 1)
  {
    FoldFirst(FEED, p, f, forms, at);
  }

  /** Outside the section nothing is read up to its heading. */
  lemma {:induction false} RunOutside(p: Parser, forms: seq<Form>, at: nat)
    requires !p.inProjects && forall i | 0 <= i < |forms| :: !IsHeader(forms[i])
    ensures Run(p, forms, at) == p
    decreases |forms|
  {
    if forms != [] {
      RunOutside(p, forms[..|forms| - 1], at);
    }
  }

  /** Between projects, lines without a name are passed over. */
  lemma {:induction false} RunLoose(p: Parser, forms: seq<Form>, at: nat)
    requires p.inProjects && p.current.None? && forall i | 0 <= i < |forms| :: IsLoose(forms[i], p.sectionIndent)
    ensures Run(p, forms, at) == p
    decreases |forms|
  {
    if forms != [] {
      RunLoose(p, forms[..|forms| - 1], at);
    }
  }

  /** Inside a project: what was closed before, and the project so far. */
  predicate IsReading(p: Parser, closed: seq<Project>, section: nat, g: Group, n: nat, at: nat)
    requires n <= |g.body|
  {
    && g.head.name.Some? && p.closed == closed && p.current.Some? && p.inProjects && p.sectionIndent == section
    && p.dashIndent == g.head.name.value.indent
    && IsProject(p.current.value, g.(body := g.body[..n]), at)
  }

  /** What one line adds to a project. */
  function Effect(x: Project, f: Form, index: nat): Project {
    x.(path := if x.path.None? then f.path else x.path, pathLine := if x.path.None? && f.path.Some? then index else x.pathLine,
       revision := if x.revision.None? then f.revision else x.revision,
       revLine := if x.revision.None? && f.revision.Some? then index else x.revLine)
  }

  lemma FeedInner(p: Parser, f: Form, section: nat, dash: nat, index: nat)
    requires p.inProjects && p.sectionIndent == section && p.dashIndent == dash && p.current.Some?
    requires IsInner(f, section, dash) && IsForm(f)
    ensures Feed(p, f, index) == p.(current := Some(Effect(p.current.value, f, index)))
  {
  }

  lemma ProjectMore(x: Project, g: Group, n: nat, at: nat)
    requires n < |g.body| && IsProject(x, g.(body := g.body[..n]), at)
    ensures IsProject(Effect(x, g.body[n], at + 1 + n), g.(body := g.body[..n + 1]), at)
  {
    var f := g.body[n];
    FirstMore(PathsOf(g.body[..n]), at + 1, x.path, x.pathLine, f.path);
    FirstMore(RevisionsOf(g.body[..n]), at + 1, x.revision, x.revLine, f.revision);
    assert PathsOf(g.body[..n + 1]) == PathsOf(g.body[..n]) + [f.path];
    assert RevisionsOf(g.body[..n + 1]) == RevisionsOf(g.body[..n]) + [f.revision];
  }

  /** The lines of a block fill its project. */
  lemma {:induction false} RunBody(p: Parser, closed: seq<Project>, section: nat, g: Group, n: nat, at: nat)
    requires IsGroup(g, section) && n <= |g.body| && IsReading(p, closed, section, g, 0, at)
    requires forall i | 0 <= i < |g.body| :: IsForm(g.body[i])
    ensures IsReading(Run(p, g.body[..n], at + 1), closed, section, g, n, at)
    decreases n
  {
    if n > 0 {
      RunBody(p, closed, section, g, n - 1, at);
      var q := Run(p, g.body[..n - 1], at + 1);
      assert g.body[..n] == g.body[..n - 1] + [g.body[n - 1]];
      RunLast(p, g.body[..n - 1], g.body[n - 1], at + 1);
      FeedInner(q, g.body[n - 1], section, g.head.name.value.indent, at + n);
      ProjectMore(q.current.value, g, n - 1, at);
    }
  }

  /** Ready for a name: no project is open, or one whose dash is at least as deep. */
  predicate IsReady(p: Parser, section: nat, dash: nat) {
    p.inProjects && p.sectionIndent == section && (p.current.None? || dash <= p.dashIndent)
  }

  lemma RunHead(p: Parser, section: nat, g: Group, at: nat)
    requires g.head.name.Some? && IsWithin(g.head, section) && IsReady(p, section, g.head.name.value.indent)
    ensures IsReading(Feed(p, g.head, at), All(p), section, g, 0, at)
  {
    assert g.body[..0] == [];
  }

  /** What is left behind a block: its project, open or closed. */
  predicate IsBehind(p: Parser, closed: seq<Project>, section: nat, g: Group, at: nat) {
    && g.head.name.Some? && p.inProjects && p.sectionIndent == section && |All(p)| == |closed| + 1 && All(p)[..|closed|] == closed
    && IsProject(All(p)[|closed|], g, at)
    && if g.loose == [] then p.current.Some? && p.dashIndent == g.head.name.value.indent else p.current.None?
  }

  lemma ClosesAt(p: Parser, f: Form, section: nat, line: nat)
    requires p.inProjects && p.sectionIndent == section && p.current.Some? && IsLoose(f, section)
    requires !f.quiet && f.margin <= p.dashIndent
    ensures Feed(p, f, line) == Close(p)
  {
  }

  lemma RunTail(p: Parser, closed: seq<Project>, section: nat, g: Group, at: nat)
    requires IsGroup(g, section) && IsReading(p, closed, section, g, |g.body|, at)
    ensures IsBehind(Run(p, g.loose, at + 1 + |g.body|), closed, section, g, at)
  {
    assert g.body[..|g.body|] == g.body && g.(body := g.body) == g;
    if g.loose != [] {
      var first, rest := g.loose[0], g.loose[1..];
      var line := at + 1 + |g.body|;
      RunFirst(p, first, rest, line);
      assert g.loose == [first] + rest;
      ClosesAt(p, first, section, line);
      RunLoose(Close(p), rest, line + 1);
    }
  }

  lemma RunForms(p: Parser, g: Group, at: nat)
    ensures Run(p, FormsIn(g), at) == Run(Run(Feed(p, g.head, at), g.body, at + 1), g.loose, at + 1 + |g.body|)
  {
    assert FormsIn(g) == [g.head] + (g.body + g.loose);
    RunFirst(p, g.head, g.body + g.loose, at);
    RunJoin(Feed(p, g.head, at), g.body, g.loose, at + 1);
  }

  lemma RunGroup(p: Parser, section: nat, g: Group, at: nat)
    requires IsGroup(g, section) && IsReady(p, section, g.head.name.value.indent)
    requires forall i | 0 <= i < |g.body| :: IsForm(g.body[i])
    ensures IsBehind(Run(p, FormsIn(g), at), All(p), section, g, at)
  {
    var q := Feed(p, g.head, at);
    RunForms(p, g, at);
    RunHead(p, section, g, at);
    RunBody(q, All(p), section, g, |g.body|, at);
    assert g.body[..|g.body|] == g.body;
    RunTail(Run(q, g.body, at + 1), All(p), section, g, at);
  }

  // ---------------------------------------------------------------- all groups

  /** Where the group `k` starts when the first one starts at `at`. */
  function StartOf(gs: seq<Group>, k: nat, at: nat): nat
    requires k <= |gs|
  {
    if k == 0 then at else StartOf(gs, k - 1, at) + |FormsIn(gs[k - 1])|
  }

  lemma {:induction false} StartsNext(gs: seq<Group>, k: nat, at: nat)
    requires 0 < k <= |gs|
    ensures StartOf(gs, k, at) == StartOf(gs[1..], k - 1, at + |FormsIn(gs[0])|)
  {
    if k > 1 {
      StartsNext(gs, k - 1, at);
    }
  }

  predicate AreProjects(xs: seq<Project>, gs: seq<Group>, at: nat) {
    |xs| == |gs| && forall k | 0 <= k < |gs| :: IsProject(xs[k], gs[k], StartOf(gs, k, at))
  }

  /** From `p` the machine has read the projects of the groups. */
  predicate HasRead(p: Parser, q: Parser, section: nat, gs: seq<Group>, at: nat) {
    && q.inProjects && q.sectionIndent == section && |All(q)| == |All(p)| + |gs| && All(q)[..|All(p)|] == All(p)
    && AreProjects(All(q)[|All(p)|..], gs, at)
  }

  /** All lines of the blocks are read for one thing each. */
  predicate AreForms(gs: seq<Group>) {
    forall k, i | 0 <= k < |gs| && 0 <= i < |gs[k].body| :: IsForm(gs[k].body[i])
  }

  lemma {:induction false} RunGroups(p: Parser, section: nat, gs: seq<Group>, at: nat)
    requires AreGroups(gs, section) && p.inProjects && p.sectionIndent == section && AreForms(gs)
    requires gs != [] ==> IsReady(p, section, gs[0].head.name.value.indent)
    ensures HasRead(p, Run(p, AllForms(gs), at), section, gs, at)
    decreases |gs|
  {
    if gs != [] {
      var q := Run(p, FormsIn(gs[0]), at);
      RunGroup(p, section, gs[0], at);
      RestReady(q, All(p), section, gs, at);
      RunGroups(q, section, gs[1..], at + |FormsIn(gs[0])|);
      RunJoin(p, FormsIn(gs[0]), AllForms(gs[1..]), at);
      Joined(All(p), All(q), All(Run(p, AllForms(gs), at)), gs, at);
    }
  }

  lemma RestReady(q: Parser, closed: seq<Project>, section: nat, gs: seq<Group>, at: nat)
    requires gs != [] && AreGroups(gs, section) && IsBehind(q, closed, section, gs[0], at)
    ensures AreGroups(gs[1..], section)
    ensures AreForms(gs) ==> AreForms(gs[1..])
    ensures |gs| > 1 ==> IsReady(q, section, gs[1].head.name.value.indent)
  {
    var rest := gs[1..];
    forall k | 0 < k < |rest| ensures Follows(rest[k - 1], rest[k]) {
      assert Follows(gs[k], gs[k + 1]);
    }
    if |gs| > 1 {
      assert Follows(gs[0], gs[1]);
    }
  }

  lemma Slices(xs: seq<Project>, ys: seq<Project>, zs: seq<Project>)
    requires |ys| == |xs| + 1 && ys[..|xs|] == xs && |zs| >= |ys| && zs[..|ys|] == ys
    ensures zs[..|xs|] == xs && zs[|xs|..] == [ys[|xs|]] + zs[|ys|..]
  {
    assert zs[..|xs|] == zs[..|ys|][..|xs|];
    assert zs[|xs|] == zs[..|ys|][|xs|] == ys[|xs|];
  }

  lemma Joined(xs: seq<Project>, ys: seq<Project>, zs: seq<Project>, gs: seq<Group>, at: nat)
    requires gs != [] && |ys| == |xs| + 1 && ys[..|xs|] == xs && IsProject(ys[|xs|], gs[0], at)
    requires |zs| == |ys| + |gs| - 1 && zs[..|ys|] == ys
    requires AreProjects(zs[|ys|..], gs[1..], at + |FormsIn(gs[0])|)
    ensures zs[..|xs|] == xs && AreProjects(zs[|xs|..], gs, at)
  {
    Slices(xs, ys, zs);
    OneMoreProject(ys[|xs|], zs[|ys|..], gs, at);
  }

  lemma OneMoreProject(x: Project, xs: seq<Project>, gs: seq<Group>, at: nat)
    requires gs != [] && IsProject(x, gs[0], at) && AreProjects(xs, gs[1..], at + |FormsIn(gs[0])|)
    ensures AreProjects([x] + xs, gs, at)
  {
    forall k | 0 <= k < |gs| ensures IsProject(([x] + xs)[k], gs[k], StartOf(gs, k, at)) {
      if k > 0 {
        StartsNext(gs, k, at);
        assert IsProject(xs[k - 1], gs[1..][k - 1], StartOf(gs[1..], k - 1, at + |FormsIn(gs[0])|));
      }
    }
  }

  // ------------------------------------------------------------- a whole manifest

  /** What stands before the section, its heading, lines without a name, its blocks, and what follows it. */
  datatype Manifest = Manifest(before: seq<Form>, heading: Form, prelude: seq<Form>, groups: seq<Group>, after: seq<Form>)

  function Flat(m: Manifest): seq<Form> {
    m.before + ([m.heading] + (m.prelude + (AllForms(m.groups) + m.after)))
  }

  predicate IsManifest(m: Manifest) {
    && (forall i | 0 <= i < |m.before| :: !IsHeader(m.before[i])) && IsHeader(m.heading)
    && var section := m.heading.section.value.indent;
       && (forall i | 0 <= i < |m.prelude| :: IsLoose(m.prelude[i], section)) && AreGroups(m.groups, section)
       && (m.after != [] ==> IsEnd(m.after[0], section)) && forall i | 0 <= i < |m.after| :: !IsHeader(m.after[i])
  }

  /** The first line of the first block. */
  function FirstLine(m: Manifest): nat {
    |m.before| + 1 + |m.prelude|
  }

  lemma RunAfter(p: Parser, section: nat, after: seq<Form>, at: nat)
    requires p.inProjects && p.sectionIndent == section && (after != [] ==> IsEnd(after[0], section))
    requires forall i | 0 <= i < |after| :: !IsHeader(after[i])
    ensures All(Run(p, after, at)) == All(p)
  {
    if after != [] {
      var first, rest := after[0], after[1..];
      RunFirst(p, first, rest, at);
      assert after == [first] + rest;
      RunOutside(Feed(p, first, at), rest, at + 1);
    }
  }

  lemma FoldSection(step: Step, p: Parser, prelude: seq<Form>, groups: seq<Form>, after: seq<Form>, at: nat)
    ensures Fold(step, p, prelude + (groups + after), at) ==
      Fold(step, Fold(step, Fold(step, p, prelude, at), groups, at + |prelude|), after, at + |prelude| + |groups|)
  {
    FoldJoin(step, p, prelude, groups + after, at);
    FoldJoin(step, Fold(step, p, prelude, at), groups, after, at + |prelude|);
  }

  lemma FoldHeading(step: Step, p: Parser, before: seq<Form>, heading: Form, rest: seq<Form>)
    ensures Fold(step, p, before + ([heading] + rest), 0) ==
      Fold(step, step(Fold(step, p, before, 0), heading, |before|), rest, |before| + 1)
  {
    FoldJoin(step, p, before, [heading] + rest, 0);
    FoldFirst(step, Fold(step, p, before, 0), heading, rest, |before|);
  }

  /** A run over the parts, where the first and the third leave the state alone. */
  lemma FoldFlat(step: Step, p: Parser, m: Manifest, q: Parser)
    requires Fold(step, p, m.before, 0) == p && q == step(p, m.heading, |m.before|)
    requires Fold(step, q, m.prelude, |m.before| + 1) == q
    ensures Fold(step, p, Flat(m), 0) ==
      Fold(step, Fold(step, q, AllForms(m.groups), FirstLine(m)), m.after, FirstLine(m) + |AllForms(m.groups)|)
  {
    FoldHeading(step, p, m.before, m.heading, m.prelude + (AllForms(m.groups) + m.after));
    FoldSection(step, q, m.prelude, AllForms(m.groups), m.after, |m.before| + 1);
  }

  lemma ReadFromNothing(p: Parser, q: Parser, section: nat, gs: seq<Group>, at: nat)
    requires HasRead(p, q, section, gs, at) && All(p) == []
    ensures AreProjects(All(q), gs, at)
  {
    assert All(q)[0..] == All(q);
  }

  lemma FromHeading(m: Manifest, p: Parser, section: nat, at: nat, end: nat)
    requires AreGroups(m.groups, section) && AreForms(m.groups) && (m.after != [] ==> IsEnd(m.after[0], section))
    requires forall i | 0 <= i < |m.after| :: !IsHeader(m.after[i])
    requires p.inProjects && p.sectionIndent == section && p.current.None? && p.closed == []
    ensures AreProjects(All(Run(Run(p, AllForms(m.groups), at), m.after, end)), m.groups, at)
  {
    var q := Run(p, AllForms(m.groups), at);
    RunGroups(p, section, m.groups, at);
    ReadFromNothing(p, q, section, m.groups, at);
    RunAfter(q, section, m.after, end);
  }

  lemma RunWhole(forms: seq<Form>)
    ensures ProjectsIn(forms) == All(Run(START, forms, 0))
  {
    RunIsFeed(forms, |forms|);
    assert forms[..|forms|] == forms;
  }

  lemma AtHeading(f: Form, at: nat)
    requires IsHeader(f)
    ensures Feed(START, f, at) == Parser([], None, true, f.section.value.indent, 0)
  {
  }

  lemma RunManifest(m: Manifest, p: Parser)
    requires IsManifest(m) && p == Parser([], None, true, m.heading.section.value.indent, 0)
    ensures Run(START, Flat(m), 0) == Run(Run(p, AllForms(m.groups), FirstLine(m)), m.after, FirstLine(m) + |AllForms(m.groups)|)
  {
    AtHeading(m.heading, |m.before|);
    RunOutside(START, m.before, 0);
    RunLoose(p, m.prelude, |m.before| + 1);
    FoldFlat(FEED, START, m, p);
  }

  lemma RunParts(m: Manifest, p: Parser, at: nat, end: nat)
    requires IsManifest(m) && p == Parser([], None, true, m.heading.section.value.indent, 0)
    requires at == FirstLine(m) && end == at + |AllForms(m.groups)|
    ensures ProjectsIn(Flat(m)) == All(Run(Run(p, AllForms(m.groups), at), m.after, end))
  {
    RunManifest(m, p);
    RunWhole(Flat(m));
  }

  /** The machine reads exactly the projects of the blocks. */
  lemma ManifestProjects(m: Manifest, xs: seq<Project>, at: nat)
    requires IsManifest(m) && AreForms(m.groups) && xs == ProjectsIn(Flat(m)) && at == FirstLine(m)
    ensures AreProjects(xs, m.groups, at)
  {
    var section, end := m.heading.section.value.indent, at + |AllForms(m.groups)|;
    var p := Parser([], None, true, section, 0);
    RunParts(m, p, at, end);
    FromHeading(m, p, section, at, end);
  }
}
