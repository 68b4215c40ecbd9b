/**
 The pin sync of scripts/west-pin-sync.py: the projects of a manifest as a line machine reads them
 (`parse_projects`), what is planned for each (`plan`) and the rewrite of their revision lines
 (`apply_rows`, `verify_only_revisions_changed`).
 */
module PinSync {
  import opened Prelude
  import opened PinText

  datatype Project = Project(
    name: string, path: Option<string>, revision: Option<string>, nameLine: nat, pathLine: nat, revLine: nat)

  // ----------------------------------------------------------------- parsing

  /** Where the line machine stands; `current`: the project that takes the lines that follow. */
  datatype Parser = Parser(
    closed: seq<Project>, current: Option<Project>, inProjects: bool, sectionIndent: nat, dashIndent: nat)

  const PROJECTS := "projects"

  /** What a line can be to the machine; `quiet`: blank or a comment. */
  datatype Form = Form(
    section: Option<Section>, name: Option<Field>, quiet: bool, margin: nat, path: Option<string>, revision: Option<string>)

  function WordOf(f: Option<Field>): Option<string> {
    if f.None? then None else Some(f.value.word)
  }

  function FormOf(s: string): Form {
    Form(SectionOf(s), NameOf(s), IsBlank(s) || s[Margin(s)..][..1] == "#", Margin(s), WordOf(WholeField(s, PATH)),
      WordOf(FieldOf(s, REVISION)))
  }

  /** All projects so far, the current one last. */
  function All(p: Parser): seq<Project> {
    if p.current.Some? then p.closed + [p.current.value] else p.closed
  }

  /** No line belongs to the current project any more. */
  function Close(p: Parser): Parser {
    p.(closed := All(p), current := None)
  }

  /** A line under the current project. */
  function FeedField(x: Project, f: Form, index: nat): Project {
    if f.path.Some? && x.path.None? then x.(path := f.path, pathLine := index)
    else if f.revision.Some? && x.revision.None? then x.(revision := f.revision, revLine := index)
    else x
  }

  /** A project starts with its name. */
  function Begin(p: Parser, name: Field, index: nat): Parser {
    p.(current := Some(Project(name.word, None, None, index, 0, 0)), dashIndent := name.indent)
  }

  function FeedBody(p: Parser, f: Form, index: nat): Parser {
    if f.name.Some? then
      if p.current.None? || f.name.value.indent <= p.dashIndent then Begin(Close(p), f.name.value, index) else p
    else if p.current.None? || f.quiet then p
    else if f.margin <= p.dashIndent then Close(p)
    else p.(current := Some(FeedField(p.current.value, f, index)))
  }

  function Feed(p: Parser, f: Form, index: nat): Parser {
    if f.section.Some? && f.section.value.key == PROJECTS then
      Close(p).(inProjects := true, sectionIndent := f.section.value.indent, dashIndent := 0)
    else if f.section.Some? && p.inProjects && f.section.value.indent <= p.sectionIndent then
      Close(p).(inProjects := false)
    else if !p.inProjects then p
    else FeedBody(p, f, index)
  }

  const START := Parser([], None, false, 0, 0)

  function FeedAll(forms: seq<Form>, n: nat): Parser
    requires n <= |forms|
  {
    if n == 0 then START else Feed(FeedAll(forms, n - 1), forms[n - 1], n - 1)
  }

  function FormsOf(lines: seq<string>): (forms: seq<Form>)
    ensures |forms| == |lines|
  {
    if lines == [] then [] else FormsOf(lines[..|lines| - 1]) + [FormOf(lines[|lines| - 1])]
  }

  lemma {:induction false} FormAt(lines: seq<string>, i: nat)
    requires i < |lines|
    ensures FormsOf(lines)[i] == FormOf(lines[i])
  {
    if i < |lines| - 1 {
      FormAt(lines[..|lines| - 1], i);
    }
  }

  function ProjectsIn(forms: seq<Form>): seq<Project> {
    All(FeedAll(forms, |forms|))
  }

  function Projects(lines: seq<string>): seq<Project> {
    ProjectsIn(FormsOf(lines))
  }

  method ParseProjects(lines: seq<string>) returns (projects: seq<Project>)
    ensures projects == Projects(lines)
  {
    var p := START;
    for i := 0 to |lines|
      invariant p == FeedAll(FormsOf(lines), i)
    {
      FormAt(lines, i);
      p := Feed(p, FormOf(lines[i]), i);
    }
    projects := All(p);
  }

  // ------------------------------------------------------ where a revision is

  /** A project that has a revision has it from the line that it names, which is before `n`. */
  predicate IsPinned(forms: seq<Form>, x: Project, n: nat) {
    x.revision.Some? ==> x.revLine < n && x.revLine < |forms| && forms[x.revLine].revision == x.revision
  }

  /** Different projects have their revisions from different lines. */
  predicate AllPinned(forms: seq<Form>, xs: seq<Project>, n: nat) {
    && (forall i | 0 <= i < |xs| :: IsPinned(forms, xs[i], n))
    && forall i, j | 0 <= i < j < |xs| :: Apart(xs[i], xs[j])
  }

  predicate Apart(x: Project, y: Project) {
    x.revision.Some? && y.revision.Some? ==> x.revLine != y.revLine
  }

  /** What one line does to the list of projects: nothing, a new one, or a change to the last. */
  lemma FeedCases(p: Parser, f: Form, index: nat)
    ensures var xs, ys := All(p), All(Feed(p, f, index));
      || ys == xs
      || (exists x: Project :: ys == xs + [x] && x.revision.None?)
      || (p.current.Some? && ys == p.closed + [FeedField(p.current.value, f, index)])
  {
    var xs, ys := All(p), All(Feed(p, f, index));
    if |ys| > |xs| {
      assert ys == xs + [ys[|xs|]];
    }
  }

  lemma AddPinned(forms: seq<Form>, xs: seq<Project>, x: Project, n: nat)
    requires AllPinned(forms, xs, n) && x.revision.None?
    ensures AllPinned(forms, xs + [x], n + 1)
  {
    var ys := xs + [x];
    forall i, j | 0 <= i < j < |ys| ensures Apart(ys[i], ys[j]) {
      if j < |xs| {
        assert Apart(xs[i], xs[j]);
      }
    }
    forall i | 0 <= i < |ys| ensures IsPinned(forms, ys[i], n + 1) {
      if i < |xs| {
        assert IsPinned(forms, xs[i], n);
      }
    }
  }

  lemma LastPinned(forms: seq<Form>, xs: seq<Project>, x: Project, y: Project, f: Form, n: nat)
    requires n < |forms| && forms[n] == f && AllPinned(forms, xs + [x], n) && y == FeedField(x, f, n)
    ensures AllPinned(forms, xs + [y], n + 1)
  {
    var before, after := xs + [x], xs + [y];
    assert before[|xs|] == x && IsPinned(forms, before[|xs|], n);
    forall i | 0 <= i < |after| ensures IsPinned(forms, after[i], n + 1) {
      assert i < |xs| ==> after[i] == before[i] && IsPinned(forms, before[i], n);
    }
    forall i, j | 0 <= i < j < |after| ensures Apart(after[i], after[j]) {
      assert IsPinned(forms, before[i], n) && Apart(before[i], before[j]);
    }
  }

  lemma FeedPinned(forms: seq<Form>, p: Parser, f: Form, n: nat)
    requires n < |forms| && forms[n] == f && AllPinned(forms, All(p), n)
    ensures AllPinned(forms, All(Feed(p, f, n)), n + 1)
  {
    var xs, ys := All(p), All(Feed(p, f, n));
    FeedCases(p, f, n);
    if ys == xs {
      assert forall i | 0 <= i < |xs| :: IsPinned(forms, xs[i], n) ==> IsPinned(forms, xs[i], n + 1);
    } else if x: Project :| ys == xs + [x] && x.revision.None? {
      AddPinned(forms, xs, x, n);
    } else {
      LastPinned(forms, p.closed, p.current.value, FeedField(p.current.value, f, n), f, n);
    }
  }

  lemma {:induction false} ProjectsPinned(forms: seq<Form>, n: nat)
    requires n <= |forms|
    ensures AllPinned(forms, All(FeedAll(forms, n)), n)
  {
    if n > 0 {
      ProjectsPinned(forms, n - 1);
      FeedPinned(forms, FeedAll(forms, n - 1), forms[n - 1], n - 1);
    }
  }

  // ---------------------------------------------------------------- repinning

  /** New revisions by line. */
  type Pins = map<nat, string>

  predicate ArePins(lines: seq<string>, pins: Pins) {
    forall k | k in pins :: k < |lines| && FieldOf(lines[k], REVISION).Some? && IsWord(pins[k])
  }

  /** The lines with the new revisions in them; no other line changes. */
  function NewLines(lines: seq<string>, pins: Pins): (r: seq<string>)
    requires ArePins(lines, pins)
    ensures |r| == |lines|
  {
    seq(|lines|, i requires 0 <= i < |lines| => if i in pins then Repinned(lines[i], pins[i]) else lines[i])
  }

  function NewProject(x: Project, pins: Pins): Project {
    if x.revision.Some? && x.revLine in pins then x.(revision := Some(pins[x.revLine])) else x
  }

  function NewProjects(xs: seq<Project>, pins: Pins): seq<Project> {
    if xs == [] then [] else NewProjects(xs[..|xs| - 1], pins) + [NewProject(xs[|xs| - 1], pins)]
  }

  function NewParser(p: Parser, pins: Pins): Parser {
    p.(closed := NewProjects(p.closed, pins), current := if p.current.None? then None else Some(NewProject(p.current.value, pins)))
  }

  lemma NewAll(p: Parser, pins: Pins)
    ensures All(NewParser(p, pins)) == NewProjects(All(p), pins)
  {
    if p.current.Some? {
      var xs := All(p);
      assert xs[..|xs| - 1] == p.closed;
    }
  }

  lemma {:induction false} NewProjectAt(xs: seq<Project>, pins: Pins, i: nat)
    requires i < |xs|
    ensures |NewProjects(xs, pins)| == |xs| && NewProjects(xs, pins)[i] == NewProject(xs[i], pins)
  {
    var n := |xs| - 1;
    NewProjectsSize(xs[..n], pins);
    if i < n {
      NewProjectAt(xs[..n], pins, i);
    }
  }

  lemma {:induction false} NewProjectsSize(xs: seq<Project>, pins: Pins)
    ensures |NewProjects(xs, pins)| == |xs|
  {
    if xs != [] {
      NewProjectsSize(xs[..|xs| - 1], pins);
    }
  }

  lemma {:induction false} KeyLengthOf(w: string, t: string)
    requires (forall i | 0 <= i < |w| :: IsKeyChar(w[i])) && t != "" && !IsKeyChar(t[0])
    ensures KeyLength(w + t) == |w|
  {
    if w == "" {
      assert w + t == t;
    } else {
      assert (w + t)[1..] == w[1..] + t;
      KeyLengthOf(w[1..], t);
    }
  }

  /** A revision line: its margin, the key, and something that is not blank. */
  lemma RevisionShape(s: string) returns (n: nat, after: string)
    requires FieldOf(s, REVISION).Some?
    ensures n == Margin(s) && n < |s| && s[n] == 'r' && s[n..] == "revision" + (":" + after) && !IsBlank(after)
  {
    n := Margin(s);
    var t := s[n..];
    assert REVISION <= t;
    after := t[|REVISION|..];
    KeyParts(t, after);
    NotBlank(after);
  }

  lemma KeyParts(t: string, after: string)
    requires REVISION <= t && after == t[|REVISION|..]
    ensures t == "revision" + (":" + after) && t[0] == 'r'
  {
    assert t[..|REVISION|] == REVISION;
    assert t == REVISION + after;
    assert REVISION == "revision" + ":";
  }

  lemma NotBlank(t: string)
    requires WordLength(t[Margin(t)..]) > 0
    ensures !IsBlank(t)
  {
    var u := t[Margin(t)..];
    assert u[0] == t[Margin(t)];
  }

  lemma NoSection(s: string, n: nat, after: string)
    requires n == Margin(s) && s[n..] == "revision" + (":" + after) && !IsBlank(after)
    ensures SectionOf(s).None?
  {
    var t := s[n..];
    KeyLengthOf("revision", ":" + after);
    assert t[8] == ':' && t[9..] == after;
  }

  lemma NoPath(s: string)
    requires Margin(s) < |s| && s[Margin(s)] == 'r'
    ensures WholeField(s, PATH).None? && NameOf(s).None?
  {
    var t := s[Margin(s)..];
    assert t[0] == 'r' && PATH[0] == 'p';
    assert !(PATH <= t);
  }

  /** A revision line is no section, no name, no path, no comment and not blank. */
  lemma RevisionLine(s: string)
    requires FieldOf(s, REVISION).Some?
    ensures SectionOf(s).None? && NameOf(s).None? && WholeField(s, PATH).None?
    ensures !IsBlank(s) && s[Margin(s)..][..1] != "#"
  {
    var n, after := RevisionShape(s);
    NoSection(s, n, after);
    NoPath(s);
    assert s[n..][..1] == [s[n]] && "#"[0] == '#';
    assert !IsSpace(s[n]);
  }

  /** A line with another revision is the same to the machine but for that. */
  lemma FormRepinned(s: string, revision: string)
    requires FieldOf(s, REVISION).Some? && IsWord(revision)
    ensures FormOf(Repinned(s, revision)) == FormOf(s).(revision := Some(revision))
    ensures FormOf(s).path.None?
  {
    RepinnedField(s, revision);
    RevisionLine(s);
    RevisionLine(Repinned(s, revision));
  }

  /** The form of a line before and after: the revision changes where there is a new one. */
  predicate FormsFit(f: Form, f': Form, index: nat, pins: Pins) {
    if index in pins then f.revision.Some? && f' == f.(revision := Some(pins[index])) else f' == f
  }

  lemma FieldNew(x: Project, f: Form, f': Form, index: nat, pins: Pins)
    requires FormsFit(f, f', index, pins)
    ensures FeedField(NewProject(x, pins), f', index) == NewProject(FeedField(x, f, index), pins)
  {
  }

  lemma CloseNew(p: Parser, pins: Pins)
    ensures Close(NewParser(p, pins)) == NewParser(Close(p), pins)
  {
    NewAll(p, pins);
  }

  lemma NameNew(p: Parser, f: Form, f': Form, index: nat, pins: Pins)
    requires FormsFit(f, f', index, pins) && f.name.Some?
    ensures FeedBody(NewParser(p, pins), f', index) == NewParser(FeedBody(p, f, index), pins)
  {
    if p.current.None? || f.name.value.indent <= p.dashIndent {
      CloseNew(p, pins);
      BeginNew(Close(p), f.name.value, index, pins);
    }
  }

  lemma BeginNew(p: Parser, name: Field, index: nat, pins: Pins)
    ensures Begin(NewParser(p, pins), name, index) == NewParser(Begin(p, name, index), pins)
  {
  }

  lemma BodyNew(p: Parser, f: Form, f': Form, index: nat, pins: Pins)
    requires FormsFit(f, f', index, pins) && f.name.None?
    ensures FeedBody(NewParser(p, pins), f', index) == NewParser(FeedBody(p, f, index), pins)
  {
    CloseNew(p, pins);
    if p.current.Some? {
      FieldNew(p.current.value, f, f', index, pins);
    }
  }

  lemma SectionNew(p: Parser, f: Form, f': Form, index: nat, pins: Pins)
    requires FormsFit(f, f', index, pins) && f.section.Some?
    requires FeedBody(NewParser(p, pins), f', index) == NewParser(FeedBody(p, f, index), pins)
    ensures Feed(NewParser(p, pins), f', index) == NewParser(Feed(p, f, index), pins)
  {
    CloseNew(p, pins);
  }

  lemma FeedNew(p: Parser, f: Form, f': Form, index: nat, pins: Pins)
    requires FormsFit(f, f', index, pins)
    ensures Feed(NewParser(p, pins), f', index) == NewParser(Feed(p, f, index), pins)
  {
    if f.name.Some? {
      NameNew(p, f, f', index, pins);
    } else {
      BodyNew(p, f, f', index, pins);
    }
    if f.section.Some? {
      SectionNew(p, f, f', index, pins);
    }
  }

  /** Parsing the lines with new revisions gives the same projects with the new revisions. */
  lemma {:induction false} FeedAllNew(forms: seq<Form>, forms': seq<Form>, pins: Pins, n: nat)
    requires n <= |forms| == |forms'| && forall k | 0 <= k < n :: FormsFit(forms[k], forms'[k], k, pins)
    ensures FeedAll(forms', n) == NewParser(FeedAll(forms, n), pins)
  {
    if n > 0 {
      FeedAllNew(forms, forms', pins, n - 1);
      FeedNew(FeedAll(forms, n - 1), forms[n - 1], forms'[n - 1], n - 1, pins);
    }
  }

  lemma FormsFitAt(lines: seq<string>, pins: Pins, k: nat)
    requires ArePins(lines, pins) && k < |lines|
    ensures FormsFit(FormsOf(lines)[k], FormsOf(NewLines(lines, pins))[k], k, pins)
  {
    FormAt(lines, k);
    FormAt(NewLines(lines, pins), k);
    if k in pins {
      FormRepinned(lines[k], pins[k]);
    }
  }

  lemma ParseRepinned(lines: seq<string>, pins: Pins)
    requires ArePins(lines, pins)
    ensures Projects(NewLines(lines, pins)) == NewProjects(Projects(lines), pins)
  {
    var forms, forms' := FormsOf(lines), FormsOf(NewLines(lines, pins));
    forall k | 0 <= k < |lines| ensures FormsFit(forms[k], forms'[k], k, pins) {
      FormsFitAt(lines, pins, k);
    }
    FeedAllNew(forms, forms', pins, |lines|);
    NewAll(FeedAll(forms, |lines|), pins);
  }

  // --------------------------------------------------------------------- plan

  /** How a pin and a gitlink are related, as the submodule's history tells. */
  datatype Relation = Same | Forward | WestAhead | Unknown

  datatype Action = Leave | NoChange | RefuseDowngrade | Rewrite

  datatype Row = Row(project: Project, gitlink: string, action: Action)

  /** What the superproject records and how revisions are related; `only`: the selection, if not empty. */
  datatype Input = Input(
    links: map<string, string>,
    checkedOut: string -> bool,
    ancestor: (string, string, string) -> bool,
    allowDowngrade: bool,
    only: set<string>)

  const ROOT := "darling"
  const PREFIX := "darling/"

  function Relationship(i: Input, rel: string, pin: string, gitlink: string): Relation {
    if pin == gitlink then Same
    else if !i.checkedOut(rel) then Unknown
    else if i.ancestor(rel, pin, gitlink) then Forward
    else if i.ancestor(rel, gitlink, pin) then WestAhead
    else Unknown
  }

  function PathOf(x: Project): string {
    if x.path.None? then "" else x.path.value
  }

  predicate Selected(i: Input, x: Project) {
    i.only == {} || x.name in i.only || PathOf(x) in i.only
  }

  function RowOf(i: Input, x: Project): Row {
    var path := PathOf(x);
    if path == ROOT || !(PREFIX <= path) then Row(x, "", Leave)
    else
      var rel := path[|PREFIX|..];
      if rel !in i.links then Row(x, "", Leave)
      else
        var gitlink := i.links[rel];
        if x.revision.None? then Row(x, gitlink, Leave)
        else if x.revision.value == gitlink then Row(x, gitlink, NoChange)
        else if Relationship(i, rel, x.revision.value, gitlink) == WestAhead && !i.allowDowngrade then
          Row(x, gitlink, RefuseDowngrade)
        else Row(x, gitlink, Rewrite)
  }

  function PlanOf(i: Input, xs: seq<Project>): seq<Row> {
    if xs == [] then []
    else
      var n := |xs| - 1;
      PlanOf(i, xs[..n]) + if Selected(i, xs[n]) then [RowOf(i, xs[n])] else []
  }

  method Plan(i: Input, xs: seq<Project>) returns (rows: seq<Row>)
    ensures rows == PlanOf(i, xs)
  {
    rows := [];
    for k := 0 to |xs|
      invariant rows == PlanOf(i, xs[..k])
    {
      assert xs[..k + 1][..k] == xs[..k];
      if Selected(i, xs[k]) {
        rows := rows + [RowOf(i, xs[k])];
      }
    }
    assert xs[..|xs|] == xs;
  }

  // ------------------------------------------------------------------ rewrite

  predicate Rewrites(i: Input, x: Project) {
    Selected(i, x) && RowOf(i, x).action == Rewrite
  }

  /** The new revisions that the plan asks for. */
  function PinsOf(i: Input, xs: seq<Project>): Pins {
    if xs == [] then map[]
    else
      var n := |xs| - 1;
      if Rewrites(i, xs[n]) then PinsOf(i, xs[..n])[xs[n].revLine := RowOf(i, xs[n]).gitlink] else PinsOf(i, xs[..n])
  }

  function PinsOfRows(rows: seq<Row>): Pins {
    if rows == [] then map[]
    else
      var n := |rows| - 1;
      if rows[n].action == Rewrite then PinsOfRows(rows[..n])[rows[n].project.revLine := rows[n].gitlink]
      else PinsOfRows(rows[..n])
  }

  lemma {:induction false} PlanPins(i: Input, xs: seq<Project>)
    ensures PinsOfRows(PlanOf(i, xs)) == PinsOf(i, xs)
  {
    if xs != [] {
      var n, rows := |xs| - 1, PlanOf(i, xs);
      PlanPins(i, xs[..n]);
      if Selected(i, xs[n]) {
        assert rows[..|rows| - 1] == PlanOf(i, xs[..n]) && rows[|rows| - 1] == RowOf(i, xs[n]);
      } else {
        assert rows == PlanOf(i, xs[..n]);
      }
    }
  }

  /** Each new revision is that of exactly one project, which is rewritten. */
  lemma {:induction false} PinFrom(i: Input, xs: seq<Project>, line: nat) returns (k: nat)
    requires line in PinsOf(i, xs)
    ensures k < |xs| && Rewrites(i, xs[k]) && xs[k].revLine == line && PinsOf(i, xs)[line] == RowOf(i, xs[k]).gitlink
  {
    var n := |xs| - 1;
    if Rewrites(i, xs[n]) && xs[n].revLine == line {
      k := n;
    } else {
      k := PinFrom(i, xs[..n], line);
    }
  }

  lemma {:induction false} PinOf(i: Input, xs: seq<Project>, k: nat)
    requires k < |xs| && Rewrites(i, xs[k]) && forall a, b | 0 <= a < b < |xs| :: Apart(xs[a], xs[b])
    ensures xs[k].revLine in PinsOf(i, xs) && PinsOf(i, xs)[xs[k].revLine] == RowOf(i, xs[k]).gitlink
  {
    var n := |xs| - 1;
    if k < n {
      assert Apart(xs[k], xs[n]);
      PinOf(i, xs[..n], k);
    }
  }

  /** The gitlinks of the superproject are words. */
  predicate AreLinks(i: Input) {
    forall rel | rel in i.links :: IsWord(i.links[rel])
  }

  lemma PlanIsPins(i: Input, lines: seq<string>, xs: seq<Project>)
    requires AreLinks(i) && xs == Projects(lines)
    ensures ArePins(lines, PinsOf(i, xs))
  {
    var pins := PinsOf(i, xs);
    forall line | line in pins ensures line < |lines| && FieldOf(lines[line], REVISION).Some? && IsWord(pins[line]) {
      PinIsLine(i, lines, xs, line);
    }
  }

  lemma PinIsLine(i: Input, lines: seq<string>, xs: seq<Project>, line: nat)
    requires AreLinks(i) && xs == Projects(lines) && line in PinsOf(i, xs)
    ensures line < |lines| && FieldOf(lines[line], REVISION).Some? && IsWord(PinsOf(i, xs)[line])
  {
    PinForm(i, FormsOf(lines), xs, line);
    FormAt(lines, line);
  }

  lemma PinForm(i: Input, forms: seq<Form>, xs: seq<Project>, line: nat)
    requires AreLinks(i) && xs == ProjectsIn(forms) && line in PinsOf(i, xs)
    ensures line < |forms| && forms[line].revision.Some? && IsWord(PinsOf(i, xs)[line])
  {
    var k := PinFrom(i, xs, line);
    ProjectsPinned(forms, |forms|);
    RowLink(i, xs[k]);
    assert IsPinned(forms, xs[k], |forms|);
  }

  /** Once repinned, a project is in sync with its gitlink or was left alone. */
  lemma Settled(i: Input, xs: seq<Project>, k: nat)
    requires k < |xs| && forall a, b | 0 <= a < b < |xs| :: Apart(xs[a], xs[b])
    ensures var y := NewProject(xs[k], PinsOf(i, xs));
      if Rewrites(i, xs[k]) then y == xs[k].(revision := Some(RowOf(i, xs[k]).gitlink)) else y == xs[k]
  {
    var pins := PinsOf(i, xs);
    if Rewrites(i, xs[k]) {
      PinOf(i, xs, k);
    } else {
      forall j | 0 <= j < |xs| && j != k ensures Apart(xs[j], xs[k]) {
        assert Apart(xs[if j < k then j else k], xs[if j < k then k else j]);
      }
      if xs[k].revision.Some? && xs[k].revLine in pins {
        var j := PinFrom(i, xs, xs[k].revLine);
      }
    }
  }

  lemma {:induction false} NothingLeft(i: Input, ys: seq<Project>)
    requires forall k | 0 <= k < |ys| :: !Rewrites(i, ys[k])
    ensures forall j | 0 <= j < |PlanOf(i, ys)| :: PlanOf(i, ys)[j].action != Rewrite
  {
    if ys != [] {
      NothingLeft(i, ys[..|ys| - 1]);
    }
  }

  /** A second plan has nothing to rewrite. */
  lemma SecondPlan(i: Input, forms: seq<Form>, xs: seq<Project>)
    requires xs == ProjectsIn(forms)
    ensures var ys := NewProjects(xs, PinsOf(i, xs));
      forall j | 0 <= j < |PlanOf(i, ys)| :: PlanOf(i, ys)[j].action != Rewrite
  {
    var pins := PinsOf(i, xs);
    var ys := NewProjects(xs, pins);
    ProjectsPinned(forms, |forms|);
    NewProjectsSize(xs, pins);
    forall k | 0 <= k < |ys| ensures !Rewrites(i, ys[k]) {
      NewProjectAt(xs, pins, k);
      Settled(i, xs, k);
      if Rewrites(i, xs[k]) {
        NoMore(i, xs[k]);
      }
    }
    NothingLeft(i, ys);
  }

  lemma NoMore(i: Input, x: Project)
    requires Rewrites(i, x)
    ensures !Rewrites(i, x.(revision := Some(RowOf(i, x).gitlink)))
  {
  }

  // -------------------------------------------------------------- the program

  function Bodies(ls: seq<Line>): (r: seq<string>)
    ensures |r| == |ls| && forall i | 0 <= i < |ls| :: r[i] == ls[i].body
  {
    seq(|ls|, i requires 0 <= i < |ls| => ls[i].body)
  }

  /** The lines of the manifest with new bodies and the old endings. */
  function WithBodies(ls: seq<Line>, bodies: seq<string>): (r: seq<Line>)
    requires |bodies| == |ls|
    ensures |r| == |ls|
  {
    seq(|ls|, i requires 0 <= i < |ls| => Line(bodies[i], ls[i].ending))
  }

  /** The rows to rewrite name different lines and have words to put there. */
  predicate RowsFit(n: nat, rows: seq<Row>) {
    && (forall k | 0 <= k < |rows| && rows[k].action == Rewrite :: rows[k].project.revLine < n && IsWord(rows[k].gitlink))
    && forall a, b | 0 <= a < b < |rows| && rows[a].action == Rewrite && rows[b].action == Rewrite ::
         rows[a].project.revLine != rows[b].project.revLine
  }

  /** Their lines are revision lines. */
  predicate RowsMatch(forms: seq<Form>, rows: seq<Row>)
    requires RowsFit(|forms|, rows)
  {
    forall k | 0 <= k < |rows| && rows[k].action == Rewrite :: forms[rows[k].project.revLine].revision.Some?
  }

  lemma {:induction false} PinRow(rows: seq<Row>, line: nat) returns (k: nat)
    requires line in PinsOfRows(rows)
    ensures k < |rows| && rows[k].action == Rewrite && rows[k].project.revLine == line && PinsOfRows(rows)[line] == rows[k].gitlink
  {
    var n := |rows| - 1;
    if rows[n].action == Rewrite && rows[n].project.revLine == line {
      k := n;
    } else {
      k := PinRow(rows[..n], line);
    }
  }

  lemma OneMore(ls: seq<Line>, bodies: seq<string>, pins: Pins, index: nat, revision: string)
    requires bodies == Bodies(ls) && ArePins(bodies, pins) && index < |ls| && index !in pins
    requires FieldOf(bodies[index], REVISION).Some? && IsWord(revision)
    ensures WithBodies(ls, NewLines(bodies, pins))[index] == ls[index]
    ensures WithBodies(ls, NewLines(bodies, pins[index := revision]))
         == WithBodies(ls, NewLines(bodies, pins))[index := Line(Repinned(ls[index].body, revision), ls[index].ending)]
  {
  }

  lemma FirstRows(n: nat, rows: seq<Row>, k: nat)
    requires RowsFit(n, rows) && k < |rows|
    ensures RowsFit(n, rows[..k]) && RowsFit(n, rows[..k + 1])
    ensures rows[k].action == Rewrite ==> rows[k].project.revLine !in PinsOfRows(rows[..k])
  {
    if rows[k].action == Rewrite && rows[k].project.revLine in PinsOfRows(rows[..k]) {
      var j := PinRow(rows[..k], rows[k].project.revLine);
    }
  }

  /** The lines once the given rows are applied. */
  ghost predicate Applied(ls: seq<Line>, rows: seq<Row>, lines: seq<Line>) {
    var bodies := Bodies(ls);
    && RowsFit(|ls|, rows) && RowsMatch(FormsOf(bodies), rows) && ArePins(bodies, PinsOfRows(rows))
    && lines == WithBodies(ls, NewLines(bodies, PinsOfRows(rows)))
  }

  lemma AppliedSkip(ls: seq<Line>, rows: seq<Row>, row: Row, lines: seq<Line>)
    requires Applied(ls, rows, lines) && row.action != Rewrite
    ensures Applied(ls, rows + [row], lines)
  {
    assert (rows + [row])[..|rows|] == rows;
  }

  lemma AppliedOne(ls: seq<Line>, rows: seq<Row>, row: Row, lines: seq<Line>)
    requires Applied(ls, rows, lines) && row.action == Rewrite && RowsFit(|ls|, rows + [row])
    requires row.project.revLine !in PinsOfRows(rows) && row.project.revLine < |ls| && IsWord(row.gitlink)
    requires FieldOf(ls[row.project.revLine].body, REVISION).Some?
    ensures |lines| == |ls| && lines[row.project.revLine] == ls[row.project.revLine]
    ensures var k := row.project.revLine;
      Applied(ls, rows + [row], lines[k := Line(Repinned(ls[k].body, row.gitlink), ls[k].ending)])
  {
    var next, forms := rows + [row], FormsOf(Bodies(ls));
    assert next[..|rows|] == rows && next[|rows|] == row;
    FormAt(Bodies(ls), row.project.revLine);
    OneMore(ls, Bodies(ls), PinsOfRows(rows), row.project.revLine, row.gitlink);
    forall j | 0 <= j < |next| && next[j].action == Rewrite ensures forms[next[j].project.revLine].revision.Some? {
      assert j < |rows| ==> next[j] == rows[j];
    }
  }

  /** Overwrites the revision lines of the rows to rewrite; nothing is done when one of them is none. */
  method ApplyRows(ls: seq<Line>, rows: seq<Row>) returns (r: Option<seq<Line>>)
    requires RowsFit(|ls|, rows)
    ensures r.Some? <==> RowsMatch(FormsOf(Bodies(ls)), rows)
    ensures r.Some? ==> Applied(ls, rows, r.value)
  {
    var lines := ls;
    NoRows(ls);
    assert rows[..0] == [];
    for k := 0 to |rows|
      invariant Applied(ls, rows[..k], lines)
    {
      FirstRows(|ls|, rows, k);
      assert rows[..k + 1] == rows[..k] + [rows[k]];
      if rows[k].action != Rewrite {
        AppliedSkip(ls, rows[..k], rows[k], lines);
      } else {
        var index := rows[k].project.revLine;
        FormAt(Bodies(ls), index);
        if FieldOf(ls[index].body, REVISION).None? {
          return None;
        }
        AppliedOne(ls, rows[..k], rows[k], lines);
        lines := lines[index := Line(Repinned(lines[index].body, rows[k].gitlink), lines[index].ending)];
      }
    }
    assert rows[..|rows|] == rows;
    r := Some(lines);
  }

  lemma NoRows(ls: seq<Line>)
    ensures Applied(ls, [], ls)
  {
    assert WithBodies(ls, NewLines(Bodies(ls), map[])) == ls;
  }

  // ------------------------------------------------------------- the promise

  lemma PartUnbroken(s: string, i: nat)
    requires Unbroken(s) && i <= |s|
    ensures Unbroken(s[..i]) && Unbroken(s[i..])
  {
    assert forall j | 0 <= j < |s| - i :: s[i..][j] == s[i + j];
  }

  lemma Together(a: string, b: string)
    requires Unbroken(a) && Unbroken(b)
    ensures Unbroken(a + b)
  {
    assert forall i | |a| <= i < |a + b| :: (a + b)[i] == b[i - |a|];
  }

  lemma WordUnbroken(w: string)
    requires IsWord(w)
    ensures Unbroken(w)
  {
    forall i | 0 <= i < |w| ensures !IsBreak(w[i]) {
      assert !IsSpace(w[i]);
    }
  }

  lemma KeyUnbroken()
    ensures Unbroken("revision: ")
  {
  }

  lemma RestUnbroken(s: string)
    requires FieldOf(s, REVISION).Some? && Unbroken(s)
    ensures Unbroken(FieldOf(s, REVISION).value.rest)
  {
    PartUnbroken(s, Margin(s));
    var line := s[Margin(s)..];
    PartUnbroken(line, |REVISION|);
    var t := line[|REVISION|..];
    PartUnbroken(t, Margin(t));
    var u := t[Margin(t)..];
    PartUnbroken(u, WordLength(u));
  }

  lemma RepinnedUnbroken(s: string, revision: string)
    requires FieldOf(s, REVISION).Some? && IsWord(revision) && Unbroken(s)
    ensures Unbroken(Repinned(s, revision)) && Repinned(s, revision) != ""
  {
    var rest := FieldOf(s, REVISION).value.rest;
    RestUnbroken(s);
    WordUnbroken(revision);
    KeyUnbroken();
    PartUnbroken(s, Margin(s));
    Together(revision, rest);
    Together("revision: ", revision + rest);
    Together(s[..Margin(s)], "revision: " + (revision + rest));
  }

  /** A line stays a line, at its place and with its ending. */
  lemma NewAreLines(ls: seq<Line>, pins: Pins)
    requires AreLines(ls) && ArePins(Bodies(ls), pins)
    ensures AreLines(WithBodies(ls, NewLines(Bodies(ls), pins)))
    ensures Bodies(WithBodies(ls, NewLines(Bodies(ls), pins))) == NewLines(Bodies(ls), pins)
  {
    var r := WithBodies(ls, NewLines(Bodies(ls), pins));
    forall i | 0 <= i < |r| ensures IsLine(r[i], i == |r| - 1) {
      assert IsLine(ls[i], i == |ls| - 1);
      if i in pins {
        RepinnedUnbroken(ls[i].body, pins[i]);
      }
    }
  }

  /** The projects that a manifest text holds. */
  function Parsed(text: string): seq<Project> {
    Projects(Bodies(SplitLines(text)))
  }

  /** The text after a sync. */
  function Synced(text: string, i: Input): string
    requires ArePins(Bodies(SplitLines(text)), PinsOf(i, Parsed(text)))
  {
    Join(WithBodies(SplitLines(text), NewLines(Bodies(SplitLines(text)), PinsOf(i, Parsed(text)))))
  }

  /** `verify_only_revisions_changed`: as many lines as before, and only planned ones differ. */
  predicate OnlyRevisionsChanged(before: string, after: string, rows: seq<Row>) {
    var a, b := Bodies(SplitLines(before)), Bodies(SplitLines(after));
    && |a| == |b|
    && forall k | 0 <= k < |a| && a[k] != b[k] :: exists j | 0 <= j < |rows| :: rows[j].action == Rewrite && rows[j].project.revLine == k
  }

  lemma SyncedLines(text: string, i: Input)
    requires AreLinks(i)
    ensures ArePins(Bodies(SplitLines(text)), PinsOf(i, Parsed(text)))
    ensures SplitLines(Synced(text, i))
         == WithBodies(SplitLines(text), NewLines(Bodies(SplitLines(text)), PinsOf(i, Parsed(text))))
    ensures Bodies(SplitLines(Synced(text, i))) == NewLines(Bodies(SplitLines(text)), PinsOf(i, Parsed(text)))
  {
    var ls, xs := SplitLines(text), Parsed(text);
    PlanIsPins(i, Bodies(ls), xs);
    NewAreLines(ls, PinsOf(i, xs));
    SplitJoin(WithBodies(ls, NewLines(Bodies(ls), PinsOf(i, xs))));
  }

  /**
   A sync keeps everything but the revisions it is for: the same projects with the same names, paths
   and lines, each rewritten one at its gitlink and every other as it was.
   */
  lemma SyncKeepsProjects(text: string, i: Input)
    requires AreLinks(i)
    ensures ArePins(Bodies(SplitLines(text)), PinsOf(i, Parsed(text)))
    ensures Parsed(Synced(text, i)) == NewProjects(Parsed(text), PinsOf(i, Parsed(text)))
    ensures forall k | 0 <= k < |Parsed(text)| ::
      && |Parsed(Synced(text, i))| == |Parsed(text)|
      && Parsed(Synced(text, i))[k] ==
           (if Rewrites(i, Parsed(text)[k]) then Parsed(text)[k].(revision := Some(RowOf(i, Parsed(text)[k]).gitlink))
            else Parsed(text)[k])
  {
    var xs := Parsed(text);
    var pins := PinsOf(i, xs);
    SyncedLines(text, i);
    ParseRepinned(Bodies(SplitLines(text)), pins);
    ProjectsPinned(FormsOf(Bodies(SplitLines(text))), |SplitLines(text)|);
    forall k | 0 <= k < |xs|
      ensures |NewProjects(xs, pins)| == |xs| && NewProjects(xs, pins)[k] ==
        (if Rewrites(i, xs[k]) then xs[k].(revision := Some(RowOf(i, xs[k]).gitlink)) else xs[k])
    {
      NewProjectAt(xs, pins, k);
      Settled(i, xs, k);
    }
  }

  /** The project is selected and its pin is not its gitlink. */
  predicate Differs(i: Input, x: Project) {
    && Selected(i, x) && PathOf(x) != ROOT && PREFIX <= PathOf(x) && x.revision.Some?
    && PathOf(x)[|PREFIX|..] in i.links && x.revision.value != i.links[PathOf(x)[|PREFIX|..]]
  }

  /** The submodule is there, and in its history the first revision comes before the second. */
  predicate KnownAncestor(i: Input, x: Project, a: string, b: string)
    requires PREFIX <= PathOf(x)
  {
    i.checkedOut(PathOf(x)[|PREFIX|..]) && i.ancestor(PathOf(x)[|PREFIX|..], a, b)
  }

  /**
   Which pins the synced text keeps: those that agree, and without the flag those that are known to be
   ahead of their gitlink. Every other pin becomes its gitlink.
   */
  lemma PinKeptIff(text: string, i: Input, k: nat)
    requires AreLinks(i) && k < |Parsed(text)|
    ensures ArePins(Bodies(SplitLines(text)), PinsOf(i, Parsed(text))) && |Parsed(Synced(text, i))| == |Parsed(text)|
    ensures var x, y := Parsed(text)[k], Parsed(Synced(text, i))[k];
      && (!Differs(i, x) ==> y == x)
      && (Differs(i, x) ==>
            var pin, link := x.revision.value, i.links[PathOf(x)[|PREFIX|..]];
            var ahead := KnownAncestor(i, x, link, pin) && !KnownAncestor(i, x, pin, link);
            y == if ahead && !i.allowDowngrade then x else x.(revision := Some(link)))
  {
    SyncKeepsProjects(text, i);
  }

  /** No pin that is known to be ahead of its gitlink is lowered without the flag. */
  lemma NoDowngrade(text: string, i: Input, k: nat)
    requires AreLinks(i) && k < |Parsed(text)| && !i.allowDowngrade
    requires var x := Parsed(text)[k];
      PREFIX <= PathOf(x) && x.revision.Some? && PathOf(x)[|PREFIX|..] in i.links
      && var pin, link := x.revision.value, i.links[PathOf(x)[|PREFIX|..]];
         KnownAncestor(i, x, link, pin) && !KnownAncestor(i, x, pin, link)
    ensures ArePins(Bodies(SplitLines(text)), PinsOf(i, Parsed(text))) && |Parsed(Synced(text, i))| == |Parsed(text)|
    ensures Parsed(Synced(text, i))[k] == Parsed(text)[k]
  {
    PinKeptIff(text, i, k);
  }

  /**
   A pin that is not known to be an ancestor of its gitlink is kept, without the flag, exactly when it
   is known to be ahead: a pin on another branch, or one of a submodule that is not there, is rewritten.
   */
  lemma OtherBranchIff(text: string, i: Input, k: nat)
    requires AreLinks(i) && k < |Parsed(text)| && !i.allowDowngrade && Differs(i, Parsed(text)[k])
    requires var x := Parsed(text)[k]; !KnownAncestor(i, x, x.revision.value, i.links[PathOf(x)[|PREFIX|..]])
    ensures ArePins(Bodies(SplitLines(text)), PinsOf(i, Parsed(text))) && |Parsed(Synced(text, i))| == |Parsed(text)|
    ensures var x := Parsed(text)[k];
      Parsed(Synced(text, i))[k] == x <==> KnownAncestor(i, x, i.links[PathOf(x)[|PREFIX|..]], x.revision.value)
  {
    PinKeptIff(text, i, k);
  }

  /** So every pin can be rewritten to a gitlink of another branch, without the flag. */
  lemma OtherBranchIsRewritten(text: string, k: nat, link: string) returns (i: Input)
    requires k < |Parsed(text)| && IsWord(link)
    requires var x := Parsed(text)[k];
      PathOf(x) != ROOT && PREFIX <= PathOf(x) && x.revision.Some? && x.revision.value != link
    ensures AreLinks(i) && !i.allowDowngrade && Differs(i, Parsed(text)[k])
    ensures i.checkedOut(PathOf(Parsed(text)[k])[|PREFIX|..])
    ensures !KnownAncestor(i, Parsed(text)[k], Parsed(text)[k].revision.value, link)
    ensures ArePins(Bodies(SplitLines(text)), PinsOf(i, Parsed(text))) && |Parsed(Synced(text, i))| == |Parsed(text)|
    ensures Parsed(Synced(text, i))[k] == Parsed(text)[k].(revision := Some(link))
  {
    var rel := PathOf(Parsed(text)[k])[|PREFIX|..];
    i := Input(map[rel := link], _ => true, (_, a, b) => a == b, false, {});
    PinKeptIff(text, i, k);
  }

  /** The project is the submodule `rel` of the superproject, which records a gitlink for it, and it has a pin. */
  predicate IsPinOf(i: Input, x: Project, rel: string) {
    x.path == Some("darling/" + rel) && rel in i.links && x.revision.Some?
  }

  /** The submodule is there, and in its history the gitlink comes before the pin and not the pin before it. */
  predicate IsAhead(i: Input, rel: string, pin: string, link: string) {
    i.checkedOut(rel) && !i.ancestor(rel, pin, link) && i.ancestor(rel, link, pin)
  }

  lemma PathParts(x: Project, rel: string)
    requires x.path == Some("darling/" + rel)
    ensures PREFIX <= PathOf(x) && PathOf(x)[|PREFIX|..] == rel && PathOf(x) != ROOT
  {
    var p := PREFIX + rel;
    assert PathOf(x) == p && p[..|PREFIX|] == PREFIX;
    assert |PREFIX| > |ROOT|;
  }

  lemma RelOf(x: Project)
    requires PREFIX <= PathOf(x)
    ensures x.path == Some("darling/" + PathOf(x)[|PREFIX|..])
  {
    var p := PathOf(x);
    assert p == p[..|PREFIX|] + p[|PREFIX|..] && p[..|PREFIX|] == PREFIX;
  }

  /** What is planned for a project. */
  lemma ActionIff(i: Input, x: Project, rel: string)
    requires IsPinOf(i, x, rel)
    ensures var pin, link := x.revision.value, i.links[rel];
      && RowOf(i, x).project == x && RowOf(i, x).gitlink == link
      && (RowOf(i, x).action == NoChange <==> pin == link)
      && (RowOf(i, x).action == RefuseDowngrade <==> pin != link && IsAhead(i, rel, pin, link) && !i.allowDowngrade)
      && (RowOf(i, x).action == Rewrite <==> pin != link && (i.allowDowngrade || !IsAhead(i, rel, pin, link)))
  {
    PathParts(x, rel);
  }

  /** Nothing is done for any other project. */
  lemma LeaveIff(i: Input, x: Project)
    ensures RowOf(i, x).action == Leave <==> forall rel :: !IsPinOf(i, x, rel)
  {
    if rel :| IsPinOf(i, x, rel) {
      ActionIff(i, x, rel);
    }
    if RowOf(i, x).action != Leave {
      RelOf(x);
      assert IsPinOf(i, x, PathOf(x)[|PREFIX|..]);
    }
  }

  /** Without a selection every project is planned for, else those with a selected name or path. */
  predicate IsChosen(i: Input, x: Project) {
    i.only == {} || x.name in i.only || (if x.path.Some? then x.path.value else "") in i.only
  }

  function Chosen(i: Input, xs: seq<Project>): seq<Project> {
    if xs == [] then []
    else if IsChosen(i, xs[0]) then [xs[0]] + Chosen(i, xs[1..])
    else Chosen(i, xs[1..])
  }

  lemma {:induction false} ChosenLast(i: Input, xs: seq<Project>, x: Project)
    ensures Chosen(i, xs + [x]) == Chosen(i, xs) + if IsChosen(i, x) then [x] else []
  {
    if xs == [] {
      assert xs + [x] == [x] && [x][1..] == [];
    } else {
      assert (xs + [x])[1..] == xs[1..] + [x];
      ChosenLast(i, xs[1..], x);
    }
  }

  /** The rows of a plan are those of the chosen projects, in their order. */
  lemma {:induction false} PlanIs(i: Input, xs: seq<Project>)
    ensures |PlanOf(i, xs)| == |Chosen(i, xs)|
    ensures forall k | 0 <= k < |Chosen(i, xs)| :: PlanOf(i, xs)[k] == RowOf(i, Chosen(i, xs)[k])
  {
    if xs != [] {
      var n := |xs| - 1;
      PlanIs(i, xs[..n]);
      ChosenLast(i, xs[..n], xs[n]);
      assert xs == xs[..n] + [xs[n]];
    }
  }

  /** After a sync nothing is left to rewrite, and the check that only revisions changed passes. */
  lemma SyncSettles(text: string, i: Input)
    requires AreLinks(i)
    ensures ArePins(Bodies(SplitLines(text)), PinsOf(i, Parsed(text)))
    ensures forall j | 0 <= j < |PlanOf(i, Parsed(Synced(text, i)))| :: PlanOf(i, Parsed(Synced(text, i)))[j].action != Rewrite
    ensures OnlyRevisionsChanged(text, Synced(text, i), PlanOf(i, Parsed(text)))
  {
    var xs := Parsed(text);
    var pins, rows := PinsOf(i, xs), PlanOf(i, xs);
    SyncedLines(text, i);
    SyncKeepsProjects(text, i);
    SecondPlan(i, FormsOf(Bodies(SplitLines(text))), xs);
    PlanPins(i, xs);
    var a, b := Bodies(SplitLines(text)), Bodies(SplitLines(Synced(text, i)));
    forall k | 0 <= k < |a| && a[k] != b[k]
      ensures exists j | 0 <= j < |rows| :: rows[j].action == Rewrite && rows[j].project.revLine == k
    {
      var j := PinRow(rows, k);
    }
  }

  /** A second sync changes nothing. */
  lemma SyncTwice(text: string, i: Input)
    requires AreLinks(i)
    ensures ArePins(Bodies(SplitLines(text)), PinsOf(i, Parsed(text)))
    ensures ArePins(Bodies(SplitLines(Synced(text, i))), PinsOf(i, Parsed(Synced(text, i))))
    ensures Synced(Synced(text, i), i) == Synced(text, i)
  {
    SyncSettles(text, i);
    var again := Synced(text, i);
    PlanPins(i, Parsed(again));
    NoPins(PlanOf(i, Parsed(again)));
    NoRows(SplitLines(again));
    JoinSplit(again);
  }

  lemma {:induction false} NoPins(rows: seq<Row>)
    requires forall j | 0 <= j < |rows| :: rows[j].action != Rewrite
    ensures PinsOfRows(rows) == map[]
  {
    if rows != [] {
      NoPins(rows[..|rows| - 1]);
    }
  }

  lemma {:induction false} RowFrom(i: Input, xs: seq<Project>, j: nat) returns (k: nat)
    requires j < |PlanOf(i, xs)|
    ensures k < |xs| && Selected(i, xs[k]) && PlanOf(i, xs)[j] == RowOf(i, xs[k])
  {
    var n := |xs| - 1;
    if j < |PlanOf(i, xs[..n])| {
      k := RowFrom(i, xs[..n], j);
    } else {
      k := n;
    }
  }

  lemma RowsAdd(forms: seq<Form>, rows: seq<Row>, row: Row)
    requires RowsFit(|forms|, rows) && RowsMatch(forms, rows)
    requires row.action == Rewrite ==> row.project.revLine < |forms| && IsWord(row.gitlink)
    requires row.action == Rewrite ==> forms[row.project.revLine].revision.Some?
    requires row.action == Rewrite ==>
      forall j | 0 <= j < |rows| && rows[j].action == Rewrite :: rows[j].project.revLine != row.project.revLine
    ensures RowsFit(|forms|, rows + [row]) && RowsMatch(forms, rows + [row])
  {
    var next := rows + [row];
    assert forall j | 0 <= j < |rows| :: next[j] == rows[j];
  }

  lemma RowLink(i: Input, x: Project)
    requires AreLinks(i) && RowOf(i, x).action == Rewrite
    ensures IsWord(RowOf(i, x).gitlink) && x.revision.Some? && RowOf(i, x).project == x
  {
  }

  /** The rows to rewrite name different revision lines. */
  lemma {:induction false} PlanFits(i: Input, xs: seq<Project>, forms: seq<Form>)
    requires AreLinks(i) && AllPinned(forms, xs, |forms|)
    ensures RowsFit(|forms|, PlanOf(i, xs)) && RowsMatch(forms, PlanOf(i, xs))
  {
    if xs != [] {
      var n := |xs| - 1;
      PlanFits(i, xs[..n], forms);
      if Selected(i, xs[n]) {
        NextFits(i, xs, forms, PlanOf(i, xs[..n]), RowOf(i, xs[n]));
      } else {
        assert PlanOf(i, xs) == PlanOf(i, xs[..n]);
      }
    }
  }

  lemma NextFits(i: Input, xs: seq<Project>, forms: seq<Form>, rows: seq<Row>, row: Row)
    requires AreLinks(i) && xs != [] && AllPinned(forms, xs, |forms|)
    requires rows == PlanOf(i, xs[..|xs| - 1]) && row == RowOf(i, xs[|xs| - 1])
    requires RowsFit(|forms|, rows) && RowsMatch(forms, rows)
    ensures RowsFit(|forms|, rows + [row]) && RowsMatch(forms, rows + [row])
  {
    var n := |xs| - 1;
    if row.action == Rewrite {
      RowLink(i, xs[n]);
      assert IsPinned(forms, xs[n], |forms|);
      forall j | 0 <= j < |rows| && rows[j].action == Rewrite ensures rows[j].project.revLine != row.project.revLine {
        var k := RowFrom(i, xs[..n], j);
        RowLink(i, xs[k]);
        assert Apart(xs[k], xs[n]);
      }
    }
    RowsAdd(forms, rows, row);
  }

  /** The whole sync of a manifest text. */
  method Sync(text: string, i: Input) returns (r: string)
    requires AreLinks(i)
    ensures ArePins(Bodies(SplitLines(text)), PinsOf(i, Parsed(text))) && r == Synced(text, i)
  {
    var ls := SplitLines(text);
    var xs := ParseProjects(Bodies(ls));
    var rows := Plan(i, xs);
    ProjectsPinned(FormsOf(Bodies(ls)), |ls|);
    PlanFits(i, xs, FormsOf(Bodies(ls)));
    var lines := ApplyRows(ls, rows);
    PlanPins(i, xs);
    r := Join(lines.value);
  }
}
