/**
 The projects of a manifest by its lines (`parse_projects` of scripts/west-pin-sync.py): what a text
 must look like, spelt out line by line, and the projects that are then read from it.
 */
module PinProjects {
  import opened Prelude
  import opened PinText
  import opened PinLines
  import opened PinSync
  import opened PinManifest

  // -------------------------------------------------------------- kinds of lines

  ghost predicate IsHeadingLine(s: string, indent: nat) {
    IsSectionLine(s, indent, "projects")
  }

  ghost predicate IsSomeHeading(s: string) {
    exists indent: nat :: IsHeadingLine(s, indent)
  }

  /** The heading of another section, not deeper than this one. */
  ghost predicate EndsSection(s: string, section: nat) {
    exists indent: nat, key :: IsSectionLine(s, indent, key) && key != "projects" && indent <= section
  }

  ghost predicate StaysIn(s: string, section: nat) {
    !IsSomeHeading(s) && !EndsSection(s, section)
  }

  ghost predicate IsSomeName(s: string) {
    exists indent: nat, word :: IsNameLine(s, indent, word)
  }

  /** The line is indented beyond the dash. */
  predicate IsDeeper(s: string, dash: nat) {
    dash < |s| && forall i | 0 <= i <= dash :: IsSpace(s[i])
  }

  /** A line of a block: a name only deeper than that of the block, a blank line, a comment, or what is indented further. */
  ghost predicate IsBlockLine(s: string, section: nat, dash: nat) {
    && StaysIn(s, section)
    && if IsSomeName(s) then forall indent: nat, word :: IsNameLine(s, indent, word) ==> indent > dash
       else IsQuiet(s) || IsDeeper(s, dash)
  }

  ghost predicate IsLooseLine(s: string, section: nat) {
    StaysIn(s, section) && !IsSomeName(s)
  }

  // ------------------------------------------------------------ lines and their forms

  lemma HeaderIff(s: string)
    ensures IsHeader(FormOf(s)) <==> IsSomeHeading(s)
    ensures forall indent: nat :: IsHeadingLine(s, indent) <==> IsHeader(FormOf(s)) && FormOf(s).section.value.indent == indent
  {
    forall indent: nat ensures IsHeadingLine(s, indent) <==> SectionOf(s) == Some(Section(indent, "projects")) {
      SectionIff(s, indent, "projects");
    }
  }

  lemma EndIff(s: string, section: nat)
    ensures IsEnd(FormOf(s), section) <==> EndsSection(s, section)
  {
    forall indent: nat, key ensures IsSectionLine(s, indent, key) <==> SectionOf(s) == Some(Section(indent, key)) {
      SectionIff(s, indent, key);
    }
  }

  lemma WithinIff(s: string, section: nat)
    ensures IsWithin(FormOf(s), section) <==> StaysIn(s, section)
  {
    HeaderIff(s);
    EndIff(s, section);
  }

  lemma NamedIff(s: string)
    ensures FormOf(s).name.Some? <==> IsSomeName(s)
    ensures forall indent: nat, word :: IsNameLine(s, indent, word) <==> HasName(s, indent, word)
  {
    forall indent: nat, word ensures IsNameLine(s, indent, word) <==> HasName(s, indent, word) {
      NameIff(s, indent, word);
    }
    if NameOf(s).Some? {
      assert HasName(s, NameOf(s).value.indent, NameOf(s).value.word);
    }
  }

  lemma DeeperIff(s: string, dash: nat)
    requires !IsBlank(s)
    ensures Margin(s) > dash <==> IsDeeper(s, dash)
  {
  }

  lemma QuietForm(s: string)
    ensures FormOf(s).quiet <==> IsQuiet(s)
  {
    QuietIff(s);
    if !IsBlank(s) {
      var n := Margin(s);
      assert s[n..][..1] == [s[n]];
      assert [s[n]] == "#" <==> s[n] == '#';
    }
  }

  lemma InnerIff(s: string, section: nat, dash: nat)
    ensures IsInner(FormOf(s), section, dash) <==> IsBlockLine(s, section, dash)
  {
    WithinIff(s, section);
    NamedIff(s);
    QuietForm(s);
    if !IsBlank(s) {
      DeeperIff(s, dash);
    }
    InnerParts(s, dash);
  }

  /** The second half of what makes a line one of a block. */
  lemma InnerParts(s: string, dash: nat)
    requires FormOf(s).name.Some? <==> IsSomeName(s)
    requires forall indent: nat, word :: IsNameLine(s, indent, word) <==> HasName(s, indent, word)
    ensures IsSomeName(s) ==>
      (FormOf(s).name.value.indent > dash <==> forall indent: nat, word :: IsNameLine(s, indent, word) ==> indent > dash)
  {
    if FormOf(s).name.Some? {
      var f := NameOf(s).value;
      assert HasName(s, f.indent, f.word);
    }
  }

  lemma LooseIff(s: string, section: nat)
    ensures IsLoose(FormOf(s), section) <==> IsLooseLine(s, section)
  {
    WithinIff(s, section);
    NamedIff(s);
  }

  /** A path line starts with its key. */
  lemma PathLine(s: string)
    requires FieldOf(s, PATH).Some?
    ensures NameOf(s).None? && FieldOf(s, REVISION).None? && !IsBlank(s) && s[Margin(s)..][..1] != "#"
  {
    var n := Margin(s);
    var t := s[n..];
    assert PATH <= t && PATH[0] == 'p' && t[0] == 'p' && t[0] == s[n];
    assert REVISION[0] == 'r' && !(REVISION <= t);
    assert t[..1] == [t[0]] && "#"[0] == '#';
    assert !IsSpace(s[n]);
  }

  lemma FormIsForm(s: string)
    ensures IsForm(FormOf(s))
  {
    if FieldOf(s, PATH).Some? {
      PathLine(s);
    }
    if FieldOf(s, REVISION).Some? {
      RevisionLine(s);
    }
  }

  // ----------------------------------------------------------------- the manifest

  /** A name, the lines of its block, and lines up to the next name that belong to nothing. */
  datatype Block = Block(head: string, body: seq<string>, loose: seq<string>)

  ghost predicate IsBlock(b: Block, section: nat, dash: nat, word: string) {
    && IsNameLine(b.head, dash, word) && StaysIn(b.head, section)
    && (forall i | 0 <= i < |b.body| :: IsBlockLine(b.body[i], section, dash))
    && (forall i | 0 <= i < |b.loose| :: IsLooseLine(b.loose[i], section))
    && (b.loose != [] ==> !IsQuiet(b.loose[0]) && !IsDeeper(b.loose[0], dash))
  }

  /** What stands before the section, its heading, lines without a name, its blocks, and what follows it. */
  datatype Sheet = Sheet(before: seq<string>, heading: string, prelude: seq<string>, blocks: seq<Block>, after: seq<string>)

  /** The indents of the dashes and the names, block by block. */
  datatype Names = Names(section: nat, dashes: seq<nat>, words: seq<string>)

  ghost predicate IsSheet(m: Sheet, n: Names) {
    && (forall i | 0 <= i < |m.before| :: !IsSomeHeading(m.before[i])) && IsHeadingLine(m.heading, n.section)
    && (forall i | 0 <= i < |m.prelude| :: IsLooseLine(m.prelude[i], n.section))
    && |n.dashes| == |n.words| == |m.blocks|
    && (forall k | 0 <= k < |m.blocks| :: IsBlock(m.blocks[k], n.section, n.dashes[k], n.words[k]))
    && (forall k | 0 < k < |m.blocks| :: m.blocks[k - 1].loose == [] ==> n.dashes[k] <= n.dashes[k - 1])
    && (m.after != [] ==> EndsSection(m.after[0], n.section)) && forall i | 0 <= i < |m.after| :: !IsSomeHeading(m.after[i])
  }

  function BlockLines(b: Block): seq<string> {
    [b.head] + b.body + b.loose
  }

  function AllLines(bs: seq<Block>): seq<string> {
    if bs == [] then [] else BlockLines(bs[0]) + AllLines(bs[1..])
  }

  function LinesOf(m: Sheet): seq<string> {
    m.before + ([m.heading] + (m.prelude + (AllLines(m.blocks) + m.after)))
  }

  /** The line on which the block `k` starts. */
  function BlockStart(bs: seq<Block>, k: nat, at: nat): nat
    requires k <= |bs|
  {
    if k == 0 then at else BlockStart(bs, k - 1, at) + |BlockLines(bs[k - 1])|
  }

  // ------------------------------------------------------------------ the projects

  ghost predicate HasNoPath(s: string) {
    forall w :: !IsPathLine(s, w)
  }

  ghost predicate HasNoRevision(s: string) {
    forall w :: !IsRevisionLine(s, w)
  }

  /** The path is that of the first line that has one. */
  ghost predicate IsFirstPath(lines: seq<string>, at: nat, path: Option<string>, line: nat) {
    if path.None? then line == 0 && forall i | 0 <= i < |lines| :: HasNoPath(lines[i])
    else exists i | 0 <= i < |lines| ::
      IsPathLine(lines[i], path.value) && line == at + i && forall j | 0 <= j < i :: HasNoPath(lines[j])
  }

  ghost predicate IsFirstRevision(lines: seq<string>, at: nat, revision: Option<string>, line: nat) {
    if revision.None? then line == 0 && forall i | 0 <= i < |lines| :: HasNoRevision(lines[i])
    else exists i | 0 <= i < |lines| ::
      IsRevisionLine(lines[i], revision.value) && line == at + i && forall j | 0 <= j < i :: HasNoRevision(lines[j])
  }

  ghost predicate IsProjectOf(x: Project, b: Block, word: string, at: nat) {
    && x.name == word && x.nameLine == at && IsFirstPath(b.body, at + 1, x.path, x.pathLine)
    && IsFirstRevision(b.body, at + 1, x.revision, x.revLine)
  }

  ghost predicate AreProjectsOf(xs: seq<Project>, bs: seq<Block>, words: seq<string>, at: nat) {
    |xs| == |bs| == |words| && forall k | 0 <= k < |bs| :: IsProjectOf(xs[k], bs[k], words[k], BlockStart(bs, k, at))
  }

  // ------------------------------------------------------- from lines to their forms

  function EachLine(f: string -> Form, lines: seq<string>): seq<Form> {
    if lines == [] then [] else EachLine(f, lines[..|lines| - 1]) + [f(lines[|lines| - 1])]
  }

  lemma {:induction false} EachJoin(f: string -> Form, a: seq<string>, b: seq<string>)
    ensures EachLine(f, a + b) == EachLine(f, a) + EachLine(f, b)
    decreases |b|
  {
    if b == [] {
      assert a + b == a;
    } else {
      var n := |b| - 1;
      EachJoin(f, a, b[..n]);
      assert (a + b)[..|a + b| - 1] == a + b[..n];
    }
  }

  lemma {:induction false} FormsAreEach(f: string -> Form, lines: seq<string>)
    requires forall s :: f(s) == FormOf(s)
    ensures FormsOf(lines) == EachLine(f, lines)
  {
    if lines != [] {
      FormsAreEach(f, lines[..|lines| - 1]);
    }
  }

  lemma FormsJoin(a: seq<string>, b: seq<string>)
    ensures FormsOf(a + b) == FormsOf(a) + FormsOf(b)
  {
    var f: string -> Form := s => FormOf(s);
    FormsAreEach(f, a);
    FormsAreEach(f, b);
    FormsAreEach(f, a + b);
    EachJoin(f, a, b);
  }

  lemma FormsOne(s: string)
    ensures FormsOf([s]) == [FormOf(s)]
  {
    assert [s][..0] == [];
  }

  function GroupOf(b: Block): Group {
    Group(FormOf(b.head), FormsOf(b.body), FormsOf(b.loose))
  }

  function GroupsOf(bs: seq<Block>): (gs: seq<Group>)
    ensures |gs| == |bs|
  {
    if bs == [] then [] else [GroupOf(bs[0])] + GroupsOf(bs[1..])
  }

  lemma {:induction false} GroupAt(bs: seq<Block>, k: nat)
    requires k < |bs|
    ensures GroupsOf(bs)[k] == GroupOf(bs[k])
  {
    if k > 0 {
      GroupAt(bs[1..], k - 1);
    }
  }

  lemma BlockForms(b: Block)
    ensures FormsOf(BlockLines(b)) == FormsIn(GroupOf(b))
  {
    FormsJoin([b.head], b.body);
    FormsJoin([b.head] + b.body, b.loose);
    FormsOne(b.head);
  }

  lemma {:induction false} BlocksForms(bs: seq<Block>)
    ensures FormsOf(AllLines(bs)) == AllForms(GroupsOf(bs))
  {
    if bs != [] {
      BlocksForms(bs[1..]);
      BlockForms(bs[0]);
      FormsJoin(BlockLines(bs[0]), AllLines(bs[1..]));
      assert GroupsOf(bs)[1..] == GroupsOf(bs[1..]);
    }
  }

  lemma {:induction false} StartsAgree(bs: seq<Block>, gs: seq<Group>, k: nat, at: nat)
    requires gs == GroupsOf(bs) && k <= |bs|
    ensures BlockStart(bs, k, at) == StartOf(gs, k, at)
    decreases k
  {
    if k > 0 {
      GroupAt(bs, k - 1);
      StartsAgree(bs, gs, k - 1, at);
    }
  }

  function ManifestOf(m: Sheet): Manifest {
    Manifest(FormsOf(m.before), FormOf(m.heading), FormsOf(m.prelude), GroupsOf(m.blocks), FormsOf(m.after))
  }

  lemma SheetForms(m: Sheet)
    ensures FormsOf(LinesOf(m)) == Flat(ManifestOf(m))
  {
    FormsJoin(AllLines(m.blocks), m.after);
    FormsJoin(m.prelude, AllLines(m.blocks) + m.after);
    FormsJoin([m.heading], m.prelude + (AllLines(m.blocks) + m.after));
    FormsJoin(m.before, [m.heading] + (m.prelude + (AllLines(m.blocks) + m.after)));
    FormsOne(m.heading);
    BlocksForms(m.blocks);
  }

  // --------------------------------------------------------- blocks are groups

  lemma BodyInner(b: Block, section: nat, dash: nat)
    requires forall i | 0 <= i < |b.body| :: IsBlockLine(b.body[i], section, dash)
    ensures forall i | 0 <= i < |b.body| :: IsInner(FormsOf(b.body)[i], section, dash)
  {
    forall i | 0 <= i < |b.body| ensures IsInner(FormsOf(b.body)[i], section, dash) {
      FormAt(b.body, i);
      InnerIff(b.body[i], section, dash);
    }
  }

  lemma LinesLoose(lines: seq<string>, section: nat)
    requires forall i | 0 <= i < |lines| :: IsLooseLine(lines[i], section)
    ensures forall i | 0 <= i < |lines| :: IsLoose(FormsOf(lines)[i], section)
  {
    forall i | 0 <= i < |lines| ensures IsLoose(FormsOf(lines)[i], section) {
      FormAt(lines, i);
      LooseIff(lines[i], section);
    }
  }

  lemma FirstLoose(b: Block, dash: nat)
    requires b.loose != [] && !IsQuiet(b.loose[0]) && !IsDeeper(b.loose[0], dash)
    ensures !FormsOf(b.loose)[0].quiet && FormsOf(b.loose)[0].margin <= dash
  {
    FormAt(b.loose, 0);
    QuietForm(b.loose[0]);
    QuietIff(b.loose[0]);
    DeeperIff(b.loose[0], dash);
  }

  lemma BlockIsGroup(b: Block, section: nat, dash: nat, word: string)
    requires IsBlock(b, section, dash, word)
    ensures IsGroup(GroupOf(b), section) && GroupOf(b).head.name.value.indent == dash && GroupOf(b).head.name.value.word == word
  {
    NameIff(b.head, dash, word);
    WithinIff(b.head, section);
    BodyInner(b, section, dash);
    LinesLoose(b.loose, section);
    if b.loose != [] {
      FirstLoose(b, dash);
    }
  }

  lemma BlocksAreGroups(m: Sheet, n: Names)
    requires IsSheet(m, n)
    ensures AreGroups(GroupsOf(m.blocks), n.section)
  {
    var gs := GroupsOf(m.blocks);
    forall k | 0 <= k < |gs|
      ensures gs[k] == GroupOf(m.blocks[k]) && IsGroup(gs[k], n.section) && gs[k].head.name.value.indent == n.dashes[k]
    {
      GroupAt(m.blocks, k);
      BlockIsGroup(m.blocks[k], n.section, n.dashes[k], n.words[k]);
    }
    forall k | 0 < k < |gs| ensures Follows(gs[k - 1], gs[k]) {
      assert m.blocks[k - 1].loose == [] ==> n.dashes[k] <= n.dashes[k - 1];
    }
  }

  lemma NoHeaders(lines: seq<string>)
    requires forall i | 0 <= i < |lines| :: !IsSomeHeading(lines[i])
    ensures forall i | 0 <= i < |lines| :: !IsHeader(FormsOf(lines)[i])
  {
    forall i | 0 <= i < |lines| ensures !IsHeader(FormsOf(lines)[i]) {
      FormAt(lines, i);
      HeaderIff(lines[i]);
    }
  }

  lemma SheetIsManifest(m: Sheet, n: Names)
    requires IsSheet(m, n)
    ensures IsManifest(ManifestOf(m)) && AreForms(GroupsOf(m.blocks))
  {
    NoHeaders(m.before);
    HeaderIff(m.heading);
    LinesLoose(m.prelude, n.section);
    BlocksAreGroups(m, n);
    NoHeaders(m.after);
    if m.after != [] {
      FormAt(m.after, 0);
      EndIff(m.after[0], n.section);
    }
    AllAreForms(m.blocks);
  }

  lemma AllAreForms(bs: seq<Block>)
    ensures AreForms(GroupsOf(bs))
  {
    forall k, i | 0 <= k < |bs| && 0 <= i < |GroupsOf(bs)[k].body| ensures IsForm(GroupsOf(bs)[k].body[i]) {
      GroupAt(bs, k);
      FormAt(bs[k].body, i);
      FormIsForm(bs[k].body[i]);
    }
  }

  // ------------------------------------------------------- projects in terms of lines

  lemma PathAt(s: string)
    ensures FormOf(s).path.None? <==> HasNoPath(s)
    ensures FormOf(s).path.Some? ==> IsPathLine(s, FormOf(s).path.value)
  {
    forall w ensures IsPathLine(s, w) <==> FormOf(s).path == Some(w) {
      PathIff(s, w);
    }
  }

  lemma RevisionAt(s: string)
    ensures FormOf(s).revision.None? <==> HasNoRevision(s)
    ensures FormOf(s).revision.Some? ==> IsRevisionLine(s, FormOf(s).revision.value)
  {
    forall w ensures IsRevisionLine(s, w) <==> FormOf(s).revision == Some(w) {
      RevisionIff(s, w);
    }
  }

  lemma FirstPath(lines: seq<string>, at: nat, path: Option<string>, line: nat)
    requires IsFirst(PathsOf(FormsOf(lines)), at, path, line)
    ensures IsFirstPath(lines, at, path, line)
  {
    forall i | 0 <= i < |lines|
      ensures PathsOf(FormsOf(lines))[i].None? <==> HasNoPath(lines[i])
      ensures PathsOf(FormsOf(lines))[i].Some? ==> IsPathLine(lines[i], PathsOf(FormsOf(lines))[i].value)
    {
      FormAt(lines, i);
      PathAt(lines[i]);
    }
  }

  lemma FirstRevision(lines: seq<string>, at: nat, revision: Option<string>, line: nat)
    requires IsFirst(RevisionsOf(FormsOf(lines)), at, revision, line)
    ensures IsFirstRevision(lines, at, revision, line)
  {
    forall i | 0 <= i < |lines|
      ensures RevisionsOf(FormsOf(lines))[i].None? <==> HasNoRevision(lines[i])
      ensures RevisionsOf(FormsOf(lines))[i].Some? ==> IsRevisionLine(lines[i], RevisionsOf(FormsOf(lines))[i].value)
    {
      FormAt(lines, i);
      RevisionAt(lines[i]);
    }
  }

  lemma ProjectIs(x: Project, b: Block, section: nat, dash: nat, word: string, at: nat)
    requires IsBlock(b, section, dash, word) && IsProject(x, GroupOf(b), at)
    ensures IsProjectOf(x, b, word, at)
  {
    BlockIsGroup(b, section, dash, word);
    FirstPath(b.body, at + 1, x.path, x.pathLine);
    FirstRevision(b.body, at + 1, x.revision, x.revLine);
  }

  lemma SheetParsed(m: Sheet, xs: seq<Project>)
    requires xs == Projects(LinesOf(m))
    ensures xs == ProjectsIn(Flat(ManifestOf(m)))
  {
    SheetForms(m);
  }

  lemma AllProjects(xs: seq<Project>, m: Sheet, n: Names, at: nat)
    requires IsSheet(m, n) && AreProjects(xs, GroupsOf(m.blocks), at)
    ensures AreProjectsOf(xs, m.blocks, n.words, at)
  {
    forall k | 0 <= k < |m.blocks| ensures IsProjectOf(xs[k], m.blocks[k], n.words[k], BlockStart(m.blocks, k, at)) {
      GroupAt(m.blocks, k);
      StartsAgree(m.blocks, GroupsOf(m.blocks), k, at);
      ProjectIs(xs[k], m.blocks[k], n.section, n.dashes[k], n.words[k], BlockStart(m.blocks, k, at));
    }
  }

  /**
   The projects of a manifest are its blocks, each with the first path and the first revision of its
   lines, and with the numbers of these lines.
   */
  lemma SheetProjects(m: Sheet, n: Names, xs: seq<Project>, at: nat)
    requires IsSheet(m, n) && xs == Projects(LinesOf(m)) && at == |m.before| + 1 + |m.prelude|
    ensures AreProjectsOf(xs, m.blocks, n.words, at)
  {
    SheetIsManifest(m, n);
    SheetParsed(m, xs);
    ManifestProjects(ManifestOf(m), xs, at);
    AllProjects(xs, m, n, at);
  }

  lemma ParsedLines(ls: seq<Line>, lines: seq<string>, xs: seq<Project>)
    requires AreLines(ls) && Bodies(ls) == lines && xs == Parsed(Join(ls))
    ensures xs == Projects(lines)
  {
    SplitJoin(ls);
  }

  /** The same for a text with these lines, whatever their endings. */
  lemma ParsedProjects(ls: seq<Line>, m: Sheet, n: Names, xs: seq<Project>, at: nat)
    requires AreLines(ls) && Bodies(ls) == LinesOf(m) && IsSheet(m, n)
    requires xs == Parsed(Join(ls)) && at == |m.before| + 1 + |m.prelude|
    ensures AreProjectsOf(xs, m.blocks, n.words, at)
  {
    ParsedLines(ls, LinesOf(m), xs);
    SheetProjects(m, n, xs, at);
  }
}
