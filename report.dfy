/** The text layout of the change report: three tagged sections, one per line. */
module ReportText {
  import opened Wrappers
  import opened Text

  const PromptTag: string := "promptChanges"
  const ConfigTag: string := "languageModelConfigChanges"
  const ModelTag: string := "languageModelChanges"

  function Open(tag: string): string { "<" + tag + ">" }

  function Close(tag: string): string { "</" + tag + ">" }

  /** What stands between the tags: nothing when there are no lines, otherwise
      the lines, each on its own line. */
  function Body(lines: seq<string>): string
  {
    if lines == [] then "" else "\n" + Join(lines) + "\n"
  }

  /** The lines a section occupies: both tags on one line when it has no lines,
      otherwise the opening tag, the lines and the closing tag, one per line. */
  function SectionLines(tag: string, lines: seq<string>): seq<string>
  {
    if lines == [] then [Open(tag) + Close(tag)] else [Open(tag)] + lines + [Close(tag)]
  }

  function Section(tag: string, lines: seq<string>): (s: string)
    ensures s == Join(SectionLines(tag, lines))
  {
    SectionText(Open(tag), lines, Close(tag));
    Open(tag) + Body(lines) + Close(tag)
  }

  /** The three sections' lines, in report order. */
  function ReportLines(promptLines: seq<string>, configLines: seq<string>, modelLines: seq<string>): seq<string>
  {
    SectionLines(PromptTag, promptLines) + SectionLines(ConfigTag, configLines) + SectionLines(ModelTag, modelLines)
  }

  function Report(promptLines: seq<string>, configLines: seq<string>, modelLines: seq<string>): (r: string)
    ensures r == Join(ReportLines(promptLines, configLines, modelLines))
  {
    var a, b, c := SectionLines(PromptTag, promptLines), SectionLines(ConfigTag, configLines),
      SectionLines(ModelTag, modelLines);
    JoinAppend(a, b);
    JoinAppend(a + b, c);
    Section(PromptTag, promptLines) + "\n" +
    Section(ConfigTag, configLines) + "\n" +
    Section(ModelTag, modelLines)
  }

  /** The report with nothing to show: three pairs of adjacent tags. */
  const EmptyReport: string :=
    Open(PromptTag) + Close(PromptTag) + "\n" +
    Open(ConfigTag) + Close(ConfigTag) + "\n" +
    Open(ModelTag) + Close(ModelTag)

  lemma SectionText(o: string, lines: seq<string>, c: string)
    ensures o + Body(lines) + c == Join(if lines == [] then [o + c] else [o] + lines + [c])
  {
    if lines == [] {
      assert o + "" == o;
    } else {
      JoinAppend([o], lines);
      JoinAppend([o] + lines, [c]);
    }
  }

  // ---------------------------------------------------------------------------
  // Reading a report back into the lines of its sections.

  /** The lines of one section, and the lines of the report after it. */
  datatype Split = Split(lines: seq<string>, rest: seq<string>)

  datatype Sections = Sections(promptLines: seq<string>, configLines: seq<string>, modelLines: seq<string>)

  /** The lines up to the closing tag of `tag`, and those after it. */
  function ReadBody(tag: string, ls: seq<string>): Option<Split>
  {
    if ls == [] then None
    else if ls[0] == Close(tag) then Some(Split([], ls[1..]))
    else
      match ReadBody(tag, ls[1..])
      case None => None
      case Some(Split(body, rest)) => Some(Split([ls[0]] + body, rest))
  }

  /** The section of `tag` at the head of `ls`. */
  function ReadSection(tag: string, ls: seq<string>): Option<Split>
  {
    if ls == [] then None
    else if ls[0] == Open(tag) + Close(tag) then Some(Split([], ls[1..]))
    else if ls[0] == Open(tag) then ReadBody(tag, ls[1..])
    else None
  }

  /** The three sections of a report, in order, with nothing after them. */
  function ReadReport(r: string): Option<Sections>
  {
    ReadSections(Lines(r))
  }

  function ReadSections(ls: seq<string>): Option<Sections>
  {
    match ReadSection(PromptTag, ls)
    case None => None
    case Some(Split(p, r1)) =>
      match ReadSection(ConfigTag, r1)
      case None => None
      case Some(Split(c, r2)) =>
        match ReadSection(ModelTag, r2)
        case None => None
        case Some(Split(m, r3)) => if r3 == [] then Some(Sections(p, c, m)) else None
  }

  /** A line a section can hold and still be read back: it has no '\n' and
      does not start like a tag. */
  predicate PlainLine(l: string)
  {
    '\n' !in l && (l == [] || l[0] != '<')
  }

  lemma {:induction false} ReadBodyOf(tag: string, body: seq<string>, rest: seq<string>)
    requires forall i :: 0 <= i < |body| ==> PlainLine(body[i])
    ensures ReadBody(tag, body + [Close(tag)] + rest) == Some(Split(body, rest))
  {
    var ls := body + [Close(tag)] + rest;
    if body == [] {
      assert ls == [Close(tag)] + rest;
    } else {
      assert ls[0] == body[0] && ls[1..] == body[1..] + [Close(tag)] + rest;
      assert Close(tag)[0] == '<';
      assert body[0] != Close(tag);
      ReadBodyOf(tag, body[1..], rest);
      assert [body[0]] + body[1..] == body;
    }
  }

  lemma ReadSectionOf(tag: string, lines: seq<string>, rest: seq<string>)
    requires forall i :: 0 <= i < |lines| ==> PlainLine(lines[i])
    ensures ReadSection(tag, SectionLines(tag, lines) + rest) == Some(Split(lines, rest))
  {
    var ls := SectionLines(tag, lines) + rest;
    if lines == [] {
      assert ls == [Open(tag) + Close(tag)] + rest;
    } else {
      assert ls == [Open(tag)] + (lines + [Close(tag)] + rest);
      assert |Open(tag)| < |Open(tag) + Close(tag)|;
      ReadBodyOf(tag, lines, rest);
    }
  }

  lemma SectionLinesHaveNoNewline(tag: string, lines: seq<string>)
    requires '\n' !in tag
    requires forall i :: 0 <= i < |lines| ==> PlainLine(lines[i])
    ensures forall i :: 0 <= i < |SectionLines(tag, lines)| ==> '\n' !in SectionLines(tag, lines)[i]
  {
    assert '\n' !in Open(tag) && '\n' !in Close(tag);
  }

  lemma TagsHaveNoNewline()
    ensures '\n' !in PromptTag && '\n' !in ConfigTag && '\n' !in ModelTag
  {
  }

  /** Splitting a report into lines gives its sections' lines, provided the
      lines are plain. */
  lemma ReportSplits(p: seq<string>, c: seq<string>, m: seq<string>)
    requires forall i :: 0 <= i < |p| ==> PlainLine(p[i])
    requires forall i :: 0 <= i < |c| ==> PlainLine(c[i])
    requires forall i :: 0 <= i < |m| ==> PlainLine(m[i])
    ensures Lines(Report(p, c, m)) == ReportLines(p, c, m)
  {
    var a, b, z := SectionLines(PromptTag, p), SectionLines(ConfigTag, c), SectionLines(ModelTag, m);
    TagsHaveNoNewline();
    SectionLinesHaveNoNewline(PromptTag, p);
    SectionLinesHaveNoNewline(ConfigTag, c);
    SectionLinesHaveNoNewline(ModelTag, m);
    var ls := a + b + z;
    forall i | 0 <= i < |ls| ensures '\n' !in ls[i] {
      if i < |a| { assert ls[i] == a[i]; }
      else if i < |a| + |b| { assert ls[i] == b[i - |a|]; }
      else { assert ls[i] == z[i - |a| - |b|]; }
    }
    assert ls[|ls| - 1] == z[|z| - 1] != "";
    LinesJoin(ls);
  }

  /** A report reads back as the lines of its three sections, provided the
      lines are plain. */
  lemma ReadReportOfReport(p: seq<string>, c: seq<string>, m: seq<string>)
    requires forall i :: 0 <= i < |p| ==> PlainLine(p[i])
    requires forall i :: 0 <= i < |c| ==> PlainLine(c[i])
    requires forall i :: 0 <= i < |m| ==> PlainLine(m[i])
    ensures ReadReport(Report(p, c, m)) == Some(Sections(p, c, m))
  {
    ReportSplits(p, c, m);
    ReadSectionsOf(p, c, m);
  }

  lemma ReadSectionsOf(p: seq<string>, c: seq<string>, m: seq<string>)
    requires forall i :: 0 <= i < |p| ==> PlainLine(p[i])
    requires forall i :: 0 <= i < |c| ==> PlainLine(c[i])
    requires forall i :: 0 <= i < |m| ==> PlainLine(m[i])
    ensures ReadSections(ReportLines(p, c, m)) == Some(Sections(p, c, m))
  {
    var a, b, z := SectionLines(PromptTag, p), SectionLines(ConfigTag, c), SectionLines(ModelTag, m);
    assert ReportLines(p, c, m) == a + (b + z);
    ReadSectionOf(PromptTag, p, b + z);
    ReadSectionOf(ConfigTag, c, z);
    assert z == z + [];
    ReadSectionOf(ModelTag, m, []);
  }

  // Regrouping concatenations over arbitrary pieces (the literal pieces of the
  // layout are substituted only afterwards, which keeps these proofs small).

  lemma RegroupEmpty(o: string, p: string, t: string, q: string)
    ensures o + "" + (p + t + q) == o + p + t + q
  {
    assert o + "" == o;
  }

  lemma RegroupOne(o: string, n: string, a: string, p: string, t: string, q: string)
    ensures o + (n + a + n) + (p + t + q) == o + n + a + n + p + t + q
  {
  }

  lemma RegroupTwo(o: string, n: string, a: string, b: string, p: string, t: string, q: string)
    ensures o + (n + (a + n + b) + n) + (p + t + q) == o + n + a + n + b + n + p + t + q
  {
  }

  lemma RegroupThree(x: string, y: string, z: string, n: string, p: string, t: string, q: string)
    ensures x + n + y + n + (z + p + t + q) == x + n + y + n + z + p + t + q
  {
  }

  /** A section without lines is its two tags, adjacent. */
  lemma EmptySection(tag: string)
    ensures Section(tag, []) == "<" + tag + ">" + "</" + tag + ">"
  {
    RegroupEmpty("<" + tag + ">", "</", tag, ">");
  }

  /** A section of one line has the line between the tags, on its own line. */
  lemma OneLineSection(tag: string, l: string)
    ensures Section(tag, [l]) == "<" + tag + ">" + "\n" + l + "\n" + "</" + tag + ">"
  {
    assert Join([l]) == l;
    RegroupOne("<" + tag + ">", "\n", l, "</", tag, ">");
  }

  /** A section of two lines. */
  lemma TwoLineSection(tag: string, a: string, b: string)
    ensures Section(tag, [a, b]) == "<" + tag + ">" + "\n" + a + "\n" + b + "\n" + "</" + tag + ">"
  {
    assert [a, b][1..] == [b];
    assert Join([a, b]) == a + "\n" + Join([b]);
    RegroupTwo("<" + tag + ">", "\n", a, b, "</", tag, ">");
  }

  lemma EmptyReportText()
    ensures Report([], [], []) == EmptyReport
  {
    assert Section(PromptTag, []) == Open(PromptTag) + Close(PromptTag);
    assert Section(ConfigTag, []) == Open(ConfigTag) + Close(ConfigTag);
    assert Section(ModelTag, []) == Open(ModelTag) + Close(ModelTag);
  }

  /** A report ends with its model section. */
  lemma ReportEndsWithModelSection(p: seq<string>, c: seq<string>, m: seq<string>)
    ensures var r := Report(p, c, m); var t := Section(ModelTag, m);
      |r| >= |t| && r[|r| - |t|..] == t
  {
    var head := Section(PromptTag, p) + "\n" + Section(ConfigTag, c) + "\n";
    assert Report(p, c, m) == head + Section(ModelTag, m);
  }
}

/** The change report between two revisions of a prompt (findDiff): the line diff
    of the prompt text, the line diff of the pretty-printed model config, and a
    note when the language model changed, each in its own tagged section. */
module DiffReport {
  import opened Wrappers
  import opened ReportText
  import opened Text
  import opened LineDiff
  import opened Json

  type ModelId = int

  /** The fields of a prompt revision the report compares. */
  datatype PromptState = PromptState(value: string, languageModelConfig: Json, languageModelId: ModelId)

  /** A result together with the ids the label lookup was called with, in order. */
  datatype Traced<T> = Traced(result: T, lookups: seq<ModelId>)

  /** The label lookup the caller supplies; it may fail with a message. */
  type Lookup = ModelId -> Result<string, string>

  // ---------------------------------------------------------------------------
  // Rendering changed lines.

  function FormatChange(e: Edit<string>): string
    requires !e.Keep?
  {
    if e.Remove? then "- " + e.line else "+ " + e.line
  }

  function FormatChanges(cs: seq<Edit<string>>): (ls: seq<string>)
    requires forall i :: 0 <= i < |cs| ==> !cs[i].Keep?
    ensures |ls| == |cs|
    ensures forall i :: 0 <= i < |cs| ==> ls[i] == FormatChange(cs[i])
  {
    if cs == [] then [] else [FormatChange(cs[0])] + FormatChanges(cs[1..])
  }

  /** Reads a rendered line back into the change it shows. */
  function ParseChange(l: string): Option<Edit<string>>
  {
    if |l| >= 2 && l[..2] == "- " then Some(Remove(l[2..]))
    else if |l| >= 2 && l[..2] == "+ " then Some(Add(l[2..]))
    else None
  }

  function ParseChanges(ls: seq<string>): Option<seq<Edit<string>>>
  {
    if ls == [] then Some([])
    else
      var head := ParseChange(ls[0]);
      var tail := ParseChanges(ls[1..]);
      if head.Some? && tail.Some? then Some([head.value] + tail.value) else None
  }

  // ---------------------------------------------------------------------------
  // The three diffs and the report.

  /** The line diff of the two configs, each pretty-printed with two-space
      indentation. */
  function ConfigDiff(oldConfig: Json, newConfig: Json): (c: seq<Edit<string>>)
    ensures forall i :: 0 <= i < |c| ==> !c[i].Keep? && '\n' !in c[i].line
    ensures oldConfig == newConfig ==> c == []
  {
    DiffLinesSelf(Pretty(oldConfig));
    DiffLines(Pretty(oldConfig), Pretty(newConfig))
  }

  function ModelChangeNote(modelLabel: string): string
  {
    "Model changed to " + modelLabel
  }

  /** The model section's lines. The lookup is called, once and with the new
      id, only when the ids differ; its failure is passed on. */
  function ModelChange(oldId: ModelId, newId: ModelId, lookup: Lookup): (t: Traced<Result<seq<string>, string>>)
    ensures t.lookups == [] <==> oldId == newId
    ensures oldId == newId ==> t.result == Ok([])
    ensures oldId != newId ==> t.lookups == [newId]
    ensures oldId != newId && lookup(newId).Ok? ==> t.result == Ok([ModelChangeNote(lookup(newId).value)])
    ensures oldId != newId && lookup(newId).Err? ==> t.result == Err(lookup(newId).error)
  {
    if oldId == newId then Traced(Ok([]), [])
    else
      match lookup(newId)
      case Ok(modelLabel) => Traced(Ok([ModelChangeNote(modelLabel)]), [newId])
      case Err(e) => Traced(Err(e), [newId])
  }

  /** The report between two revisions. The lookup is called, once and with the
      new id, only when the model ids differ; the report fails exactly when that
      call fails, and then with its error. */
  function FindDiff(oldState: PromptState, newState: PromptState, lookup: Lookup): (t: Traced<Result<string, string>>)
    ensures var oldId, newId := oldState.languageModelId, newState.languageModelId;
      t.lookups == (if oldId == newId then [] else [newId]) &&
      (t.result.Ok? <==> oldId == newId || lookup(newId).Ok?) &&
      (t.result.Err? ==> t.result == Err(lookup(newId).error))
  {
    var promptLines := FormatChanges(DiffLines(oldState.value, newState.value));
    var configLines := FormatChanges(ConfigDiff(oldState.languageModelConfig, newState.languageModelConfig));
    var model := ModelChange(oldState.languageModelId, newState.languageModelId, lookup);
    match model.result
    case Ok(modelLines) => Traced(Ok(Report(promptLines, configLines, modelLines)), model.lookups)
    case Err(e) => Traced(Err(e), model.lookups)
  }

  // ---------------------------------------------------------------------------
  // Properties of the report.

  /** Identical states give the report whose three sections are all empty, and
      the lookup is not called. */
  lemma IdenticalStatesEmptyReport(s: PromptState, lookup: Lookup)
    ensures FindDiff(s, s, lookup) == Traced(Ok(EmptyReport), [])
  {
    DiffLinesSelf(s.value);
    DiffLinesSelf(Pretty(s.languageModelConfig));
    assert FindDiff(s, s, lookup) == Traced(Ok(Report([], [], [])), []);
    EmptyReportText();
  }

  /** With the same model id the model section is empty and the lookup is never
      called, whatever the rest of the states. */
  lemma SameModelNoLookup(oldState: PromptState, newState: PromptState, lookup: Lookup)
    requires oldState.languageModelId == newState.languageModelId
    ensures FindDiff(oldState, newState, lookup).lookups == []
    ensures FindDiff(oldState, newState, lookup).result.Ok?
    ensures var r := FindDiff(oldState, newState, lookup).result.value;
      var tail := "<" + ModelTag + ">" + "</" + ModelTag + ">";
      |r| >= |tail| && r[|r| - |tail|..] == tail
  {
    var promptLines := FormatChanges(DiffLines(oldState.value, newState.value));
    var configLines := FormatChanges(ConfigDiff(oldState.languageModelConfig, newState.languageModelConfig));
    assert FindDiff(oldState, newState, lookup).result == Ok(Report(promptLines, configLines, []));
    ReportEndsWithModelSection(promptLines, configLines, []);
    EmptySection(ModelTag);
  }

  /** With different model ids the lookup is called once, with the new id, and
      the model section holds "Model changed to <label>". */
  lemma ChangedModelNote(oldState: PromptState, newState: PromptState, lookup: Lookup)
    requires oldState.languageModelId != newState.languageModelId
    requires lookup(newState.languageModelId).Ok?
    ensures FindDiff(oldState, newState, lookup).lookups == [newState.languageModelId]
    ensures FindDiff(oldState, newState, lookup).result.Ok?
    ensures var r := FindDiff(oldState, newState, lookup).result.value;
      var tail := "<" + ModelTag + ">" + "\n" + ModelChangeNote(lookup(newState.languageModelId).value) + "\n" + "</" + ModelTag + ">";
      |r| >= |tail| && r[|r| - |tail|..] == tail
  {
    var note := ModelChangeNote(lookup(newState.languageModelId).value);
    var promptLines := FormatChanges(DiffLines(oldState.value, newState.value));
    var configLines := FormatChanges(ConfigDiff(oldState.languageModelConfig, newState.languageModelConfig));
    assert FindDiff(oldState, newState, lookup).result == Ok(Report(promptLines, configLines, [note]));
    ReportEndsWithModelSection(promptLines, configLines, [note]);
    OneLineSection(ModelTag, note);
  }

  /** A failing lookup fails the whole report with the lookup's error. */
  lemma LookupFailureFailsReport(oldState: PromptState, newState: PromptState, lookup: Lookup)
    requires oldState.languageModelId != newState.languageModelId
    requires lookup(newState.languageModelId).Err?
    ensures FindDiff(oldState, newState, lookup) ==
      Traced(Err(lookup(newState.languageModelId).error), [newState.languageModelId])
  {
  }

  /** A rendered change reads back as itself. */
  lemma RenderedChangeReadsBack(c: Edit<string>)
    requires !c.Keep?
    ensures ParseChange(FormatChange(c)) == Some(c)
  {
    var l := FormatChange(c);
    assert l[..2] == (if c.Remove? then "- " else "+ ") && l[2..] == c.line;
  }

  /** The lines of a section body read back as the changes they render. */
  lemma {:induction false} RenderedChangesReadBack(cs: seq<Edit<string>>)
    requires forall i :: 0 <= i < |cs| ==> !cs[i].Keep?
    ensures ParseChanges(FormatChanges(cs)) == Some(cs)
  {
    if cs != [] {
      var ls := FormatChanges(cs);
      RenderedChangesReadBack(cs[1..]);
      RenderedChangeReadsBack(cs[0]);
      assert ls[0] == FormatChange(cs[0]) && ls[1..] == FormatChanges(cs[1..]);
      assert [cs[0]] + cs[1..] == cs;
    }
  }

  /** A section body splits back into its rendered lines, so a report reader
      recovers the changes of the line diff. */
  lemma SectionBodySplits(oldText: string, newText: string)
    ensures var ls := FormatChanges(DiffLines(oldText, newText));
      Lines(Join(ls)) == ls && ParseChanges(ls) == Some(DiffLines(oldText, newText))
  {
    var cs := DiffLines(oldText, newText);
    var ls := FormatChanges(cs);
    forall i | 0 <= i < |ls| ensures '\n' !in ls[i] && ls[i] != "" {
      assert ls[i] == FormatChange(cs[i]);
      assert ls[i][2..] == cs[i].line;
      assert ls[i][..2] == "- " || ls[i][..2] == "+ ";
    }
    LinesJoin(ls);
    RenderedChangesReadBack(cs);
  }

  /** `report` reads back into three sections whose first two parse as the given
      diffs and whose third holds the given model lines. */
  predicate ReadsBackAs(report: string, promptDiff: seq<Edit<string>>, configDiff: seq<Edit<string>>,
                        modelLines: seq<string>)
  {
    var r := ReadReport(report);
    r.Some? && ParseChanges(r.value.promptLines) == Some(promptDiff) &&
    ParseChanges(r.value.configLines) == Some(configDiff) && r.value.modelLines == modelLines
  }

  /** Rendered changes are plain lines: they start with "- " or "+ " and hold no
      '\n' when the changed lines hold none. */
  lemma RenderedChangesArePlain(cs: seq<Edit<string>>)
    requires forall i :: 0 <= i < |cs| ==> !cs[i].Keep? && '\n' !in cs[i].line
    ensures forall i :: 0 <= i < |FormatChanges(cs)| ==> PlainLine(FormatChanges(cs)[i])
  {
    var ls := FormatChanges(cs);
    forall i | 0 <= i < |ls| ensures PlainLine(ls[i]) {
      assert ls[i] == FormatChange(cs[i]);
      assert ls[i][2..] == cs[i].line;
      assert ls[i][0] == '-' || ls[i][0] == '+';
    }
  }

  /** A successful report reads back into its three sections: the prompt and
      config sections parse back into the line diffs of the prompt texts and of
      the pretty-printed configs, and the model section holds the note exactly
      when the model ids differ (a label with a line break excepted). */
  lemma FindDiffReadsBack(oldState: PromptState, newState: PromptState, lookup: Lookup)
    requires var newId := newState.languageModelId;
      lookup(newId).Ok? ==> '\n' !in lookup(newId).value
    ensures var t := FindDiff(oldState, newState, lookup);
      var oldId, newId := oldState.languageModelId, newState.languageModelId;
      t.result.Ok? ==> ReadsBackAs(t.result.value,
        DiffLines(oldState.value, newState.value),
        ConfigDiff(oldState.languageModelConfig, newState.languageModelConfig),
        if oldId == newId then [] else [ModelChangeNote(lookup(newId).value)])
  {
    var oldId, newId := oldState.languageModelId, newState.languageModelId;
    var promptDiff := DiffLines(oldState.value, newState.value);
    var configDiff := ConfigDiff(oldState.languageModelConfig, newState.languageModelConfig);
    FindDiffParts(oldState, newState, lookup);
    if oldId == newId {
      DiffsReadBack(promptDiff, configDiff, []);
    } else if lookup(newId).Ok? {
      var note := ModelChangeNote(lookup(newId).value);
      NoteIsPlain(lookup(newId).value);
      DiffsReadBack(promptDiff, configDiff, [note]);
    }
  }

  lemma NoteIsPlain(modelLabel: string)
    requires '\n' !in modelLabel
    ensures PlainLine(ModelChangeNote(modelLabel))
  {
    var note := ModelChangeNote(modelLabel);
    assert note[0] == 'M';
    assert note == "Model changed to " + modelLabel;
    assert '\n' !in "Model changed to ";
  }

  /** A report of two diffs and plain model lines reads back into them. */
  lemma DiffsReadBack(promptDiff: seq<Edit<string>>, configDiff: seq<Edit<string>>, m: seq<string>)
    requires forall i :: 0 <= i < |promptDiff| ==> !promptDiff[i].Keep? && '\n' !in promptDiff[i].line
    requires forall i :: 0 <= i < |configDiff| ==> !configDiff[i].Keep? && '\n' !in configDiff[i].line
    requires forall i :: 0 <= i < |m| ==> PlainLine(m[i])
    ensures ReadsBackAs(Report(FormatChanges(promptDiff), FormatChanges(configDiff), m), promptDiff, configDiff, m)
  {
    RenderedChangesArePlain(promptDiff);
    RenderedChangesArePlain(configDiff);
    RenderedChangesReadBack(promptDiff);
    RenderedChangesReadBack(configDiff);
    ReadReportOfReport(FormatChanges(promptDiff), FormatChanges(configDiff), m);
  }

  // ---------------------------------------------------------------------------
  // The concrete revisions of the unit tests.

  /** A config object with one numeric member. */
  function NumberConfig(key: string, lit: string): Json
  {
    JObject([Field(key, JNumber(lit))])
  }

  /** Changing the number of a one-member config removes the old member line and
      adds the new one; the braces are kept. */
  lemma NumberConfigChange(key: string, a: string, b: string)
    requires forall i :: 0 <= i < |key| ==> IsPlain(key[i])
    requires IsNumberLiteral(a) && IsNumberLiteral(b) && a != b
    ensures ConfigDiff(NumberConfig(key, a), NumberConfig(key, b)) ==
      [Remove(MemberLine(key, a)), Add(MemberLine(key, b))]
  {
    var x, y := MemberLine(key, a), MemberLine(key, b);
    PrettySingleMember(key, JNumber(a));
    PrettySingleMember(key, JNumber(b));
    var prefix := "  \"" + key + "\": ";
    assert x[|prefix|..] == a && y[|prefix|..] == b;
    assert x[0] == ' ' && y[0] == ' ';
    ChangedMiddle("{", x, y, "}");
  }

  /** A successful report is made of the two rendered diffs and the model
      section's lines. */
  lemma FindDiffParts(oldState: PromptState, newState: PromptState, lookup: Lookup)
    ensures var model := ModelChange(oldState.languageModelId, newState.languageModelId, lookup);
      FindDiff(oldState, newState, lookup).result.Ok? ==>
        model.result.Ok? &&
        FindDiff(oldState, newState, lookup).result.value == Report(
          FormatChanges(DiffLines(oldState.value, newState.value)),
          FormatChanges(ConfigDiff(oldState.languageModelConfig, newState.languageModelConfig)),
          model.result.value)
  {
  }

  const OldPrompt: string := "Old prompt content"
  const NewPrompt: string := "New prompt content"

  lemma TestPromptLines()
    ensures FormatChanges(DiffLines(OldPrompt, NewPrompt)) == ["- " + OldPrompt, "+ " + NewPrompt]
  {
    OneLineTextsDiff(OldPrompt, NewPrompt);
    TwoChangesRendered(OldPrompt, NewPrompt);
  }

  lemma TestConfigLines()
    ensures FormatChanges(ConfigDiff(NumberConfig("temperature", "0.5"), NumberConfig("temperature", "0.7"))) ==
      ["- " + MemberLine("temperature", "0.5"), "+ " + MemberLine("temperature", "0.7")]
  {
    NumberConfigChange("temperature", "0.5", "0.7");
    TwoChangesRendered(MemberLine("temperature", "0.5"), MemberLine("temperature", "0.7"));
  }

  /** The first unit test: the prompt line, the temperature member and the model
      each show their change, and the label of the new model is looked up once. */
  lemma ChangedStatesReport()
    ensures FindDiff(
      PromptState(OldPrompt, NumberConfig("temperature", "0.5"), 1),
      PromptState(NewPrompt, NumberConfig("temperature", "0.7"), 2),
      (id: ModelId) => Ok("GPT-4")) ==
      Traced(Ok(Report(
        ["- " + OldPrompt, "+ " + NewPrompt],
        ["- " + MemberLine("temperature", "0.5"), "+ " + MemberLine("temperature", "0.7")],
        [ModelChangeNote("GPT-4")])), [2])
  {
    TestPromptLines();
    TestConfigLines();
  }

  lemma TwoChangesRendered(x: string, y: string)
    ensures FormatChanges([Remove(x), Add(y)]) == ["- " + x, "+ " + y]
  {
    assert [Remove(x), Add(y)][1..] == [Add(y)];
  }

  /** The multiline unit test, whose texts are the lines below joined by '\n':
      Line 2 is removed, Line 2.5 and Line 4 are added, and Line 1 and Line 3
      are not reported. */
  lemma MultilineDiff()
    ensures DiffLines(Join(["Line 1", "Line 2", "Line 3"]), Join(["Line 1", "Line 2.5", "Line 3", "Line 4"])) ==
      [Remove("Line 2"), Add("Line 2.5"), Add("Line 4")]
  {
    LinesJoin(["Line 1", "Line 2", "Line 3"]);
    LinesJoin(["Line 1", "Line 2.5", "Line 3", "Line 4"]);
    ChangedMiddleThenAdded("Line 1", "Line 2", "Line 2.5", "Line 3", "Line 4");
  }
}
