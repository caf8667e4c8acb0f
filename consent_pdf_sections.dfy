/**
 * `parseDescription` of the consent-PDF generator: the consent description
 * is cut into lines, every trimmed non-blank line is classified as a heading
 * (`# ` marker, or a short capitalised line without sentence punctuation), a
 * bullet (`- ` or `• ` marker) or a paragraph, and the lines are grouped into
 * sections, a new section starting at every heading.
 */
module ConsentPdfSections {
  import opened Wrappers
  import opened JsText

  /** `interface Section { heading?: string; paragraphs: string[]; bullets: string[] }`. */
  datatype Section = Section(heading: Option<string>, paragraphs: seq<string>, bullets: seq<string>)

  /** What one line of the description is taken for, with the text it contributes. */
  datatype Line = Blank | HeadingLine(text: string) | BulletLine(text: string) | ParagraphLine(text: string)

  predicate IsUpper(c: char) {
    'A' <= c <= 'Z'
  }

  predicate IsStop(c: char) {
    c == '.' || c == '!' || c == '?'
  }

  /** The regular expression `[^.!?]*$`, matched from the start of `s`. */
  predicate NoStopsFrom(s: string)
    decreases |s|
  {
    s == [] || (!IsStop(s[0]) && NoStopsFrom(s[1..]))
  }

  /** The regular expression `/^[A-Z][^.!?]*$/`. */
  predicate HeadingPattern(s: string) {
    s != [] && IsUpper(s[0]) && NoStopsFrom(s[1..])
  }

  lemma {:induction false} NoStopsFromMeans(s: string)
    ensures NoStopsFrom(s) <==> forall i :: 0 <= i < |s| ==> !IsStop(s[i])
    decreases |s|
  {
    if s != [] {
      NoStopsFromMeans(s[1..]);
      assert forall i :: 1 <= i < |s| ==> s[1..][i - 1] == s[i];
    }
  }

  /** The heading pattern rejects `.`, `!` and `?` anywhere in the line, not only at its end. */
  lemma HeadingPatternMeans(s: string)
    ensures HeadingPattern(s) <==> s != [] && IsUpper(s[0]) && forall i :: 0 <= i < |s| ==> !IsStop(s[i])
  {
    if s != [] {
      NoStopsFromMeans(s[1..]);
      assert forall i :: 1 <= i < |s| ==> s[1..][i - 1] == s[i];
    }
  }

  /** The heuristic heading test: the pattern, and shorter than 80 characters. */
  predicate LooksLikeHeading(line: string) {
    HeadingPattern(line) && |line| < 80
  }

  /** The tests on a trimmed line, in the source's order. */
  function ClassifyTrimmed(line: string): Line {
    if line == "" then Blank
    else if StartsWith(line, "# ") then HeadingLine(Trim(line[2..]))
    else if StartsWith(line, "- ") || StartsWith(line, "• ") then BulletLine(Trim(line[2..]))
    else if LooksLikeHeading(line) then HeadingLine(line)
    else ParagraphLine(line)
  }

  /** The classification of one raw line. */
  function Classify(raw: string): Line {
    ClassifyTrimmed(Trim(raw))
  }

  /** After a two-character marker, a trimmed line still has text. */
  lemma MarkerLeavesText(line: string)
    requires |line| >= 2 && line[1] == ' '
    requires line != [] && !IsSpace(line[|line| - 1])
    ensures Trim(line[2..]) != ""
  {
    var rest := line[2..];
    assert rest != [] && rest[|rest| - 1] == line[|line| - 1];
    TrimEmptyIffAllSpace(rest);
  }

  /** A line is blank exactly when it is whitespace only, and every other line
      contributes a non-empty text with no whitespace at either end. */
  lemma ClassifyText(raw: string)
    ensures Classify(raw).Blank? <==> AllSpace(raw)
    ensures !Classify(raw).Blank? ==> Classify(raw).text != "" && Trim(Classify(raw).text) == Classify(raw).text
  {
    TrimEmptyIffAllSpace(raw);
    var line := Trim(raw);
    if line != "" {
      if StartsWith(line, "# ") || StartsWith(line, "- ") || StartsWith(line, "• ") {
        MarkerLeavesText(line);
        TrimOfTrimmed(Trim(line[2..]));
      } else {
        TrimOfTrimmed(line);
      }
    }
  }

  /** A line with nothing to trim. */
  predicate Trimmed(line: string) {
    line != [] && !IsSpace(line[0]) && !IsSpace(line[|line| - 1])
  }

  /** A short capitalised line without `.`, `!` or `?` (such as "Risks") is a heading. */
  lemma TitleIsHeading(line: string)
    requires Trimmed(line) && IsUpper(line[0]) && |line| < 80
    requires forall i :: 0 <= i < |line| ==> !IsStop(line[i])
    ensures Classify(line) == HeadingLine(line)
  {
    TrimOfTrimmed(line);
    HeadingPatternMeans(line);
  }

  /** A line holding `.`, `!` or `?` anywhere (such as "Risks are listed below.")
      and no marker is a paragraph. */
  lemma SentenceIsParagraph(line: string, i: nat)
    requires Trimmed(line) && i < |line| && IsStop(line[i])
    requires !StartsWith(line, "# ") && !StartsWith(line, "- ") && !StartsWith(line, "• ")
    ensures Classify(line) == ParagraphLine(line)
  {
    TrimOfTrimmed(line);
    HeadingPatternMeans(line);
  }

  /** A capitalised line of 80 characters or more is a paragraph even without punctuation. */
  lemma LongLineIsParagraph(line: string)
    requires Trimmed(line) && IsUpper(line[0]) && |line| >= 80
    ensures Classify(line) == ParagraphLine(line)
  {
    TrimOfTrimmed(line);
  }

  /** The markers `- `, `• ` and `# ` are stripped and the rest is kept. */
  lemma MarkerStripped(m: char, t: string)
    requires m == '-' || m == '•' || m == '#'
    requires Trimmed(t)
    ensures Classify([m, ' '] + t) == if m == '#' then HeadingLine(t) else BulletLine(t)
  {
    var line := [m, ' '] + t;
    assert line[2..] == t;
    assert Trimmed(line);
    TrimOfTrimmed(line);
    TrimOfTrimmed(t);
    assert Classify(line) == ClassifyTrimmed(line);
    assert StartsWith(line, "# ") <==> m == '#';
    assert StartsWith(line, "- ") || StartsWith(line, "• ") <==> m != '#';
  }

  // ---------------------------------------------------------------------
  // Grouping lines into sections
  // ---------------------------------------------------------------------

  /** The loop's variables: the sections pushed so far and the current one. */
  datatype ParseState = ParseState(sections: seq<Section>, current: Section)

  const Fresh := Section(None, [], [])

  /** `current.heading || current.paragraphs.length || current.bullets.length`. */
  predicate Worth(s: Section) {
    Truthy(s.heading) || |s.paragraphs| > 0 || |s.bullets| > 0
  }

  /** The sections after a conditional push of the current one. */
  function Flush(st: ParseState): seq<Section> {
    if Worth(st.current) then st.sections + [st.current] else st.sections
  }

  /** One iteration of the loop over the lines, given the line's classification. */
  function Step(st: ParseState, l: Line): ParseState {
    match l
    case Blank => st
    case HeadingLine(h) => ParseState(Flush(st), Section(Some(h), [], []))
    case BulletLine(b) => ParseState(st.sections, st.current.(bullets := st.current.bullets + [b]))
    case ParagraphLine(p) => ParseState(st.sections, st.current.(paragraphs := st.current.paragraphs + [p]))
  }

  function Fold(st: ParseState, ls: seq<Line>): ParseState
    decreases |ls|
  {
    if ls == [] then st else Fold(Step(st, ls[0]), ls[1..])
  }

  /** The classified lines of a description, `desc.split(/\n+/)`. */
  function Lines(desc: string): seq<Line> {
    Classified(Split(desc, '\n'))
  }

  function Classified(pieces: seq<string>): (ls: seq<Line>)
    ensures |ls| == |pieces|
  {
    seq(|pieces|, i requires 0 <= i < |pieces| => Classify(pieces[i]))
  }

  /** The sections `parseDescription(desc)` returns. */
  function Parse(desc: string): seq<Section> {
    Group(Lines(desc))
  }

  /** The sections built from classified lines. */
  function Group(ls: seq<Line>): seq<Section> {
    Flush(Fold(ParseState([], Fresh), ls))
  }

  lemma FoldAt(st: ParseState, ls: seq<Line>, i: nat)
    requires i < |ls|
    ensures Fold(st, ls[i..]) == Fold(Step(st, ls[i]), ls[i + 1..])
  {
    assert ls[i..][0] == ls[i] && ls[i..][1..] == ls[i + 1..];
  }

  /** The loop of `parseDescription`, proved to return exactly `Parse`: each
      trimmed line is classified, then pushed onto the current section or,
      for a heading, starts a new one after a conditional push. */
  method ParseDescription(desc: string) returns (sections: seq<Section>)
    ensures sections == Parse(desc)
  {
    var lines := Split(desc, '\n');
    ghost var ls := Classified(lines);
    sections := [];
    var current := Fresh;
    for i := 0 to |lines|
      invariant Fold(ParseState(sections, current), ls[i..]) == Fold(ParseState([], Fresh), ls)
    {
      FoldAt(ParseState(sections, current), ls, i);
      var kind := ClassifyTrimmed(Trim(lines[i]));
      match kind {
        case Blank =>
        case HeadingLine(h) =>
          if Truthy(current.heading) || |current.paragraphs| > 0 || |current.bullets| > 0 {
            sections := sections + [current];
          }
          current := Section(Some(h), [], []);
        case BulletLine(b) =>
          current := current.(bullets := current.bullets + [b]);
        case ParagraphLine(p) =>
          current := current.(paragraphs := current.paragraphs + [p]);
      }
    }
    assert ls[|lines|..] == [];
    if Truthy(current.heading) || |current.paragraphs| > 0 || |current.bullets| > 0 {
      sections := sections + [current];
    }
  }

  // ---------------------------------------------------------------------
  // Shape of the result
  // ---------------------------------------------------------------------

  /** What the loop keeps true: pushed sections are worth keeping, only the
      first may lack a heading, and once anything was pushed the current
      section has one; a heading is never empty. */
  predicate Shaped(st: ParseState) {
    (forall k :: 0 <= k < |st.sections| ==> Worth(st.sections[k]))
    && (forall k :: 1 <= k < |st.sections| ==> Truthy(st.sections[k].heading))
    && (st.sections != [] ==> Truthy(st.current.heading))
    && (st.current.heading.Some? ==> st.current.heading.value != "")
  }

  /** A heading line carries a non-empty text. */
  predicate LineOk(l: Line) {
    l.HeadingLine? ==> l.text != ""
  }

  lemma StepShaped(st: ParseState, l: Line)
    requires Shaped(st) && LineOk(l)
    ensures Shaped(Step(st, l))
  {
    if l.HeadingLine? {
      var ss := Flush(st);
      assert forall k :: 0 <= k < |ss| ==> Worth(ss[k]);
    }
  }

  predicate AllOk(ls: seq<Line>) {
    forall i :: 0 <= i < |ls| ==> LineOk(ls[i])
  }

  lemma LinesOk(desc: string)
    ensures AllOk(Lines(desc))
  {
    var ls := Lines(desc);
    var pieces := Split(desc, '\n');
    forall i | 0 <= i < |ls| ensures LineOk(ls[i]) {
      ClassifyText(pieces[i]);
    }
  }

  lemma {:induction false} FoldShaped(st: ParseState, ls: seq<Line>)
    requires Shaped(st) && AllOk(ls)
    ensures Shaped(Fold(st, ls))
    decreases |ls|
  {
    if ls != [] {
      StepShaped(st, ls[0]);
      FoldShaped(Step(st, ls[0]), ls[1..]);
    }
  }

  /** No section is emitted empty, and every section but the first has a heading. */
  lemma ParseShape(desc: string)
    ensures forall k :: 0 <= k < |Parse(desc)| ==> Worth(Parse(desc)[k])
    ensures forall k :: 1 <= k < |Parse(desc)| ==> Truthy(Parse(desc)[k].heading)
  {
    LinesOk(desc);
    FoldShaped(ParseState([], Fresh), Lines(desc));
  }

  // ---------------------------------------------------------------------
  // Nothing is lost or reordered
  // ---------------------------------------------------------------------

  /** The three kinds of text a section collects. */
  datatype Kind = Paragraphs | Bullets | Headings

  /** The texts of one kind a section holds (its heading, if any, for `Headings`). */
  function Part(s: Section, k: Kind): seq<string> {
    match k
    case Paragraphs => s.paragraphs
    case Bullets => s.bullets
    case Headings => if s.heading.Some? then [s.heading.value] else []
  }

  /** The texts of one kind of all sections, in order. */
  function Collected(ss: seq<Section>, k: Kind): seq<string>
    decreases |ss|
  {
    if ss == [] then [] else Collected(ss[..|ss| - 1], k) + Part(ss[|ss| - 1], k)
  }

  /** The text a line contributes to the texts of one kind. */
  function LineText(l: Line, k: Kind): seq<string> {
    match k
    case Paragraphs => if l.ParagraphLine? then [l.text] else []
    case Bullets => if l.BulletLine? then [l.text] else []
    case Headings => if l.HeadingLine? then [l.text] else []
  }

  /** The texts of the lines classified as one kind, in order. */
  function Texts(ls: seq<Line>, k: Kind): seq<string>
    decreases |ls|
  {
    if ls == [] then [] else LineText(ls[0], k) + Texts(ls[1..], k)
  }

  lemma Snoc(ss: seq<Section>, s: Section, k: Kind)
    ensures Collected(ss + [s], k) == Collected(ss, k) + Part(s, k)
  {
    assert (ss + [s])[..|ss|] == ss;
  }

  /** Everything of one kind the state holds, pushed or not. */
  function Pending(st: ParseState, k: Kind): seq<string> {
    Collected(st.sections, k) + Part(st.current, k)
  }

  predicate HeadingNonEmpty(st: ParseState) {
    st.current.heading.Some? ==> st.current.heading.value != ""
  }

  /** The conditional push loses nothing: it drops only a section with no text at all. */
  lemma FlushKeeps(st: ParseState, k: Kind)
    requires HeadingNonEmpty(st)
    ensures Collected(Flush(st), k) == Pending(st, k)
  {
    Snoc(st.sections, st.current, k);
  }

  lemma StepKeeps(st: ParseState, l: Line, k: Kind)
    requires HeadingNonEmpty(st) && LineOk(l)
    ensures HeadingNonEmpty(Step(st, l))
    ensures Pending(Step(st, l), k) == Pending(st, k) + LineText(l, k)
  {
    match l
    case Blank =>
    case HeadingLine(h) =>
      FlushKeeps(st, k);
    case BulletLine(b) =>
      if k == Bullets {
        assert Pending(Step(st, l), k) == Collected(st.sections, k) + (st.current.bullets + [b]);
      }
    case ParagraphLine(p) =>
      if k == Paragraphs {
        assert Pending(Step(st, l), k) == Collected(st.sections, k) + (st.current.paragraphs + [p]);
      }
  }

  lemma {:induction false} FoldKeeps(st: ParseState, ls: seq<Line>, k: Kind)
    requires HeadingNonEmpty(st) && AllOk(ls)
    ensures HeadingNonEmpty(Fold(st, ls))
    ensures Pending(Fold(st, ls), k) == Pending(st, k) + Texts(ls, k)
    decreases |ls|
  {
    if ls != [] {
      var l, rest := ls[0], ls[1..];
      assert LineOk(l) && AllOk(rest);
      var st' := Step(st, l);
      StepKeeps(st, l, k);
      FoldKeeps(st', rest, k);
      assert Fold(st, ls) == Fold(st', rest);
      assert Texts(ls, k) == LineText(l, k) + Texts(rest, k);
      assert Pending(st', k) + Texts(rest, k) == Pending(st, k) + (LineText(l, k) + Texts(rest, k));
    }
  }

  /** The paragraphs, the bullets and the headings of the result are exactly
      the lines classified as such, in input order. */
  lemma GroupKeepsLines(ls: seq<Line>, k: Kind)
    requires AllOk(ls)
    ensures Collected(Group(ls), k) == Texts(ls, k)
  {
    FoldKeeps(ParseState([], Fresh), ls, k);
    FlushKeeps(Fold(ParseState([], Fresh), ls), k);
  }

  lemma ParseKeepsLines(desc: string, k: Kind)
    ensures Collected(Parse(desc), k) == Texts(Lines(desc), k)
  {
    LinesOk(desc);
    GroupKeepsLines(Lines(desc), k);
  }

  /** The number of lines that are neither blank nor headings. */
  function BodyLineCount(ls: seq<Line>): nat
    decreases |ls|
  {
    if ls == [] then 0
    else (if ls[0].ParagraphLine? || ls[0].BulletLine? then 1 else 0) + BodyLineCount(ls[1..])
  }

  lemma {:induction false} BodyLineCountSplits(ls: seq<Line>)
    ensures BodyLineCount(ls) == |Texts(ls, Paragraphs)| + |Texts(ls, Bullets)|
    decreases |ls|
  {
    if ls != [] {
      BodyLineCountSplits(ls[1..]);
    }
  }

  /** The paragraphs and bullets of all sections together are as many as the
      non-blank lines that are not headings. */
  lemma ParseCountsBodyLines(desc: string)
    ensures |Collected(Parse(desc), Paragraphs)| + |Collected(Parse(desc), Bullets)| == BodyLineCount(Lines(desc))
  {
    ParseKeepsLines(desc, Paragraphs);
    ParseKeepsLines(desc, Bullets);
    BodyLineCountSplits(Lines(desc));
  }
}
