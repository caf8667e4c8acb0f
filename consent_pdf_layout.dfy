/**
 * The page geometry of the consent PDF as pure functions over a cursor: the
 * pages drawn so far (each a list of drawing operations) and the vertical
 * position `yPos` of the next baseline. Every drawing helper of the
 * generator has a function here, and `ConsentPdfEngine.Layout` implements
 * them with the mutable `pages` and `yPos` of the source.
 *
 * Coordinates are PDF points with the origin at the bottom left of the page,
 * so moving down the page lowers `y`.
 */
module ConsentPdfLayout {
  import opened Wrappers
  import opened JsText
  import opened ConsentPdfText
  import opened ConsentPdfSections

  const PAGE_WIDTH: int := 612
  const PAGE_HEIGHT: int := 792
  const MARGIN: int := 54
  const CONTENT_WIDTH: int := PAGE_WIDTH - MARGIN * 2
  const FOOTER_HEIGHT: int := 50
  /** Where a fresh page puts the cursor: `PAGE_HEIGHT - MARGIN`. */
  const TOP: int := PAGE_HEIGHT - MARGIN
  /** The lowest baseline `ensureSpace` leaves room for: `MARGIN + FOOTER_HEIGHT`. */
  const FLOOR: int := MARGIN + FOOTER_HEIGHT

  datatype Font = Helvetica | HelveticaBold | TimesRoman | TimesItalic

  /** One call into the PDF library; colours, opacity and line thickness are not modelled. */
  datatype DrawOp =
    | Text(text: string, x: int, y: int, size: nat, font: Font)
    | Rect(x: int, y: int, w: int, h: int)
    | Rule(y: int)

  /** The pages of a document, each a list of drawing operations; there is always a current page. */
  type Pages = ps: seq<seq<DrawOp>> | |ps| >= 1 witness [[]]

  datatype Cursor = Cursor(pages: Pages, y: int)

  /** The font measurements the layout consults: the width of body text
      (Times Roman at 10pt), of a label (Helvetica Bold at 9pt), and the
      offset of a box title above the bottom of its header bar. */
  datatype Metrics = Metrics(bodyWidth: string -> nat, labelWidth: string -> nat, titleRise: int)

  /** The state of a new document: one empty page, cursor at the top margin. */
  const Start: Cursor := Cursor([[]], TOP)

  /** The cursor `d` points lower, nothing drawn. */
  function Down(c: Cursor, d: int): Cursor {
    Cursor(c.pages, c.y - d)
  }

  /** Draws `ops` on the current (last) page. */
  function Put(ps: Pages, ops: seq<DrawOp>): Pages {
    ps[..|ps| - 1] + [ps[|ps| - 1] + ops]
  }

  /** `ensureSpace(needed)`: a new page when the next `needed` points would reach the footer. */
  function EnsureSpace(c: Cursor, needed: int): Cursor {
    if c.y - needed < FLOOR then Cursor(c.pages + [[]], TOP) else c
  }

  /** After `ensureSpace(needed)` the cursor has `needed` points above the footer
      (for any `needed` a fresh page can hold); nothing changes when it already had
      them, and otherwise exactly one empty page is added. */
  lemma EnsureSpaceMakesRoom(c: Cursor, needed: int)
    ensures needed <= TOP - FLOOR ==> EnsureSpace(c, needed).y - needed >= FLOOR
    ensures c.y - needed >= FLOOR ==> EnsureSpace(c, needed) == c
    ensures c.y - needed < FLOOR ==>
      (EnsureSpace(c, needed).pages == c.pages + [[]] && EnsureSpace(c, needed).y == TOP)
  {
  }

  // ---------------------------------------------------------------------
  // Lines of text: the loops of drawParagraph and drawBullet
  // ---------------------------------------------------------------------

  /** The operations of one row: the bullet glyph when asked for, then the line. */
  function RowOps(line: string, y: int, textX: int, glyphX: Option<int>): seq<DrawOp> {
    (if glyphX.Some? then [Text("•", glyphX.value, y, 10, Helvetica)] else [])
    + [Text(line, textX, y, 10, TimesRoman)]
  }

  /** `lines` drawn one per row, each row guarded by `ensureSpace(14)` and
      followed by a 14-point step; the glyph, if any, goes with the first row. */
  function Rows(c: Cursor, lines: seq<string>, textX: int, glyphX: Option<int>): Cursor
    decreases |lines|
  {
    if lines == [] then c else Rows(RowStep(c, lines[0], textX, glyphX), lines[1..], textX, None)
  }

  /** One row: room for it, the row, and 14 points down. */
  function RowStep(c: Cursor, line: string, textX: int, glyphX: Option<int>): Cursor {
    var c1 := EnsureSpace(c, 14);
    Cursor(Put(c1.pages, RowOps(line, c1.y, textX, glyphX)), c1.y - 14)
  }

  /** The rows as they come out when no page break intervenes, from baseline `y` down. */
  function Stacked(lines: seq<string>, y: int, textX: int, glyphX: Option<int>): seq<DrawOp>
    decreases |lines|
  {
    if lines == [] then [] else RowOps(lines[0], y, textX, glyphX) + Stacked(lines[1..], y - 14, textX, None)
  }

  /** Unbroken rows: the glyph only before the first line, every line at
      `textX`, each 14 points below the one before. */
  lemma {:induction false} StackedShape(lines: seq<string>, y: int, textX: int, glyphX: Option<int>)
    ensures var s := Stacked(lines, y, textX, glyphX);
      var off := if glyphX.Some? && lines != [] then 1 else 0;
      |s| == |lines| + off
      && (off == 1 ==> s[0] == Text("•", glyphX.value, y, 10, Helvetica))
      && forall i :: 0 <= i < |lines| ==> s[off + i] == Text(lines[i], textX, y - 14 * i, 10, TimesRoman)
    decreases |lines|
  {
    if lines != [] {
      var s := Stacked(lines, y, textX, glyphX);
      var rest := Stacked(lines[1..], y - 14, textX, None);
      var head := RowOps(lines[0], y, textX, glyphX);
      StackedShape(lines[1..], y - 14, textX, None);
      assert s == head + rest;
      var off := if glyphX.Some? then 1 else 0;
      assert |head| == off + 1;
      forall i | 0 <= i < |lines| ensures s[off + i] == Text(lines[i], textX, y - 14 * i, 10, TimesRoman) {
        if i > 0 {
          assert s[off + i] == rest[i - 1];
          assert lines[1..][i - 1] == lines[i];
        }
      }
    }
  }

  lemma PutNothing(ps: Pages)
    ensures Put(ps, []) == ps
  {
    assert ps[|ps| - 1] + [] == ps[|ps| - 1];
    assert ps == ps[..|ps| - 1] + [ps[|ps| - 1]];
  }

  lemma PutPut(ps: Pages, a: seq<DrawOp>, b: seq<DrawOp>)
    ensures Put(Put(ps, a), b) == Put(ps, a + b)
  {
    var q := Put(ps, a);
    var last := ps[|ps| - 1];
    assert q[..|q| - 1] == ps[..|ps| - 1];
    assert q[|q| - 1] == last + a;
    assert (last + a) + b == last + (a + b);
  }

  /** When the rows fit above the footer, they all go on the current page,
      exactly as `Stacked`, and the cursor drops by 14 points per line. */
  lemma {:induction false} RowsNoBreak(c: Cursor, lines: seq<string>, textX: int, glyphX: Option<int>)
    requires c.y - 14 * |lines| >= FLOOR
    ensures Rows(c, lines, textX, glyphX) == Cursor(Put(c.pages, Stacked(lines, c.y, textX, glyphX)), c.y - 14 * |lines|)
    decreases |lines|
  {
    if lines == [] {
      PutNothing(c.pages);
    } else {
      assert EnsureSpace(c, 14) == c;
      var head := RowOps(lines[0], c.y, textX, glyphX);
      var next := Cursor(Put(c.pages, head), c.y - 14);
      RowsNoBreak(next, lines[1..], textX, None);
      PutPut(c.pages, head, Stacked(lines[1..], c.y - 14, textX, None));
    }
  }

  /** Each row can open at most one page. */
  lemma {:induction false} RowsPageCount(c: Cursor, lines: seq<string>, textX: int, glyphX: Option<int>)
    ensures |c.pages| <= |Rows(c, lines, textX, glyphX).pages| <= |c.pages| + |lines|
    decreases |lines|
  {
    if lines != [] {
      var c1 := EnsureSpace(c, 14);
      RowsPageCount(Cursor(Put(c1.pages, RowOps(lines[0], c1.y, textX, glyphX)), c1.y - 14), lines[1..], textX, None);
    }
  }

  // ---------------------------------------------------------------------
  // What is drawn, in order, with the vertical placement forgotten
  // ---------------------------------------------------------------------

  /** Every operation of every page, page after page. */
  function Flat(ps: seq<seq<DrawOp>>): seq<DrawOp>
    decreases |ps|
  {
    if ps == [] then [] else Flat(ps[..|ps| - 1]) + ps[|ps| - 1]
  }

  /** An operation with its vertical placement (baseline, box bottom and height) forgotten. */
  function Erase(op: DrawOp): DrawOp {
    match op
    case Text(t, x, _, size, font) => Text(t, x, 0, size, font)
    case Rect(x, _, w, _) => Rect(x, 0, w, 0)
    case Rule(_) => Rule(0)
  }

  function Unplaced(ops: seq<DrawOp>): (r: seq<DrawOp>)
    ensures |r| == |ops| && forall i :: 0 <= i < |ops| ==> r[i] == Erase(ops[i])
  {
    seq(|ops|, i requires 0 <= i < |ops| => Erase(ops[i]))
  }

  lemma UnplacedAppend(a: seq<DrawOp>, b: seq<DrawOp>)
    ensures Unplaced(a + b) == Unplaced(a) + Unplaced(b)
  {
  }

  lemma Assoc(x: seq<DrawOp>, a: seq<DrawOp>, b: seq<DrawOp>)
    ensures x + a + b == x + (a + b)
  {
  }

  /** Everything drawn so far, in drawing order, wherever it landed. */
  function Drawn(c: Cursor): seq<DrawOp> {
    Unplaced(Flat(c.pages))
  }

  lemma DrawnPut(c: Cursor, ops: seq<DrawOp>, y: int)
    ensures Drawn(Cursor(Put(c.pages, ops), y)) == Drawn(c) + Unplaced(ops)
  {
    var ps := c.pages;
    var q := Put(ps, ops);
    assert q[..|q| - 1] == ps[..|ps| - 1];
    assert ps == ps[..|ps| - 1] + [ps[|ps| - 1]];
    assert Flat(q) == Flat(ps[..|ps| - 1]) + (ps[|ps| - 1] + ops);
    assert Flat(ps) == Flat(ps[..|ps| - 1]) + ps[|ps| - 1];
    UnplacedAppend(Flat(ps), ops);
  }

  lemma DrawnEnsureSpace(c: Cursor, needed: int)
    ensures Drawn(EnsureSpace(c, needed)) == Drawn(c)
  {
    var ps := c.pages + [[]];
    assert ps[..|ps| - 1] == c.pages;
  }

  /** What `Rows` draws, whatever the page breaks. */
  function RowsScript(lines: seq<string>, textX: int, glyphX: Option<int>): seq<DrawOp> {
    Unplaced(Stacked(lines, 0, textX, glyphX))
  }

  lemma {:induction false} UnplacedStacked(lines: seq<string>, y: int, textX: int, glyphX: Option<int>)
    ensures Unplaced(Stacked(lines, y, textX, glyphX)) == RowsScript(lines, textX, glyphX)
    decreases |lines|
  {
    if lines != [] {
      UnplacedStacked(lines[1..], y - 14, textX, None);
      UnplacedStacked(lines[1..], -14, textX, None);
      UnplacedAppend(RowOps(lines[0], y, textX, glyphX), Stacked(lines[1..], y - 14, textX, None));
      UnplacedAppend(RowOps(lines[0], 0, textX, glyphX), Stacked(lines[1..], -14, textX, None));
    }
  }

  lemma UnplacedRowOps(line: string, y: int, textX: int, glyphX: Option<int>)
    ensures Unplaced(RowOps(line, y, textX, glyphX)) == Unplaced(RowOps(line, 0, textX, glyphX))
  {
  }

  lemma RowsScriptCons(lines: seq<string>, textX: int, glyphX: Option<int>)
    requires lines != []
    ensures RowsScript(lines, textX, glyphX)
         == Unplaced(RowOps(lines[0], 0, textX, glyphX)) + RowsScript(lines[1..], textX, None)
  {
    UnplacedStacked(lines[1..], -14, textX, None);
    UnplacedAppend(RowOps(lines[0], 0, textX, glyphX), Stacked(lines[1..], -14, textX, None));
  }

  /** Page breaks never lose, repeat or reorder a row: the rows come out as
      they would on one long page. */
  lemma {:induction false} RowsDraws(c: Cursor, lines: seq<string>, textX: int, glyphX: Option<int>)
    ensures Drawn(Rows(c, lines, textX, glyphX)) == Drawn(c) + RowsScript(lines, textX, glyphX)
    decreases |lines|
  {
    if lines == [] {
      assert RowsScript(lines, textX, glyphX) == [];
    } else {
      var c1 := EnsureSpace(c, 14);
      var head := RowOps(lines[0], c1.y, textX, glyphX);
      var next := Cursor(Put(c1.pages, head), c1.y - 14);
      var a, b := Unplaced(RowOps(lines[0], 0, textX, glyphX)), RowsScript(lines[1..], textX, None);
      assert Drawn(next) == Drawn(c) + a by {
        DrawnPut(c1, head, c1.y - 14);
        DrawnEnsureSpace(c, 14);
        UnplacedRowOps(lines[0], c1.y, textX, glyphX);
      }
      RowsDraws(next, lines[1..], textX, None);
      RowsScriptCons(lines, textX, glyphX);
      Assoc(Drawn(c), a, b);
    }
  }

  // ---------------------------------------------------------------------
  // The footer zone: no text of the content goes below FLOOR
  // ---------------------------------------------------------------------

  predicate OpsAbove(ops: seq<DrawOp>, floor: int) {
    forall k :: 0 <= k < |ops| && ops[k].Text? ==> ops[k].y >= floor
  }

  /** Every text baseline on every page is at or above FLOOR, clear of the footer. */
  predicate TextFloor(ps: seq<seq<DrawOp>>) {
    forall p :: 0 <= p < |ps| ==> OpsAbove(ps[p], FLOOR)
  }

  lemma PutFloor(ps: Pages, ops: seq<DrawOp>)
    requires TextFloor(ps) && OpsAbove(ops, FLOOR)
    ensures TextFloor(Put(ps, ops))
  {
    var q := Put(ps, ops);
    forall p | 0 <= p < |q| ensures OpsAbove(q[p], FLOOR) {
      if p == |q| - 1 {
        var last := ps[|ps| - 1];
        assert OpsAbove(last, FLOOR);
        assert q[p] == last + ops;
        forall k | 0 <= k < |q[p]| && q[p][k].Text? ensures q[p][k].y >= FLOOR {
          if k < |last| { assert q[p][k] == last[k]; } else { assert q[p][k] == ops[k - |last|]; }
        }
      } else {
        assert q[p] == ps[p];
      }
    }
  }

  lemma EnsureSpaceFloor(c: Cursor, needed: int)
    requires TextFloor(c.pages)
    ensures TextFloor(EnsureSpace(c, needed).pages)
  {
    var ps := c.pages + [[]];
    assert forall p :: 0 <= p < |c.pages| ==> ps[p] == c.pages[p];
  }

  lemma {:induction false} RowsFloor(c: Cursor, lines: seq<string>, textX: int, glyphX: Option<int>)
    requires TextFloor(c.pages)
    ensures TextFloor(Rows(c, lines, textX, glyphX).pages)
    decreases |lines|
  {
    if lines != [] {
      var c1 := EnsureSpace(c, 14);
      EnsureSpaceFloor(c, 14);
      var head := RowOps(lines[0], c1.y, textX, glyphX);
      PutFloor(c1.pages, head);
      RowsFloor(Cursor(Put(c1.pages, head), c1.y - 14), lines[1..], textX, None);
    }
  }

  // ---------------------------------------------------------------------
  // Drawing without a page break stays between the old and the new cursor
  // ---------------------------------------------------------------------

  /** `r` continues `c` on the same page: earlier pages untouched, the current page only extended. */
  predicate Grows(c: Cursor, r: Cursor) {
    var n := |c.pages|;
    |r.pages| == n && r.pages[..n - 1] == c.pages[..n - 1] && c.pages[n - 1] <= r.pages[n - 1]
  }

  function NewOps(c: Cursor, r: Cursor): seq<DrawOp>
    requires Grows(c, r)
  {
    r.pages[|c.pages| - 1][|c.pages[|c.pages| - 1]|..]
  }

  predicate TextsWithin(ops: seq<DrawOp>, lo: int, hi: int) {
    forall k :: 0 <= k < |ops| && ops[k].Text? ==> lo < ops[k].y <= hi
  }

  /** From `c` to `r` without a page break, every text drawn has its baseline
      at most at the old cursor and strictly above the new one. */
  predicate Local(c: Cursor, r: Cursor) {
    Grows(c, r) && r.y <= c.y && TextsWithin(NewOps(c, r), r.y, c.y)
  }

  lemma LocalRefl(c: Cursor)
    ensures Local(c, c)
  {
    assert NewOps(c, c) == [];
  }

  lemma LocalPut(c: Cursor, ops: seq<DrawOp>, y: int)
    requires y <= c.y && TextsWithin(ops, y, c.y)
    ensures Local(c, Cursor(Put(c.pages, ops), y))
  {
    var r := Cursor(Put(c.pages, ops), y);
    var n := |c.pages|;
    assert r.pages[n - 1] == c.pages[n - 1] + ops;
    assert NewOps(c, r) == ops;
  }

  lemma LocalTrans(c: Cursor, r1: Cursor, r2: Cursor)
    requires Local(c, r1) && Local(r1, r2)
    ensures Local(c, r2)
  {
    var n := |c.pages|;
    var a, b := NewOps(c, r1), NewOps(r1, r2);
    assert r1.pages[n - 1] == c.pages[n - 1] + a;
    assert r2.pages[n - 1] == r1.pages[n - 1] + b;
    assert r2.pages[..n - 1] == c.pages[..n - 1];
    assert NewOps(c, r2) == a + b;
    forall k | 0 <= k < |a + b| && (a + b)[k].Text? ensures r2.y < (a + b)[k].y <= c.y {
      if k < |a| { assert (a + b)[k] == a[k]; } else { assert (a + b)[k] == b[k - |a|]; }
    }
  }

  /** Drawing never removes a page; with no page added, it stayed local. */
  predicate Advances(c: Cursor, r: Cursor) {
    |r.pages| >= |c.pages| && (|r.pages| == |c.pages| ==> Local(c, r))
  }

  lemma AdvancesTrans(c: Cursor, r1: Cursor, r2: Cursor)
    requires Advances(c, r1) && Advances(r1, r2)
    ensures Advances(c, r2)
  {
    if |r2.pages| == |c.pages| {
      LocalTrans(c, r1, r2);
    }
  }

  lemma EnsureSpaceAdvances(c: Cursor, needed: int)
    ensures Advances(c, EnsureSpace(c, needed))
  {
    LocalRefl(c);
  }

  lemma {:induction false} RowsAdvance(c: Cursor, lines: seq<string>, textX: int, glyphX: Option<int>)
    ensures Advances(c, Rows(c, lines, textX, glyphX))
    decreases |lines|
  {
    if lines == [] {
      LocalRefl(c);
    } else {
      var c1 := EnsureSpace(c, 14);
      var head := RowOps(lines[0], c1.y, textX, glyphX);
      var next := Cursor(Put(c1.pages, head), c1.y - 14);
      EnsureSpaceAdvances(c, 14);
      LocalPut(c1, head, c1.y - 14);
      AdvancesTrans(c, c1, next);
      RowsAdvance(next, lines[1..], textX, None);
      AdvancesTrans(c, next, Rows(next, lines[1..], textX, None));
    }
  }

  /** Lowering the cursor further keeps a step local. */
  lemma AdvancesLower(c: Cursor, r: Cursor, d: nat)
    requires Advances(c, r)
    ensures Advances(c, Cursor(r.pages, r.y - d))
  {
    if |r.pages| == |c.pages| {
      var r2 := Cursor(r.pages, r.y - d);
      assert NewOps(c, r2) == NewOps(c, r);
    }
  }

  // ---------------------------------------------------------------------
  // The drawing primitives
  // ---------------------------------------------------------------------

  function ParagraphLines(m: Metrics, text: string, indent: int): seq<string> {
    WrapLines(text, m.bodyWidth, CONTENT_WIDTH - 16 - indent)
  }

  function BulletLines(m: Metrics, text: string, indent: int): seq<string> {
    WrapLines(text, m.bodyWidth, CONTENT_WIDTH - 24 - indent)
  }

  /** `drawParagraph(text, indent)`: the wrapped lines in Times Roman, then a 4-point gap. */
  function Paragraph(c: Cursor, m: Metrics, text: string, indent: int): Cursor {
    Down(Rows(c, ParagraphLines(m, text, indent), MARGIN + 8 + indent, None), 4)
  }

  /** `drawBullet(text, indent)`: a glyph at `bulletX` beside the first line, the lines at `bulletX + 12`. */
  function Bullet(c: Cursor, m: Metrics, text: string, indent: int): Cursor {
    Rows(c, BulletLines(m, text, indent), MARGIN + 8 + indent + 12, Some(MARGIN + 8 + indent))
  }

  function LabelOps(m: Metrics, caption: string, value: string, indent: int, y: int): seq<DrawOp> {
    [Text(caption, MARGIN + 8 + indent, y, 9, HelveticaBold),
     Text(value, MARGIN + 8 + indent + m.labelWidth(caption) + 6, y, 10, Helvetica)]
  }

  /** `drawLabelValue(caption, value, indent)`: the value 6 points right of the measured caption. */
  function LabelValue(c: Cursor, m: Metrics, caption: string, value: string, indent: int): Cursor {
    var c1 := EnsureSpace(c, 16);
    Cursor(Put(c1.pages, LabelOps(m, caption, value, indent, c1.y)), c1.y - 16)
  }

  /** `drawSubheading(text)`. */
  function Subheading(c: Cursor, text: string): Cursor {
    var c1 := EnsureSpace(c, 24);
    var y := c1.y - 6;
    Cursor(Put(c1.pages, [Text(text, MARGIN + 8, y, 11, HelveticaBold)]), y - 16)
  }

  /** `ops` is a column of body-text lines at `x`, the first at baseline `y`, 14 points apart. */
  predicate Column(ops: seq<DrawOp>, lines: seq<string>, x: int, y: int) {
    |ops| == |lines| && forall i :: 0 <= i < |lines| ==> ops[i] == Text(lines[i], x, y - 14 * i, 10, TimesRoman)
  }

  /** Unbroken plain rows form a column. */
  lemma PlainColumn(lines: seq<string>, y: int, textX: int)
    ensures Column(Stacked(lines, y, textX, None), lines, textX, y)
  {
    StackedShape(lines, y, textX, None);
  }

  /** Unbroken bulleted rows: the glyph once, before the first line, then a column. */
  lemma GlyphFirst(lines: seq<string>, y: int, textX: int, bulletX: int)
    requires lines != []
    ensures var s := Stacked(lines, y, textX, Some(bulletX));
      s != [] && s[0] == Text("•", bulletX, y, 10, Helvetica) && Column(s[1..], lines, textX, y)
  {
    var s := Stacked(lines, y, textX, Some(bulletX));
    StackedShape(lines, y, textX, Some(bulletX));
    assert forall i :: 0 <= i < |lines| ==> s[1..][i] == s[1 + i];
  }

  /** Without a page break a paragraph lowers the cursor by 14 points per
      wrapped line plus a 4-point gap, its lines stacked from the cursor down
      at `MARGIN + 8 + indent` (a column, by `PlainColumn`). */
  lemma ParagraphNoBreak(c: Cursor, m: Metrics, text: string, indent: int, lines: seq<string>)
    requires lines == ParagraphLines(m, text, indent)
    requires c.y - 14 * |lines| >= FLOOR
    ensures Paragraph(c, m, text, indent)
         == Cursor(Put(c.pages, Stacked(lines, c.y, MARGIN + 8 + indent, None)), c.y - 14 * |lines| - 4)
  {
    RowsNoBreak(c, lines, MARGIN + 8 + indent, None);
  }

  /** Without a page break a bullet lowers the cursor by exactly 14 points
      per line, with no gap after; its rows are stacked from the cursor down,
      the glyph at `bulletX` and the text at `bulletX + 12` (by `GlyphFirst`,
      the glyph only beside the first line). */
  lemma BulletNoBreak(c: Cursor, m: Metrics, text: string, indent: int, lines: seq<string>)
    requires lines == BulletLines(m, text, indent)
    requires c.y - 14 * |lines| >= FLOOR
    ensures Bullet(c, m, text, indent)
         == Cursor(Put(c.pages, Stacked(lines, c.y, MARGIN + 8 + indent + 12, Some(MARGIN + 8 + indent))), c.y - 14 * |lines|)
  {
    RowsNoBreak(c, lines, MARGIN + 20 + indent, Some(MARGIN + 8 + indent));
  }

  function ParagraphScript(m: Metrics, text: string, indent: int): seq<DrawOp> {
    RowsScript(ParagraphLines(m, text, indent), MARGIN + 8 + indent, None)
  }

  function BulletScript(m: Metrics, text: string, indent: int): seq<DrawOp> {
    RowsScript(BulletLines(m, text, indent), MARGIN + 20 + indent, Some(MARGIN + 8 + indent))
  }

  function LabelScript(m: Metrics, caption: string, value: string, indent: int): seq<DrawOp> {
    Unplaced(LabelOps(m, caption, value, indent, 0))
  }

  function SubheadingScript(text: string): seq<DrawOp> {
    [Text(text, MARGIN + 8, 0, 11, HelveticaBold)]
  }

  lemma ParagraphDraws(c: Cursor, m: Metrics, text: string, indent: int)
    ensures Drawn(Paragraph(c, m, text, indent)) == Drawn(c) + ParagraphScript(m, text, indent)
  {
    RowsDraws(c, ParagraphLines(m, text, indent), MARGIN + 8 + indent, None);
  }

  lemma BulletDraws(c: Cursor, m: Metrics, text: string, indent: int)
    ensures Drawn(Bullet(c, m, text, indent)) == Drawn(c) + BulletScript(m, text, indent)
  {
    RowsDraws(c, BulletLines(m, text, indent), MARGIN + 20 + indent, Some(MARGIN + 8 + indent));
  }

  lemma LabelValueDraws(c: Cursor, m: Metrics, caption: string, value: string, indent: int)
    ensures Drawn(LabelValue(c, m, caption, value, indent)) == Drawn(c) + LabelScript(m, caption, value, indent)
  {
    var c1 := EnsureSpace(c, 16);
    DrawnEnsureSpace(c, 16);
    DrawnPut(c1, LabelOps(m, caption, value, indent, c1.y), c1.y - 16);
  }

  lemma SubheadingDraws(c: Cursor, text: string)
    ensures Drawn(Subheading(c, text)) == Drawn(c) + SubheadingScript(text)
  {
    var c1 := EnsureSpace(c, 24);
    DrawnEnsureSpace(c, 24);
    DrawnPut(c1, [Text(text, MARGIN + 8, c1.y - 6, 11, HelveticaBold)], c1.y - 22);
  }

  lemma ParagraphFloor(c: Cursor, m: Metrics, text: string, indent: int)
    requires TextFloor(c.pages)
    ensures TextFloor(Paragraph(c, m, text, indent).pages)
  {
    RowsFloor(c, ParagraphLines(m, text, indent), MARGIN + 8 + indent, None);
  }

  lemma BulletFloor(c: Cursor, m: Metrics, text: string, indent: int)
    requires TextFloor(c.pages)
    ensures TextFloor(Bullet(c, m, text, indent).pages)
  {
    RowsFloor(c, BulletLines(m, text, indent), MARGIN + 20 + indent, Some(MARGIN + 8 + indent));
  }

  lemma LabelValueFloor(c: Cursor, m: Metrics, caption: string, value: string, indent: int)
    requires TextFloor(c.pages)
    ensures TextFloor(LabelValue(c, m, caption, value, indent).pages)
  {
    var c1 := EnsureSpace(c, 16);
    EnsureSpaceFloor(c, 16);
    PutFloor(c1.pages, LabelOps(m, caption, value, indent, c1.y));
  }

  lemma SubheadingFloor(c: Cursor, text: string)
    requires TextFloor(c.pages)
    ensures TextFloor(Subheading(c, text).pages)
  {
    var c1 := EnsureSpace(c, 24);
    EnsureSpaceFloor(c, 24);
    PutFloor(c1.pages, [Text(text, MARGIN + 8, c1.y - 6, 11, HelveticaBold)]);
  }

  lemma ParagraphAdvances(c: Cursor, m: Metrics, text: string, indent: int)
    ensures Advances(c, Paragraph(c, m, text, indent))
  {
    var r := Rows(c, ParagraphLines(m, text, indent), MARGIN + 8 + indent, None);
    RowsAdvance(c, ParagraphLines(m, text, indent), MARGIN + 8 + indent, None);
    AdvancesLower(c, r, 4);
  }

  lemma BulletAdvances(c: Cursor, m: Metrics, text: string, indent: int)
    ensures Advances(c, Bullet(c, m, text, indent))
  {
    RowsAdvance(c, BulletLines(m, text, indent), MARGIN + 20 + indent, Some(MARGIN + 8 + indent));
  }

  lemma LabelValueAdvances(c: Cursor, m: Metrics, caption: string, value: string, indent: int)
    ensures Advances(c, LabelValue(c, m, caption, value, indent))
  {
    var c1 := EnsureSpace(c, 16);
    EnsureSpaceAdvances(c, 16);
    LocalPut(c1, LabelOps(m, caption, value, indent, c1.y), c1.y - 16);
    AdvancesTrans(c, c1, LabelValue(c, m, caption, value, indent));
  }

  lemma SubheadingAdvances(c: Cursor, text: string)
    ensures Advances(c, Subheading(c, text))
  {
    var c1 := EnsureSpace(c, 24);
    EnsureSpaceAdvances(c, 24);
    LocalPut(c1, [Text(text, MARGIN + 8, c1.y - 6, 11, HelveticaBold)], c1.y - 22);
    AdvancesTrans(c, c1, Subheading(c, text));
  }

  // ---------------------------------------------------------------------
  // The consent text: sections of subheading, paragraphs and bullets
  // ---------------------------------------------------------------------

  function Paragraphs(c: Cursor, m: Metrics, ps: seq<string>): Cursor
    decreases |ps|
  {
    if ps == [] then c else Paragraphs(Paragraph(c, m, ps[0], 0), m, ps[1..])
  }

  function Bullets(c: Cursor, m: Metrics, bs: seq<string>): Cursor
    decreases |bs|
  {
    if bs == [] then c else Bullets(Bullet(c, m, bs[0], 0), m, bs[1..])
  }

  /** One parsed section: its subheading when the heading is non-empty, its
      paragraphs, then its bullets. */
  function SectionBlock(c: Cursor, m: Metrics, sec: Section): Cursor {
    var c1 := if Truthy(sec.heading) then Subheading(c, sec.heading.value) else c;
    Bullets(Paragraphs(c1, m, sec.paragraphs), m, sec.bullets)
  }

  function SectionBlocks(c: Cursor, m: Metrics, ss: seq<Section>): Cursor
    decreases |ss|
  {
    if ss == [] then c else SectionBlocks(SectionBlock(c, m, ss[0]), m, ss[1..])
  }

  function ParagraphsScript(m: Metrics, ps: seq<string>): seq<DrawOp>
    decreases |ps|
  {
    if ps == [] then [] else ParagraphScript(m, ps[0], 0) + ParagraphsScript(m, ps[1..])
  }

  function BulletsScript(m: Metrics, bs: seq<string>): seq<DrawOp>
    decreases |bs|
  {
    if bs == [] then [] else BulletScript(m, bs[0], 0) + BulletsScript(m, bs[1..])
  }

  function SectionScript(m: Metrics, sec: Section): seq<DrawOp> {
    (if Truthy(sec.heading) then SubheadingScript(sec.heading.value) else [])
    + ParagraphsScript(m, sec.paragraphs) + BulletsScript(m, sec.bullets)
  }

  function SectionsScript(m: Metrics, ss: seq<Section>): seq<DrawOp>
    decreases |ss|
  {
    if ss == [] then [] else SectionScript(m, ss[0]) + SectionsScript(m, ss[1..])
  }

  lemma {:induction false} ParagraphsDraw(c: Cursor, m: Metrics, ps: seq<string>)
    ensures Drawn(Paragraphs(c, m, ps)) == Drawn(c) + ParagraphsScript(m, ps)
    decreases |ps|
  {
    if ps != [] {
      ParagraphDraws(c, m, ps[0], 0);
      ParagraphsDraw(Paragraph(c, m, ps[0], 0), m, ps[1..]);
      var a, b := ParagraphScript(m, ps[0], 0), ParagraphsScript(m, ps[1..]);
      assert ParagraphsScript(m, ps) == a + b;
      Assoc(Drawn(c), a, b);
    }
  }

  lemma {:induction false} BulletsDraw(c: Cursor, m: Metrics, bs: seq<string>)
    ensures Drawn(Bullets(c, m, bs)) == Drawn(c) + BulletsScript(m, bs)
    decreases |bs|
  {
    if bs != [] {
      BulletDraws(c, m, bs[0], 0);
      BulletsDraw(Bullet(c, m, bs[0], 0), m, bs[1..]);
      var a, b := BulletScript(m, bs[0], 0), BulletsScript(m, bs[1..]);
      assert BulletsScript(m, bs) == a + b;
      Assoc(Drawn(c), a, b);
    }
  }

  lemma SectionBlockDraws(c: Cursor, m: Metrics, sec: Section)
    ensures Drawn(SectionBlock(c, m, sec)) == Drawn(c) + SectionScript(m, sec)
  {
    var c1 := if Truthy(sec.heading) then Subheading(c, sec.heading.value) else c;
    var head := if Truthy(sec.heading) then SubheadingScript(sec.heading.value) else [];
    if Truthy(sec.heading) {
      SubheadingDraws(c, sec.heading.value);
    } else {
      assert Drawn(c) + head == Drawn(c);
    }
    assert Drawn(c1) == Drawn(c) + head;
    var c2 := Paragraphs(c1, m, sec.paragraphs);
    var ps, bs := ParagraphsScript(m, sec.paragraphs), BulletsScript(m, sec.bullets);
    ParagraphsDraw(c1, m, sec.paragraphs);
    BulletsDraw(c2, m, sec.bullets);
    assert SectionBlock(c, m, sec) == Bullets(c2, m, sec.bullets);
    assert SectionScript(m, sec) == head + ps + bs;
    Assoc(Drawn(c), head, ps);
    Assoc(Drawn(c), head + ps, bs);
  }

  lemma {:induction false} SectionBlocksDraw(c: Cursor, m: Metrics, ss: seq<Section>)
    ensures Drawn(SectionBlocks(c, m, ss)) == Drawn(c) + SectionsScript(m, ss)
    decreases |ss|
  {
    if ss != [] {
      SectionBlockDraws(c, m, ss[0]);
      SectionBlocksDraw(SectionBlock(c, m, ss[0]), m, ss[1..]);
      var a, b := SectionScript(m, ss[0]), SectionsScript(m, ss[1..]);
      assert SectionsScript(m, ss) == a + b;
      Assoc(Drawn(c), a, b);
    }
  }

  lemma {:induction false} ParagraphsFloor(c: Cursor, m: Metrics, ps: seq<string>)
    requires TextFloor(c.pages)
    ensures TextFloor(Paragraphs(c, m, ps).pages)
    decreases |ps|
  {
    if ps != [] {
      ParagraphFloor(c, m, ps[0], 0);
      ParagraphsFloor(Paragraph(c, m, ps[0], 0), m, ps[1..]);
    }
  }

  lemma {:induction false} BulletsFloor(c: Cursor, m: Metrics, bs: seq<string>)
    requires TextFloor(c.pages)
    ensures TextFloor(Bullets(c, m, bs).pages)
    decreases |bs|
  {
    if bs != [] {
      BulletFloor(c, m, bs[0], 0);
      BulletsFloor(Bullet(c, m, bs[0], 0), m, bs[1..]);
    }
  }

  lemma SectionBlockFloor(c: Cursor, m: Metrics, sec: Section)
    requires TextFloor(c.pages)
    ensures TextFloor(SectionBlock(c, m, sec).pages)
  {
    var c1 := if Truthy(sec.heading) then Subheading(c, sec.heading.value) else c;
    if Truthy(sec.heading) {
      SubheadingFloor(c, sec.heading.value);
    }
    ParagraphsFloor(c1, m, sec.paragraphs);
    BulletsFloor(Paragraphs(c1, m, sec.paragraphs), m, sec.bullets);
  }

  lemma {:induction false} SectionBlocksFloor(c: Cursor, m: Metrics, ss: seq<Section>)
    requires TextFloor(c.pages)
    ensures TextFloor(SectionBlocks(c, m, ss).pages)
    decreases |ss|
  {
    if ss != [] {
      SectionBlockFloor(c, m, ss[0]);
      SectionBlocksFloor(SectionBlock(c, m, ss[0]), m, ss[1..]);
    }
  }

  lemma {:induction false} ParagraphsAdvance(c: Cursor, m: Metrics, ps: seq<string>)
    ensures Advances(c, Paragraphs(c, m, ps))
    decreases |ps|
  {
    if ps == [] {
      LocalRefl(c);
    } else {
      var c1 := Paragraph(c, m, ps[0], 0);
      ParagraphAdvances(c, m, ps[0], 0);
      ParagraphsAdvance(c1, m, ps[1..]);
      AdvancesTrans(c, c1, Paragraphs(c1, m, ps[1..]));
    }
  }

  lemma {:induction false} BulletsAdvance(c: Cursor, m: Metrics, bs: seq<string>)
    ensures Advances(c, Bullets(c, m, bs))
    decreases |bs|
  {
    if bs == [] {
      LocalRefl(c);
    } else {
      var c1 := Bullet(c, m, bs[0], 0);
      BulletAdvances(c, m, bs[0], 0);
      BulletsAdvance(c1, m, bs[1..]);
      AdvancesTrans(c, c1, Bullets(c1, m, bs[1..]));
    }
  }

  lemma SectionBlockAdvances(c: Cursor, m: Metrics, sec: Section)
    ensures Advances(c, SectionBlock(c, m, sec))
  {
    var c1 := if Truthy(sec.heading) then Subheading(c, sec.heading.value) else c;
    if Truthy(sec.heading) {
      SubheadingAdvances(c, sec.heading.value);
    } else {
      LocalRefl(c);
    }
    var c2 := Paragraphs(c1, m, sec.paragraphs);
    ParagraphsAdvance(c1, m, sec.paragraphs);
    BulletsAdvance(c2, m, sec.bullets);
    AdvancesTrans(c, c1, c2);
    AdvancesTrans(c, c2, Bullets(c2, m, sec.bullets));
  }

  lemma {:induction false} SectionBlocksAdvance(c: Cursor, m: Metrics, ss: seq<Section>)
    ensures Advances(c, SectionBlocks(c, m, ss))
    decreases |ss|
  {
    if ss == [] {
      LocalRefl(c);
    } else {
      var c1 := SectionBlock(c, m, ss[0]);
      SectionBlockAdvances(c, m, ss[0]);
      SectionBlocksAdvance(c1, m, ss[1..]);
      AdvancesTrans(c, c1, SectionBlocks(c1, m, ss[1..]));
    }
  }

  // ---------------------------------------------------------------------
  // Section boxes and what goes inside them
  // ---------------------------------------------------------------------

  /** The acknowledgment paragraph, verbatim. */
  const ACKNOWLEDGMENT: string :=
    "I have reviewed all consent materials and understand the information provided. I voluntarily agree to the procedure/treatment described and understand the risks, benefits, and alternatives."

  /** The content of each box the document draws, one constructor per box. */
  datatype BoxBody =
    | ProcedureBody(name: string)
    | PatientBody(name: string, email: string)
    | ConsentBody(description: string)
    | AcknowledgmentBody
    | SignatureBody(signature: string, signer: string, date: string, submissionId: string)

  /** The signature frame (280 by 44 points) and the signature in Times Italic 20, 30 points down. */
  function SignatureOps(signature: string, y: int): seq<DrawOp> {
    [Rect(MARGIN + 8, y - 44, 280, 44), Text(signature, MARGIN + 16, y - 30, 20, TimesItalic)]
  }

  function SubmissionIdOp(id: string, y: int): DrawOp {
    Text("Submission ID: " + id, MARGIN + 8, y, 8, Helvetica)
  }

  /** The frame and the signature, then 56 points down. */
  function SignatureFrame(c: Cursor, signature: string): Cursor {
    Cursor(Put(c.pages, SignatureOps(signature, c.y)), c.y - 56)
  }

  /** After a 4-point gap, the submission id in Helvetica 8, then 12 points down. */
  function SubmissionLine(c: Cursor, id: string): Cursor {
    Cursor(Put(c.pages, [SubmissionIdOp(id, c.y - 4)]), c.y - 16)
  }

  function SignatureBlock(c: Cursor, m: Metrics, signature: string, signer: string, date: string, id: string): Cursor {
    var c1 := SignatureFrame(c, signature);
    SubmissionLine(LabelValue(LabelValue(c1, m, "Signed by:", signer, 0), m, "Date:", date, 0), id)
  }

  /** What runs between the header bar and the border of a box. */
  function Body(c: Cursor, m: Metrics, body: BoxBody): Cursor {
    match body
    case ProcedureBody(name) => Cursor(Put(c.pages, [Text(name, MARGIN + 8, c.y, 14, HelveticaBold)]), c.y - 18)
    case PatientBody(name, email) => LabelValue(LabelValue(c, m, "Name:", name, 0), m, "Email:", email, 0)
    case ConsentBody(description) => SectionBlocks(c, m, Parse(description))
    case AcknowledgmentBody => Paragraph(c, m, ACKNOWLEDGMENT, 0)
    case SignatureBody(signature, signer, date, id) => SignatureBlock(c, m, signature, signer, date, id)
  }

  /** The 24-point header bar across the content width and its title. */
  function BoxHeader(m: Metrics, title: string, y: int): seq<DrawOp> {
    [Rect(MARGIN, y - 24, CONTENT_WIDTH, 24), Text(title, MARGIN + 10, y - 24 + m.titleRise, 10, HelveticaBold)]
  }

  /** `ensureSpace(60)`, the header bar, and the cursor 32 points lower: `startY`. */
  function BoxOpen(c: Cursor, m: Metrics, title: string): Cursor {
    var c1 := EnsureSpace(c, 60);
    Cursor(Put(c1.pages, BoxHeader(m, title, c1.y)), c1.y - 32)
  }

  /** The border drawn after the content: 10 points of padding below `endY`, 16 above `startY`. */
  function Border(startY: int, endY: int): DrawOp {
    Rect(MARGIN, endY - 10, CONTENT_WIDTH, startY - endY + 16 + 10)
  }

  /** `drawSectionBox(title, body)`. */
  function SectionBox(c: Cursor, m: Metrics, title: string, body: BoxBody): Cursor {
    var open := BoxOpen(c, m, title);
    var inner := Body(open, m, body);
    Cursor(Put(inner.pages, [Border(open.y, inner.y)]), inner.y - 16)
  }

  function BodyScript(m: Metrics, body: BoxBody): seq<DrawOp> {
    match body
    case ProcedureBody(name) => [Text(name, MARGIN + 8, 0, 14, HelveticaBold)]
    case PatientBody(name, email) => LabelScript(m, "Name:", name, 0) + LabelScript(m, "Email:", email, 0)
    case ConsentBody(description) => SectionsScript(m, Parse(description))
    case AcknowledgmentBody => ParagraphScript(m, ACKNOWLEDGMENT, 0)
    case SignatureBody(signature, signer, date, id) =>
      Unplaced(SignatureOps(signature, 0)) + LabelScript(m, "Signed by:", signer, 0)
      + LabelScript(m, "Date:", date, 0) + [SubmissionIdOp(id, 0)]
  }

  /** What a box draws: header bar and title, its content, then its border. */
  function BoxScript(m: Metrics, title: string, body: BoxBody): seq<DrawOp> {
    Unplaced(BoxHeader(m, title, 0)) + BodyScript(m, body) + [Rect(MARGIN, 0, CONTENT_WIDTH, 0)]
  }

  /** Two label/value rows, one after the other. */
  lemma LabelPairDraws(c: Cursor, m: Metrics, l1: string, v1: string, l2: string, v2: string)
    ensures Drawn(LabelValue(LabelValue(c, m, l1, v1, 0), m, l2, v2, 0))
         == Drawn(c) + (LabelScript(m, l1, v1, 0) + LabelScript(m, l2, v2, 0))
  {
    var c1 := LabelValue(c, m, l1, v1, 0);
    LabelValueDraws(c, m, l1, v1, 0);
    LabelValueDraws(c1, m, l2, v2, 0);
    Assoc(Drawn(c), LabelScript(m, l1, v1, 0), LabelScript(m, l2, v2, 0));
  }

  lemma SignatureFrameDraws(c: Cursor, signature: string)
    ensures Drawn(SignatureFrame(c, signature)) == Drawn(c) + Unplaced(SignatureOps(signature, 0))
  {
    DrawnPut(c, SignatureOps(signature, c.y), c.y - 56);
    assert Unplaced(SignatureOps(signature, c.y)) == Unplaced(SignatureOps(signature, 0));
  }

  lemma SubmissionLineDraws(c: Cursor, id: string)
    ensures Drawn(SubmissionLine(c, id)) == Drawn(c) + [SubmissionIdOp(id, 0)]
  {
    DrawnPut(c, [SubmissionIdOp(id, c.y - 4)], c.y - 16);
    assert Unplaced([SubmissionIdOp(id, c.y - 4)]) == [SubmissionIdOp(id, 0)];
  }

  lemma SignatureBlockDraws(c: Cursor, m: Metrics, signature: string, signer: string, date: string, id: string)
    ensures Drawn(SignatureBlock(c, m, signature, signer, date, id)) == Drawn(c) + BodyScript(m, SignatureBody(signature, signer, date, id))
  {
    var c1 := SignatureFrame(c, signature);
    var c3 := LabelValue(LabelValue(c1, m, "Signed by:", signer, 0), m, "Date:", date, 0);
    var a, b, d := Unplaced(SignatureOps(signature, 0)),
      LabelScript(m, "Signed by:", signer, 0) + LabelScript(m, "Date:", date, 0), [SubmissionIdOp(id, 0)];
    SignatureFrameDraws(c, signature);
    LabelPairDraws(c1, m, "Signed by:", signer, "Date:", date);
    SubmissionLineDraws(c3, id);
    Assoc(Drawn(c) + a, b, d);
    Assoc(Drawn(c), a, b + d);
    assert BodyScript(m, SignatureBody(signature, signer, date, id)) == a + (b + d);
  }

  lemma BodyDraws(c: Cursor, m: Metrics, body: BoxBody)
    ensures Drawn(Body(c, m, body)) == Drawn(c) + BodyScript(m, body)
  {
    match body
    case ProcedureBody(name) =>
      DrawnPut(c, [Text(name, MARGIN + 8, c.y, 14, HelveticaBold)], c.y - 18);
    case PatientBody(name, email) =>
      LabelPairDraws(c, m, "Name:", name, "Email:", email);
    case ConsentBody(description) =>
      SectionBlocksDraw(c, m, Parse(description));
    case AcknowledgmentBody =>
      ParagraphDraws(c, m, ACKNOWLEDGMENT, 0);
    case SignatureBody(signature, signer, date, id) =>
      SignatureBlockDraws(c, m, signature, signer, date, id);
  }

  /** Whatever the page breaks, a box draws its header bar, its content and its border, in that order. */
  lemma SectionBoxDraws(c: Cursor, m: Metrics, title: string, body: BoxBody)
    ensures Drawn(SectionBox(c, m, title, body)) == Drawn(c) + BoxScript(m, title, body)
  {
    var c1 := EnsureSpace(c, 60);
    var open := BoxOpen(c, m, title);
    var inner := Body(open, m, body);
    DrawnEnsureSpace(c, 60);
    DrawnPut(c1, BoxHeader(m, title, c1.y), c1.y - 32);
    assert Unplaced(BoxHeader(m, title, c1.y)) == Unplaced(BoxHeader(m, title, 0));
    BodyDraws(open, m, body);
    DrawnPut(inner, [Border(open.y, inner.y)], inner.y - 16);
    assert Unplaced([Border(open.y, inner.y)]) == [Rect(MARGIN, 0, CONTENT_WIDTH, 0)];
    var h, b := Unplaced(BoxHeader(m, title, 0)), BodyScript(m, body);
    Assoc(Drawn(c), h, b);
    Assoc(Drawn(c), h + b, [Rect(MARGIN, 0, CONTENT_WIDTH, 0)]);
  }

  /** The room a box body needs at its start: the procedure name and the
      signature frame are drawn before any `ensureSpace`. */
  predicate RoomFor(c: Cursor, body: BoxBody) {
    match body
    case ProcedureBody(_) => c.y >= FLOOR
    case SignatureBody(_, _, _, _) => c.y >= FLOOR + 92
    case _ => true
  }

  lemma SignatureBlockFloor(c: Cursor, m: Metrics, signature: string, signer: string, date: string, id: string)
    requires TextFloor(c.pages) && c.y >= FLOOR + 92
    ensures TextFloor(SignatureBlock(c, m, signature, signer, date, id).pages)
  {
    var c1 := SignatureFrame(c, signature);
    PutFloor(c.pages, SignatureOps(signature, c.y));
    var c2 := LabelValue(c1, m, "Signed by:", signer, 0);
    LabelValueFloor(c1, m, "Signed by:", signer, 0);
    var c3 := LabelValue(c2, m, "Date:", date, 0);
    LabelValueFloor(c2, m, "Date:", date, 0);
    assert c2.y >= FLOOR + 20;
    PutFloor(c3.pages, [SubmissionIdOp(id, c3.y - 4)]);
  }

  lemma BodyFloor(c: Cursor, m: Metrics, body: BoxBody)
    requires TextFloor(c.pages) && RoomFor(c, body)
    ensures TextFloor(Body(c, m, body).pages)
  {
    match body
    case ProcedureBody(name) =>
      PutFloor(c.pages, [Text(name, MARGIN + 8, c.y, 14, HelveticaBold)]);
    case PatientBody(name, email) =>
      LabelValueFloor(c, m, "Name:", name, 0);
      LabelValueFloor(LabelValue(c, m, "Name:", name, 0), m, "Email:", email, 0);
    case ConsentBody(description) =>
      SectionBlocksFloor(c, m, Parse(description));
    case AcknowledgmentBody =>
      ParagraphFloor(c, m, ACKNOWLEDGMENT, 0);
    case SignatureBody(signature, signer, date, id) =>
      SignatureBlockFloor(c, m, signature, signer, date, id);
  }

  /** A box keeps every text above the footer, the signature box provided it
      starts with the 124 points the caller's `ensureSpace(180)` guarantees. */
  lemma SectionBoxFloor(c: Cursor, m: Metrics, title: string, body: BoxBody)
    requires TextFloor(c.pages) && m.titleRise >= 0
    requires body.SignatureBody? ==> c.y >= FLOOR + 124
    ensures TextFloor(SectionBox(c, m, title, body).pages)
  {
    var c1 := EnsureSpace(c, 60);
    EnsureSpaceFloor(c, 60);
    PutFloor(c1.pages, BoxHeader(m, title, c1.y));
    var open := BoxOpen(c, m, title);
    BodyFloor(open, m, body);
    var inner := Body(open, m, body);
    PutFloor(inner.pages, [Border(open.y, inner.y)]);
  }

  lemma SignatureBlockAdvances(c: Cursor, m: Metrics, signature: string, signer: string, date: string, id: string)
    ensures Advances(c, SignatureBlock(c, m, signature, signer, date, id))
  {
    var c1 := SignatureFrame(c, signature);
    LocalPut(c, SignatureOps(signature, c.y), c.y - 56);
    var c2 := LabelValue(c1, m, "Signed by:", signer, 0);
    LabelValueAdvances(c1, m, "Signed by:", signer, 0);
    var c3 := LabelValue(c2, m, "Date:", date, 0);
    LabelValueAdvances(c2, m, "Date:", date, 0);
    LocalPut(c3, [SubmissionIdOp(id, c3.y - 4)], c3.y - 16);
    AdvancesTrans(c, c1, c2);
    AdvancesTrans(c, c2, c3);
    AdvancesTrans(c, c3, SubmissionLine(c3, id));
  }

  lemma BodyAdvances(c: Cursor, m: Metrics, body: BoxBody)
    ensures Advances(c, Body(c, m, body))
  {
    match body
    case ProcedureBody(name) =>
      LocalPut(c, [Text(name, MARGIN + 8, c.y, 14, HelveticaBold)], c.y - 18);
    case PatientBody(name, email) =>
      var c1 := LabelValue(c, m, "Name:", name, 0);
      LabelValueAdvances(c, m, "Name:", name, 0);
      LabelValueAdvances(c1, m, "Email:", email, 0);
      AdvancesTrans(c, c1, LabelValue(c1, m, "Email:", email, 0));
    case ConsentBody(description) =>
      SectionBlocksAdvance(c, m, Parse(description));
    case AcknowledgmentBody =>
      ParagraphAdvances(c, m, ACKNOWLEDGMENT, 0);
    case SignatureBody(signature, signer, date, id) =>
      SignatureBlockAdvances(c, m, signature, signer, date, id);
  }

  /** `drawSectionBox`: `startY` is 32 points below the cursor after
      `ensureSpace(60)`; the border, the last thing drawn, on the page where
      the content ended, has its bottom 10 points below `endY` and its top 16
      points above `startY`, whether or not the content broke a page; the
      cursor ends 16 points below `endY`. */
  lemma SectionBoxGeometry(c: Cursor, m: Metrics, title: string, body: BoxBody)
    ensures var open := BoxOpen(c, m, title);
      var inner := Body(open, m, body);
      var r := SectionBox(c, m, title, body);
      var last := r.pages[|r.pages| - 1];
      open.y == EnsureSpace(c, 60).y - 32
      && |r.pages| == |inner.pages| && r.y == inner.y - 16
      && last != [] && last[|last| - 1].Rect?
      && last[|last| - 1].x == MARGIN && last[|last| - 1].w == CONTENT_WIDTH
      && last[|last| - 1].y == inner.y - 10
      && last[|last| - 1].y + last[|last| - 1].h == open.y + 16
  {
  }

  /** When the content of a box stays on one page, the border encloses it:
      every text the content draws is strictly between the border's bottom
      and top edges. */
  lemma SectionBoxEncloses(c: Cursor, m: Metrics, title: string, body: BoxBody)
    requires |Body(BoxOpen(c, m, title), m, body).pages| == |BoxOpen(c, m, title).pages|
    ensures var open := BoxOpen(c, m, title);
      var inner := Body(open, m, body);
      var b := Border(open.y, inner.y);
      Grows(open, inner)
      && forall k :: 0 <= k < |NewOps(open, inner)| && NewOps(open, inner)[k].Text? ==>
           b.y < NewOps(open, inner)[k].y < b.y + b.h
  {
    BodyAdvances(BoxOpen(c, m, title), m, body);
  }

  /** The box with the 44-point signature frame and its three lines fits on
      the current page once 180 points are free: it adds no page and leaves
      the cursor above the footer. */
  lemma SignatureBoxFits(c: Cursor, m: Metrics, title: string, signature: string, signer: string, date: string, id: string)
    requires c.y >= FLOOR + 180
    ensures var r := SectionBox(c, m, title, SignatureBody(signature, signer, date, id));
      |r.pages| == |c.pages| && r.y >= FLOOR
  {
    var open := BoxOpen(c, m, title);
    assert EnsureSpace(c, 60) == c;
    var c1 := SignatureFrame(open, signature);
    var c2 := LabelValue(c1, m, "Signed by:", signer, 0);
    assert EnsureSpace(c1, 16) == c1;
    assert EnsureSpace(c2, 16) == c2;
  }

  // ---------------------------------------------------------------------
  // The header
  // ---------------------------------------------------------------------

  datatype Provider = Provider(fullName: Option<string>, practiceName: Option<string>)

  /** `practice_name || full_name || ""`. */
  function PracticeLine(p: Provider): string {
    OrElse(p.practiceName, OrElse(p.fullName, ""))
  }

  /** The "Provider:" line needs both names. */
  predicate ShowsProvider(p: Provider) {
    Truthy(p.practiceName) && Truthy(p.fullName)
  }

  /** The practice line when there is one, then the "Provider:" line below it when both names are set. */
  function ProviderOps(p: Provider, y: int): seq<DrawOp> {
    var name := PracticeLine(p);
    (if name != "" then [Text(name, MARGIN, y, 12, HelveticaBold)] else [])
    + (if ShowsProvider(p) then [Text("Provider: " + p.fullName.value, MARGIN, if name != "" then y - 16 else y, 10, Helvetica)] else [])
  }

  /** 16 points for the practice line, 14 for the "Provider:" line. */
  function ProviderDrop(p: Provider): int {
    (if PracticeLine(p) != "" then 16 else 0) + (if ShowsProvider(p) then 14 else 0)
  }

  function ProviderLines(c: Cursor, p: Provider): Cursor {
    Cursor(Put(c.pages, ProviderOps(p, c.y)), c.y - ProviderDrop(p))
  }

  /** The title, the practice and provider lines when there is a provider, then a rule 8 points lower. */
  function Header(c: Cursor, provider: Option<Provider>): Cursor {
    var c1 := Cursor(Put(c.pages, [Text("CONSENT FORM", MARGIN, c.y, 24, HelveticaBold)]), c.y - 30);
    var c2 := if provider.Some? then ProviderLines(c1, provider.value) else c1;
    Cursor(Put(c2.pages, [Rule(c2.y - 8)]), c2.y - 24)
  }

  /** The header's texts, top to bottom. */
  function HeaderTexts(provider: Option<Provider>): seq<string> {
    ["CONSENT FORM"]
    + (if provider.Some? && PracticeLine(provider.value) != "" then [PracticeLine(provider.value)] else [])
    + (if provider.Some? && ShowsProvider(provider.value) then ["Provider: " + provider.value.fullName.value] else [])
  }

  function TextsOf(ops: seq<DrawOp>): seq<string>
    decreases |ops|
  {
    if ops == [] then [] else (if ops[0].Text? then [ops[0].text] else []) + TextsOf(ops[1..])
  }

  lemma {:induction false} TextsOfAppend(a: seq<DrawOp>, b: seq<DrawOp>)
    ensures TextsOf(a + b) == TextsOf(a) + TextsOf(b)
    decreases |a|
  {
    if a == [] {
      assert a + b == b;
    } else {
      assert (a + b)[1..] == a[1..] + b;
      TextsOfAppend(a[1..], b);
    }
  }

  lemma PutFirst(ops: seq<DrawOp>)
    ensures Put([[]], ops) == [ops]
  {
    assert [] + ops == ops;
  }

  lemma PutSingle(page: seq<DrawOp>, ops: seq<DrawOp>)
    ensures Put([page], ops) == [page + ops]
  {
    assert [page][..0] == [];
  }

  lemma ProviderTexts(p: Provider, y: int)
    ensures TextsOf(ProviderOps(p, y)) == HeaderTexts(Some(p))[1..]
    ensures OpsAbove(ProviderOps(p, y), y - 16)
  {
    var name := PracticeLine(p);
    var a := if name != "" then [Text(name, MARGIN, y, 12, HelveticaBold)] else [];
    var b := if ShowsProvider(p) then [Text("Provider: " + p.fullName.value, MARGIN, if name != "" then y - 16 else y, 10, Helvetica)] else [];
    TextsOfAppend(a, b);
    var ops := a + b;
    forall k | 0 <= k < |ops| && ops[k].Text? ensures ops[k].y >= y - 16 {
      if k < |a| { assert ops[k] == a[k]; } else { assert ops[k] == b[k - |a|]; }
    }
  }

  function HeaderDrop(provider: Option<Provider>): int {
    if provider.Some? then ProviderDrop(provider.value) else 0
  }

  function HeaderPageOps(provider: Option<Provider>): seq<DrawOp> {
    [Text("CONSENT FORM", MARGIN, TOP, 24, HelveticaBold)]
    + (if provider.Some? then ProviderOps(provider.value, TOP - 30) else [])
    + [Rule(TOP - 38 - HeaderDrop(provider))]
  }

  lemma HeaderPages(provider: Option<Provider>)
    ensures Header(Start, provider) == Cursor([HeaderPageOps(provider)], TOP - 54 - HeaderDrop(provider))
  {
    var a := [Text("CONSENT FORM", MARGIN, TOP, 24, HelveticaBold)];
    PutFirst(a);
    var c1 := Cursor([a], TOP - 30);
    var p := if provider.Some? then ProviderOps(provider.value, TOP - 30) else [];
    var c2 := if provider.Some? then ProviderLines(c1, provider.value) else c1;
    PutSingle(a, p);
    if provider.None? {
      assert a + p == a;
    }
    assert c2 == Cursor([a + p], TOP - 30 - HeaderDrop(provider));
    PutSingle(a + p, [Rule(c2.y - 8)]);
  }

  /** The header fits on the first page, well above the footer, and shows
      the practice, or failing that the provider's full name, and the
      "Provider:" line exactly when both names are set. */
  lemma HeaderLayout(provider: Option<Provider>)
    ensures var h := Header(Start, provider);
      |h.pages| == 1 && TextFloor(h.pages) && TOP - 84 <= h.y <= TOP - 54
      && TextsOf(h.pages[0]) == HeaderTexts(provider)
  {
    HeaderPages(provider);
    var a := [Text("CONSENT FORM", MARGIN, TOP, 24, HelveticaBold)];
    var p := if provider.Some? then ProviderOps(provider.value, TOP - 30) else [];
    var r := [Rule(TOP - 38 - HeaderDrop(provider))];
    var ops := HeaderPageOps(provider);
    assert ops == a + p + r;
    if provider.Some? {
      ProviderTexts(provider.value, TOP - 30);
    }
    assert TextsOf(ops) == HeaderTexts(provider) by {
      TextsOfAppend(a, p);
      TextsOfAppend(a + p, r);
    }
    assert OpsAbove(ops, FLOOR) by {
      forall k | 0 <= k < |ops| && ops[k].Text? ensures ops[k].y >= FLOOR {
        if k == 0 { assert ops[k] == a[0]; }
        else if k < |a + p| { assert ops[k] == p[k - 1]; }
      }
    }
  }

  // ---------------------------------------------------------------------
  // The whole document
  // ---------------------------------------------------------------------

  datatype ConsentModule = ConsentModule(name: Option<string>, description: Option<string>)

  datatype Submission = Submission(id: string, firstName: string, lastName: string, email: string, signature: string)

  /** What the generator draws from: the submission, its module and provider
      as looked up, and the signing time already formatted. */
  datatype Request = Request(submission: Submission, consentModule: Option<ConsentModule>, provider: Option<Provider>, signedDate: string)

  /** `module?.name || "Consent Form"`. */
  function ProcedureName(mod: Option<ConsentModule>): string {
    if mod.Some? then OrElse(mod.value.name, "Consent Form") else "Consent Form"
  }

  function Description(mod: Option<ConsentModule>): Option<string> {
    if mod.Some? then mod.value.description else None
  }

  function PatientName(sub: Submission): string {
    sub.firstName + " " + sub.lastName
  }

  function SignatureOf(req: Request): BoxBody {
    SignatureBody(req.submission.signature, PatientName(req.submission), req.signedDate, req.submission.id)
  }

  /** The header and the first boxes: the consent box only when the module has
      a non-empty description. */
  function FirstBoxes(m: Metrics, req: Request): Cursor {
    var c0 := Header(Start, req.provider);
    var c1 := SectionBox(c0, m, "PROCEDURE / TREATMENT", ProcedureBody(ProcedureName(req.consentModule)));
    var c2 := SectionBox(c1, m, "PATIENT INFORMATION", PatientBody(PatientName(req.submission), req.submission.email));
    ConsentBox(c2, m, Description(req.consentModule))
  }

  /** Everything up to the signature box, ending with `ensureSpace(180)`. */
  function BeforeSignature(m: Metrics, req: Request): Cursor {
    EnsureSpace(SectionBox(FirstBoxes(m, req), m, "ACKNOWLEDGMENT", AcknowledgmentBody), 180)
  }

  /** All content pages, before the footers. */
  function Content(m: Metrics, req: Request): Cursor {
    SectionBox(BeforeSignature(m, req), m, "DIGITAL SIGNATURE", SignatureOf(req))
  }

  function FirstBoxesScript(m: Metrics, req: Request): seq<DrawOp> {
    var d := Description(req.consentModule);
    Unplaced(HeaderPageOps(req.provider))
    + BoxScript(m, "PROCEDURE / TREATMENT", ProcedureBody(ProcedureName(req.consentModule)))
    + BoxScript(m, "PATIENT INFORMATION", PatientBody(PatientName(req.submission), req.submission.email))
    + ConsentBoxScript(m, d)
  }

  /** Everything the content pages show, in drawing order, page breaks aside. */
  function ContentScript(m: Metrics, req: Request): seq<DrawOp> {
    FirstBoxesScript(m, req)
    + BoxScript(m, "ACKNOWLEDGMENT", AcknowledgmentBody)
    + BoxScript(m, "DIGITAL SIGNATURE", SignatureOf(req))
  }

  lemma FlatSingle(page: seq<DrawOp>)
    ensures Flat([page]) == page
  {
    assert [page][..0] == [];
  }

  lemma HeaderDraws(provider: Option<Provider>)
    ensures Drawn(Header(Start, provider)) == Unplaced(HeaderPageOps(provider))
  {
    var h := Header(Start, provider);
    var ops := HeaderPageOps(provider);
    HeaderPages(provider);
    assert h.pages == [ops];
    FlatSingle(ops);
  }

  /** The optional consent box, as one step. */
  function ConsentBox(c: Cursor, m: Metrics, d: Option<string>): Cursor {
    if Truthy(d) then SectionBox(c, m, "CONSENT INFORMATION", ConsentBody(d.value)) else c
  }

  function ConsentBoxScript(m: Metrics, d: Option<string>): seq<DrawOp> {
    if Truthy(d) then BoxScript(m, "CONSENT INFORMATION", ConsentBody(d.value)) else []
  }

  lemma ConsentBoxDraws(c: Cursor, m: Metrics, d: Option<string>)
    ensures Drawn(ConsentBox(c, m, d)) == Drawn(c) + ConsentBoxScript(m, d)
  {
    if Truthy(d) {
      SectionBoxDraws(c, m, "CONSENT INFORMATION", ConsentBody(d.value));
    } else {
      assert Drawn(c) + [] == Drawn(c);
    }
  }

  lemma FirstBoxesDraw(m: Metrics, req: Request)
    ensures Drawn(FirstBoxes(m, req)) == FirstBoxesScript(m, req)
  {
    var c0 := Header(Start, req.provider);
    var b1 := ProcedureBody(ProcedureName(req.consentModule));
    var c1 := SectionBox(c0, m, "PROCEDURE / TREATMENT", b1);
    var b2 := PatientBody(PatientName(req.submission), req.submission.email);
    var c2 := SectionBox(c1, m, "PATIENT INFORMATION", b2);
    var d := Description(req.consentModule);
    var h, s1, s2, s3 := Unplaced(HeaderPageOps(req.provider)), BoxScript(m, "PROCEDURE / TREATMENT", b1),
      BoxScript(m, "PATIENT INFORMATION", b2), ConsentBoxScript(m, d);
    assert Drawn(c0) == h by { HeaderDraws(req.provider); }
    assert Drawn(c1) == h + s1 by { SectionBoxDraws(c0, m, "PROCEDURE / TREATMENT", b1); }
    assert Drawn(c2) == h + s1 + s2 by { SectionBoxDraws(c1, m, "PATIENT INFORMATION", b2); }
    assert Drawn(ConsentBox(c2, m, d)) == h + s1 + s2 + s3 by { ConsentBoxDraws(c2, m, d); }
    assert FirstBoxes(m, req) == ConsentBox(c2, m, d);
    assert FirstBoxesScript(m, req) == h + s1 + s2 + s3;
  }

  /** Whatever the page breaks, the content pages show the header and then
      the boxes in order, each whole: header bar, content, border. */
  lemma ContentDraws(m: Metrics, req: Request)
    ensures Drawn(Content(m, req)) == ContentScript(m, req)
  {
    var c3 := FirstBoxes(m, req);
    var c4 := SectionBox(c3, m, "ACKNOWLEDGMENT", AcknowledgmentBody);
    FirstBoxesDraw(m, req);
    SectionBoxDraws(c3, m, "ACKNOWLEDGMENT", AcknowledgmentBody);
    DrawnEnsureSpace(c4, 180);
    SectionBoxDraws(BeforeSignature(m, req), m, "DIGITAL SIGNATURE", SignatureOf(req));
  }

  // ---------------------------------------------------------------------
  // Box titles
  // ---------------------------------------------------------------------

  /** A box title: Helvetica Bold at 10 points, a size nothing else uses in that font. */
  predicate IsTitle(op: DrawOp) {
    op.Text? && op.font == HelveticaBold && op.size == 10
  }

  function Titles(ops: seq<DrawOp>): seq<string>
    decreases |ops|
  {
    if ops == [] then [] else (if IsTitle(ops[0]) then [ops[0].text] else []) + Titles(ops[1..])
  }

  lemma {:induction false} TitlesAppend(a: seq<DrawOp>, b: seq<DrawOp>)
    ensures Titles(a + b) == Titles(a) + Titles(b)
    decreases |a|
  {
    if a == [] {
      assert a + b == b;
    } else {
      assert (a + b)[1..] == a[1..] + b;
      TitlesAppend(a[1..], b);
    }
  }

  predicate NoTitle(ops: seq<DrawOp>) {
    forall k :: 0 <= k < |ops| ==> !IsTitle(ops[k])
  }

  lemma {:induction false} NoTitleTitles(ops: seq<DrawOp>)
    requires NoTitle(ops)
    ensures Titles(ops) == []
    decreases |ops|
  {
    if ops != [] {
      NoTitleTitles(ops[1..]);
    }
  }

  lemma NoTitleAppend(a: seq<DrawOp>, b: seq<DrawOp>)
    requires NoTitle(a) && NoTitle(b)
    ensures NoTitle(a + b)
  {
    forall k | 0 <= k < |a + b| ensures !IsTitle((a + b)[k]) {
      if k < |a| { assert (a + b)[k] == a[k]; } else { assert (a + b)[k] == b[k - |a|]; }
    }
  }

  lemma RowsNoTitle(lines: seq<string>, textX: int, glyphX: Option<int>)
    ensures NoTitle(RowsScript(lines, textX, glyphX))
  {
    StackedShape(lines, 0, textX, glyphX);
    var s := Stacked(lines, 0, textX, glyphX);
    var off := if glyphX.Some? && lines != [] then 1 else 0;
    forall k | 0 <= k < |s| ensures !IsTitle(s[k]) {
      if k >= off {
        assert s[off + (k - off)] == Text(lines[k - off], textX, 0 - 14 * (k - off), 10, TimesRoman);
      }
    }
  }

  lemma {:induction false} ParagraphsNoTitle(m: Metrics, ps: seq<string>)
    ensures NoTitle(ParagraphsScript(m, ps))
    decreases |ps|
  {
    if ps != [] {
      RowsNoTitle(ParagraphLines(m, ps[0], 0), MARGIN + 8, None);
      ParagraphsNoTitle(m, ps[1..]);
      NoTitleAppend(ParagraphScript(m, ps[0], 0), ParagraphsScript(m, ps[1..]));
    }
  }

  lemma {:induction false} BulletsNoTitle(m: Metrics, bs: seq<string>)
    ensures NoTitle(BulletsScript(m, bs))
    decreases |bs|
  {
    if bs != [] {
      RowsNoTitle(BulletLines(m, bs[0], 0), MARGIN + 20, Some(MARGIN + 8));
      BulletsNoTitle(m, bs[1..]);
      NoTitleAppend(BulletScript(m, bs[0], 0), BulletsScript(m, bs[1..]));
    }
  }

  lemma {:induction false} SectionsNoTitle(m: Metrics, ss: seq<Section>)
    ensures NoTitle(SectionsScript(m, ss))
    decreases |ss|
  {
    if ss != [] {
      var sec := ss[0];
      var head := if Truthy(sec.heading) then SubheadingScript(sec.heading.value) else [];
      ParagraphsNoTitle(m, sec.paragraphs);
      BulletsNoTitle(m, sec.bullets);
      NoTitleAppend(head, ParagraphsScript(m, sec.paragraphs));
      NoTitleAppend(head + ParagraphsScript(m, sec.paragraphs), BulletsScript(m, sec.bullets));
      SectionsNoTitle(m, ss[1..]);
      NoTitleAppend(SectionScript(m, sec), SectionsScript(m, ss[1..]));
    }
  }

  lemma BodyNoTitle(m: Metrics, body: BoxBody)
    ensures NoTitle(BodyScript(m, body))
  {
    match body
    case ProcedureBody(_) =>
    case PatientBody(_, _) =>
    case ConsentBody(description) => SectionsNoTitle(m, Parse(description));
    case AcknowledgmentBody => RowsNoTitle(ParagraphLines(m, ACKNOWLEDGMENT, 0), MARGIN + 8, None);
    case SignatureBody(_, _, _, _) =>
  }

  /** A box has exactly one title: its own. */
  lemma BoxTitles(m: Metrics, title: string, body: BoxBody)
    ensures Titles(BoxScript(m, title, body)) == [title]
  {
    var h, b, e := Unplaced(BoxHeader(m, title, 0)), BodyScript(m, body), [Rect(MARGIN, 0, CONTENT_WIDTH, 0)];
    BodyNoTitle(m, body);
    NoTitleTitles(b);
    NoTitleTitles(e);
    TitlesAppend(h, b);
    TitlesAppend(h + b, e);
    assert Titles(h) == [title];
  }

  lemma HeaderNoTitle(provider: Option<Provider>)
    ensures Titles(Unplaced(HeaderPageOps(provider))) == []
  {
    var ops := Unplaced(HeaderPageOps(provider));
    assert NoTitle(ops) by {
      var a := [Text("CONSENT FORM", MARGIN, TOP, 24, HelveticaBold)];
      var p := if provider.Some? then ProviderOps(provider.value, TOP - 30) else [];
      var r := [Rule(TOP - 38 - HeaderDrop(provider))];
      assert HeaderPageOps(provider) == a + p + r;
      forall k | 0 <= k < |ops| ensures !IsTitle(ops[k]) {
        var o := HeaderPageOps(provider)[k];
        if 0 < k < |a + p| { assert o == p[k - 1]; }
      }
    }
    NoTitleTitles(ops);
  }

  lemma FirstBoxesTitles(m: Metrics, req: Request)
    ensures Titles(FirstBoxesScript(m, req))
         == ["PROCEDURE / TREATMENT", "PATIENT INFORMATION"]
            + (if Truthy(Description(req.consentModule)) then ["CONSENT INFORMATION"] else [])
  {
    var d := Description(req.consentModule);
    var h := Unplaced(HeaderPageOps(req.provider));
    var b1 := ProcedureBody(ProcedureName(req.consentModule));
    var b2 := PatientBody(PatientName(req.submission), req.submission.email);
    var s1, s2, s3 := BoxScript(m, "PROCEDURE / TREATMENT", b1), BoxScript(m, "PATIENT INFORMATION", b2), ConsentBoxScript(m, d);
    HeaderNoTitle(req.provider);
    BoxTitles(m, "PROCEDURE / TREATMENT", b1);
    BoxTitles(m, "PATIENT INFORMATION", b2);
    if Truthy(d) {
      BoxTitles(m, "CONSENT INFORMATION", ConsentBody(d.value));
    }
    TitlesAppend(h, s1);
    TitlesAppend(h + s1, s2);
    TitlesAppend(h + s1 + s2, s3);
  }

  lemma LastBoxesTitles(m: Metrics, req: Request)
    ensures Titles(BoxScript(m, "ACKNOWLEDGMENT", AcknowledgmentBody) + BoxScript(m, "DIGITAL SIGNATURE", SignatureOf(req)))
         == ["ACKNOWLEDGMENT", "DIGITAL SIGNATURE"]
  {
    BoxTitles(m, "ACKNOWLEDGMENT", AcknowledgmentBody);
    BoxTitles(m, "DIGITAL SIGNATURE", SignatureOf(req));
    TitlesAppend(BoxScript(m, "ACKNOWLEDGMENT", AcknowledgmentBody), BoxScript(m, "DIGITAL SIGNATURE", SignatureOf(req)));
  }

  /** The document's boxes come out in the source's order, each title once:
      the consent box exactly when the module has a non-empty description. */
  lemma ContentTitles(m: Metrics, req: Request)
    ensures Titles(Drawn(Content(m, req)))
         == ["PROCEDURE / TREATMENT", "PATIENT INFORMATION"]
            + (if Truthy(Description(req.consentModule)) then ["CONSENT INFORMATION"] else [])
            + ["ACKNOWLEDGMENT", "DIGITAL SIGNATURE"]
  {
    ContentDraws(m, req);
    var f := FirstBoxesScript(m, req);
    var l := BoxScript(m, "ACKNOWLEDGMENT", AcknowledgmentBody) + BoxScript(m, "DIGITAL SIGNATURE", SignatureOf(req));
    FirstBoxesTitles(m, req);
    LastBoxesTitles(m, req);
    Assoc(f, BoxScript(m, "ACKNOWLEDGMENT", AcknowledgmentBody), BoxScript(m, "DIGITAL SIGNATURE", SignatureOf(req)));
    TitlesAppend(f, l);
  }

  // ---------------------------------------------------------------------
  // The footer zone of the whole content
  // ---------------------------------------------------------------------

  /** The title baseline lies inside its 24-point header bar. */
  predicate TitleFits(m: Metrics) {
    0 <= m.titleRise <= 24
  }

  lemma ConsentBoxFloor(c: Cursor, m: Metrics, d: Option<string>)
    requires TextFloor(c.pages) && TitleFits(m)
    ensures TextFloor(ConsentBox(c, m, d).pages)
  {
    if Truthy(d) {
      SectionBoxFloor(c, m, "CONSENT INFORMATION", ConsentBody(d.value));
    }
  }

  lemma BeforeSignatureFloor(m: Metrics, req: Request)
    requires TitleFits(m)
    ensures TextFloor(BeforeSignature(m, req).pages) && BeforeSignature(m, req).y >= FLOOR + 180
  {
    var c0 := Header(Start, req.provider);
    HeaderLayout(req.provider);
    var b1 := ProcedureBody(ProcedureName(req.consentModule));
    var c1 := SectionBox(c0, m, "PROCEDURE / TREATMENT", b1);
    SectionBoxFloor(c0, m, "PROCEDURE / TREATMENT", b1);
    var b2 := PatientBody(PatientName(req.submission), req.submission.email);
    var c2 := SectionBox(c1, m, "PATIENT INFORMATION", b2);
    SectionBoxFloor(c1, m, "PATIENT INFORMATION", b2);
    var c3 := ConsentBox(c2, m, Description(req.consentModule));
    ConsentBoxFloor(c2, m, Description(req.consentModule));
    assert FirstBoxes(m, req) == c3;
    var c4 := SectionBox(c3, m, "ACKNOWLEDGMENT", AcknowledgmentBody);
    SectionBoxFloor(c3, m, "ACKNOWLEDGMENT", AcknowledgmentBody);
    EnsureSpaceFloor(c4, 180);
  }

  /** No text of the content reaches into the footer zone, on any page. */
  lemma ContentFloor(m: Metrics, req: Request)
    requires TitleFits(m)
    ensures TextFloor(Content(m, req).pages)
  {
    BeforeSignatureFloor(m, req);
    SectionBoxFloor(BeforeSignature(m, req), m, "DIGITAL SIGNATURE", SignatureOf(req));
  }

  lemma SectionBoxAdvances(c: Cursor, m: Metrics, title: string, body: BoxBody)
    requires TitleFits(m)
    ensures Advances(c, SectionBox(c, m, title, body))
  {
    var c1 := EnsureSpace(c, 60);
    EnsureSpaceAdvances(c, 60);
    var open := BoxOpen(c, m, title);
    LocalPut(c1, BoxHeader(m, title, c1.y), c1.y - 32);
    AdvancesTrans(c, c1, open);
    var inner := Body(open, m, body);
    BodyAdvances(open, m, body);
    AdvancesTrans(c, open, inner);
    LocalPut(inner, [Border(open.y, inner.y)], inner.y - 16);
    AdvancesTrans(c, inner, SectionBox(c, m, title, body));
  }

  /** `ensureSpace(180)` keeps the signature box whole: it starts and ends on
      the page it begins on, everything it draws between its first and last
      cursor positions. */
  lemma SignatureOnOnePage(m: Metrics, req: Request)
    requires TitleFits(m)
    ensures var b := BeforeSignature(m, req);
      var r := Content(m, req);
      b.y >= FLOOR + 180 && |r.pages| == |b.pages| && Local(b, r)
  {
    var b := BeforeSignature(m, req);
    BeforeSignatureFloor(m, req);
    var sig := SignatureOf(req);
    SignatureBoxFits(b, m, "DIGITAL SIGNATURE", sig.signature, sig.signer, sig.date, sig.submissionId);
    SectionBoxAdvances(b, m, "DIGITAL SIGNATURE", sig);
  }

  // ---------------------------------------------------------------------
  // The footer pass
  // ---------------------------------------------------------------------

  const FOOTER_NOTICE: string := "This document was electronically signed and is legally binding."

  function PageLabel(i: nat, n: nat): string {
    "Generated by ClearConsent  •  Page " + NatToString(i + 1) + " of " + NatToString(n)
  }

  /** The rule at the margin and the two footer lines, 12 and 24 points below it. */
  function FooterOps(i: nat, n: nat): seq<DrawOp> {
    [Rule(MARGIN),
     Text(FOOTER_NOTICE, MARGIN, MARGIN - 12, 8, Helvetica),
     Text(PageLabel(i, n), MARGIN, MARGIN - 24, 8, Helvetica)]
  }

  /** Page `i` of `n` gets its footer once the page count is known. */
  function Footers(ps: Pages): Pages {
    seq(|ps|, i requires 0 <= i < |ps| => ps[i] + FooterOps(i, |ps|))
  }

  /** The pages of the finished PDF. */
  function Document(m: Metrics, req: Request): Pages {
    Footers(Content(m, req).pages)
  }

  /** Different pages carry different numbers. */
  lemma PageLabelInjective(i: nat, j: nat, n: nat)
    requires PageLabel(i, n) == PageLabel(j, n)
    ensures i == j
  {
    var p, q, b := "Generated by ClearConsent  •  Page ", " of ", NatToString(n);
    var x, y := NatToString(i + 1), NatToString(j + 1);
    assert PageLabel(i, n) == p + x + q + b;
    assert PageLabel(j, n) == p + y + q + b;
    assert |x| == |y|;
    assert x == PageLabel(i, n)[|p|..|p| + |x|];
    assert y == PageLabel(j, n)[|p|..|p| + |y|];
    NatToStringInjective(i + 1, j + 1);
  }

  /** The footer pass adds no page and keeps every page's content as it
      was, in front; it stamps page `i` with "Page i+1 of N", N being the
      final page count, below any content text: on a page whose content
      keeps above FLOOR, a text is content exactly when it is at or above
      FLOOR. */
  lemma FootersStamp(ps: Pages)
    requires TextFloor(ps)
    ensures var r := Footers(ps);
      |r| == |ps|
      && (forall i :: 0 <= i < |r| ==>
            r[i][..|ps[i]|] == ps[i]
            && r[i][|r[i]| - 1] == Text(PageLabel(i, |r|), MARGIN, MARGIN - 24, 8, Helvetica))
      && forall i, k :: 0 <= i < |r| && 0 <= k < |r[i]| && r[i][k].Text? ==>
            (r[i][k].y >= FLOOR <==> k < |ps[i]|)
  {
    var r := Footers(ps);
    forall i, k | 0 <= i < |r| && 0 <= k < |r[i]| && r[i][k].Text?
      ensures r[i][k].y >= FLOOR <==> k < |ps[i]|
    {
      assert r[i] == ps[i] + FooterOps(i, |ps|);
      if k < |ps[i]| {
        assert r[i][k] == ps[i][k];
        assert OpsAbove(ps[i], FLOOR);
      } else {
        assert r[i][k] == FooterOps(i, |ps|)[k - |ps[i]|];
      }
    }
    forall i | 0 <= i < |r| ensures r[i][..|ps[i]|] == ps[i] {
      assert r[i] == ps[i] + FooterOps(i, |ps|);
    }
  }

  /** No two pages carry the same page label. */
  lemma FootersNumbered(ps: Pages)
    ensures var r := Footers(ps);
      forall i, j :: 0 <= i < j < |r| ==> r[i][|r[i]| - 1] != r[j][|r[j]| - 1]
  {
    var r := Footers(ps);
    forall i, j | 0 <= i < j < |r| ensures r[i][|r[i]| - 1] != r[j][|r[j]| - 1] {
      assert r[i] == ps[i] + FooterOps(i, |ps|);
      assert r[j] == ps[j] + FooterOps(j, |ps|);
      if PageLabel(i, |r|) == PageLabel(j, |r|) {
        PageLabelInjective(i, j, |r|);
      }
    }
  }
}
