/**
 * The consent-PDF generator as the source runs it: one mutable layout
 * state (the pages drawn so far and the cursor `yPos`) that the drawing
 * helpers update in place. Each method is proved to leave exactly the
 * state the corresponding function of `ConsentPdfLayout` describes, so
 * everything proved there about the functions holds of what the methods
 * draw.
 */
module ConsentPdfEngine {
  import opened Wrappers
  import opened JsText
  import opened ConsentPdfText
  import opened ConsentPdfSections
  import L = ConsentPdfLayout

  class Layout {
    const metrics: L.Metrics
    /** The document's pages, each the operations drawn on it; the last is `currentPage`. */
    var pages: L.Pages
    var yPos: int

    function State(): L.Cursor
      reads this
    {
      L.Cursor(pages, yPos)
    }

    /** A document with one page and the cursor at the top margin. */
    constructor(metrics: L.Metrics)
      ensures this.metrics == metrics && State() == L.Start
    {
      this.metrics := metrics;
      pages := [[]];
      yPos := L.TOP;
    }

    /** Draws `ops` on the current page; the cursor stays. */
    method Draw(ops: seq<L.DrawOp>)
      modifies this
      ensures pages == L.Put(old(pages), ops) && yPos == old(yPos)
    {
      pages := pages[..|pages| - 1] + [pages[|pages| - 1] + ops];
    }

    /** `yPos -= d`. */
    method MoveDown(d: int)
      modifies this
      ensures State() == L.Down(old(State()), d)
    {
      yPos := yPos - d;
    }

    method EnsureSpace(needed: int)
      modifies this
      ensures State() == L.EnsureSpace(old(State()), needed)
    {
      if yPos - needed < L.MARGIN + L.FOOTER_HEIGHT {
        pages := pages + [[]];
        yPos := L.PAGE_HEIGHT - L.MARGIN;
      }
    }

    method DrawLabelValue(caption: string, value: string, indent: int)
      modifies this
      ensures State() == L.LabelValue(old(State()), metrics, caption, value, indent)
    {
      EnsureSpace(16);
      Draw(L.LabelOps(metrics, caption, value, indent, yPos));
      yPos := yPos - 16;
    }

    /** One row of a paragraph or bullet: room for it, the row, 14 points down. */
    method DrawRow(line: string, textX: int, glyphX: Option<int>)
      modifies this
      ensures State() == L.RowStep(old(State()), line, textX, glyphX)
    {
      EnsureSpace(14);
      Draw(L.RowOps(line, yPos, textX, glyphX));
      yPos := yPos - 14;
    }

    /** The loop of `drawParagraph` and `drawBullet`: each line on its own
        row, the glyph (if any) beside the first. */
    method DrawRows(lines: seq<string>, textX: int, glyphX: Option<int>)
      modifies this
      ensures State() == L.Rows(old(State()), lines, textX, glyphX)
    {
      ghost var c0 := State();
      for i := 0 to |lines|
        invariant L.Rows(State(), lines[i..], textX, if i == 0 then glyphX else None) == L.Rows(c0, lines, textX, glyphX)
      {
        ghost var s := State();
        var glyph := if i == 0 then glyphX else None;
        assert L.Rows(s, lines[i..], textX, glyph) == L.Rows(L.RowStep(s, lines[i], textX, glyph), lines[i + 1..], textX, None) by {
          assert lines[i..][0] == lines[i] && lines[i..][1..] == lines[i + 1..];
        }
        DrawRow(lines[i], textX, glyph);
      }
      assert lines[|lines|..] == [];
    }

    /** The lines `drawParagraph` wraps its text into. */
    method WrapParagraph(text: string, indent: int) returns (lines: seq<string>)
      ensures lines == L.ParagraphLines(metrics, text, indent)
    {
      lines := WrapText(text, metrics.bodyWidth, L.CONTENT_WIDTH - 16 - indent);
    }

    method DrawParagraph(text: string, indent: int)
      modifies this
      ensures State() == L.Paragraph(old(State()), metrics, text, indent)
    {
      var lines := WrapParagraph(text, indent);
      DrawRows(lines, L.MARGIN + 8 + indent, None);
      MoveDown(4);
    }

    /** The lines `drawBullet` wraps its text into, 8 points narrower than a paragraph's. */
    method WrapBullet(text: string, indent: int) returns (lines: seq<string>)
      ensures lines == L.BulletLines(metrics, text, indent)
    {
      lines := WrapText(text, metrics.bodyWidth, L.CONTENT_WIDTH - 24 - indent);
    }

    method DrawBullet(text: string, indent: int)
      modifies this
      ensures State() == L.Bullet(old(State()), metrics, text, indent)
    {
      var bulletX := L.MARGIN + 8 + indent;
      var textX := bulletX + 12;
      var lines := WrapBullet(text, indent);
      DrawRows(lines, textX, Some(bulletX));
    }

    method DrawSubheading(text: string)
      modifies this
      ensures State() == L.Subheading(old(State()), text)
    {
      EnsureSpace(24);
      yPos := yPos - 6;
      Draw([L.Text(text, L.MARGIN + 8, yPos, 11, L.HelveticaBold)]);
      yPos := yPos - 16;
    }

    /** The loops of the consent box: each section's subheading, paragraphs and bullets. */
    method DrawSections(sections: seq<Section>)
      modifies this
      ensures State() == L.SectionBlocks(old(State()), metrics, sections)
    {
      for i := 0 to |sections|
        invariant L.SectionBlocks(State(), metrics, sections[i..]) == L.SectionBlocks(old(State()), metrics, sections)
      {
        assert sections[i..][1..] == sections[i + 1..];
        var section := sections[i];
        if Truthy(section.heading) {
          DrawSubheading(section.heading.value);
        }
        ghost var afterHeading := State();
        var paras := section.paragraphs;
        for j := 0 to |paras|
          invariant L.Paragraphs(State(), metrics, paras[j..]) == L.Paragraphs(afterHeading, metrics, paras)
        {
          assert paras[j..][1..] == paras[j + 1..];
          DrawParagraph(paras[j], 0);
        }
        assert paras[|paras|..] == [];
        ghost var afterParagraphs := State();
        var bullets := section.bullets;
        for j := 0 to |bullets|
          invariant L.Bullets(State(), metrics, bullets[j..]) == L.Bullets(afterParagraphs, metrics, bullets)
        {
          assert bullets[j..][1..] == bullets[j + 1..];
          DrawBullet(bullets[j], 0);
        }
        assert bullets[|bullets|..] == [];
      }
      assert sections[|sections|..] == [];
    }

    method DrawSignature(signature: string, signer: string, date: string, id: string)
      modifies this
      ensures State() == L.SignatureBlock(old(State()), metrics, signature, signer, date, id)
    {
      ghost var c0 := State();
      Draw(L.SignatureOps(signature, yPos));
      yPos := yPos - (44 + 12);
      ghost var c1 := State();
      assert c1 == L.SignatureFrame(c0, signature);
      DrawLabelValue("Signed by:", signer, 0);
      DrawLabelValue("Date:", date, 0);
      ghost var c3 := State();
      assert c3 == L.LabelValue(L.LabelValue(c1, metrics, "Signed by:", signer, 0), metrics, "Date:", date, 0);
      yPos := yPos - 4;
      Draw([L.SubmissionIdOp(id, yPos)]);
      yPos := yPos - 12;
      assert State() == L.SubmissionLine(c3, id);
    }

    /** The content callback of each box. */
    method DrawBody(body: L.BoxBody)
      modifies this
      ensures State() == L.Body(old(State()), metrics, body)
    {
      match body
      case ProcedureBody(name) =>
        Draw([L.Text(name, L.MARGIN + 8, yPos, 14, L.HelveticaBold)]);
        yPos := yPos - 18;
      case PatientBody(name, email) =>
        DrawLabelValue("Name:", name, 0);
        DrawLabelValue("Email:", email, 0);
      case ConsentBody(description) =>
        var sections := ParseDescription(description);
        DrawSections(sections);
      case AcknowledgmentBody =>
        DrawParagraph(L.ACKNOWLEDGMENT, 0);
      case SignatureBody(signature, signer, date, id) =>
        DrawSignature(signature, signer, date, id);
    }

    method DrawSectionBox(title: string, body: L.BoxBody)
      modifies this
      ensures State() == L.SectionBox(old(State()), metrics, title, body)
    {
      ghost var c0 := State();
      EnsureSpace(60);
      Draw(L.BoxHeader(metrics, title, yPos));
      yPos := yPos - (24 + 8);
      ghost var open := State();
      assert open == L.BoxOpen(c0, metrics, title);
      var startY := yPos;
      DrawBody(body);
      ghost var inner := State();
      assert inner == L.Body(open, metrics, body);
      var endY := yPos;
      Draw([L.Border(startY, endY)]);
      yPos := yPos - 16;
    }

    /** The practice line and the "Provider:" line. */
    method DrawProvider(p: L.Provider)
      modifies this
      ensures State() == L.ProviderLines(old(State()), p)
    {
      ghost var c0 := State();
      var practiceName := L.PracticeLine(p);
      var a: seq<L.DrawOp> := [];
      if practiceName != "" {
        a := [L.Text(practiceName, L.MARGIN, yPos, 12, L.HelveticaBold)];
        Draw(a);
        yPos := yPos - 16;
      }
      ghost var c1 := State();
      var b: seq<L.DrawOp> := [];
      if Truthy(p.practiceName) && Truthy(p.fullName) {
        b := [L.Text("Provider: " + p.fullName.value, L.MARGIN, yPos, 10, L.Helvetica)];
        Draw(b);
        yPos := yPos - 14;
      }
      assert a + b == L.ProviderOps(p, c0.y);
      L.PutNothing(c0.pages);
      L.PutNothing(c1.pages);
      L.PutPut(c0.pages, a, b);
    }

    method DrawHeader(provider: Option<L.Provider>)
      modifies this
      ensures State() == L.Header(old(State()), provider)
    {
      Draw([L.Text("CONSENT FORM", L.MARGIN, yPos, 24, L.HelveticaBold)]);
      yPos := yPos - 30;
      if provider.Some? {
        DrawProvider(provider.value);
      }
      yPos := yPos - 8;
      Draw([L.Rule(yPos)]);
      yPos := yPos - 16;
    }

    /** The footer loop: every page gets the rule, the notice and its page number. */
    method StampFooters()
      modifies this
      ensures pages == L.Footers(old(pages)) && yPos == old(yPos)
    {
      var totalPages := |pages|;
      for i := 0 to totalPages
        invariant |pages| == totalPages
        invariant forall k :: 0 <= k < i ==> pages[k] == old(pages)[k] + L.FooterOps(k, totalPages)
        invariant forall k :: i <= k < totalPages ==> pages[k] == old(pages)[k]
        invariant yPos == old(yPos)
      {
        pages := pages[i := pages[i] + L.FooterOps(i, totalPages)];
      }
    }

    /** Everything the generator draws, in the source's order. */
    method RenderContent(req: L.Request)
      modifies this
      requires State() == L.Start
      ensures State() == L.Content(metrics, req)
    {
      DrawHeader(req.provider);
      DrawSectionBox("PROCEDURE / TREATMENT", L.ProcedureBody(L.ProcedureName(req.consentModule)));
      DrawSectionBox("PATIENT INFORMATION", L.PatientBody(L.PatientName(req.submission), req.submission.email));
      var d := L.Description(req.consentModule);
      if Truthy(d) {
        DrawSectionBox("CONSENT INFORMATION", L.ConsentBody(d.value));
      }
      DrawSectionBox("ACKNOWLEDGMENT", L.AcknowledgmentBody);
      EnsureSpace(180);
      DrawSectionBox("DIGITAL SIGNATURE", L.SignatureOf(req));
    }
  }

  /** The whole generation: a new document, the content, the footers. */
  method Generate(metrics: L.Metrics, req: L.Request) returns (pdf: L.Pages)
    ensures pdf == L.Document(metrics, req)
  {
    var layout := new Layout(metrics);
    layout.RenderContent(req);
    layout.StampFooters();
    pdf := layout.pages;
  }
}
