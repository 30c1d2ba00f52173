/**
 * The single-document PDF (utils/FormPdfWriter.kt): a data page of label/value pairs, with
 * page breaks by `ensureSpace`, and an attachments section that always starts a page of its
 * own. The canvas is a log of draw operations per page; text widths come from `measure` and
 * the value line height from the font metrics, both parameters of the writer.
 */
module FormPdfWriter {
  import opened Wrappers
  import Text
  import Wrap

  const PageW := 595
  const PageH := 842
  const Margin := 36
  /** `pageH - margin`: what `ensureSpace` keeps clear of. */
  const Bottom := PageH - Margin
  /** The thin rule `newPage` draws at the top of every page. */
  const HeaderY := Margin - 6
  /** `margin + marginTop` with marginTop 20, then `(textSize + k).toInt()` for title 18 and subtitle 12. */
  const TitleY := Margin + 20
  const TitleStep := 24
  const SubtitleStep := 22
  /** Where the first item goes under a title block (`drawTitle` + 6). */
  const AfterTitle := TitleY + TitleStep + SubtitleStep + 10 + 6
  const FieldNeed := 34
  const FooterNeed := 40
  const AttachmentNeed := 24
  /** `((pageW - 2 * margin) * 0.36f).toInt()` after the margin; the value column runs to the right margin. */
  const ValueX := Margin + 188
  const ValueW := PageW - Margin - ValueX
  const NoAttachmentsText := "Tidak ada lampiran."

  /** What a drawn text is. */
  datatype Part = TitleText | SubtitleText | Label | Colon | Value | Footer
                | AttachmentLine | NoAttachments | AttachmentTotal

  /** `drawText` at height y (horizontal positions are not modelled) and `drawLine` across at y. */
  datatype Op = Text(s: string, y: int, part: Part) | Rule(y: int)

  datatype Page = Page(number: int, ops: seq<Op>)

  /** `ensureSpace`'s test: the item fits on the current page. */
  predicate HasSpace(y: int, need: int)
  {
    y + need <= Bottom
  }

  /** `v.ifBlank { "-" }`. */
  function Shown(v: string): string
  {
    assert "-"[0] == '-';
    Text.IfBlank(v, "-")
  }

  /** The lines `drawMultiline` draws for a value. */
  function ValueLines(v: string, measure: string -> int): seq<string>
  {
    Wrap.Lines(Text.SplitWhitespace(Shown(v)), Wrap.FitsWidth(measure, ValueW), false)
  }

  /** Every value line is non-empty, and fits the value column or is one word too wide alone. */
  lemma ValueLinesShape(v: string, measure: string -> int)
    ensures forall l :: l in ValueLines(v, measure) ==>
      l != "" && (measure(l) <= ValueW || l in Text.SplitWhitespace(Shown(v)))
  {
    Wrap.LinesShape(Text.SplitWhitespace(Shown(v)), Wrap.FitsWidth(measure, ValueW), false);
  }

  function LineItems(lines: seq<string>): (r: seq<(Part, string)>)
    ensures |r| == |lines| && forall k :: 0 <= k < |r| ==> r[k] == (Value, lines[k])
  {
    seq(|lines|, k requires 0 <= k < |lines| => (Value, lines[k]))
  }

  /** The content of one label/value pair: the label, its colon, then the value lines. */
  function FieldPart(f: (string, string), measure: string -> int): seq<(Part, string)>
  {
    [(Label, f.0), (Colon, ":")] + LineItems(ValueLines(f.1, measure))
  }

  /** The content of the label/value pairs, in order. */
  function FieldItems(fields: seq<(string, string)>, measure: string -> int): seq<(Part, string)>
  {
    if fields == [] then []
    else FieldItems(fields[..|fields| - 1], measure) + FieldPart(fields[|fields| - 1], measure)
  }

  /** The labels among drawn texts, in order. */
  function LabelsOf(items: seq<(Part, string)>): seq<string>
  {
    if items == [] then []
    else LabelsOf(items[..|items| - 1]) + (if items[|items| - 1].0 == Label then [items[|items| - 1].1] else [])
  }

  function Keys(fields: seq<(string, string)>): (r: seq<string>)
    ensures |r| == |fields| && forall i :: 0 <= i < |fields| ==> r[i] == fields[i].0
  {
    seq(|fields|, i requires 0 <= i < |fields| => fields[i].0)
  }

  lemma {:induction false} LabelsAppend(a: seq<(Part, string)>, b: seq<(Part, string)>)
    ensures LabelsOf(a + b) == LabelsOf(a) + LabelsOf(b)
    decreases |b|
  {
    if b == [] {
      assert a + b == a;
    } else {
      var b' := b[..|b| - 1];
      LabelsAppend(a, b');
      assert (a + b)[..|a + b| - 1] == a + b';
      assert (a + b)[|a + b| - 1] == b[|b| - 1];
    }
  }

  lemma {:induction false} ValueLinesHaveNoLabel(lines: seq<string>)
    ensures LabelsOf(LineItems(lines)) == []
    decreases |lines|
  {
    if lines != [] {
      var init := lines[..|lines| - 1];
      ValueLinesHaveNoLabel(init);
      assert LineItems(lines) == LineItems(init) + [(Value, lines[|lines| - 1])];
      LabelsAppend(LineItems(init), [(Value, lines[|lines| - 1])]);
      assert LabelsOf([(Value, lines[|lines| - 1])]) == LabelsOf([]) + [];
    }
  }

  lemma KeysLast(fields: seq<(string, string)>)
    requires fields != []
    ensures Keys(fields) == Keys(fields[..|fields| - 1]) + [fields[|fields| - 1].0]
  {
  }

  lemma FieldPartLabel(f: (string, string), measure: string -> int)
    ensures LabelsOf(FieldPart(f, measure)) == [f.0]
  {
    var head: seq<(Part, string)> := [(Label, f.0), (Colon, ":")];
    LabelsAppend(head, LineItems(ValueLines(f.1, measure)));
    ValueLinesHaveNoLabel(ValueLines(f.1, measure));
    var one: seq<(Part, string)> := [(Label, f.0)];
    assert head[..1] == one && one[..0] == [];
    assert LabelsOf(one) == [f.0];
    assert LabelsOf(head) == [f.0];
  }

  /** The drawn labels are the fields' labels, each once and in the given order. */
  lemma {:induction false} FieldLabelsInOrder(fields: seq<(string, string)>, measure: string -> int)
    ensures LabelsOf(FieldItems(fields, measure)) == Keys(fields)
    decreases |fields|
  {
    if fields != [] {
      var init, f := fields[..|fields| - 1], fields[|fields| - 1];
      FieldLabelsInOrder(init, measure);
      LabelsAppend(FieldItems(init, measure), FieldPart(f, measure));
      FieldPartLabel(f, measure);
      KeysLast(fields);
    }
  }

  /** The first section: its title block, the pairs, then the footer note when there is one. */
  function DataItems(title: string, subtitle: string, fields: seq<(string, string)>,
                     footer: Option<string>, measure: string -> int): seq<(Part, string)>
  {
    [(TitleText, "Data " + title), (SubtitleText, subtitle)] + FieldItems(fields, measure)
    + (if footer.Some? then [(Footer, footer.value)] else [])
  }

  /** `"${i + 1}. $name"`. */
  function NumberedLine(atts: seq<string>, i: int): (Part, string)
    requires 0 <= i < |atts|
  {
    (AttachmentLine, Text.IntToString(i + 1) + ". " + atts[i])
  }

  /** The numbered line of each attachment, in order. */
  function Numbered(atts: seq<string>): (r: seq<(Part, string)>)
    ensures |r| == |atts|
    ensures forall i :: 0 <= i < |atts| ==> r[i] == NumberedLine(atts, i)
  {
    if atts == [] then []
    else Numbered(atts[..|atts| - 1]) + [NumberedLine(atts, |atts| - 1)]
  }

  lemma NumberedStep(atts: seq<string>, i: int)
    requires 0 <= i < |atts|
    ensures Numbered(atts[..i + 1]) == Numbered(atts[..i]) + [NumberedLine(atts, i)]
  {
    assert atts[..i + 1][..i] == atts[..i];
  }

  function TotalText(n: int): string
  {
    "Total lampiran: " + Text.IntToString(n)
  }

  /** The second section: its title block, then the note for none or the numbered list and its total. */
  function AttachmentItems(title: string, subtitle: string, atts: seq<string>): seq<(Part, string)>
  {
    [(TitleText, "Lampiran " + title), (SubtitleText, subtitle)]
    + (if atts == [] then [(NoAttachments, NoAttachmentsText)]
       else Numbered(atts) + [(AttachmentTotal, TotalText(|atts|))])
  }

  /** The content an op contributes: its part and text. */
  function ItemOf(op: Op): seq<(Part, string)>
  {
    if op.Text? then [(op.part, op.s)] else []
  }

  function Content(ops: seq<Op>): seq<(Part, string)>
  {
    if ops == [] then [] else Content(ops[..|ops| - 1]) + ItemOf(ops[|ops| - 1])
  }

  function AllOps(pages: seq<Page>): seq<Op>
  {
    if pages == [] then [] else AllOps(pages[..|pages| - 1]) + pages[|pages| - 1].ops
  }

  /** A page starts with the header rule `newPage` draws. */
  predicate Headed(ops: seq<Op>)
  {
    ops != [] && ops[0] == Rule(HeaderY)
  }

  class FormPdfWriter {
    const title: string
    const subtitle: string
    /** The label/value pairs, in order. */
    const fields: seq<(string, string)>
    /** The attachment names, in order. */
    const attachments: seq<string>
    const footerNote: Option<string>
    /** `pKVValue.measureText`. */
    const measure: string -> int
    /** `(fm.bottom - fm.top + 2).toInt()` for the value paint. */
    const lineH: int
    var pageNo: int
    /** The finished pages, in order. */
    var pages: seq<Page>
    /** The canvas of the open page. */
    var current: seq<Op>
    /** The ops of the pages finished since the section began. */
    ghost var done: seq<Op>
    /** What the section has drawn so far, open page included. */
    ghost var content: seq<(Part, string)>

    constructor(title: string, subtitle: string, fields: seq<(string, string)>, attachments: seq<string>,
                footerNote: Option<string>, measure: string -> int, lineH: int)
      ensures this.title == title && this.subtitle == subtitle && this.fields == fields
      ensures this.attachments == attachments && this.footerNote == footerNote
      ensures this.measure == measure && this.lineH == lineH
      ensures pageNo == 0 && pages == [] && current == []
    {
      this.title, this.subtitle, this.fields, this.attachments := title, subtitle, fields, attachments;
      this.footerNote, this.measure, this.lineH := footerNote, measure, lineH;
      pageNo, pages, current, done, content := 0, [], [], [], [];
    }

    /**
     * The pages before the section are `prior`; those finished since are numbered on from
     * n0 + 1 and each starts with the header rule, the open page has number pageNo next, and
     * `done` holds their ops.
     */
    ghost predicate Finished(prior: seq<Page>, n0: int)
      reads this`pages, this`pageNo, this`done
    {
      && |prior| <= |pages| && pages[..|prior|] == prior && pageNo == n0 + (|pages| - |prior|) + 1
      && Run(pages[|prior|..], n0) && done == AllOps(pages[|prior|..])
    }

    /** The open page has its header, and `content` is what the section has drawn. */
    ghost predicate Open()
      reads this`current, this`done, this`content
    {
      Headed(current) && content == Content(done + current)
    }

    /** `newPage(doc)`: the next page number, and the header rule. */
    method NewPage()
      modifies this`pageNo, this`current
      ensures pageNo == old(pageNo) + 1 && current == [Rule(HeaderY)]
    {
      pageNo := pageNo + 1;
      current := [Rule(HeaderY)];
    }

    /** `finishPage(doc, page)`. */
    method FinishPage(ghost prior: seq<Page>, ghost n0: int)
      requires Finished(prior, n0) && Headed(current)
      modifies this`pages, this`done
      ensures pages == old(pages) + [Page(pageNo, current)] && done == old(done) + current
      ensures |prior| <= |pages| && pages[..|prior|] == prior && done == AllOps(pages[|prior|..])
      ensures Run(pages[|prior|..], n0)
    {
      ghost var before := pages[|prior|..];
      pages := pages + [Page(pageNo, current)];
      done := done + current;
      assert pages[|prior|..] == before + [Page(pageNo, current)];
      assert pages[..|prior|] == old(pages)[..|prior|];
      AllOpsSnoc(before, Page(pageNo, current));
      RunSnoc(before, Page(pageNo, current), n0);
    }

    /**
     * `ensureSpace(doc, page, y, need)`: the page and y are kept when the item fits above
     * `pageH - margin`; otherwise the page is finished and a new one started, at y = margin.
     * Nothing is drawn but the new page's header rule.
     */
    method EnsureSpace(y: int, need: int, ghost prior: seq<Page>, ghost n0: int) returns (y': int)
      requires Finished(prior, n0) && Open()
      modifies this`pages, this`pageNo, this`current, this`done
      ensures Finished(prior, n0) && Open()
      ensures HasSpace(y, need) ==> y' == y && pages == old(pages) && pageNo == old(pageNo) && current == old(current)
      ensures !HasSpace(y, need) ==> y' == Margin && |pages| == |old(pages)| + 1 && current == [Rule(HeaderY)]
    {
      if HasSpace(y, need) {
        y' := y;
      } else {
        ghost var before := done + current;
        FinishPage(prior, n0);
        NewPage();
        assert done + current == before + [Rule(HeaderY)];
        ContentAppendOne(before, Rule(HeaderY));
        y' := Margin;
      }
    }

    /** One draw call on the open page. */
    method Put(op: Op)
      requires Open()
      modifies this`current, this`content
      ensures Open() && current == old(current) + [op] && content == old(content) + ItemOf(op)
    {
      PutKeeps(done, current, op);
      current := current + [op];
      content := content + ItemOf(op);
    }

    /** `drawTitle(canvas, text, subtitle, marginTop = 20)` followed by `y += 6`. */
    method DrawTitle(text: string) returns (y: int)
      requires Open()
      modifies this`current, this`content
      ensures Open() && content == old(content) + [(TitleText, text), (SubtitleText, subtitle)]
      ensures y == AfterTitle
    {
      y := TitleY;
      Put(Text(text, y, TitleText));
      y := y + TitleStep;
      Put(Text(subtitle, y, SubtitleText));
      y := y + SubtitleStep;
      Put(Rule(y));
      y := y + 10 + 6;
    }

    /**
     * `drawMultiline(canvas, text, startX, startY, paint, maxW)`: the words of the text, split
     * at runs of whitespace, packed greedily into lines one lineH apart; an empty line is
     * never drawn. Returns the y under the last line.
     */
    method DrawMultiline(text: string, startY: int) returns (y: int)
      requires Open()
      modifies this`current, this`content
      ensures Open()
      ensures content == old(content) + LineItems(Wrap.Lines(Text.SplitWhitespace(text), Wrap.FitsWidth(measure, ValueW), false))
      ensures y == startY + |Wrap.Lines(Text.SplitWhitespace(text), Wrap.FitsWidth(measure, ValueW), false)| * lineH
    {
      var words := Text.SplitWhitespace(text);
      ghost var fits := Wrap.FitsWidth(measure, ValueW);
      var line := "";
      y := startY;
      ghost var drawn: seq<string> := [];
      assert words[..0] == [];
      for i := 0 to |words|
        invariant Open() && (drawn, line) == Wrap.Pack(words[..i], fits, false)
        invariant content == old(content) + LineItems(drawn) && y == startY + |drawn| * lineH
      {
        line, y, drawn := PackWord(words, i, line, y, drawn, old(content), startY);
      }
      assert words[..|words|] == words;
      y, drawn := Flush(line, y, drawn, old(content), startY);
    }

    /** One word of `drawMultiline`: it joins the line when that still fits, else the line is flushed. */
    method PackWord(words: seq<string>, i: nat, line0: string, y0: int, ghost drawn0: seq<string>,
                    ghost c0: seq<(Part, string)>, ghost startY: int)
      returns (line: string, y: int, ghost drawn: seq<string>)
      requires i < |words|
      requires Open() && (drawn0, line0) == Wrap.Pack(words[..i], Wrap.FitsWidth(measure, ValueW), false)
      requires content == c0 + LineItems(drawn0) && y0 == startY + |drawn0| * lineH
      modifies this`current, this`content
      ensures Open() && (drawn, line) == Wrap.Pack(words[..i + 1], Wrap.FitsWidth(measure, ValueW), false)
      ensures content == c0 + LineItems(drawn) && y == startY + |drawn| * lineH
    {
      ghost var fits := Wrap.FitsWidth(measure, ValueW);
      var w := words[i];
      var tryLine := if line0 == "" then w else line0 + " " + w;
      assert fits(tryLine) == (measure(tryLine) <= ValueW);
      assert tryLine == Wrap.Trial(line0, w);
      Wrap.PackSnoc(words, i, fits, false);
      if measure(tryLine) > ValueW {
        y, drawn := Flush(line0, y0, drawn0, c0, startY);
        line := w;
      } else {
        line, y, drawn := tryLine, y0, drawn0;
      }
    }

    /** `flush()`: the current line, when not empty, drawn at y, and y moved down a line. */
    method Flush(line: string, y0: int, ghost drawn0: seq<string>, ghost c0: seq<(Part, string)>, ghost startY: int)
      returns (y: int, ghost drawn: seq<string>)
      requires Open() && content == c0 + LineItems(drawn0) && y0 == startY + |drawn0| * lineH
      modifies this`current, this`content
      ensures Open() && drawn == drawn0 + (if line != "" then [line] else [])
      ensures content == c0 + LineItems(drawn) && y == startY + |drawn| * lineH
    {
      y, drawn := y0, drawn0;
      if line != "" {
        LineItemsSnoc(drawn, line);
        MulStep(|drawn|, lineH);
        Put(Text(line, y, Value));
        y := y + lineH;
        drawn := drawn + [line];
      } else {
        assert drawn + [] == drawn;
      }
    }

    /** One label/value pair: its break check, the label and colon, the value lines, then a rule. */
    method DrawField(k: string, v: string, y0: int, ghost prior: seq<Page>, ghost n0: int) returns (y: int)
      requires Finished(prior, n0) && Open()
      modifies this`pages, this`pageNo, this`current, this`done, this`content
      ensures Finished(prior, n0) && Open()
      ensures content == old(content) + FieldPart((k, v), measure)
    {
      y := EnsureSpace(y0, FieldNeed, prior, n0);
      y := DrawPair(k, v, y);
    }

    /** The label and colon at y, the value lines from y, then a rule under them. */
    method DrawPair(k: string, v: string, y0: int) returns (y: int)
      requires Open()
      modifies this`current, this`content
      ensures Open() && content == old(content) + FieldPart((k, v), measure)
    {
      ghost var lines := ValueLines(v, measure);
      Put(Text(k, y0, Label));
      Put(Text(":", y0, Colon));
      ghost var c1 := content;
      assert c1 == old(content) + [(Label, k), (Colon, ":")];
      y := DrawMultiline(Shown(v), y0);
      assert content == c1 + LineItems(lines);
      Assoc(old(content), [(Label, k), (Colon, ":")], LineItems(lines));
      y := y + 10;
      Put(Rule(y));
      y := y + 6;
    }

    /** The `for ((k, v) in fields)` loop. */
    method DrawFields(y0: int, ghost prior: seq<Page>, ghost n0: int) returns (y: int)
      requires Finished(prior, n0) && Open()
      modifies this`pages, this`pageNo, this`current, this`done, this`content
      ensures Finished(prior, n0) && Open()
      ensures content == old(content) + FieldItems(fields, measure)
    {
      y := y0;
      for i := 0 to |fields|
        invariant Finished(prior, n0) && Open()
        invariant content == old(content) + FieldItems(fields[..i], measure)
      {
        ghost var c := content;
        y := DrawField(fields[i].0, fields[i].1, y, prior, n0);
        assert fields[..i + 1][..i] == fields[..i];
        assert FieldItems(fields[..i + 1], measure) == FieldItems(fields[..i], measure) + FieldPart(fields[i], measure);
        Assoc(old(content), FieldItems(fields[..i], measure), FieldPart(fields[i], measure));
      }
      assert fields[..|fields|] == fields;
    }

    /** The footer note, when there is one, after its break check. */
    method DrawFooter(y0: int, ghost prior: seq<Page>, ghost n0: int) returns (y: int)
      requires Finished(prior, n0) && Open()
      modifies this`pages, this`pageNo, this`current, this`done, this`content
      ensures Finished(prior, n0) && Open()
      ensures content == old(content) + (if footerNote.Some? then [(Footer, footerNote.value)] else [])
    {
      y := y0;
      if footerNote.Some? {
        y := EnsureSpace(y, FooterNeed, prior, n0);
        Put(Text(footerNote.value, y + 12, Footer));
        y := y + 22;
      }
    }

    /** Page one and any pages the fields run onto, from a new page to the last field or footer. */
    method DataSection()
      modifies this`pages, this`pageNo, this`current, this`done, this`content
      ensures Finished(old(pages), old(pageNo)) && Open()
      ensures content == DataItems(title, subtitle, fields, footerNote, measure)
    {
      ghost var prior, n0 := pages, pageNo;
      StartSection();
      ghost var head := [(TitleText, "Data " + title), (SubtitleText, subtitle)];
      var y := DrawTitle("Data " + title);
      assert content == head;
      y := DrawFields(y, prior, n0);
      ghost var body := content;
      y := DrawFooter(y, prior, n0);
      ghost var foot := if footerNote.Some? then [(Footer, footerNote.value)] else [];
      assert content == head + FieldItems(fields, measure) + foot;
    }

    /** A section's first page: a new page, nothing drawn yet for the section. */
    method StartSection()
      modifies this`pageNo, this`current, this`done, this`content
      ensures Finished(pages, old(pageNo)) && Open() && content == []
      ensures current == [Rule(HeaderY)]
    {
      done, content := [], [];
      NewPage();
      assert pages[|pages|..] == [];
      assert Content(done + current) == Content([]) + ItemOf(Rule(HeaderY));
    }

    /** The attachments page: the note for none, or each numbered name after its break check and the total. */
    method AttachmentSection()
      modifies this`pages, this`pageNo, this`current, this`done, this`content
      ensures Finished(old(pages), old(pageNo)) && Open()
      ensures content == AttachmentItems(title, subtitle, attachments)
    {
      ghost var prior, n0 := pages, pageNo;
      StartSection();
      var y := DrawTitle("Lampiran " + title);
      assert content == [(TitleText, "Lampiran " + title), (SubtitleText, subtitle)];
      AttachmentBody(y, prior, n0);
    }

    /** Under the attachments page's title: the note for none, or the numbered list and its total. */
    method AttachmentBody(y0: int, ghost prior: seq<Page>, ghost n0: int)
      requires Finished(prior, n0) && Open()
      modifies this`pages, this`pageNo, this`current, this`done, this`content
      ensures Finished(prior, n0) && Open()
      ensures content == old(content) +
        (if attachments == [] then [(NoAttachments, NoAttachmentsText)]
         else Numbered(attachments) + [(AttachmentTotal, TotalText(|attachments|))])
    {
      if attachments == [] {
        Put(Text(NoAttachmentsText, y0 + 12, NoAttachments));
      } else {
        var y := DrawAttachmentList(y0, prior, n0);
        Assoc(old(content), Numbered(attachments), [(AttachmentTotal, TotalText(|attachments|))]);
      }
    }

    /** One numbered attachment name after its break check, and a rule under it. */
    method DrawAttachment(i: int, y0: int, ghost prior: seq<Page>, ghost n0: int) returns (y: int)
      requires 0 <= i < |attachments| && Finished(prior, n0) && Open()
      modifies this`pages, this`pageNo, this`current, this`done, this`content
      ensures Finished(prior, n0) && Open()
      ensures content == old(content) + [NumberedLine(attachments, i)]
    {
      y := EnsureSpace(y0, AttachmentNeed, prior, n0);
      Put(Text(Text.IntToString(i + 1) + ". " + attachments[i], y + 12, AttachmentLine));
      y := y + 18;
      Put(Rule(y));
      y := y + 4;
    }

    /** The numbered attachment names, each after its break check, then the total. */
    method DrawAttachmentList(y0: int, ghost prior: seq<Page>, ghost n0: int) returns (y: int)
      requires Finished(prior, n0) && Open()
      modifies this`pages, this`pageNo, this`current, this`done, this`content
      ensures Finished(prior, n0) && Open()
      ensures content == old(content) + Numbered(attachments) + [(AttachmentTotal, TotalText(|attachments|))]
    {
      y := y0;
      for i := 0 to |attachments|
        invariant Finished(prior, n0) && Open()
        invariant content == old(content) + Numbered(attachments[..i])
      {
        y := DrawAttachment(i, y, prior, n0);
        NumberedStep(attachments, i);
        Assoc(old(content), Numbered(attachments[..i]), [NumberedLine(attachments, i)]);
      }
      assert attachments[..|attachments|] == attachments;
      y := y + 8;
      Put(Text(TotalText(|attachments|), y, AttachmentTotal));
    }

    /**
     * The pages after `prior` are numbered on from n0 + 1 and start with the header rule,
     * the counter has reached the last of them, and together they draw `items`.
     */
    ghost predicate Wrote(prior: seq<Page>, n0: int, items: seq<(Part, string)>)
      reads this`pages, this`pageNo
    {
      && |prior| < |pages| && pages[..|prior|] == prior && pageNo == n0 + (|pages| - |prior|)
      && Run(pages[|prior|..], n0) && Content(AllOps(pages[|prior|..])) == items
    }

    /** Page one and the pages the data runs onto, finished. */
    method DataPages()
      modifies this`pages, this`pageNo, this`current, this`done, this`content
      ensures Wrote(old(pages), old(pageNo), DataItems(title, subtitle, fields, footerNote, measure))
    {
      ghost var prior, n0 := pages, pageNo;
      DataSection();
      FinishPage(prior, n0);
    }

    /** The attachments pages, finished. */
    method AttachmentPages()
      modifies this`pages, this`pageNo, this`current, this`done, this`content
      ensures Wrote(old(pages), old(pageNo), AttachmentItems(title, subtitle, attachments))
    {
      ghost var prior, n0 := pages, pageNo;
      AttachmentSection();
      FinishPage(prior, n0);
    }

    /**
     * `writeTo(doc)`: the data section from a new page, then the attachments section from a
     * page of its own (`split`), so at least two pages; page numbers run on from the counter;
     * every page starts with the header rule; each section draws exactly its content.
     */
    method WriteTo() returns (ghost split: int)
      modifies this`pages, this`pageNo, this`current, this`done, this`content
      ensures |old(pages)| < split < |pages| && pages[..|old(pages)|] == old(pages)
      ensures pageNo == old(pageNo) + (|pages| - |old(pages)|) && Run(pages[|old(pages)|..], old(pageNo))
      ensures Content(AllOps(pages[|old(pages)|..split])) == DataItems(title, subtitle, fields, footerNote, measure)
      ensures Content(AllOps(pages[split..])) == AttachmentItems(title, subtitle, attachments)
    {
      ghost var prior, n0 := pages, pageNo;
      DataPages();
      ghost var data := pages[|prior|..];
      assert pages == prior + data;
      split := |pages|;
      ghost var mid, n1 := pages, pageNo;
      AttachmentPages();
      ghost var atts := pages[split..];
      assert pages == mid + atts;
      assert pages == prior + data + atts;
      assert pages[|prior|..] == data + atts;
      assert pages[|prior|..split] == data;
      RunAppend(data, atts, n0);
    }
  }

  /** Pages numbered on from n0 + 1, each starting with the header rule. */
  ghost predicate Run(ps: seq<Page>, n0: int)
  {
    forall i :: 0 <= i < |ps| ==> ps[i].number == n0 + 1 + i && Headed(ps[i].ops)
  }

  lemma RunSnoc(ps: seq<Page>, p: Page, n0: int)
    requires Run(ps, n0) && p.number == n0 + 1 + |ps| && Headed(p.ops)
    ensures Run(ps + [p], n0)
  {
  }

  lemma RunAppend(a: seq<Page>, b: seq<Page>, n0: int)
    requires Run(a, n0) && Run(b, n0 + |a|)
    ensures Run(a + b, n0)
  {
  }

  lemma Assoc<T>(a: seq<T>, b: seq<T>, c: seq<T>)
    ensures a + b + c == a + (b + c)
  {
  }

  lemma MulStep(n: int, h: int)
    ensures (n + 1) * h == n * h + h
  {
  }

  lemma LineItemsSnoc(lines: seq<string>, l: string)
    ensures LineItems(lines + [l]) == LineItems(lines) + [(Value, l)]
  {
  }

  lemma AllOpsSnoc(ps: seq<Page>, p: Page)
    ensures AllOps(ps + [p]) == AllOps(ps) + p.ops
  {
    assert (ps + [p])[..|ps|] == ps;
  }

  /** Drawing one more op on a headed page keeps it headed and adds that op's content. */
  lemma PutKeeps(done: seq<Op>, current: seq<Op>, op: Op)
    requires Headed(current)
    ensures Headed(current + [op]) && Content(done + (current + [op])) == Content(done + current) + ItemOf(op)
  {
    ContentAppendOne(done + current, op);
    assert done + (current + [op]) == done + current + [op];
  }

  lemma ContentAppendOne(ops: seq<Op>, op: Op)
    ensures Content(ops + [op]) == Content(ops) + ItemOf(op)
  {
    assert (ops + [op])[..|ops|] == ops;
  }
}
