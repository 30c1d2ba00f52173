/**
 * The greedy word wrap shared by the two `drawMultiline` helpers (utils/FormPdfWriter.kt and
 * activities/DocumentDetailActivity.kt): words are added to the current line while the trial
 * line still fits; a word that does not fit starts the next line. `fits` stands for
 * `measureText(trial) <= maxWidth`, whose font metrics are not part of this model. The two
 * helpers differ only in whether an empty current line is drawn when a word overflows.
 */
module Wrap {
  import Text
  import Lists

  /** `measureText(trial) <= maxWidth`. */
  function FitsWidth(measure: string -> int, maxW: int): string -> bool
  {
    (l: string) => measure(l) <= maxW
  }

  /** The trial line of `"${line} $w"`, or w alone on an empty line. */
  function Trial(line: string, w: string): string
  {
    if line == "" then w else line + " " + w
  }

  /**
   * The state after the given words: the lines drawn so far and the current line. An
   * overflowing word draws the current line (an empty one only when emitEmpty) and starts
   * a new line with itself.
   */
  function Pack(ws: seq<string>, fits: string -> bool, emitEmpty: bool): (seq<string>, string)
    decreases |ws|
  {
    if ws == [] then ([], "")
    else
      var p := Pack(ws[..|ws| - 1], fits, emitEmpty);
      var w := ws[|ws| - 1];
      var trial := Trial(p.1, w);
      if fits(trial) then (p.0, trial)
      else (p.0 + (if emitEmpty || p.1 != "" then [p.1] else []), w)
  }

  /** Packing one more word: it joins the line when the trial fits, else it starts a new one. */
  lemma PackSnoc(ws: seq<string>, i: nat, fits: string -> bool, emitEmpty: bool)
    requires i < |ws|
    ensures fits(Trial(Pack(ws[..i], fits, emitEmpty).1, ws[i])) ==>
      Pack(ws[..i + 1], fits, emitEmpty) == (Pack(ws[..i], fits, emitEmpty).0, Trial(Pack(ws[..i], fits, emitEmpty).1, ws[i]))
    ensures !fits(Trial(Pack(ws[..i], fits, emitEmpty).1, ws[i])) ==>
      Pack(ws[..i + 1], fits, emitEmpty) ==
        (Pack(ws[..i], fits, emitEmpty).0 +
           (if emitEmpty || Pack(ws[..i], fits, emitEmpty).1 != "" then [Pack(ws[..i], fits, emitEmpty).1] else []),
         ws[i])
  {
    assert ws[..i + 1][..i] == ws[..i];
  }

  /** All lines drawn: those drawn while packing, then the last line when it is not empty. */
  function Lines(ws: seq<string>, fits: string -> bool, emitEmpty: bool): seq<string>
  {
    var p := Pack(ws, fits, emitEmpty);
    p.0 + (if p.1 != "" then [p.1] else [])
  }

  predicate NonEmptyLine(l: string)
  {
    l != ""
  }

  /** A line either fits, or it is a single word too wide on its own (or, when allowed, empty). */
  predicate Shaped(l: string, ws: seq<string>, fits: string -> bool, emitEmpty: bool)
  {
    (emitEmpty || l != "") && (l == "" || fits(l) || l in ws)
  }

  lemma {:induction false} PackShape(ws: seq<string>, fits: string -> bool, emitEmpty: bool)
    ensures forall l :: l in Pack(ws, fits, emitEmpty).0 ==> Shaped(l, ws, fits, emitEmpty)
    ensures Pack(ws, fits, emitEmpty).1 == "" || fits(Pack(ws, fits, emitEmpty).1)
         || Pack(ws, fits, emitEmpty).1 in ws
    decreases |ws|
  {
    if ws != [] {
      var init := ws[..|ws| - 1];
      PackShape(init, fits, emitEmpty);
      assert ws == init + [ws[|ws| - 1]];
      forall l | l in init ensures l in ws {}
    }
  }

  /**
   * Every drawn line fits the width or is one word too wide on its own, and no line is
   * empty unless empty lines are drawn at all.
   */
  lemma LinesShape(ws: seq<string>, fits: string -> bool, emitEmpty: bool)
    ensures forall l :: l in Lines(ws, fits, emitEmpty) ==> Shaped(l, ws, fits, emitEmpty)
  {
    PackShape(ws, fits, emitEmpty);
  }

  lemma {:induction false} JoinSnoc(xs: seq<string>, x: string, sep: string)
    ensures Text.Join(xs + [x], sep) == if xs == [] then x else Text.Join(xs, sep) + sep + x
    decreases |xs|
  {
    if |xs| == 1 {
      assert xs + [x] == [xs[0], x];
      assert (xs + [x])[1..] == [x];
    } else if |xs| > 1 {
      JoinSnoc(xs[1..], x, sep);
      assert (xs + [x])[1..] == xs[1..] + [x];
    }
  }

  predicate NoEmptyWord(ws: seq<string>)
  {
    forall i :: 0 <= i < |ws| ==> ws[i] != ""
  }

  /** With no empty words, the current line is never empty after the first word. */
  lemma PackLineNonEmpty(ws: seq<string>, fits: string -> bool, emitEmpty: bool)
    requires ws != [] && NoEmptyWord(ws)
    ensures Pack(ws, fits, emitEmpty).1 != ""
  {
  }

  /**
   * With no empty words, an empty line is drawn at most once, first, and only when the first
   * word alone does not fit.
   */
  lemma {:induction false} PackEmptyFirst(ws: seq<string>, fits: string -> bool, emitEmpty: bool)
    requires ws != [] && NoEmptyWord(ws)
    ensures forall k :: 0 < k < |Pack(ws, fits, emitEmpty).0| ==> Pack(ws, fits, emitEmpty).0[k] != ""
    ensures Pack(ws, fits, emitEmpty).0 != [] && Pack(ws, fits, emitEmpty).0[0] == "" ==> !fits(ws[0])
    decreases |ws|
  {
    var init := ws[..|ws| - 1];
    if init != [] {
      PackEmptyFirst(init, fits, emitEmpty);
      PackLineNonEmpty(init, fits, emitEmpty);
      assert init[0] == ws[0];
    }
  }

  /**
   * With no empty words, the non-empty drawn lines and the current line, joined by single
   * spaces, are the words so joined.
   */
  lemma {:induction false} PackRejoins(ws: seq<string>, fits: string -> bool, emitEmpty: bool)
    requires ws != [] && NoEmptyWord(ws)
    ensures Text.Join(Lists.Filter(Pack(ws, fits, emitEmpty).0, NonEmptyLine) + [Pack(ws, fits, emitEmpty).1], " ")
         == Text.Join(ws, " ")
    decreases |ws|
  {
    var init, w := ws[..|ws| - 1], ws[|ws| - 1];
    var q := Pack(ws, fits, emitEmpty);
    if init == [] {
      assert ws == [w];
      assert Pack(init, fits, emitEmpty) == ([], "");
      assert Lists.Filter(q.0, NonEmptyLine) == [];
    } else {
      PackRejoins(init, fits, emitEmpty);
      PackLineNonEmpty(init, fits, emitEmpty);
      var p := Pack(init, fits, emitEmpty);
      var f := Lists.Filter(p.0, NonEmptyLine);
      assert ws == init + [w];
      JoinSnoc(init, w, " ");
      if fits(p.1 + " " + w) {
        assert q == (p.0, p.1 + " " + w);
        JoinExtend(f, p.1, w, " ");
      } else {
        assert q == (p.0 + [p.1], w);
        Lists.FilterAppend(p.0, [p.1], NonEmptyLine);
        assert Lists.Filter([p.1], NonEmptyLine) == [p.1];
        JoinSnoc(f + [p.1], w, " ");
      }
    }
  }

  lemma JoinExtend(f: seq<string>, line: string, w: string, sep: string)
    ensures Text.Join(f + [line + sep + w], sep) == Text.Join(f + [line], sep) + sep + w
  {
    JoinSnoc(f, line, sep);
    JoinSnoc(f, line + sep + w, sep);
    if f != [] {
      assert Text.Join(f, sep) + sep + (line + sep + w) == Text.Join(f, sep) + sep + line + sep + w;
    }
  }

  /**
   * With no empty words, the non-empty drawn lines joined by single spaces give back the
   * words so joined, and an empty line is drawn only first, when the first word alone is
   * too wide.
   */
  lemma LinesRejoin(ws: seq<string>, fits: string -> bool, emitEmpty: bool)
    requires ws != [] && NoEmptyWord(ws)
    ensures Text.Join(Lists.Filter(Lines(ws, fits, emitEmpty), NonEmptyLine), " ") == Text.Join(ws, " ")
    ensures forall k :: 0 <= k < |Lines(ws, fits, emitEmpty)| && Lines(ws, fits, emitEmpty)[k] == "" ==>
      k == 0 && !fits(ws[0])
  {
    PackRejoins(ws, fits, emitEmpty);
    PackEmptyFirst(ws, fits, emitEmpty);
    PackLineNonEmpty(ws, fits, emitEmpty);
    var p := Pack(ws, fits, emitEmpty);
    assert Lines(ws, fits, emitEmpty) == p.0 + [p.1];
    Lists.FilterAppend(p.0, [p.1], NonEmptyLine);
    assert Lists.Filter([p.1], NonEmptyLine) == [p.1];
  }
}
