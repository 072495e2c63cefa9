/** Greedy per-character line breaking used by the chat panel to fit variable-width
    glyphs into a fixed pixel width. Only the partition into lines is modelled; the
    glyph metrics are an abstract width function. */
module TextLayout {

  /** Total pixel width of a run of characters. */
  function Width(s: string, width: char -> nat): nat
  {
    if s == [] then 0 else Width(s[..|s| - 1], width) + width(s[|s| - 1])
  }

  /** The characters of all lines, in order (what `''.join` of every line gives). */
  function Concat(lines: seq<string>): string
  {
    if lines == [] then [] else Concat(lines[..|lines| - 1]) + lines[|lines| - 1]
  }

  /** The wrap loop's variables: finished lines, the line being built and its width. */
  datatype LineState = LineState(lines: seq<string>, current: string, currentWidth: nat)

  /** One iteration of the wrap loop: the character joins the current line if the new
      total stays within the budget, otherwise the current line is closed (even when it
      is still empty) and a new line starts with the character. */
  function Step(st: LineState, c: char, width: char -> nat, maxWidth: nat): LineState
  {
    if st.currentWidth + width(c) > maxWidth then
      LineState(st.lines + [st.current], [c], width(c))
    else
      LineState(st.lines, st.current + [c], st.currentWidth + width(c))
  }

  /** The loop state after the characters of `text` have been processed. */
  function Scan(text: string, width: char -> nat, maxWidth: nat): LineState
  {
    if text == [] then LineState([], [], 0)
    else Step(Scan(text[..|text| - 1], width, maxWidth), text[|text| - 1], width, maxWidth)
  }

  /** The lines produced for `text`: the loop's lines, plus the last line if non-empty. */
  function Wrap(text: string, width: char -> nat, maxWidth: nat): seq<string>
  {
    var st := Scan(text, width, maxWidth);
    if st.current != [] then st.lines + [st.current] else st.lines
  }

  /** A line respects the budget unless it is one character that alone exceeds it. */
  predicate FitsOrSingle(line: string, width: char -> nat, maxWidth: nat)
  {
    Width(line, width) <= maxWidth || |line| == 1
  }

  /** The wrap loop: builds the lines character by character. */
  method RenderLines(text: string, width: char -> nat, maxWidth: nat) returns (lines: seq<string>)
    ensures lines == Wrap(text, width, maxWidth)
  {
    lines := [];
    var currentLine: string := [];
    var currentWidth: nat := 0;
    for i := 0 to |text|
      invariant LineState(lines, currentLine, currentWidth) == Scan(text[..i], width, maxWidth)
    {
      var c := text[i];
      var charWidth := width(c);
      assert text[..i + 1][..i] == text[..i];
      if currentWidth + charWidth > maxWidth {
        lines := lines + [currentLine];
        currentLine := [c];
        currentWidth := charWidth;
      } else {
        currentLine := currentLine + [c];
        currentWidth := currentWidth + charWidth;
      }
    }
    assert text[..|text|] == text;
    if currentLine != [] {
      lines := lines + [currentLine];
    }
  }

  lemma {:induction false} ConcatSnoc(lines: seq<string>, line: string)
    ensures Concat(lines + [line]) == Concat(lines) + line
  {
    assert (lines + [line])[..|lines|] == lines;
  }

  lemma {:induction false} WidthSnoc(s: string, c: char, width: char -> nat)
    ensures Width(s + [c], width) == Width(s, width) + width(c)
  {
    assert (s + [c])[..|s|] == s;
  }

  /** What holds of the loop state after processing prefix `p`: the text is kept and
      the tracked width is the current line's width. */
  ghost predicate KeepsText(st: LineState, p: string, width: char -> nat)
  {
    && Concat(st.lines) + st.current == p
    && st.currentWidth == Width(st.current, width)
    && (p == [] ==> st.lines == [] && st.current == [])
    && (p != [] ==> st.current != [])
  }

  /** Every line so far, and the current one, fits or is a single character. */
  ghost predicate AllFit(st: LineState, width: char -> nat, maxWidth: nat)
  {
    && FitsOrSingle(st.current, width, maxWidth)
    && (forall k :: 0 <= k < |st.lines| ==> FitsOrSingle(st.lines[k], width, maxWidth))
  }

  /** Only the first line may be empty, and only when the first character is too wide. */
  ghost predicate EmptyOnlyFirst(st: LineState, p: string, width: char -> nat, maxWidth: nat)
  {
    forall k :: 0 <= k < |st.lines| && st.lines[k] == [] ==>
      k == 0 && |p| > 0 && width(p[0]) > maxWidth
  }

  /** Each break happened because the next character did not fit. */
  ghost predicate GreedyBreaks(st: LineState, width: char -> nat, maxWidth: nat)
  {
    && (forall k :: 1 <= k < |st.lines| ==>
          st.lines[k] != [] && Width(st.lines[k - 1], width) + width(st.lines[k][0]) > maxWidth)
    && (|st.lines| > 0 && st.current != [] ==>
          Width(st.lines[|st.lines| - 1], width) + width(st.current[0]) > maxWidth)
  }

  ghost predicate ScanInvariant(st: LineState, p: string, width: char -> nat, maxWidth: nat)
  {
    KeepsText(st, p, width) && AllFit(st, width, maxWidth) &&
    EmptyOnlyFirst(st, p, width, maxWidth) && GreedyBreaks(st, width, maxWidth)
  }

  lemma {:induction false} BreakKeepsInvariant(st: LineState, p: string, c: char, width: char -> nat, maxWidth: nat)
    requires ScanInvariant(st, p, width, maxWidth)
    requires st.currentWidth + width(c) > maxWidth
    ensures ScanInvariant(LineState(st.lines + [st.current], [c], width(c)), p + [c], width, maxWidth)
  {
    var st' := LineState(st.lines + [st.current], [c], width(c));
    var p' := p + [c];
    ConcatSnoc(st.lines, st.current);
    WidthSnoc([], c, width);
    assert [] + [c] == [c];
    assert KeepsText(st', p', width);
    assert AllFit(st', width, maxWidth) by {
      forall k | 0 <= k < |st'.lines| ensures FitsOrSingle(st'.lines[k], width, maxWidth) {
        if k < |st.lines| { assert st'.lines[k] == st.lines[k]; }
      }
    }
    assert EmptyOnlyFirst(st', p', width, maxWidth) by {
      if p != [] { assert p'[0] == p[0]; }
      forall k | 0 <= k < |st'.lines| && st'.lines[k] == []
        ensures k == 0 && |p'| > 0 && width(p'[0]) > maxWidth
      {
        if k < |st.lines| { assert st'.lines[k] == st.lines[k]; }
      }
    }
    assert GreedyBreaks(st', width, maxWidth) by {
      forall k | 1 <= k < |st'.lines|
        ensures st'.lines[k] != [] && Width(st'.lines[k - 1], width) + width(st'.lines[k][0]) > maxWidth
      {
        if k == |st.lines| {
          assert st'.lines[k] == st.current && st'.lines[k - 1] == st.lines[k - 1];
        } else {
          assert st'.lines[k] == st.lines[k] && st'.lines[k - 1] == st.lines[k - 1];
        }
      }
    }
  }

  lemma {:induction false} AppendKeepsInvariant(st: LineState, p: string, c: char, width: char -> nat, maxWidth: nat)
    requires ScanInvariant(st, p, width, maxWidth)
    requires st.currentWidth + width(c) <= maxWidth
    ensures ScanInvariant(LineState(st.lines, st.current + [c], st.currentWidth + width(c)), p + [c], width, maxWidth)
  {
    var st' := LineState(st.lines, st.current + [c], st.currentWidth + width(c));
    var p' := p + [c];
    WidthSnoc(st.current, c, width);
    assert Concat(st'.lines) + st'.current == (Concat(st.lines) + st.current) + [c];
    assert KeepsText(st', p', width);
    assert AllFit(st', width, maxWidth);
    assert EmptyOnlyFirst(st', p', width, maxWidth) by {
      if p != [] { assert p'[0] == p[0]; }
    }
    assert GreedyBreaks(st', width, maxWidth) by {
      if st.current != [] { assert st'.current[0] == st.current[0]; }
    }
  }

  lemma {:induction false} StepKeepsInvariant(st: LineState, p: string, c: char, width: char -> nat, maxWidth: nat)
    requires ScanInvariant(st, p, width, maxWidth)
    ensures ScanInvariant(Step(st, c, width, maxWidth), p + [c], width, maxWidth)
  {
    if st.currentWidth + width(c) > maxWidth {
      BreakKeepsInvariant(st, p, c, width, maxWidth);
    } else {
      AppendKeepsInvariant(st, p, c, width, maxWidth);
    }
  }

  /** The loop invariant holds after every prefix of the input. */
  lemma {:induction false} ScanSatisfiesInvariant(text: string, width: char -> nat, maxWidth: nat)
    ensures ScanInvariant(Scan(text, width, maxWidth), text, width, maxWidth)
  {
    if text != [] {
      var p := text[..|text| - 1];
      ScanSatisfiesInvariant(p, width, maxWidth);
      StepKeepsInvariant(Scan(p, width, maxWidth), p, text[|text| - 1], width, maxWidth);
      assert p + [text[|text| - 1]] == text;
    }
  }

  lemma {:induction false} ScanKeepsText(text: string, width: char -> nat, maxWidth: nat)
    ensures KeepsText(Scan(text, width, maxWidth), text, width)
  {
    ScanSatisfiesInvariant(text, width, maxWidth);
  }

  lemma {:induction false} ScanAllFit(text: string, width: char -> nat, maxWidth: nat)
    ensures AllFit(Scan(text, width, maxWidth), width, maxWidth)
  {
    ScanSatisfiesInvariant(text, width, maxWidth);
  }

  lemma {:induction false} ScanEmptyOnlyFirst(text: string, width: char -> nat, maxWidth: nat)
    ensures EmptyOnlyFirst(Scan(text, width, maxWidth), text, width, maxWidth)
  {
    ScanSatisfiesInvariant(text, width, maxWidth);
  }

  lemma {:induction false} ScanGreedyBreaks(text: string, width: char -> nat, maxWidth: nat)
    ensures GreedyBreaks(Scan(text, width, maxWidth), width, maxWidth)
  {
    ScanSatisfiesInvariant(text, width, maxWidth);
  }

  /** Wrapping never drops or reorders characters, and empty input gives no lines. */
  lemma {:induction false} WrapPreservesText(text: string, width: char -> nat, maxWidth: nat)
    ensures Concat(Wrap(text, width, maxWidth)) == text
    ensures Wrap(text, width, maxWidth) == [] <==> text == []
  {
    var st := Scan(text, width, maxWidth);
    ScanKeepsText(text, width, maxWidth);
    if st.current != [] {
      ConcatSnoc(st.lines, st.current);
    }
  }

  /** Every line fits the budget, except a line holding a single over-wide character. */
  lemma {:induction false} WrapLinesFit(text: string, width: char -> nat, maxWidth: nat)
    ensures forall k :: 0 <= k < |Wrap(text, width, maxWidth)| ==>
              FitsOrSingle(Wrap(text, width, maxWidth)[k], width, maxWidth)
  {
    var st := Scan(text, width, maxWidth);
    var w := Wrap(text, width, maxWidth);
    ScanAllFit(text, width, maxWidth);
    forall k | 0 <= k < |w| ensures FitsOrSingle(w[k], width, maxWidth) {
      if k < |st.lines| {
        assert w[k] == st.lines[k];
      }
    }
  }

  /** An empty line is produced exactly when the very first character is wider than
      the budget, and then it is the first line. */
  lemma {:induction false} WrapEmptyLines(text: string, width: char -> nat, maxWidth: nat)
    ensures forall k :: 0 <= k < |Wrap(text, width, maxWidth)| && Wrap(text, width, maxWidth)[k] == [] ==>
              k == 0 && |text| > 0 && width(text[0]) > maxWidth
    ensures |text| > 0 && width(text[0]) > maxWidth ==>
              |Wrap(text, width, maxWidth)| >= 2 && Wrap(text, width, maxWidth)[0] == []
  {
    var st := Scan(text, width, maxWidth);
    var w := Wrap(text, width, maxWidth);
    ScanEmptyOnlyFirst(text, width, maxWidth);
    forall k | 0 <= k < |w| && w[k] == []
      ensures k == 0 && |text| > 0 && width(text[0]) > maxWidth
    {
      if k < |st.lines| {
        assert w[k] == st.lines[k];
      }
    }
    if |text| > 0 && width(text[0]) > maxWidth {
      FirstCharTooWide(text, width, maxWidth);
    }
  }

  lemma {:induction false} FirstCharTooWide(text: string, width: char -> nat, maxWidth: nat)
    requires |text| > 0 && width(text[0]) > maxWidth
    ensures |Scan(text, width, maxWidth).lines| >= 1 && Scan(text, width, maxWidth).lines[0] == []
    ensures Scan(text, width, maxWidth).current != []
  {
    var p := text[..|text| - 1];
    if p == [] {
      assert Scan(p, width, maxWidth) == LineState([], [], 0);
    } else {
      assert p[0] == text[0];
      FirstCharTooWide(p, width, maxWidth);
    }
  }

  /** Breaks are greedy: each line after the first starts with a character that would
      have pushed the previous line over the budget. */
  lemma {:induction false} WrapIsGreedy(text: string, width: char -> nat, maxWidth: nat)
    ensures forall k :: 1 <= k < |Wrap(text, width, maxWidth)| ==>
              Wrap(text, width, maxWidth)[k] != [] &&
              Width(Wrap(text, width, maxWidth)[k - 1], width) + width(Wrap(text, width, maxWidth)[k][0]) > maxWidth
  {
    var st := Scan(text, width, maxWidth);
    var w := Wrap(text, width, maxWidth);
    ScanGreedyBreaks(text, width, maxWidth);
    forall k | 1 <= k < |w|
      ensures w[k] != [] && Width(w[k - 1], width) + width(w[k][0]) > maxWidth
    {
      if k == |st.lines| {
        assert w[k] == st.current && w[k - 1] == st.lines[k - 1];
      } else {
        assert w[k] == st.lines[k] && w[k - 1] == st.lines[k - 1];
      }
    }
  }
}
