/** Line breaking for rendered text: greedy word wrap, character wrap and
    newline-only wrap into a box of bounded width, height and line count,
    the line cut that follows justification, and the placement of glyphs
    along the resulting lines. Advances are exact reals. */
module TextFormatter {

  datatype ClipMode = ClipNone | ClipToBounds

  datatype HorizontalAlignment = Left | Right | HCenter

  datatype VerticalAlignment = Top | Bottom | VCenter

  /** The target box: the width and height lines must fit, the cap on the
      number of lines (none when not positive) and the line height in points. */
  datatype Box = Box(maxWidth: real, maxHeight: real, maxLines: int, lineHeight: real, clipMode: ClipMode)

  /** The font: each character's advance in points, and the point-to-world scale. */
  datatype Font = Font(advance: char -> real, scale: real)

  /** A line of text and the factor applied to the advance of its spaces. */
  datatype Line = Line(text: seq<char>, spacingRatio: real)

  const INT_MAX: int := 0x7FFF_FFFF

  // ---------------------------------------------------------------------------
  // Measures over strings

  function CharWidth(c: char, font: Font): real
  {
    font.advance(c) * font.scale
  }

  /** The world-space width of a run of characters: the sum of their scaled advances. */
  function Width(s: seq<char>, font: Font): real
  {
    if s == [] then 0.0 else Width(s[..|s| - 1], font) + CharWidth(s[|s| - 1], font)
  }

  lemma {:induction false} WidthAppend(a: seq<char>, b: seq<char>, font: Font)
    ensures Width(a + b, font) == Width(a, font) + Width(b, font)
    decreases |b|
  {
    if b == [] {
      assert a + b == a;
    } else {
      assert (a + b)[..|a + b| - 1] == a + b[..|b| - 1];
      assert (a + b)[|a + b| - 1] == b[|b| - 1];
      WidthAppend(a, b[..|b| - 1], font);
    }
  }

  lemma WidthPush(s: seq<char>, c: char, font: Font)
    ensures Width(s + [c], font) == Width(s, font) + CharWidth(c, font)
  {
    assert (s + [c])[..|s|] == s;
  }

  /** The characters of s, with the newlines dropped. */
  function NoNewlines(s: seq<char>): (r: seq<char>)
    ensures '\n' !in r && |r| <= |s|
  {
    if s == [] then []
    else NoNewlines(s[..|s| - 1]) + (if s[|s| - 1] == '\n' then [] else [s[|s| - 1]])
  }

  lemma {:induction false} NoNewlinesOfPlain(s: seq<char>)
    requires '\n' !in s
    ensures NoNewlines(s) == s
  {
    if s != [] {
      NoNewlinesOfPlain(s[..|s| - 1]);
    }
  }

  lemma NoNewlinesStep(s: seq<char>, i: nat)
    requires i < |s|
    ensures NoNewlines(s[..i + 1]) == NoNewlines(s[..i]) + (if s[i] == '\n' then [] else [s[i]])
  {
    assert s[..i + 1][..i] == s[..i];
  }

  /** Extending a prefix by a newline-free run extends its newline-free text by the run. */
  lemma {:induction false} NoNewlinesExtend(s: seq<char>, i: nat, j: nat)
    requires i <= j <= |s| && '\n' !in s[i..j]
    ensures NoNewlines(s[..j]) == NoNewlines(s[..i]) + s[i..j]
    decreases j - i
  {
    if i < j {
      NoNewlinesExtend(s, i, j - 1);
      assert s[..j][..j - 1] == s[..j - 1];
      assert s[i..j] == s[i..j - 1] + [s[j - 1]];
    }
  }

  /** The newline-free text of a prefix is a prefix of the whole newline-free text. */
  lemma {:induction false} NoNewlinesPrefix(s: seq<char>, i: nat)
    requires i <= |s|
    ensures NoNewlines(s[..i]) <= NoNewlines(s)
    decreases |s| - i
  {
    if i < |s| {
      NoNewlinesPrefix(s, i + 1);
      assert s[..i + 1][..i] == s[..i];
    } else {
      assert s[..i] == s;
    }
  }

  function Concat(lines: seq<seq<char>>): seq<char>
  {
    if lines == [] then [] else Concat(lines[..|lines| - 1]) + lines[|lines| - 1]
  }

  lemma ConcatPush(lines: seq<seq<char>>, line: seq<char>)
    ensures Concat(lines + [line]) == Concat(lines) + line
  {
    assert (lines + [line])[..|lines|] == lines;
  }

  function CountNewlines(s: seq<char>): nat
  {
    if s == [] then 0 else CountNewlines(s[..|s| - 1]) + (if s[|s| - 1] == '\n' then 1 else 0)
  }

  lemma {:induction false} CountNewlinesPlain(s: seq<char>, i: nat, j: nat)
    requires i <= j <= |s| && '\n' !in s[i..j]
    ensures CountNewlines(s[..j]) == CountNewlines(s[..i])
    decreases j - i
  {
    if i < j {
      CountNewlinesPlain(s, i, j - 1);
      assert s[..j][..j - 1] == s[..j - 1];
      assert s[j - 1] == s[i..j][j - 1 - i];
    }
  }

  // ---------------------------------------------------------------------------
  // The line budget

  /** Whether one more line may follow `numLinesNow` lines: the line cap is
      not reached, and when clipping, the next line's bottom stays inside the
      box height. */
  predicate IsAnotherLineAvailable(numLinesNow: nat, box: Box, font: Font)
  {
    (box.maxLines <= 0 || numLinesNow < box.maxLines) &&
    (box.clipMode == ClipNone || (numLinesNow + 1) as real * box.lineHeight * font.scale < box.maxHeight)
  }

  /** Without a cap and without clipping, every line is available; with a
      cap, availability implies the cap is not reached. */
  lemma LineBudget(numLinesNow: nat, box: Box, font: Font)
    ensures box.maxLines <= 0 && box.clipMode == ClipNone ==> IsAnotherLineAvailable(numLinesNow, box, font)
    ensures IsAnotherLineAvailable(numLinesNow, box, font) && box.maxLines > 0 ==> numLinesNow < box.maxLines
  {
  }

  /** With a non-negative line height, a budget that allows n + 1 lines also allows n. */
  lemma LineBudgetMonotone(n: nat, box: Box, font: Font)
    requires box.lineHeight * font.scale >= 0.0
    requires IsAnotherLineAvailable(n + 1, box, font)
    ensures IsAnotherLineAvailable(n, box, font)
  {
    var h := box.lineHeight * font.scale;
    assert (n + 1) as real * box.lineHeight * font.scale == (n + 1) as real * h;
    assert (n + 2) as real * box.lineHeight * font.scale == (n + 2) as real * h;
    assert (n + 1) as real * h <= (n + 2) as real * h;
  }

  // ---------------------------------------------------------------------------
  // Word length

  /** The width of a word, summed character by character. */
  method GetLengthOfWord(word: seq<char>, font: Font) returns (wordWidth: real)
    ensures wordWidth == Width(word, font)
  {
    wordWidth := 0.0;
    var i := 0;
    while i < |word|
      invariant 0 <= i <= |word| && wordWidth == Width(word[..i], font)
    {
      assert word[..i + 1][..i] == word[..i];
      wordWidth := wordWidth + CharWidth(word[i], font);
      i := i + 1;
    }
    assert word[..i] == word;
  }

  // ---------------------------------------------------------------------------
  // Character wrap

  /** A line of the character wrap: it fits the width, or holds a single
      character too wide for any line. */
  predicate CharLineFits(line: seq<char>, box: Box, font: Font)
  {
    Width(line, font) <= box.maxWidth || |line| <= 1
  }

  /** What holds of the character wrap's state between characters. */
  predicate CharWrapInv(text: seq<char>, box: Box, font: Font, i: nat, lines: seq<seq<char>>, currentLine: seq<char>, lineWidth: real)
  {
    i <= |text| &&
    (forall k :: 0 <= k < |lines| ==> '\n' !in lines[k] && CharLineFits(lines[k], box, font)) &&
    '\n' !in currentLine && CharLineFits(currentLine, box, font) && lineWidth == Width(currentLine, font) &&
    (box.maxLines > 0 ==> |lines| <= box.maxLines)
  }

  /** Character wrap: characters go onto the current line while they fit,
      a newline or a character that does not fit closes it. A character too
      wide for an empty line is placed alone on it (see CharWrapAsWritten). */
  method WrapByChars(text: seq<char>, box: Box, font: Font) returns (lines: seq<seq<char>>)
    ensures forall k :: 0 <= k < |lines| ==> '\n' !in lines[k] && CharLineFits(lines[k], box, font)
    ensures box.maxLines > 0 ==> |lines| <= box.maxLines
    ensures Concat(lines) <= NoNewlines(text)
    ensures box.maxLines <= 0 && box.clipMode == ClipNone ==> Concat(lines) == NoNewlines(text)
  {
    lines := [];
    var lineWidth := 0.0;
    var currentLine: seq<char> := [];
    var i := 0;
    var stop := false;
    while i < |text|
      invariant CharWrapInv(text, box, font, i, lines, currentLine, lineWidth)
      invariant box.maxLines > 0 ==> |lines| < box.maxLines
      invariant Concat(lines) + currentLine == NoNewlines(text[..i])
      decreases 2 * (|text| - i) + (if currentLine == [] then 0 else 1)
    {
      var i', lines', currentLine', lineWidth', stop := CharWrapStep(text, box, font, i, lines, currentLine, lineWidth);
      if stop {
        CharWrapStopped(text, box, font, i', lines', currentLine', lineWidth');
        return lines';
      }
      i, lines, currentLine, lineWidth := i', lines', currentLine', lineWidth';
    }
    assert text[..i] == text;
    lines := FinishCharWrap(text, box, font, lines, currentLine, lineWidth);
  }

  /** The character wrap stopped by the line budget has placed a prefix of the text. */
  lemma CharWrapStopped(text: seq<char>, box: Box, font: Font, i: nat, lines: seq<seq<char>>, currentLine: seq<char>, lineWidth: real)
    requires CharWrapInv(text, box, font, i, lines, currentLine, lineWidth)
    requires Concat(lines) == NoNewlines(text[..i]) && !IsAnotherLineAvailable(|lines|, box, font)
    ensures Concat(lines) <= NoNewlines(text)
    ensures box.maxLines <= 0 && box.clipMode == ClipNone ==> Concat(lines) == NoNewlines(text)
  {
    NoNewlinesPrefix(text, i);
    LineBudget(|lines|, box, font);
  }

  /** After the last character, the current line is pushed when the budget allows it. */
  method FinishCharWrap(text: seq<char>, box: Box, font: Font, lines: seq<seq<char>>, currentLine: seq<char>, lineWidth: real)
    returns (lines': seq<seq<char>>)
    requires CharWrapInv(text, box, font, |text|, lines, currentLine, lineWidth)
    requires box.maxLines > 0 ==> |lines| < box.maxLines
    requires Concat(lines) + currentLine == NoNewlines(text)
    ensures forall k :: 0 <= k < |lines'| ==> '\n' !in lines'[k] && CharLineFits(lines'[k], box, font)
    ensures box.maxLines > 0 ==> |lines'| <= box.maxLines
    ensures Concat(lines') <= NoNewlines(text)
    ensures box.maxLines <= 0 && box.clipMode == ClipNone ==> Concat(lines') == NoNewlines(text)
  {
    lines' := lines;
    if currentLine != [] && IsAnotherLineAvailable(|lines|, box, font) {
      ConcatPush(lines, currentLine);
      CharWrapClose(text, box, font, |text|, lines, currentLine, lineWidth, |text|);
      lines' := lines + [currentLine];
    }
    if box.maxLines <= 0 && box.clipMode == ClipNone {
      LineBudget(|lines|, box, font);
    }
  }

  /** One character of the character wrap. On `stop` the line just closed
      exhausted the budget: the loop ends, and the current line, already
      closed, is not pushed again. */
  method CharWrapStep(text: seq<char>, box: Box, font: Font, i: nat, lines: seq<seq<char>>, currentLine: seq<char>, lineWidth: real)
    returns (i': nat, lines': seq<seq<char>>, currentLine': seq<char>, lineWidth': real, stop: bool)
    requires i < |text| && CharWrapInv(text, box, font, i, lines, currentLine, lineWidth)
    requires box.maxLines > 0 ==> |lines| < box.maxLines
    requires Concat(lines) + currentLine == NoNewlines(text[..i])
    ensures CharWrapInv(text, box, font, i', lines', currentLine', lineWidth')
    ensures stop ==> Concat(lines') == NoNewlines(text[..i']) && !IsAnotherLineAvailable(|lines'|, box, font)
    ensures !stop ==> Concat(lines') + currentLine' == NoNewlines(text[..i']) && (box.maxLines > 0 ==> |lines'| < box.maxLines)
    ensures !stop ==> 2 * (|text| - i') + (if currentLine' == [] then 0 else 1) < 2 * (|text| - i) + (if currentLine == [] then 0 else 1)
  {
    var c := text[i];
    var charWidth := CharWidth(c, font);
    if c == '\n' || (lineWidth + charWidth > box.maxWidth && currentLine != []) {
      i', lines', currentLine', lineWidth', stop := CloseCharLine(text, box, font, i, lines, currentLine, lineWidth);
    } else {
      i', lines', currentLine', lineWidth', stop := i + 1, lines, currentLine + [c], lineWidth + charWidth, false;
      CharWrapPush(text, box, font, i, lines, currentLine, lineWidth);
    }
  }

  /** A newline, or a character that does not fit on a non-empty line,
      closes the current line; only a newline is consumed. */
  method CloseCharLine(text: seq<char>, box: Box, font: Font, i: nat, lines: seq<seq<char>>, currentLine: seq<char>, lineWidth: real)
    returns (i': nat, lines': seq<seq<char>>, currentLine': seq<char>, lineWidth': real, stop: bool)
    requires i < |text| && CharWrapInv(text, box, font, i, lines, currentLine, lineWidth)
    requires box.maxLines > 0 ==> |lines| < box.maxLines
    requires Concat(lines) + currentLine == NoNewlines(text[..i])
    requires text[i] == '\n' || currentLine != []
    ensures CharWrapInv(text, box, font, i', lines', currentLine', lineWidth')
    ensures stop ==> Concat(lines') == NoNewlines(text[..i']) && !IsAnotherLineAvailable(|lines'|, box, font)
    ensures !stop ==> Concat(lines') + currentLine' == NoNewlines(text[..i']) && (box.maxLines > 0 ==> |lines'| < box.maxLines)
    ensures !stop ==> 2 * (|text| - i') + (if currentLine' == [] then 0 else 1) < 2 * (|text| - i) + (if currentLine == [] then 0 else 1)
  {
    NoNewlinesStep(text, i);
    ConcatPush(lines, currentLine);
    lines' := lines + [currentLine];
    i' := if text[i] == '\n' then i + 1 else i;
    CharWrapClose(text, box, font, i, lines, currentLine, lineWidth, i');
    if !IsAnotherLineAvailable(|lines'|, box, font) {
      currentLine', lineWidth', stop := currentLine, lineWidth, true;
    } else {
      LineBudget(|lines'|, box, font);
      currentLine', lineWidth', stop := [], 0.0, false;
    }
  }

  /** Closing the current line keeps the loop's invariant. */
  lemma CharWrapClose(text: seq<char>, box: Box, font: Font, i: nat, lines: seq<seq<char>>, currentLine: seq<char>,
                      lineWidth: real, i': nat)
    requires CharWrapInv(text, box, font, i, lines, currentLine, lineWidth) && i' <= |text|
    requires box.maxLines > 0 ==> |lines| < box.maxLines
    ensures CharWrapInv(text, box, font, i', lines + [currentLine], currentLine, lineWidth)
    ensures CharWrapInv(text, box, font, i', lines + [currentLine], [], 0.0)
  {
    var lines' := lines + [currentLine];
    assert forall k :: 0 <= k < |lines'| ==> lines'[k] == if k < |lines| then lines[k] else currentLine;
  }

  /** Putting a character that fits (or starts the line) on the current
      line keeps the loop's invariant and extends the text placed so far. */
  lemma CharWrapPush(text: seq<char>, box: Box, font: Font, i: nat, lines: seq<seq<char>>, currentLine: seq<char>,
                     lineWidth: real)
    requires i < |text| && CharWrapInv(text, box, font, i, lines, currentLine, lineWidth)
    requires Concat(lines) + currentLine == NoNewlines(text[..i])
    requires text[i] != '\n' && (lineWidth + CharWidth(text[i], font) <= box.maxWidth || currentLine == [])
    ensures CharWrapInv(text, box, font, i + 1, lines, currentLine + [text[i]], lineWidth + CharWidth(text[i], font))
    ensures Concat(lines) + (currentLine + [text[i]]) == NoNewlines(text[..i + 1])
  {
    WidthPush(currentLine, text[i], font);
    NoNewlinesStep(text, i);
    assert Concat(lines) + (currentLine + [text[i]]) == (Concat(lines) + currentLine) + [text[i]];
  }

  /** The state of the character-wrap loop as written: the index of the next
      character, the lines so far, the current line and its width. */
  datatype CharWrapState = CharWrapState(i: nat, lines: seq<seq<char>>, currentLine: seq<char>, lineWidth: real, done: bool)

  /** One pass of the character-wrap loop as written: a character that does
      not fit closes the line and is tried again on the next one, even when
      the line it did not fit on was empty. */
  function CharWrapAsWritten(text: seq<char>, box: Box, font: Font, st: CharWrapState): (r: CharWrapState)
    ensures st.i <= r.i <= st.i + 1
    ensures |st.lines| <= |r.lines| <= |st.lines| + 1
    ensures !st.done && st.i < |text| && r.i == st.i ==> |r.lines| == |st.lines| + 1
  {
    if st.done || st.i >= |text| then st.(done := true)
    else
      var c := text[st.i];
      if st.lineWidth + CharWidth(c, font) > box.maxWidth || c == '\n' then
        var lines := st.lines + [st.currentLine];
        if !IsAnotherLineAvailable(|lines|, box, font) then st.(lines := lines, done := true)
        else CharWrapState(if c == '\n' then st.i + 1 else st.i, lines, [], 0.0, false)
      else
        CharWrapState(st.i + 1, st.lines, st.currentLine + [c], st.lineWidth + CharWidth(c, font), false)
  }

  function CharWrapStepsAsWritten(text: seq<char>, box: Box, font: Font, st: CharWrapState, k: nat): CharWrapState
    decreases k
  {
    if k == 0 then st else CharWrapStepsAsWritten(text, box, font, CharWrapAsWritten(text, box, font, st), k - 1)
  }

  /** With no line cap and no clipping, a single character wider than the
      box never gets placed: after any number of passes the loop is still at
      that character and has produced only empty lines. */
  lemma {:induction false} CharWrapAsWrittenNeverEnds(c: char, box: Box, font: Font, k: nat, n: nat)
    requires box.maxLines <= 0 && box.clipMode == ClipNone && c != '\n'
    requires CharWidth(c, font) > box.maxWidth && 0.0 > box.maxWidth - CharWidth(c, font)
    ensures CharWrapStepsAsWritten([c], box, font, CharWrapState(0, seq(n, _ => []), [], 0.0, false), k)
         == CharWrapState(0, seq(n + k, _ => []), [], 0.0, false)
    decreases k
  {
    if k > 0 {
      var st := CharWrapState(0, seq(n, _ => []), [], 0.0, false);
      LineBudget(n + 1, box, font);
      var empty: seq<char> := [];
      assert seq(n, _ => empty) + [empty] == seq(n + 1, _ => empty);
      assert CharWrapAsWritten([c], box, font, st) == CharWrapState(0, seq(n + 1, _ => []), [], 0.0, false);
      CharWrapAsWrittenNeverEnds(c, box, font, k - 1, n + 1);
    }
  }

  // ---------------------------------------------------------------------------
  // Newline-only wrap

  /** The pieces of s between newlines (one more than the newlines). */
  function Pieces(s: seq<char>): (r: seq<seq<char>>)
    ensures |r| == CountNewlines(s) + 1
    ensures forall k :: 0 <= k < |r| ==> '\n' !in r[k]
  {
    if s == [] then [[]]
    else
      var p := Pieces(s[..|s| - 1]);
      if s[|s| - 1] == '\n' then p + [[]] else p[..|p| - 1] + [p[|p| - 1] + [s[|s| - 1]]]
  }

  /** Joining the pieces with newlines gives the text back. */
  function JoinLines(pieces: seq<seq<char>>): seq<char>
    requires |pieces| >= 1
  {
    if |pieces| == 1 then pieces[0] else JoinLines(pieces[..|pieces| - 1]) + ['\n'] + pieces[|pieces| - 1]
  }

  lemma {:induction false} JoinPieces(s: seq<char>)
    ensures JoinLines(Pieces(s)) == s
  {
    if s != [] {
      var init := s[..|s| - 1];
      var c := s[|s| - 1];
      JoinPieces(init);
      var p := Pieces(init);
      assert s == init + [c];
      if c == '\n' {
        var q := p + [[]];
        assert Pieces(s) == q;
        assert q[..|q| - 1] == p;
        assert JoinLines(q) == JoinLines(p) + ['\n'] + [];
      } else if |p| == 1 {
        assert Pieces(s) == [p[0] + [c]];
        assert JoinLines(p) == p[0];
      } else {
        var q := p[..|p| - 1] + [p[|p| - 1] + [c]];
        assert Pieces(s) == q;
        assert q[..|q| - 1] == p[..|p| - 1];
        assert JoinLines(q) == JoinLines(p[..|p| - 1]) + ['\n'] + (p[|p| - 1] + [c]);
        assert JoinLines(p) == JoinLines(p[..|p| - 1]) + ['\n'] + p[|p| - 1];
      }
    }
  }

  /** The complete pieces of a prefix are pieces of the whole text. */
  lemma {:induction false} PiecesStable(s: seq<char>, j: nat)
    requires j <= |s|
    ensures |Pieces(s[..j])| <= |Pieces(s)|
    ensures forall k :: 0 <= k < |Pieces(s[..j])| - 1 ==> Pieces(s[..j])[k] == Pieces(s)[k]
    decreases |s| - j
  {
    if j == |s| {
      assert s[..j] == s;
    } else {
      PiecesStable(s, j + 1);
      assert s[..j + 1][..j] == s[..j];
    }
  }

  /** The characters of a piece kept by the newline-only wrap: all of them
      without clipping, and with clipping each one that still fits after
      those already kept. */
  function Fit(piece: seq<char>, box: Box, font: Font): (r: seq<char>)
    ensures box.clipMode == ClipNone ==> r == piece
    ensures box.clipMode == ClipToBounds && r != [] ==> Width(r, font) < box.maxWidth
    ensures '\n' !in piece ==> '\n' !in r
  {
    if piece == [] then []
    else
      var f := Fit(piece[..|piece| - 1], box, font);
      var c := piece[|piece| - 1];
      if box.clipMode == ClipNone || Width(f, font) + CharWidth(c, font) < box.maxWidth then
        assert (f + [c])[..|f|] == f;
        f + [c]
      else f
  }

  lemma PiecesStep(s: seq<char>, i: nat)
    requires i < |s|
    ensures var p := Pieces(s[..i]);
      Pieces(s[..i + 1]) == if s[i] == '\n' then p + [[]] else p[..|p| - 1] + [p[|p| - 1] + [s[i]]]
  {
    assert s[..i + 1][..i] == s[..i];
  }

  /** The closed lines of the newline-only wrap after i characters: the
      fitted complete pieces of text[..i]. */
  predicate NewlineWrapClosed(text: seq<char>, box: Box, font: Font, i: nat, lines: seq<seq<char>>)
    requires i <= |text|
  {
    |lines| == |Pieces(text[..i])| - 1 &&
    forall k :: 0 <= k < |lines| ==> lines[k] == Fit(Pieces(text[..i])[k], box, font)
  }

  /** Newline-only wrap: line k is piece k of the text, clipped to the width
      when clipping; a trailing empty piece gives no line. */
  method WrapByNewlines(text: seq<char>, box: Box, font: Font) returns (lines: seq<seq<char>>)
    ensures |lines| <= |Pieces(text)|
    ensures forall k :: 0 <= k < |lines| ==> lines[k] == Fit(Pieces(text)[k], box, font)
    ensures box.maxLines > 0 ==> |lines| <= box.maxLines
    ensures box.maxLines <= 0 && box.clipMode == ClipNone ==>
      |lines| == |Pieces(text)| - (if Pieces(text)[|Pieces(text)| - 1] == [] then 1 else 0)
  {
    lines := [];
    var lineWidth := 0.0;
    var currentLine: seq<char> := [];
    var i := 0;
    while i < |text|
      invariant 0 <= i <= |text| && NewlineWrapInv(text, box, font, i, lines, currentLine, lineWidth)
    {
      var stop;
      lines, currentLine, lineWidth, stop := NewlineWrapStep(text, box, font, i, lines, currentLine, lineWidth);
      i := i + 1;
      if stop {
        NewlineWrapStopped(text, box, font, i, lines);
        return;
      }
    }
    lines := FinishNewlineWrap(text, box, font, lines, currentLine);
  }

  /** The state of the newline-only wrap after i characters. */
  predicate NewlineWrapInv(text: seq<char>, box: Box, font: Font, i: nat, lines: seq<seq<char>>, currentLine: seq<char>, lineWidth: real)
    requires i <= |text|
  {
    NewlineWrapClosed(text, box, font, i, lines) &&
    currentLine == Fit(Pieces(text[..i])[|lines|], box, font) &&
    lineWidth == Width(currentLine, font) &&
    (box.maxLines > 0 ==> |lines| < box.maxLines)
  }

  /** A wrap stopped by the line budget keeps the closed lines, which are
      fitted pieces of the whole text. */
  lemma NewlineWrapStopped(text: seq<char>, box: Box, font: Font, i: nat, lines: seq<seq<char>>)
    requires i <= |text| && NewlineWrapClosed(text, box, font, i, lines)
    requires !IsAnotherLineAvailable(|lines|, box, font)
    ensures |lines| <= |Pieces(text)|
    ensures forall k :: 0 <= k < |lines| ==> lines[k] == Fit(Pieces(text)[k], box, font)
    ensures !(box.maxLines <= 0 && box.clipMode == ClipNone)
  {
    PiecesStable(text, i);
    LineBudget(|lines|, box, font);
  }

  /** After the last character the current line is kept when it is not
      empty and the budget allows one more line. */
  method FinishNewlineWrap(text: seq<char>, box: Box, font: Font, lines: seq<seq<char>>, currentLine: seq<char>)
    returns (lines': seq<seq<char>>)
    requires NewlineWrapClosed(text, box, font, |text|, lines)
    requires currentLine == Fit(Pieces(text[..|text|])[|lines|], box, font)
    requires box.maxLines > 0 ==> |lines| < box.maxLines
    ensures |lines'| <= |Pieces(text)|
    ensures forall k :: 0 <= k < |lines'| ==> lines'[k] == Fit(Pieces(text)[k], box, font)
    ensures box.maxLines > 0 ==> |lines'| <= box.maxLines
    ensures box.maxLines <= 0 && box.clipMode == ClipNone ==>
      |lines'| == |Pieces(text)| - (if Pieces(text)[|Pieces(text)| - 1] == [] then 1 else 0)
  {
    assert text[..|text|] == text;
    LineBudget(|lines|, box, font);
    if currentLine != [] && IsAnotherLineAvailable(|lines|, box, font) {
      lines' := lines + [currentLine];
    } else {
      lines' := lines;
    }
  }

  /** A newline closes the current line, and the next piece starts empty. */
  lemma NewlineCloses(text: seq<char>, box: Box, font: Font, i: nat, lines: seq<seq<char>>, currentLine: seq<char>)
    requires i < |text| && text[i] == '\n' && NewlineWrapClosed(text, box, font, i, lines)
    requires currentLine == Fit(Pieces(text[..i])[|lines|], box, font)
    ensures NewlineWrapClosed(text, box, font, i + 1, lines + [currentLine])
    ensures Fit(Pieces(text[..i + 1])[|lines| + 1], box, font) == []
  {
    PiecesStep(text, i);
  }

  /** Any other character extends the last piece; the fitted line gains the
      character exactly when it fits. */
  lemma CharExtends(text: seq<char>, box: Box, font: Font, i: nat, lines: seq<seq<char>>, currentLine: seq<char>)
    requires i < |text| && text[i] != '\n' && NewlineWrapClosed(text, box, font, i, lines)
    requires currentLine == Fit(Pieces(text[..i])[|lines|], box, font)
    ensures NewlineWrapClosed(text, box, font, i + 1, lines)
    ensures Fit(Pieces(text[..i + 1])[|lines|], box, font) ==
      if box.clipMode == ClipNone || Width(currentLine, font) + CharWidth(text[i], font) < box.maxWidth
      then currentLine + [text[i]] else currentLine
  {
    PiecesStep(text, i);
    ghost var p := Pieces(text[..i]);
    ghost var q := Pieces(text[..i + 1]);
    ghost var last := p[|p| - 1];
    assert q == p[..|p| - 1] + [last + [text[i]]];
    forall k | 0 <= k < |lines|
      ensures lines[k] == Fit(q[k], box, font)
    {
      assert q[k] == p[k];
    }
    assert q[|lines|] == last + [text[i]];
    FitStep(last, text[i], box, font);
  }

  /** Fitting a piece one character longer keeps that character exactly when it fits. */
  lemma FitStep(piece: seq<char>, c: char, box: Box, font: Font)
    ensures Fit(piece + [c], box, font) ==
      if box.clipMode == ClipNone || Width(Fit(piece, box, font), font) + CharWidth(c, font) < box.maxWidth
      then Fit(piece, box, font) + [c] else Fit(piece, box, font)
  {
    assert (piece + [c])[..|piece|] == piece;
  }

  /** One character of the newline-only wrap: a newline closes the current
      line (stopping when the budget is spent), any other character is kept
      when it fits. */
  method NewlineWrapStep(text: seq<char>, box: Box, font: Font, i: nat, lines: seq<seq<char>>, currentLine: seq<char>, lineWidth: real)
    returns (lines': seq<seq<char>>, currentLine': seq<char>, lineWidth': real, stop: bool)
    requires i < |text| && NewlineWrapClosed(text, box, font, i, lines)
    requires currentLine == Fit(Pieces(text[..i])[|lines|], box, font) && lineWidth == Width(currentLine, font)
    requires box.maxLines > 0 ==> |lines| < box.maxLines
    ensures NewlineWrapClosed(text, box, font, i + 1, lines')
    ensures stop ==> !IsAnotherLineAvailable(|lines'|, box, font) && (box.maxLines > 0 ==> |lines'| <= box.maxLines)
    ensures !stop ==> currentLine' == Fit(Pieces(text[..i + 1])[|lines'|], box, font) && lineWidth' == Width(currentLine', font)
    ensures !stop ==> box.maxLines > 0 ==> |lines'| < box.maxLines
  {
    var c := text[i];
    var charWidth := CharWidth(c, font);
    if c == '\n' {
      NewlineCloses(text, box, font, i, lines, currentLine);
      lines' := lines + [currentLine];
      currentLine', lineWidth' := [], 0.0;
      stop := !IsAnotherLineAvailable(|lines'|, box, font);
      LineBudget(|lines'|, box, font);
    } else {
      CharExtends(text, box, font, i, lines, currentLine);
      lines', stop := lines, false;
      if box.clipMode == ClipNone || lineWidth + charWidth < box.maxWidth {
        WidthPush(currentLine, c, font);
        currentLine', lineWidth' := currentLine + [c], lineWidth + charWidth;
      } else {
        currentLine', lineWidth' := currentLine, lineWidth;
      }
    }
  }

  // ---------------------------------------------------------------------------
  // Word wrap

  /** The word delimiters: space, tab, vertical tab and carriage return. */
  predicate IsDelimiter(c: char)
  {
    c == ' ' || c == '\t' || c == '\U{000B}' || c == '\r'
  }

  /** The first index at or after `from` whose character is a delimiter, or
      the length of the text when there is none. */
  function FirstDelimiter(text: seq<char>, from: nat): (r: nat)
    requires from <= |text|
    ensures from <= r <= |text| && (r < |text| ==> IsDelimiter(text[r]))
    ensures forall k :: from <= k < r ==> !IsDelimiter(text[k])
    decreases |text| - from
  {
    if from == |text| || IsDelimiter(text[from]) then from else FirstDelimiter(text, from + 1)
  }

  /** The first index at or after `from` whose character is not a delimiter,
      or the length of the text when there is none. */
  function FirstNonDelimiter(text: seq<char>, from: nat): (r: nat)
    requires from <= |text|
    ensures from <= r <= |text| && (r < |text| ==> !IsDelimiter(text[r]))
    ensures forall k :: from <= k < r ==> IsDelimiter(text[k])
    decreases |text| - from
  {
    if from == |text| || !IsDelimiter(text[from]) then from else FirstNonDelimiter(text, from + 1)
  }

  /** The first newline at or after `from`, or the length of the text. */
  function FirstNewline(text: seq<char>, from: nat): (r: nat)
    requires from <= |text|
    ensures from <= r <= |text| && (r < |text| ==> text[r] == '\n')
    ensures forall k :: from <= k < r ==> text[k] != '\n'
    decreases |text| - from
  {
    if from == |text| || text[from] == '\n' then from else FirstNewline(text, from + 1)
  }

  /** The shape of a word taken by the word wrap: non-delimiters followed by
      delimiters, with no newline. */
  predicate WordShape(w: seq<char>)
  {
    '\n' !in w && exists j :: 0 <= j <= |w| && SplitAt(w, j)
  }

  /** w[..j] holds no delimiter and w[j..] only delimiters. */
  predicate SplitAt(w: seq<char>, j: nat)
  {
    (forall k :: 0 <= k < j && k < |w| ==> !IsDelimiter(w[k])) && (forall k :: j <= k < |w| ==> IsDelimiter(w[k]))
  }

  lemma WordShapeEmpty()
    ensures WordShape([])
  {
    var e: seq<char> := [];
    assert SplitAt(e, 0);
  }

  /** The end of the word starting at `current`: past the delimiters that
      follow its first delimiter, but never past a newline. */
  function WordEnd(text: seq<char>, current: nat): (e: nat)
    requires current < |text| && text[current] != '\n'
    ensures current < e <= |text| && WordShape(text[current..e])
  {
    var delimiterStart := FirstDelimiter(text, current);
    var delimiterEnd := if delimiterStart == |text| then |text| else FirstNonDelimiter(text, delimiterStart);
    var newlinePos := FirstNewline(text, current);
    var e := if newlinePos <= delimiterEnd then newlinePos else delimiterEnd;
    var w := text[current..e];
    assert forall k :: 0 <= k < |w| ==> w[k] == text[current + k];
    var j := (if delimiterStart < e then delimiterStart else e) - current;
    assert SplitAt(w, j);
    e
  }

  /** A line of the word wrap: it fits the width, or it is a single word. */
  predicate WordLineFits(line: seq<char>, box: Box, font: Font)
  {
    Width(line, font) <= box.maxWidth || WordShape(line)
  }

  /** What holds of the word wrap's state at index `current`: the closed
      lines and the current line hold the newline-free text read so far, in
      order, with at least one closed line per newline read. */
  predicate WordWrapInv(text: seq<char>, box: Box, font: Font, current: nat, lines: seq<seq<char>>, currentLine: seq<char>, lineWidth: real)
  {
    current <= |text| &&
    (forall k :: 0 <= k < |lines| ==> '\n' !in lines[k] && WordLineFits(lines[k], box, font)) &&
    '\n' !in currentLine && (currentLine == [] || Width(currentLine, font) <= box.maxWidth) &&
    lineWidth == Width(currentLine, font) &&
    (box.maxLines > 0 ==> |lines| <= box.maxLines) &&
    Concat(lines) + currentLine == NoNewlines(text[..current]) &&
    |lines| >= CountNewlines(text[..current])
  }

  /** Greedy word wrap: a newline always closes the current line (possibly
      empty); a word that does not fit closes the current line and is tried
      again, and a word too wide for an empty line goes on a line of its own. */
  method WrapByWords(text: seq<char>, box: Box, font: Font) returns (lines: seq<seq<char>>)
    ensures forall k :: 0 <= k < |lines| ==> '\n' !in lines[k] && WordLineFits(lines[k], box, font)
    ensures box.maxLines > 0 ==> |lines| <= box.maxLines
    ensures Concat(lines) <= NoNewlines(text)
    ensures box.maxLines <= 0 && box.clipMode == ClipNone ==>
      Concat(lines) == NoNewlines(text) && |lines| >= CountNewlines(text)
    ensures lines <= GreedyWrap(text, box, font)
    ensures |lines| < |GreedyWrap(text, box, font)| ==> !IsAnotherLineAvailable(|lines|, box, font)
  {
    lines := [];
    var lineWidth := 0.0;
    var currentLine: seq<char> := [];
    var current := 0;
    GreedyStart(text, box, font);
    while current < |text|
      invariant WordWrapInv(text, box, font, current, lines, currentLine, lineWidth)
      invariant box.maxLines > 0 ==> |lines| < box.maxLines
      invariant GreedyInv(text, box, font, current, lines, currentLine)
      decreases 2 * (|text| - current) + (if currentLine == [] then 0 else 1)
    {
      var current', lines', currentLine', lineWidth', stop := WordWrapStep(text, box, font, current, lines, currentLine, lineWidth);
      if stop {
        WordWrapStopped(text, box, font, current', lines', lineWidth');
        return lines';
      }
      current, lines, currentLine, lineWidth := current', lines', currentLine', lineWidth';
    }
    WordWrapEnded(text, box, font, lines, currentLine, lineWidth);
    if currentLine != [] && IsAnotherLineAvailable(|lines|, box, font) {
      lines := lines + [currentLine];
    }
  }

  /** What the word wrap promises of the lines it returns. */
  predicate WordWrapOutcome(text: seq<char>, box: Box, font: Font, lines: seq<seq<char>>)
  {
    (forall k :: 0 <= k < |lines| ==> '\n' !in lines[k] && WordLineFits(lines[k], box, font)) &&
    (box.maxLines > 0 ==> |lines| <= box.maxLines) &&
    Concat(lines) <= NoNewlines(text) &&
    (box.maxLines <= 0 && box.clipMode == ClipNone ==>
      Concat(lines) == NoNewlines(text) && |lines| >= CountNewlines(text)) &&
    lines <= GreedyWrap(text, box, font) &&
    (|lines| < |GreedyWrap(text, box, font)| ==> !IsAnotherLineAvailable(|lines|, box, font))
  }

  /** The word wrap stopped when a closed line used up the budget. */
  lemma WordWrapStopped(text: seq<char>, box: Box, font: Font, current: nat, lines: seq<seq<char>>, lineWidth: real)
    requires WordWrapInv(text, box, font, current, lines, [], lineWidth)
    requires GreedyInv(text, box, font, current, lines, [])
    requires !IsAnotherLineAvailable(|lines|, box, font)
    ensures WordWrapOutcome(text, box, font, lines)
  {
    NoNewlinesPrefix(text, current);
    GreedyPrefix(text, box, font, current, lines, []);
    LineBudget(|lines|, box, font);
  }

  /** The word wrap read the whole text: the open line is kept when the
      budget allows one more line. */
  lemma WordWrapEnded(text: seq<char>, box: Box, font: Font, lines: seq<seq<char>>, currentLine: seq<char>, lineWidth: real)
    requires WordWrapInv(text, box, font, |text|, lines, currentLine, lineWidth)
    requires box.maxLines > 0 ==> |lines| < box.maxLines
    requires GreedyInv(text, box, font, |text|, lines, currentLine)
    ensures WordWrapOutcome(text, box, font, if currentLine != [] && IsAnotherLineAvailable(|lines|, box, font) then lines + [currentLine] else lines)
  {
    assert text[..|text|] == text;
    GreedyEnd(text, box, font, lines, currentLine);
    LineBudget(|lines|, box, font);
    if currentLine != [] && IsAnotherLineAvailable(|lines|, box, font) {
      ConcatPush(lines, currentLine);
      var r := lines + [currentLine];
      assert forall k :: 0 <= k < |r| ==> r[k] == if k < |lines| then lines[k] else currentLine;
      assert WordLineFits(currentLine, box, font);
    } else {
      assert Concat(lines) <= Concat(lines) + currentLine;
    }
  }

  /** One pass of the word wrap at index `current`: a newline, or the word
      that starts there. On `stop` the line just closed exhausted the budget;
      the current line is then always empty. */
  method WordWrapStep(text: seq<char>, box: Box, font: Font, current: nat, lines: seq<seq<char>>, currentLine: seq<char>, lineWidth: real)
    returns (current': nat, lines': seq<seq<char>>, currentLine': seq<char>, lineWidth': real, stop: bool)
    requires current < |text| && WordWrapInv(text, box, font, current, lines, currentLine, lineWidth)
    requires box.maxLines > 0 ==> |lines| < box.maxLines
    requires GreedyInv(text, box, font, current, lines, currentLine)
    ensures WordWrapInv(text, box, font, current', lines', currentLine', lineWidth')
    ensures GreedyInv(text, box, font, current', lines', currentLine')
    ensures stop ==> currentLine' == [] && !IsAnotherLineAvailable(|lines'|, box, font)
    ensures !stop ==> box.maxLines > 0 ==> |lines'| < box.maxLines
    ensures !stop ==> 2 * (|text| - current') + (if currentLine' == [] then 0 else 1) < 2 * (|text| - current) + (if currentLine == [] then 0 else 1)
  {
    if text[current] == '\n' {
      NoNewlinesStep(text, current);
      assert text[..current + 1][..current] == text[..current];
      ConcatPush(lines, currentLine);
      WordShapeEmpty();
      GreedyNewline(text, box, font, current, lines, currentLine);
      lines', currentLine', lineWidth', current' := lines + [currentLine], [], 0.0, current + 1;
      stop := !IsAnotherLineAvailable(|lines'|, box, font);
      LineBudget(|lines'|, box, font);
    } else {
      current', lines', currentLine', lineWidth', stop := PlaceWord(text, box, font, current, lines, currentLine, lineWidth);
    }
  }

  /** The word wrap at a word: it joins the current line when it fits;
      otherwise it closes the current line, or takes a line of its own when
      the current line is empty. */
  method PlaceWord(text: seq<char>, box: Box, font: Font, current: nat, lines: seq<seq<char>>, currentLine: seq<char>, lineWidth: real)
    returns (current': nat, lines': seq<seq<char>>, currentLine': seq<char>, lineWidth': real, stop: bool)
    requires current < |text| && text[current] != '\n' && WordWrapInv(text, box, font, current, lines, currentLine, lineWidth)
    requires box.maxLines > 0 ==> |lines| < box.maxLines
    requires GreedyInv(text, box, font, current, lines, currentLine)
    ensures WordWrapInv(text, box, font, current', lines', currentLine', lineWidth')
    ensures GreedyInv(text, box, font, current', lines', currentLine')
    ensures stop ==> currentLine' == [] && !IsAnotherLineAvailable(|lines'|, box, font)
    ensures !stop ==> box.maxLines > 0 ==> |lines'| < box.maxLines
    ensures !stop ==> 2 * (|text| - current') + (if currentLine' == [] then 0 else 1) < 2 * (|text| - current) + (if currentLine == [] then 0 else 1)
  {
    var delimiterEnd := WordEnd(text, current);
    var word := text[current..delimiterEnd];
    var wordWidth := GetLengthOfWord(word, font);
    if lineWidth + wordWidth > box.maxWidth {
      if currentLine == [] {
        WordAlone(text, box, font, current, lines, delimiterEnd);
        GreedyAlone(text, box, font, current, lines);
        lines', current' := lines + [word], delimiterEnd;
      } else {
        LineClosed(text, box, font, current, lines, currentLine, lineWidth);
        GreedyClose(text, box, font, current, lines, currentLine);
        lines', current' := lines + [currentLine], current;
      }
      currentLine', lineWidth' := [], 0.0;
      stop := !IsAnotherLineAvailable(|lines'|, box, font);
      LineBudget(|lines'|, box, font);
    } else {
      WordJoins(text, box, font, current, lines, currentLine, lineWidth, delimiterEnd);
      GreedyJoin(text, box, font, current, lines, currentLine);
      current', lines', currentLine', lineWidth', stop := delimiterEnd, lines, currentLine + word, lineWidth + wordWidth, false;
    }
  }

  /** A word read after text[..current] extends the newline-free text read
      so far by itself and adds no newline. */
  lemma WordRead(text: seq<char>, current: nat, e: nat)
    requires current < e <= |text| && WordShape(text[current..e])
    ensures NoNewlines(text[..e]) == NoNewlines(text[..current]) + text[current..e]
    ensures CountNewlines(text[..e]) == CountNewlines(text[..current])
  {
    NoNewlinesExtend(text, current, e);
    CountNewlinesPlain(text, current, e);
  }

  /** A word too wide for an empty line goes on a line of its own. */
  lemma WordAlone(text: seq<char>, box: Box, font: Font, current: nat, lines: seq<seq<char>>, e: nat)
    requires current < e <= |text| && WordShape(text[current..e])
    requires WordWrapInv(text, box, font, current, lines, [], 0.0)
    requires box.maxLines > 0 ==> |lines| < box.maxLines
    ensures WordWrapInv(text, box, font, e, lines + [text[current..e]], [], 0.0)
  {
    var word := text[current..e];
    WordRead(text, current, e);
    ConcatPush(lines, word);
    var lines' := lines + [word];
    assert forall k :: 0 <= k < |lines'| ==> lines'[k] == if k < |lines| then lines[k] else word;
  }

  /** A word that does not fit closes the non-empty current line; the word
      is read again. */
  lemma LineClosed(text: seq<char>, box: Box, font: Font, current: nat, lines: seq<seq<char>>, currentLine: seq<char>, lineWidth: real)
    requires WordWrapInv(text, box, font, current, lines, currentLine, lineWidth)
    requires box.maxLines > 0 ==> |lines| < box.maxLines
    ensures WordWrapInv(text, box, font, current, lines + [currentLine], [], 0.0)
  {
    WordShapeEmpty();
    ConcatPush(lines, currentLine);
    var lines' := lines + [currentLine];
    assert forall k :: 0 <= k < |lines'| ==> lines'[k] == if k < |lines| then lines[k] else currentLine;
  }

  /** A word that fits joins the current line. */
  lemma WordJoins(text: seq<char>, box: Box, font: Font, current: nat, lines: seq<seq<char>>, currentLine: seq<char>,
                  lineWidth: real, e: nat)
    requires current < e <= |text| && WordShape(text[current..e])
    requires WordWrapInv(text, box, font, current, lines, currentLine, lineWidth)
    requires lineWidth + Width(text[current..e], font) <= box.maxWidth
    ensures WordWrapInv(text, box, font, e, lines, currentLine + text[current..e], lineWidth + Width(text[current..e], font))
  {
    var word := text[current..e];
    WordConcat(text, current, lines, currentLine, e);
    WordRead(text, current, e);
    WidthAppend(currentLine, word, font);
    assert '\n' !in currentLine + word;
    assert Width(currentLine + word, font) <= box.maxWidth;
  }

  /** The joined word continues the text read so far. */
  lemma WordConcat(text: seq<char>, current: nat, lines: seq<seq<char>>, currentLine: seq<char>, e: nat)
    requires current < e <= |text| && WordShape(text[current..e])
    requires Concat(lines) + currentLine == NoNewlines(text[..current])
    ensures Concat(lines) + (currentLine + text[current..e]) == NoNewlines(text[..e])
  {
    WordRead(text, current, e);
    AppendAssoc(Concat(lines), currentLine, text[current..e], NoNewlines(text[..current]));
  }

  lemma AppendAssoc<T>(a: seq<T>, b: seq<T>, w: seq<T>, n: seq<T>)
    requires a + b == n
    ensures a + (b + w) == n + w
  {
  }

  // ---------------------------------------------------------------------------
  // Word wrap as a definition: the text split at its newlines, and the words
  // of each paragraph packed greedily

  /** The words of a newline-free paragraph, in order. */
  function Words(p: seq<char>): (ws: seq<seq<char>>)
    requires '\n' !in p
    decreases |p|
  {
    if p == [] then []
    else
      var e := WordEnd(p, 0);
      assert forall k :: 0 <= k < |p| - e ==> p[e..][k] == p[e + k];
      [p[..e]] + Words(p[e..])
  }

  /** The lines a greedy packing closes, and the line it leaves open. */
  datatype Packed = Packed(closed: seq<seq<char>>, open: seq<char>)

  /** Greedy packing of words after the open line `cur`: a word joins the
      open line when it fits; a word too wide for an empty line takes a line
      of its own; otherwise the open line is closed and the word starts anew. */
  function Pack(words: seq<seq<char>>, cur: seq<char>, box: Box, font: Font): Packed
    decreases |words|, if cur == [] then 0 else 1
  {
    if words == [] then Packed([], cur)
    else if Width(cur, font) + Width(words[0], font) <= box.maxWidth then Pack(words[1..], cur + words[0], box, font)
    else if cur == [] then
      var r := Pack(words[1..], [], box, font);
      Packed([words[0]] + r.closed, r.open)
    else
      var r := Pack(words, [], box, font);
      Packed([cur] + r.closed, r.open)
  }

  /** The lines of one paragraph packed after `cur`: its closed lines, then
      the open line, which the last paragraph keeps only when it is not empty. */
  function ParagraphLines(p: seq<char>, cur: seq<char>, last: bool, box: Box, font: Font): seq<seq<char>>
    requires '\n' !in p
  {
    var r := Pack(Words(p), cur, box, font);
    r.closed + (if !last || r.open != [] then [r.open] else [])
  }

  /** The lines of the text t read after the open line `cur`: each newline
      closes the paragraph before it. */
  function WrapFrom(t: seq<char>, cur: seq<char>, box: Box, font: Font): seq<seq<char>>
    decreases |t|
  {
    var pe := FirstNewline(t, 0);
    assert forall k :: 0 <= k < pe ==> t[..pe][k] == t[k];
    if pe < |t| then ParagraphLines(t[..pe], cur, false, box, font) + WrapFrom(t[pe + 1..], [], box, font)
    else ParagraphLines(t, cur, true, box, font)
  }

  /** Greedy word wrap with no line budget. */
  function GreedyWrap(text: seq<char>, box: Box, font: Font): seq<seq<char>>
  {
    WrapFrom(text, [], box, font)
  }

  /** The first delimiter of a slice is the first delimiter of the text, cut
      at the slice's end. */
  lemma {:induction false} FirstDelimiterSlice(text: seq<char>, a: nat, b: nat, k: nat)
    requires a + k <= b <= |text|
    ensures FirstDelimiter(text[a..b], k) == (if FirstDelimiter(text, a + k) < b then FirstDelimiter(text, a + k) else b) - a
    decreases b - a - k
  {
    if a + k < b && !IsDelimiter(text[a + k]) {
      FirstDelimiterSlice(text, a, b, k + 1);
    }
  }

  lemma {:induction false} FirstNonDelimiterSlice(text: seq<char>, a: nat, b: nat, k: nat)
    requires a + k <= b <= |text|
    ensures FirstNonDelimiter(text[a..b], k) == (if FirstNonDelimiter(text, a + k) < b then FirstNonDelimiter(text, a + k) else b) - a
    decreases b - a - k
  {
    if a + k < b && IsDelimiter(text[a + k]) {
      FirstNonDelimiterSlice(text, a, b, k + 1);
    }
  }

  lemma {:induction false} FirstNewlineSlice(text: seq<char>, a: nat, b: nat, k: nat)
    requires a + k <= b <= |text|
    ensures FirstNewline(text[a..b], k) == (if FirstNewline(text, a + k) < b then FirstNewline(text, a + k) else b) - a
    decreases b - a - k
  {
    if a + k < b && text[a + k] != '\n' {
      FirstNewlineSlice(text, a, b, k + 1);
    }
  }

  /** The end of a word read in a slice is the end read in the text, cut at
      the slice's end. */
  lemma WordEndSlice(text: seq<char>, a: nat, b: nat, k: nat)
    requires a + k < b <= |text| && text[a + k] != '\n'
    ensures WordEnd(text[a..b], k) == (if WordEnd(text, a + k) < b then WordEnd(text, a + k) else b) - a
  {
    FirstDelimiterSlice(text, a, b, k);
    FirstNewlineSlice(text, a, b, k);
    var ds := FirstDelimiter(text, a + k);
    if ds < b {
      FirstNonDelimiterSlice(text, a, b, ds - a);
    }
  }

  /** The first newline seen from any index up to it is the same. */
  lemma {:induction false} FirstNewlineFrom(t: seq<char>, from: nat, m: nat)
    requires from <= |t| && from <= m <= FirstNewline(t, from)
    ensures FirstNewline(t, m) == FirstNewline(t, from)
    decreases m - from
  {
    if from < m {
      FirstNewlineFrom(t, from + 1, m);
    }
  }

  /** A newline first in t closes the open line. */
  lemma NewlineClosesLine(t: seq<char>, cur: seq<char>, box: Box, font: Font)
    requires t != [] && t[0] == '\n'
    ensures WrapFrom(t, cur, box, font) == [cur] + WrapFrom(t[1..], [], box, font)
  {
    var e: seq<char> := [];
    assert t[..0] == e;
    assert Words(e) == [];
  }

  /** The first word of t and the rest of its paragraph. */
  lemma FirstWord(t: seq<char>, cur: seq<char>, box: Box, font: Font)
    requires t != [] && t[0] != '\n'
    ensures var e := WordEnd(t, 0); var pe := FirstNewline(t, 0);
      e <= pe && '\n' !in t[..pe] && '\n' !in t[e..pe] &&
      Words(t[..pe]) == [t[..e]] + Words(t[e..pe]) &&
      FirstNewline(t[e..], 0) == pe - e
  {
    var e := WordEnd(t, 0);
    var pe := FirstNewline(t, 0);
    var p := t[..pe];
    assert 0 < pe;
    PlainBeforeNewline(t, 0, pe);
    PlainBeforeNewline(t, e, pe);
    WordEndSlice(t, 0, pe, 0);
    assert t[0..pe] == p;
    assert WordEnd(p, 0) == e;
    assert p[..e] == t[..e];
    assert p[e..] == t[e..pe];
    assert Words(p) == [p[..e]] + Words(p[e..]);
    SuffixParagraph(t, e);
  }

  /** No newline lies before the first one. */
  lemma PlainBeforeNewline(t: seq<char>, a: nat, pe: nat)
    requires a <= pe == FirstNewline(t, 0)
    ensures '\n' !in t[a..pe]
  {
    forall j | 0 <= j < pe - a
      ensures t[a..pe][j] != '\n'
    {
      assert t[a..pe][j] == t[a + j];
    }
  }

  /** WrapFrom unfolded once: the lines of the first paragraph, then those of the rest. */
  lemma WrapFromParagraph(t: seq<char>, cur: seq<char>, box: Box, font: Font)
    ensures var pe := FirstNewline(t, 0);
      '\n' !in t[..pe] &&
      WrapFrom(t, cur, box, font) ==
        ParagraphLines(t[..pe], cur, pe == |t|, box, font) + (if pe < |t| then WrapFrom(t[pe + 1..], [], box, font) else [])
  {
    var pe := FirstNewline(t, 0);
    if pe == |t| {
      assert t[..pe] == t;
    }
  }

  /** Two paragraphs whose packings differ only by the lines `pre` closed in front. */
  lemma ParagraphShift(p: seq<char>, q: seq<char>, cur: seq<char>, cur': seq<char>, pre: seq<seq<char>>, last: bool, box: Box, font: Font)
    requires '\n' !in p && '\n' !in q
    requires var r := Pack(Words(q), cur', box, font); Pack(Words(p), cur, box, font) == Packed(pre + r.closed, r.open)
    ensures ParagraphLines(p, cur, last, box, font) == pre + ParagraphLines(q, cur', last, box, font)
  {
  }

  /** The same paragraph seen after its first word: when packing the word
      closes the lines `pre` and leaves the open line `cur'`, the lines are
      `pre` followed by those read after the word. */
  lemma AfterFirstWord(t: seq<char>, cur: seq<char>, cur': seq<char>, pre: seq<seq<char>>, box: Box, font: Font)
    requires t != [] && t[0] != '\n'
    requires var e := WordEnd(t, 0);
      var pe := FirstNewline(t, 0);
      var r := Pack(Words(t[e..pe]), cur', box, font);
      e <= pe && '\n' !in t[..pe] && '\n' !in t[e..pe] && Pack(Words(t[..pe]), cur, box, font) == Packed(pre + r.closed, r.open)
    ensures var e := WordEnd(t, 0); WrapFrom(t, cur, box, font) == pre + WrapFrom(t[e..], cur', box, font)
  {
    var e := WordEnd(t, 0);
    var pe := FirstNewline(t, 0);
    var rest := if pe < |t| then WrapFrom(t[pe + 1..], [], box, font) else [];
    var whole := ParagraphLines(t[..pe], cur, pe == |t|, box, font);
    var after := ParagraphLines(t[e..pe], cur', pe == |t|, box, font);
    assert WrapFrom(t, cur, box, font) == whole + rest by {
      WrapFromParagraph(t, cur, box, font);
    }
    assert WrapFrom(t[e..], cur', box, font) == after + rest by {
      WrapFromSuffix(t, e, cur', box, font);
    }
    assert whole == pre + after by {
      ParagraphShift(t[..pe], t[e..pe], cur, cur', pre, pe == |t|, box, font);
    }
    AppendAssoc(pre, after, rest, whole);
  }

  /** WrapFrom read from inside the first paragraph of t: the rest of that
      paragraph, then the same following text. */
  lemma WrapFromSuffix(t: seq<char>, e: nat, cur: seq<char>, box: Box, font: Font)
    requires e <= FirstNewline(t, 0)
    ensures var pe := FirstNewline(t, 0);
      '\n' !in t[e..pe] &&
      WrapFrom(t[e..], cur, box, font) ==
        ParagraphLines(t[e..pe], cur, pe == |t|, box, font) + (if pe < |t| then WrapFrom(t[pe + 1..], [], box, font) else [])
  {
    var pe := FirstNewline(t, 0);
    SuffixParagraph(t, e);
    WrapFromParagraph(t[e..], cur, box, font);
  }

  /** The text from inside its first paragraph on: the paragraph's rest,
      then the same following text. */
  lemma SuffixParagraph(t: seq<char>, e: nat)
    requires e <= FirstNewline(t, 0)
    ensures var pe := FirstNewline(t, 0);
      FirstNewline(t[e..], 0) == pe - e && t[e..][..pe - e] == t[e..pe] &&
      (pe < |t| ==> t[e..][pe - e + 1..] == t[pe + 1..])
  {
    SuffixNewline(t, e);
    SliceOfSuffix(t, e, FirstNewline(t, 0));
  }

  lemma SliceOfSuffix<T>(t: seq<T>, e: nat, m: nat)
    requires e <= m <= |t|
    ensures t[e..][..m - e] == t[e..m] && (m < |t| ==> t[e..][m - e + 1..] == t[m + 1..])
  {
  }

  /** The first newline of a suffix taken inside the first paragraph. */
  lemma SuffixNewline(t: seq<char>, e: nat)
    requires e <= FirstNewline(t, 0)
    ensures FirstNewline(t[e..], 0) == FirstNewline(t, 0) - e
  {
    FirstNewlineSlice(t, e, |t|, 0);
    FirstNewlineFrom(t, 0, e);
    assert t[e..|t|] == t[e..];
  }

  /** A word that fits joins the open line. */
  lemma WordFits(t: seq<char>, cur: seq<char>, box: Box, font: Font)
    requires t != [] && t[0] != '\n'
    requires Width(cur, font) + Width(t[..WordEnd(t, 0)], font) <= box.maxWidth
    ensures WrapFrom(t, cur, box, font) == WrapFrom(t[WordEnd(t, 0)..], cur + t[..WordEnd(t, 0)], box, font)
  {
    FirstWord(t, cur, box, font);
    var e := WordEnd(t, 0);
    var pe := FirstNewline(t, 0);
    var r := Pack(Words(t[e..pe]), cur + t[..e], box, font);
    assert Pack(Words(t[..pe]), cur, box, font) == Packed([] + r.closed, r.open);
    AfterFirstWord(t, cur, cur + t[..e], [], box, font);
  }

  /** A word too wide for the empty open line takes a line of its own. */
  lemma WordTakesLine(t: seq<char>, box: Box, font: Font)
    requires t != [] && t[0] != '\n'
    requires Width([], font) + Width(t[..WordEnd(t, 0)], font) > box.maxWidth
    ensures WrapFrom(t, [], box, font) == [t[..WordEnd(t, 0)]] + WrapFrom(t[WordEnd(t, 0)..], [], box, font)
  {
    FirstWord(t, [], box, font);
    var e := WordEnd(t, 0);
    var pe := FirstNewline(t, 0);
    var r := Pack(Words(t[e..pe]), [], box, font);
    assert Pack(Words(t[..pe]), [], box, font) == Packed([t[..e]] + r.closed, r.open);
    AfterFirstWord(t, [], [], [t[..e]], box, font);
  }

  /** A word that does not fit a non-empty open line closes it. */
  lemma WordClosesLine(t: seq<char>, cur: seq<char>, box: Box, font: Font)
    requires t != [] && t[0] != '\n' && cur != []
    requires Width(cur, font) + Width(t[..WordEnd(t, 0)], font) > box.maxWidth
    ensures WrapFrom(t, cur, box, font) == [cur] + WrapFrom(t, [], box, font)
  {
    var pe := FirstNewline(t, 0);
    PlainBeforeNewline(t, 0, pe);
    var rest := if pe < |t| then WrapFrom(t[pe + 1..], [], box, font) else [];
    var closing := ParagraphLines(t[..pe], cur, pe == |t|, box, font);
    var restarted := ParagraphLines(t[..pe], [], pe == |t|, box, font);
    assert WrapFrom(t, cur, box, font) == closing + rest by {
      WrapFromParagraph(t, cur, box, font);
    }
    assert WrapFrom(t, [], box, font) == restarted + rest by {
      WrapFromParagraph(t, [], box, font);
    }
    assert closing == [cur] + restarted by {
      FirstWord(t, cur, box, font);
      var ws := Words(t[..pe]);
      assert ws[0] == t[..WordEnd(t, 0)];
      PackCloses(ws, cur, box, font);
      ParagraphShift(t[..pe], t[..pe], cur, [], [cur], pe == |t|, box, font);
    }
    AppendAssoc([cur], restarted, rest, closing);
  }

  /** A first word too wide for the non-empty open line closes that line. */
  lemma PackCloses(ws: seq<seq<char>>, cur: seq<char>, box: Box, font: Font)
    requires ws != [] && cur != [] && Width(cur, font) + Width(ws[0], font) > box.maxWidth
    ensures var r := Pack(ws, [], box, font); Pack(ws, cur, box, font) == Packed([cur] + r.closed, r.open)
  {
  }

  /** The word wrap's lines so far and the lines still to come from its
      state make up the greedy wrap of the whole text. */
  predicate GreedyInv(text: seq<char>, box: Box, font: Font, current: nat, lines: seq<seq<char>>, currentLine: seq<char>)
  {
    current <= |text| && lines + WrapFrom(text[current..], currentLine, box, font) == GreedyWrap(text, box, font)
  }

  /** Nothing is read yet at the start. */
  lemma GreedyStart(text: seq<char>, box: Box, font: Font)
    ensures GreedyInv(text, box, font, 0, [], [])
  {
    assert text[0..] == text;
  }

  /** The closed lines are always a prefix of the word wrap. */
  lemma GreedyPrefix(text: seq<char>, box: Box, font: Font, current: nat, lines: seq<seq<char>>, currentLine: seq<char>)
    requires GreedyInv(text, box, font, current, lines, currentLine)
    ensures lines <= GreedyWrap(text, box, font)
  {
    var g := GreedyWrap(text, box, font);
    assert g[..|lines|] == lines;
  }

  /** A newline closes the current line. */
  lemma GreedyNewline(text: seq<char>, box: Box, font: Font, current: nat, lines: seq<seq<char>>, currentLine: seq<char>)
    requires current < |text| && text[current] == '\n' && GreedyInv(text, box, font, current, lines, currentLine)
    ensures GreedyInv(text, box, font, current + 1, lines + [currentLine], [])
  {
    var t := text[current..];
    NewlineClosesLine(t, currentLine, box, font);
    assert t[1..] == text[current + 1..];
    AppendAssoc(lines, [currentLine], WrapFrom(t[1..], [], box, font), lines + [currentLine]);
  }

  /** The word the wrap reads at `current` is the first word of the text from there on. */
  lemma WordAt(text: seq<char>, current: nat)
    requires current < |text| && text[current] != '\n'
    ensures var t := text[current..]; var e := WordEnd(text, current);
      t != [] && t[0] != '\n' && WordEnd(t, 0) == e - current &&
      t[..e - current] == text[current..e] && t[e - current..] == text[e..]
  {
    WordEndSlice(text, current, |text|, 0);
    assert text[current..|text|] == text[current..];
  }

  /** A word that fits joins the current line. */
  lemma GreedyJoin(text: seq<char>, box: Box, font: Font, current: nat, lines: seq<seq<char>>, currentLine: seq<char>)
    requires current < |text| && text[current] != '\n' && GreedyInv(text, box, font, current, lines, currentLine)
    requires Width(currentLine, font) + Width(text[current..WordEnd(text, current)], font) <= box.maxWidth
    ensures var e := WordEnd(text, current); GreedyInv(text, box, font, e, lines, currentLine + text[current..e])
  {
    WordAt(text, current);
    WordFits(text[current..], currentLine, box, font);
  }

  /** A word too wide for the empty current line takes a line of its own. */
  lemma GreedyAlone(text: seq<char>, box: Box, font: Font, current: nat, lines: seq<seq<char>>)
    requires current < |text| && text[current] != '\n' && GreedyInv(text, box, font, current, lines, [])
    requires Width([], font) + Width(text[current..WordEnd(text, current)], font) > box.maxWidth
    ensures var e := WordEnd(text, current); GreedyInv(text, box, font, e, lines + [text[current..e]], [])
  {
    var e := WordEnd(text, current);
    WordAt(text, current);
    WordTakesLine(text[current..], box, font);
    AppendAssoc(lines, [text[current..e]], WrapFrom(text[e..], [], box, font), lines + [text[current..e]]);
  }

  /** A word that does not fit closes the non-empty current line. */
  lemma GreedyClose(text: seq<char>, box: Box, font: Font, current: nat, lines: seq<seq<char>>, currentLine: seq<char>)
    requires current < |text| && text[current] != '\n' && currentLine != [] && GreedyInv(text, box, font, current, lines, currentLine)
    requires Width(currentLine, font) + Width(text[current..WordEnd(text, current)], font) > box.maxWidth
    ensures GreedyInv(text, box, font, current, lines + [currentLine], [])
  {
    WordAt(text, current);
    WordClosesLine(text[current..], currentLine, box, font);
    AppendAssoc(lines, [currentLine], WrapFrom(text[current..], [], box, font), lines + [currentLine]);
  }

  /** At the end of the text only the current line remains, when it is not empty. */
  lemma GreedyEnd(text: seq<char>, box: Box, font: Font, lines: seq<seq<char>>, currentLine: seq<char>)
    requires GreedyInv(text, box, font, |text|, lines, currentLine)
    ensures GreedyWrap(text, box, font) == lines + (if currentLine != [] then [currentLine] else [])
    ensures lines <= GreedyWrap(text, box, font)
  {
    var e: seq<char> := [];
    assert text[|text|..] == e;
    assert Words(e) == [];
  }

  // ---------------------------------------------------------------------------
  // The cut after justification

  /** How many justified lines to keep: the lines that fit the height when
      clipping and the line cap when there is one, each INT_MAX otherwise. */
  function LinesToKeep(box: Box, font: Font): int
    requires box.clipMode == ClipToBounds ==> box.lineHeight * font.scale != 0.0
  {
    var byClipping := if box.clipMode == ClipToBounds then (box.maxHeight / (box.lineHeight * font.scale)).Floor else INT_MAX;
    var byLimit := if box.maxLines != 0 then box.maxLines else INT_MAX;
    if byClipping < byLimit then byClipping else byLimit
  }

  /** The justified lines cut to LinesToKeep. A negative count compares as
      a huge unsigned value, so it keeps every line. */
  function ClipJustified(lines: seq<Line>, box: Box, font: Font): (r: seq<Line>)
    requires box.clipMode == ClipToBounds ==> box.lineHeight * font.scale != 0.0
    ensures r <= lines
    ensures 0 <= LinesToKeep(box, font) < |lines| ==> |r| == LinesToKeep(box, font)
    ensures !(0 <= LinesToKeep(box, font) < |lines|) ==> r == lines
    ensures box.maxLines > 0 ==> |r| <= box.maxLines || r == lines
  {
    var keep := LinesToKeep(box, font);
    if 0 <= keep < |lines| then lines[..keep] else lines
  }

  // ---------------------------------------------------------------------------
  // Placement

  datatype Placement = Placement(glyph: char, x: real, y: real)

  /** The y of the first line's baseline for the vertical alignment. */
  function StartY(alignment: VerticalAlignment, height: real, lineHeight: real, totalHeight: real): real
  {
    match alignment
    case Top => height / 2.0 - lineHeight
    case Bottom => -height / 2.0 + totalHeight - lineHeight
    case VCenter => totalHeight / 2.0 - lineHeight / 2.0
  }

  /** The x where a line of the given width starts for the horizontal alignment. */
  function StartX(alignment: HorizontalAlignment, width: real, lineWidth: real): real
  {
    match alignment
    case Left => -width / 2.0
    case Right => width / 2.0 - lineWidth
    case HCenter => -lineWidth / 2.0
  }

  /** How far the pen moves after a character: its width, stretched by the
      line's ratio when it is a space. */
  function PenAdvance(c: char, line: Line, font: Font): real
  {
    if c == ' ' then CharWidth(c, font) * line.spacingRatio else CharWidth(c, font)
  }

  /** The larger of `initial` and the widths of the lines, taken line by line. */
  function MaxWidth(lines: seq<Line>, font: Font, initial: real): real
  {
    if lines == [] then initial
    else
      var m := MaxWidth(lines[..|lines| - 1], font, initial);
      var w := Width(lines[|lines| - 1].text, font);
      if m > w then m else w
  }

  /** MaxWidth is the maximum: at least `initial` and every line's width, and equal to one of them. */
  lemma {:induction false} MaxWidthIsMaximum(lines: seq<Line>, font: Font, initial: real)
    ensures MaxWidth(lines, font, initial) >= initial
    ensures forall k :: 0 <= k < |lines| ==> MaxWidth(lines, font, initial) >= Width(lines[k].text, font)
    ensures MaxWidth(lines, font, initial) == initial ||
            exists k :: 0 <= k < |lines| && MaxWidth(lines, font, initial) == Width(lines[k].text, font)
  {
    if lines != [] {
      var init := lines[..|lines| - 1];
      MaxWidthIsMaximum(init, font, initial);
      assert forall k :: 0 <= k < |init| ==> init[k] == lines[k];
    }
  }

  /** The baseline of line k: the start baseline lowered by one line height per line. */
  function LineY(y0: real, k: nat, lineHeight: real): real
  {
    if k == 0 then y0 else LineY(y0, k - 1, lineHeight) - lineHeight
  }

  lemma {:induction false} LineYClosedForm(y0: real, k: nat, lineHeight: real)
    ensures LineY(y0, k, lineHeight) == y0 - k as real * lineHeight
  {
    if k > 0 {
      LineYClosedForm(y0, k - 1, lineHeight);
      assert k as real * lineHeight == (k - 1) as real * lineHeight + lineHeight;
    }
  }

  /** row places the characters of line in order on baseline y, each at
      x0 plus the pen advances of the characters before it. */
  predicate PlacedRow(row: seq<Placement>, line: Line, x0: real, y: real, font: Font)
  {
    |row| == |line.text| &&
    forall j :: 0 <= j < |row| ==> row[j] == Placement(line.text[j], x0 + LaidOutWidth(line.text[..j], line, font), y)
  }

  /** Lays out the lines: row k places line k on baseline LineY from StartY,
      starting at StartX for the line's width. The realized height is the
      line count times the line height; the realized width is the widest line
      (or the caller's starting value when larger). */
  method LayoutLines(lines: seq<Line>, width: real, height: real, maxLineHeight: real,
                     horizontalAlignment: HorizontalAlignment, verticalAlignment: VerticalAlignment,
                     font: Font, initialRealizedWidth: real)
    returns (placements: seq<seq<Placement>>, realizedWidth: real, realizedHeight: real)
    ensures realizedHeight == |lines| as real * (maxLineHeight * font.scale)
    ensures realizedWidth == MaxWidth(lines, font, initialRealizedWidth) && realizedWidth >= initialRealizedWidth
    ensures |placements| == |lines|
    ensures PlacedRows(placements, lines, width, horizontalAlignment,
                       StartY(verticalAlignment, height, maxLineHeight * font.scale, realizedHeight), maxLineHeight * font.scale, font)
    ensures TextsFree(lines) ==> GlyphsFree(placements)
  {
    var lineHeight := maxLineHeight * font.scale;
    var totalHeight := |lines| as real * (maxLineHeight * font.scale);
    var y := StartY(verticalAlignment, height, lineHeight, totalHeight);
    realizedHeight := totalHeight;
    placements, realizedWidth := PlaceLines(lines, width, horizontalAlignment, y, lineHeight, font, initialRealizedWidth);
    MaxWidthIsMaximum(lines, font, initialRealizedWidth);
    NoNewlineGlyphs(placements, lines, width, horizontalAlignment, y, lineHeight, font);
  }

  /** The line loop of LayoutLines, from the first baseline y0 downwards. */
  method PlaceLines(lines: seq<Line>, width: real, horizontalAlignment: HorizontalAlignment,
                    y0: real, lineHeight: real, font: Font, initialRealizedWidth: real)
    returns (placements: seq<seq<Placement>>, realizedWidth: real)
    ensures realizedWidth == MaxWidth(lines, font, initialRealizedWidth)
    ensures PlacedRows(placements, lines, width, horizontalAlignment, y0, lineHeight, font)
  {
    var y := y0;
    realizedWidth := initialRealizedWidth;
    placements := [];
    var k := 0;
    while k < |lines|
      invariant 0 <= k <= |lines| && |placements| == k
      invariant y == LineY(y0, k, lineHeight)
      invariant realizedWidth == MaxWidth(lines[..k], font, initialRealizedWidth)
      invariant PlacedRows(placements, lines[..k], width, horizontalAlignment, y0, lineHeight, font)
    {
      var line := lines[k];
      var lineWidth := GetLengthOfWord(line.text, font);
      var row := PlaceLine(line, StartX(horizontalAlignment, width, lineWidth), y, font);
      assert lines[..k + 1][..k] == lines[..k] && lines[..k + 1][k] == line;
      assert MaxWidth(lines[..k + 1], font, initialRealizedWidth) == if realizedWidth > lineWidth then realizedWidth else lineWidth;
      assert LineY(y0, k + 1, lineHeight) == y - lineHeight;
      PlacedRowsPush(placements, lines, k, row, width, horizontalAlignment, y0, lineHeight, font);
      placements := placements + [row];
      y := y - lineHeight;
      realizedWidth := if realizedWidth > lineWidth then realizedWidth else lineWidth;
      k := k + 1;
    }
    assert lines[..k] == lines;
  }

  lemma PlacedRowsPush(placements: seq<seq<Placement>>, lines: seq<Line>, k: nat, row: seq<Placement>, width: real,
                       horizontalAlignment: HorizontalAlignment, y0: real, lineHeight: real, font: Font)
    requires k < |lines| && PlacedRows(placements, lines[..k], width, horizontalAlignment, y0, lineHeight, font)
    requires PlacedRow(row, lines[k], StartX(horizontalAlignment, width, Width(lines[k].text, font)), LineY(y0, k, lineHeight), font)
    ensures PlacedRows(placements + [row], lines[..k + 1], width, horizontalAlignment, y0, lineHeight, font)
  {
    var ps := placements + [row];
    var ls := lines[..k + 1];
    forall m | 0 <= m < |ls|
      ensures PlacedRow(ps[m], ls[m], StartX(horizontalAlignment, width, Width(ls[m].text, font)), LineY(y0, m, lineHeight), font)
    {
      if m < k {
        assert ps[m] == placements[m] && ls[m] == lines[..k][m];
      }
    }
  }

  /** Row k places line k on baseline LineY(y0, k), starting at StartX for the line's width. */
  predicate PlacedRows(placements: seq<seq<Placement>>, lines: seq<Line>, width: real, horizontalAlignment: HorizontalAlignment,
                       y0: real, lineHeight: real, font: Font)
  {
    |placements| == |lines| &&
    forall k :: 0 <= k < |lines| ==>
      PlacedRow(placements[k], lines[k], StartX(horizontalAlignment, width, Width(lines[k].text, font)), LineY(y0, k, lineHeight), font)
  }

  /** The placements of one line's characters from pen position (x0, y). */
  method PlaceLine(line: Line, x0: real, y: real, font: Font) returns (row: seq<Placement>)
    ensures PlacedRow(row, line, x0, y, font)
  {
    row := [];
    var x := x0;
    var j := 0;
    while j < |line.text|
      invariant 0 <= j <= |line.text| && |row| == j
      invariant x == x0 + LaidOutWidth(line.text[..j], line, font)
      invariant forall m :: 0 <= m < j ==> row[m] == Placement(line.text[m], x0 + LaidOutWidth(line.text[..m], line, font), y)
    {
      var c := line.text[j];
      LaidOutStep(line.text, j, line, font);
      ghost var row0 := row;
      row := row + [Placement(c, x, y)];
      assert forall m :: 0 <= m < j ==> row[m] == row0[m];
      x := x + PenAdvance(c, line, font);
      j := j + 1;
    }
  }

  /** The laid-out width of one more character. */
  lemma LaidOutStep(text: seq<char>, j: nat, line: Line, font: Font)
    requires j < |text|
    ensures LaidOutWidth(text[..j + 1], line, font) == LaidOutWidth(text[..j], line, font) + PenAdvance(text[j], line, font)
  {
    assert text[..j + 1][..j] == text[..j];
  }

  // ---------------------------------------------------------------------------
  // Justified spacing

  /** The laid-out width of a line: the sum of its pen advances. */
  function LaidOutWidth(text: seq<char>, line: Line, font: Font): real
  {
    if text == [] then 0.0 else LaidOutWidth(text[..|text| - 1], line, font) + PenAdvance(text[|text| - 1], line, font)
  }

  function CountSpaces(s: seq<char>): nat
  {
    if s == [] then 0 else CountSpaces(s[..|s| - 1]) + (if s[|s| - 1] == ' ' then 1 else 0)
  }

  /** Stretching the spaces by a ratio adds (ratio - 1) space widths per space. */
  lemma {:induction false} StretchedWidth(text: seq<char>, line: Line, font: Font)
    ensures LaidOutWidth(text, line, font) ==
      Width(text, font) + CountSpaces(text) as real * CharWidth(' ', font) * (line.spacingRatio - 1.0)
  {
    if text != [] {
      var init := text[..|text| - 1];
      StretchedWidth(init, line, font);
      var n := CountSpaces(init) as real;
      var w := CharWidth(' ', font);
      var r := line.spacingRatio - 1.0;
      if text[|text| - 1] == ' ' {
        assert w * line.spacingRatio == w + w * r;
        assert (n + 1.0) * w * r == n * w * r + w * r;
      }
    }
  }

  /** The spacing ratio of a justified line that is not the last of its
      paragraph: the free width shared out over its spaces, relative to the
      width of a space. */
  function SpacingRatio(maxWidth: real, textWidth: real, numSpaces: nat, spaceWidth: real): (ratio: real)
    requires numSpaces > 0 && spaceWidth != 0.0
    ensures textWidth + numSpaces as real * spaceWidth * (ratio - 1.0) == maxWidth
  {
    var spacePerWhitespace := (maxWidth - textWidth) / numSpaces as real;
    var ratio := 1.0 + spacePerWhitespace / spaceWidth;
    assert spaceWidth * (ratio - 1.0) == spacePerWhitespace;
    assert numSpaces as real * spacePerWhitespace == maxWidth - textWidth;
    ratio
  }

  /** A justified line with spaces, laid out with its spacing ratio, exactly fills the width. */
  lemma JustifiedLineFills(text: seq<char>, maxWidth: real, font: Font)
    requires CountSpaces(text) > 0 && CharWidth(' ', font) != 0.0
    ensures LaidOutWidth(text, Line(text, SpacingRatio(maxWidth, Width(text, font), CountSpaces(text), CharWidth(' ', font))), font) == maxWidth
  {
    var ratio := SpacingRatio(maxWidth, Width(text, font), CountSpaces(text), CharWidth(' ', font));
    StretchedWidth(text, Line(text, ratio), font);
  }

  // ---------------------------------------------------------------------------
  // Formatting

  datatype LineBreakMode = WordWrap | CharWrap | NoWrap | Justify

  function AsLines(wrapped: seq<seq<char>>): (r: seq<Line>)
    ensures |r| == |wrapped| && forall k :: 0 <= k < |r| ==> r[k] == Line(wrapped[k], 1.0)
  {
    seq(|wrapped|, k requires 0 <= k < |wrapped| => Line(wrapped[k], 1.0))
  }

  /** Breaks the text into lines by the line-break mode. The Knuth-Plass
      line breaking of the justified mode is outside the model: its lines
      come in as `justified` and only the final cut applies. */
  method BreakLines(text: seq<char>, lineBreakMode: LineBreakMode, box: Box, font: Font, justified: seq<Line>)
    returns (lines: seq<Line>)
    requires lineBreakMode == Justify && box.clipMode == ClipToBounds ==> box.lineHeight * font.scale != 0.0
    ensures lineBreakMode != Justify ==> TextsFree(lines) && forall k :: 0 <= k < |lines| ==> lines[k].spacingRatio == 1.0
    ensures lineBreakMode != Justify && box.maxLines > 0 ==> |lines| <= box.maxLines
    ensures lineBreakMode == Justify ==> lines == ClipJustified(justified, box, font)
  {
    match lineBreakMode {
      case WordWrap =>
        var wrapped := WrapByWords(text, box, font);
        lines := AsLines(wrapped);
      case CharWrap =>
        var wrapped := WrapByChars(text, box, font);
        lines := AsLines(wrapped);
      case NoWrap =>
        var wrapped := WrapByNewlines(text, box, font);
        forall k | 0 <= k < |wrapped|
          ensures '\n' !in wrapped[k]
        {
          assert '\n' !in Pieces(text)[k];
        }
        lines := AsLines(wrapped);
      case Justify =>
        lines := ClipJustified(justified, box, font);
    }
  }

  /** No line text holds a newline. */
  predicate TextsFree(lines: seq<Line>)
  {
    forall k :: 0 <= k < |lines| ==> '\n' !in lines[k].text
  }

  /** No placed glyph is a newline. */
  predicate GlyphsFree(placements: seq<seq<Placement>>)
  {
    forall k, j :: 0 <= k < |placements| && 0 <= j < |placements[k]| ==> placements[k][j].glyph != '\n'
  }

  lemma NoNewlineGlyphs(placements: seq<seq<Placement>>, lines: seq<Line>, width: real,
                        horizontalAlignment: HorizontalAlignment, y0: real, lineHeight: real, font: Font)
    requires PlacedRows(placements, lines, width, horizontalAlignment, y0, lineHeight, font)
    ensures TextsFree(lines) ==> GlyphsFree(placements)
  {
    if TextsFree(lines) {
      forall k, j | 0 <= k < |placements| && 0 <= j < |placements[k]|
        ensures placements[k][j].glyph != '\n'
      {
        assert PlacedRow(placements[k], lines[k], StartX(horizontalAlignment, width, Width(lines[k].text, font)), LineY(y0, k, lineHeight), font);
        assert placements[k][j].glyph == lines[k].text[j];
      }
    }
  }

  /** Breaks the text into lines by the line-break mode and lays them out:
      one row of placements per line, no newline glyph placed by the
      wrapping modes, and no more rows than the line cap. */
  method FormatAndBuild(text: seq<char>, width: real, height: real, maxLines: int, maxLineHeight: real,
                        horizontalAlignment: HorizontalAlignment, verticalAlignment: VerticalAlignment,
                        lineBreakMode: LineBreakMode, clipMode: ClipMode, font: Font,
                        justified: seq<Line>, initialRealizedWidth: real)
    returns (placements: seq<seq<Placement>>, realizedWidth: real, realizedHeight: real)
    requires lineBreakMode == Justify && clipMode == ClipToBounds ==> maxLineHeight * font.scale != 0.0
    ensures realizedHeight == |placements| as real * (maxLineHeight * font.scale)
    ensures realizedWidth >= initialRealizedWidth
    ensures lineBreakMode != Justify && maxLines > 0 ==> |placements| <= maxLines
    ensures lineBreakMode != Justify ==> GlyphsFree(placements)
  {
    var box := Box(width, height, maxLines, maxLineHeight, clipMode);
    var lines := BreakLines(text, lineBreakMode, box, font, justified);
    placements, realizedWidth, realizedHeight :=
      LayoutLines(lines, width, height, maxLineHeight, horizontalAlignment, verticalAlignment, font, initialRealizedWidth);
    assert |placements| as real == |lines| as real;
  }
}
