/** The fingerprint normaliser of pkg/fingerprint/hash.go.

    SHA-256 is not modelled: everything here is about the string that is hashed, so
    two events share an issue exactly when their pre-hash strings agree (assuming no
    digest collision). */
module Fingerprint {

  predicate IsDigit(c: char) { '0' <= c <= '9' }

  /** The code points `unicode.IsSpace` accepts. */
  predicate IsSpace(c: char) {
    || '\t' <= c <= '\r' || c == ' '
    || c == '\U{0085}' || c == '\U{00A0}' || c == '\U{1680}'
    || '\U{2000}' <= c <= '\U{200A}' || c == '\U{2028}' || c == '\U{2029}'
    || c == '\U{202F}' || c == '\U{205F}' || c == '\U{3000}'
  }

  // ------------------------------------------------------------------ line numbers

  /** The digits at the front of `s`, and what follows them: `\d+` is greedy. */
  function SkipDigits(s: string): (rest: string)
    ensures |rest| <= |s|
    ensures rest != [] ==> !IsDigit(rest[0])
  {
    if s != [] && IsDigit(s[0]) then SkipDigits(s[1..]) else s
  }

  /** A match of the pattern `:\d+` starts at the front of `s`. */
  predicate AtLineNumber(s: string) {
    |s| >= 2 && s[0] == ':' && IsDigit(s[1])
  }

  /** Every match of `:\d+` removed, scanning from the left. */
  function NormalizeFrame(frame: string): string
    decreases |frame|
  {
    if frame == [] then []
    else if AtLineNumber(frame) then NormalizeFrame(SkipDigits(frame[1..]))
    else [frame[0]] + NormalizeFrame(frame[1..])
  }

  predicate NoLineNumber(s: string) {
    forall i :: 0 <= i < |s| - 1 ==> !(s[i] == ':' && '0' <= s[i + 1] <= '9')
  }

  /** The head of the output is the head of the input unless the input starts with a
      match, and then it is not a digit: removing a match never joins a ':' to a digit. */
  lemma {:induction false} NormalizedHead(s: string)
    ensures NormalizeFrame(s) != [] && IsDigit(NormalizeFrame(s)[0]) ==>
              s != [] && !AtLineNumber(s) && s[0] == NormalizeFrame(s)[0]
    decreases |s|
  {
    if AtLineNumber(s) {
      var rest := SkipDigits(s[1..]);
      NormalizedHead(rest);
    }
  }

  lemma {:induction false} NormalizedHasNoLineNumber(s: string)
    ensures NoLineNumber(NormalizeFrame(s))
    decreases |s|
  {
    if s == [] {
    } else if AtLineNumber(s) {
      NormalizedHasNoLineNumber(SkipDigits(s[1..]));
    } else {
      var tail := NormalizeFrame(s[1..]);
      NormalizedHasNoLineNumber(s[1..]);
      NormalizedHead(s[1..]);
      var out := [s[0]] + tail;
      forall i | 0 <= i < |out| - 1 ensures !(out[i] == ':' && IsDigit(out[i + 1])) {
        if i > 0 { assert out[i] == tail[i - 1] && out[i + 1] == tail[i]; }
      }
    }
  }

  /** The normaliser leaves a frame alone exactly when it has nothing to strip. */
  lemma {:induction false} FixedPointsAreClean(s: string)
    ensures NormalizeFrame(s) == s <==> NoLineNumber(s)
  {
    NormalizedHasNoLineNumber(s);
    if NoLineNumber(s) { CleanIsFixed(s); }
  }

  lemma {:induction false} CleanIsFixed(s: string)
    requires NoLineNumber(s)
    ensures NormalizeFrame(s) == s
  {
    if s != [] {
      assert !AtLineNumber(s);
      forall i | 0 <= i < |s[1..]| - 1 ensures !(s[1..][i] == ':' && IsDigit(s[1..][i + 1])) {
        assert s[1..][i] == s[i + 1] && s[1..][i + 1] == s[i + 2];
      }
      CleanIsFixed(s[1..]);
    }
  }

  lemma NormalizeIdempotent(s: string)
    ensures NormalizeFrame(NormalizeFrame(s)) == NormalizeFrame(s)
  {
    NormalizedHasNoLineNumber(s);
    FixedPointsAreClean(NormalizeFrame(s));
  }

  // ---------------------------------------- an independent description of the output

  predicate AllDigits(s: string) {
    forall i :: 0 <= i < |s| ==> IsDigit(s[i])
  }

  /** One line number and the text after it. */
  datatype Piece = Piece(digits: string, text: string)

  /** A frame put together from text and line numbers. */
  function Render(text: string, pieces: seq<Piece>): string
    decreases |pieces|
  {
    if pieces == [] then text
    else text + ":" + pieces[0].digits + Render(pieces[0].text, pieces[1..])
  }

  function Texts(text: string, pieces: seq<Piece>): string
    decreases |pieces|
  {
    if pieces == [] then text else text + Texts(pieces[0].text, pieces[1..])
  }

  /** The digit runs are whole runs, and the text between them has no line number. */
  predicate WellSplit(text: string, pieces: seq<Piece>)
    decreases |pieces|
  {
    && NoLineNumber(text)
    && (pieces != [] ==>
          && pieces[0].digits != [] && AllDigits(pieces[0].digits)
          && (pieces[0].text != [] ==> !IsDigit(pieces[0].text[0]))
          && WellSplit(pieces[0].text, pieces[1..]))
  }

  lemma {:induction false} RenderHead(text: string, pieces: seq<Piece>)
    ensures text == [] && pieces == [] ==> Render(text, pieces) == []
    ensures text == [] && pieces != [] ==> Render(text, pieces) != [] && Render(text, pieces)[0] == ':'
    ensures text != [] ==> Render(text, pieces) != [] && Render(text, pieces)[0] == text[0]
  {}

  lemma {:induction false} SkipsWholeRun(digits: string, rest: string)
    requires AllDigits(digits) && (rest != [] ==> !IsDigit(rest[0]))
    ensures SkipDigits(digits + rest) == rest
  {
    if digits == [] {
      assert digits + rest == rest;
    } else {
      assert (digits + rest)[1..] == digits[1..] + rest;
      SkipsWholeRun(digits[1..], rest);
    }
  }

  lemma {:induction false} CleanPrefixIsKept(text: string, rest: string)
    requires NoLineNumber(text) && (rest != [] ==> !IsDigit(rest[0]))
    ensures NormalizeFrame(text + rest) == text + NormalizeFrame(rest)
  {
    if text == [] {
      assert text + rest == rest && text + NormalizeFrame(rest) == NormalizeFrame(rest);
    } else {
      var s := text + rest;
      assert !AtLineNumber(s) by {
        if |text| >= 2 { assert s[1] == text[1]; } else if rest != [] { assert s[1] == rest[0]; }
      }
      assert s[1..] == text[1..] + rest;
      forall i | 0 <= i < |text[1..]| - 1 ensures !(text[1..][i] == ':' && IsDigit(text[1..][i + 1])) {
        assert text[1..][i] == text[i + 1] && text[1..][i + 1] == text[i + 2];
      }
      CleanPrefixIsKept(text[1..], rest);
      assert [text[0]] + (text[1..] + NormalizeFrame(rest)) == text + NormalizeFrame(rest);
    }
  }

  lemma {:induction false} LineNumberIsDropped(digits: string, rest: string)
    requires digits != [] && AllDigits(digits) && (rest != [] ==> !IsDigit(rest[0]))
    ensures NormalizeFrame(":" + digits + rest) == NormalizeFrame(rest)
  {
    var s := ":" + digits + rest;
    assert s[1] == digits[0];
    assert s[1..] == digits + rest;
    SkipsWholeRun(digits, rest);
  }

  /** What the normaliser computes: the text, without the line numbers, whatever they are. */
  lemma {:induction false} NormalizeKeepsTheTexts(text: string, pieces: seq<Piece>)
    requires WellSplit(text, pieces)
    ensures NormalizeFrame(Render(text, pieces)) == Texts(text, pieces)
    decreases |pieces|
  {
    if pieces == [] {
      CleanIsFixed(text);
    } else {
      var p := pieces[0];
      var inner := Render(p.text, pieces[1..]);
      var rest := ":" + p.digits + inner;
      RenderHead(p.text, pieces[1..]);
      NormalizeKeepsTheTexts(p.text, pieces[1..]);
      assert Render(text, pieces) == text + rest;
      CleanPrefixIsKept(text, rest);
      LineNumberIsDropped(p.digits, inner);
    }
  }

  /** Every frame is such a rendering, so the previous lemma describes every frame. */
  lemma {:induction false} EveryFrameSplits(frame: string) returns (text: string, pieces: seq<Piece>)
    ensures WellSplit(text, pieces) && Render(text, pieces) == frame
    decreases |frame|
  {
    if frame == [] {
      text, pieces := [], [];
    } else if AtLineNumber(frame) {
      var digits, rest := TakeRun(frame[1..]);
      var t, ps := EveryFrameSplits(rest);
      RenderHead(t, ps);
      text, pieces := [], [Piece(digits, t)] + ps;
      assert pieces[1..] == ps;
      assert frame == ":" + digits + rest;
      assert [] + ":" + digits + Render(t, ps) == ":" + digits + Render(t, ps);
    } else {
      var t, ps := EveryFrameSplits(frame[1..]);
      RenderHead(t, ps);
      text, pieces := [frame[0]] + t, ps;
      assert NoLineNumber(text) by {
        forall i | 0 <= i < |text| - 1 ensures !(text[i] == ':' && IsDigit(text[i + 1])) {
          if i > 0 { assert text[i] == t[i - 1] && text[i + 1] == t[i]; }
          else { assert text[1] == t[0] == frame[1]; }
        }
      }
      if ps != [] {
        assert [frame[0]] + (t + ":" + ps[0].digits + Render(ps[0].text, ps[1..]))
            == text + ":" + ps[0].digits + Render(ps[0].text, ps[1..]);
      }
    }
  }

  lemma {:induction false} TakeRun(s: string) returns (digits: string, rest: string)
    requires s != [] && IsDigit(s[0])
    ensures s == digits + rest && digits != [] && AllDigits(digits)
    ensures rest != [] ==> !IsDigit(rest[0])
    ensures |rest| < |s|
  {
    if |s| >= 2 && IsDigit(s[1]) {
      var d, r := TakeRun(s[1..]);
      digits, rest := [s[0]] + d, r;
    } else {
      digits, rest := s[..1], s[1..];
    }
  }

  // ------------------------------------------------------------------ top frame

  /** `strings.Split(s, "\n")`: never empty, one element more than there are newlines. */
  function Lines(s: string): (lines: seq<string>)
    ensures lines != []
  {
    if s == [] then [""]
    else if s[0] == '\n' then [""] + Lines(s[1..])
    else var rest := Lines(s[1..]); [[s[0]] + rest[0]] + rest[1..]
  }

  function TrimLeft(s: string): string {
    if s != [] && IsSpace(s[0]) then TrimLeft(s[1..]) else s
  }

  function TrimRight(s: string): string {
    if s != [] && IsSpace(s[|s| - 1]) then TrimRight(s[..|s| - 1]) else s
  }

  function TrimSpace(s: string): string { TrimRight(TrimLeft(s)) }

  function FirstFrame(lines: seq<string>): string {
    if lines == [] then ""
    else if TrimSpace(lines[0]) != "" then TrimSpace(lines[0])
    else FirstFrame(lines[1..])
  }

  function TopFrame(stackTrace: string): string { FirstFrame(Lines(stackTrace)) }

  /** The first-match loop of `extractTopFrame`. */
  method ExtractTopFrame(stackTrace: string) returns (frame: string)
    ensures frame == TopFrame(stackTrace)
  {
    var lines := Lines(stackTrace);
    for i := 0 to |lines|
      invariant FirstFrame(lines) == FirstFrame(lines[i..])
    {
      var trimmed := TrimSpace(lines[i]);
      assert lines[i..][1..] == lines[i + 1..];
      if trimmed != "" { return trimmed; }
    }
    return "";
  }

  predicate Blank(line: string) {
    forall i :: 0 <= i < |line| ==> IsSpace(line[i])
  }

  lemma {:induction false} BlankTrimsToNothing(s: string)
    ensures TrimSpace(s) == "" <==> Blank(s)
  {
    TrimLeftBlank(s);
    TrimRightBlank(TrimLeft(s));
  }

  lemma {:induction false} TrimLeftBlank(s: string)
    ensures Blank(TrimLeft(s)) <==> Blank(s)
    ensures TrimLeft(s) != [] ==> !IsSpace(TrimLeft(s)[0])
  {
    if s != [] && IsSpace(s[0]) {
      TrimLeftBlank(s[1..]);
      if Blank(s[1..]) {
        forall i | 0 <= i < |s| ensures IsSpace(s[i]) { if i > 0 { assert s[i] == s[1..][i - 1]; } }
      }
    }
  }

  lemma {:induction false} TrimRightBlank(s: string)
    ensures TrimRight(s) == [] <==> Blank(s)
  {
    if s != [] && IsSpace(s[|s| - 1]) { TrimRightBlank(s[..|s| - 1]); }
  }

  /** Text without white space at its ends. */
  predicate Trimmed(s: string) { s == "" || (!IsSpace(s[0]) && !IsSpace(s[|s| - 1])) }

  lemma {:induction false} TrimLeftDropsBlank(left: string, rest: string)
    requires Blank(left) && (rest == "" || !IsSpace(rest[0]))
    ensures TrimLeft(left + rest) == rest
  {
    if left == "" {
      assert left + rest == rest;
    } else {
      assert (left + rest)[1..] == left[1..] + rest;
      TrimLeftDropsBlank(left[1..], rest);
    }
  }

  lemma {:induction false} TrimRightDropsBlank(rest: string, right: string)
    requires Blank(right) && (rest == "" || !IsSpace(rest[|rest| - 1]))
    ensures TrimRight(rest + right) == rest
  {
    if right == "" {
      assert rest + right == rest;
    } else {
      var s := rest + right;
      assert s[..|s| - 1] == rest + right[..|right| - 1];
      TrimRightDropsBlank(rest, right[..|right| - 1]);
    }
  }

  /** `strings.TrimSpace`, exactly: white space goes at both ends, a carriage return included, and nothing
      else does. */
  lemma TrimsBothEnds(left: string, text: string, right: string)
    requires Blank(left) && Blank(right) && Trimmed(text)
    ensures TrimSpace(left + text + right) == text
  {
    if text == "" {
      assert left + text + right == left + right;
      BlankTrimsToNothing(left + right);
    } else {
      assert left + text + right == left + (text + right);
      TrimLeftDropsBlank(left, text + right);
      TrimRightDropsBlank(text, right);
    }
  }

  predicate NoNewline(s: string) { '\n' !in s }

  lemma {:induction false} LineSplitsOff(line: string, rest: string)
    requires NoNewline(line)
    ensures Lines(line + "\n" + rest) == [line] + Lines(rest)
  {
    if line == [] {
      assert line + "\n" + rest == "\n" + rest;
      assert ("\n" + rest)[1..] == rest;
    } else {
      var s := line + "\n" + rest;
      assert s[1..] == line[1..] + "\n" + rest && s[0] == line[0];
      assert NoNewline(line[1..]);
      LineSplitsOff(line[1..], rest);
      assert [line[0]] + line[1..] == line;
    }
  }

  /** What may follow a line: the end of the trace, or a newline and anything. */
  predicate EndsLine(after: string) { after == "" || after[0] == '\n' }

  lemma FirstLine(line: string, after: string)
    requires NoNewline(line) && EndsLine(after)
    ensures Lines(line + after)[0] == line
  {
    if after == "" {
      assert line + after == line;
      OneLine(line);
    } else {
      assert line + after == line + "\n" + after[1..];
      LineSplitsOff(line, after[1..]);
    }
  }

  /** Leading blank lines and whatever follows the frame do not matter. */
  lemma {:induction false} TopFrameIsFirstNonBlankLine(blanks: seq<string>, line: string, after: string)
    requires forall b :: b in blanks ==> NoNewline(b) && Blank(b)
    requires NoNewline(line) && !Blank(line) && EndsLine(after)
    ensures TopFrame(WithNewlines(blanks) + line + after) == TrimSpace(line)
  {
    if blanks == [] {
      assert WithNewlines(blanks) + line + after == line + after;
      FirstLine(line, after);
      BlankTrimsToNothing(line);
    } else {
      var more := WithNewlines(blanks[1..]) + line + after;
      assert WithNewlines(blanks) + line + after == blanks[0] + "\n" + more;
      assert blanks[0] in blanks;
      LineSplitsOff(blanks[0], more);
      BlankTrimsToNothing(blanks[0]);
      TopFrameIsFirstNonBlankLine(blanks[1..], line, after);
      assert ([blanks[0]] + Lines(more))[1..] == Lines(more);
    }
  }

  /** No frame at all: a trace of blank lines gives the empty frame. */
  lemma {:induction false} BlankTraceHasNoFrame(lines: seq<string>)
    ensures FirstFrame(lines) == "" <==> forall l :: l in lines ==> Blank(l)
  {
    if lines != [] {
      BlankTrimsToNothing(lines[0]);
      BlankTraceHasNoFrame(lines[1..]);
      assert lines == [lines[0]] + lines[1..];
    }
  }

  lemma {:induction false} OneLine(s: string)
    requires NoNewline(s)
    ensures Lines(s) == [s]
  {
    if s != [] {
      OneLine(s[1..]);
      assert [s[0]] + s[1..] == s;
    }
  }

  function WithNewlines(lines: seq<string>): string {
    if lines == [] then "" else lines[0] + "\n" + WithNewlines(lines[1..])
  }

  /** Every line is text with white space at its ends. */
  lemma {:induction false} LineSplits(s: string) returns (left: string, text: string, right: string)
    ensures s == left + text + right && Blank(left) && Blank(right) && Trimmed(text)
    decreases |s|
  {
    if s != "" && IsSpace(s[0]) {
      left, text, right := LineSplits(s[1..]);
      left := [s[0]] + left;
    } else if s != "" && IsSpace(s[|s| - 1]) {
      left, text, right := LineSplits(s[..|s| - 1]);
      right := right + [s[|s| - 1]];
    } else {
      left, text, right := "", s, "";
    }
  }

  lemma CarriageReturnIsTrimmed(line: string)
    ensures TrimSpace(line + "\r") == TrimSpace(line)
  {
    var left, text, right := LineSplits(line);
    TrimsBothEnds(left, text, right);
    assert line + "\r" == left + text + (right + "\r");
    TrimsBothEnds(left, text, right + "\r");
  }

  function WithCrlf(lines: seq<string>): string {
    if lines == [] then "" else lines[0] + "\r\n" + WithCrlf(lines[1..])
  }

  /** A trace with Windows line ends has the same top frame. */
  lemma {:induction false} CrlfMakesNoDifference(lines: seq<string>)
    requires forall l :: l in lines ==> NoNewline(l)
    ensures TopFrame(WithCrlf(lines)) == TopFrame(WithNewlines(lines))
  {
    if lines != [] {
      var line, crlf, plain := lines[0], WithCrlf(lines[1..]), WithNewlines(lines[1..]);
      assert line + "\r\n" + crlf == (line + "\r") + "\n" + crlf;
      assert line in lines;
      LineSplitsOff(line + "\r", crlf);
      LineSplitsOff(line, plain);
      CarriageReturnIsTrimmed(line);
      CrlfMakesNoDifference(lines[1..]);
      assert ([line + "\r"] + Lines(crlf))[1..] == Lines(crlf) && ([line] + Lines(plain))[1..] == Lines(plain);
    }
  }

  // ------------------------------------------------------------------ pre-hash string

  /** What `Compute` hands to SHA-256. */
  function PreHash(message: string, stackTrace: string): string {
    message + "|" + NormalizeFrame(TopFrame(stackTrace))
  }

  /** Renumbered frames group together: two traces whose first non-blank lines trim to the
      same text up to their line numbers have the same pre-hash string, whatever blank lines
      come before and whatever frames come after. */
  lemma RenumberedTracesGroupTogether(
    message: string,
    blanks1: seq<string>, line1: string, after1: string,
    blanks2: seq<string>, line2: string, after2: string,
    text: string, pieces1: seq<Piece>, pieces2: seq<Piece>)
    requires forall b :: b in blanks1 + blanks2 ==> NoNewline(b) && Blank(b)
    requires NoNewline(line1) && !Blank(line1) && NoNewline(line2) && !Blank(line2)
    requires EndsLine(after1) && EndsLine(after2)
    requires WellSplit(text, pieces1) && WellSplit(text, pieces2)
    requires |pieces1| == |pieces2|
    requires forall i :: 0 <= i < |pieces1| ==> pieces1[i].text == pieces2[i].text
    requires TrimSpace(line1) == Render(text, pieces1)
    requires TrimSpace(line2) == Render(text, pieces2)
    ensures PreHash(message, WithNewlines(blanks1) + line1 + after1)
         == PreHash(message, WithNewlines(blanks2) + line2 + after2)
  {
    TopFrameIsFirstNonBlankLine(blanks1, line1, after1);
    TopFrameIsFirstNonBlankLine(blanks2, line2, after2);
    NormalizeKeepsTheTexts(text, pieces1);
    NormalizeKeepsTheTexts(text, pieces2);
    SameTexts(text, pieces1, pieces2);
  }

  lemma {:induction false} SameTexts(text: string, p1: seq<Piece>, p2: seq<Piece>)
    requires |p1| == |p2| && forall i :: 0 <= i < |p1| ==> p1[i].text == p2[i].text
    ensures Texts(text, p1) == Texts(text, p2)
    decreases |p1|
  {
    if p1 != [] { SameTexts(p1[0].text, p1[1..], p2[1..]); }
  }

  /** One message is the other followed by '|' and a piece of the frame. */
  predicate BarMovesAcross(m1: string, n1: string, m2: string, n2: string) {
    |m1| < |m2| && m2[..|m1| + 1] == m1 + "|" && n1 == m2[|m1| + 1..] + "|" + n2
  }

  /** When exactly the separator fails to keep two (message, frame) pairs apart. */
  lemma {:induction false} PreHashCollidesExactlyWhen(m1: string, n1: string, m2: string, n2: string)
    ensures m1 + "|" + n1 == m2 + "|" + n2 <==>
            (m1 == m2 && n1 == n2) || BarMovesAcross(m1, n1, m2, n2) || BarMovesAcross(m2, n2, m1, n1)
  {
    var s1, s2 := m1 + "|" + n1, m2 + "|" + n2;
    if s1 == s2 {
      if |m1| == |m2| {
        assert m1 == s1[..|m1|] == s2[..|m2|] == m2;
        assert n1 == s1[|m1| + 1..] && n2 == s2[|m2| + 1..];
      } else if |m1| < |m2| {
        LongerMessageHoldsTheBar(m1, n1, m2, n2);
      } else {
        LongerMessageHoldsTheBar(m2, n2, m1, n1);
      }
    }
    if BarMovesAcross(m1, n1, m2, n2) { BarMovesBack(m1, n1, m2, n2); }
    if BarMovesAcross(m2, n2, m1, n1) { BarMovesBack(m2, n2, m1, n1); }
  }

  lemma LongerMessageHoldsTheBar(m1: string, n1: string, m2: string, n2: string)
    requires m1 + "|" + n1 == m2 + "|" + n2 && |m1| < |m2|
    ensures BarMovesAcross(m1, n1, m2, n2)
  {
    var s := m1 + "|" + n1;
    assert m2 == (m2 + "|" + n2)[..|m2|] == s[..|m2|];
    assert m2[..|m1| + 1] == s[..|m1| + 1] == m1 + "|";
    assert n1 == s[|m1| + 1..] == (m2 + ("|" + n2))[|m1| + 1..] == m2[|m1| + 1..] + ("|" + n2);
  }

  lemma BarMovesBack(m1: string, n1: string, m2: string, n2: string)
    requires BarMovesAcross(m1, n1, m2, n2)
    ensures m1 + "|" + n1 == m2 + "|" + n2
  {}

  lemma MovedBarIsInMessage(m1: string, n1: string, m2: string, n2: string)
    requires BarMovesAcross(m1, n1, m2, n2)
    ensures '|' in m2
  {
    assert m2[|m1|] == m2[..|m1| + 1][|m1|];
  }

  /** So a message without '|' is kept apart from every other such message and frame. */
  lemma BarFreeMessagesNeverCollide(m1: string, t1: string, m2: string, t2: string)
    requires '|' !in m1 && '|' !in m2
    ensures PreHash(m1, t1) == PreHash(m2, t2) <==>
            m1 == m2 && NormalizeFrame(TopFrame(t1)) == NormalizeFrame(TopFrame(t2))
  {
    var n1, n2 := NormalizeFrame(TopFrame(t1)), NormalizeFrame(TopFrame(t2));
    PreHashCollidesExactlyWhen(m1, n1, m2, n2);
    if BarMovesAcross(m1, n1, m2, n2) { MovedBarIsInMessage(m1, n1, m2, n2); }
    if BarMovesAcross(m2, n2, m1, n1) { MovedBarIsInMessage(m2, n2, m1, n1); }
  }

  /** The collision the separator is meant to prevent does happen with a '|' in the message. */
  lemma SeparatorIsNotEnough()
    ensures PreHash("A|B", "C") == PreHash("A", "B|C")
  {}
}
