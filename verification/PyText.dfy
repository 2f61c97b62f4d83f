/** The string operations of Python that the collectors rely on: strip, split, splitlines, replace
    and the integer and decimal readers. */
module PyText {
  import opened Options
  import opened Sequences

  /** str.isspace. */
  predicate IsSpace(c: char) {
    var n := c as int;
    0x09 <= n <= 0x0D || 0x1C <= n <= 0x20 || n == 0x85 || n == 0xA0 || n == 0x1680
    || 0x2000 <= n <= 0x200A || n == 0x2028 || n == 0x2029 || n == 0x202F || n == 0x205F || n == 0x3000
  }

  /** The characters str.splitlines breaks at. */
  predicate IsLineBreak(c: char) {
    var n := c as int;
    0x0A <= n <= 0x0D || 0x1C <= n <= 0x1E || n == 0x85 || n == 0x2028 || n == 0x2029
  }

  /** text or other, where an empty text is false. */
  function OrElse(text: string, other: string): string {
    if text != "" then text else other
  }

  // ---------------- strip ----------------

  /** s.strip() is empty. */
  predicate Blank(s: string) {
    forall i :: 0 <= i < |s| ==> IsSpace(s[i])
  }

  function LeftStrip(s: string): (r: string)
    ensures r == [] || !IsSpace(r[0])
    ensures s == [] || IsSpace(s[0]) || r == s
    ensures |r| <= |s|
  {
    if s != [] && IsSpace(s[0]) then LeftStrip(s[1..]) else s
  }

  function RightStrip(s: string): (r: string)
    ensures r <= s
    ensures r == [] || !IsSpace(r[|r| - 1])
    ensures s == [] || IsSpace(s[|s| - 1]) || r == s
  {
    if s != [] && IsSpace(s[|s| - 1]) then RightStrip(s[..|s| - 1]) else s
  }

  function Strip(s: string): (r: string)
    ensures r == [] || (!IsSpace(r[0]) && !IsSpace(r[|r| - 1]))
  {
    RightStrip(LeftStrip(s))
  }

  predicate AllSpace(s: string) {
    forall i :: 0 <= i < |s| ==> IsSpace(s[i])
  }

  lemma {:induction false} LeftStripIs(s: string)
    ensures var r := LeftStrip(s); AllSpace(s[..|s| - |r|]) && s[|s| - |r|..] == r
  {
    if s != [] && IsSpace(s[0]) {
      LeftStripIs(s[1..]);
      var n := |s| - |LeftStrip(s)|;
      assert s[1..][n - 1..] == s[n..] && s[..n] == [s[0]] + s[1..][..n - 1];
    }
  }

  lemma {:induction false} RightStripIs(s: string)
    ensures AllSpace(s[|RightStrip(s)|..])
  {
    if s != [] && IsSpace(s[|s| - 1]) {
      var n := |s| - 1;
      RightStripIs(s[..n]);
      assert s[|RightStrip(s)|..] == s[..n][|RightStrip(s)|..] + [s[n]];
    }
  }

  /** The text is what is left between white space on both sides, and does not begin or end with any itself. */
  lemma StripIs(s: string)
    ensures exists left, right :: AllSpace(left) && AllSpace(right) && s == left + Strip(s) + right
    ensures Strip(s) != [] ==> !IsSpace(Strip(s)[0]) && !IsSpace(Strip(s)[|Strip(s)| - 1])
    ensures Blank(s) <==> Strip(s) == []
  {
    var middle := LeftStrip(s);
    LeftStripIs(s);
    RightStripIs(middle);
    var left, right := s[..|s| - |middle|], middle[|Strip(s)|..];
    assert s == left + Strip(s) + right;
  }

  lemma StripIdempotent(s: string)
    ensures Strip(Strip(s)) == Strip(s)
  {
  }

  // ---------------- split on white space ----------------

  /** Length of the leading run without white space. */
  function WordLength(s: string): (n: nat)
    ensures n <= |s|
  {
    if s == [] || IsSpace(s[0]) then 0 else 1 + WordLength(s[1..])
  }

  lemma {:induction false} WordEnds(s: string)
    ensures forall i :: 0 <= i < WordLength(s) ==> !IsSpace(s[i])
    ensures WordLength(s) < |s| ==> IsSpace(s[WordLength(s)])
  {
    if s != [] && !IsSpace(s[0]) {
      WordEnds(s[1..]);
    }
  }

  function Fields(s: string): (r: seq<string>)
    decreases |s|
  {
    if s == [] then []
    else if IsSpace(s[0]) then Fields(s[1..])
    else [s[..WordLength(s)]] + Fields(s[WordLength(s)..])
  }

  /** A non-empty token without white space. */
  predicate Word(w: string) {
    w != [] && forall i :: 0 <= i < |w| ==> !IsSpace(w[i])
  }

  lemma {:induction false} FieldsSkipSpace(pad: string, s: string)
    requires forall i :: 0 <= i < |pad| ==> IsSpace(pad[i])
    ensures Fields(pad + s) == Fields(s)
  {
    if pad == [] {
      assert pad + s == s;
    } else {
      FieldsSkipSpace(pad[1..], s);
      assert (pad + s)[1..] == pad[1..] + s;
    }
  }

  lemma FieldsWord(w: string, rest: string)
    requires Word(w) && (rest == [] || IsSpace(rest[0]))
    ensures Fields(w + rest) == [w] + Fields(rest)
  {
    var s := w + rest;
    WordLengthIs(s, |w|);
    assert s[..|w|] == w && s[|w|..] == rest;
  }

  lemma {:induction false} WordLengthIs(s: string, n: nat)
    requires n <= |s| && (forall i :: 0 <= i < n ==> !IsSpace(s[i])) && (n < |s| ==> IsSpace(s[n]))
    ensures WordLength(s) == n
  {
    if n > 0 {
      WordLengthIs(s[1..], n - 1);
    }
  }

  /** " ".join. */
  function JoinSpace(ws: seq<string>): string {
    if ws == [] then ""
    else if |ws| == 1 then ws[0]
    else ws[0] + " " + JoinSpace(ws[1..])
  }

  /** White space between columns. */
  predicate Gap(pad: string) {
    pad != [] && forall i :: 0 <= i < |pad| ==> IsSpace(pad[i])
  }

  lemma {:induction false} FieldsConcat(a: string, pad: string, b: string)
    requires Gap(pad)
    ensures Fields(a + pad + b) == Fields(a) + Fields(b)
    decreases |a|
  {
    if a == [] {
      assert a + pad + b == pad + b;
      FieldsSkipSpace(pad, b);
    } else if IsSpace(a[0]) {
      assert (a + pad + b)[1..] == a[1..] + pad + b;
      FieldsConcat(a[1..], pad, b);
    } else {
      var n := WordLength(a);
      WordEnds(a);
      var w, rest := a[..n], a[n..];
      assert Word(w) && a == w + rest && a + pad + b == w + (rest + pad + b);
      FieldsWord(w, rest + pad + b);
      FieldsConcat(rest, pad, b);
      JoinAssociates([w], Fields(rest), Fields(b));
    }
  }

  lemma FieldsOfWord(w: string)
    requires Word(w)
    ensures Fields(w) == [w]
  {
    FieldsWord(w, "");
    assert w + "" == w;
  }

  lemma FirstColumn(w: string, pad: string, rest: string)
    requires Word(w) && Gap(pad)
    ensures Fields(w + pad + rest) == [w] + Fields(rest)
  {
    FieldsConcat(w, pad, rest);
    FieldsOfWord(w);
  }

  /** Words joined by single spaces are found again. */
  lemma {:induction false} FieldsOfJoin(ws: seq<string>)
    requires forall i :: 0 <= i < |ws| ==> Word(ws[i])
    ensures Fields(JoinSpace(ws)) == ws
  {
    if |ws| == 1 {
      FieldsOfWord(ws[0]);
    } else if |ws| > 1 {
      FieldsOfJoin(ws[1..]);
      FirstColumn(ws[0], " ", JoinSpace(ws[1..]));
    }
  }

  // ---------------- splitlines ----------------

  /** Length of the leading run without a line break. */
  function LineLength(s: string): (n: nat)
    ensures n <= |s|
    ensures n < |s| ==> IsLineBreak(s[n])
  {
    if s == [] || IsLineBreak(s[0]) then 0 else 1 + LineLength(s[1..])
  }

  /** A carriage return and a line feed together are one break; a final break ends the last line. */
  function SplitLines(s: string): seq<string>
    decreases |s|
  {
    if s == [] then []
    else
      var n := LineLength(s);
      if n == |s| then [s]
      else
        var width := if s[n] == '\r' && n + 1 < |s| && s[n + 1] == '\n' then 2 else 1;
        [s[..n]] + SplitLines(s[n + width..])
  }

  lemma {:induction false} LineLengthIs(s: string, n: nat)
    requires n <= |s| && (forall i :: 0 <= i < n ==> !IsLineBreak(s[i])) && (n < |s| ==> IsLineBreak(s[n]))
    ensures LineLength(s) == n
  {
    if n > 0 {
      LineLengthIs(s[1..], n - 1);
    }
  }

  /** One line break: a carriage return with a line feed, or one character that breaks lines, but not a carriage
      return before a line feed. */
  predicate IsBreak(end: string, rest: string) {
    || end == "\r\n"
    || (|end| == 1 && IsLineBreak(end[0]) && !(end[0] == '\r' && rest != [] && rest[0] == '\n'))
  }

  /** A line, whatever ends it, is split off; the last line need not be ended. */
  lemma SplitFirstLine(line: string, end: string, rest: string)
    requires (forall i :: 0 <= i < |line| ==> !IsLineBreak(line[i])) && IsBreak(end, rest)
    ensures SplitLines(line + end + rest) == [line] + SplitLines(rest)
    ensures line != "" ==> SplitLines(line) == [line]
  {
    var s := line + end + rest;
    LineLengthIs(s, |line|);
    LineLengthIs(line, |line|);
    assert s[..|line|] == line && s[|line| + |end|..] == rest;
  }

  // ---------------- int() and float() of a token ----------------

  predicate IsDigit(c: char) { '0' <= c <= '9' }

  predicate AllDigits(s: string) { forall i :: 0 <= i < |s| ==> IsDigit(s[i]) }

  function DigitsValue(s: string): nat
    requires AllDigits(s)
  {
    if s == [] then 0 else 10 * DigitsValue(s[..|s| - 1]) + (s[|s| - 1] as int - '0' as int)
  }

  /** Digits with single underscores between them, as int() accepts; the underscores dropped. */
  function Ungrouped(s: string): (r: Option<string>)
    ensures r.Some? ==> r.value != [] && AllDigits(r.value)
  {
    if s == [] || !IsDigit(s[0]) then None
    else if |s| == 1 then Some(s)
    else
      var rest := Ungrouped(if s[1] == '_' then s[2..] else s[1..]);
      if rest.None? then None else Some([s[0]] + rest.value)
  }

  /** int(token) for a token without white space; None is ValueError. */
  function ParseInt(s: string): Option<int> {
    if s == [] then None
    else
      var digits := Ungrouped(if s[0] == '-' || s[0] == '+' then s[1..] else s);
      if digits.None? then None
      else
        var value: int := DigitsValue(digits.value);
        Some(if s[0] == '-' then -value else value)
  }

  function ShowNat(n: nat): (s: string)
    ensures s != [] && AllDigits(s)
    ensures DigitsValue(s) == n
  {
    var last := ['0' + (n % 10) as char];
    if n < 10 then last
    else
      var s := ShowNat(n / 10) + last;
      assert s[..|s| - 1] == ShowNat(n / 10);
      s
  }

  function ShowInt(n: int): string {
    if n < 0 then "-" + ShowNat(-n) else ShowNat(n)
  }

  lemma {:induction false} UngroupedDigits(s: string)
    requires s != [] && AllDigits(s)
    ensures Ungrouped(s) == Some(s)
  {
    if |s| > 1 {
      UngroupedDigits(s[1..]);
      assert [s[0]] + s[1..] == s;
    }
  }

  lemma DigitsParse(digits: string)
    requires digits != [] && AllDigits(digits)
    ensures ParseInt(digits) == Some(DigitsValue(digits))
  {
    UngroupedDigits(digits);
    assert IsDigit(digits[0]);
  }

  lemma NegativeParse(digits: string)
    requires digits != [] && AllDigits(digits)
    ensures ParseInt("-" + digits) == Some(0 - DigitsValue(digits) as int)
  {
    UngroupedDigits(digits);
    assert ("-" + digits)[0] == '-' && ("-" + digits)[1..] == digits;
  }

  /** What int() reads besides: a plus sign, and digits set apart by an underscore. */
  lemma OtherForms(digits: string, more: string)
    requires digits != [] && AllDigits(digits) && more != [] && AllDigits(more)
    ensures ParseInt("+" + digits) == Some(DigitsValue(digits))
    ensures ParseInt(digits + "_" + more) == Some(DigitsValue(digits + more))
  {
    UngroupedDigits(digits);
    assert ("+" + digits)[0] == '+' && ("+" + digits)[1..] == digits;
    UngroupedJoins(digits, more);
    assert (digits + "_" + more)[0] == digits[0];
  }

  lemma {:induction false} UngroupedJoins(digits: string, more: string)
    requires digits != [] && AllDigits(digits) && more != [] && AllDigits(more)
    ensures Ungrouped(digits + "_" + more) == Some(digits + more)
  {
    var s := digits + "_" + more;
    if |digits| == 1 {
      UngroupedDigits(more);
      assert s[0] == digits[0] && s[1] == '_' && s[2..] == more;
      assert digits + more == [s[0]] + more;
    } else {
      UngroupedJoins(digits[1..], more);
      assert s[1..] == digits[1..] + "_" + more && s[0] == digits[0] && s[1] == digits[1] && IsDigit(digits[1]);
      assert [digits[0]] + (digits[1..] + more) == digits + more;
    }
  }

  lemma DigitsAreWord(digits: string)
    requires digits != [] && AllDigits(digits)
    ensures Word(digits) && Word("-" + digits)
  {
    assert forall i :: 0 <= i < |digits| ==> IsDigit(digits[i]) && !IsSpace(digits[i]);
  }

  /** Reading a printed integer gives it back. */
  lemma ParseShown(n: int)
    ensures ParseInt(ShowInt(n)) == Some(n)
    ensures Word(ShowInt(n))
  {
    var digits := ShowNat(if n < 0 then -n else n);
    DigitsAreWord(digits);
    if n < 0 { NegativeParse(digits); } else { DigitsParse(digits); }
  }
}
