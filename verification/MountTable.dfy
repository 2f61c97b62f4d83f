/** Reading /proc/mounts (disk_audit.py): the octal escapes of the kernel and the line parser. */
module MountTable {
  import opened Options
  import opened PyText
  import opened Sequences

  // ---------------- escapes ----------------

  /** _MOUNT_ESCAPES, in the order in which they are replaced. */
  const ESCAPES: seq<(string, char)> := [("\\040", ' '), ("\\011", '\t'), ("\\012", '\n'), ("\\134", '\\')]

  /** str.replace with a token of four characters: left to right, without overlap. */
  function Replace(s: string, token: string, c: char): string
    requires |token| == 4
  {
    if |s| < 4 then s
    else if s[..4] == token then [c] + Replace(s[4..], token, c)
    else [s[0]] + Replace(s[1..], token, c)
  }

  /** The string after the first k replacements. */
  function Replaced(s: string, k: nat): string
    requires k <= |ESCAPES|
  {
    if k == 0 then s
    else Replace(Replaced(s, k - 1), ESCAPES[k - 1].0, ESCAPES[k - 1].1)
  }

  method UnescapeMount(value: string) returns (result: string)
    ensures result == Decode(value)
  {
    result := value;
    for k := 0 to |ESCAPES|
      invariant result == Replaced(value, k)
    {
      result := Replace(result, ESCAPES[k].0, ESCAPES[k].1);
    }
    ReplacementsDecode(value);
  }

  /** The character that an escape at the start of s stands for. */
  function EscapeAt(s: string): Option<char> {
    if |s| < 4 || s[0] != '\\' then None
    else if s[1..4] == "040" then Some(' ')
    else if s[1..4] == "011" then Some('\t')
    else if s[1..4] == "012" then Some('\n')
    else if s[1..4] == "134" then Some('\\')
    else None
  }

  /** The reference decoder: one pass, each escape read once. */
  function Decode(s: string): string {
    if s == [] then []
    else if EscapeAt(s).Some? then [EscapeAt(s).value] + Decode(s[4..])
    else [s[0]] + Decode(s[1..])
  }

  predicate StartsWithToken(s: string, j: nat)
    requires j < |ESCAPES|
  {
    |s| >= 4 && s[..4] == ESCAPES[j].0
  }

  lemma {:induction false} ReplaceHead(s: string, token: string, c: char)
    requires |token| == 4 && s != []
    ensures Replace(s, token, c) != [] && (Replace(s, token, c)[0] == s[0] || Replace(s, token, c)[0] == c)
  {
  }

  /** Replacement never brings a digit to the front. */
  lemma {:induction false} ReplacedHead(s: string, k: nat)
    requires k <= |ESCAPES|
    ensures s == [] <==> Replaced(s, k) == []
    ensures s != [] ==> Replaced(s, k)[0] == s[0] || !IsDigit(Replaced(s, k)[0])
  {
    if k > 0 {
      ReplacedHead(s, k - 1);
      if s != [] {
        ReplaceHead(Replaced(s, k - 1), ESCAPES[k - 1].0, ESCAPES[k - 1].1);
      }
    }
  }

  lemma ReplaceOther(c: char, s: string, token: string, by_: char)
    requires |token| == 4
    requires c != token[0] || |s| < 3 || s[..3] != token[1..]
    ensures Replace([c] + s, token, by_) == [c] + Replace(s, token, by_)
  {
    var all := [c] + s;
    assert all[1..] == s;
    assert token == [token[0]] + token[1..];
    if |s| >= 3 {
      assert all[..4] == [c] + s[..3];
      assert (all[..4])[1..] == s[..3];
    }
  }

  lemma TokenShape(j: nat)
    requires j < |ESCAPES|
    ensures |ESCAPES[j].0| == 4 && ESCAPES[j].0[0] == '\\' && AllDigits(ESCAPES[j].0[1..])
    ensures ESCAPES[j].1 == '\\' ==> j == 3
  {
  }

  lemma TokenIsEscape(s: string, j: nat)
    requires j < |ESCAPES|
    ensures StartsWithToken(s, j) ==> EscapeAt(s).Some?
  {
    if StartsWithToken(s, j) {
      assert s[0] == s[..4][0] && s[1..4] == s[..4][1..];
    }
  }

  lemma {:induction false} ReplacedPlain(c: char, s: string, k: nat)
    requires k <= |ESCAPES| && c != '\\'
    ensures Replaced([c] + s, k) == [c] + Replaced(s, k)
  {
    if k > 0 {
      ReplacedPlain(c, s, k - 1);
      TokenShape(k - 1);
      ReplaceOther(c, Replaced(s, k - 1), ESCAPES[k - 1].0, ESCAPES[k - 1].1);
    }
  }

  /** Leading digits of the result were leading digits all along. */
  lemma {:induction false} ReplacedDigits(s: string, digits: string, k: nat)
    requires k <= |ESCAPES| && AllDigits(digits) && digits <= Replaced(s, k)
    ensures digits <= s
  {
    if digits != [] {
      ReplacedHead(s, k);
      assert s == [s[0]] + s[1..];
      ReplacedPlain(s[0], s[1..], k);
      assert Replaced(s, k)[1..] == Replaced(s[1..], k);
      assert digits[1..] <= Replaced(s[1..], k);
      ReplacedDigits(s[1..], digits[1..], k);
      assert digits == [digits[0]] + digits[1..];
    }
  }

  /** If a token shows up behind a backslash after k replacements, it was there from the start. */
  lemma TokenWasThere(s: string, k: nat)
    requires k < |ESCAPES|
    ensures var rest := Replaced(s, k);
            |rest| >= 3 && rest[..3] == ESCAPES[k].0[1..] ==> StartsWithToken(['\\'] + s, k)
  {
    var rest, token := Replaced(s, k), ESCAPES[k].0;
    TokenShape(k);
    if |rest| >= 3 && rest[..3] == token[1..] {
      ReplacedDigits(s, token[1..], k);
      assert token == ['\\'] + token[1..];
      assert (['\\'] + s)[..4] == token;
    }
  }

  /** A backslash that does not start one of the first k tokens is left alone. */
  lemma {:induction false} ReplacedBackslash(s: string, k: nat)
    requires k <= |ESCAPES| && forall j :: 0 <= j < k ==> !StartsWithToken(['\\'] + s, j)
    ensures Replaced(['\\'] + s, k) == ['\\'] + Replaced(s, k)
  {
    if k > 0 {
      ReplacedBackslash(s, k - 1);
      TokenWasThere(s, k - 1);
      ReplaceOther('\\', Replaced(s, k - 1), ESCAPES[k - 1].0, ESCAPES[k - 1].1);
    }
  }

  lemma {:induction false} ReplacedPlains(digits: string, s: string, k: nat)
    requires k <= |ESCAPES| && AllDigits(digits)
    ensures Replaced(digits + s, k) == digits + Replaced(s, k)
  {
    if digits == [] {
      assert digits + s == s;
    } else {
      assert digits + s == [digits[0]] + (digits[1..] + s);
      ReplacedPlains(digits[1..], s, k);
      ReplacedPlain(digits[0], digits[1..] + s, k);
    }
  }

  /** Token j survives the replacements before its own ... */
  lemma TokenSurvives(j: nat, s: string, k: nat)
    requires k <= j < |ESCAPES|
    ensures Replaced(ESCAPES[j].0 + s, k) == ESCAPES[j].0 + Replaced(s, k)
  {
    var token := ESCAPES[j].0;
    TokenShape(j);
    var tail := token[1..] + s;
    assert token + s == ['\\'] + tail;
    forall i | 0 <= i < k ensures !StartsWithToken(['\\'] + tail, i) {
      assert (['\\'] + tail)[..4] == token;
    }
    ReplacedBackslash(tail, k);
    ReplacedPlains(token[1..], s, k);
    assert token + Replaced(s, k) == ['\\'] + (token[1..] + Replaced(s, k));
  }

  /** ... and then becomes its character, which no later replacement touches. */
  lemma {:induction false} TokenDecoded(j: nat, s: string, k: nat)
    requires j < k <= |ESCAPES|
    ensures Replaced(ESCAPES[j].0 + s, k) == [ESCAPES[j].1] + Replaced(s, k)
  {
    TokenShape(j);
    TokenShape(k - 1);
    if k == j + 1 {
      TokenSurvives(j, s, j);
      var t := ESCAPES[j].0 + Replaced(s, j);
      assert t[..4] == ESCAPES[j].0 && t[4..] == Replaced(s, j);
    } else {
      TokenDecoded(j, s, k - 1);
      ReplaceOther(ESCAPES[j].1, Replaced(s, k - 1), ESCAPES[k - 1].0, ESCAPES[k - 1].1);
    }
  }

  /** The four replacements in sequence are the single-pass decoder, on every string. */
  lemma {:induction false} ReplacementsDecode(s: string)
    ensures Replaced(s, |ESCAPES|) == Decode(s)
  {
    if s == [] {
      ReplacedHead(s, |ESCAPES|);
    } else if EscapeAt(s).Some? {
      var j := if s[1..4] == "040" then 0 else if s[1..4] == "011" then 1 else if s[1..4] == "012" then 2 else 3;
      assert s == ESCAPES[j].0 + s[4..];
      TokenDecoded(j, s[4..], |ESCAPES|);
      ReplacementsDecode(s[4..]);
    } else {
      assert s == [s[0]] + s[1..];
      ReplacementsDecode(s[1..]);
      if s[0] != '\\' {
        ReplacedPlain(s[0], s[1..], |ESCAPES|);
      } else {
        forall j | 0 <= j < |ESCAPES| ensures !StartsWithToken(s, j) {
          TokenIsEscape(s, j);
        }
        ReplacedBackslash(s[1..], |ESCAPES|);
      }
    }
  }

  /** The four escapes that proc(5) names. */
  lemma FourEscapes()
    ensures Decode("\\040") == " " && Decode("\\011") == "\t" && Decode("\\012") == "\n" && Decode("\\134") == "\\"
  {
    assert "\\040"[1..4] == "040" && "\\040"[4..] == "";
    assert "\\011"[1..4] == "011" && "\\011"[4..] == "";
    assert "\\012"[1..4] == "012" && "\\012"[4..] == "";
    assert "\\134"[1..4] == "134" && "\\134"[4..] == "";
  }

  // ---------------- the kernel's side ----------------

  function EscapeChar(c: char): string {
    match c
    case ' ' => "\\040"
    case '\t' => "\\011"
    case '\n' => "\\012"
    case '\\' => "\\134"
    case _ => [c]
  }

  /** How a device or a mount point is printed by kernels that escape these four characters and no other. */
  function Escape(s: string): string {
    if s == [] then [] else EscapeChar(s[0]) + Escape(s[1..])
  }

  lemma {:induction false} DecodeEscape(s: string)
    ensures Decode(Escape(s)) == s
  {
    if s != [] {
      var rest := Escape(s[1..]);
      DecodeEscape(s[1..]);
      assert s == [s[0]] + s[1..];
      if s[0] in {' ', '\t', '\n', '\\'} {
        assert Escape(s)[4..] == rest && Escape(s)[1..4] == EscapeChar(s[0])[1..];
      } else {
        assert Escape(s)[1..] == rest;
      }
    }
  }

  /** No white space beyond the three kinds that the kernel escapes. */
  predicate Printable(s: string) {
    s != [] && forall i :: 0 <= i < |s| ==> !IsSpace(s[i]) || s[i] in {' ', '\t', '\n'}
  }

  lemma {:induction false} EscapeIsWord(s: string)
    requires forall i :: 0 <= i < |s| ==> !IsSpace(s[i]) || s[i] in {' ', '\t', '\n'}
    ensures forall i :: 0 <= i < |Escape(s)| ==> !IsSpace(Escape(s)[i])
    ensures s != [] ==> Escape(s) != []
  {
    if s != [] {
      EscapeIsWord(s[1..]);
      assert forall i :: 0 <= i < |EscapeChar(s[0])| ==> !IsSpace(EscapeChar(s[0])[i]);
    }
  }

  // ---------------- lines ----------------

  datatype Mount = Mount(device: string, mount: string, fstype: string, ro: bool)

  function Lower(s: string): (r: string)
    ensures |r| == |s| && forall i :: 0 <= i < |r| ==> !('A' <= r[i] <= 'Z')
    ensures forall i :: 0 <= i < |s| && !('A' <= s[i] <= 'Z') ==> r[i] == s[i]
    ensures forall i :: 0 <= i < |s| && 'A' <= s[i] <= 'Z' ==> r[i] as int - 'a' as int == s[i] as int - 'A' as int
  {
    seq(|s|, i requires 0 <= i < |s| => if 'A' <= s[i] <= 'Z' then s[i] - 'A' + 'a' else s[i])
  }

  /** str.split(","). */
  function SplitComma(s: string): (r: seq<string>)
    ensures r != []
  {
    if s == [] then [""]
    else
      var rest := SplitComma(s[1..]);
      if s[0] == ',' then [""] + rest else [[s[0]] + rest[0]] + rest[1..]
  }

  function JoinComma(ws: seq<string>): string {
    if ws == [] then "" else if |ws| == 1 then ws[0] else ws[0] + "," + JoinComma(ws[1..])
  }

  function ParseMountLine(line: string): seq<Mount> {
    var parts := Fields(line);
    if |parts| < 4 then []
    else [Mount(Decode(parts[0]), Decode(parts[1]), Lower(parts[2]), "ro" in SplitComma(parts[3]))]
  }

  function ParseLines(lines: seq<string>): seq<Mount> {
    if lines == [] then [] else ParseLines(lines[..|lines| - 1]) + ParseMountLine(lines[|lines| - 1])
  }

  method ParseMounts(text: string) returns (mounts: seq<Mount>)
    ensures mounts == ParseLines(SplitLines(text))
  {
    mounts := [];
    var lines := SplitLines(text);
    for i := 0 to |lines|
      invariant mounts == ParseLines(lines[..i])
    {
      ghost var done := lines[..i + 1];
      assert done[..|done| - 1] == lines[..i] && done[|done| - 1] == lines[i];
      var parts := Fields(lines[i]);
      if |parts| >= 4 {
        var device := UnescapeMount(parts[0]);
        var mount := UnescapeMount(parts[1]);
        mounts := mounts + [Mount(device, mount, Lower(parts[2]), "ro" in SplitComma(parts[3]))];
      }
    }
    assert lines[..|lines|] == lines;
  }

  /** Any line of words: with fewer than four it is skipped, and otherwise the first four count, the first two with
      their escapes undone, the third in small letters, and of the fourth whether ro is one of its options. */
  lemma LineLaw(ws: seq<string>)
    requires forall i :: 0 <= i < |ws| ==> Word(ws[i])
    ensures |ParseMountLine(JoinSpace(ws))| == if |ws| < 4 then 0 else 1
    ensures |ws| >= 4 ==>
              forall options :: options != [] && (forall i :: 0 <= i < |options| ==> Option_(options[i]))
                                && ws[3] == JoinComma(options) ==>
                var m := ParseMountLine(JoinSpace(ws))[0];
                && m.device == Decode(ws[0]) && m.mount == Decode(ws[1]) && m.fstype == Lower(ws[2])
                && (m.ro <==> "ro" in options)
  {
    FieldsOfJoin(ws);
    if |ws| >= 4 {
      forall options | options != [] && (forall i :: 0 <= i < |options| ==> Option_(options[i]))
                       && ws[3] == JoinComma(options)
        ensures SplitComma(ws[3]) == options
      {
        SplitJoin(options);
      }
    }
  }

  /** A mount as the kernel knows it. */
  datatype Entry = Entry(device: string, mount: string, fstype: string, options: seq<string>)

  predicate Option_(o: string) {
    Word(o) && ',' !in o
  }

  predicate Printed(e: Entry) {
    && Printable(e.device) && Printable(e.mount)
    && Word(e.fstype) && Lower(e.fstype) == e.fstype
    && e.options != [] && forall i :: 0 <= i < |e.options| ==> Option_(e.options[i])
  }

  function Print(e: Entry): string {
    Escape(e.device) + " " + (Escape(e.mount) + " " + (e.fstype + " " + (JoinComma(e.options) + " " + "0 0")))
  }

  function PrintAll(es: seq<Entry>): string {
    if es == [] then "" else Print(es[0]) + "\n" + PrintAll(es[1..])
  }

  function AsMount(e: Entry): Mount {
    Mount(e.device, e.mount, e.fstype, "ro" in e.options)
  }

  lemma {:induction false} SplitPlain(w: string, rest: string)
    requires ',' !in w
    ensures SplitComma(w) == [w]
    ensures SplitComma(w + "," + rest) == [w] + SplitComma(rest)
  {
    if w == [] {
      assert ("," + rest)[1..] == rest;
    } else {
      SplitPlain(w[1..], rest);
      assert w == [w[0]] + w[1..];
      assert (w + "," + rest)[1..] == w[1..] + "," + rest;
    }
  }

  lemma {:induction false} SplitJoin(ws: seq<string>)
    requires ws != [] && forall i :: 0 <= i < |ws| ==> Option_(ws[i])
    ensures SplitComma(JoinComma(ws)) == ws
    ensures Word(JoinComma(ws))
  {
    if |ws| == 1 {
      SplitPlain(ws[0], "");
      assert ws == [ws[0]];
    } else {
      SplitJoin(ws[1..]);
      SplitPlain(ws[0], JoinComma(ws[1..]));
      assert ws == [ws[0]] + ws[1..];
    }
  }

  predicate OneLine(s: string) {
    forall i :: 0 <= i < |s| ==> !IsLineBreak(s[i])
  }

  lemma FieldsStep(w: string, rest: string)
    requires Word(w)
    ensures Fields(w + " " + rest) == [w] + Fields(rest)
    ensures OneLine(rest) ==> OneLine(w + " " + rest)
  {
    assert w + " " + rest == w + (" " + rest);
    FieldsWord(w, " " + rest);
    assert (" " + rest)[1..] == rest;
    assert forall i :: 0 <= i < |w| ==> !IsSpace(w[i]) && !IsLineBreak(w[i]);
  }

  lemma DumpAndPass()
    ensures Fields("0 0") == ["0", "0"] && OneLine("0 0")
  {
    FieldsStep("0", "0");
    FieldsWord("0", "");
    assert "0" + "" == "0";
    assert "0 0" == "0" + " " + "0";
  }

  lemma FourFields(a: string, b: string, c: string, d: string)
    requires Word(a) && Word(b) && Word(c) && Word(d)
    ensures Fields(a + " " + (b + " " + (c + " " + (d + " " + "0 0")))) == [a] + ([b] + ([c] + ([d] + ["0", "0"])))
    ensures OneLine(a + " " + (b + " " + (c + " " + (d + " " + "0 0"))))
  {
    DumpAndPass();
    FieldsStep(d, "0 0");
    FieldsStep(c, d + " " + "0 0");
    FieldsStep(b, c + " " + (d + " " + "0 0"));
    FieldsStep(a, b + " " + (c + " " + (d + " " + "0 0")));
  }

  lemma PrintedFields(e: Entry)
    requires Printed(e)
    ensures Fields(Print(e)) == [Escape(e.device), Escape(e.mount), e.fstype, JoinComma(e.options), "0", "0"]
    ensures OneLine(Print(e))
  {
    EscapeIsWord(e.device);
    EscapeIsWord(e.mount);
    SplitJoin(e.options);
    FourFields(Escape(e.device), Escape(e.mount), e.fstype, JoinComma(e.options));
  }

  lemma PrintedLine(e: Entry)
    requires Printed(e)
    ensures ParseMountLine(Print(e)) == [AsMount(e)]
    ensures OneLine(Print(e))
  {
    PrintedFields(e);
    DecodeEscape(e.device);
    DecodeEscape(e.mount);
    SplitJoin(e.options);
  }

  lemma {:induction false} ParseConsed(line: string, lines: seq<string>)
    ensures ParseLines([line] + lines) == ParseMountLine(line) + ParseLines(lines)
  {
    var all := [line] + lines;
    if lines == [] {
      assert all[..0] == [] && ParseLines(all[..0]) == [];
    } else {
      var n := |lines| - 1;
      ParseConsed(line, lines[..n]);
      assert all[..n + 1] == [line] + lines[..n] && all[n + 1] == lines[n];
      JoinAssociates(ParseMountLine(line), ParseLines(lines[..n]), ParseMountLine(lines[n]));
    }
  }

  lemma FirstLineParsed(line: string, rest: string)
    requires OneLine(line)
    ensures ParseLines(SplitLines(line + "\n" + rest)) == ParseMountLine(line) + ParseLines(SplitLines(rest))
  {
    SplitFirstLine(line, "\n", rest);
    ParseConsed(line, SplitLines(rest));
  }

  function AsMounts(es: seq<Entry>): (r: seq<Mount>)
    ensures |r| == |es| && forall i :: 0 <= i < |es| ==> r[i] == AsMount(es[i])
  {
    if es == [] then [] else [AsMount(es[0])] + AsMounts(es[1..])
  }

  /** Every table of mounts printed with these four escapes is read back: devices and mount points with
      spaces, tabs, line feeds and backslashes included. */
  lemma {:induction false} MountsRoundTrip(es: seq<Entry>)
    requires forall i :: 0 <= i < |es| ==> Printed(es[i])
    ensures ParseLines(SplitLines(PrintAll(es))) == AsMounts(es)
  {
    if es != [] {
      MountsRoundTrip(es[1..]);
      PrintedLine(es[0]);
      FirstLineParsed(Print(es[0]), PrintAll(es[1..]));
    }
  }
}
