/** Reading a row of `df -Pk` (disk_audit.py): the percent column is searched from the right, so that
    devices and mount points may contain spaces. */
module DfTable {
  import opened Options
  import opened PyText
  import opened Sequences

  datatype Row = Row(device: string, mount: string, total: int, used: int, avail: int, usage: real)

  /** ^[0-9.]+%$ */
  predicate PercentShaped(w: string) {
    |w| >= 2 && w[|w| - 1] == '%' && forall i :: 0 <= i < |w| - 1 ==> IsDigit(w[i]) || w[i] == '.'
  }

  /** The value of the digits after a decimal point. */
  function FractionValue(s: string): real
    requires AllDigits(s)
  {
    if s == [] then 0.0 else ((s[0] as int - '0' as int) as real + FractionValue(s[1..])) / 10.0
  }

  function DotAt(s: string): (n: nat)
    ensures n <= |s| && (n < |s| ==> s[n] == '.') && forall i :: 0 <= i < n ==> s[i] != '.'
  {
    if s == [] || s[0] == '.' then 0 else 1 + DotAt(s[1..])
  }

  /** float() of a token of digits and dots; None is ValueError. */
  function ParseDecimal(s: string): Option<real> {
    var n := DotAt(s);
    var whole, fraction := s[..n], if n < |s| then s[n + 1..] else "";
    if !AllDigits(whole) || !AllDigits(fraction) || whole + fraction == "" then None
    else Some(DigitsValue(whole) as real + FractionValue(fraction))
  }

  function PowerOfTen(n: nat): (r: nat)
    ensures r > 0
  {
    if n == 0 then 1 else 10 * PowerOfTen(n - 1)
  }

  lemma Shifted(d: int, power: int, rest: int, last: int)
    ensures 10 * (d * power + rest) + last == d * (10 * power) + (10 * rest + last)
  {
  }

  lemma {:induction false} LeadingDigit(s: string)
    requires AllDigits(s) && s != []
    ensures DigitsValue(s) == (s[0] as int - '0' as int) * PowerOfTen(|s| - 1) + DigitsValue(s[1..])
  {
    if |s| > 1 {
      var n := |s| - 1;
      var last := s[n] as int - '0' as int;
      LeadingDigit(s[..n]);
      assert s[1..][..n - 1] == s[..n][1..] && s[1..][n - 1] == s[n];
      assert DigitsValue(s[1..]) == 10 * DigitsValue(s[..n][1..]) + last;
      Shifted(s[0] as int - '0' as int, PowerOfTen(n - 1), DigitsValue(s[..n][1..]), last);
    }
  }

  lemma Scaled(fraction: real, d: real, rest: real, power: real, value: real)
    requires fraction == (d + rest) / 10.0 && rest * power == value
    ensures fraction * (10.0 * power) == d * power + value
  {
    assert fraction * (10.0 * power) == (fraction * 10.0) * power == (d + rest) * power;
  }

  lemma Divided(x: real, power: real, value: real)
    requires x * power == value && power > 0.0
    ensures x == value / power
  {
  }

  lemma CastProduct(d: int, power: int)
    ensures (d * power) as real == d as real * power as real
  {
  }

  /** The fraction, scaled by the power, is the value. */
  ghost predicate ScalesTo(fraction: real, power: int, value: int) {
    fraction * power as real == value as real
  }

  lemma FractionStep(fraction: real, d: int, rest: real, power: int, value: int, more: int, all: int)
    requires fraction == (d as real + rest) / 10.0 && ScalesTo(rest, power, value)
    requires more == 10 * power && all == d * power + value
    ensures ScalesTo(fraction, more, all)
  {
    CastProduct(d, power);
    CastProduct(10, power);
    Scaled(fraction, d as real, rest, power as real, value as real);
  }

  lemma FractionStarts(s: string)
    requires AllDigits(s) && s != []
    ensures FractionValue(s) == ((s[0] as int - '0' as int) as real + FractionValue(s[1..])) / 10.0
  {
  }

  lemma {:induction false} FractionScaled(s: string)
    requires AllDigits(s)
    ensures ScalesTo(FractionValue(s), PowerOfTen(|s|), DigitsValue(s))
    decreases |s|
  {
    if s == [] {
      assert FractionValue(s) == 0.0;
    } else {
      FractionScaled(s[1..]);
      LeadingDigit(s);
      FractionStarts(s);
      FractionStep(FractionValue(s), s[0] as int - '0' as int, FractionValue(s[1..]), PowerOfTen(|s| - 1),
                   DigitsValue(s[1..]), PowerOfTen(|s|), DigitsValue(s));
    }
  }

  lemma FractionIs(s: string)
    requires AllDigits(s)
    ensures FractionValue(s) == DigitsValue(s) as real / PowerOfTen(|s|) as real
  {
    FractionScaled(s);
    Unscaled(FractionValue(s), PowerOfTen(|s|), DigitsValue(s));
  }

  lemma Unscaled(fraction: real, power: int, value: int)
    requires ScalesTo(fraction, power, value) && power > 0
    ensures fraction == value as real / power as real
  {
    Divided(fraction, power as real, value as real);
  }

  lemma {:induction false} DotAfter(a: string, b: string)
    requires AllDigits(a)
    ensures DotAt(a + "." + b) == |a| && DotAt(a) == |a|
  {
    if a != [] {
      DotAfter(a[1..], b);
      assert (a + "." + b)[1..] == a[1..] + "." + b;
    }
  }

  /** Digits, with a point among them or not. */
  predicate Decimal(s: string, whole: string, fraction: string) {
    AllDigits(whole) && AllDigits(fraction) && |whole| + |fraction| > 0
    && (s == whole + "." + fraction || (s == whole && fraction == ""))
  }

  /** Its value. */
  function DecimalValue(whole: string, fraction: string): real
    requires AllDigits(whole) && AllDigits(fraction)
  {
    DigitsValue(whole) as real + DigitsValue(fraction) as real / PowerOfTen(|fraction|) as real
  }

  lemma DecimalIsRead(s: string, whole: string, fraction: string)
    requires Decimal(s, whole, fraction)
    ensures ParseDecimal(s) == Some(DecimalValue(whole, fraction))
  {
    FractionIs(fraction);
    DotAfter(whole, fraction);
    if s == whole + "." + fraction {
      assert s[..|whole|] == whole && s[|whole| + 1..] == fraction;
    } else {
      assert s[..|whole|] == whole;
    }
  }

  /** What is read: the digits before the point, and those after it as a fraction; and nothing else can be read. */
  lemma DecimalLaw(s: string)
    ensures ParseDecimal(s).Some? <==> exists whole, fraction :: Decimal(s, whole, fraction)
    ensures forall whole, fraction :: Decimal(s, whole, fraction) ==>
              ParseDecimal(s) == Some(DecimalValue(whole, fraction))
  {
    if ParseDecimal(s).Some? {
      var n := DotAt(s);
      assert n < |s| ==> s == s[..n] + "." + s[n + 1..];
      assert Decimal(s, s[..n], if n < |s| then s[n + 1..] else "");
    }
    forall whole, fraction | Decimal(s, whole, fraction)
      ensures ParseDecimal(s) == Some(DecimalValue(whole, fraction))
    {
      DecimalIsRead(s, whole, fraction);
    }
  }

  /** The percentage a column shows, if it shows one that float() can read. */
  function Usage(w: string): (r: Option<real>)
    ensures r.Some? ==> PercentShaped(w)
  {
    if PercentShaped(w) then ParseDecimal(w[..|w| - 1]) else None
  }

  /** A percentage is a decimal number before a percent sign. */
  lemma UsageLaw(w: string)
    ensures Usage(w).Some? ==> w != "" && w[|w| - 1] == '%'
    ensures w != "" && w[|w| - 1] == '%' ==>
              var s := w[..|w| - 1];
              && (Usage(w).Some? <==> exists whole, fraction :: Decimal(s, whole, fraction))
              && forall whole, fraction :: Decimal(s, whole, fraction) ==>
                   Usage(w) == Some(DecimalValue(whole, fraction))
  {
    if w != "" && w[|w| - 1] == '%' {
      var s := w[..|w| - 1];
      DecimalLaw(s);
      forall whole, fraction | Decimal(s, whole, fraction) ensures PercentShaped(w) {
        assert forall i :: 0 <= i < |s| ==> s[i] == w[i];
        DecimalChars(s, whole, fraction);
      }
    }
  }

  lemma DecimalChars(s: string, whole: string, fraction: string)
    requires Decimal(s, whole, fraction)
    ensures s != "" && forall i :: 0 <= i < |s| ==> IsDigit(s[i]) || s[i] == '.'
  {
  }

  /** Column i reads as a percentage and the three columns before it as integers. */
  predicate IsAnchor(parts: seq<string>, i: int) {
    4 <= i <= |parts| - 2
    && Usage(parts[i]).Some?
    && ParseInt(parts[i - 3]).Some? && ParseInt(parts[i - 2]).Some? && ParseInt(parts[i - 1]).Some?
  }

  function RowAt(parts: seq<string>, i: int): Row
    requires IsAnchor(parts, i)
  {
    Row(JoinSpace(parts[..i - 3]), JoinSpace(parts[i + 1..]),
        ParseInt(parts[i - 3]).value, ParseInt(parts[i - 2]).value, ParseInt(parts[i - 1]).value, Usage(parts[i]).value)
  }

  ghost predicate NoAnchorAfter(parts: seq<string>, i: int) {
    forall j :: i < j ==> !IsAnchor(parts, j)
  }

  /** What reading these columns answers: the row at the rightmost anchor, or nothing. */
  ghost predicate Reads(parts: seq<string>, row: Option<Row>) {
    match row
    case None => NoAnchorAfter(parts, 3)
    case Some(r) => exists i :: IsAnchor(parts, i) && NoAnchorAfter(parts, i) && r == RowAt(parts, i)
  }

  lemma ReadsAt(parts: seq<string>, i: int)
    requires IsAnchor(parts, i) && NoAnchorAfter(parts, i)
    ensures Reads(parts, Some(RowAt(parts, i)))
  {
  }

  method ParseDfLine(line: string) returns (row: Option<Row>)
    ensures Reads(Fields(line), row)
  {
    row := ParseColumns(Fields(line));
  }

  lemma NothingToTheRight(parts: seq<string>, i: int)
    requires i >= |parts| - 2
    ensures NoAnchorAfter(parts, i)
  {
  }

  lemma OneFurtherLeft(parts: seq<string>, i: int)
    requires NoAnchorAfter(parts, i) && !IsAnchor(parts, i)
    ensures NoAnchorAfter(parts, i - 1)
  {
  }

  lemma NothingLeft(parts: seq<string>)
    requires NoAnchorAfter(parts, 3)
    ensures Reads(parts, None)
  {
  }

  method ParseColumns(parts: seq<string>) returns (row: Option<Row>)
    ensures Reads(parts, row)
  {
    if |parts| < 6 {
      NothingToTheRight(parts, 3);
      return None;
    }
    var index := |parts| - 2;
    NothingToTheRight(parts, index);
    while index > 3
      invariant 3 <= index <= |parts| - 2
      invariant NoAnchorAfter(parts, index)
    {
      if IsAnchor(parts, index) {
        ReadsAt(parts, index);
        return Some(RowAt(parts, index));
      }
      OneFurtherLeft(parts, index);
      index := index - 1;
    }
    NothingLeft(parts);
    row := None;
  }

  // ---------------- the printed row ----------------

  /** A row as df prints it, with any white space between the columns. */
  function Print(
      device: string, total: int, used: int, avail: int, percent: nat, mount: string, pads: seq<string>): string
    requires |pads| == 5
  {
    device + pads[0] + (ShowInt(total) + pads[1] + (ShowInt(used) + pads[2] + (ShowInt(avail) + pads[3]
    + (ShowNat(percent) + "%" + pads[4] + mount))))
  }

  /** The words of the device, four columns, and the words of the mount point. */
  function Columns(device: seq<string>, a: string, b: string, c: string, d: string, mount: seq<string>): seq<string> {
    device + ([a] + ([b] + ([c] + ([d] + mount))))
  }

  lemma PrintedColumns(
      device: string, total: int, used: int, avail: int, percent: nat, mount: string, pads: seq<string>)
    requires |pads| == 5 && forall i :: 0 <= i < 5 ==> Gap(pads[i])
    ensures Fields(Print(device, total, used, avail, percent, mount, pads))
            == Columns(Fields(device), ShowInt(total), ShowInt(used), ShowInt(avail), ShowNat(percent) + "%",
                Fields(mount))
  {
    ParseShown(total);
    ParseShown(used);
    ParseShown(avail);
    var usage := ShowNat(percent) + "%";
    assert Word(usage);
    var r4 := usage + pads[4] + mount;
    var r3 := ShowInt(avail) + pads[3] + r4;
    var r2 := ShowInt(used) + pads[2] + r3;
    var r1 := ShowInt(total) + pads[1] + r2;
    FirstColumn(usage, pads[4], mount);
    FirstColumn(ShowInt(avail), pads[3], r4);
    FirstColumn(ShowInt(used), pads[2], r3);
    FirstColumn(ShowInt(total), pads[1], r2);
    FieldsConcat(device, pads[0], r1);
  }

  lemma {:induction false} NoDot(s: string)
    requires AllDigits(s)
    ensures DotAt(s) == |s|
  {
    if s != [] {
      NoDot(s[1..]);
    }
  }

  lemma PercentShown(percent: nat)
    ensures PercentShaped(ShowNat(percent) + "%")
    ensures ParseDecimal(ShowNat(percent)) == Some(percent as real)
    ensures (ShowNat(percent) + "%")[..|ShowNat(percent)|] == ShowNat(percent)
  {
    var s := ShowNat(percent);
    NoDot(s);
    assert s[..|s|] == s && s + "" == s;
  }

  lemma ColumnsAt(device: seq<string>, a: string, b: string, c: string, d: string, mount: seq<string>)
    ensures var parts, i := Columns(device, a, b, c, d, mount), |device| + 3;
            && |parts| == |device| + 4 + |mount|
            && parts[i - 3] == a && parts[i - 2] == b && parts[i - 1] == c && parts[i] == d
            && parts[..i - 3] == device && parts[i + 1..] == mount
  {
  }

  lemma UsageShown(percent: nat)
    ensures Usage(ShowNat(percent) + "%") == Some(percent as real)
  {
    PercentShown(percent);
  }

  /** The percent column of a row is an anchor and yields the row's values. */
  lemma AnchorOfColumns(device: seq<string>, a: string, b: string, c: string, d: string, mount: seq<string>)
    requires device != [] && mount != []
    requires ParseInt(a).Some? && ParseInt(b).Some? && ParseInt(c).Some? && Usage(d).Some?
    ensures var parts, i := Columns(device, a, b, c, d, mount), |device| + 3;
            && IsAnchor(parts, i)
            && RowAt(parts, i) == Row(JoinSpace(device), JoinSpace(mount), ParseInt(a).value, ParseInt(b).value,
                                      ParseInt(c).value, Usage(d).value)
  {
    ColumnsAt(device, a, b, c, d, mount);
  }

  lemma {:induction false} JoinGrows(ws: seq<string>, k: nat)
    requires k < |ws|
    ensures |JoinSpace(ws[k..])| + k <= |JoinSpace(ws)|
  {
    if k > 0 {
      JoinGrows(ws[1..], k - 1);
      assert ws[1..][k - 1..] == ws[k..];
    } else {
      assert ws[0..] == ws;
    }
  }

  lemma FartherAnchorDiffers(parts: seq<string>, home: int, i: int)
    requires IsAnchor(parts, home) && IsAnchor(parts, i) && i > home
    ensures RowAt(parts, i).mount != RowAt(parts, home).mount
  {
    JoinGrows(parts[home + 1..], i - home);
    assert parts[home + 1..][i - home..] == parts[i + 1..];
  }

  lemma AnchorsDiffer(parts: seq<string>, i: int, j: int)
    requires IsAnchor(parts, i) && IsAnchor(parts, j) && RowAt(parts, i) == RowAt(parts, j)
    ensures i == j
  {
    if i < j { FartherAnchorDiffers(parts, i, j); }
    if j < i { FartherAnchorDiffers(parts, j, i); }
  }

  lemma RightmostIsUnique(parts: seq<string>, home: int, i: int)
    requires IsAnchor(parts, home) && IsAnchor(parts, i) && NoAnchorAfter(parts, i)
    ensures home <= i
    ensures NoAnchorAfter(parts, home) <==> i == home
  {
  }

  /** A row is read at a given anchor exactly when no anchor lies further right. */
  lemma RightmostAnchor(parts: seq<string>, home: int, row: Option<Row>)
    requires IsAnchor(parts, home) && Reads(parts, row)
    ensures row == Some(RowAt(parts, home)) <==> NoAnchorAfter(parts, home)
  {
    assert home > 3;
    var i :| IsAnchor(parts, i) && NoAnchorAfter(parts, i) && row == Some(RowAt(parts, i));
    RightmostIsUnique(parts, home, i);
    if RowAt(parts, i) == RowAt(parts, home) { AnchorsDiffer(parts, i, home); }
  }

  predicate Reading(w: string, value: int) {
    ParseInt(w) == Some(value)
  }

  /** The columns spell a row with these values. */
  ghost predicate Spell(
      parts: seq<string>, device: seq<string>, mount: seq<string>, total: int, used: int, avail: int, usage: real)
  {
    && device != [] && mount != []
    && exists a, b, c, d ::
         && Reading(a, total) && Reading(b, used) && Reading(c, avail) && Usage(d) == Some(usage)
         && parts == Columns(device, a, b, c, d, mount)
  }

  lemma ColumnsRoundTrip(
      parts: seq<string>, device: seq<string>, a: string, b: string, c: string, d: string, mount: seq<string>,
      total: int, used: int, avail: int, usage: real, row: Option<Row>)
    requires parts == Columns(device, a, b, c, d, mount) && device != [] && mount != []
    requires Reading(a, total) && Reading(b, used) && Reading(c, avail) && Usage(d) == Some(usage)
    requires Reads(parts, row)
    ensures row == Some(Row(JoinSpace(device), JoinSpace(mount), total, used, avail, usage))
            <==> NoAnchorAfter(parts, |device| + 3)
  {
    AnchorOfColumns(device, a, b, c, d, mount);
    RightmostAnchor(parts, |device| + 3, row);
  }

  lemma SpelledRoundTrip(
      parts: seq<string>, device: seq<string>, mount: seq<string>, total: int, used: int, avail: int, usage: real,
      row: Option<Row>)
    requires Spell(parts, device, mount, total, used, avail, usage) && Reads(parts, row)
    ensures row == Some(Row(JoinSpace(device), JoinSpace(mount), total, used, avail, usage))
            <==> NoAnchorAfter(parts, |device| + 3)
  {
    var a, b, c, d :| Reading(a, total) && Reading(b, used) && Reading(c, avail) && Usage(d) == Some(usage)
                      && parts == Columns(device, a, b, c, d, mount);
    ColumnsRoundTrip(parts, device, a, b, c, d, mount, total, used, avail, usage, row);
  }

  /** The line is a row as df prints it, for a device and a mount point with at least one word each. */
  predicate IsPrinted(
      line: string, device: string, total: int, used: int, avail: int, percent: nat, mount: string,
      pads: seq<string>) {
    && |pads| == 5 && (forall i :: 0 <= i < 5 ==> Gap(pads[i]))
    && Fields(device) != [] && Fields(mount) != []
    && line == Print(device, total, used, avail, percent, mount, pads)
  }

  lemma PrintedSpells(
      line: string, device: string, total: int, used: int, avail: int, percent: nat, mount: string,
      pads: seq<string>)
    requires IsPrinted(line, device, total, used, avail, percent, mount, pads)
    ensures Spell(Fields(line), Fields(device), Fields(mount), total, used, avail, percent as real)
  {
    PrintedColumns(device, total, used, avail, percent, mount, pads);
    ParseShown(total);
    ParseShown(used);
    ParseShown(avail);
    UsageShown(percent);
    assert Reading(ShowInt(total), total) && Reading(ShowInt(used), used) && Reading(ShowInt(avail), avail);
  }

  // ---------------- which mount points are misread ----------------

  /** Word k of the mount point and the three before it look like the columns of a row. */
  predicate LooksLikeColumns(mount: seq<string>, k: int) {
    3 <= k <= |mount| - 2
    && Usage(mount[k]).Some?
    && ParseInt(mount[k - 3]).Some? && ParseInt(mount[k - 2]).Some? && ParseInt(mount[k - 1]).Some?
  }

  lemma {:induction false} UngroupedEndsInDigit(s: string)
    ensures Ungrouped(s).Some? ==> s != [] && IsDigit(s[|s| - 1])
  {
    if |s| > 1 {
      UngroupedEndsInDigit(if s[1] == '_' then s[2..] else s[1..]);
    }
  }

  lemma PercentIsNoInteger(w: string)
    requires PercentShaped(w)
    ensures ParseInt(w).None?
  {
    UngroupedEndsInDigit(w);
  }

  lemma FarAnchor(
      parts: seq<string>, device: seq<string>, a: string, b: string, c: string, d: string, mount: seq<string>, k: nat)
    requires parts == Columns(device, a, b, c, d, mount) && 3 <= k && device != []
    ensures IsAnchor(parts, |device| + 4 + k) <==> LooksLikeColumns(mount, k)
  {
    ColumnsAt(device, a, b, c, d, mount);
    var i := |device| + 4 + k;
    if k <= |mount| - 2 {
      assert parts[i] == mount[k] && parts[i - 1] == mount[k - 1];
      assert parts[i - 2] == mount[k - 2] && parts[i - 3] == mount[k - 3];
    }
  }

  /** A percentage right after the percent column has that column among the three before it. */
  lemma NoNearAnchor(
      parts: seq<string>, device: seq<string>, a: string, b: string, c: string, d: string, mount: seq<string>, k: nat)
    requires parts == Columns(device, a, b, c, d, mount) && Usage(d).Some? && k < 3
    ensures !IsAnchor(parts, |device| + 4 + k)
  {
    ColumnsAt(device, a, b, c, d, mount);
    PercentIsNoInteger(d);
    assert parts[|device| + 3] == d;
  }

  lemma AnchorInMount(
      parts: seq<string>, device: seq<string>, mount: seq<string>, total: int, used: int, avail: int, usage: real)
    requires Spell(parts, device, mount, total, used, avail, usage)
    ensures NoAnchorAfter(parts, |device| + 3) <==> forall k :: !LooksLikeColumns(mount, k)
  {
    var a, b, c, d :| Reading(a, total) && Reading(b, used) && Reading(c, avail) && Usage(d) == Some(usage)
                      && parts == Columns(device, a, b, c, d, mount);
    forall k | 0 <= k ensures IsAnchor(parts, |device| + 4 + k) <==> LooksLikeColumns(mount, k) {
      if k < 3 {
        NoNearAnchor(parts, device, a, b, c, d, mount, k);
      } else {
        FarAnchor(parts, device, a, b, c, d, mount, k);
      }
    }
    if NoAnchorAfter(parts, |device| + 3) {
      forall k ensures !LooksLikeColumns(mount, k) {
        if k >= 0 { assert !IsAnchor(parts, |device| + 4 + k); }
      }
    } else {
      var i :| i > |device| + 3 && IsAnchor(parts, i);
      assert LooksLikeColumns(mount, i - |device| - 4);
    }
  }

  /** A printed row is read back, spaces in the device and the mount point included (runs of white space
      inside them become single spaces), exactly when no four words of its mount point, with a word after
      them, look like three sizes and a percentage: whatever its device, its numbers and its spacing. */
  lemma DfRoundTrip(
      line: string, device: string, total: int, used: int, avail: int, percent: nat, mount: string, pads: seq<string>,
      row: Option<Row>)
    requires IsPrinted(line, device, total, used, avail, percent, mount, pads) && Reads(Fields(line), row)
    ensures row == Some(Row(JoinSpace(Fields(device)), JoinSpace(Fields(mount)), total, used, avail, percent as real))
            <==> forall k :: !LooksLikeColumns(Fields(mount), k)
  {
    PrintedSpells(line, device, total, used, avail, percent, mount, pads);
    AnchorInMount(Fields(line), Fields(device), Fields(mount), total, used, avail, percent as real);
    SpelledRoundTrip(Fields(line), Fields(device), Fields(mount), total, used, avail, percent as real, row);
  }

  /** In particular when no word of the mount point has the shape of a percentage. */
  lemma DfRoundTripPlainMount(
      line: string, device: string, total: int, used: int, avail: int, percent: nat, mount: string, pads: seq<string>,
      row: Option<Row>)
    requires IsPrinted(line, device, total, used, avail, percent, mount, pads) && Reads(Fields(line), row)
    requires forall k :: 0 <= k < |Fields(mount)| ==> !PercentShaped(Fields(mount)[k])
    ensures row == Some(Row(JoinSpace(Fields(device)), JoinSpace(Fields(mount)), total, used, avail, percent as real))
  {
    DfRoundTrip(line, device, total, used, avail, percent, mount, pads, row);
    forall k ensures !LooksLikeColumns(Fields(mount), k) {}
  }

  lemma Digit(n: nat, w: string)
    requires n < 10 && w == ['0' + n as char]
    ensures ParseInt(w) == Some(n) && Word(w)
    ensures Usage(w + "%") == Some(n as real) && Word(w + "%")
  {
    ParseShown(n);
    UsageShown(n);
    assert ShowNat(n) == w;
  }

  const MISREAD: seq<string> := ["/a", "1", "2", "3", "4%", "b"]

  lemma MisreadNumbers()
    ensures LooksLikeColumns(MISREAD, 4)
  {
    Digit(1, "1");
    Digit(2, "2");
    Digit(3, "3");
    Digit(4, "4");
    assert "4" + "%" == "4%";
  }

  lemma MisreadWords()
    ensures Fields(JoinSpace(MISREAD)) == MISREAD
  {
    forall i | 0 <= i < |MISREAD| ensures Word(MISREAD[i]) {
      assert forall j :: 0 <= j < |MISREAD[i]| ==> MISREAD[i][j] in {'/', 'a', '1', '2', '3', '4', '%', 'b'};
    }
    FieldsOfJoin(MISREAD);
  }

  /** The mount point /a 1 2 3 4% b, on a full disk d of size 1: what is read is not what was printed. */
  lemma PercentInMountIsMisread(line: string, pads: seq<string>, row: Option<Row>)
    requires |pads| == 5 && (forall i :: 0 <= i < 5 ==> Gap(pads[i]))
    requires line == Print("d", 1, 1, 0, 100, JoinSpace(MISREAD), pads) && Reads(Fields(line), row)
    ensures row != Some(Row(JoinSpace(Fields("d")), JoinSpace(Fields(JoinSpace(MISREAD))), 1, 1, 0, 100.0))
    ensures JoinSpace(Fields("d")) == "d" && JoinSpace(Fields(JoinSpace(MISREAD))) == JoinSpace(MISREAD)
  {
    FieldsOfWord("d");
    MisreadWords();
    MisreadNumbers();
    DfRoundTrip(line, "d", 1, 1, 0, 100, JoinSpace(MISREAD), pads, row);
  }
}
