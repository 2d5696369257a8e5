/** Exact decimal money: apps/web/src/lib/money.ts, packages/sdk/src/price-formatter.ts and
    the printer of apps/web/src/lib/stellar-events.ts. A stroop is a ten-millionth. */
module Money {
  import opened Wrappers
  import opened Text

  const SCALE := 7
  const SCALE_FACTOR := 10_000_000

  /* ----- decimal digits ----- */

  function DigitValue(c: char): (v: int)
    requires IsDigit(c)
    ensures 0 <= v < 10
  {
    c as int - '0' as int
  }

  function DigitChar(v: int): (c: char)
    requires 0 <= v < 10
    ensures IsDigit(c) && DigitValue(c) == v
  {
    ('0' as int + v) as char
  }

  /** `BigInt(text)` on digits; the empty text is read as 0. */
  function ParseNat(s: string): nat
    requires AllDigits(s)
  {
    if s == [] then 0 else 10 * ParseNat(s[..|s| - 1]) + DigitValue(s[|s| - 1])
  }

  /** `n.toString()`. */
  function Digits(n: nat): (s: string)
    ensures s != [] && AllDigits(s) && ParseNat(s) == n
    ensures |s| > 1 ==> s[0] != '0'
  {
    if n < 10 then
      assert ParseNat([]) == 0;
      [DigitChar(n)]
    else
      var s := Digits(n / 10) + [DigitChar(n % 10)];
      assert s[..|s| - 1] == Digits(n / 10);
      s
  }

  function Zeros(k: nat): (s: string)
    ensures |s| == k && AllDigits(s) && forall i :: 0 <= i < k ==> s[i] == '0'
  {
    seq(k, _ => '0')
  }

  function PadStart(s: string, width: nat): string {
    if |s| < width then Zeros(width - |s|) + s else s
  }

  function PadEnd(s: string, width: int): string {
    if |s| < width then s + Zeros(width - |s|) else s
  }

  function Pow10(k: nat): (p: nat)
    ensures p > 0
  {
    if k == 0 then 1 else 10 * Pow10(k - 1)
  }

  lemma MulTen(x: int, p: int)
    ensures x * (10 * p) == 10 * (x * p)
  {
  }

  lemma {:induction false} ParseConcat(a: string, b: string)
    requires AllDigits(a) && AllDigits(b)
    ensures AllDigits(a + b) && ParseNat(a + b) == ParseNat(a) * Pow10(|b|) + ParseNat(b)
  {
    if b == [] {
      assert a + b == a;
    } else {
      var front, last := b[..|b| - 1], b[|b| - 1];
      ParseConcat(a, front);
      assert (a + b)[..|a + b| - 1] == a + front && (a + b)[|a + b| - 1] == last;
      assert ParseNat(a + b) == 10 * ParseNat(a + front) + DigitValue(last);
      MulTen(ParseNat(a), Pow10(|front|));
    }
  }

  lemma {:induction false} ParseZeros(k: nat)
    ensures ParseNat(Zeros(k)) == 0
  {
    if k > 0 {
      assert Zeros(k)[..k - 1] == Zeros(k - 1);
      ParseZeros(k - 1);
    }
  }

  lemma {:induction false} ParseBound(s: string)
    requires AllDigits(s)
    ensures ParseNat(s) < Pow10(|s|)
  {
    if s != [] {
      ParseBound(s[..|s| - 1]);
    }
  }

  /* ----- parsing ----- */

  /** Length of the longest prefix of digits. */
  function DigitRun(s: string): (n: nat)
    ensures n <= |s| && AllDigits(s[..n]) && (n < |s| ==> !IsDigit(s[n]))
  {
    if s == [] || !IsDigit(s[0]) then 0
    else
      var n := DigitRun(s[1..]);
      assert forall i :: 0 < i <= n ==> s[i] == s[1..][i - 1];
      1 + n
  }

  /** The groups of `/^(-?)(\d+)(?:\.(\d*))?$/` on a trimmed text. */
  datatype Decimal = Decimal(negative: bool, whole: string, frac: string)

  function MatchUnsigned(negative: bool, rest: string): (r: Option<Decimal>)
    ensures r.Some? ==> r.value.whole != [] && AllDigits(r.value.whole) && AllDigits(r.value.frac)
  {
    var n := DigitRun(rest);
    if n == 0 then None
    else if n == |rest| then Some(Decimal(negative, rest[..n], []))
    else if rest[n] != '.' || DigitRun(rest[n + 1..]) < |rest[n + 1..]| then None
    else
      var frac := rest[n + 1..];
      assert frac == frac[..|frac|];
      Some(Decimal(negative, rest[..n], frac))
  }

  /** The groups of a text that needs no trimming. */
  function MatchTrimmed(t: string): (r: Option<Decimal>)
    ensures r.Some? ==> r.value.whole != [] && AllDigits(r.value.whole) && AllDigits(r.value.frac)
  {
    if t != [] && t[0] == '-' then MatchUnsigned(true, t[1..]) else MatchUnsigned(false, t)
  }

  function MatchDecimal(text: string): (r: Option<Decimal>)
    ensures r.Some? ==> r.value.whole != [] && AllDigits(r.value.whole) && AllDigits(r.value.frac)
  {
    MatchTrimmed(Trim(text))
  }

  function Padded(frac: string): (p: string)
    requires AllDigits(frac)
    ensures |p| == SCALE && AllDigits(p)
  {
    (frac + Zeros(SCALE))[..SCALE]
  }

  function Magnitude(d: Decimal): nat
    requires AllDigits(d.whole) && AllDigits(d.frac)
  {
    ParseNat(d.whole) * SCALE_FACTOR + ParseNat(Padded(d.frac))
  }

  function ToStroops(amount: string): Option<int> {
    match MatchDecimal(amount)
    case None => None
    case Some(d) =>
      var magnitude: int := Magnitude(d);
      Some(if d.negative then -magnitude else magnitude)
  }

  /* ----- printing ----- */

  function Abs(n: int): nat {
    if n < 0 then -n else n
  }

  function FromStroops(stroops: int): string {
    (if stroops < 0 then "-" else "") +
    Digits(Abs(stroops) / SCALE_FACTOR) + "." + PadStart(Digits(Abs(stroops) % SCALE_FACTOR), SCALE)
  }

  /** The printer of stellar-events.ts, which names its parts before joining them. */
  function StroopsToDecimal(stroops: int): string {
    var abs := if stroops < 0 then -stroops else stroops;
    var whole, frac := abs / SCALE_FACTOR, abs % SCALE_FACTOR;
    var sign := if stroops < 0 then "-" else "";
    sign + Digits(whole) + "." + PadStart(Digits(frac), 7)
  }

  lemma {:induction false} DigitsLength(n: nat, k: nat)
    requires k > 0 && n < Pow10(k)
    ensures |Digits(n)| <= k
  {
    if n >= 10 {
      assert Pow10(k) == 10 * Pow10(k - 1);
      assert k > 1 by { assert Pow10(0) == 1; }
      DigitsLength(n / 10, k - 1);
    }
  }

  /** The fraction every printer writes: seven digits. */
  lemma FractionDigits(f: nat)
    requires f < SCALE_FACTOR
    ensures |PadStart(Digits(f), SCALE)| == SCALE && AllDigits(PadStart(Digits(f), SCALE))
    ensures ParseNat(PadStart(Digits(f), SCALE)) == f
  {
    assert Pow10(SCALE) == SCALE_FACTOR;
    DigitsLength(f, SCALE);
    var d := Digits(f);
    if |d| < SCALE {
      hide Digits;
      ParseZeros(SCALE - |d|);
      ParseConcat(Zeros(SCALE - |d|), d);
    }
  }

  function Written(d: Decimal, point: string): string {
    (if d.negative then "-" else "") + (d.whole + (point + d.frac))
  }

  lemma WrittenNeedsNoTrim(d: Decimal, point: string)
    requires d.whole != [] && AllDigits(d.whole) && AllDigits(d.frac)
    requires point == "." || (point == "" && d.frac == "")
    ensures Trim(Written(d, point)) == Written(d, point)
  {
  }

  lemma MatchPrintedUnsigned(d: Decimal, point: string)
    requires d.whole != [] && AllDigits(d.whole) && AllDigits(d.frac)
    requires point == "." || (point == "" && d.frac == "")
    ensures MatchUnsigned(d.negative, d.whole + (point + d.frac)) == Some(d)
  {
    var rest := d.whole + (point + d.frac);
    RunOfPrinted(d.whole, point + d.frac);
    hide AllDigits;
    assert rest[..|d.whole|] == d.whole;
    if point == "." {
      assert rest[|d.whole|] == '.' && rest[|d.whole| + 1..] == d.frac;
      RunOfPrinted(d.frac, []);
      assert d.frac + [] == d.frac;
    }
  }

  /** A text of the printers' shape matches with the groups it was made of. */
  lemma MatchPrinted(d: Decimal, point: string)
    requires d.whole != [] && AllDigits(d.whole) && AllDigits(d.frac)
    requires point == "." || (point == "" && d.frac == "")
    ensures MatchTrimmed(Written(d, point)) == Some(d)
  {
    hide MatchUnsigned;
    var t, rest := Written(d, point), d.whole + (point + d.frac);
    assert (if d.negative then t[1..] else t) == rest && (t[0] == '-' <==> d.negative);
    MatchPrintedUnsigned(d, point);
  }

  /** `d` as text: digits, and possibly a point and further digits, or none. */
  predicate IsNumeral(d: Decimal, point: string) {
    d.whole != [] && AllDigits(d.whole) && AllDigits(d.frac) && (point == "." || (point == "" && d.frac == ""))
  }

  /** The texts that are amounts: an optional minus, digits, and possibly a point and further digits, with
      spaces around; and what is read of them. */
  lemma AmountsExactly(text: string, d: Decimal)
    ensures MatchDecimal(text) == Some(d) <==> exists point :: IsNumeral(d, point) && Trim(text) == Written(d, point)
    ensures MatchDecimal(text) == Some(d) ==>
              var magnitude: int := Magnitude(d);
              ToStroops(text) == Some(if d.negative then -magnitude else magnitude)
    ensures MatchDecimal(text) == None ==> ToStroops(text) == None
  {
    var t := Trim(text);
    hide Trim, MatchUnsigned, DigitRun;
    if point :| IsNumeral(d, point) && t == Written(d, point) {
      MatchPrinted(d, point);
    }
    if MatchDecimal(text) == Some(d) {
      var rest := if t != [] && t[0] == '-' then t[1..] else t;
      var point := UnsignedNumeral(t != [] && t[0] == '-', rest);
      assert t == Written(d, point);
    }
  }

  lemma UnsignedNumeral(negative: bool, rest: string) returns (point: string)
    requires MatchUnsigned(negative, rest).Some?
    ensures var d := MatchUnsigned(negative, rest).value;
            d.negative == negative && IsNumeral(d, point) && rest == d.whole + (point + d.frac)
  {
    var n := DigitRun(rest);
    point := if n == |rest| then "" else ".";
    if n < |rest| {
      assert rest == rest[..n] + ("." + rest[n + 1..]);
    }
  }

  lemma ParseWritten(d: Decimal, point: string)
    requires d.whole != [] && AllDigits(d.whole) && AllDigits(d.frac)
    requires point == "." || (point == "" && d.frac == "")
    ensures var magnitude: int := Magnitude(d);
            ToStroops(Written(d, point)) == Some(if d.negative then -magnitude else magnitude)
  {
    hide MatchTrimmed, Trim, Written, Magnitude, AllDigits;
    MatchPrinted(d, point);
    WrittenNeedsNoTrim(d, point);
  }

  lemma {:induction false} RunOfPrinted(digits: string, rest: string)
    requires AllDigits(digits) && (rest == [] || !IsDigit(rest[0]))
    ensures DigitRun(digits + rest) == |digits|
  {
    if digits != [] {
      assert (digits + rest)[1..] == digits[1..] + rest;
      RunOfPrinted(digits[1..], rest);
    } else {
      assert digits + rest == rest;
    }
  }

  lemma PaddedSeven(frac: string)
    requires |frac| == SCALE && AllDigits(frac)
    ensures Padded(frac) == frac
  {
  }

  /** Printing loses nothing: every integer number of stroops is read back. */
  lemma ParsePrinted(stroops: int)
    ensures ToStroops(FromStroops(stroops)) == Some(stroops)
    ensures StroopsToDecimal(stroops) == FromStroops(stroops)
  {
    hide Digits, PadStart, ToStroops, AllDigits, Padded, ParseNat;
    var abs := Abs(stroops);
    var whole, frac := Digits(abs / SCALE_FACTOR), PadStart(Digits(abs % SCALE_FACTOR), SCALE);
    FractionDigits(abs % SCALE_FACTOR);
    var d := Decimal(stroops < 0, whole, frac);
    assert FromStroops(stroops) == Written(d, ".");
    hide Written;
    ParseWritten(d, ".");
    PaddedSeven(frac);
  }

  /** What parsing loses: digits beyond the seventh. The parsed stroops equal the written
      decimal exactly when every such digit is a zero, and fall short of it otherwise. */
  lemma ParseIsExact(text: string)
    requires MatchDecimal(text).Some?
    ensures var d := MatchDecimal(text).value;
            Magnitude(d) * Pow10(|d.frac|) <= ParseNat(d.whole + d.frac) * SCALE_FACTOR &&
            (Magnitude(d) * Pow10(|d.frac|) == ParseNat(d.whole + d.frac) * SCALE_FACTOR <==>
             forall i :: SCALE <= i < |d.frac| ==> d.frac[i] == '0')
  {
    var d := MatchDecimal(text).value;
    hide MatchDecimal;
    if |d.frac| <= SCALE { ShortFraction(d); } else { LongFraction(d); }
  }

  lemma PaddedParts(frac: string)
    requires AllDigits(frac)
    ensures |frac| <= SCALE ==> Padded(frac) == frac + Zeros(SCALE - |frac|)
    ensures |frac| > SCALE ==> Padded(frac) == frac[..SCALE] && frac == frac[..SCALE] + frac[SCALE..] &&
                               AllDigits(frac[..SCALE]) && AllDigits(frac[SCALE..])
    ensures |frac| > SCALE ==> ((forall i :: 0 <= i < |frac[SCALE..]| ==> frac[SCALE..][i] == '0') <==>
                                (forall i :: SCALE <= i < |frac| ==> frac[i] == '0'))
  {
  }

  lemma ShortFraction(d: Decimal)
    requires AllDigits(d.whole) && AllDigits(d.frac) && |d.frac| <= SCALE
    ensures Magnitude(d) * Pow10(|d.frac|) == ParseNat(d.whole + d.frac) * SCALE_FACTOR
  {
    assert Pow10(SCALE) == SCALE_FACTOR;
    hide Pow10, ParseNat, Padded, AllDigits;
    var k := SCALE - |d.frac|;
    var w, n, p, q := ParseNat(d.whole), ParseNat(d.frac), Pow10(|d.frac|), Pow10(k);
    PaddedParts(d.frac);
    ParseConcat(d.whole, d.frac);
    ParseConcat(d.frac, Zeros(k));
    ParseZeros(k);
    Pow10Sum(|d.frac|, k);
    ShortProduct(w, n, p, q);
  }

  lemma ShortProduct(w: int, n: int, p: int, q: int)
    ensures (w * (p * q) + n * q) * p == (w * p + n) * (p * q)
  {
  }

  lemma LongFraction(d: Decimal)
    requires AllDigits(d.whole) && AllDigits(d.frac) && |d.frac| > SCALE
    ensures Magnitude(d) * Pow10(|d.frac|) <= ParseNat(d.whole + d.frac) * SCALE_FACTOR
    ensures Magnitude(d) * Pow10(|d.frac|) == ParseNat(d.whole + d.frac) * SCALE_FACTOR <==>
            forall i :: SCALE <= i < |d.frac| ==> d.frac[i] == '0'
  {
    assert Pow10(SCALE) == SCALE_FACTOR;
    hide Pow10, ParseNat, Padded, AllDigits;
    PaddedParts(d.frac);
    var kept, lost := d.frac[..SCALE], d.frac[SCALE..];
    var w, n, m, p := ParseNat(d.whole), ParseNat(kept), ParseNat(lost), Pow10(|lost|);
    ParseConcat(d.whole, d.frac);
    ParseConcat(kept, lost);
    Pow10Sum(SCALE, |lost|);
    ParseZeroIff(lost);
    LongProduct(Magnitude(d), Pow10(|d.frac|), ParseNat(d.whole + d.frac), w, n, m, SCALE_FACTOR, p);
  }

  lemma LongProduct(magnitude: int, power: int, digits: int, w: int, n: int, m: int, f: int, p: int)
    requires magnitude == w * f + n && power == f * p && digits == w * power + (n * p + m)
    ensures magnitude * power + m * f == digits * f
  {
  }

  lemma {:induction false} Pow10Sum(a: nat, b: nat)
    ensures Pow10(a + b) == Pow10(a) * Pow10(b)
  {
    if b > 0 {
      Pow10Sum(a, b - 1);
      assert Pow10(a + b) == 10 * Pow10(a + (b - 1));
    }
  }

  lemma {:induction false} ParseZeroIff(s: string)
    requires AllDigits(s)
    ensures ParseNat(s) == 0 <==> forall i :: 0 <= i < |s| ==> s[i] == '0'
  {
    if s != [] {
      ParseZeroIff(s[..|s| - 1]);
      assert DigitValue(s[|s| - 1]) == 0 <==> s[|s| - 1] == '0';
    }
  }

  /* ----- sums ----- */

  function StroopsOrZero(amount: string): int {
    if ToStroops(amount).Some? then ToStroops(amount).value else 0
  }

  function SumStroops(amounts: seq<string>): int {
    if amounts == [] then 0 else SumStroops(amounts[..|amounts| - 1]) + StroopsOrZero(amounts[|amounts| - 1])
  }

  method SumAmounts(amounts: seq<string>) returns (r: string)
    ensures r == FromStroops(SumStroops(amounts))
    ensures ToStroops(r) == Some(SumStroops(amounts))
  {
    var total := 0;
    for i := 0 to |amounts|
      invariant total == SumStroops(amounts[..i])
    {
      assert amounts[..i + 1][..i] == amounts[..i];
      var stroops := ToStroops(amounts[i]);
      if stroops.Some? {
        total := total + stroops.value;
      }
    }
    assert amounts[..|amounts|] == amounts;
    ParsePrinted(total);
    return FromStroops(total);
  }

  /** A sum depends on which amounts are listed and how often, not on their order. */
  lemma {:induction false} SumIgnoresOrder(a: seq<string>, b: seq<string>)
    requires multiset(a) == multiset(b)
    ensures SumStroops(a) == SumStroops(b)
    decreases |a|
  {
    hide StroopsOrZero;
    if a == [] {
      assert |multiset(b)| == 0;
    } else {
      var last := a[|a| - 1];
      assert a == a[..|a| - 1] + [last];
      assert last in multiset(b);
      var i :| 0 <= i < |b| && b[i] == last;
      var rest := b[..i] + b[i + 1..];
      assert b == b[..i] + [last] + b[i + 1..];
      assert multiset(b) == multiset(rest) + multiset{last};
      assert multiset(a[..|a| - 1]) == multiset(a) - multiset{last};
      SumIgnoresOrder(a[..|a| - 1], rest);
      SumRemove(b, i);
    }
  }

  lemma {:induction false} SumRemove(b: seq<string>, i: nat)
    requires i < |b|
    ensures SumStroops(b) == SumStroops(b[..i] + b[i + 1..]) + StroopsOrZero(b[i])
    decreases |b|
  {
    hide StroopsOrZero;
    var front := b[..|b| - 1];
    if i < |b| - 1 {
      SumRemove(front, i);
      var rest := b[..i] + b[i + 1..];
      assert rest[..|rest| - 1] == front[..i] + front[i + 1..];
    } else {
      assert b[..i] + b[i + 1..] == front;
    }
  }

  /* ----- display ----- */

  /** `whole.replace(/\B(?=(\d{3})+(?!\d))/g, ',')` on digits. */
  function Group(digits: string): string {
    if |digits| <= 3 then digits else Group(digits[..|digits| - 3]) + "," + digits[|digits| - 3..]
  }

  function RemoveCommas(s: string): string {
    if s == [] then [] else (if s[0] == ',' then [] else [s[0]]) + RemoveCommas(s[1..])
  }

  function StripZeros(frac: string): (r: string)
    ensures r <= frac && (forall i :: |r| <= i < |frac| ==> frac[i] == '0')
  {
    if frac != [] && frac[|frac| - 1] == '0' then StripZeros(frac[..|frac| - 1]) else frac
  }

  /** The decimals a display keeps: trailing zeros stripped, then at least `minDecimals` places. */
  function Trimmed(frac: string, minDecimals: int): string {
    PadEnd(StripZeros(frac), minDecimals)
  }

  /** What a display of a number of stroops is to say: the grouped whole part and the kept decimals. */
  function Display(stroops: int, minDecimals: int): string {
    var trimmed := Trimmed(PadStart(Digits(Abs(stroops) % SCALE_FACTOR), SCALE), minDecimals);
    Written(Decimal(stroops < 0, Group(Digits(Abs(stroops) / SCALE_FACTOR)), trimmed),
            if trimmed == [] then "" else ".")
  }

  /** `split('.')`, its first two parts; an absent second one is "". */
  function SplitPoint(s: string): (string, string) {
    if s == [] then ([], [])
    else if s[0] == '.' then ([], UpToPoint(s[1..]))
    else
      var (whole, frac) := SplitPoint(s[1..]);
      ([s[0]] + whole, frac)
  }

  function UpToPoint(s: string): string {
    if s == [] || s[0] == '.' then [] else [s[0]] + UpToPoint(s[1..])
  }

  /** The parts all three formatters take from `fromStroops`: the sign, then the text around the point. */
  function FixedParts(stroops: int): (bool, string, string) {
    var fixed := FromStroops(stroops);
    var negative := fixed != [] && fixed[0] == '-';
    var (whole, frac) := SplitPoint(if negative then fixed[1..] else fixed);
    (negative, whole, frac)
  }

  function Assemble(negative: bool, whole: string, trimmed: string): string {
    (if negative then "-" else "") + Group(whole) + (if trimmed != [] then "." + trimmed else "")
  }

  function FormatAmount(amount: string, minDecimals: int): string {
    match ToStroops(amount)
    case None => amount
    case Some(stroops) =>
      var (negative, whole, frac) := FixedParts(stroops);
      var stripped := StripZeros(frac);
      var trimmed := if |stripped| < minDecimals then PadEnd(stripped, minDecimals) else stripped;
      Assemble(negative, whole, trimmed)
  }

  /** `parseStroops`: a raw integer count. */
  function ParseCount(input: string): Option<int> {
    var t := Trim(input);
    var negative := t != [] && t[0] == '-';
    var rest := if negative then t[1..] else t;
    if rest == [] || DigitRun(rest) < |rest| then None
    else
      var count: int := ParseNat(rest);
      Some(if negative then -count else count)
  }

  /** The texts that are counts: an optional minus and digits, with spaces around; and what is read of them. */
  lemma CountsExactly(text: string, n: int)
    ensures ParseCount(text) == Some(n) <==>
            exists digits :: IsCount(Trim(text), digits, n)
  {
    var t := Trim(text);
    hide Trim;
    if ParseCount(text) == Some(n) {
      var digits := if t[0] == '-' then t[1..] else t;
      assert digits[..|digits|] == digits;
      assert t[0] == '-' ==> t == "-" + digits;
      assert IsCount(t, digits, n);
    }
    if digits :| IsCount(t, digits, n) {
      assert digits + [] == digits;
      RunOfPrinted(digits, []);
      assert t != digits ==> t[1..] == digits;
    }
  }

  predicate IsCount(t: string, digits: string, n: int) {
    digits != [] && AllDigits(digits) &&
    ((t == digits && n == ParseNat(digits)) || (t == "-" + digits && n == -(ParseNat(digits) as int)))
  }

  /** What is not an amount, or not a count, is shown as it is. */
  lemma RefusedIsShown(text: string, minDecimals: int, token: Token)
    ensures ToStroops(text) == None ==> FormatAmount(text, minDecimals) == text
    ensures ParseCount(text) == None ==> FormatPriceCompact(text) == text && FormatPrice(text, token) == text
  {
  }

  function FormatPriceCompact(input: string): string {
    match ParseCount(input)
    case None => input
    case Some(stroops) =>
      var (negative, whole, frac) := FixedParts(stroops);
      var stripped := StripZeros(frac);
      Assemble(negative, whole, if |stripped| < 2 then PadEnd(stripped, 2) else stripped)
  }

  /** A resolved token; its decimals default to seven. */
  datatype Token = Token(symbol: string, decimals: Option<nat>)

  function Decimals(token: Token): nat {
    match token.decimals case Some(d) => d case None => SCALE
  }

  function Min(a: int, b: int): int {
    if a <= b then a else b
  }

  /** The fraction `formatPrice` keeps: padded to `Math.min(2, decimals)`, then cut to `decimals`. */
  function PriceFraction(frac: string, decimals: nat): string {
    var stripped := StripZeros(frac);
    var padded := if |stripped| < Min(2, decimals) then PadEnd(stripped, Min(2, decimals)) else stripped;
    if |padded| > decimals then padded[..decimals] else padded
  }

  /** The numeric part of `formatPrice`. */
  function PriceNumber(stroops: int, decimals: nat): string {
    var (negative, whole, frac) := FixedParts(stroops);
    Assemble(negative, whole, PriceFraction(frac, decimals))
  }

  function FormatPrice(input: string, token: Token): string {
    match ParseCount(input)
    case None => input
    case Some(stroops) => PriceNumber(stroops, Decimals(token)) + " " + token.symbol
  }

  lemma {:induction false} RemoveCommasConcat(a: string, b: string)
    ensures RemoveCommas(a + b) == RemoveCommas(a) + RemoveCommas(b)
  {
    if a == [] {
      assert a + b == b;
    } else {
      assert (a + b)[1..] == a[1..] + b;
      RemoveCommasConcat(a[1..], b);
    }
  }

  lemma {:induction false} RemoveCommasNoop(s: string)
    requires ',' !in s
    ensures RemoveCommas(s) == s
  {
    if s != [] { RemoveCommasNoop(s[1..]); }
  }

  lemma CommaRemoved()
    ensures RemoveCommas(",") == []
  {
  }

  lemma {:induction false} GroupRemoves(digits: string)
    requires AllDigits(digits)
    ensures RemoveCommas(Group(digits)) == digits
  {
    hide RemoveCommas;
    if |digits| <= 3 {
      RemoveCommasNoop(digits);
    } else {
      var front, last := digits[..|digits| - 3], digits[|digits| - 3..];
      assert AllDigits(front) && ',' !in last;
      assert Group(digits) == Group(front) + "," + last && front + last == digits;
      GroupRemoves(front);
      hide AllDigits, Group;
      RemoveCommasNoop(last);
      CommaRemoved();
      RemoveCommasConcat(Group(front) + ",", last);
      RemoveCommasConcat(Group(front), ",");
    }
  }

  /** Where the separators stand: a comma at every fourth place from the right and nowhere else. */
  lemma {:induction false} GroupShape(digits: string, i: nat)
    requires AllDigits(digits) && i < |Group(digits)|
    ensures Group(digits)[i] == ',' <==> (|Group(digits)| - i) % 4 == 0
    ensures digits != [] ==> Group(digits)[0] != ','
  {
    if |digits| > 3 {
      var front := digits[..|digits| - 3];
      var n := |Group(front)|;
      GroupShape(front, if i < n then i else 0);
    }
  }

  lemma TrimmedFraction(frac: string, minDecimals: int)
    requires |frac| == SCALE && AllDigits(frac)
    ensures AllDigits(Trimmed(frac, minDecimals)) && Padded(Trimmed(frac, minDecimals)) == frac
  {
  }

  lemma RemoveCommasWritten(d: Decimal, point: string)
    requires AllDigits(d.whole) && AllDigits(d.frac) && (point == "." || point == "")
    ensures RemoveCommas(Written(d.(whole := Group(d.whole)), point)) == Written(d, point)
  {
    var sign := if d.negative then "-" else "";
    GroupRemoves(d.whole);
    var grouped, tail := Group(d.whole), point + d.frac;
    RemoveCommasNoop(sign);
    RemoveCommasNoop(tail);
    RemoveCommasConcat(grouped, tail);
    RemoveCommasConcat(sign, grouped + tail);
  }

  /** The display is the amount: without its commas it parses back to the same stroops. */
  /** How many decimals are shown: at least the minimum, beyond it no trailing zero, and never more than needed. */
  lemma DecimalsShown(frac: string, minDecimals: nat)
    requires AllDigits(frac)
    ensures var shown := Trimmed(frac, minDecimals);
            && |shown| >= minDecimals && (|shown| > minDecimals ==> shown[|shown| - 1] != '0')
            && |shown| <= (if |frac| > minDecimals then |frac| else minDecimals)
            && (forall i :: 0 <= i < |shown| && i < |frac| ==> shown[i] == frac[i])
  {
    StripsAll(frac);
  }

  lemma {:induction false} StripsAll(frac: string)
    ensures StripZeros(frac) != [] ==> StripZeros(frac)[|StripZeros(frac)| - 1] != '0'
  {
    if frac != [] && frac[|frac| - 1] == '0' { StripsAll(frac[..|frac| - 1]); }
  }

  lemma DisplayParses(stroops: int, minDecimals: int)
    ensures ToStroops(RemoveCommas(Display(stroops, minDecimals))) == Some(stroops)
  {
    hide Digits, PadStart, ToStroops, AllDigits, Padded, ParseNat, Trimmed, Written, Group, RemoveCommas;
    var abs := Abs(stroops);
    var whole, frac := Digits(abs / SCALE_FACTOR), PadStart(Digits(abs % SCALE_FACTOR), SCALE);
    FractionDigits(abs % SCALE_FACTOR);
    TrimmedFraction(frac, minDecimals);
    var d := Decimal(stroops < 0, whole, Trimmed(frac, minDecimals));
    var point := if d.frac == [] then "" else ".";
    RemoveCommasWritten(d, point);
    ParseWritten(d, point);
  }

  lemma {:induction false} SplitDigits(whole: string, frac: string)
    requires AllDigits(whole) && AllDigits(frac)
    ensures SplitPoint(whole + ("." + frac)) == (whole, frac)
  {
    var s := whole + ("." + frac);
    if whole == [] {
      assert s == "." + frac && s[1..] == frac;
      UpToPointDigits(frac);
    } else {
      assert s[0] == whole[0] && s[1..] == whole[1..] + ("." + frac);
      SplitDigits(whole[1..], frac);
      assert whole == [whole[0]] + whole[1..];
    }
  }

  lemma {:induction false} UpToPointDigits(s: string)
    requires AllDigits(s)
    ensures UpToPoint(s) == s
  {
    if s != [] {
      UpToPointDigits(s[1..]);
      assert s == [s[0]] + s[1..];
    }
  }

  /** Splitting the fixed text recovers the sign, the whole stroops and the seven decimals. */
  lemma FixedPartsAre(stroops: int)
    ensures FixedParts(stroops) ==
            (stroops < 0, Digits(Abs(stroops) / SCALE_FACTOR), PadStart(Digits(Abs(stroops) % SCALE_FACTOR), SCALE))
  {
    hide Digits, PadStart, SplitPoint, AllDigits;
    var whole, frac := Digits(Abs(stroops) / SCALE_FACTOR), PadStart(Digits(Abs(stroops) % SCALE_FACTOR), SCALE);
    FractionDigits(Abs(stroops) % SCALE_FACTOR);
    var fixed := FromStroops(stroops);
    assert fixed == (if stroops < 0 then "-" else "") + (whole + ("." + frac));
    assert (if stroops < 0 then fixed[1..] else fixed) == whole + ("." + frac);
    FirstIsDigit(whole);
    assert stroops >= 0 ==> fixed[0] == whole[0];
    hide FromStroops, Abs;
    SplitDigits(whole, frac);
  }

  lemma FirstIsDigit(s: string)
    requires s != [] && AllDigits(s)
    ensures s[0] != '-'
  {
  }

  lemma AssembleIsWritten(negative: bool, whole: string, trimmed: string)
    ensures Assemble(negative, whole, trimmed) ==
            Written(Decimal(negative, Group(whole), trimmed), if trimmed == [] then "" else ".")
  {
  }

  /** An assembled text is worth its parts: without its commas it parses to the whole part and the
      fraction padded to seven digits. */
  lemma AssembledParses(negative: bool, whole: string, trimmed: string)
    requires whole != [] && AllDigits(whole) && AllDigits(trimmed)
    ensures var magnitude: int := Magnitude(Decimal(negative, whole, trimmed));
            ToStroops(RemoveCommas(Assemble(negative, whole, trimmed))) ==
              Some(if negative then -magnitude else magnitude)
  {
    hide Assemble, ToStroops, RemoveCommas, Written, Magnitude, AllDigits;
    var d, point := Decimal(negative, whole, trimmed), if trimmed == [] then "" else ".";
    AssembleIsWritten(negative, whole, trimmed);
    RemoveCommasWritten(d, point);
    ParseWritten(d, point);
  }

  /** The dashboard's formatter shows the display of the amount's stroops. */
  lemma FormatAmountIsDisplay(amount: string, minDecimals: int)
    requires ToStroops(amount).Some?
    ensures FormatAmount(amount, minDecimals) == Display(ToStroops(amount).value, minDecimals)
  {
    hide Digits, PadStart, FixedParts, Assemble, Written, Group, StripZeros, ToStroops;
    var stroops := ToStroops(amount).value;
    FixedPartsAre(stroops);
    AssembleIsWritten(stroops < 0, Digits(Abs(stroops) / SCALE_FACTOR),
                      Trimmed(PadStart(Digits(Abs(stroops) % SCALE_FACTOR), SCALE), minDecimals));
  }

  lemma CompactIsDisplay(input: string)
    requires ParseCount(input).Some?
    ensures FormatPriceCompact(input) == Display(ParseCount(input).value, 2)
  {
    hide Digits, PadStart, FixedParts, Assemble, Written, Group, StripZeros, ParseCount;
    var stroops := ParseCount(input).value;
    FixedPartsAre(stroops);
    AssembleIsWritten(stroops < 0, Digits(Abs(stroops) / SCALE_FACTOR),
                      Trimmed(PadStart(Digits(Abs(stroops) % SCALE_FACTOR), SCALE), 2));
  }

  lemma {:induction false} SameValueSameDigits(a: string, b: string)
    requires AllDigits(a) && AllDigits(b) && |a| == |b| && ParseNat(a) == ParseNat(b)
    ensures a == b
    decreases |a|
  {
    if a != [] {
      var n := |a| - 1;
      SameValueSameDigits(a[..n], b[..n]);
      assert a == a[..n] + [a[n]] && b == b[..n] + [b[n]];
    }
  }

  /** The kept fraction stands for the whole one exactly when nothing but zeros is cut off. */
  /** A price shows as many decimals as its token has, seven unless it says otherwise: at most these, and at least
      two of them. */
  lemma PriceDecimals(frac: string, token: Token)
    requires AllDigits(frac)
    ensures var decimals, shown := Decimals(token), PriceFraction(frac, Decimals(token));
            && decimals == (match token.decimals case Some(d) => d case None => 7)
            && |shown| <= decimals && (decimals >= 2 ==> |shown| >= 2) && (decimals < 2 ==> |shown| == decimals)
            && (forall i :: 0 <= i < |shown| && i < |frac| ==> shown[i] == frac[i])
  {
    StripsAll(frac);
  }

  lemma PriceFractionKeeps(frac: string, decimals: nat)
    requires |frac| == SCALE && AllDigits(frac)
    ensures AllDigits(PriceFraction(frac, decimals))
    ensures Padded(PriceFraction(frac, decimals)) == frac <==> forall i :: decimals <= i < SCALE ==> frac[i] == '0'
  {
  }

  /** The price of a stroop count, for a token of any number of decimals: without its commas it parses
      back to the count exactly when the count has no digit beyond those decimals. */
  lemma PriceIsExact(stroops: int, decimals: nat)
    ensures var frac := PadStart(Digits(Abs(stroops) % SCALE_FACTOR), SCALE);
            |frac| == SCALE &&
            (ToStroops(RemoveCommas(PriceNumber(stroops, decimals))) == Some(stroops) <==>
             forall i :: decimals <= i < SCALE ==> frac[i] == '0')
  {
    var abs := Abs(stroops);
    var whole, frac := Digits(abs / SCALE_FACTOR), PadStart(Digits(abs % SCALE_FACTOR), SCALE);
    FractionDigits(abs % SCALE_FACTOR);
    hide Digits, PadStart, FixedParts, Assemble, ToStroops, RemoveCommas, AllDigits, Padded, ParseNat, PriceFraction;
    hide Magnitude;
    FixedPartsAre(stroops);
    PriceFractionKeeps(frac, decimals);
    var kept := PriceFraction(frac, decimals);
    AssembledParses(stroops < 0, whole, kept);
    SameMagnitude(stroops, Decimal(stroops < 0, whole, kept), frac);
  }

  /** A signed magnitude with the right whole part is the stroop count exactly when its fraction is. */
  lemma SameMagnitude(stroops: int, d: Decimal, frac: string)
    requires AllDigits(d.whole) && AllDigits(d.frac) && AllDigits(frac) && |frac| == SCALE
    requires d.negative == (stroops < 0) && ParseNat(d.whole) == Abs(stroops) / SCALE_FACTOR
    requires ParseNat(frac) == Abs(stroops) % SCALE_FACTOR
    ensures var magnitude: int := Magnitude(d);
            (if d.negative then -magnitude else magnitude) == stroops <==> Padded(d.frac) == frac
  {
    hide AllDigits, Padded, ParseNat;
    if ParseNat(Padded(d.frac)) == ParseNat(frac) { SameValueSameDigits(Padded(d.frac), frac); }
  }

  /** With at least seven decimals the price is the display. */
  lemma PriceIsDisplay(stroops: int, decimals: nat)
    requires decimals >= SCALE
    ensures PriceNumber(stroops, decimals) == Display(stroops, 2)
  {
    var abs := Abs(stroops);
    var whole, frac := Digits(abs / SCALE_FACTOR), PadStart(Digits(abs % SCALE_FACTOR), SCALE);
    FractionDigits(abs % SCALE_FACTOR);
    hide Digits, PadStart, FixedParts, Assemble, Written, Group, AllDigits, StripZeros;
    FixedPartsAre(stroops);
    AssembleIsWritten(stroops < 0, whole, Trimmed(frac, 2));
  }

  lemma FormatAmountParses(amount: string, minDecimals: int)
    requires ToStroops(amount).Some?
    ensures ToStroops(RemoveCommas(FormatAmount(amount, minDecimals))) == ToStroops(amount)
  {
    hide FormatAmount, ToStroops, RemoveCommas, Display;
    FormatAmountIsDisplay(amount, minDecimals);
    DisplayParses(ToStroops(amount).value, minDecimals);
  }

  /** The two packages show one number: the SDK's prices of a stroop count, for every token of at least
      seven decimals, are the dashboard's amount of the decimal the indexer stores for it. */
  lemma FormattersAgree(input: string, token: Token)
    requires ParseCount(input).Some? && Decimals(token) >= SCALE
    ensures var n := ParseCount(input).value;
            FormatPriceCompact(input) == FormatAmount(StroopsToDecimal(n), 2) &&
            FormatPrice(input, token) == FormatAmount(StroopsToDecimal(n), 2) + " " + token.symbol &&
            ToStroops(RemoveCommas(FormatPriceCompact(input))) == Some(n)
  {
    var n := ParseCount(input).value;
    hide FormatAmount, FormatPriceCompact, PriceNumber, ToStroops, RemoveCommas, Display, ParseCount, StroopsToDecimal,
         FromStroops;
    ParsePrinted(n);
    FormatAmountIsDisplay(StroopsToDecimal(n), 2);
    CompactIsDisplay(input);
    PriceIsDisplay(n, Decimals(token));
    DisplayParses(n, 2);
  }
}
