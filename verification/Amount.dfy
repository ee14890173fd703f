/** Token amounts as operators write them, and as the chain holds them: integers of the
    smallest unit, of which a token has ten to the eighteenth. */
module Amount {
  import opened Outcomes

  const DECIMALS: nat := 18

  function Pow10(k: nat): (p: nat)
    ensures 0 < p
  {
    if k == 0 then 1 else 10 * Pow10(k - 1)
  }

  /** One token, in smallest units. */
  function Unit(): (p: nat)
    ensures 0 < p
  {
    Pow10(DECIMALS)
  }

  // ---------- text ----------

  /** White space as Unicode defines it. */
  predicate IsSpace(c: char) {
    var code := c as int;
    || 9 <= code <= 13 || code == 0x20 || code == 0x85 || code == 0xA0 || code == 0x1680
    || 0x2000 <= code <= 0x200a || code == 0x2028 || code == 0x2029 || code == 0x202f
    || code == 0x205f || code == 0x3000
  }

  function TrimLeft(s: string): string {
    if s != "" && IsSpace(s[0]) then TrimLeft(s[1..]) else s
  }

  function TrimRight(s: string, drop: char -> bool): (t: string)
    ensures t <= s
    ensures t == "" || !drop(t[|t| - 1])
  {
    if s != "" && drop(s[|s| - 1]) then TrimRight(s[..|s| - 1], drop) else s
  }

  function TrimSpace(s: string): string {
    TrimRight(TrimLeft(s), IsSpace)
  }

  /** The text before and after the first point, and whether there is one. */
  function Cut(s: string): (string, string, bool) {
    if s == "" then ("", "", false)
    else if s[0] == '.' then ("", s[1..], true)
    else
      var (before, after, found) := Cut(s[1..]);
      ([s[0]] + before, after, found)
  }

  predicate IsDigit(c: char) {
    '0' <= c <= '9'
  }

  predicate Digits(s: string) {
    forall i | 0 <= i < |s| :: IsDigit(s[i])
  }

  function Value(c: char): nat
    requires IsDigit(c)
  {
    c as nat - '0' as nat
  }

  function Nat(s: string): nat
    requires Digits(s)
  {
    if s == "" then 0 else Nat(s[..|s| - 1]) * 10 + Value(s[|s| - 1])
  }

  function Zeros(k: nat): (s: string)
    ensures |s| == k && Digits(s)
    ensures forall i | 0 <= i < k :: s[i] == '0'
  {
    seq(k, i => '0')
  }

  /** big.Int's reading of a base-ten integer: a sign or none, and at least one digit. */
  function SetString(s: string): Option<int> {
    var signed := s != "" && (s[0] == '+' || s[0] == '-');
    var digits := if signed then s[1..] else s;
    if digits == "" || !Digits(digits) then None
    else if signed && s[0] == '-' then var n: int := Nat(digits); Some(-n)
    else Some(Nat(digits))
  }

  function Text(n: nat): (s: string)
    ensures s != "" && Digits(s)
  {
    var last := ['0' + (n % 10) as char];
    if n < 10 then last else Text(n / 10) + last
  }

  /** big.Int's own rendering. */
  function String(n: int): string {
    if n < 0 then "-" + Text(-n) else Text(n)
  }

  // ---------- parsing and formatting ----------

  datatype Parsed = Amount(value: int) | Empty | Negative | TooPrecise | NotDecimal

  function ParseParts(whole: string, frac: string): Parsed {
    if DECIMALS < |frac| then TooPrecise
    else
      var integer := if whole == "" then "0" else whole;
      var value := SetString(integer + frac + Zeros(DECIMALS - |frac|));
      if value.None? then NotDecimal else Amount(value.value)
  }

  function ParseUSDFC(amount: string): Parsed {
    var trimmed := TrimSpace(amount);
    if trimmed == "" then Empty
    else if trimmed[0] == '-' then Negative
    else
      var (whole, frac, _) := Cut(trimmed);
      ParseParts(whole, frac)
  }

  /** Division as Go's QuoRem does it: toward zero, the remainder with the dividend's sign. */
  function Quo(n: int, d: nat): int
    requires 0 < d
  {
    if n < 0 then -(-n / d) else n / d
  }

  function Rem(n: int, d: nat): int
    requires 0 < d
  {
    n - Quo(n, d) * d
  }

  function PadLeft(s: string, width: nat): string {
    if |s| < width then Zeros(width - |s|) + s else s
  }

  predicate IsZero(c: char) {
    c == '0'
  }

  /** The whole tokens, and the fraction's places without the zeros that end it. */
  function RenderParts(whole: int, frac: int): string {
    if frac == 0 then String(whole)
    else String(whole) + "." + TrimRight(PadLeft(String(frac), DECIMALS), IsZero)
  }

  function FormatUSDFC(value: Option<int>): string {
    match value
    case None => "0"
    case Some(n) => RenderParts(Quo(n, Unit()), Rem(n, Unit()))
  }

  // ---------- cutting ----------

  lemma {:induction false} CutParts(s: string)
    ensures var (before, after, found) := Cut(s);
      && '.' !in before
      && s == before + (if found then "." else "") + after
      && (!found ==> after == "")
  {
    if s != "" && s[0] != '.' {
      CutParts(s[1..]);
      var (before, after, found) := Cut(s[1..]);
      assert s == [s[0]] + s[1..];
      assert [s[0]] + (before + (if found then "." else "") + after)
        == [s[0]] + before + (if found then "." else "") + after;
    }
  }

  lemma {:induction false} CutAt(before: string, found: bool, after: string)
    requires '.' !in before && (!found ==> after == "")
    ensures Cut(before + (if found then "." else "") + after) == (before, after, found)
  {
    var s := before + (if found then "." else "") + after;
    if before != "" {
      assert s[1..] == before[1..] + (if found then "." else "") + after;
      CutAt(before[1..], found, after);
      assert '.' !in before ==> before[0] != '.';
      assert before == [before[0]] + before[1..];
    } else if found {
      assert s[1..] == after;
    }
  }

  // ---------- digits ----------

  lemma DigitsConcat(a: string, b: string)
    requires Digits(a) && Digits(b)
    ensures Digits(a + b)
  {
  }

  /** The place of a digit that follows. */
  lemma OneMorePlace(n: nat, p: nat, m: nat, v: nat)
    ensures (n * p + m) * 10 + v == n * (10 * p) + (m * 10 + v)
  {
  }

  lemma {:induction false} NatConcat(a: string, b: string)
    requires Digits(a) && Digits(b)
    ensures Digits(a + b) && Nat(a + b) == Nat(a) * Pow10(|b|) + Nat(b)
  {
    DigitsConcat(a, b);
    if b == "" {
      assert a + b == a;
    } else {
      var rest, last := b[..|b| - 1], b[|b| - 1];
      NatConcat(a, rest);
      assert (a + b)[..|a + b| - 1] == a + rest && (a + b)[|a + b| - 1] == last;
      assert Nat(a + b) == Nat(a + rest) * 10 + Value(last);
      assert Nat(b) == Nat(rest) * 10 + Value(last) && Pow10(|b|) == 10 * Pow10(|rest|);
      hide Nat, Pow10, Value, Digits;
      OneMorePlace(Nat(a), Pow10(|rest|), Nat(rest), Value(last));
    }
  }

  lemma {:induction false} NatZeros(k: nat)
    ensures Nat(Zeros(k)) == 0
  {
    if k != 0 {
      assert Zeros(k)[..k - 1] == Zeros(k - 1);
      NatZeros(k - 1);
    }
  }

  lemma {:induction false} NatText(n: nat)
    ensures Nat(Text(n)) == n
    ensures Text(n)[0] == '0' <==> n == 0
  {
    var last := ['0' + (n % 10) as char];
    if n < 10 {
      assert last[..0] == "";
    } else {
      NatText(n / 10);
      assert Text(n)[..|Text(n)| - 1] == Text(n / 10);
    }
  }

  lemma {:induction false} TextLength(n: nat, k: nat)
    requires n < Pow10(k) && 0 < k
    ensures |Text(n)| <= k
  {
    if 10 <= n {
      assert Pow10(k) == 10 * Pow10(k - 1);
      assert k - 1 != 0;
      TextLength(n / 10, k - 1);
    }
  }

  // ---------- what a text denotes ----------

  /** How an amount is written: a plus or none, digits, and a point with at most eighteen
      more digits or none of that. */
  predicate Written(t: string, plus: bool, whole: string, point: bool, frac: string) {
    && t == (if plus then "+" else "") + whole + (if point then "." else "") + frac
    && Digits(whole) && Digits(frac) && |frac| <= DECIMALS && (!point ==> frac == "")
  }

  /** The amount in smallest units: exact, as at most eighteen places are written. */
  function Units(whole: string, frac: string): int
    requires Digits(whole) && Digits(frac) && |frac| <= DECIMALS
  {
    Nat(whole) * Unit() + Nat(frac) * Pow10(DECIMALS - |frac|)
  }

  ghost predicate Denotes(t: string, n: int) {
    t != "" && exists plus, whole, point, frac :: Written(t, plus, whole, point, frac) && n == Units(whole, frac)
  }

  lemma PaddedUnits(whole: string, frac: string)
    requires Digits(whole) && Digits(frac) && |frac| <= DECIMALS
    ensures var all := whole + frac + Zeros(DECIMALS - |frac|); Digits(all) && Nat(all) == Units(whole, frac)
  {
    var zeros := Zeros(DECIMALS - |frac|);
    NatConcat(frac, zeros);
    NatZeros(|zeros|);
    NatConcat(whole, frac + zeros);
    assert whole + frac + zeros == whole + (frac + zeros);
  }

  lemma SetStringOfDigits(digits: string)
    requires Digits(digits) && digits != ""
    ensures SetString(digits) == Some(Nat(digits)) == SetString("+" + digits)
  {
    assert IsDigit(digits[0]);
    assert ("+" + digits)[1..] == digits;
  }

  lemma PartsParse(plus: bool, whole: string, frac: string)
    requires Digits(whole) && Digits(frac) && |frac| <= DECIMALS
    ensures ParseParts((if plus then "+" else "") + whole, frac) == Amount(Units(whole, frac))
  {
    var zeros := Zeros(DECIMALS - |frac|);
    var text := whole + frac + zeros;
    assert |text| >= DECIMALS;
    PaddedUnits(whole, frac);
    SetStringOfDigits(text);
    if plus {
      assert ("+" + whole) + frac + zeros == "+" + text;
    } else if whole == "" {
      PaddedUnits("0", frac);
      assert "0"[..0] == "" && Nat("0") == 0 == Nat("");
      assert Units("0", frac) == Units("", frac);
      SetStringOfDigits("0" + frac + zeros);
      assert "" + whole == "";
    } else {
      assert "" + whole == whole;
    }
  }

  lemma PartsWereDigits(before: string, frac: string)
    requires ParseParts(before, frac).Amount? && (before == "" || before[0] != '-')
    ensures |frac| <= DECIMALS && Digits(frac)
    ensures Digits(before) || (before != "" && before[0] == '+' && Digits(before[1..]))
  {
    var zeros := Zeros(DECIMALS - |frac|);
    if before == "" {
      DigitsOfParts("0", frac, zeros);
    } else {
      var text := before + frac + zeros;
      assert text[0] == before[0];
      assert text[1..] == before[1..] + frac + zeros;
      if before[0] == '+' {
        DigitsOfParts(before[1..], frac, zeros);
      } else {
        DigitsOfParts(before, frac, zeros);
      }
    }
  }

  /** What parsing makes of a text written as an amount. */
  lemma WrittenParses(amount: string, plus: bool, whole: string, point: bool, frac: string)
    requires TrimSpace(amount) != "" && Written(TrimSpace(amount), plus, whole, point, frac)
    ensures ParseUSDFC(amount) == Amount(Units(whole, frac))
  {
    hide TrimSpace, ParseParts, Units;
    var before := (if plus then "+" else "") + whole;
    assert '.' !in before && '-' !in before;
    CutAt(before, point, frac);
    PartsParse(plus, whole, frac);
    var t := TrimSpace(amount);
    assert t == before + (if point then "." else "") + frac;
    assert t[0] == if before != "" then before[0] else '.';
  }

  /** What was parsed was written as an amount. */
  lemma ParsedWasWritten(amount: string)
    requires ParseUSDFC(amount).Amount?
    ensures exists plus, whole, point, frac :: Written(TrimSpace(amount), plus, whole, point, frac)
  {
    hide TrimSpace, ParseParts;
    var t := TrimSpace(amount);
    var (before, frac, point) := Cut(t);
    CutParts(t);
    assert before != "" ==> before[0] == t[0];
    PartsWereDigits(before, frac);
    if Digits(before) {
      assert Written(t, false, before, point, frac);
    } else {
      assert before == "+" + before[1..];
      assert Written(t, true, before[1..], point, frac);
    }
  }

  lemma DigitsOfParts(a: string, b: string, c: string)
    requires Digits(a + b + c)
    ensures Digits(a) && Digits(b)
  {
    forall i | 0 <= i < |a| ensures IsDigit(a[i]) {
      assert (a + b + c)[i] == a[i];
    }
    forall i | 0 <= i < |b| ensures IsDigit(b[i]) {
      assert (a + b + c)[|a| + i] == b[i];
    }
  }

  /** Parsing is exact on everything it accepts, and accepts exactly what is written as an
      amount: digits and point may all be left out, as long as something is left. */
  lemma ParseIsExact(amount: string, n: int)
    ensures ParseUSDFC(amount) == Amount(n) <==> Denotes(TrimSpace(amount), n)
  {
    var t := TrimSpace(amount);
    if ParseUSDFC(amount) == Amount(n) {
      ParsedWasWritten(amount);
      var plus, whole, point, frac :| Written(t, plus, whole, point, frac);
      WrittenParses(amount, plus, whole, point, frac);
    }
    if Denotes(t, n) {
      var plus, whole, point, frac :| Written(t, plus, whole, point, frac) && n == Units(whole, frac);
      WrittenParses(amount, plus, whole, point, frac);
    }
  }

  /** A lone sign, a lone point, and the two together are taken for nothing. */
  lemma LoneSignsAreZero(amount: string)
    requires TrimSpace(amount) in {"+", ".", "+."}
    ensures ParseUSDFC(amount) == Amount(0)
  {
    var t := TrimSpace(amount);
    assert Written(t, t[0] == '+', "", t != "+", "");
    WrittenParses(amount, t[0] == '+', "", t != "+", "");
  }

  predicate HasDigit(s: string) {
    exists i | 0 <= i < |s| :: IsDigit(s[i])
  }

  /** Of the texts without a digit those three are accepted, spaces around them aside, and
      no other. */
  lemma DigitlessExactlyWhen(amount: string)
    requires !HasDigit(TrimSpace(amount))
    ensures ParseUSDFC(amount).Amount? <==> TrimSpace(amount) in {"+", ".", "+."}
  {
    var t := TrimSpace(amount);
    hide TrimSpace, ParseUSDFC;
    if t in {"+", ".", "+."} {
      LoneSignsAreZero(amount);
    } else if ParseUSDFC(amount).Amount? {
      var n := ParseUSDFC(amount).value;
      ParseIsExact(amount, n);
      var plus, whole, point, frac :| Written(t, plus, whole, point, frac) && n == Units(whole, frac);
      DigitlessWritten(t, plus, whole, point, frac);
    }
  }

  lemma WrittenHasDigit(t: string, plus: bool, whole: string, point: bool, frac: string)
    requires Written(t, plus, whole, point, frac)
    ensures whole + frac != "" ==> HasDigit(t)
  {
    var front := |if plus then "+" else ""|;
    var middle := |if point then "." else ""|;
    if whole != "" {
      assert t[front] == whole[0];
    } else if frac != "" {
      assert t[front + middle] == frac[0];
    }
  }

  lemma DigitlessWritten(t: string, plus: bool, whole: string, point: bool, frac: string)
    requires t != "" && Written(t, plus, whole, point, frac) && !HasDigit(t)
    ensures t in {"+", ".", "+."}
  {
    WrittenHasDigit(t, plus, whole, point, frac);
    var front := if plus then "+" else "";
    var middle := if point then "." else "";
    assert t == front + middle;
    assert front + "" == front && "" + middle == middle && "+" + "." == "+.";
  }

  // ---------- formatting and parsing back ----------

  lemma TrimKeeps(t: string)
    requires t != "" && !IsSpace(t[0]) && !IsSpace(t[|t| - 1])
    ensures TrimSpace(t) == t
  {
  }

  lemma {:induction false} TrimmedZeros(s: string)
    ensures var t := TrimRight(s, IsZero); s == t + Zeros(|s| - |t|)
  {
    if s != "" && IsZero(s[|s| - 1]) {
      TrimmedZeros(s[..|s| - 1]);
      assert s == s[..|s| - 1] + ['0'];
    }
  }

  lemma PaddedText(r: nat, k: nat)
    requires r < Pow10(k) && 0 < k
    ensures var s := PadLeft(Text(r), k); |s| == k && Digits(s) && Nat(s) == r
  {
    hide Pow10, Text;
    TextLength(r, k);
    NatText(r);
    var zeros := Zeros(k - |Text(r)|);
    NatZeros(|zeros|);
    NatConcat(zeros, Text(r));
    assert zeros == "" ==> zeros + Text(r) == Text(r);
  }

  /** The fraction as it is printed: what it is worth, and its last digit. */
  lemma FractionText(r: nat, k: nat)
    requires 0 < r < Pow10(k) && 0 < k
    ensures var frac := TrimRight(PadLeft(Text(r), k), IsZero);
      && 0 < |frac| <= k && Digits(frac) && frac[|frac| - 1] != '0'
      && Nat(frac) * Pow10(k - |frac|) == r
  {
    hide Pow10, Text, PadLeft;
    PaddedText(r, k);
    var padded := PadLeft(Text(r), k);
    var frac := TrimRight(padded, IsZero);
    TrimmedZeros(padded);
    NatConcat(frac, Zeros(k - |frac|));
    NatZeros(k - |frac|);
    assert Nat("") == 0;
  }

  /** The text that stands for a value: no sign, no needless zero at either end, and a point
      only before a fraction. */
  predicate Canonical(t: string, whole: string, frac: string) {
    && Written(t, false, whole, frac != "", frac)
    && whole != "" && (whole[0] == '0' ==> whole == "0")
    && (frac != "" ==> frac[|frac| - 1] != '0')
  }

  ghost predicate CanonicalFor(t: string, n: int) {
    exists whole, frac :: Canonical(t, whole, frac) && n == Units(whole, frac)
  }

  lemma ZeroText()
    ensures Text(0) == "0"
  {
  }

  lemma WholeIsCanonical(q: nat)
    ensures CanonicalFor(RenderParts(q, 0), q * Unit())
  {
    hide Unit, Text;
    NatText(q);
    ZeroText();
    var whole := Text(q);
    assert "" + whole + "" + "" == whole;
    assert Nat("") == 0;
    assert Canonical(whole, whole, "");
  }

  lemma FractionIsCanonical(q: nat, r: nat)
    requires 0 < r < Unit()
    ensures CanonicalFor(RenderParts(q, r), q * Unit() + r)
  {
    hide Text, Unit, TrimRight, PadLeft, Pow10, Nat;
    UnitIs();
    FractionText(r, DECIMALS);
    NatText(q);
    ZeroText();
    var whole, frac := Text(q), TrimRight(PadLeft(Text(r), DECIMALS), IsZero);
    assert "" + whole + "." + frac == whole + "." + frac;
    assert Canonical(RenderParts(q, r), whole, frac);
  }

  lemma Divided(n: nat, d: nat)
    requires 0 < d
    ensures Quo(n, d) == n / d && Rem(n, d) == n % d && n == n / d * d + n % d
  {
  }

  lemma FormatIsCanonical(n: nat)
    ensures CanonicalFor(FormatUSDFC(Some(n)), n)
  {
    hide RenderParts, Unit, Quo, Rem, CanonicalFor;
    Divided(n, Unit());
    if n % Unit() == 0 {
      WholeIsCanonical(n / Unit());
    } else {
      FractionIsCanonical(n / Unit(), n % Unit());
    }
  }

  lemma CanonicalParses(t: string, n: int)
    requires CanonicalFor(t, n)
    ensures TrimSpace(t) == t && ParseUSDFC(t) == Amount(n)
  {
    hide TrimSpace, ParseUSDFC, Units;
    var whole, frac :| Canonical(t, whole, frac) && n == Units(whole, frac);
    assert t[0] == whole[0] && IsDigit(whole[0]);
    assert t[|t| - 1] == if frac == "" then whole[|whole| - 1] else frac[|frac| - 1];
    TrimKeeps(t);
    WrittenParses(t, false, whole, frac != "", frac);
  }

  predicate Signed(s: string) {
    s != "" && forall i | 0 <= i < |s| :: IsDigit(s[i]) || s[i] == '-'
  }

  lemma NegativeFraction(r: int)
    requires r < 0
    ensures var frac := TrimRight(PadLeft(String(r), DECIMALS), IsZero); Signed(frac) && '-' in frac
  {
    var padded := PadLeft(String(r), DECIMALS);
    assert padded[|padded| - |String(r)|] == '-';
    assert Signed(padded);
    TrimmedZeros(padded);
  }

  lemma Division(n: int, d: nat)
    requires n < 0 < d
    ensures Quo(n, d) == -(-n / d) && Rem(n, d) == -(-n % d)
  {
    assert -n == -n / d * d + -n % d;
  }

  lemma WrittenHasNoMinus(t: string, plus: bool, whole: string, point: bool, frac: string)
    requires Written(t, plus, whole, point, frac)
    ensures '-' !in t
  {
  }

  lemma ParsedHasNoMinus(amount: string)
    requires ParseUSDFC(amount).Amount?
    ensures '-' !in TrimSpace(amount)
  {
    ParsedWasWritten(amount);
    hide ParseUSDFC, TrimSpace;
    var plus, whole, point, frac :| Written(TrimSpace(amount), plus, whole, point, frac);
    WrittenHasNoMinus(TrimSpace(amount), plus, whole, point, frac);
  }

  /** A negative value is printed with a minus in front, or behind the point, or both. */
  lemma NegativeHasMinus(n: int)
    requires n < 0
    ensures var t := FormatUSDFC(Some(n)); '-' in t && !IsSpace(t[0]) && !IsSpace(t[|t| - 1])
  {
    var d := Unit();
    Division(n, d);
    assert -n == -n / d * d + -n % d;
    var whole, frac := String(Quo(n, d)), Rem(n, d);
    var t := FormatUSDFC(Some(n));
    assert Signed(whole);
    if frac == 0 {
      assert t == whole && whole[0] == '-';
    } else {
      NegativeFraction(frac);
      var f := TrimRight(PadLeft(String(frac), DECIMALS), IsZero);
      assert t == whole + "." + f;
      hide FormatUSDFC, String, PadLeft, TrimRight, Quo, Rem, Unit;
      PointedHasMinus(whole, f);
    }
  }

  lemma PointedHasMinus(whole: string, frac: string)
    requires Signed(whole) && Signed(frac) && '-' in frac
    ensures var t := whole + "." + frac; '-' in t && !IsSpace(t[0]) && !IsSpace(t[|t| - 1])
  {
    var t := whole + "." + frac;
    assert t[0] == whole[0] && t[|t| - 1] == frac[|frac| - 1];
    var i :| 0 <= i < |frac| && frac[i] == '-';
    assert t[|whole| + 1 + i] == '-';
  }

  lemma NegativeDoesNotParse(n: int)
    requires n < 0
    ensures !ParseUSDFC(FormatUSDFC(Some(n))).Amount?
  {
    NegativeHasMinus(n);
    hide FormatUSDFC, ParseUSDFC;
    var t := FormatUSDFC(Some(n));
    TrimKeeps(t);
    if ParseUSDFC(t).Amount? {
      ParsedHasNoMinus(t);
    }
  }

  /** Every amount comes back from its text; and nothing else does. */
  lemma FormatRoundTrips(n: int)
    ensures ParseUSDFC(FormatUSDFC(Some(n))) == Amount(n) <==> 0 <= n
  {
    hide *;
    if 0 <= n {
      FormatIsCanonical(n);
      CanonicalParses(FormatUSDFC(Some(n)), n);
    } else {
      NegativeDoesNotParse(n);
    }
  }

  // ---------- one text for each value ----------

  lemma {:induction false} NatBound(s: string)
    requires Digits(s)
    ensures Nat(s) < Pow10(|s|)
  {
    if s != "" {
      NatBound(s[..|s| - 1]);
    }
  }

  lemma {:induction false} NatInjective(a: string, b: string)
    requires Digits(a) && Digits(b) && |a| == |b| && Nat(a) == Nat(b)
    ensures a == b
  {
    if a != "" {
      var last := |a| - 1;
      assert Value(a[last]) == Nat(a) % 10 == Value(b[last]);
      NatInjective(a[..last], b[..last]);
      assert a == a[..last] + [a[last]] && b == b[..last] + [b[last]];
    }
  }

  lemma {:induction false} WholeText(w: string)
    requires Digits(w) && w != "" && (w[0] == '0' ==> w == "0")
    ensures w == Text(Nat(w))
  {
    var last := |w| - 1;
    if last != 0 {
      var rest := w[..last];
      assert rest[0] == w[0];
      WholeText(rest);
      NatText(Nat(rest));
      assert w == rest + [w[last]];
      assert Nat(w) == Nat(rest) * 10 + Value(w[last]) && Nat(w) / 10 == Nat(rest);
    } else {
      assert w[..0] == "" && w == [w[0]];
      assert Nat(w) == Value(w[0]);
    }
  }

  lemma {:induction false} TrimBack(f: string, k: nat)
    requires f == "" || f[|f| - 1] != '0'
    ensures TrimRight(f + Zeros(k), IsZero) == f
  {
    if k != 0 {
      assert (f + Zeros(k))[..|f| + k - 1] == f + Zeros(k - 1);
      TrimBack(f, k - 1);
    } else {
      assert f + Zeros(0) == f;
    }
  }

  lemma SamePlaces(a: string, b: string, k: nat)
    requires Digits(a) && Digits(b) && |a| <= k && |b| <= k
    requires Nat(a) * Pow10(k - |a|) == Nat(b) * Pow10(k - |b|)
    requires (a == "" || a[|a| - 1] != '0') && (b == "" || b[|b| - 1] != '0')
    ensures a == b
  {
    hide Pow10, Nat;
    var x, y := Zeros(k - |a|), Zeros(k - |b|);
    NatConcat(a, x);
    NatConcat(b, y);
    NatZeros(|x|);
    NatZeros(|y|);
    NatInjective(a + x, b + y);
    TrimBack(a, |x|);
    TrimBack(b, |y|);
  }

  /** A fraction is less than a token. */
  lemma PlacesBound(f: string, k: nat)
    requires Digits(f) && |f| <= k
    ensures 0 <= Nat(f) * Pow10(k - |f|) < Pow10(k)
  {
    hide Nat;
    var zeros := Zeros(k - |f|);
    NatConcat(f, zeros);
    NatZeros(|zeros|);
    NatBound(f + zeros);
  }

  lemma SameQuotient(a: nat, x: nat, b: nat, y: nat, d: nat)
    requires x < d && y < d && a * d + x == b * d + y
    ensures a == b && x == y
  {
    assert (a - b) * d == y - x;
    OnlyZero(a - b, d);
  }

  lemma OnlyZero(c: int, d: int)
    requires -d < c * d < d
    ensures c == 0
  {
  }

  lemma SameUnitsSameText(s: string, w: string, f: string, t: string, v: string, g: string)
    requires Canonical(s, w, f) && Canonical(t, v, g) && Units(w, f) == Units(v, g)
    ensures s == t
  {
    hide Unit;
    PlacesBound(f, DECIMALS);
    PlacesBound(g, DECIMALS);
    UnitIs();
    SameQuotient(Nat(w), Nat(f) * Pow10(DECIMALS - |f|), Nat(v), Nat(g) * Pow10(DECIMALS - |g|), Unit());
    WholeText(w);
    WholeText(v);
    SamePlaces(f, g, DECIMALS);
  }

  lemma UnitIs()
    ensures Unit() == Pow10(DECIMALS)
  {
  }

  lemma UnitsNotNegative(whole: string, frac: string)
    requires Digits(whole) && Digits(frac) && |frac| <= DECIMALS
    ensures 0 <= Units(whole, frac)
  {
    hide Unit, Pow10, Nat;
    PlacesBound(frac, DECIMALS);
    NotNegative(Nat(whole), Unit());
  }

  lemma NotNegative(a: nat, b: nat)
    ensures a * b >= 0
  {
  }

  /** Formatting gives each value its one canonical text: the only one without a sign, a
      needless zero, or a point that nothing follows. */
  lemma FormatIsTheCanonicalText(t: string, n: int)
    ensures CanonicalFor(t, n) <==> 0 <= n && t == FormatUSDFC(Some(n))
  {
    hide FormatUSDFC, Units;
    if 0 <= n {
      FormatIsCanonical(n);
    }
    if CanonicalFor(t, n) {
      var whole, frac :| Canonical(t, whole, frac) && n == Units(whole, frac);
      UnitsNotNegative(whole, frac);
      var v, g :| Canonical(FormatUSDFC(Some(n)), v, g) && n == Units(v, g);
      SameUnitsSameText(t, whole, frac, FormatUSDFC(Some(n)), v, g);
    }
  }
}
