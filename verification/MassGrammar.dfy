/** The mass arguments of chat commands: `parse_mass_argument` in
  * `domain/economy.py`.
  *
  * A parsed mass is a whole number of 0.01 kg. Decimal amounts are exact
  * fractions of a digit string and a power of ten.
  */
module MassGrammar {
  import opened Options
  import opened Text

  const MAX_MASS := 999_999_999_999_999_999

  datatype Unit = NoUnit | Kg | T | Kt | Mt | Gt
  datatype Argument = All | Exact(unit: Unit, mass: nat)
  datatype Result = Ok(argument: Argument) | InvalidMass

  function Suffix(unit: Unit): string
  {
    match unit
    case NoUnit => "" case Kg => "kg" case T => "t" case Kt => "kt" case Mt => "mt" case Gt => "gt"
  }

  /** The multiplier to kilograms is this power of ten. */
  function Exponent(unit: Unit): nat
  {
    match unit
    case NoUnit => 0 case Kg => 0 case T => 3 case Kt => 6 case Mt => 9 case Gt => 12
  }

  /** The decimal places a mass in this unit may have. */
  function Places(unit: Unit): nat { Exponent(unit) + 2 }

  function Pow10(n: nat): (p: nat)
    ensures p > 0
  {
    if n == 0 then 1 else 10 * Pow10(n - 1)
  }

  function Normalize(s: string): string { LowerAll(Strip(s)) }

  // ---- the pattern ---------------------------------------------------------

  predicate IsDigit(c: char) { '0' <= c <= '9' }

  predicate AllDigits(s: string) { forall i :: 0 <= i < |s| ==> IsDigit(s[i]) }

  /** A number with a whole part, a fraction, or both. */
  datatype Amount = Amount(whole: string, fraction: string)

  predicate WellFormed(a: Amount)
  {
    AllDigits(a.whole) && AllDigits(a.fraction) && (a.whole != "" || a.fraction != "")
  }

  function Spelling(a: Amount): string
  {
    a.whole + Dotted(a.fraction)
  }

  /** The regular expression as a relation: the whole text is an amount followed
    * by at most one unit.
    */
  predicate FullMatch(s: string, a: Amount, unit: Unit)
  {
    WellFormed(a) && s == Spelling(a) + Suffix(unit)
  }

  function LeadingDigits(s: string): (n: nat)
    ensures n <= |s| && (forall i :: 0 <= i < n ==> IsDigit(s[i])) && (n < |s| ==> !IsDigit(s[n]))
  {
    if s == [] || !IsDigit(s[0]) then 0 else
    var rest := LeadingDigits(s[1..]);
    assert forall i :: 0 < i < rest + 1 ==> s[i] == s[1..][i - 1];
    rest + 1
  }

  lemma LeadingDigitsAre(digits: string, rest: string)
    requires AllDigits(digits) && (rest != "" ==> !IsDigit(rest[0]))
    ensures LeadingDigits(digits + rest) == |digits|
  {
    var s := digits + rest;
    var n := LeadingDigits(s);
    assert forall i :: 0 <= i < |digits| ==> s[i] == digits[i];
    assert rest != "" ==> s[|digits|] == rest[0];
  }

  function UnitOf(s: string): Option<Unit>
  {
    if s == "" then Some(NoUnit) else if s == "kg" then Some(Kg) else if s == "t" then Some(T)
    else if s == "kt" then Some(Kt) else if s == "mt" then Some(Mt) else if s == "gt" then Some(Gt) else None
  }

  lemma UnitOfSuffix(s: string, unit: Unit)
    ensures UnitOf(s) == Some(unit) <==> s == Suffix(unit)
    ensures s == Suffix(unit) && s != "" ==> !IsDigit(s[0]) && s[0] != '.'
  {
  }

  function Dotted(fraction: string): string { if fraction == "" then "" else "." + fraction }

  function FractionOf(rest: string): (fraction: string)
    ensures AllDigits(fraction) && |Dotted(fraction)| <= |rest| && rest[..|Dotted(fraction)|] == Dotted(fraction)
  {
    if rest != "" && rest[0] == '.' then rest[1..][..LeadingDigits(rest[1..])] else ""
  }

  /** One scan from the left. */
  function Scan(s: string): Option<(Amount, Unit)>
  {
    var whole := s[..LeadingDigits(s)];
    var rest := s[|whole|..];
    var fraction := FractionOf(rest);
    if whole == "" && fraction == "" then None else
    match UnitOf(rest[|Dotted(fraction)|..])
    case None => None
    case Some(unit) => Some((Amount(whole, fraction), unit))
  }

  lemma FractionIs(fraction: string, unit: Unit)
    requires AllDigits(fraction)
    ensures FractionOf(Dotted(fraction) + Suffix(unit)) == fraction
  {
    UnitOfSuffix(Suffix(unit), unit);
    if fraction != "" {
      assert (Dotted(fraction) + Suffix(unit))[1..] == fraction + Suffix(unit);
      LeadingDigitsAre(fraction, Suffix(unit));
    }
  }

  /** The scan finds the match exactly when the text has one, and a text has at
    * most one.
    */
  lemma ScanIsFullMatch(s: string, a: Amount, unit: Unit)
    ensures FullMatch(s, a, unit) <==> Scan(s) == Some((a, unit))
  {
    if FullMatch(s, a, unit) {
      MatchIsScanned(a, unit);
    }
    if Scan(s) == Some((a, unit)) {
      ScannedMatches(s);
    }
  }

  lemma MatchIsScanned(a: Amount, unit: Unit)
    requires WellFormed(a)
    ensures Scan(Spelling(a) + Suffix(unit)) == Some((a, unit))
  {
    var rest := Dotted(a.fraction) + Suffix(unit);
    SumsAssociate(a.whole, Dotted(a.fraction), Suffix(unit));
    UnitOfSuffix(Suffix(unit), unit);
    LeadingDigitsAre(a.whole, rest);
    SplitsBack(a.whole, rest);
    FractionIs(a.fraction, unit);
    SplitsBack(Dotted(a.fraction), Suffix(unit));
  }

  lemma SplitsBack(a: string, b: string)
    ensures (a + b)[..|a|] == a && (a + b)[|a|..] == b
  {
  }

  lemma SumsAssociate(a: string, b: string, c: string)
    ensures a + (b + c) == (a + b) + c
  {
  }

  lemma Joins(s: string, n: nat)
    requires n <= |s|
    ensures s == s[..n] + s[n..]
  {
  }

  lemma ScannedMatches(s: string)
    requires Scan(s).Some?
    ensures FullMatch(s, Scan(s).value.0, Scan(s).value.1)
  {
    var (a, unit) := Scan(s).value;
    var rest := s[|a.whole|..];
    var tail := rest[|Dotted(a.fraction)|..];
    UnitOfSuffix(tail, unit);
    Joins(s, |a.whole|);
    Joins(rest, |Dotted(a.fraction)|);
    SumsAssociate(a.whole, Dotted(a.fraction), tail);
  }

  // ---- values --------------------------------------------------------------

  function Value(digits: string): nat
    requires AllDigits(digits)
  {
    if digits == "" then 0 else 10 * Value(digits[..|digits| - 1]) + (digits[|digits| - 1] - '0') as nat
  }

  lemma {:induction false} ValueOfSum(a: string, b: string)
    requires AllDigits(a) && AllDigits(b) && AllDigits(a + b)
    ensures Value(a + b) == Value(a) * Pow10(|b|) + Value(b)
    decreases |b|
  {
    if b == "" {
      assert a + b == a;
    } else {
      var init, last := b[..|b| - 1], b[|b| - 1];
      ValueOfSum(a, init);
      ValueByLast(init, last);
      ValueByLast(a + init, last);
      assert b == init + [last] && a + b == (a + init) + [last];
      Horner(Value(a), Pow10(|init|), Value(init), (last - '0') as nat);
    }
  }

  lemma ValueByLast(init: string, last: char)
    requires AllDigits(init) && AllDigits(init + [last]) && IsDigit(last)
    ensures Value(init + [last]) == 10 * Value(init) + (last - '0') as nat
  {
    assert (init + [last])[..|init|] == init;
  }

  lemma Horner(x: nat, p: nat, v: nat, d: nat)
    ensures 10 * (x * p + v) + d == x * (10 * p) + (10 * v + d)
  {
    TenTimes(x, p);
  }

  lemma TenTimes(x: nat, p: nat)
    ensures 10 * (x * p) == x * (10 * p)
  {
  }

  /** The amount is this number over Pow10(|fraction|). */
  function Numerator(a: Amount): nat
    requires WellFormed(a)
  {
    Value(a.whole + a.fraction)
  }

  /** `quantize`: to the nearest whole number, halves to the even one. */
  function HalfEven(n: nat, d: nat): nat
    requires d > 0
  {
    var q, r := n / d, n % d;
    if 2 * r < d || (2 * r == d && q % 2 == 0) then q else q + 1
  }

  predicate Nearest(q: nat, n: nat, d: nat)
  {
    2 * n - d <= 2 * (q * d) <= 2 * n + d && (2 * (q * d) == 2 * n - d || 2 * (q * d) == 2 * n + d ==> q % 2 == 0)
  }

  lemma NearestIsUnique(a: nat, b: nat, n: nat, d: nat)
    requires d > 0 && Nearest(a, n, d) && Nearest(b, n, d)
    ensures a == b
  {
    if a < b {
      Scaled(a, b, d);
    } else if b < a {
      Scaled(b, a, d);
    }
  }

  lemma Scaled(a: nat, b: nat, d: nat)
    requires a <= b
    ensures a * d <= b * d && (a < b ==> a * d + d <= b * d) && (a + 1 < b ==> a * d + 2 * d <= b * d)
  {
    var k := b - a;
    assert b * d == a * d + k * d;
    if k > 0 {
      assert k * d == d + (k - 1) * d;
      if k > 1 {
        assert (k - 1) * d == d + (k - 2) * d;
      }
    }
  }

  lemma HalfEvenIsNearest(n: nat, d: nat)
    requires d > 0
    ensures Nearest(HalfEven(n, d), n, d)
  {
    var q, r := n / d, n % d;
    assert n == q * d + r;
    assert (q + 1) * d == q * d + d;
  }

  /** Only the fraction matters, not how it is written. */
  lemma HalfEvenOfEqualFractions(n: nat, d: nat, n': nat, d': nat)
    requires d > 0 && d' > 0 && n * d' == n' * d
    ensures HalfEven(n, d) == HalfEven(n', d')
  {
    var q := HalfEven(n, d);
    HalfEvenIsNearest(n, d);
    HalfEvenIsNearest(n', d');
    NearestOfEqualFractions(q, n, d, n', d');
    NearestIsUnique(q, HalfEven(n', d'), n', d');
  }

  lemma NearestOfEqualFractions(q: nat, n: nat, d: nat, n': nat, d': nat)
    requires d > 0 && d' > 0 && n * d' == n' * d && Nearest(q, n, d)
    ensures Nearest(q, n', d')
  {
    Exchange(q, d, d');
    CrossMultiplied(q * d, n, d, q * d', n', d');
    CrossMultiplied(n, q * d, d, n', q * d', d');
    SameSign(2 * (q * d) - 2 * n + d, d', 2 * (q * d') - 2 * n' + d', d);
    SameSign(2 * n - 2 * (q * d) + d, d', 2 * n' - 2 * (q * d') + d', d);
  }

  lemma Exchange(q: int, d: int, d': int)
    ensures (q * d) * d' == (q * d') * d
  {
  }

  /** Equal fractions stay equal under the test for the nearest whole number. */
  lemma CrossMultiplied(a: int, n: int, d: int, a': int, n': int, d': int)
    requires a * d' == a' * d && n * d' == n' * d
    ensures (2 * a - 2 * n + d) * d' == (2 * a' - 2 * n' + d') * d
  {
    Distribute(a, n, d, d');
    Distribute(a', n', d', d);
  }

  lemma Distribute(a: int, n: int, d: int, m: int)
    ensures (2 * a - 2 * n + d) * m == 2 * (a * m) - 2 * (n * m) + d * m
  {
    Twice(a, m);
    Twice(n, m);
    SumTimes(2 * a - 2 * n, d, m);
    SumTimes(2 * a - 2 * n, 2 * n, m);
  }

  lemma SumTimes(a: int, b: int, m: int)
    ensures (a + b) * m == a * m + b * m
  {
  }

  lemma Twice(a: int, m: int)
    ensures (2 * a) * m == 2 * (a * m)
  {
  }

  lemma SameSign(x: int, d': nat, x': int, d: nat)
    requires d > 0 && d' > 0 && x * d' == x' * d
    ensures (x >= 0 <==> x' >= 0) && (x == 0 <==> x' == 0)
  {
    if x > 0 {
      assert x * d' > 0;
      assert x' <= 0 ==> x' * d <= 0;
    } else if x < 0 {
      assert x * d' < 0;
      assert x' >= 0 ==> x' * d >= 0;
    }
  }

  lemma ZeroProduct(x: nat, p: nat)
    requires p > 0
    ensures x * p == 0 <==> x == 0
  {
  }

  lemma SameOrder(n: nat, d: nat, n': nat, d': nat, max: nat)
    requires d > 0 && d' > 0 && n * d' == n' * d
    ensures n > max * d <==> n' > max * d'
  {
    Exchange(max, d, d');
    SameSign(max * d - n, d', max * d' - n', d);
  }

  // ---- the parser ----------------------------------------------------------

  /** The amount in 0.01 kg, before rounding, is this over Pow10(|fraction|). */
  function Hundredths(a: Amount, unit: Unit): nat
    requires WellFormed(a)
  {
    Numerator(a) * Pow10(Places(unit))
  }

  function FromAmount(a: Amount, unit: Unit): Result
    requires WellFormed(a)
  {
    var n, d := Hundredths(a, unit), Pow10(|a.fraction|);
    if Numerator(a) == 0 then InvalidMass
    else if n > MAX_MASS * d then InvalidMass
    else
      var mass := HalfEven(n, d);
      if mass == 0 || mass > MAX_MASS then InvalidMass else Ok(Exact(unit, mass))
  }

  function ParseNormalized(s: string, allowAll: bool): Result
  {
    if allowAll && s == "all" then Ok(All)
    else if s == "" || s == "all" then InvalidMass
    else match Scan(s)
    case None => InvalidMass
    case Some((a, unit)) =>
      ScannedMatches(s);
      FromAmount(a, unit)
  }

  function ParseMassArgument(raw: Option<string>, allowAll: bool): Result
  {
    ParseNormalized(Normalize(if raw.Some? then raw.value else ""), allowAll)
  }

  /** The amount is more than half of 0.01 kg and not above the maximum, and
    * the mass is the nearest whole number of 0.01 kg.
    */
  predicate Accepts(a: Amount, unit: Unit, mass: nat)
    requires WellFormed(a)
  {
    var n, d := Hundredths(a, unit), Pow10(|a.fraction|);
    d < 2 * n && n <= MAX_MASS * d && Nearest(mass, n, d)
  }

  /** A text is a mass exactly when it spells such an amount and a unit; the mass
    * is then positive and in range.
    */
  lemma AcceptedIff(raw: string, allowAll: bool, unit: Unit, mass: nat)
    ensures ParseMassArgument(Some(raw), allowAll) == Ok(Exact(unit, mass)) <==>
            exists a :: FullMatch(Normalize(raw), a, unit) && Accepts(a, unit, mass)
    ensures ParseMassArgument(Some(raw), allowAll) == Ok(Exact(unit, mass)) ==> 1 <= mass <= MAX_MASS
  {
    var s := Normalize(raw);
    if ParseNormalized(s, allowAll) == Ok(Exact(unit, mass)) {
      var a := AcceptedSpells(s, allowAll, unit, mass);
      assert FullMatch(s, a, unit);
    }
    forall a | FullMatch(s, a, unit) && Accepts(a, unit, mass)
      ensures ParseNormalized(s, allowAll) == Ok(Exact(unit, mass))
    {
      SpelledIsAccepted(s, allowAll, a, unit, mass);
    }
  }

  lemma AcceptedSpells(s: string, allowAll: bool, unit: Unit, mass: nat) returns (a: Amount)
    requires ParseNormalized(s, allowAll) == Ok(Exact(unit, mass))
    ensures FullMatch(s, a, unit) && Accepts(a, unit, mass) && 1 <= mass <= MAX_MASS
  {
    a := Scan(s).value.0;
    ScannedMatches(s);
    AcceptedAmount(a, unit, mass);
  }

  lemma SpelledIsAccepted(s: string, allowAll: bool, a: Amount, unit: Unit, mass: nat)
    requires FullMatch(s, a, unit) && Accepts(a, unit, mass)
    ensures ParseNormalized(s, allowAll) == Ok(Exact(unit, mass))
  {
    ScanIsFullMatch(s, a, unit);
    NotAll(s);
    AcceptedAmount(a, unit, mass);
  }

  lemma NotAll(s: string)
    ensures s == "all" || s == "" ==> Scan(s).None?
  {
    if s == "all" {
      assert LeadingDigits(s) == 0;
    }
  }

  lemma AcceptedAmount(a: Amount, unit: Unit, mass: nat)
    requires WellFormed(a)
    ensures FromAmount(a, unit) == Ok(Exact(unit, mass)) <==> Accepts(a, unit, mass)
  {
    var n, d := Hundredths(a, unit), Pow10(|a.fraction|);
    HalfEvenIsNearest(n, d);
    if Nearest(mass, n, d) {
      NearestIsUnique(mass, HalfEven(n, d), n, d);
    }
    if n <= MAX_MASS * d {
      RoundsWithin(n, d, MAX_MASS);
    }
    assert HalfEven(n, d) == 0 <==> 2 * n <= d by {
      RoundsToZero(n, d);
    }
  }

  lemma RoundsWithin(n: nat, d: nat, max: nat)
    requires d > 0 && n <= max * d
    ensures HalfEven(n, d) <= max
  {
    var q := n / d;
    assert n == q * d + n % d;
    if q >= max {
      Scaled(max, q, d);
    }
  }

  lemma RoundsToZero(n: nat, d: nat)
    requires d > 0
    ensures HalfEven(n, d) == 0 <==> 2 * n <= d
  {
    if n < d {
      assert n / d == 0 && n % d == n;
    } else {
      Scaled(1, n / d, d);
    }
  }

  /** Two spellings of one quantity are read alike: 1.50t, 1500kg and .0015kt. */
  lemma SameQuantitySameMass(a: Amount, u: Unit, b: Amount, v: Unit)
    requires WellFormed(a) && WellFormed(b)
    requires Hundredths(a, u) * Pow10(|b.fraction|) == Hundredths(b, v) * Pow10(|a.fraction|)
    ensures FromAmount(a, u).Ok? == FromAmount(b, v).Ok?
    ensures FromAmount(a, u).Ok? ==> FromAmount(a, u).argument.mass == FromAmount(b, v).argument.mass
  {
    var n, d, n', d' := Hundredths(a, u), Pow10(|a.fraction|), Hundredths(b, v), Pow10(|b.fraction|);
    HalfEvenOfEqualFractions(n, d, n', d');
    SameOrder(n, d, n', d', MAX_MASS);
    SameSign(n, d', n', d);
    ZeroProduct(Numerator(a), Pow10(Places(u)));
    ZeroProduct(Numerator(b), Pow10(Places(v)));
  }

  // ---- printing ------------------------------------------------------------

  function Digit(n: nat): char
    requires n < 10
  {
    '0' + n as char
  }

  /** The last `width` decimal digits. */
  function Padded(n: nat, width: nat): (s: string)
    ensures |s| == width && AllDigits(s)
  {
    if width == 0 then "" else Padded(n / 10, width - 1) + [Digit(n % 10)]
  }

  function Decimal(n: nat): (s: string)
    ensures s != "" && AllDigits(s)
  {
    if n < 10 then [Digit(n)] else Decimal(n / 10) + [Digit(n % 10)]
  }

  lemma {:induction false} ValueOfDecimal(n: nat)
    ensures Value(Decimal(n)) == n
  {
    var s := Decimal(n);
    if n >= 10 {
      ValueOfDecimal(n / 10);
      assert s[..|s| - 1] == Decimal(n / 10);
    } else {
      assert s[..0] == "";
    }
  }

  lemma {:induction false} ValueOfPadded(n: nat, width: nat)
    requires n < Pow10(width)
    ensures Value(Padded(n, width)) == n
    decreases width
  {
    if width > 0 {
      var s := Padded(n, width);
      ValueOfPadded(n / 10, width - 1);
      assert s[..width - 1] == Padded(n / 10, width - 1);
    }
  }

  lemma DivMod(n: nat, d: nat)
    requires d > 0
    ensures n / d >= 0 && 0 <= n % d < d && n == n / d * d + n % d
  {
  }

  /** A mass written out exactly, with this many decimal places. */
  function PrintAmount(mass: nat, places: nat): (a: Amount)
    ensures WellFormed(a) && |a.fraction| == places
  {
    var d := Pow10(places);
    DivMod(mass, d);
    Amount(Decimal(mass / d), Padded(mass % d, places))
  }

  function Print(mass: nat, unit: Unit): string { Spelling(PrintAmount(mass, Places(unit))) + Suffix(unit) }

  lemma PrintedValue(mass: nat, places: nat)
    ensures Numerator(PrintAmount(mass, places)) == mass
  {
    var d := Pow10(places);
    var a := PrintAmount(mass, places);
    DivMod(mass, d);
    ValueOfDecimal(mass / d);
    ValueOfPadded(mass % d, places);
    ValueOfSum(a.whole, a.fraction);
  }

  lemma PrintedIsNormal(mass: nat, unit: Unit)
    ensures var s := Print(mass, unit); s != "" && Trimmed(s) && LowerAll(s) == s
  {
    var a := PrintAmount(mass, Places(unit));
    var s := Print(mass, unit);
    assert s == a.whole + "." + a.fraction + Suffix(unit);
    forall i | 0 <= i < |s| ensures Lower(s[i]) == s[i] && !IsSpace(s[i]) {
      assert IsDigit(s[i]) || s[i] == '.' || s[i] in Suffix(unit);
    }
  }

  /** Every mass in range, printed in any unit and padded with any blanks,
    * parses back to itself.
    */
  lemma RoundTrip(mass: nat, unit: Unit, before: string, after: string, allowAll: bool)
    requires 1 <= mass <= MAX_MASS && AllSpace(before) && AllSpace(after)
    ensures ParseMassArgument(Some(before + Print(mass, unit) + after), allowAll) == Ok(Exact(unit, mass))
  {
    var s, a := Print(mass, unit), PrintAmount(mass, Places(unit));
    PrintedIsNormal(mass, unit);
    StripsPadding(before, s, after);
    ScanIsFullMatch(s, a, unit);
    NotAll(s);
    PrintedValue(mass, Places(unit));
    var d := Pow10(|a.fraction|);
    assert Hundredths(a, unit) == mass * d;
    assert HalfEven(mass * d, d) == mass by {
      Multiple(mass, d);
    }
    Scaled(mass, MAX_MASS, d);
  }

  lemma Multiple(q: nat, d: nat)
    requires d > 0
    ensures HalfEven(q * d, d) == q
  {
    HalfEvenIsNearest(q * d, d);
    NearestIsUnique(q, HalfEven(q * d, d), q * d, d);
  }

  /** One of each unit, in 0.01 kg. */
  lemma OneOfEachUnit(unit: Unit, allowAll: bool)
    ensures ParseMassArgument(Some("1" + Suffix(unit)), allowAll) ==
            Ok(Exact(unit, match unit
                           case NoUnit => 100 case Kg => 100 case T => 100_000 case Kt => 100_000_000
                           case Mt => 100_000_000_000 case Gt => 100_000_000_000_000))
  {
    OneUnit("1" + Suffix(unit), unit, allowAll);
    Powers();
  }

  lemma Powers()
    ensures Pow10(2) == 100 && Pow10(5) == 100_000 && Pow10(8) == 100_000_000 && Pow10(11) == 100_000_000_000
    ensures Pow10(14) == 100_000_000_000_000
  {
  }

  /** `all` is a mode of its own where it is allowed and no mass anywhere; an
    * absent argument is an error.
    */
  lemma AllIsNoMass(allowAll: bool)
    ensures ParseNormalized("all", allowAll) == (if allowAll then Ok(All) else InvalidMass)
    ensures ParseMassArgument(None, allowAll) == InvalidMass
  {
    assert Normalize("") == "";
  }

  lemma OneUnit(s: string, unit: Unit, allowAll: bool)
    requires s == "1" + Suffix(unit)
    ensures ParseMassArgument(Some(s), allowAll) == Ok(Exact(unit, Pow10(Places(unit))))
  {
    var a, mass := Amount("1", ""), Pow10(Places(unit));
    assert "1"[..0] == "";
    assert Value("1") == 1 && a.whole + a.fraction == "1";
    assert s == Spelling(a) + Suffix(unit);
    OneIsNormal(s, unit);
    assert Pow10(0) == 1 && Hundredths(a, unit) == mass;
    MassInRange(unit);
    Multiple(mass, 1);
    HalfEvenIsNearest(mass, 1);
    assert Accepts(a, unit, mass);
    SpelledIsAccepted(s, allowAll, a, unit, mass);
  }

  lemma MassInRange(unit: Unit)
    ensures 1 < Pow10(Places(unit)) <= MAX_MASS
  {
    Powers();
  }

  lemma OneIsNormal(s: string, unit: Unit)
    requires s == "1" + Suffix(unit)
    ensures Normalize(s) == s
  {
    StripsPadding("", s, "");
    assert "" + s + "" == s && LowerAll(s) == s;
  }

  // ---- texts as they are typed ---------------------------------------------

  /** What a whole number of 0.01 kg is read as. */
  function Whole(unit: Unit, mass: nat): Result
  {
    if 0 < mass <= 999_999_999_999_999_999 then Ok(Exact(unit, mass)) else InvalidMass
  }

  /** A whole number of each unit, for every number: 1t is 1000 kg, 1kt is 1000 t,
    * and so on. Above the maximum nothing is accepted.
    */
  lemma WholeAmounts(digits: string, allowAll: bool)
    requires AllDigits(digits) && digits != ""
    ensures var n := Value(digits);
            && ParseMassArgument(Some(digits), allowAll) == Whole(NoUnit, n * 100)
            && ParseMassArgument(Some(digits + "kg"), allowAll) == Whole(Kg, n * 100)
            && ParseMassArgument(Some(digits + "KG"), allowAll) == Whole(Kg, n * 100)
            && ParseMassArgument(Some(digits + "t"), allowAll) == Whole(T, n * 100_000)
            && ParseMassArgument(Some(digits + "kt"), allowAll) == Whole(Kt, n * 100_000_000)
            && ParseMassArgument(Some(digits + "mt"), allowAll) == Whole(Mt, n * 100_000_000_000)
            && ParseMassArgument(Some(digits + "gt"), allowAll) == Whole(Gt, n * 100_000_000_000_000)
  {
    Units();
    var one := WholeHundredths(digits, NoUnit);
    var kg := WholeHundredths(digits, Kg);
    var t := WholeHundredths(digits, T);
    var kt := WholeHundredths(digits, Kt);
    var mt := WholeHundredths(digits, Mt);
    var gt := WholeHundredths(digits, Gt);
    WholeAmount(digits, "", NoUnit, one, allowAll);
    WholeAmount(digits, "kg", Kg, kg, allowAll);
    WholeAmount(digits, "KG", Kg, kg, allowAll);
    WholeAmount(digits, "t", T, t, allowAll);
    WholeAmount(digits, "kt", Kt, kt, allowAll);
    WholeAmount(digits, "mt", Mt, mt, allowAll);
    WholeAmount(digits, "gt", Gt, gt, allowAll);
    assert digits + "" == digits;
  }

  lemma WholeHundredths(digits: string, unit: Unit) returns (n: nat)
    requires AllDigits(digits) && digits != ""
    ensures n == Hundredths(Amount(digits, ""), unit)
    ensures n == match unit
                 case NoUnit => Value(digits) * 100 case Kg => Value(digits) * 100
                 case T => Value(digits) * 100_000 case Kt => Value(digits) * 100_000_000
                 case Mt => Value(digits) * 100_000_000_000 case Gt => Value(digits) * 100_000_000_000_000
  {
    n := Hundredths(Amount(digits, ""), unit);
    assert digits + "" == digits;
    var factor := Factor(unit);
    SameProduct(Value(digits), Pow10(Places(unit)), factor);
  }

  lemma SameProduct(x: nat, p: nat, q: nat)
    requires p == q
    ensures x * p == x * q
  {
  }

  /** One of a unit, in 0.01 kg. */
  lemma Factor(unit: Unit) returns (factor: nat)
    ensures factor == Pow10(Places(unit))
    ensures factor == match unit
                      case NoUnit => 100 case Kg => 100 case T => 100_000 case Kt => 100_000_000
                      case Mt => 100_000_000_000 case Gt => 100_000_000_000_000
  {
    factor := Pow10(Places(unit));
    Powers();
  }

  /** Written in this way, whatever the case. */
  predicate Written(text: string, unit: Unit)
  {
    LowerAll(text) == Suffix(unit) && forall i :: 0 <= i < |text| ==> !IsSpace(text[i])
  }

  lemma Units()
    ensures Written("", NoUnit) && Written("kg", Kg) && Written("KG", Kg) && Written("t", T)
    ensures Written("kt", Kt) && Written("mt", Mt) && Written("gt", Gt)
  {
    assert LowerAll("KG") == "kg" && LowerAll("kg") == "kg" && LowerAll("t") == "t";
    assert LowerAll("kt") == "kt" && LowerAll("mt") == "mt" && LowerAll("gt") == "gt";
  }

  lemma WholeAmount(digits: string, text: string, unit: Unit, n: nat, allowAll: bool)
    requires AllDigits(digits) && digits != "" && Written(text, unit) && n == Hundredths(Amount(digits, ""), unit)
    ensures ParseMassArgument(Some(digits + text), allowAll) == Whole(unit, n)
  {
    var s, a := digits + Suffix(unit), Amount(digits, "");
    NormalOf(digits, text);
    assert s == Spelling(a) + Suffix(unit);
    ScanIsFullMatch(s, a, unit);
    NotAll(s);
    FromWhole(a, unit, n);
  }

  lemma FromWhole(a: Amount, unit: Unit, n: nat)
    requires WellFormed(a) && a.fraction == "" && n == Hundredths(a, unit)
    ensures FromAmount(a, unit) == Whole(unit, n)
  {
    WholeIsExact(n);
    ZeroProduct(Numerator(a), Pow10(Places(unit)));
    assert Pow10(|a.fraction|) == 1;
  }

  lemma WholeIsExact(n: nat)
    ensures HalfEven(n, 1) == n
  {
    Multiple(n, 1);
    assert n * 1 == n;
  }

  lemma NormalOf(digits: string, text: string)
    requires AllDigits(digits) && digits != "" && forall i :: 0 <= i < |text| ==> !IsSpace(text[i])
    ensures Normalize(digits + text) == digits + LowerAll(text)
  {
    var s := digits + text;
    assert s[|s| - 1] == if text == "" then digits[|s| - 1] else text[|text| - 1];
    StripsPadding("", s, "");
    assert "" + s + "" == s;
    forall i | 0 <= i < |s| ensures LowerAll(s)[i] == (digits + LowerAll(text))[i] {
    }
  }

  /** Lower-case text without blanks. */
  predicate Plain(s: string) { s != "" && forall i :: 0 <= i < |s| ==> !IsSpace(s[i]) && Lower(s[i]) == s[i] }

  lemma PlainIsNormal(s: string)
    requires Plain(s)
    ensures Normalize(s) == s
  {
    StripsPadding("", s, "");
    assert "" + s + "" == s && LowerAll(s) == s;
  }

  lemma TypedAmount(s: string, a: Amount, unit: Unit, allowAll: bool)
    requires Plain(s) && WellFormed(a) && s == Spelling(a) + Suffix(unit)
    ensures ParseMassArgument(Some(s), allowAll) == FromAmount(a, unit)
  {
    PlainIsNormal(s);
    ScanIsFullMatch(s, a, unit);
    NotAll(s);
  }

  lemma AmountIs(a: Amount, unit: Unit, n: nat, d: nat, mass: nat)
    requires WellFormed(a) && n == Hundredths(a, unit) && d == Pow10(|a.fraction|)
    requires d < 2 * n && n <= MAX_MASS * d && Nearest(mass, n, d)
    ensures FromAmount(a, unit) == Ok(Exact(unit, mass))
  {
    AcceptedAmount(a, unit, mass);
  }

  lemma ValueOfTwo(s: string)
    requires |s| == 2 && AllDigits(s)
    ensures Value(s) == 10 * (s[0] - '0') as nat + (s[1] - '0') as nat
  {
    ValueByLast("", s[0]);
    ValueByLast(s[..1], s[1]);
    assert "" + [s[0]] == s[..1] && s[..1] + [s[1]] == s;
  }

  /** Digits count by their place. */
  lemma Twelve(allowAll: bool)
    ensures ParseMassArgument(Some("12kg"), allowAll) == Ok(Exact(Kg, 1_200))
  {
    ValueOfTwo("12");
    WholeAmounts("12", allowAll);
    assert "12" + "kg" == "12kg";
  }

  lemma OneAndAHalf(allowAll: bool)
    ensures ParseMassArgument(Some("1.5t"), allowAll) == Ok(Exact(T, 150_000))
  {
    var a := Amount("1", "5");
    TypedAmount("1.5t", a, T, allowAll);
    var n, d := Fifteen();
    AmountIs(a, T, n, d, 150_000);
  }

  lemma Fifteen() returns (n: nat, d: nat)
    ensures WellFormed(Amount("1", "5")) && n == Hundredths(Amount("1", "5"), T) == 1_500_000 && d == Pow10(1) == 10
  {
    ValueOfTwo("15");
    assert "1" + "5" == "15";
    var factor := Factor(T);
    n, d := 15 * factor, Pow10(1);
  }

  /** Halfway between two quanta goes to the even one. */
  lemma HalfwayIsEven(allowAll: bool)
    ensures ParseMassArgument(Some(".025"), allowAll) == Ok(Exact(NoUnit, 2))
  {
    var a := Amount("", "025");
    TypedAmount(".025", a, NoUnit, allowAll);
    var n, d := TwentyFive();
    AmountIs(a, NoUnit, n, d, 2);
  }

  lemma TwentyFive() returns (n: nat, d: nat)
    ensures WellFormed(Amount("", "025"))
    ensures n == Hundredths(Amount("", "025"), NoUnit) == 2_500 && d == Pow10(3) == 1000
  {
    ValueOfTwo("02");
    ValueByLast("02", '5');
    assert "02" + "5" == "025" && "" + "025" == "025";
    var factor := Factor(NoUnit);
    n, d := 25 * factor, Pow10(3);
  }

  /** A dot needs digits behind it. */
  lemma TrailingDot(allowAll: bool)
    ensures ParseMassArgument(Some("1."), allowAll) == InvalidMass
  {
    var s := "1.";
    PlainIsNormal(s);
    LeadingDigitsAre("1", ".");
    assert s == "1" + "." && s[..1] == "1" && s[1..] == ".";
    assert FractionOf(".") == "" && "."[0..] == ".";
  }
}
