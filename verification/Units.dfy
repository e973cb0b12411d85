/** Token amounts as people read and type them. */
module Units {
  import opened Bytes
  import opened Decimal
  import Lines

  function Pow10(n: nat): (p: nat)
    ensures p >= 1
  {
    if n == 0 then 1 else 10 * Pow10(n - 1)
  }

  function PadStart(s: string, width: nat): (r: string)
    ensures |r| == if |s| < width then width else |s|
  {
    if |s| >= width then s else Zeros(width - |s|) + s
  }

  function PadEnd(s: string, width: nat): (r: string)
    ensures |r| == if |s| < width then width else |s|
  {
    if |s| >= width then s else s + Zeros(width - |s|)
  }

  function Zeros(n: nat): (s: string)
    ensures |s| == n && AllDigits(s)
  {
    seq(n, i => '0')
  }

  /** Drops the zeros at the end. */
  function TrimZeros(s: string): string {
    if s != [] && s[|s| - 1] == '0' then TrimZeros(s[..|s| - 1]) else s
  }

  /** Thousands separators, counted from the right. */
  function Grouped(digits: string): string {
    if |digits| <= 3 then digits else Grouped(digits[..|digits| - 3]) + "," + digits[|digits| - 3..]
  }

  function Abs(v: int): nat {
    if v < 0 then -v else v
  }

  /** Quotient and remainder of naturals. */
  function Div(v: nat, base: nat): (q: nat)
    requires base > 0
  {
    v / base
  }

  function Mod(v: nat, base: nat): (r: nat)
    requires base > 0
    ensures r < base
  {
    v % base
  }

  function FormatUnits(value: int, decimals: nat): string {
    var abs := Abs(value);
    var base := Pow10(decimals);
    var fraction := TrimZeros(PadStart(Digits(Mod(abs, base)), decimals));
    (if value < 0 then "-" else "") + Grouped(Digits(Div(abs, base))) + (if fraction != [] then "." + fraction else "")
  }

  /** `/[,_\s]/` */
  predicate IsDropped(c: char) {
    c == ',' || c == '_' || Lines.IsSpace(c)
  }

  function Strip(s: string): string {
    if s == [] then [] else (if IsDropped(s[0]) then [] else [s[0]]) + Strip(s[1..])
  }

  /** Length of the run of digits at the head. */
  function DigitRun(s: string): (n: nat)
    ensures n <= |s| && AllDigits(s[..n])
    ensures n < |s| ==> !IsDigit(s[n])
  {
    if s == [] || !IsDigit(s[0]) then 0
    else
      var n := 1 + DigitRun(s[1..]);
      assert s[..n] == [s[0]] + s[1..][..n - 1];
      n
  }

  /** `^(\d+)(?:\.(\d+))?$`: the whole and the fraction. */
  function Amount(s: string): Option<(string, string)> {
    var n := DigitRun(s);
    if n == 0 then None
    else if n == |s| then Some((s, ""))
    else if s[n] == '.' && n + 1 < |s| && DigitRun(s[n + 1..]) == |s| - n - 1 then Some((s[..n], s[n + 1..]))
    else None
  }

  lemma AmountDigits(s: string)
    ensures Amount(s).Some? ==> AllDigits(Amount(s).value.0) && AllDigits(Amount(s).value.1)
  {
    var n := DigitRun(s);
    assert s[..|s|] == s;
    if n < |s| {
      assert s[n + 1..][..|s| - n - 1] == s[n + 1..];
    }
  }

  function ParseUnits(text: string, decimals: nat): Option<nat> {
    var s := Strip(text);
    AmountDigits(s);
    var parts :- Amount(s);
    if |parts.1| > decimals then None
    else Some(Combine(parts.0, parts.1, decimals))
  }

  function Combine(whole: string, fraction: string, decimals: nat): nat
    requires AllDigits(whole) && AllDigits(fraction)
  {
    Value(whole) * Pow10(decimals) + Value(PadEnd(fraction, decimals))
  }

  // ----- Round trip

  lemma {:induction false} StripAppend(a: string, b: string)
    ensures Strip(a + b) == Strip(a) + Strip(b)
  {
    if a == [] {
      assert a + b == b;
    } else {
      assert (a + b)[1..] == a[1..] + b;
      StripAppend(a[1..], b);
    }
  }

  lemma {:induction false} StripDigits(s: string)
    requires AllDigits(s)
    ensures Strip(s) == s
  {
    if s != [] {
      StripDigits(s[1..]);
      assert [s[0]] + s[1..] == s;
    }
  }

  lemma StripOneGroup(g: string, b: string)
    requires AllDigits(b)
    ensures Strip(g + "," + b) == Strip(g) + b
  {
    StripDigits(b);
    StripAppend(g + ",", b);
    StripAppend(g, ",");
    assert Strip(",") == [];
    assert Strip(g) + [] == Strip(g);
  }

  lemma {:induction false} StripGrouped(digits: string)
    requires AllDigits(digits)
    ensures Strip(Grouped(digits)) == digits
  {
    if |digits| <= 3 {
      StripDigits(digits);
    } else {
      var a, b := digits[..|digits| - 3], digits[|digits| - 3..];
      StripGrouped(a);
      StripOneGroup(Grouped(a), b);
      assert a + b == digits;
    }
  }

  lemma {:induction false} DigitRunAll(s: string, rest: string)
    requires AllDigits(s) && (rest == [] || !IsDigit(rest[0]))
    ensures DigitRun(s + rest) == |s|
  {
    if s == [] {
      assert s + rest == rest;
    } else {
      assert (s + rest)[1..] == s[1..] + rest;
      DigitRunAll(s[1..], rest);
    }
  }

  /** Trimming and padding back is the identity on digit strings of the full width. */
  lemma {:induction false} TrimThenPad(s: string, width: nat)
    requires |s| <= width
    ensures |TrimZeros(s)| <= |s| && PadEnd(TrimZeros(s), width) == PadEnd(s, width)
    ensures AllDigits(s) ==> AllDigits(TrimZeros(s))
    decreases |s|
  {
    if s != [] && s[|s| - 1] == '0' {
      TrimThenPad(s[..|s| - 1], width);
      assert s == s[..|s| - 1] + ['0'];
      assert PadEnd(s[..|s| - 1], width) == PadEnd(s, width);
    }
  }

  lemma {:induction false} LeadingZeros(n: nat, s: string)
    requires AllDigits(s)
    ensures AllDigits(Zeros(n) + s) && Value(Zeros(n) + s) == Value(s)
    decreases |s|, n
  {
    var t := Zeros(n) + s;
    if s != [] {
      LeadingZeros(n, s[..|s| - 1]);
      assert t[..|t| - 1] == Zeros(n) + s[..|s| - 1];
    } else if n > 0 {
      LeadingZeros(n - 1, s);
      assert t[..|t| - 1] == Zeros(n - 1) + s;
    }
  }

  /** A number below 10^n has at most n digits, for n at least 1. */
  lemma {:induction false} DigitsFit(v: nat, n: nat)
    requires v < Pow10(n) && n >= 1
    ensures |Digits(v)| <= n
  {
    assert Pow10(1) == 10 * Pow10(0);
    if v >= 10 {
      assert Pow10(n) == 10 * Pow10(n - 1);
      DigitsFit(v / 10, n - 1);
    }
  }

  lemma FractionValue(v: nat, decimals: nat)
    requires v < Pow10(decimals)
    ensures var fraction := TrimZeros(PadStart(Digits(v), decimals));
      && AllDigits(fraction) && |fraction| <= decimals
      && AllDigits(PadEnd(fraction, decimals)) && Value(PadEnd(fraction, decimals)) == v
  {
    if decimals == 0 {
      assert v == 0 && Digits(0) == "0";
      assert TrimZeros("0") == TrimZeros("0"[..0]) == "";
      assert Value("") == 0;
    } else {
      DigitsFit(v, decimals);
      var d := Digits(v);
      DigitsValue(v);
      LeadingZeros(decimals - |d|, d);
      assert Zeros(0) + d == d;
      var padded := PadStart(d, decimals);
      assert padded == Zeros(decimals - |d|) + d;
      TrimThenPad(padded, decimals);
      assert PadEnd(padded, decimals) == padded;
    }
  }

  lemma Parts(value: nat, decimals: nat)
    ensures Div(value, Pow10(decimals)) * Pow10(decimals) + Mod(value, Pow10(decimals)) == value
  {
  }

  lemma AmountOf(whole: string, fraction: string)
    requires AllDigits(whole) && whole != [] && AllDigits(fraction)
    ensures Amount(whole + (if fraction != [] then "." + fraction else "")) == Some((whole, fraction))
  {
    var tail := if fraction != [] then "." + fraction else "";
    var s := whole + tail;
    DigitRunAll(whole, tail);
    if fraction == [] {
      assert s == whole;
    } else {
      assert s[|whole|] == '.' && s[|whole| + 1..] == fraction && s[..|whole|] == whole;
      DigitRunAll(fraction, "");
      assert fraction + "" == fraction;
    }
  }

  lemma StripShown(whole: string, fraction: string)
    requires AllDigits(whole) && AllDigits(fraction)
    ensures var tail := if fraction != [] then "." + fraction else "";
      Strip(Grouped(whole) + tail) == whole + tail
  {
    var tail := if fraction != [] then "." + fraction else "";
    StripGrouped(whole);
    StripAppend(Grouped(whole), tail);
    if fraction != [] {
      StripAppend(".", fraction);
      StripDigits(fraction);
      assert Strip(".") == "." + Strip("");
    }
  }

  function Shown(whole: string, fraction: string): string {
    Grouped(whole) + (if fraction != [] then "." + fraction else "")
  }

  lemma ParseShown(whole: string, fraction: string, decimals: nat)
    requires AllDigits(whole) && whole != [] && AllDigits(fraction) && |fraction| <= decimals
    ensures ParseUnits(Shown(whole, fraction), decimals) == Some(Combine(whole, fraction, decimals))
  {
    StripShown(whole, fraction);
    AmountOf(whole, fraction);
  }

  /** What is typed back is what was shown, for every non-negative amount and every number of decimals. */
  lemma UnitsRoundTrip(value: nat, decimals: nat)
    ensures ParseUnits(FormatUnits(value, decimals), decimals) == Some(value)
  {
    var whole, fraction := FormatIsShown(value, decimals);
    ParseShown(whole, fraction, decimals);
  }

  function WholeOf(value: nat, decimals: nat): string {
    Digits(Div(value, Pow10(decimals)))
  }

  function FractionOf(value: nat, decimals: nat): string {
    TrimZeros(PadStart(Digits(Mod(value, Pow10(decimals))), decimals))
  }

  lemma FormatIs(value: int, decimals: nat)
    ensures FormatUnits(value, decimals)
         == (if value < 0 then "-" else "") + Grouped(WholeOf(Abs(value), decimals))
            + (if FractionOf(Abs(value), decimals) != [] then "." + FractionOf(Abs(value), decimals) else "")
  {
  }

  lemma PartsCombine(value: nat, decimals: nat)
    ensures var whole, fraction := WholeOf(value, decimals), FractionOf(value, decimals);
      && AllDigits(whole) && whole != [] && AllDigits(fraction) && |fraction| <= decimals
      && Combine(whole, fraction, decimals) == value
  {
    var base := Pow10(decimals);
    FractionValue(Mod(value, base), decimals);
    DigitsValue(Div(value, base));
    Parts(value, decimals);
  }

  lemma FormatIsShown(value: nat, decimals: nat) returns (whole: string, fraction: string)
    ensures FormatUnits(value, decimals) == Shown(whole, fraction)
    ensures AllDigits(whole) && whole != [] && AllDigits(fraction) && |fraction| <= decimals
    ensures Combine(whole, fraction, decimals) == value
  {
    whole, fraction := WholeOf(value, decimals), FractionOf(value, decimals);
    PartsCombine(value, decimals);
    FormatIs(value, decimals);
    assert "" + Grouped(whole) == Grouped(whole);
  }

  // ----- Which texts are amounts, and what they are worth

  /** `kept` is `text` without its commas, underscores and white space. */
  predicate IsKept(text: string, kept: string) {
    if text == "" then kept == ""
    else if text[0] == ',' || text[0] == '_' || Lines.IsSpace(text[0]) then IsKept(text[1..], kept)
    else kept != "" && kept[0] == text[0] && IsKept(text[1..], kept[1..])
  }

  lemma {:induction false} KeptIsStrip(text: string, kept: string)
    ensures IsKept(text, kept) <==> kept == Strip(text)
  {
    if text != "" {
      if IsDropped(text[0]) {
        KeptIsStrip(text[1..], kept);
        assert [] + Strip(text[1..]) == Strip(text[1..]);
      } else {
        if kept != "" {
          KeptIsStrip(text[1..], kept[1..]);
          assert kept == [kept[0]] + kept[1..];
        }
        assert Strip(text)[0] == text[0] && Strip(text)[1..] == Strip(text[1..]);
      }
    }
  }

  /** The text says `whole`, or `whole` and after a dot `fraction`. */
  predicate Says(text: string, whole: string, fraction: string) {
    && whole != "" && AllDigits(whole) && AllDigits(fraction)
    && IsKept(text, if fraction == "" then whole else whole + "." + fraction)
  }

  lemma AmountSays(s: string, whole: string, fraction: string)
    requires Amount(s) == Some((whole, fraction))
    ensures whole != "" && AllDigits(whole) && AllDigits(fraction)
    ensures s == if fraction == "" then whole else whole + "." + fraction
  {
    AmountDigits(s);
    var n := DigitRun(s);
    if n < |s| {
      assert s == s[..n] + "." + s[n + 1..];
    }
  }

  lemma {:induction false} PadMultiplies(s: string, n: nat)
    requires AllDigits(s)
    ensures AllDigits(s + Zeros(n)) && Value(s + Zeros(n)) == Value(s) * Pow10(n)
  {
    if n == 0 {
      assert s + Zeros(0) == s;
    } else {
      PadMultiplies(s, n - 1);
      var t := s + Zeros(n);
      assert t[..|t| - 1] == s + Zeros(n - 1) && t[|t| - 1] == '0';
      assert Value(t) == 10 * (Value(s) * Pow10(n - 1));
      TimesTen(Value(s), Pow10(n - 1));
    }
  }

  lemma TimesTen(a: nat, b: nat)
    ensures 10 * (a * b) == a * (10 * b)
  {
  }

  lemma CombineIs(whole: string, fraction: string, decimals: nat)
    requires AllDigits(whole) && AllDigits(fraction) && |fraction| <= decimals
    ensures Combine(whole, fraction, decimals)
         == Value(whole) * Pow10(decimals) + Value(fraction) * Pow10(decimals - |fraction|)
  {
    PadMultiplies(fraction, decimals - |fraction|);
    assert fraction + Zeros(0) == fraction;
  }

  /**
   * For every text: it is accepted if and only if, without commas, underscores and white space, it is a nonempty run of
   * digits, or one followed by a dot and 1 to `decimals` more digits; more decimals are refused, never cut off. Its
   * worth is the whole in units of 10^decimals and the fraction in units of what is left.
   */
  lemma ParseExactly(text: string, decimals: nat)
    ensures ParseUnits(text, decimals).Some?
       <==> exists whole, fraction :: Says(text, whole, fraction) && |fraction| <= decimals
    ensures forall whole, fraction | Says(text, whole, fraction) ::
      ParseUnits(text, decimals) == if |fraction| > decimals then None
                                    else Some(Worth(whole, fraction, decimals))
  {
    var s := Strip(text);
    forall whole, fraction | Says(text, whole, fraction)
      ensures ParseUnits(text, decimals) == if |fraction| > decimals then None
                                            else Some(Worth(whole, fraction, decimals))
    {
      SaidIsParsed(text, whole, fraction, decimals);
    }
    if ParseUnits(text, decimals).Some? {
      var parts := Amount(s).value;
      AmountSays(s, parts.0, parts.1);
      KeptIsStrip(text, s);
      assert Says(text, parts.0, parts.1);
    }
  }

  function Worth(whole: string, fraction: string, decimals: nat): nat
    requires AllDigits(whole) && AllDigits(fraction) && |fraction| <= decimals
  {
    Value(whole) * Pow10(decimals) + Value(fraction) * Pow10(decimals - |fraction|)
  }

  lemma SaidIsAmount(text: string, whole: string, fraction: string)
    requires Says(text, whole, fraction)
    ensures Amount(Strip(text)) == Some((whole, fraction))
  {
    var s := if fraction == "" then whole else whole + "." + fraction;
    KeptIsStrip(text, s);
    AmountOfSaid(whole, fraction);
  }

  lemma AmountOfSaid(whole: string, fraction: string)
    requires AllDigits(whole) && whole != [] && AllDigits(fraction)
    ensures Amount(if fraction == "" then whole else whole + "." + fraction) == Some((whole, fraction))
  {
    AmountOf(whole, fraction);
    if fraction == "" {
      assert whole + "" == whole;
    } else {
      assert whole + "." + fraction == whole + ("." + fraction);
    }
  }

  lemma ParseOfAmount(text: string, whole: string, fraction: string, decimals: nat)
    requires Amount(Strip(text)) == Some((whole, fraction)) && AllDigits(whole) && AllDigits(fraction)
    ensures ParseUnits(text, decimals)
         == if |fraction| > decimals then None else Some(Combine(whole, fraction, decimals))
  {
  }

  lemma SaidIsParsed(text: string, whole: string, fraction: string, decimals: nat)
    requires Says(text, whole, fraction)
    ensures ParseUnits(text, decimals) == if |fraction| > decimals then None
                                          else Some(Worth(whole, fraction, decimals))
  {
    SaidIsAmount(text, whole, fraction);
    ParseOfAmount(text, whole, fraction, decimals);
    if |fraction| <= decimals {
      CombineIs(whole, fraction, decimals);
    }
  }

  // ----- What is shown

  /** Commas stand exactly before every third digit from the right, and nowhere else. */
  lemma {:induction false} GroupedExactly(digits: string)
    requires digits != "" && AllDigits(digits)
    ensures var g := Grouped(digits);
      && |g| == |digits| + (|digits| - 1) / 3
      && (forall i :: 0 <= i < |g| ==> CommaAt(g, i))
      && IsKept(g, digits)
  {
    StripGrouped(digits);
    KeptIsStrip(Grouped(digits), digits);
    GroupedShape(digits);
  }

  predicate CommaAt(g: string, i: nat)
    requires i < |g|
  {
    g[i] == ',' <==> FromRight(|g| - i)
  }

  /** Every fourth place from the right. */
  predicate FromRight(k: nat) {
    k % 4 == 0
  }

  lemma FourOn(k: nat)
    ensures FromRight(k + 4) == FromRight(k)
    ensures FromRight(4) && !FromRight(1) && !FromRight(2) && !FromRight(3)
  {
  }

  lemma AppendGroup(h: string, b: string, i: nat)
    requires |b| == 3 && AllDigits(b) && i < |h| + 4 && (i < |h| ==> CommaAt(h, i))
    ensures CommaAt(h + "," + b, i)
  {
    var g := h + "," + b;
    if i < |h| {
      FourOn(|h| - i);
      assert g[i] == h[i];
    } else {
      FourOn(0);
      assert i == |h| || (g[i] == b[i - |h| - 1] && IsDigit(g[i]));
    }
  }

  lemma {:induction false} GroupedShape(digits: string)
    requires digits != "" && AllDigits(digits)
    ensures |Grouped(digits)| == |digits| + (|digits| - 1) / 3
    ensures forall i :: 0 <= i < |Grouped(digits)| ==> CommaAt(Grouped(digits), i)
  {
    if |digits| > 3 {
      var a, b := digits[..|digits| - 3], digits[|digits| - 3..];
      GroupedShape(a);
      forall i | 0 <= i < |Grouped(digits)| ensures CommaAt(Grouped(digits), i) {
        AppendGroup(Grouped(a), b, i);
      }
    } else {
      FourOn(0);
    }
  }

  lemma {:induction false} TrimmedExactly(s: string)
    ensures |TrimZeros(s)| <= |s| && s == TrimZeros(s) + Zeros(|s| - |TrimZeros(s)|)
    ensures TrimZeros(s) != "" ==> TrimZeros(s)[|TrimZeros(s)| - 1] != '0'
  {
    if s != [] && s[|s| - 1] == '0' {
      TrimmedExactly(s[..|s| - 1]);
      var n := |s| - |TrimZeros(s)|;
      assert Zeros(n) == Zeros(n - 1) + ['0'];
      assert s == s[..|s| - 1] + ['0'];
    } else {
      assert s + Zeros(0) == s;
    }
  }

  /**
   * What is shown, for every amount: a sign exactly for negative ones, the whole part without leading zeros and
   * grouped, and after a dot, exactly if there is one, the fraction, which never ends in a zero.
   */
  lemma ShownExactly(value: int, decimals: nat) returns (whole: string, fraction: string)
    ensures IsCanonical(whole) && AllDigits(fraction) && |fraction| <= decimals
    ensures fraction != "" ==> fraction[|fraction| - 1] != '0'
    ensures FormatUnits(value, decimals)
         == (if value < 0 then "-" else "") + Grouped(whole) + (if fraction != "" then "." + fraction else "")
    ensures Worth(whole, fraction, decimals) == if value < 0 then -value else value
  {
    var v := Abs(value);
    whole, fraction := WholeOf(v, decimals), FractionOf(v, decimals);
    PartsCombine(v, decimals);
    FormatIs(value, decimals);
    DigitsCanonical(Div(v, Pow10(decimals)));
    TrimmedExactly(PadStart(Digits(Mod(v, Pow10(decimals))), decimals));
    CombineIs(whole, fraction, decimals);
  }

  /** A negative amount is shown with a sign, which the parser refuses; so the round trip holds exactly from zero up. */
  lemma RoundTripExactly(value: int, decimals: nat)
    ensures ParseUnits(FormatUnits(value, decimals), decimals) == (if value >= 0 then Some(value) else None)
  {
    if value >= 0 {
      UnitsRoundTrip(value, decimals);
    } else {
      var text := FormatUnits(value, decimals);
      assert text[0] == '-';
      assert Strip(text)[0] == '-';
    }
  }
}
