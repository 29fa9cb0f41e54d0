/** The scan of a number takes the longest form there is, and reports the underscores
    that no digit follows. */
module LexicalNumbers {
  import opened Wrappers
  import opened Lexical
  import opened LexicalForms

  // ----- runs of digits -----

  ghost function RunEnd(b: Base, s: string, i: nat): nat
    requires i <= |s|
  {
    DigitsEnd(b, s, i, false, false).0
  }

  lemma NoMark(b: Base, c: char)
    ensures DigitOf(b, c) ==> c != '_'
  {
  }

  lemma Grow(b: Base, s: string, i: nat, p: nat)
    requires Digits(b, s, i, p) && p < |s| && (DigitOf(b, s[p]) || (i < p && s[p] == '_' && s[p - 1] != '_'))
    ensures Digits(b, s, i, p + 1)
  {
  }

  /** The rest of a run that has come from `i` to `p`. */
  lemma {:induction false} RunOn(b: Base, s: string, i: nat, p: nat, under: bool)
    requires Digits(b, s, i, p) && (under <==> i < p && s[p - 1] == '_')
    ensures
      var r := DigitsEnd(b, s, p, i < p, under);
      && Digits(b, s, i, r.0) && !DigitAt(b, s, r.0) && (Is(s, r.0, '_') ==> r.0 == i || s[r.0 - 1] == '_')
      && (r.1 <==> i < r.0 && s[r.0 - 1] == '_')
    decreases |s| - p
  {
    if DigitAt(b, s, p) {
      NoMark(b, s[p]);
      Grow(b, s, i, p);
      RunOn(b, s, i, p + 1, false);
    } else if Is(s, p, '_') && i < p && !under {
      Grow(b, s, i, p);
      RunOn(b, s, i, p + 1, true);
    }
  }

  lemma Run(b: Base, s: string, i: nat)
    requires i <= |s|
    ensures
      var e := RunEnd(b, s, i);
      && Digits(b, s, i, e) && !DigitAt(b, s, e) && (Is(s, e, '_') ==> e == i || s[e - 1] == '_')
      && (DigitsEnd(b, s, i, false, false).1 <==> i < e && s[e - 1] == '_')
  {
    RunOn(b, s, i, i, false);
  }

  /** No run is longer, and one that something else follows is the whole of it. */
  lemma RunMost(b: Base, s: string, i: nat, j: nat)
    requires Digits(b, s, i, j)
    ensures j <= RunEnd(b, s, i)
    ensures j < |s| && !DigitOf(b, s[j]) && s[j] != '_' ==> j == RunEnd(b, s, i)
  {
    var e := RunEnd(b, s, i);
    Run(b, s, i);
    var twice := DoubleMark(s, e);
  }

  // ----- suffixes -----

  predicate WordChar(c: char) { 'A' <= c <= 'Z' || 'a' <= c <= 'z' || Digit(c) }

  predicate IsWord(w: string) { w != "" && forall p :: 0 <= p < |w| ==> WordChar(w[p]) }

  predicate Words(ws: seq<string>) { forall k :: 0 <= k < |ws| ==> IsWord(ws[k]) }

  lemma UnitsAreWords()
    ensures Words(SIZES) && Words(DURATIONS) && Words(WIDTHS)
  {
    forall k | 0 <= k < 6 ensures IsWord(SIZES[k]) { }
    forall k | 0 <= k < 6 ensures IsWord(DURATIONS[k]) { }
    forall k | 0 <= k < 6 ensures IsWord(WIDTHS[k]) { }
  }

  lemma SuffixChars(ls: Letters, s: string, i: nat, j: nat, ws: seq<string>)
    requires Words(ws) && Suffix(ls, s, i, j, ws)
    ensures forall p :: i <= p < j ==> WordChar(s[p])
  {
    forall p | i <= p < j ensures WordChar(s[p]) { assert s[p] == s[i..j][p - i]; }
  }

  /** Two suffixes at one place are the same text. */
  lemma SuffixOnce(ls: Letters, s: string, i: nat, j: nat, k: nat, ws: seq<string>, vs: seq<string>)
    requires Words(ws) && Words(vs) && Suffix(ls, s, i, j, ws) && Suffix(ls, s, i, k, vs)
    ensures j == k
  {
    SuffixChars(ls, s, i, j, ws);
    SuffixChars(ls, s, i, k, vs);
  }

  lemma {:induction false} SuffixScan(ls: Letters, s: string, i: nat, ws: seq<string>)
    requires i <= |s| && Words(ws)
    ensures
      var r := SuffixEnd(ls, s, i, ws);
      (r.Some? ==> Suffix(ls, s, i, r.value, ws)) && forall j: nat :: Suffix(ls, s, i, j, ws) ==> r.Some?
    decreases |ws|
  {
    if ws != [] {
      SuffixScan(ls, s, i, ws[1..]);
      forall j: nat | Suffix(ls, s, i, j, ws) ensures SuffixEnd(ls, s, i, ws).Some? {
        if s[i..j] != ws[0] { assert Suffix(ls, s, i, j, ws[1..]); }
      }
    }
  }

  /** The scan finds a suffix exactly if there is one. */
  lemma SuffixIs(ls: Letters, s: string, i: nat, j: nat, ws: seq<string>)
    requires i <= |s| && Words(ws)
    ensures Suffix(ls, s, i, j, ws) <==> SuffixEnd(ls, s, i, ws) == Some(j)
  {
    SuffixScan(ls, s, i, ws);
    var r := SuffixEnd(ls, s, i, ws);
    if Suffix(ls, s, i, j, ws) { SuffixOnce(ls, s, i, j, r.value, ws, ws); }
  }

  lemma IntSuffixIs(ls: Letters, s: string, i: nat, j: nat)
    requires i <= |s|
    ensures IntSuffix(ls, s, i, j) <==> j == IntSuffixEnd(ls, s, i) != i
  {
    UnitsAreWords();
    if Is(s, i, 'u') || Is(s, i, 'i') { SuffixIs(ls, s, i + 1, j, WIDTHS); }
  }

  lemma {:induction false} DigitRunIs(s: string, i: nat)
    requires i <= |s|
    ensures var e := DigitRun(s, i); !DigitAt(Dec, s, e) && forall p :: i <= p < e ==> Digit(s[p])
    decreases |s| - i
  {
    if DigitAt(Dec, s, i) { DigitRunIs(s, i + 1); }
  }

  lemma WidthTexts(s: string, i: nat, t: string)
    requires i + 3 <= |s| && |t| == 2
    ensures s[i..i + 3] == ['f'] + t <==> s[i] == 'f' && s[i + 1..i + 3] == t
  {
    assert s[i..i + 3] == [s[i]] + s[i + 1..i + 3];
  }

  lemma FloatSuffixIs(s: string, i: nat, j: nat)
    requires i <= |s|
    ensures FloatSuffix(s, i, j) <==> j == FloatSuffixEnd(s, i) != i
  {
    DigitRunIs(s, i + if i < |s| then 1 else 0);
    if i + 3 <= |s| {
      WidthTexts(s, i, "32");
      WidthTexts(s, i, "64");
    }
    if FloatSuffix(s, i, j) {
      var e := DigitRun(s, i + 1);
      assert s[i + 1] == s[i + 1..i + 3][0] && s[i + 2] == s[i + 1..i + 3][1];
    }
  }

  // ----- numbers with a base -----

  lemma BasedMost(ls: Letters, s: string, i: nat, j: nat, b: Base)
    requires BaseHead(s, i, b) && b != Dec
    ensures var end := Based(ls, s, i + 2, b).end; BasedInt(ls, s, i, end, b) && (BasedInt(ls, s, i, j, b) ==> j <= end)
  {
    var d := RunEnd(b, s, i + 2);
    Run(b, s, i + 2);
    assert BasedDigits(s, i, d, b);
    IntSuffixIs(ls, s, d, IntSuffixEnd(ls, s, d));
    if BasedInt(ls, s, i, j, b) {
      var m :| 0 <= m <= |s| && BasedDigits(s, i, m, b) && (j == m || IntSuffix(ls, s, m, j));
      RunMost(b, s, i + 2, m);
      if IntSuffix(ls, s, m, j) { IntSuffixIs(ls, s, d, j); }
    }
  }

  // ----- decimal numbers -----

  /** A decimal number begins here, and its digits end at `d`. */
  ghost predicate DecimalAt(s: string, i: nat, d: nat) {
    && i < |s| && Digit(s[i]) && !BaseHead(s, i, Hex) && !BaseHead(s, i, Oct) && !BaseHead(s, i, Bin)
    && d == RunEnd(Dec, s, i)
  }

  lemma WholeMost(s: string, i: nat, d: nat, m: nat)
    requires DecimalAt(s, i, d) && Whole(s, i, m)
    ensures m <= d && (m < |s| && !Digit(s[m]) && s[m] != '_' ==> m == d)
  {
    RunMost(Dec, s, i, m);
  }

  lemma WholeReached(s: string, i: nat, d: nat)
    requires DecimalAt(s, i, d)
    ensures Whole(s, i, d)
  {
    Run(Dec, s, i);
    assert Digits(Dec, s, i, i + 1);
    RunMost(Dec, s, i, i + 1);
  }

  lemma IntsMost(ls: Letters, s: string, i: nat, d: nat, j: nat)
    requires DecimalAt(s, i, d) && DecimalInt(ls, s, i, j)
    ensures j <= d || IntSuffix(ls, s, d, j)
  {
    var m :| i < m <= |s| && Whole(s, i, m) && (j == m || IntSuffix(ls, s, m, j));
    WholeMost(s, i, d, m);
  }

  /** No unit starts with a digit. */
  predicate Lettered(ws: seq<string>) { forall k :: 0 <= k < |ws| ==> ws[k] != "" && !Digit(ws[k][0]) }

  lemma MeasuredMost(ls: Letters, s: string, i: nat, d: nat, j: nat, units: seq<string>)
    requires DecimalAt(s, i, d) && Words(units) && Lettered(units)
    ensures Measured(ls, s, i, j, units) <==> Suffix(ls, s, d, j, units)
  {
    WholeReached(s, i, d);
    if Measured(ls, s, i, j, units) {
      var m :| i < m <= |s| && Whole(s, i, m) && Suffix(ls, s, m, j, units);
      SuffixChars(ls, s, m, j, units);
      assert s[m] == s[m..j][0];
      WholeMost(s, i, d, m);
    }
  }

  // ----- fractions and exponents -----

  lemma FractionMost(s: string, d: nat, f: nat)
    requires d <= |s|
    ensures HasFraction(s, d) ==> Fraction(s, d, FractionEnd(s, d).0)
    ensures Fraction(s, d, f) ==> HasFraction(s, d) && f <= FractionEnd(s, d).0
    ensures Fraction(s, d, f) && f < |s| && !Digit(s[f]) && s[f] != '_' ==> f == FractionEnd(s, d).0
  {
    if HasFraction(s, d) {
      Run(Dec, s, d + 1);
      assert Digits(Dec, s, d + 1, d + 2);
      RunMost(Dec, s, d + 1, d + 2);
    }
    if Fraction(s, d, f) { RunMost(Dec, s, d + 1, f); }
  }

  lemma ExponentMost(s: string, f: nat, x: nat)
    requires f <= |s|
    ensures HasExponent(s, f) ==> Exponent(s, f, ExponentEnd(s, f).0)
    ensures Exponent(s, f, x) ==> HasExponent(s, f) && x <= ExponentEnd(s, f).0
    ensures Exponent(s, f, x) && x < |s| && !Digit(s[x]) && s[x] != '_' ==> x == ExponentEnd(s, f).0
  {
    if HasExponent(s, f) {
      var g := SignEnd(s, f + 1);
      Run(Dec, s, g);
      assert Digits(Dec, s, g, g + 1);
      RunMost(Dec, s, g, g + 1);
    }
    if Exponent(s, f, x) {
      var g := if Is(s, f + 1, '+') || Is(s, f + 1, '-') then f + 2 else f + 1;
      assert Digits(Dec, s, g, x);
      RunMost(Dec, s, g, x);
    }
  }

  /** The end of the fraction and the exponent after the digits at `d`. */
  ghost function ScaleEnd(s: string, d: nat): nat
    requires d <= |s|
  {
    ExponentEnd(s, FractionEnd(s, d).0).0
  }

  predicate HasScale(s: string, d: nat)
    requires d <= |s|
  {
    HasFraction(s, d) || HasExponent(s, FractionEnd(s, d).0)
  }

  lemma ScaleReached(s: string, d: nat)
    requires d <= |s| && HasScale(s, d)
    ensures Scaled(s, d, ScaleEnd(s, d)) && d < ScaleEnd(s, d)
    ensures d < |s| && (s[d] == '.' || s[d] == 'e' || s[d] == 'E')
  {
    var f, x := FractionEnd(s, d).0, ScaleEnd(s, d);
    FractionMost(s, d, f);
    ExponentMost(s, f, x);
    if HasFraction(s, d) && HasExponent(s, f) { assert Fraction(s, d, f) && Exponent(s, f, x); }
  }

  lemma ScaleMost(s: string, d: nat, x: nat)
    requires d <= |s| && Scaled(s, d, x)
    ensures HasScale(s, d) && x <= ScaleEnd(s, d) && (Is(s, x, 'f') ==> x == ScaleEnd(s, d))
  {
    var f := FractionEnd(s, d).0;
    if Fraction(s, d, x) {
      FractionMost(s, d, x);
    } else if Exponent(s, d, x) {
      ExponentMost(s, d, x);
    } else {
      var g :| d < g <= |s| && Fraction(s, d, g) && Exponent(s, g, x);
      FractionMost(s, d, g);
      ExponentMost(s, g, x);
    }
  }

  lemma FloatMost(s: string, i: nat, d: nat, j: nat)
    requires DecimalAt(s, i, d) && Float(s, i, j)
    ensures HasScale(s, d) && j <= FloatSuffixEnd(s, ScaleEnd(s, d))
  {
    var m, x :| i < m < x <= |s| && Whole(s, i, m) && Scaled(s, m, x) && (j == x || FloatSuffix(s, x, j));
    WholeMost(s, i, d, m);
    ScaleMost(s, d, x);
    if FloatSuffix(s, x, j) {
      assert s[x] == s[x..j][0];
      FloatSuffixIs(s, x, j);
    }
  }

  lemma FloatReached(s: string, i: nat, d: nat)
    requires DecimalAt(s, i, d) && HasScale(s, d)
    ensures var end := FloatSuffixEnd(s, ScaleEnd(s, d)); d < end && Float(s, i, end)
  {
    var x := ScaleEnd(s, d);
    WholeReached(s, i, d);
    ScaleReached(s, d);
    FloatSuffixIs(s, x, FloatSuffixEnd(s, x));
  }

  // ----- the longest form -----

  lemma UnitsLettered()
    ensures Lettered(SIZES) && Lettered(DURATIONS)
  {
    forall k | 0 <= k < 6 ensures SIZES[k] != "" && !Digit(SIZES[k][0]) { }
    forall k | 0 <= k < 6 ensures DURATIONS[k] != "" && !Digit(DURATIONS[k][0]) { }
  }

  lemma UnitsApart(w: string)
    requires w in SIZES
    ensures w !in DURATIONS && w[0] != 'u' && w[0] != 'i' && w[0] != 'e' && w[0] != 'E' && w[0] != '.'
  {
  }

  lemma DurationsApart(w: string)
    requires w in DURATIONS
    ensures (w[0] == 'u' || w[0] == 'i' ==> w[1..] !in WIDTHS) && w[0] != 'e' && w[0] != 'E' && w[0] != '.'
  {
  }

  /** After the digits, at most one of a size, a duration and a width can stand. */
  lemma OneSuffix(ls: Letters, s: string, d: nat, j: nat)
    requires d <= |s|
    ensures Suffix(ls, s, d, j, SIZES) ==> !Suffix(ls, s, d, j, DURATIONS) && !IntSuffix(ls, s, d, j)
    ensures Suffix(ls, s, d, j, DURATIONS) ==> !IntSuffix(ls, s, d, j)
    ensures Suffix(ls, s, d, j, SIZES) || Suffix(ls, s, d, j, DURATIONS) || IntSuffix(ls, s, d, j) ==>
              d < |s| && s[d] != '.' && s[d] != 'e' && s[d] != 'E'
  {
    if d < j <= |s| {
      assert s[d..j][0] == s[d] && s[d..j][1..] == s[d + 1..j];
      if s[d..j] in SIZES { UnitsApart(s[d..j]); }
      if s[d..j] in DURATIONS { DurationsApart(s[d..j]); }
    }
  }

  /** All three end where the name characters do. */
  lemma SameEnd(ls: Letters, s: string, d: nat, j: nat, k: nat)
    requires d <= |s|
    requires Suffix(ls, s, d, j, SIZES) || Suffix(ls, s, d, j, DURATIONS) || IntSuffix(ls, s, d, j)
    requires Suffix(ls, s, d, k, SIZES) || Suffix(ls, s, d, k, DURATIONS) || IntSuffix(ls, s, d, k)
    ensures j == k
  {
    SuffixWords(ls, s, d, j);
    SuffixWords(ls, s, d, k);
  }

  lemma SuffixWords(ls: Letters, s: string, d: nat, j: nat)
    requires d <= |s|
    requires Suffix(ls, s, d, j, SIZES) || Suffix(ls, s, d, j, DURATIONS) || IntSuffix(ls, s, d, j)
    ensures d < j <= |s| && (forall p :: d <= p < j ==> WordChar(s[p])) && (j < |s| ==> !WordChar(s[j]))
  {
    UnitsAreWords();
    if Suffix(ls, s, d, j, SIZES) { SuffixChars(ls, s, d, j, SIZES); }
    else if Suffix(ls, s, d, j, DURATIONS) { SuffixChars(ls, s, d, j, DURATIONS); }
    else { SuffixChars(ls, s, d + 1, j, WIDTHS); }
  }

  predicate NumberKind(k: Kind) { k == IntLit || k == FloatLit || k == SizeLit || k == DurationLit }

  /** What the scan takes after the digits is there. */
  lemma UnitFits(ls: Letters, s: string, d: nat)
    requires d <= |s|
    ensures
      var (k, e) := IntKindEnd(ls, s, d);
      match k
      case SizeLit => Suffix(ls, s, d, e, SIZES)
      case DurationLit => Suffix(ls, s, d, e, DURATIONS)
      case _ => k == IntLit && (e == d || IntSuffix(ls, s, d, e))
  {
    UnitsAreWords();
    SuffixScan(ls, s, d, SIZES);
    SuffixScan(ls, s, d, DURATIONS);
    IntSuffixIs(ls, s, d, IntSuffixEnd(ls, s, d));
  }

  /** And a suffix that is there is what it takes. */
  lemma UnitMost(ls: Letters, s: string, d: nat, k: Kind, j: nat)
    requires d <= |s|
    requires (k == SizeLit && Suffix(ls, s, d, j, SIZES)) || (k == DurationLit && Suffix(ls, s, d, j, DURATIONS))
             || (k == IntLit && IntSuffix(ls, s, d, j))
    ensures IntKindEnd(ls, s, d) == (k, j)
  {
    var (k', e) := IntKindEnd(ls, s, d);
    UnitFits(ls, s, d);
    UnitsAreWords();
    OneSuffix(ls, s, d, j);
    SuffixScan(ls, s, d, SIZES);
    SuffixScan(ls, s, d, DURATIONS);
    IntSuffixIs(ls, s, d, j);
    if k' != IntLit || e != d { SameEnd(ls, s, d, j, e); }
  }

  lemma DecimalFits(ls: Letters, s: string, i: nat, d: nat)
    requires DecimalAt(s, i, d)
    ensures var r := Decimal(ls, s, i); Fits(ls, r.kind.value, s, i, r.end)
  {
    WholeReached(s, i, d);
    if HasScale(s, d) {
      FloatReached(s, i, d);
    } else {
      UnitFits(ls, s, d);
    }
  }

  /** What a form says about the characters after the digits. */
  ghost predicate Part(ls: Letters, s: string, d: nat, k: Kind, j: nat)
    requires d <= |s|
  {
    match k
    case FloatLit => HasScale(s, d) && j <= FloatSuffixEnd(s, ScaleEnd(s, d))
    case SizeLit => Suffix(ls, s, d, j, SIZES)
    case DurationLit => Suffix(ls, s, d, j, DURATIONS)
    case _ => k == IntLit && (j <= d || IntSuffix(ls, s, d, j))
  }

  lemma FormPart(ls: Letters, s: string, i: nat, d: nat, k: Kind, j: nat)
    requires DecimalAt(s, i, d) && NumberKind(k) && Fits(ls, k, s, i, j)
    ensures Part(ls, s, d, k, j)
  {
    UnitsAreWords();
    UnitsLettered();
    match k
    case FloatLit => FloatMost(s, i, d, j);
    case SizeLit => MeasuredMost(ls, s, i, d, j, SIZES);
    case DurationLit => MeasuredMost(ls, s, i, d, j, DURATIONS);
    case IntLit => DecimalInts(ls, s, i, d, j);
  }

  lemma PartMost(ls: Letters, s: string, d: nat, k: Kind, j: nat)
    requires d <= |s| && Part(ls, s, d, k, j)
    ensures HasScale(s, d) && d < FloatSuffixEnd(s, ScaleEnd(s, d)) ==>
              j <= FloatSuffixEnd(s, ScaleEnd(s, d)) && (k != FloatLit ==> j <= d)
    ensures !HasScale(s, d) ==> j <= IntKindEnd(ls, s, d).1 && (j == IntKindEnd(ls, s, d).1 ==> k == IntKindEnd(ls, s, d).0)
  {
    if HasScale(s, d) {
      ScaleReached(s, d);
      OneSuffix(ls, s, d, j);
    } else if k == IntLit && j <= d {
      UnitFits(ls, s, d);
    } else {
      UnitMost(ls, s, d, k, j);
    }
  }

  lemma DecimalIs(ls: Letters, s: string, i: nat, d: nat)
    requires DecimalAt(s, i, d)
    ensures
      var r := Decimal(ls, s, i);
      if HasScale(s, d) then r.kind == Some(FloatLit) && r.end == FloatSuffixEnd(s, ScaleEnd(s, d))
      else r.kind == Some(IntKindEnd(ls, s, d).0) && r.end == IntKindEnd(ls, s, d).1
  {
  }

  lemma DecimalMost(ls: Letters, s: string, i: nat, d: nat, k: Kind, j: nat)
    requires DecimalAt(s, i, d) && NumberKind(k) && Fits(ls, k, s, i, j)
    ensures var r := Decimal(ls, s, i); j <= r.end && (j == r.end ==> k == r.kind.value)
  {
    FormPart(ls, s, i, d, k, j);
    if HasScale(s, d) { FloatReached(s, i, d); }
    PartMost(ls, s, d, k, j);
    DecimalIs(ls, s, i, d);
  }

  lemma DecimalInts(ls: Letters, s: string, i: nat, d: nat, j: nat)
    requires DecimalAt(s, i, d) && Fits(ls, IntLit, s, i, j)
    ensures j <= d || IntSuffix(ls, s, d, j)
  {
    assert forall b :: !BasedInt(ls, s, i, j, b);
    IntsMost(ls, s, i, d, j);
  }

  /** The letter after the zero decides the base. */
  lemma BaseOnce(s: string, i: nat, b: Base, c: Base)
    requires BaseHead(s, i, b) && BaseHead(s, i, c)
    ensures b == c && BaseAt(s, i) == b
  {
  }

  lemma NumberIs(ls: Letters, s: string, i: nat)
    requires i < |s| && Digit(s[i])
    ensures var b := BaseAt(s, i); Number(ls, s, i) == if BaseHead(s, i, b) then Based(ls, s, i + 2, b) else Decimal(ls, s, i)
    ensures !BaseHead(s, i, BaseAt(s, i)) ==> BaseAt(s, i) == Dec && DecimalAt(s, i, RunEnd(Dec, s, i))
  {
  }

  lemma NumberFits(ls: Letters, s: string, i: nat)
    requires i < |s| && Digit(s[i])
    ensures var r := Number(ls, s, i); NumberKind(r.kind.value) && Fits(ls, r.kind.value, s, i, r.end)
  {
    var b := BaseAt(s, i);
    NumberIs(ls, s, i);
    if BaseHead(s, i, b) {
      BasedMost(ls, s, i, i, b);
    } else {
      DecimalFits(ls, s, i, RunEnd(Dec, s, i));
      UnitFits(ls, s, RunEnd(Dec, s, i));
      DecimalIs(ls, s, i, RunEnd(Dec, s, i));
    }
  }

  /** After a base letter there are only integers of that base. */
  lemma BasedOnly(ls: Letters, s: string, i: nat, b: Base, k: Kind, j: nat)
    requires BaseHead(s, i, b) && NumberKind(k) && Fits(ls, k, s, i, j)
    ensures k == IntLit && BasedInt(ls, s, i, j, b)
  {
    assert forall m :: !Whole(s, i, m);
    if k == IntLit {
      var c :| BasedInt(ls, s, i, j, c);
      var m :| 0 <= m <= |s| && BasedDigits(s, i, m, c) && (j == m || IntSuffix(ls, s, m, j));
      BaseOnce(s, i, b, c);
    }
  }

  lemma NumberMost(ls: Letters, s: string, i: nat, k: Kind, j: nat)
    requires i < |s| && Digit(s[i]) && NumberKind(k) && Fits(ls, k, s, i, j)
    ensures var r := Number(ls, s, i); j <= r.end && (j == r.end ==> k == r.kind.value)
  {
    var b := BaseAt(s, i);
    NumberIs(ls, s, i);
    if BaseHead(s, i, b) {
      BasedOnly(ls, s, i, b, k, j);
      BasedMost(ls, s, i, j, b);
    } else {
      DecimalMost(ls, s, i, RunEnd(Dec, s, i), k, j);
    }
  }

  /** A count of bytes is a size, unless it is a plain zero: `0B` is a base without digits. */
  lemma CountsOfBytes(ls: Letters, s: string, i: nat, d: nat)
    requires i < d < |s| && Digits(Dec, s, i, d) && s[d] == 'B' && !MoreAt(ls, s, d + 1)
    ensures var r := Number(ls, s, i); r.end == d + 1 && r.kind == Some(if s[i..d] == "0" then IntLit else SizeLit)
  {
    if BaseHead(s, i, BaseAt(s, i)) { ZeroBytes(ls, s, i, d); } else { SomeBytes(ls, s, i, d); }
  }

  lemma SomeBytes(ls: Letters, s: string, i: nat, d: nat)
    requires i < d < |s| && Digits(Dec, s, i, d) && s[d] == 'B' && !MoreAt(ls, s, d + 1) && !BaseHead(s, i, BaseAt(s, i))
    ensures var r := Number(ls, s, i); r.end == d + 1 && r.kind == Some(SizeLit) && s[i..d] != "0"
  {
    NumberIs(ls, s, i);
    assert Whole(s, i, d);
    WholeMost(s, i, RunEnd(Dec, s, i), d);
    assert s[d..d + 1] == SIZES[3];
    UnitMost(ls, s, d, SizeLit, d + 1);
    DecimalIs(ls, s, i, d);
    assert !(s[i] == '0' && d == i + 1);
    assert |s[i..d]| == d - i && s[i..d][0] == s[i];
  }

  /** Only a zero reaches the letter of a base. */
  lemma BaseLetter(s: string, i: nat, d: nat)
    requires i < d < |s| && Digits(Dec, s, i, d) && s[d] == 'B' && BaseHead(s, i, BaseAt(s, i))
    ensures d == i + 1 && s[i..d] == "0" && BaseHead(s, i, Bin)
  {
  }

  lemma NoDigits(ls: Letters, s: string, i: nat, j: nat)
    requires BaseHead(s, i, Bin) && BasedInt(ls, s, i, j, Bin) && !MoreAt(ls, s, i + 2)
    ensures j == i + 2
  {
    var m :| 0 <= m <= |s| && BasedDigits(s, i, m, Bin) && (j == m || IntSuffix(ls, s, m, j));
    assert Digits(Bin, s, i + 2, m);
  }

  lemma ZeroBytes(ls: Letters, s: string, i: nat, d: nat)
    requires i < d < |s| && Digits(Dec, s, i, d) && s[d] == 'B' && !MoreAt(ls, s, d + 1) && BaseHead(s, i, BaseAt(s, i))
    ensures var r := Number(ls, s, i); r.end == d + 1 && r.kind == Some(IntLit) && s[i..d] == "0"
  {
    BaseLetter(s, i, d);
    NumberFits(ls, s, i);
    var r := Number(ls, s, i);
    BasedOnly(ls, s, i, Bin, r.kind.value, r.end);
    NoDigits(ls, s, i, r.end);
  }

  // ----- the underscores reported -----

  lemma {:induction false} MarksJoin(b: Base, s: string, i: nat, k: nat, j: nat)
    requires i <= k <= j
    ensures BadMarks(b, s, i, j) == BadMarks(b, s, i, k) + BadMarks(b, s, k, j)
    decreases k - i
  {
    if i < k { MarksJoin(b, s, i + 1, k, j); }
  }

  lemma {:induction false} NoMarks(b: Base, s: string, i: nat, j: nat)
    requires forall p :: i <= p < j ==> !Is(s, p, '_')
    ensures BadMarks(b, s, i, j) == []
    decreases j - i
  {
    if i < j { NoMarks(b, s, i + 1, j); }
  }

  /** In a run only the last character can be an underscore that no digit follows. */
  lemma {:induction false} RunMarks(b: Base, s: string, i: nat, p: nat)
    requires i <= |s| && i <= p <= RunEnd(b, s, i)
    ensures BadMarks(b, s, p, RunEnd(b, s, i)) == if p < RunEnd(b, s, i) then DigitNote(DigitsEnd(b, s, i, false, false)) else []
    decreases RunEnd(b, s, i) - p
  {
    var e := RunEnd(b, s, i);
    Run(b, s, i);
    if p < e {
      RunMarks(b, s, i, p + 1);
      if p + 1 < e { assert !DoubleMark(s, p + 1); }
    }
  }

  lemma RunNote(b: Base, s: string, i: nat)
    requires i <= |s|
    ensures BadMarks(b, s, i, RunEnd(b, s, i)) == DigitNote(DigitsEnd(b, s, i, false, false))
  {
    Run(b, s, i);
    RunMarks(b, s, i, i);
  }

  lemma SuffixMarks(ls: Letters, b: Base, s: string, d: nat, j: nat)
    requires d <= |s|
    requires j == d || Suffix(ls, s, d, j, SIZES) || Suffix(ls, s, d, j, DURATIONS) || IntSuffix(ls, s, d, j)
    ensures BadMarks(b, s, d, j) == []
  {
    if j != d { SuffixWords(ls, s, d, j); }
    NoMarks(b, s, d, j);
  }

  lemma BasedNotes(ls: Letters, s: string, i: nat, b: Base)
    requires BaseHead(s, i, b)
    ensures var r := Based(ls, s, i + 2, b); r.notes == BadMarks(b, s, i, r.end)
  {
    var d, e := RunEnd(b, s, i + 2), Based(ls, s, i + 2, b).end;
    IntSuffixIs(ls, s, d, e);
    NoMarks(b, s, i, i + 2);
    RunNote(b, s, i + 2);
    SuffixMarks(ls, b, s, d, e);
    MarksJoin(b, s, i, i + 2, e);
    MarksJoin(b, s, i + 2, d, e);
  }

  lemma FractionNotes(s: string, d: nat)
    requires d <= |s|
    ensures var f := FractionEnd(s, d); BadMarks(Dec, s, d, f.0) == DigitNote(f)
  {
    if HasFraction(s, d) {
      NoMarks(Dec, s, d, d + 1);
      RunNote(Dec, s, d + 1);
      MarksJoin(Dec, s, d, d + 1, RunEnd(Dec, s, d + 1));
    }
  }

  lemma ExponentNotes(s: string, f: nat)
    requires f <= |s|
    ensures var x := ExponentEnd(s, f); BadMarks(Dec, s, f, x.0) == DigitNote(x)
  {
    if HasExponent(s, f) {
      var g := SignEnd(s, f + 1);
      NoMarks(Dec, s, f, g);
      RunNote(Dec, s, g);
      MarksJoin(Dec, s, f, g, RunEnd(Dec, s, g));
    }
  }

  lemma FloatTail(s: string, x: nat)
    requires x <= |s|
    ensures BadMarks(Dec, s, x, FloatSuffixEnd(s, x)) == []
  {
    var e := FloatSuffixEnd(s, x);
    FloatSuffixIs(s, x, e);
    if e != x { assert s[x] == s[x..e][0] && s[x + 1] == s[x..e][1] && s[x + 2] == s[x..e][2]; }
    NoMarks(Dec, s, x, e);
  }

  lemma DecimalNotes(ls: Letters, s: string, i: nat, d: nat)
    requires DecimalAt(s, i, d)
    ensures var r := Decimal(ls, s, i); r.notes == BadMarks(Dec, s, i, r.end)
  {
    var f, x, e := FractionEnd(s, d).0, ScaleEnd(s, d), Decimal(ls, s, i).end;
    DecimalIs(ls, s, i, d);
    RunNote(Dec, s, i);
    FractionNotes(s, d);
    ExponentNotes(s, f);
    if HasScale(s, d) {
      FloatTail(s, x);
    } else {
      UnitFits(ls, s, d);
      SuffixMarks(ls, Dec, s, d, e);
    }
    MarksJoin(Dec, s, i, d, e);
    MarksJoin(Dec, s, d, f, e);
    MarksJoin(Dec, s, f, x, e);
  }

  lemma NumberNotes(ls: Letters, s: string, i: nat)
    requires i < |s| && Digit(s[i])
    ensures var r := Number(ls, s, i); r.notes == Faults(r.kind.value, s, i, r.end)
  {
    var b := BaseAt(s, i);
    NumberIs(ls, s, i);
    NumberFits(ls, s, i);
    if BaseHead(s, i, b) { BasedNotes(ls, s, i, b); } else { DecimalNotes(ls, s, i, RunEnd(Dec, s, i)); }
  }
}
