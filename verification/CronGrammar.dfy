/** Which texts the parser of cron items accepts, and what they denote, as a grammar
    on the text alone. */
module CronGrammar {
  import opened CronNext
  import opened CronParser
  import opened CronSpan

  /** Decimal digits, leading zeros allowed. */
  predicate Digital(s: string, n: int) {
    s != "" && AllDigits(s) && DigitsValue(s) == n
  }

  /** Digits, with a plus sign or none, that fit an int. */
  predicate Unsigned(s: string, n: int) {
    n <= INT_MAX && (Digital(s, n) || (s != "" && s[0] == '+' && Digital(s[1..], n)))
  }

  predicate Numeral(s: string, n: int) {
    Unsigned(s, n) || (s != "" && s[0] == '-' && -INT_MAX - 1 <= n && Digital(s[1..], -n))
  }

  /** "*", a value, or a range whose first bound has no minus sign. */
  ghost predicate BaseDenotes(b: string, stepped: bool, min: int, max: int, lo: int, hi: int) {
    || (b == "*" && lo == min && hi == max)
    || (Unsigned(b, lo) && min <= lo <= max && hi == if stepped then max else lo)
    || RangeDenotes(b, min, max, lo, hi)
  }

  ghost predicate RangeDenotes(b: string, min: int, max: int, lo: int, hi: int) {
    min <= lo <= hi <= max && exists x: string, y: string :: Unsigned(x, lo) && Numeral(y, hi) && b == x + "-" + y
  }

  /** A base, or a base, a slash and a positive step. */
  ghost predicate ItemDenotes(text: string, min: int, max: int, s: Span) {
    || (s.step == 1 && BaseDenotes(text, false, min, max, s.lo, s.hi))
    || (1 <= s.step && exists b: string, t: string ::
          BaseDenotes(b, true, min, max, s.lo, s.hi) && Numeral(t, s.step) && text == b + "/" + t)
  }

  lemma AtoiIff(s: string, n: int)
    ensures Atoi(s) == Some(n) <==> Numeral(s, n)
  {
  }

  predicate Digit(c: char) { '0' <= c <= '9' }

  /** A numeral is digits after at most one sign. */
  lemma NumeralChars(s: string, n: int)
    requires Numeral(s, n)
    ensures s != "" && (Digit(s[0]) || s[0] == '+' || s[0] == '-') && (Unsigned(s, n) ==> s[0] != '-')
    ensures forall i :: 0 < i < |s| ==> Digit(s[i])
  {
    forall i | 0 < i < |s| ensures Digit(s[i]) {
      assert s[1..][i - 1] == s[i];
    }
  }

  lemma UnsignedChars(s: string, n: int)
    requires Unsigned(s, n)
    ensures '-' !in s && '/' !in s && s != "*" && s != ""
  {
    NumeralChars(s, n);
  }

  lemma CutJoins(s: string, c: char)
    ensures var p := Cut(s, c); c !in p.before && (if p.found then s == p.before + [c] + p.after else s == p.before)
  {
  }

  lemma ValueIff(s: string, min: int, max: int, v: int)
    ensures ParseCronValue(s, min, max) == Some(v) <==> Numeral(s, v) && min <= v <= max
  {
    AtoiIff(s, v);
  }

  lemma BaseParses(b: string, stepped: bool, min: int, max: int, lo: int, hi: int)
    requires min <= max && BaseDenotes(b, stepped, min, max, lo, hi)
    ensures ParseBase(b, stepped, min, max) == Some((lo, hi)) && '/' !in b && b != ""
  {
    if b == "*" {
    } else if Unsigned(b, lo) {
      UnsignedChars(b, lo);
      CutAfter(b, '-', "");
      ValueIff(b, min, max, lo);
    } else {
      RangeParses(b, stepped, min, max, lo, hi);
    }
  }

  lemma RangeParses(b: string, stepped: bool, min: int, max: int, lo: int, hi: int)
    requires min <= max && RangeDenotes(b, min, max, lo, hi)
    ensures ParseBase(b, stepped, min, max) == Some((lo, hi)) && '/' !in b && b != ""
  {
    var x: string, y: string :| Unsigned(x, lo) && Numeral(y, hi) && b == x + "-" + y;
    UnsignedChars(x, lo);
    NumeralChars(y, hi);
    ValueIff(x, min, max, lo);
    ValueIff(y, min, max, hi);
    SplitBase(x, y, lo, hi, stepped, min, max);
    assert '/' !in x && '/' !in y;
  }

  lemma ParsedBase(b: string, stepped: bool, min: int, max: int, lo: int, hi: int)
    requires min <= max && ParseBase(b, stepped, min, max) == Some((lo, hi))
    ensures BaseDenotes(b, stepped, min, max, lo, hi)
  {
    CutJoins(b, '-');
    var p := Cut(b, '-');
    if b != "*" {
      ValueIff(p.before, min, max, lo);
      NoMinus(p.before, lo);
      if p.found {
        ValueIff(p.after, min, max, hi);
        assert Unsigned(p.before, lo) && Numeral(p.after, hi) && b == p.before + "-" + p.after;
      }
    }
  }

  /** Without a minus sign a numeral is unsigned. */
  lemma NoMinus(s: string, n: int)
    ensures Numeral(s, n) && '-' !in s ==> Unsigned(s, n)
  {
  }

  /** The parser accepts exactly the texts of the grammar and reads them as it says:
      signs, leading zeros and the int range included. */
  lemma ParseItemIff(text: string, min: int, max: int, s: Span)
    requires min <= max
    ensures ParseItem(text, min, max) == Some(s) <==> ItemDenotes(text, min, max, s)
  {
    CutJoins(text, '/');
    var p := Cut(text, '/');
    if ParseItem(text, min, max) == Some(s) {
      ParsedBase(p.before, p.found, min, max, s.lo, s.hi);
      AtoiIff(p.after, s.step);
      if p.found {
        assert BaseDenotes(p.before, true, min, max, s.lo, s.hi) && Numeral(p.after, s.step) && text == p.before + "/" + p.after;
      }
    }
    if ItemDenotes(text, min, max, s) {
      ItemParses(text, min, max, s);
    }
  }

  lemma ItemParses(text: string, min: int, max: int, s: Span)
    requires min <= max && ItemDenotes(text, min, max, s)
    ensures ParseItem(text, min, max) == Some(s)
  {
    if s.step == 1 && BaseDenotes(text, false, min, max, s.lo, s.hi) {
      BaseParses(text, false, min, max, s.lo, s.hi);
      CutAfter(text, '/', "");
    } else {
      var b: string, t: string :|
        BaseDenotes(b, true, min, max, s.lo, s.hi) && Numeral(t, s.step) && text == b + "/" + t;
      BaseParses(b, true, min, max, s.lo, s.hi);
      AtoiIff(t, s.step);
      CutAfter(b, '/', t);
    }
  }

  ghost predicate Accepted(text: string, min: int, max: int) {
    exists s: Span :: ItemDenotes(text, min, max, s)
  }

  lemma AcceptedIff(text: string, min: int, max: int)
    requires min <= max
    ensures ParseItem(text, min, max).Some? <==> Accepted(text, min, max)
  {
    var r := ParseItem(text, min, max);
    if r.Some? { ParseItemIff(text, min, max, r.value); }
    if Accepted(text, min, max) {
      var s: Span :| ItemDenotes(text, min, max, s);
      ParseItemIff(text, min, max, s);
    }
  }

  /** A value that some item of the list denotes, folded. */
  ghost predicate Denoted(parts: seq<string>, min: int, max: int, foldSunday: bool, w: int) {
    exists k: int, s: Span, v: int ::
      0 <= k < |parts| && ItemDenotes(parts[k], min, max, s) && Reached(s, v) && Fold(foldSunday, v) == w
  }

  lemma SelectsIff(parts: seq<string>, min: int, max: int, foldSunday: bool, w: int)
    requires min <= max
    ensures Selects(parts, min, max, foldSunday, w) <==> Denoted(parts, min, max, foldSunday, w)
  {
    if Selects(parts, min, max, foldSunday, w) {
      var k, v :| 0 <= k < |parts| && ItemSelects(parts[k], min, max, v) && Fold(foldSunday, v) == w;
      ParseItemIff(parts[k], min, max, ParseItem(parts[k], min, max).value);
    }
    if Denoted(parts, min, max, foldSunday, w) {
      var k: int, s: Span, v: int :|
        0 <= k < |parts| && ItemDenotes(parts[k], min, max, s) && Reached(s, v) && Fold(foldSunday, v) == w;
      ParseItemIff(parts[k], min, max, s);
      assert ItemSelects(parts[k], min, max, v);
    }
  }

  ghost predicate AllAccepted(parts: seq<string>, min: int, max: int) {
    forall k :: 0 <= k < |parts| ==> Accepted(parts[k], min, max)
  }

  lemma AllAcceptedIff(parts: seq<string>, min: int, max: int)
    requires min <= max
    ensures AllAccepted(parts, min, max) <==> !exists k :: 0 <= k < |parts| && ParseItem(parts[k], min, max).None?
  {
    forall k | 0 <= k < |parts| ensures ParseItem(parts[k], min, max).Some? <==> Accepted(parts[k], min, max) {
      AcceptedIff(parts[k], min, max);
    }
  }

  /** A value that some item of the list is documented to have, folded. */
  ghost predicate Documented(parts: seq<string>, min: int, max: int, foldSunday: bool, w: int) {
    exists k: int, s: Span, v: int ::
      0 <= k < |parts| && ItemDenotes(parts[k], min, max, s) && InSpan(s, v) && Fold(foldSunday, v) == w
  }

  lemma SteppedIff(parts: seq<string>, min: int, max: int, foldSunday: bool, w: int)
    requires min <= max
    ensures Stepped(parts, min, max, foldSunday, w) <==> Documented(parts, min, max, foldSunday, w)
  {
    if Stepped(parts, min, max, foldSunday, w) {
      var k, v :| 0 <= k < |parts| && ItemSteps(parts[k], min, max, v) && Fold(foldSunday, v) == w;
      ParseItemIff(parts[k], min, max, ParseItem(parts[k], min, max).value);
    }
    if Documented(parts, min, max, foldSunday, w) {
      var k: int, s: Span, v: int :|
        0 <= k < |parts| && ItemDenotes(parts[k], min, max, s) && InSpan(s, v) && Fold(foldSunday, v) == w;
      ParseItemIff(parts[k], min, max, s);
      assert ItemSteps(parts[k], min, max, v);
    }
  }

  ghost predicate NeverWraps(text: string, min: int, max: int) {
    forall s: Span :: ItemDenotes(text, min, max, s) ==> Fits(s)
  }

  lemma NeverWrapsIff(text: string, min: int, max: int)
    requires min <= max
    ensures NeverWraps(text, min, max) <==> ItemFits(text, min, max)
  {
    var r := ParseItem(text, min, max);
    if r.Some? { ParseItemIff(text, min, max, r.value); }
    if ItemFits(text, min, max) {
      forall s: Span | ItemDenotes(text, min, max, s) ensures Fits(s) {
        ParseItemIff(text, min, max, s);
      }
    }
  }

  /** No item of the list has a step that wraps. */
  ghost predicate NoneWraps(parts: seq<string>, min: int, max: int) {
    forall k :: 0 <= k < |parts| ==> NeverWraps(parts[k], min, max)
  }

  lemma NoneWrapsIff(parts: seq<string>, min: int, max: int)
    requires min <= max
    ensures NoneWraps(parts, min, max) <==> StepsFit(parts, min, max)
  {
    forall k | 0 <= k < |parts| ensures NeverWraps(parts[k], min, max) <==> ItemFits(parts[k], min, max) {
      NeverWrapsIff(parts[k], min, max);
    }
  }

  /** A field parses exactly when every item of its comma list is in the grammar, and
      then to the values the items' loops add; these are the documented ones exactly
      when no item's step wraps. */
  lemma FieldGrammar(spec: string, min: int, max: int, foldSunday: bool, r: Option<set<int>>)
    requires Bounds(min, max) && (foldSunday ==> min == 0 && max == 7) && FieldMeans(spec, min, max, foldSunday, r)
    ensures r.Some? <==> AllAccepted(Split(spec, ','), min, max)
    ensures r.Some? ==> forall w :: w in r.value <==> Denoted(Split(spec, ','), min, max, foldSunday, w)
    ensures r.Some? ==> ((forall w :: w in r.value <==> Documented(Split(spec, ','), min, max, foldSunday, w))
                         <==> NoneWraps(Split(spec, ','), min, max))
  {
    var parts := Split(spec, ',');
    AllAcceptedIff(parts, min, max);
    if r.Some? {
      forall w ensures w in r.value <==> Denoted(parts, min, max, foldSunday, w) {
        SelectsIff(parts, min, max, foldSunday, w);
      }
      forall w ensures Stepped(parts, min, max, foldSunday, w) <==> Documented(parts, min, max, foldSunday, w) {
        SteppedIff(parts, min, max, foldSunday, w);
      }
      NoneWrapsIff(parts, min, max);
      FieldRightIff(spec, min, max, foldSunday, r.value);
    }
  }
}
