/** The parser of 5-field cron expressions. */
module CronParser {
  import opened Arithmetic
  import opened CronNext
  import opened CronSpan
  import opened CronWords

  // ---------------------------------------------------------------------
  // Text
  // ---------------------------------------------------------------------

  predicate AllDigits(s: string) {
    forall i :: 0 <= i < |s| ==> '0' <= s[i] <= '9'
  }

  function DigitsValue(s: string): (n: nat)
    requires AllDigits(s)
  {
    if s == [] then 0 else DigitsValue(s[..|s| - 1]) * 10 + (s[|s| - 1] as int - '0' as int)
  }

  /** strconv.Atoi: an optional sign, digits, and the range of a 64-bit int. */
  function Atoi(s: string): Option<int> {
    var signed := s != [] && (s[0] == '-' || s[0] == '+');
    var body := if signed then s[1..] else s;
    if body == [] || !AllDigits(body) then None
    else
      var n: int := DigitsValue(body);
      if signed && s[0] == '-' then (if n <= 0x8000_0000_0000_0000 then Some(-n) else None)
      else if n < 0x8000_0000_0000_0000 then Some(n) else None
  }

  /** Position of the first c, or the length. */
  function Find(s: string, c: char): (i: nat)
    ensures i <= |s| && (i < |s| ==> s[i] == c) && forall j :: 0 <= j < i ==> s[j] != c
  {
    if s == [] || s[0] == c then 0 else 1 + Find(s[1..], c)
  }

  datatype Pieces = Pieces(before: string, found: bool, after: string)

  /** strings.Cut around the first c. */
  function Cut(s: string, c: char): (p: Pieces)
    ensures p.found ==> |p.before| + |p.after| + 1 == |s|
  {
    var i := Find(s, c);
    if i == |s| then Pieces(s, false, "") else Pieces(s[..i], true, s[i + 1..])
  }

  /** strings.Split on one character. */
  function Split(s: string, c: char): (parts: seq<string>)
    ensures |parts| >= 1
    decreases |s|
  {
    var p := Cut(s, c);
    if !p.found then [s] else [p.before] + Split(p.after, c)
  }

  // ---------------------------------------------------------------------
  // One list item
  // ---------------------------------------------------------------------

  function ParseCronValue(s: string, min: int, max: int): (v: Option<int>)
    ensures v.Some? ==> min <= v.value <= max
  {
    var n := Atoi(s);
    if n.Some? && min <= n.value <= max then n else None
  }

  function ParseBase(base: string, hasStep: bool, min: int, max: int): (r: Option<(int, int)>)
    requires min <= max
    ensures r.Some? ==> min <= r.value.0 <= r.value.1 <= max
  {
    var bounds := Cut(base, '-');
    if base == "*" then Some((min, max))
    else if bounds.found then
      var lo, hi := ParseCronValue(bounds.before, min, max), ParseCronValue(bounds.after, min, max);
      if lo.None? || hi.None? || lo.value > hi.value then None else Some((lo.value, hi.value))
    else
      var v := ParseCronValue(base, min, max);
      if v.None? then None else Some((v.value, if hasStep then max else v.value))
  }

  function ParseItem(part: string, min: int, max: int): (r: Option<Span>)
    requires min <= max
    ensures r.Some? ==> min <= r.value.lo <= r.value.hi <= max && 1 <= r.value.step <= INT_MAX
  {
    if part == "" then None
    else
      var p := Cut(part, '/');
      var step := if p.found then Atoi(p.after) else Some(1);
      var base := ParseBase(p.before, p.found, min, max);
      if step.None? || step.value < 1 || base.None? then None
      else Some(Span(base.value.0, base.value.1, step.value))
  }

  // ---------------------------------------------------------------------
  // One field
  // ---------------------------------------------------------------------

  function Fold(foldSunday: bool, v: int): int {
    if foldSunday && v == 7 then 0 else v
  }

  /** What the text of a field means: failure when an item is malformed, and
      otherwise the folded values of all its items. */
  ghost predicate FieldMeans(spec: string, min: int, max: int, foldSunday: bool, r: Option<set<int>>)
    requires min <= max
  {
    PartsMean(Split(spec, ','), min, max, foldSunday, r)
  }

  ghost predicate PartsMean(parts: seq<string>, min: int, max: int, foldSunday: bool, r: Option<set<int>>)
    requires min <= max
  {
    && (r.None? <==> exists k :: 0 <= k < |parts| && ParseItem(parts[k], min, max).None?)
    && (r.Some? ==> SelectedBy(parts, min, max, foldSunday, r.value))
  }

  ghost predicate Selects(parts: seq<string>, min: int, max: int, foldSunday: bool, w: int)
    requires min <= max
  {
    exists k, v :: 0 <= k < |parts| && ItemSelects(parts[k], min, max, v) && Fold(foldSunday, v) == w
  }

  ghost predicate ItemSelects(part: string, min: int, max: int, v: int)
    requires min <= max
  {
    ParseItem(part, min, max).Some? && Reached(ParseItem(part, min, max).value, v)
  }

  ghost predicate SelectedBy(parts: seq<string>, min: int, max: int, foldSunday: bool, s: set<int>)
    requires min <= max
  {
    forall w :: w in s <==> Selects(parts, min, max, foldSunday, w)
  }

  ghost predicate Gives(s: Span, foldSunday: bool, w: int) {
    exists v :: Reached(s, v) && Fold(foldSunday, v) == w
  }

  ghost predicate GivenBefore(s: Span, foldSunday: bool, n: nat, w: int) {
    exists k: nat :: k < n && Fold(foldSunday, Nth(s, k)) == w
  }

  /** The inner loop: add the values of a span. */
  method AddSpan(out: set<int>, s: Span, foldSunday: bool) returns (r: set<int>)
    requires ValidSpan(s)
    ensures forall w :: w in r <==> w in out || Gives(s, foldSunday, w)
  {
    r := out;
    var v := s.lo;
    ghost var n: nat := 0;
    while v <= s.hi
      invariant v == Nth(s, n) && OnCourse(s, v) && forall k: nat :: k < n ==> Nth(s, k) <= s.hi
      invariant forall w :: w in r <==> w in out || GivenBefore(s, foldSunday, n, w)
      decreases Left(s, v)
    {
      LeftFalls(s, v);
      r := r + {Fold(foldSunday, v)};
      v := Add64(v, s.step);
      n := n + 1;
      forall w ensures w in r <==> w in out || GivenBefore(s, foldSunday, n, w) {
        OneMoreGiven(s, foldSunday, n - 1, w);
      }
    }
    forall w ensures GivenBefore(s, foldSunday, n, w) <==> Gives(s, foldSunday, w) {
      AddedIsReached(s, foldSunday, n, w);
    }
  }

  lemma OneMoreGiven(s: Span, foldSunday: bool, n: nat, w: int)
    ensures GivenBefore(s, foldSunday, n + 1, w) <==> GivenBefore(s, foldSunday, n, w) || Fold(foldSunday, Nth(s, n)) == w
  {
  }

  lemma AddedIsReached(s: Span, foldSunday: bool, n: nat, w: int)
    requires Nth(s, n) > s.hi && forall k: nat :: k < n ==> Nth(s, k) <= s.hi
    ensures GivenBefore(s, foldSunday, n, w) <==> Gives(s, foldSunday, w)
  {
    if GivenBefore(s, foldSunday, n, w) {
      var k: nat :| k < n && Fold(foldSunday, Nth(s, k)) == w;
      assert Goes(s, k);
      assert Reached(s, Nth(s, k));
    }
    if Gives(s, foldSunday, w) {
      var v :| Reached(s, v) && Fold(foldSunday, v) == w;
      var k: nat :| Goes(s, k) && Nth(s, k) == v;
      assert k < n;
    }
  }

  /** The loop body: the k-th item joins the items before it. */
  method AddItem(parts: seq<string>, k: nat, min: int, max: int, foldSunday: bool, out: set<int>) returns (r: Option<set<int>>)
    requires Bounds(min, max) && k < |parts| && PartsMean(parts[..k], min, max, foldSunday, Some(out))
    ensures PartsMean(parts[..k + 1], min, max, foldSunday, r)
  {
    var item := ParseItem(parts[k], min, max);
    assert parts[..k + 1] == parts[..k] + [parts[k]];
    if item.None? {
      assert parts[..k + 1][k] == parts[k];
      return None;
    }
    var more := AddSpan(out, item.value, foldSunday);
    OneMorePart(parts, k, min, max, foldSunday, out, more);
    r := Some(more);
  }

  lemma PrefixFails(parts: seq<string>, k: nat, min: int, max: int, foldSunday: bool)
    requires min <= max && k <= |parts| && PartsMean(parts[..k], min, max, foldSunday, None)
    ensures PartsMean(parts, min, max, foldSunday, None)
  {
    var j :| 0 <= j < k && ParseItem(parts[..k][j], min, max).None?;
    assert parts[..k][j] == parts[j];
  }

  /** parseCronField's loop over the comma list. */
  method ParseItems(parts: seq<string>, min: int, max: int, foldSunday: bool) returns (r: Option<set<int>>)
    requires Bounds(min, max)
    ensures PartsMean(parts, min, max, foldSunday, r)
  {
    r := Some({});
    for k := 0 to |parts|
      invariant r.Some? && PartsMean(parts[..k], min, max, foldSunday, r)
    {
      r := AddItem(parts, k, min, max, foldSunday, r.value);
      if r.None? {
        PrefixFails(parts, k + 1, min, max, foldSunday);
        return;
      }
    }
    assert parts[..|parts|] == parts;
  }

  ghost predicate FieldOk(spec: string, min: int, max: int)
    requires min <= max
  {
    forall k :: 0 <= k < |Split(spec, ',')| ==> ParseItem(Split(spec, ',')[k], min, max).Some?
  }

  method ParseCronField(spec: string, min: int, max: int, foldSunday: bool) returns (r: Option<set<int>>)
    requires Bounds(min, max)
    ensures FieldMeans(spec, min, max, foldSunday, r)
    ensures r.Some? <==> FieldOk(spec, min, max)
  {
    r := ParseItems(Split(spec, ','), min, max, foldSunday);
  }

  /** Taking one more item in adds what that item gives. */
  lemma SelectsOneMore(parts: seq<string>, k: nat, min: int, max: int, foldSunday: bool, w: int)
    requires min <= max && k < |parts| && ParseItem(parts[k], min, max).Some?
    ensures Selects(parts[..k + 1], min, max, foldSunday, w) <==>
            Selects(parts[..k], min, max, foldSunday, w) || Gives(ParseItem(parts[k], min, max).value, foldSunday, w)
  {
    var less, all := parts[..k], parts[..k + 1];
    assert all[k] == parts[k] && forall j :: 0 <= j < k ==> all[j] == less[j];
    if Selects(less, min, max, foldSunday, w) {
      var j, v :| 0 <= j < k && ItemSelects(less[j], min, max, v) && Fold(foldSunday, v) == w;
      assert ItemSelects(all[j], min, max, v);
    }
    if Gives(ParseItem(parts[k], min, max).value, foldSunday, w) {
      var v :| Reached(ParseItem(parts[k], min, max).value, v) && Fold(foldSunday, v) == w;
      assert ItemSelects(all[k], min, max, v);
    }
    if Selects(all, min, max, foldSunday, w) {
      var j, v :| 0 <= j < k + 1 && ItemSelects(all[j], min, max, v) && Fold(foldSunday, v) == w;
      if j < k { assert ItemSelects(less[j], min, max, v); }
    }
  }

  lemma OneMorePart(parts: seq<string>, k: nat, min: int, max: int, foldSunday: bool, before: set<int>, after: set<int>)
    requires min <= max && k < |parts| && ParseItem(parts[k], min, max).Some?
    requires SelectedBy(parts[..k], min, max, foldSunday, before)
    requires forall w :: w in after <==>
               w in before || Gives(ParseItem(parts[k], min, max).value, foldSunday, w)
    ensures SelectedBy(parts[..k + 1], min, max, foldSunday, after)
  {
    forall w ensures w in after <==> Selects(parts[..k + 1], min, max, foldSunday, w) {
      SelectsOneMore(parts, k, min, max, foldSunday, w);
    }
  }

  /** The values the items are documented to have. */
  ghost predicate Stepped(parts: seq<string>, min: int, max: int, foldSunday: bool, w: int)
    requires min <= max
  {
    exists k, v :: 0 <= k < |parts| && ItemSteps(parts[k], min, max, v) && Fold(foldSunday, v) == w
  }

  predicate ItemSteps(part: string, min: int, max: int, v: int)
    requires min <= max
  {
    ParseItem(part, min, max).Some? && InSpan(ParseItem(part, min, max).value, v)
  }

  predicate ItemFits(part: string, min: int, max: int)
    requires min <= max
  {
    ParseItem(part, min, max).Some? ==> Fits(ParseItem(part, min, max).value)
  }

  predicate StepsFit(parts: seq<string>, min: int, max: int)
    requires min <= max
  {
    forall k :: 0 <= k < |parts| ==> ItemFits(parts[k], min, max)
  }

  lemma FittingItem(part: string, min: int, max: int, v: int)
    requires Bounds(min, max) && ItemFits(part, min, max)
    ensures ItemSelects(part, min, max, v) <==> ItemSteps(part, min, max, v)
  {
    var r := ParseItem(part, min, max);
    if r.Some? { SpanRightIff(r.value); }
  }

  lemma WrappingItem(parts: seq<string>, min: int, max: int, foldSunday: bool, k: nat) returns (w: int)
    requires Bounds(min, max) && k < |parts| && !ItemFits(parts[k], min, max)
    ensures w < 0 && Selects(parts, min, max, foldSunday, w)
  {
    var s := ParseItem(parts[k], min, max).value;
    WrapsBelow(s);
    w := s.lo + s.step - 0x1_0000_0000_0000_0000;
    assert ItemSelects(parts[k], min, max, w) && Fold(foldSunday, w) == w;
  }

  lemma FittingParts(parts: seq<string>, min: int, max: int, foldSunday: bool, w: int)
    requires Bounds(min, max) && StepsFit(parts, min, max)
    ensures Selects(parts, min, max, foldSunday, w) <==> Stepped(parts, min, max, foldSunday, w)
  {
    if Selects(parts, min, max, foldSunday, w) {
      var k, v :| 0 <= k < |parts| && ItemSelects(parts[k], min, max, v) && Fold(foldSunday, v) == w;
      FittingItem(parts[k], min, max, v);
    }
    if Stepped(parts, min, max, foldSunday, w) {
      var k, v :| 0 <= k < |parts| && ItemSteps(parts[k], min, max, v) && Fold(foldSunday, v) == w;
      FittingItem(parts[k], min, max, v);
    }
  }

  lemma SteppedInRange(parts: seq<string>, min: int, max: int, foldSunday: bool, w: int)
    requires min <= max && (foldSunday ==> min == 0 && max == 7) && Stepped(parts, min, max, foldSunday, w)
    ensures min <= w <= max && (foldSunday ==> w < 7)
  {
  }

  /** A parsed field has exactly the documented values if and only if no item's step
      wraps. */
  lemma FieldRightIff(spec: string, min: int, max: int, foldSunday: bool, s: set<int>)
    requires Bounds(min, max) && (foldSunday ==> min == 0 && max == 7)
    requires FieldMeans(spec, min, max, foldSunday, Some(s))
    ensures (forall w :: w in s <==> Stepped(Split(spec, ','), min, max, foldSunday, w))
            <==> StepsFit(Split(spec, ','), min, max)
  {
    var parts := Split(spec, ',');
    if StepsFit(parts, min, max) {
      forall w ensures w in s <==> Stepped(parts, min, max, foldSunday, w) {
        FittingParts(parts, min, max, foldSunday, w);
      }
    } else {
      var k: nat :| k < |parts| && !ItemFits(parts[k], min, max);
      var w := WrappingItem(parts, min, max, foldSunday, k);
      assert w in s;
      if Stepped(parts, min, max, foldSunday, w) {
        SteppedInRange(parts, min, max, foldSunday, w);
        assert false;
      }
    }
  }

  // ---------------------------------------------------------------------
  // Round trip: writing a field down and parsing it gives its meaning back
  // ---------------------------------------------------------------------

  datatype Base = Star | One(a: nat) | Range(a: nat, b: nat)
  datatype Item = Item(base: Base, step: Option<nat>)

  predicate ValidItem(it: Item, min: int, max: int) {
    && (it.step.Some? ==> 1 <= it.step.value < 0x8000_0000_0000_0000)
    && BaseInRange(it.base, min, max)
  }

  /** The documented meaning: "a/n" runs up to the field's maximum. */
  function ItemSpan(it: Item, min: int, max: int): Span {
    var step := if it.step.Some? then it.step.value else 1;
    match it.base
    case Star => Span(min, max, step)
    case One(a) => Span(a, if it.step.Some? then max else a, step)
    case Range(a, b) => Span(a, b, step)
  }

  function Digits(n: nat): (s: string)
    ensures s != [] && AllDigits(s)
  {
    var d := [('0' as int + n % 10) as char];
    if n < 10 then d else Digits(n / 10) + d
  }

  function RenderBase(b: Base): string {
    match b
    case Star => "*"
    case One(a) => Digits(a)
    case Range(a, b) => Digits(a) + "-" + Digits(b)
  }

  function Render(it: Item): string {
    if it.step.Some? then RenderBase(it.base) + "/" + Digits(it.step.value) else RenderBase(it.base)
  }

  lemma {:induction false} DigitsRoundTrip(n: nat)
    ensures DigitsValue(Digits(n)) == n
  {
    var s := Digits(n);
    if n >= 10 {
      DigitsRoundTrip(n / 10);
      assert s[..|s| - 1] == Digits(n / 10);
    } else {
      assert s[..|s| - 1] == [];
    }
  }

  lemma AtoiRoundTrip(n: nat)
    requires n < 0x8000_0000_0000_0000
    ensures Atoi(Digits(n)) == Some(n)
  {
    DigitsRoundTrip(n);
    assert '0' <= Digits(n)[0] <= '9';
  }

  lemma {:induction false} FindAfter(a: string, c: char, b: string)
    requires c !in a
    ensures Find(a + [c] + b, c) == |a|
    ensures Find(a, c) == |a|
  {
    if a != [] {
      FindAfter(a[1..], c, b);
      assert (a + [c] + b)[1..] == a[1..] + [c] + b;
    }
  }

  /** Cutting text at the first c, when the left part has none. */
  lemma CutAfter(a: string, c: char, b: string)
    requires c !in a
    ensures Cut(a + [c] + b, c) == Pieces(a, true, b)
    ensures Cut(a, c) == Pieces(a, false, "")
  {
    FindAfter(a, c, b);
    assert (a + [c] + b)[..|a|] == a && (a + [c] + b)[|a| + 1..] == b;
  }

  function BaseSpan(b: Base, hasStep: bool, min: int, max: int): (int, int) {
    match b
    case Star => (min, max)
    case One(a) => (a as int, if hasStep then max else a)
    case Range(x, y) => (x as int, y as int)
  }

  lemma SingleBase(s: string, a: nat, hasStep: bool, min: int, max: int)
    requires s != [] && AllDigits(s) && Atoi(s) == Some(a) && min <= a <= max
    ensures ParseBase(s, hasStep, min, max) == Some(BaseSpan(One(a), hasStep, min, max))
  {
    assert '0' <= s[0] <= '9';
    CutAfter(s, '-', "");
  }

  lemma SplitBase(s: string, t: string, x: int, y: int, hasStep: bool, min: int, max: int)
    requires s != [] && '-' !in s && ParseCronValue(s, min, max) == Some(x) && ParseCronValue(t, min, max) == Some(y)
    requires min <= x <= y <= max
    ensures ParseBase(s + "-" + t, hasStep, min, max) == Some((x, y))
  {
    var text := s + "-" + t;
    assert Cut(text, '-') == Pieces(s, true, t) by {
      CutAfter(s, '-', t);
    }
    assert |text| > 1;
  }

  lemma RangeBase(s: string, t: string, x: nat, y: nat, hasStep: bool, min: int, max: int)
    requires s != [] && AllDigits(s) && Atoi(s) == Some(x) && AllDigits(t) && Atoi(t) == Some(y)
    requires min <= x <= y <= max
    ensures ParseBase(s + "-" + t, hasStep, min, max) == Some(BaseSpan(Range(x, y), hasStep, min, max))
  {
    assert ParseCronValue(s, min, max) == Some(x as int) && ParseCronValue(t, min, max) == Some(y as int);
    assert '-' !in s;
    SplitBase(s, t, x, y, hasStep, min, max);
  }

  predicate BaseInRange(b: Base, min: int, max: int) {
    (b.One? ==> min <= b.a <= max) && (b.Range? ==> min <= b.a <= b.b <= max)
  }

  lemma BaseRoundTrip(b: Base, hasStep: bool, min: int, max: int)
    requires min <= max < 0x8000_0000_0000_0000 && BaseInRange(b, min, max)
    ensures ParseBase(RenderBase(b), hasStep, min, max) == Some(BaseSpan(b, hasStep, min, max))
  {
    match b
    case Star =>
    case One(a) =>
      AtoiRoundTrip(a);
      SingleBase(Digits(a), a, hasStep, min, max);
    case Range(x, y) =>
      AtoiRoundTrip(x);
      AtoiRoundTrip(y);
      RangeBase(Digits(x), Digits(y), x, y, hasStep, min, max);
  }

  lemma RenderedChars(b: Base)
    ensures '/' !in RenderBase(b) && ',' !in RenderBase(b) && RenderBase(b) != ""
  {
  }

  lemma SteppedItem(base: string, step: string, span: (int, int), n: int, min: int, max: int)
    requires min <= max && '/' !in base && Atoi(step) == Some(n) && 1 <= n
    requires ParseBase(base, true, min, max) == Some(span)
    ensures ParseItem(base + "/" + step, min, max) == Some(Span(span.0, span.1, n))
  {
    CutAfter(base, '/', step);
  }

  lemma PlainItem(base: string, span: (int, int), min: int, max: int)
    requires min <= max && base != "" && '/' !in base
    requires ParseBase(base, false, min, max) == Some(span)
    ensures ParseItem(base, min, max) == Some(Span(span.0, span.1, 1))
  {
    CutAfter(base, '/', "");
  }

  lemma ItemRoundTrip(it: Item, min: int, max: int)
    requires 0 <= min <= max < 0x8000_0000_0000_0000 && ValidItem(it, min, max)
    ensures ParseItem(Render(it), min, max) == Some(ItemSpan(it, min, max))
    ensures ',' !in Render(it)
  {
    RenderedChars(it.base);
    BaseRoundTrip(it.base, it.step.Some?, min, max);
    RenderedComma(it);
    var base, span := RenderBase(it.base), BaseSpan(it.base, it.step.Some?, min, max);
    if it.step.Some? {
      AtoiRoundTrip(it.step.value);
      SteppedItem(base, Digits(it.step.value), span, it.step.value, min, max);
    } else {
      PlainItem(base, span, min, max);
    }
  }

  lemma RenderedComma(it: Item)
    ensures ',' !in Render(it)
  {
    RenderedChars(it.base);
    if it.step.Some? {
      assert forall i :: 0 <= i < |Digits(it.step.value)| ==> '0' <= Digits(it.step.value)[i] <= '9';
    }
  }

  function RenderField(items: seq<Item>): string
    requires items != []
  {
    if |items| == 1 then Render(items[0]) else Render(items[0]) + "," + RenderField(items[1..])
  }

  function Rendered(items: seq<Item>): seq<string> {
    if items == [] then [] else [Render(items[0])] + Rendered(items[1..])
  }

  lemma SplitHead(head: string, rest: string)
    requires ',' !in head
    ensures Split(head + "," + rest, ',') == [head] + Split(rest, ',')
    ensures Split(head, ',') == [head]
  {
    CutAfter(head, ',', rest);
  }

  lemma {:induction false} SplitRendered(items: seq<Item>)
    requires items != [] && forall k :: 0 <= k < |items| ==> ',' !in Render(items[k])
    ensures Split(RenderField(items), ',') == Rendered(items)
  {
    if |items| == 1 {
      SplitHead(Render(items[0]), "");
      assert items[1..] == [];
    } else {
      SplitHead(Render(items[0]), RenderField(items[1..]));
      SplitRendered(items[1..]);
    }
  }

  lemma {:induction false} RenderedAt(items: seq<Item>, k: nat)
    requires k < |items|
    ensures |Rendered(items)| == |items| && Rendered(items)[k] == Render(items[k])
  {
    if k > 0 { RenderedAt(items[1..], k - 1); } else if |items| > 1 { RenderedAt(items[1..], 0); }
  }

  /** The documented meaning of a list of items. */
  ghost predicate Described(items: seq<Item>, min: int, max: int, foldSunday: bool, w: int) {
    exists k, v :: 0 <= k < |items| && InSpan(ItemSpan(items[k], min, max), v) && Fold(foldSunday, v) == w
  }

  ghost predicate ParsesTo(items: seq<Item>, parts: seq<string>, min: int, max: int)
    requires min <= max
  {
    |parts| == |items| && forall k :: 0 <= k < |items| ==>
      ParseItem(parts[k], min, max) == Some(ItemSpan(items[k], min, max))
  }

  lemma RenderedParses(items: seq<Item>, min: int, max: int)
    requires 0 <= min <= max < 0x8000_0000_0000_0000 && items != []
    requires forall k :: 0 <= k < |items| ==> ValidItem(items[k], min, max)
    ensures ParsesTo(items, Split(RenderField(items), ','), min, max)
  {
    forall k | 0 <= k < |items|
      ensures |Rendered(items)| == |items|
      ensures ParseItem(Rendered(items)[k], min, max) == Some(ItemSpan(items[k], min, max)) && ',' !in Render(items[k])
    {
      ItemRoundTrip(items[k], min, max);
      RenderedAt(items, k);
    }
    RenderedAt(items, 0);
    SplitRendered(items);
  }

  lemma SteppedIsDescribed(items: seq<Item>, parts: seq<string>, min: int, max: int, foldSunday: bool, w: int)
    requires min <= max && ParsesTo(items, parts, min, max)
    ensures Stepped(parts, min, max, foldSunday, w) <==> Described(items, min, max, foldSunday, w)
  {
    if Stepped(parts, min, max, foldSunday, w) {
      var k, v :| 0 <= k < |parts| && ItemSteps(parts[k], min, max, v) && Fold(foldSunday, v) == w;
      assert InSpan(ItemSpan(items[k], min, max), v);
    }
    if Described(items, min, max, foldSunday, w) {
      var k, v :| 0 <= k < |items| && InSpan(ItemSpan(items[k], min, max), v) && Fold(foldSunday, v) == w;
      assert ItemSteps(parts[k], min, max, v);
    }
  }

  /** Whatever the parser answers for a well-formed field is exactly the set the
      field's items describe, if and only if no step of theirs wraps. */
  lemma FieldRoundTrip(items: seq<Item>, min: int, max: int, foldSunday: bool, r: Option<set<int>>)
    requires Bounds(min, max) && (foldSunday ==> min == 0 && max == 7) && items != []
    requires forall k :: 0 <= k < |items| ==> ValidItem(items[k], min, max)
    requires FieldMeans(RenderField(items), min, max, foldSunday, r)
    ensures r.Some?
    ensures (forall w :: w in r.value <==> Described(items, min, max, foldSunday, w))
            <==> forall k :: 0 <= k < |items| ==> Fits(ItemSpan(items[k], min, max))
  {
    var parts := Split(RenderField(items), ',');
    RenderedParses(items, min, max);
    assert r.Some?;
    forall w ensures Stepped(parts, min, max, foldSunday, w) <==> Described(items, min, max, foldSunday, w) {
      SteppedIsDescribed(items, parts, min, max, foldSunday, w);
    }
    FieldRightIff(RenderField(items), min, max, foldSunday, r.value);
    assert forall k :: 0 <= k < |items| ==> (ItemFits(parts[k], min, max) <==> Fits(ItemSpan(items[k], min, max)));
    assert StepsFit(parts, min, max) <==> forall k :: 0 <= k < |items| ==> Fits(ItemSpan(items[k], min, max));
  }

  /** "5/9223372036854775807" as a minute field is accepted and holds a negative minute. */
  lemma HugeStepStrays(s: set<int>)
    requires FieldMeans(Render(Item(One(5), Some(INT_MAX))), 0, 59, false, Some(s))
    ensures -0x7FFF_FFFF_FFFF_FFFC in s
  {
    var it := Item(One(5), Some(INT_MAX));
    var parts := Split(Render(it), ',');
    ItemRoundTrip(it, 0, 59);
    SplitHead(Render(it), "");
    WrapsBelow(Span(5, 59, INT_MAX));
    assert ItemSelects(parts[0], 0, 59, -0x7FFF_FFFF_FFFF_FFFC);
    assert Selects(parts, 0, 59, false, Fold(false, -0x7FFF_FFFF_FFFF_FFFC));
  }

  // ---------------------------------------------------------------------
  // The whole expression
  // ---------------------------------------------------------------------

  method SortedKeys(s: set<int>) returns (xs: seq<int>)
    ensures SortedView(xs, s)
    decreases s
  {
    if v :| v in s {
      var rest := SortedKeys(s - {v});
      xs := InsertSorted(rest, s - {v}, v);
      assert s == s - {v} + {v};
    } else {
      xs := [];
    }
  }

  method InsertSorted(xs: seq<int>, ghost s: set<int>, v: int) returns (ys: seq<int>)
    requires SortedView(xs, s) && v !in s
    ensures SortedView(ys, s + {v})
  {
    var i := 0;
    while i < |xs| && xs[i] < v
      invariant i <= |xs| && forall j :: 0 <= j < i ==> xs[j] < v
    {
      i := i + 1;
    }
    InsertKeepsView(xs, s, i, v);
    ys := xs[..i] + [v] + xs[i..];
  }

  lemma InsertKeepsMembers(xs: seq<int>, i: nat, v: int, x: int)
    requires i <= |xs|
    ensures x in xs[..i] + [v] + xs[i..] <==> x in xs || x == v
  {
    assert xs == xs[..i] + xs[i..];
    assert x in xs <==> x in xs[..i] || x in xs[i..];
  }

  lemma InsertKeepsOrder(xs: seq<int>, i: nat, v: int)
    requires i <= |xs| && forall j, k :: 0 <= j < k < |xs| ==> xs[j] < xs[k]
    requires (forall j :: 0 <= j < i ==> xs[j] < v) && (i < |xs| ==> xs[i] > v)
    ensures var ys := xs[..i] + [v] + xs[i..]; forall j, k :: 0 <= j < k < |ys| ==> ys[j] < ys[k]
  {
    var ys := xs[..i] + [v] + xs[i..];
    assert forall j :: 0 <= j < |ys| ==> ys[j] == if j < i then xs[j] else if j == i then v else xs[j - 1];
  }

  lemma InsertKeepsView(xs: seq<int>, s: set<int>, i: nat, v: int)
    requires SortedView(xs, s) && v !in s && i <= |xs|
    requires (forall j :: 0 <= j < i ==> xs[j] < v) && (i < |xs| ==> xs[i] >= v)
    ensures SortedView(xs[..i] + [v] + xs[i..], s + {v})
  {
    assert i < |xs| ==> xs[i] in xs && xs[i] != v;
    InsertKeepsOrder(xs, i, v);
    forall x ensures x in xs[..i] + [v] + xs[i..] <==> x in s + {v} {
      InsertKeepsMembers(xs, i, v, x);
    }
  }

  /** The five sets the expression's fields mean. */
  ghost predicate ExprMeans(fields: seq<string>, c: Schedule)
    requires |fields| == 5
  {
    && FieldMeans(fields[0], 0, 59, false, Some(c.minutes))
    && FieldMeans(fields[1], 0, 23, false, Some(c.hours))
    && FieldMeans(fields[2], 1, 31, false, Some(c.dom))
    && FieldMeans(fields[3], 1, 12, false, Some(c.months))
    && FieldMeans(fields[4], 0, 7, true, Some(c.dow))
  }

  ghost predicate AllStepsFit(fields: seq<string>)
    requires |fields| == 5
  {
    && StepsFit(Split(fields[0], ','), 0, 59)
    && StepsFit(Split(fields[1], ','), 0, 23)
    && StepsFit(Split(fields[2], ','), 1, 31)
    && StepsFit(Split(fields[3], ','), 1, 12)
    && StepsFit(Split(fields[4], ','), 0, 7)
  }

  ghost predicate ExprOk(fields: seq<string>)
    requires |fields| == 5
  {
    && FieldOk(fields[0], 0, 59) && FieldOk(fields[1], 0, 23) && FieldOk(fields[2], 1, 31)
    && FieldOk(fields[3], 1, 12) && FieldOk(fields[4], 0, 7)
  }

  /** A parsed field selects something; it keeps to its bounds, with Sunday as 0,
      if and only if no step wraps. */
  lemma SelectedInRange(spec: string, min: int, max: int, foldSunday: bool, s: set<int>)
    requires Bounds(min, max) && (foldSunday ==> min == 0 && max == 7)
    requires FieldMeans(spec, min, max, foldSunday, Some(s))
    ensures exists w :: w in s
    ensures (forall w :: w in s ==> min <= w <= max && (foldSunday ==> w < 7)) <==> StepsFit(Split(spec, ','), min, max)
  {
    var parts := Split(spec, ',');
    var span := ParseItem(parts[0], min, max).value;
    assert Nth(span, 0) == span.lo;
    assert Goes(span, 0);
    assert ItemSelects(parts[0], min, max, span.lo);
    assert Selects(parts, min, max, foldSunday, Fold(foldSunday, span.lo));
    assert Fold(foldSunday, span.lo) in s;
    if StepsFit(parts, min, max) {
      forall w | w in s ensures min <= w <= max && (foldSunday ==> w < 7) {
        FittingParts(parts, min, max, foldSunday, w);
        SteppedInRange(parts, min, max, foldSunday, w);
      }
    } else {
      var k: nat :| k < |parts| && !ItemFits(parts[k], min, max);
      var w := WrappingItem(parts, min, max, foldSunday, k);
      assert w in s;
    }
  }

  lemma CompiledIff(fields: seq<string>, c: Schedule)
    requires |fields| == 5 && ExprMeans(fields, c)
    requires SortedView(c.sortedMinutes, c.minutes) && SortedView(c.sortedHours, c.hours)
    ensures Compiled(c) <==> AllStepsFit(fields)
  {
    SelectedInRange(fields[0], 0, 59, false, c.minutes);
    SelectedInRange(fields[1], 0, 23, false, c.hours);
    SelectedInRange(fields[2], 1, 31, false, c.dom);
    SelectedInRange(fields[3], 1, 12, false, c.months);
    SelectedInRange(fields[4], 0, 7, true, c.dow);
  }

  /** Trimming a list item, as the source does, changes nothing: a word of the
      expression holds no space. */
  method ParseCron(expr: string) returns (r: Option<Schedule>)
    ensures r.Some? <==> |Words(expr)| == 5 && ExprOk(Words(expr))
    ensures r.Some? ==> ExprMeans(Words(expr), r.value)
    ensures r.Some? ==> SortedView(r.value.sortedMinutes, r.value.minutes) && SortedView(r.value.sortedHours, r.value.hours)
    ensures r.Some? ==> (Compiled(r.value) <==> AllStepsFit(Words(expr)))
  {
    var fields := Words(expr);
    if |fields| != 5 { return None; }
    r := CompileFields(fields);
  }

  method CompileFields(fields: seq<string>) returns (r: Option<Schedule>)
    requires |fields| == 5
    ensures r.Some? <==> ExprOk(fields)
    ensures r.Some? ==> ExprMeans(fields, r.value)
    ensures r.Some? ==> SortedView(r.value.sortedMinutes, r.value.minutes) && SortedView(r.value.sortedHours, r.value.hours)
    ensures r.Some? ==> (Compiled(r.value) <==> AllStepsFit(fields))
  {
    var minutes := ParseCronField(fields[0], 0, 59, false);
    if minutes.None? { return None; }
    var hours := ParseCronField(fields[1], 0, 23, false);
    if hours.None? { return None; }
    var dom := ParseCronField(fields[2], 1, 31, false);
    if dom.None? { return None; }
    var months := ParseCronField(fields[3], 1, 12, false);
    if months.None? { return None; }
    var dow := ParseCronField(fields[4], 0, 7, true);
    if dow.None? { return None; }
    var sm := SortedKeys(minutes.value);
    var sh := SortedKeys(hours.value);
    r := Some(Schedule(minutes.value, hours.value, dom.value, months.value, dow.value, sm, sh));
    CompiledIff(fields, r.value);
  }
}
