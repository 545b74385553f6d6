/** The checks that ScriptHeader asks for, rate by rate. */
module ScriptRates {
  import opened Float64
  import opened RetryAfter
  import opened RetryShort
  import opened ScriptHeader
  import RetryRates

  /** At these rates a gain is rounded down so far that a level can miss it. */
  predicate Exceptional(rpm: int) { rpm == 3 || rpm == 6 || rpm == 9 || rpm == 18 }

  lemma Grains()
    ensures Grain(4096) && Grain(8192) && Grain(16384) && Grain(32768) && Grain(65536) && Grain(131072)
  {
    RetryRates.Grains();
  }

  /** What a check comes to: the gain is rounded to this number, and one unit more is
      past h seconds. */
  lemma Cover(rd: Rounding, p: real, rate: int, h: int, lead: int, gain: Num)
    requires Standard(rd) && p > 0.0 && Is(p, rate) && Lead(h, lead) && h <= 60
    requires Rounded(h * rate, 1, gain) && gain.count < FULL && (gain.grain == 65536 || gain.grain == 131072)
    requires (2 * h * TOP + lead) * rate < 2 * TOP * (gain.Units() + gain.grain)
    ensures Enough(rd, p, h)
  {
    CoversEnough(rd, p, rate, h, lead, gain, gain);
  }

  lemma CoverTied(rd: Rounding, p: real, rate: int, h: int, lead: int, gain: Num)
    requires Standard(rd) && p > 0.0 && Is(p, rate) && Lead(h, lead) && h <= 60
    requires Tied(h * rate, 1, gain) && gain.count < FULL && (gain.grain == 65536 || gain.grain == 131072)
    requires (2 * h * TOP + lead) * rate < 2 * TOP * (gain.Units() + gain.grain)
    ensures Enough(rd, p, h)
  {
    CoversEnough(rd, p, rate, h, lead, gain, gain);
  }

  lemma Rate1From15(rd: Rounding, p: real)
    requires Standard(rd) && p > 0.0 && Is(p, 19676527011956854784)
    ensures forall h :: 15 <= h <= 31 && !Power(h) ==> Enough(rd, p, h)
  {
    Grains();
    CoversEnough(rd, p, 19676527011956854784, 15, 8, Num(9007199254740992, 32768), Num(4503599627370496, 65536));
    Cover(rd, p, 19676527011956854784, 17, 16, Num(5104079577686562, 65536));
    Cover(rd, p, 19676527011956854784, 18, 16, Num(5404319552844595, 65536));
    Cover(rd, p, 19676527011956854784, 19, 16, Num(5704559528002628, 65536));
    Cover(rd, p, 19676527011956854784, 20, 16, Num(6004799503160661, 65536));
    Cover(rd, p, 19676527011956854784, 21, 16, Num(6305039478318694, 65536));
    Cover(rd, p, 19676527011956854784, 22, 16, Num(6605279453476727, 65536));
    Cover(rd, p, 19676527011956854784, 23, 16, Num(6905519428634760, 65536));
    CoverTied(rd, p, 19676527011956854784, 24, 16, Num(7205759403792794, 65536));
    Cover(rd, p, 19676527011956854784, 25, 16, Num(7505999378950827, 65536));
    Cover(rd, p, 19676527011956854784, 26, 16, Num(7806239354108860, 65536));
    Cover(rd, p, 19676527011956854784, 27, 16, Num(8106479329266893, 65536));
    Cover(rd, p, 19676527011956854784, 28, 16, Num(8406719304424926, 65536));
    Cover(rd, p, 19676527011956854784, 29, 16, Num(8706959279582959, 65536));
    CoversEnough(rd, p, 19676527011956854784, 30, 16, Num(9007199254740992, 65536), Num(4503599627370496, 131072));
    Cover(rd, p, 19676527011956854784, 31, 16, Num(4653719614949512, 131072));
  }

  lemma Rate1From33(rd: Rounding, p: real)
    requires Standard(rd) && p > 0.0 && Is(p, 19676527011956854784)
    ensures forall h :: 33 <= h <= 48 && !Power(h) ==> Enough(rd, p, h)
  {
    Grains();
    Cover(rd, p, 19676527011956854784, 33, 32, Num(4953959590107546, 131072));
    Cover(rd, p, 19676527011956854784, 34, 32, Num(5104079577686562, 131072));
    Cover(rd, p, 19676527011956854784, 35, 32, Num(5254199565265579, 131072));
    Cover(rd, p, 19676527011956854784, 36, 32, Num(5404319552844595, 131072));
    Cover(rd, p, 19676527011956854784, 37, 32, Num(5554439540423612, 131072));
    Cover(rd, p, 19676527011956854784, 38, 32, Num(5704559528002628, 131072));
    Cover(rd, p, 19676527011956854784, 39, 32, Num(5854679515581645, 131072));
    Cover(rd, p, 19676527011956854784, 40, 32, Num(6004799503160661, 131072));
    Cover(rd, p, 19676527011956854784, 41, 32, Num(6154919490739678, 131072));
    Cover(rd, p, 19676527011956854784, 42, 32, Num(6305039478318694, 131072));
    Cover(rd, p, 19676527011956854784, 43, 32, Num(6455159465897711, 131072));
    Cover(rd, p, 19676527011956854784, 44, 32, Num(6605279453476727, 131072));
    Cover(rd, p, 19676527011956854784, 45, 32, Num(6755399441055744, 131072));
    Cover(rd, p, 19676527011956854784, 46, 32, Num(6905519428634760, 131072));
    Cover(rd, p, 19676527011956854784, 47, 32, Num(7055639416213777, 131072));
    CoverTied(rd, p, 19676527011956854784, 48, 32, Num(7205759403792794, 131072));
  }

  lemma Rate1From49(rd: Rounding, p: real)
    requires Standard(rd) && p > 0.0 && Is(p, 19676527011956854784)
    ensures forall h :: 49 <= h <= 60 && !Power(h) ==> Enough(rd, p, h)
  {
    Grains();
    Cover(rd, p, 19676527011956854784, 49, 32, Num(7355879391371810, 131072));
    Cover(rd, p, 19676527011956854784, 50, 32, Num(7505999378950827, 131072));
    Cover(rd, p, 19676527011956854784, 51, 32, Num(7656119366529843, 131072));
    Cover(rd, p, 19676527011956854784, 52, 32, Num(7806239354108860, 131072));
    Cover(rd, p, 19676527011956854784, 53, 32, Num(7956359341687876, 131072));
    Cover(rd, p, 19676527011956854784, 54, 32, Num(8106479329266893, 131072));
    Cover(rd, p, 19676527011956854784, 55, 32, Num(8256599316845909, 131072));
    Cover(rd, p, 19676527011956854784, 56, 32, Num(8406719304424926, 131072));
    Cover(rd, p, 19676527011956854784, 57, 32, Num(8556839292003942, 131072));
    Cover(rd, p, 19676527011956854784, 58, 32, Num(8706959279582959, 131072));
    Cover(rd, p, 19676527011956854784, 59, 32, Num(8857079267161975, 131072));
    WholeEnough(rd, p, 19676527011956854784, 60);
  }

  lemma Rate1(rd: Rounding, p: real)
    requires Standard(rd) && p == PerSecond(rd, 1) && p > 0.0
    ensures Middle(rd, p, 1)
  {
    Grains();
    RateIs(rd, 1, Num(4803839602528529, 4096));
    Rate1From15(rd, p);
    Rate1From33(rd, p);
    Rate1From49(rd, p);
  }

  lemma Rate2From9(rd: Rounding, p: real)
    requires Standard(rd) && p > 0.0 && Is(p, 39353054023913709568)
    ensures forall h :: 9 <= h <= 25 && !Power(h) ==> Enough(rd, p, h)
  {
    Grains();
    Cover(rd, p, 39353054023913709568, 9, 8, Num(5404319552844595, 65536));
    Cover(rd, p, 39353054023913709568, 10, 8, Num(6004799503160661, 65536));
    Cover(rd, p, 39353054023913709568, 11, 8, Num(6605279453476727, 65536));
    CoverTied(rd, p, 39353054023913709568, 12, 8, Num(7205759403792794, 65536));
    Cover(rd, p, 39353054023913709568, 13, 8, Num(7806239354108860, 65536));
    Cover(rd, p, 39353054023913709568, 14, 8, Num(8406719304424926, 65536));
    CoversEnough(rd, p, 39353054023913709568, 15, 8, Num(9007199254740992, 65536), Num(4503599627370496, 131072));
    Cover(rd, p, 39353054023913709568, 17, 16, Num(5104079577686562, 131072));
    Cover(rd, p, 39353054023913709568, 18, 16, Num(5404319552844595, 131072));
    Cover(rd, p, 39353054023913709568, 19, 16, Num(5704559528002628, 131072));
    Cover(rd, p, 39353054023913709568, 20, 16, Num(6004799503160661, 131072));
    Cover(rd, p, 39353054023913709568, 21, 16, Num(6305039478318694, 131072));
    Cover(rd, p, 39353054023913709568, 22, 16, Num(6605279453476727, 131072));
    Cover(rd, p, 39353054023913709568, 23, 16, Num(6905519428634760, 131072));
    CoverTied(rd, p, 39353054023913709568, 24, 16, Num(7205759403792794, 131072));
    Cover(rd, p, 39353054023913709568, 25, 16, Num(7505999378950827, 131072));
  }

  lemma Rate2From26(rd: Rounding, p: real)
    requires Standard(rd) && p > 0.0 && Is(p, 39353054023913709568)
    ensures forall h :: 26 <= h <= 30 && !Power(h) ==> Enough(rd, p, h)
  {
    Grains();
    Cover(rd, p, 39353054023913709568, 26, 16, Num(7806239354108860, 131072));
    Cover(rd, p, 39353054023913709568, 27, 16, Num(8106479329266893, 131072));
    Cover(rd, p, 39353054023913709568, 28, 16, Num(8406719304424926, 131072));
    Cover(rd, p, 39353054023913709568, 29, 16, Num(8706959279582959, 131072));
    WholeEnough(rd, p, 39353054023913709568, 30);
  }

  lemma Rate2(rd: Rounding, p: real)
    requires Standard(rd) && p == PerSecond(rd, 2) && p > 0.0
    ensures Middle(rd, p, 2)
  {
    Grains();
    RateIs(rd, 2, Num(4803839602528529, 8192));
    Rate2From9(rd, p);
    Rate2From26(rd, p);
  }

  lemma Rate4(rd: Rounding, p: real)
    requires Standard(rd) && p == PerSecond(rd, 4) && p > 0.0
    ensures Middle(rd, p, 4)
  {
    Grains();
    RateIs(rd, 4, Num(4803839602528529, 16384));
    Cover(rd, p, 78706108047827419136, 5, 4, Num(6004799503160661, 65536));
    CoverTied(rd, p, 78706108047827419136, 6, 4, Num(7205759403792794, 65536));
    Cover(rd, p, 78706108047827419136, 7, 4, Num(8406719304424926, 65536));
    Cover(rd, p, 78706108047827419136, 9, 8, Num(5404319552844595, 131072));
    Cover(rd, p, 78706108047827419136, 10, 8, Num(6004799503160661, 131072));
    Cover(rd, p, 78706108047827419136, 11, 8, Num(6605279453476727, 131072));
    CoverTied(rd, p, 78706108047827419136, 12, 8, Num(7205759403792794, 131072));
    Cover(rd, p, 78706108047827419136, 13, 8, Num(7806239354108860, 131072));
    Cover(rd, p, 78706108047827419136, 14, 8, Num(8406719304424926, 131072));
    WholeEnough(rd, p, 78706108047827419136, 15);
  }

  lemma Rate5(rd: Rounding, p: real)
    requires Standard(rd) && p == PerSecond(rd, 5) && p > 0.0
    ensures Middle(rd, p, 5)
  {
    Grains();
    RateIs(rd, 5, Num(6004799503160661, 16384));
    CoversEnough(rd, p, 98382635059784269824, 3, 2, Num(9007199254740992, 32768), Num(4503599627370496, 65536));
    Cover(rd, p, 98382635059784269824, 5, 4, Num(7505999378950826, 65536));
    CoversEnough(rd, p, 98382635059784269824, 6, 4, Num(9007199254740992, 65536), Num(4503599627370496, 131072));
    Cover(rd, p, 98382635059784269824, 7, 4, Num(5254199565265578, 131072));
    Cover(rd, p, 98382635059784269824, 9, 8, Num(6755399441055744, 131072));
    Cover(rd, p, 98382635059784269824, 10, 8, Num(7505999378950826, 131072));
    Cover(rd, p, 98382635059784269824, 11, 8, Num(8256599316845909, 131072));
    WholeEnough(rd, p, 98382635059784269824, 12);
  }

  lemma Rate7(rd: Rounding, p: real)
    requires Standard(rd) && p == PerSecond(rd, 7) && p > 0.0
    ensures Middle(rd, p, 7)
  {
    Grains();
    RateIs(rd, 7, Num(8406719304424926, 16384));
    CoverTied(rd, p, 137735689083697987584, 3, 2, Num(6305039478318694, 65536));
    Cover(rd, p, 137735689083697987584, 5, 4, Num(5254199565265579, 131072));
    CoverTied(rd, p, 137735689083697987584, 6, 4, Num(6305039478318694, 131072));
    Cover(rd, p, 137735689083697987584, 7, 4, Num(7355879391371810, 131072));
  }

  lemma Rate8(rd: Rounding, p: real)
    requires Standard(rd) && p == PerSecond(rd, 8) && p > 0.0
    ensures Middle(rd, p, 8)
  {
    Grains();
    RateIs(rd, 8, Num(4803839602528529, 32768));
    CoverTied(rd, p, 157412216095654838272, 3, 2, Num(7205759403792794, 65536));
    Cover(rd, p, 157412216095654838272, 5, 4, Num(6004799503160661, 131072));
    CoverTied(rd, p, 157412216095654838272, 6, 4, Num(7205759403792794, 131072));
    Cover(rd, p, 157412216095654838272, 7, 4, Num(8406719304424926, 131072));
  }

  lemma Rate10(rd: Rounding, p: real)
    requires Standard(rd) && p == PerSecond(rd, 10) && p > 0.0
    ensures Middle(rd, p, 10)
  {
    Grains();
    RateIs(rd, 10, Num(6004799503160661, 32768));
    CoversEnough(rd, p, 196765270119568539648, 3, 2, Num(9007199254740992, 65536), Num(4503599627370496, 131072));
    Cover(rd, p, 196765270119568539648, 5, 4, Num(7505999378950826, 131072));
    WholeEnough(rd, p, 196765270119568539648, 6);
  }

  lemma Rate11(rd: Rounding, p: real)
    requires Standard(rd) && p == PerSecond(rd, 11) && p > 0.0
    ensures Middle(rd, p, 11)
  {
    Grains();
    RateIs(rd, 11, Num(6605279453476727, 32768));
    Cover(rd, p, 216441797131525390336, 3, 2, Num(4953959590107545, 131072));
    Cover(rd, p, 216441797131525390336, 5, 4, Num(8256599316845909, 131072));
  }

  lemma Rate12(rd: Rounding, p: real)
    requires Standard(rd) && p == PerSecond(rd, 12) && p > 0.0
    ensures Middle(rd, p, 12)
  {
    Grains();
    RateIs(rd, 12, Num(7205759403792794, 32768));
    CoverTied(rd, p, 236118324143482273792, 3, 2, Num(5404319552844596, 131072));
    WholeEnough(rd, p, 236118324143482273792, 5);
  }

  lemma Rate13(rd: Rounding, p: real)
    requires Standard(rd) && p == PerSecond(rd, 13) && p > 0.0
    ensures Middle(rd, p, 13)
  {
    Grains();
    RateIs(rd, 13, Num(7806239354108860, 32768));
    Cover(rd, p, 255794851155439124480, 3, 2, Num(5854679515581645, 131072));
  }

  lemma Rate14(rd: Rounding, p: real)
    requires Standard(rd) && p == PerSecond(rd, 14) && p > 0.0
    ensures Middle(rd, p, 14)
  {
    Grains();
    RateIs(rd, 14, Num(8406719304424926, 32768));
    CoverTied(rd, p, 275471378167395975168, 3, 2, Num(6305039478318694, 131072));
  }

  lemma Rate15(rd: Rounding, p: real)
    requires Standard(rd) && p == PerSecond(rd, 15) && p > 0.0
    ensures Middle(rd, p, 15)
  {
    Grains();
    RateIs(rd, 15, Num(9007199254740992, 32768));
    Cover(rd, p, 295147905179352825856, 3, 2, Num(6755399441055744, 131072));
  }

  lemma Rate16(rd: Rounding, p: real)
    requires Standard(rd) && p == PerSecond(rd, 16) && p > 0.0
    ensures Middle(rd, p, 16)
  {
    Grains();
    RateIs(rd, 16, Num(4803839602528529, 65536));
    CoverTied(rd, p, 314824432191309676544, 3, 2, Num(7205759403792794, 131072));
  }

  lemma Rate17(rd: Rounding, p: real)
    requires Standard(rd) && p == PerSecond(rd, 17) && p > 0.0
    ensures Middle(rd, p, 17)
  {
    Grains();
    RateIs(rd, 17, Num(5104079577686562, 65536));
    Cover(rd, p, 334500959203266527232, 3, 2, Num(7656119366529843, 131072));
  }

  lemma Rate19(rd: Rounding, p: real)
    requires Standard(rd) && p == PerSecond(rd, 19) && p > 0.0
    ensures Middle(rd, p, 19)
  {
    Grains();
    RateIs(rd, 19, Num(5704559528002628, 65536));
    Cover(rd, p, 373854013227180228608, 3, 2, Num(8556839292003942, 131072));
  }

  lemma Rate20(rd: Rounding, p: real)
    requires Standard(rd) && p == PerSecond(rd, 20) && p > 0.0
    ensures Middle(rd, p, 20)
  {
    Grains();
    RateIs(rd, 20, Num(6004799503160661, 65536));
    WholeEnough(rd, p, 393530540239137079296, 3);
  }

  /** Above twenty a minute only one and two seconds are less than a token. */
  lemma FewHeaders(rpm: int)
    requires 20 < rpm
    ensures forall h: int :: 15 <= h * rpm <= 60 ==> Power(h)
  {
    forall h: int | 15 <= h * rpm <= 60 ensures Power(h) {
      if h >= 3 { LeftMono(3, h, rpm); }
      if h <= 0 { LeftMono(h, 0, rpm); }
    }
  }

  lemma LeftMono(a: int, b: int, c: int)
    requires a <= b && 0 <= c
    ensures a * c <= b * c
  {
  }

  lemma Checked(rd: Rounding, rpm: int)
    requires Standard(rd) && 0 < rpm < 60 && !Exceptional(rpm) && PerSecond(rd, rpm) > 0.0
    ensures Middle(rd, PerSecond(rd, rpm), rpm)
  {
    var p := PerSecond(rd, rpm);
    if rpm > 20 {
      FewHeaders(rpm);
    } else {
      match rpm
      case 1 => Rate1(rd, p);
      case 2 => Rate2(rd, p);
      case 4 => Rate4(rd, p);
      case 5 => Rate5(rd, p);
      case 7 => Rate7(rd, p);
      case 8 => Rate8(rd, p);
      case 10 => Rate10(rd, p);
      case 11 => Rate11(rd, p);
      case 12 => Rate12(rd, p);
      case 13 => Rate13(rd, p);
      case 14 => Rate14(rd, p);
      case 15 => Rate15(rd, p);
      case 16 => Rate16(rd, p);
      case 17 => Rate17(rd, p);
      case 19 => Rate19(rd, p);
      case 20 => Rate20(rd, p);
    }
  }
}
