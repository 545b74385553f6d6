/** At every rate below one token per second there is a run whose header is too
    short: a table of certified runs for the rates that divide the minute into whole
    nanoseconds, and one argument for all the others. */
module RetryRates {
  import opened Float64
  import opened RateLimit
  import opened RetryAfter
  import opened RetryTiming
  import opened RetryShort

  // ---------------------------------------------------------------------
  // Rates that divide the minute
  // ---------------------------------------------------------------------

  lemma HalfGrain(grain: int, s: real)
    requires 0 < grain && Scale(s) && s * (2 * grain) as real == UNIT as real
    ensures Grain(grain) && Scale(2.0 * s)
  {
    assert Pow(1) == 2.0;
    ScaleProduct(2.0, s);
    assert 2.0 * s * grain as real == UNIT as real;
  }

  /** The grains of the table: 2^23 down to 2^6. */
  lemma Grains()
    ensures Grain(8388608) && Grain(4194304) && Grain(2097152) && Grain(1048576) && Grain(524288) && Grain(262144)
    ensures Grain(131072) && Grain(65536) && Grain(32768) && Grain(16384) && Grain(8192) && Grain(4096)
    ensures Grain(2048) && Grain(1024) && Grain(512) && Grain(256) && Grain(128) && Grain(64)
  {
    SmallScales();
    assert Pow(1) == 2.0;
    ScaleProduct(16.0, 256.0);
    ScaleProduct(4096.0, 4294967296.0);
    ScaleProduct(17592186044416.0, 2.0);
    ScaleProduct(35184372088832.0, 2.0);
    HalfGrain(8388608, 70368744177664.0);
    HalfGrain(4194304, 140737488355328.0);
    HalfGrain(2097152, 281474976710656.0);
    HalfGrain(1048576, 562949953421312.0);
    HalfGrain(524288, 1125899906842624.0);
    HalfGrain(262144, 2251799813685248.0);
    HalfGrain(131072, 4503599627370496.0);
    HalfGrain(65536, 9007199254740992.0);
    HalfGrain(32768, 18014398509481984.0);
    HalfGrain(16384, 36028797018963968.0);
    HalfGrain(8192, 72057594037927936.0);
    HalfGrain(4096, 144115188075855872.0);
    HalfGrain(2048, 288230376151711744.0);
    HalfGrain(1024, 576460752303423488.0);
    HalfGrain(512, 1152921504606846976.0);
    HalfGrain(256, 2305843009213693952.0);
    HalfGrain(128, 4611686018427387904.0);
    HalfGrain(64, 9223372036854775808.0);
  }

  lemma Final(rate: int, held: int, at: int, h: int, gain: Num) returns (run: Run)
    requires at <= MINUTE && TooShort(rate, held, h, gain)
    ensures run == Last(h, gain) && Certified(rate, held, at, run)
  {
    run := Last(h, gain);
  }

  lemma Prepend(rate: int, held: int, at: int, r: Reading, rest: Run) returns (run: Run)
    requires Reads(rate, held, r) && Certified(rate, r.level.Units(), at + r.Gap(), rest)
    ensures run == Next(r, rest) && Certified(rate, held, at, run)
  {
    run := Next(r, rest);
  }

  lemma Rate1() returns (rate: Num, run: Run)
    ensures Rounded(1 * UNIT, 60, rate) && Certified(rate.Units(), 0, 0, run)
  {
    Grains();
    rate := Num(4803839602528529, 4096);
    run := Final(rate.Units(), Num(7505999378950826, 131072).Units(), 50000000000, 10, Num(6004799503160661, 32768));
    run := Prepend(rate.Units(), Num(4803839602528529, 16384).Units(), 4000000000,
      Reading(46, 0, Num(0, 1), Num(6473924464345088, 8388608),
              Num(6905519428634760, 131072), Num(7505999378950826, 131072)), run);
    run := Prepend(rate.Units(), 0, 0,
      Reading(4, 0, Num(0, 1), Num(9007199254740992, 524288),
              Num(4803839602528529, 16384), Num(4803839602528529, 16384)), run);
  }

  lemma Rate2() returns (rate: Num, run: Run)
    ensures Rounded(2 * UNIT, 60, rate) && Certified(rate.Units(), 0, 0, run)
  {
    Grains();
    rate := Num(4803839602528529, 8192);
    run := Final(rate.Units(), Num(8706959279582958, 131072).Units(), 29000000000, 1, Num(4803839602528529, 8192));
    run := Prepend(rate.Units(), Num(7686143364045647, 512).Units(), 100000000,
      Reading(28, 900000000, Num(8106479329266893, 131072), Num(8134626826937958, 4194304),
              Num(8676935282067155, 131072), Num(8706959279582958, 131072)), run);
    run := Prepend(rate.Units(), 0, 0,
      Reading(0, 100000000, Num(7205759403792794, 16384), Num(7205759403792794, 16384),
              Num(7686143364045647, 512), Num(7686143364045647, 512)), run);
  }

  lemma Rate3() returns (rate: Num, run: Run)
    ensures Rounded(3 * UNIT, 60, rate) && Certified(rate.Units(), 0, 0, run)
  {
    Grains();
    rate := Num(7205759403792794, 8192);
    run := Final(rate.Units(), Num(8106479329266892, 131072).Units(), 18000000000, 2, Num(7205759403792794, 16384));
    run := Prepend(rate.Units(), Num(4611686018427388, 128).Units(), 10000000,
      Reading(17, 990000000, Num(8917127262193582, 131072), Num(5063734831024701, 4194304),
              Num(8101975729639522, 131072), Num(8106479329266892, 131072)), run);
    run := Prepend(rate.Units(), 0, 0,
      Reading(0, 10000000, Num(5764607523034235, 2048), Num(5764607523034235, 2048),
              Num(4611686018427388, 128), Num(4611686018427388, 128)), run);
  }

  lemma Rate4() returns (rate: Num, run: Run)
    ensures Rounded(4 * UNIT, 60, rate) && Certified(rate.Units(), 0, 0, run)
  {
    Grains();
    rate := Num(4803839602528529, 16384);
    run := Final(rate.Units(), Num(8406719304424925, 131072).Units(), 14000000000, 1, Num(4803839602528529, 16384));
    run := Prepend(rate.Units(), Num(5764607523034235, 4096).Units(), 300000000,
      Reading(13, 700000000, Num(6305039478318694, 131072), Num(7712414361871974, 2097152),
              Num(8226575319330105, 131072), Num(8406719304424925, 131072)), run);
    run := Prepend(rate.Units(), 0, 0,
      Reading(0, 300000000, Num(5404319552844595, 65536), Num(5404319552844595, 65536),
              Num(5764607523034235, 4096), Num(5764607523034235, 4096)), run);
  }

  lemma Rate5() returns (rate: Num, run: Run)
    ensures Rounded(5 * UNIT, 60, rate) && Certified(rate.Units(), 0, 0, run)
  {
    Grains();
    rate := Num(6004799503160661, 16384);
    run := Final(rate.Units(), Num(6004799503160661, 32768).Units(), 2000000000, 10, Num(7505999378950826, 131072));
    run := Prepend(rate.Units(), 0, 0,
      Reading(2, 0, Num(0, 1), Num(9007199254740992, 262144),
              Num(6004799503160661, 32768), Num(6004799503160661, 32768)), run);
  }

  lemma Rate6() returns (rate: Num, run: Run)
    ensures Rounded(6 * UNIT, 60, rate) && Certified(rate.Units(), 0, 0, run)
  {
    Grains();
    rate := Num(7205759403792794, 16384);
    run := Final(rate.Units(), Num(8106479329266892, 131072).Units(), 9000000000, 1, Num(7205759403792794, 16384));
    run := Prepend(rate.Units(), Num(5116089176692883, 16384).Units(), 710000000,
      Reading(8, 290000000, Num(5224175567749775, 65536), Num(4666855113862676, 2097152),
              Num(7466968182180282, 131072), Num(8106479329266892, 131072)), run);
    run := Prepend(rate.Units(), 0, 0,
      Reading(0, 710000000, Num(6395111470866104, 131072), Num(6395111470866104, 131072),
              Num(5116089176692883, 16384), Num(5116089176692883, 16384)), run);
  }

  lemma Rate8() returns (rate: Num, run: Run)
    ensures Rounded(8 * UNIT, 60, rate) && Certified(rate.Units(), 0, 0, run)
  {
    Grains();
    rate := Num(4803839602528529, 32768);
    run := Final(rate.Units(), Num(7806239354108859, 131072).Units(), 6500000000, 1, Num(4803839602528529, 32768));
    run := Prepend(rate.Units(), Num(7686143364045647, 4096).Units(), 200000000,
      Reading(6, 300000000, Num(5404319552844595, 65536), Num(7093169413108531, 1048576),
              Num(7566047373982433, 131072), Num(7806239354108859, 131072)), run);
    run := Prepend(rate.Units(), 0, 0,
      Reading(0, 200000000, Num(7205759403792794, 32768), Num(7205759403792794, 32768),
              Num(7686143364045647, 4096), Num(7686143364045647, 4096)), run);
  }

  lemma Rate10() returns (rate: Num, run: Run)
    ensures Rounded(10 * UNIT, 60, rate) && Certified(rate.Units(), 0, 0, run)
  {
    Grains();
    rate := Num(6004799503160661, 32768);
    run := Final(rate.Units(), Num(6004799503160661, 32768).Units(), 1000000000, 5, Num(7505999378950826, 131072));
    run := Prepend(rate.Units(), 0, 0,
      Reading(1, 0, Num(0, 1), Num(9007199254740992, 131072),
              Num(6004799503160661, 32768), Num(6004799503160661, 32768)), run);
  }

  lemma Rate12() returns (rate: Num, run: Run)
    ensures Rounded(12 * UNIT, 60, rate) && Certified(rate.Units(), 0, 0, run)
  {
    Grains();
    rate := Num(7205759403792794, 32768);
    run := Final(rate.Units(), Num(5404319552844594, 131072).Units(), 3000000000, 2, Num(7205759403792794, 65536));
    run := Prepend(rate.Units(), Num(4773815605012725, 131072).Units(), 2650000000,
      Reading(0, 350000000, Num(6305039478318694, 65536), Num(6305039478318694, 65536),
              Num(5044031582654955, 16384), Num(5404319552844594, 131072)), run);
    run := Prepend(rate.Units(), Num(5044031582654955, 16384).Units(), 350000000,
      Reading(2, 300000000, Num(5404319552844595, 65536), Num(5179139571476070, 524288),
              Num(8286623314361712, 65536), Num(4773815605012725, 131072)), run);
    run := Prepend(rate.Units(), 0, 0,
      Reading(0, 350000000, Num(6305039478318694, 65536), Num(6305039478318694, 65536),
              Num(5044031582654955, 16384), Num(5044031582654955, 16384)), run);
  }

  lemma Rate15() returns (rate: Num, run: Run)
    ensures Rounded(15 * UNIT, 60, rate) && Certified(rate.Units(), 0, 0, run)
  {
    Grains();
    rate := Num(9007199254740992, 32768);
    run := Final(rate.Units(), Num(6755399441055743, 131072).Units(), 3000000000, 1, Num(9007199254740992, 32768));
    run := Prepend(rate.Units(), Num(5854679515581644, 131072).Units(), 2600000000,
      Reading(0, 400000000, Num(7205759403792794, 65536), Num(7205759403792794, 65536),
              Num(7205759403792794, 16384), Num(6755399441055743, 131072)), run);
    run := Prepend(rate.Units(), Num(5404319552844595, 16384).Units(), 300000000,
      Reading(2, 300000000, Num(5404319552844595, 65536), Num(5179139571476070, 524288),
              Num(5179139571476070, 131072), Num(5854679515581644, 131072)), run);
    run := Prepend(rate.Units(), 0, 0,
      Reading(0, 300000000, Num(5404319552844595, 65536), Num(5404319552844595, 65536),
              Num(5404319552844595, 16384), Num(5404319552844595, 16384)), run);
  }

  lemma Rate16() returns (rate: Num, run: Run)
    ensures Rounded(16 * UNIT, 60, rate) && Certified(rate.Units(), 0, 0, run)
  {
    Grains();
    rate := Num(4803839602528529, 65536);
    run := Final(rate.Units(), Num(6605279453476726, 131072).Units(), 2750000000, 1, Num(4803839602528529, 65536));
    run := Prepend(rate.Units(), Num(6917529027641081, 32768).Units(), 720000000,
      Reading(2, 30000000, Num(8646911284551352, 4096), Num(4571153621781053, 524288),
              Num(4875897196566456, 131072), Num(6605279453476726, 131072)), run);
    run := Prepend(rate.Units(), Num(6148914691236517, 1024).Units(), 20000000,
      Reading(0, 700000000, Num(6305039478318694, 131072), Num(6305039478318694, 131072),
              Num(6725375443539940, 32768), Num(6917529027641081, 32768)), run);
    run := Prepend(rate.Units(), 0, 0,
      Reading(0, 20000000, Num(5764607523034235, 4096), Num(5764607523034235, 4096),
              Num(6148914691236517, 1024), Num(6148914691236517, 1024)), run);
  }

  lemma Rate20() returns (rate: Num, run: Run)
    ensures Rounded(20 * UNIT, 60, rate) && Certified(rate.Units(), 0, 0, run)
  {
    Grains();
    rate := Num(6004799503160661, 65536);
    run := Final(rate.Units(), Num(6004799503160660, 65536).Units(), 1000000000, 2, Num(6004799503160661, 131072));
    run := Prepend(rate.Units(), Num(7686143364045646, 2048).Units(), 40000000,
      Reading(0, 960000000, Num(8646911284551352, 131072), Num(8646911284551352, 131072),
              Num(5764607523034234, 65536), Num(6004799503160660, 65536)), run);
    run := Prepend(rate.Units(), 0, 0,
      Reading(0, 40000000, Num(5764607523034235, 8192), Num(5764607523034235, 8192),
              Num(7686143364045646, 2048), Num(7686143364045646, 2048)), run);
  }

  lemma Rate24() returns (rate: Num, run: Run)
    ensures Rounded(24 * UNIT, 60, rate) && Certified(rate.Units(), 0, 0, run)
  {
    Grains();
    rate := Num(7205759403792794, 65536);
    run := Final(rate.Units(), Num(5404319552844594, 131072).Units(), 1500000000, 1, Num(7205759403792794, 65536));
    run := Prepend(rate.Units(), Num(4647714815446351, 131072).Units(), 1290000000,
      Reading(0, 210000000, Num(7566047373982433, 32768), Num(7566047373982433, 32768),
              Num(6052837899185947, 16384), Num(5404319552844594, 131072)), run);
    run := Prepend(rate.Units(), Num(7378697629483821, 64).Units(), 1000000,
      Reading(1, 289000000, Num(5206161169240293, 65536), Num(5805139919680569, 262144),
              Num(4644111935744455, 131072), Num(4647714815446351, 131072)), run);
    run := Prepend(rate.Units(), 0, 0,
      Reading(0, 1000000, Num(4611686018427388, 256), Num(4611686018427388, 256),
              Num(7378697629483821, 64), Num(7378697629483821, 64)), run);
  }

  lemma Rate25After1() returns (run: Run)
    ensures Certified(Num(7505999378950827, 65536).Units(), Num(5764607523034235, 512).Units(), 6000000, run)
  {
    Grains();
    var rate := Num(7505999378950827, 65536);
    run := Final(rate.Units(), Num(5254199565265577, 131072).Units(), 1400000000, 1, Num(7505999378950827, 65536));
    run := Prepend(rate.Units(), Num(4578659621160003, 131072).Units(), 1220000000,
      Reading(0, 180000000, Num(6485183463413514, 32768), Num(6485183463413514, 32768),
              Num(5404319552844595, 16384), Num(5254199565265577, 131072)), run);
    run := Prepend(rate.Units(), Num(4556141623023151, 131072).Units(), 1214000000,
      Reading(0, 6000000, Num(6917529027641082, 1024), Num(6917529027641082, 1024),
              Num(5764607523034235, 512), Num(4578659621160003, 131072)), run);
    run := Prepend(rate.Units(), Num(5764607523034235, 512).Units(), 6000000,
      Reading(1, 208000000, Num(7493989779944505, 32768), Num(5440348349863559, 262144),
              Num(4533623624886299, 131072), Num(4556141623023151, 131072)), run);
  }

  lemma Rate25() returns (rate: Num, run: Run)
    ensures Rounded(25 * UNIT, 60, rate) && Certified(rate.Units(), 0, 0, run)
  {
    Grains();
    rate := Num(7505999378950827, 65536);
    run := Rate25After1();
    run := Prepend(rate.Units(), 0, 0,
      Reading(0, 6000000, Num(6917529027641082, 1024), Num(6917529027641082, 1024),
              Num(5764607523034235, 512), Num(5764607523034235, 512)), run);
  }

  lemma Rate30After2() returns (run: Run)
    ensures Certified(Num(9007199254740992, 65536).Units(), Num(5710564327505788, 65536).Units(), 634000000, run)
  {
    Grains();
    var rate := Num(9007199254740992, 65536);
    run := Final(rate.Units(), Num(9007199254740990, 65536).Units(), 1000000000, 1, Num(9007199254740992, 65536));
    run := Prepend(rate.Units(), Num(6989586621679008, 65536).Units(), 776000000,
      Reading(0, 224000000, Num(8070450532247929, 32768), Num(8070450532247929, 32768),
              Num(8070450532247929, 16384), Num(9007199254740990, 65536)), run);
    run := Prepend(rate.Units(), Num(6350075474592398, 65536).Units(), 705000000,
      Reading(0, 71000000, Num(5116089176692883, 16384), Num(5116089176692883, 16384),
              Num(5116089176692883, 8192), Num(6989586621679008, 65536)), run);
    run := Prepend(rate.Units(), Num(5710564327505788, 65536).Units(), 634000000,
      Reading(0, 71000000, Num(5116089176692883, 16384), Num(5116089176692883, 16384),
              Num(5116089176692883, 8192), Num(6350075474592398, 65536)), run);
  }

  lemma Rate30() returns (rate: Num, run: Run)
    ensures Rounded(30 * UNIT, 60, rate) && Certified(rate.Units(), 0, 0, run)
  {
    Grains();
    rate := Num(9007199254740992, 65536);
    run := Rate30After2();
    run := Prepend(rate.Units(), Num(5116089176692883, 8192).Units(), 71000000,
      Reading(0, 563000000, Num(5071053180419178, 131072), Num(5071053180419178, 131072),
              Num(5071053180419178, 65536), Num(5710564327505788, 65536)), run);
    run := Prepend(rate.Units(), 0, 0,
      Reading(0, 71000000, Num(5116089176692883, 16384), Num(5116089176692883, 16384),
              Num(5116089176692883, 8192), Num(5116089176692883, 8192)), run);
  }

  lemma Rate32() returns (rate: Num, run: Run)
    ensures Rounded(32 * UNIT, 60, rate) && Certified(rate.Units(), 0, 0, run)
  {
    Grains();
    rate := Num(4803839602528529, 131072);
    run := Final(rate.Units(), Num(8406719304424924, 65536).Units(), 875000000, 1, Num(4803839602528529, 131072));
    run := Prepend(rate.Units(), Num(5534023222112864, 65536).Units(), 576000000,
      Reading(0, 299000000, Num(5386305154335113, 65536), Num(5386305154335113, 65536),
              Num(5745392164624120, 32768), Num(8406719304424924, 65536)), run);
    run := Prepend(rate.Units(), Num(4919131752989214, 1024).Units(), 8000000,
      Reading(0, 568000000, Num(5116089176692883, 131072), Num(5116089176692883, 131072),
              Num(5457161788472408, 65536), Num(5534023222112864, 65536)), run);
    run := Prepend(rate.Units(), 0, 0,
      Reading(0, 8000000, Num(4611686018427388, 2048), Num(4611686018427388, 2048),
              Num(4919131752989214, 1024), Num(4919131752989214, 1024)), run);
  }

  lemma Rate40() returns (rate: Num, run: Run)
    ensures Rounded(40 * UNIT, 60, rate) && Certified(rate.Units(), 0, 0, run)
  {
    Grains();
    rate := Num(6004799503160661, 131072);
    run := Final(rate.Units(), Num(6004799503160660, 65536).Units(), 500000000, 1, Num(6004799503160661, 131072));
    run := Prepend(rate.Units(), Num(7686143364045646, 2048).Units(), 20000000,
      Reading(0, 480000000, Num(8646911284551352, 65536), Num(8646911284551352, 65536),
              Num(5764607523034234, 65536), Num(6004799503160660, 65536)), run);
    run := Prepend(rate.Units(), 0, 0,
      Reading(0, 20000000, Num(5764607523034235, 4096), Num(5764607523034235, 4096),
              Num(7686143364045646, 2048), Num(7686143364045646, 2048)), run);
  }

  lemma Rate48After7() returns (run: Run)
    ensures Certified(Num(7205759403792794, 131072).Units(), Num(4721213561365035, 32768).Units(), 163800000, run)
  {
    Grains();
    var rate := Num(7205759403792794, 131072);
    run := Final(rate.Units(), Num(7205759403792789, 32768).Units(), 250000000, 1, Num(7205759403792794, 131072));
    run := Prepend(rate.Units(), Num(4963327077332472, 32768).Units(), 172200000,
      Reading(0, 77800000, Num(5606080816150793, 16384), Num(5606080816150793, 16384),
              Num(8969729305841269, 8192), Num(7205759403792789, 32768)), run);
    run := Prepend(rate.Units(), Num(4732742776411103, 32768).Units(), 164200000,
      Reading(0, 8000000, Num(4611686018427388, 2048), Num(4611686018427388, 2048),
              Num(7378697629483821, 1024), Num(4963327077332472, 32768)), run);
    run := Prepend(rate.Units(), Num(4721213561365035, 32768).Units(), 163800000,
      Reading(0, 400000, Num(7378697629483821, 64), Num(7378697629483821, 64),
              Num(5902958103587057, 64), Num(4732742776411103, 32768)), run);
  }

  lemma Rate48After4() returns (run: Run)
    ensures Certified(Num(7205759403792794, 131072).Units(), Num(4686625916226831, 32768).Units(), 162600000, run)
  {
    Grains();
    var rate := Num(7205759403792794, 131072);
    run := Rate48After7();
    run := Prepend(rate.Units(), Num(4709684346318967, 32768).Units(), 163400000,
      Reading(0, 400000, Num(7378697629483821, 64), Num(7378697629483821, 64),
              Num(5902958103587057, 64), Num(4721213561365035, 32768)), run);
    run := Prepend(rate.Units(), Num(4698155131272899, 32768).Units(), 163000000,
      Reading(0, 400000, Num(7378697629483821, 64), Num(7378697629483821, 64),
              Num(5902958103587057, 64), Num(4709684346318967, 32768)), run);
    run := Prepend(rate.Units(), Num(4686625916226831, 32768).Units(), 162600000,
      Reading(0, 400000, Num(7378697629483821, 64), Num(7378697629483821, 64),
              Num(5902958103587057, 64), Num(4698155131272899, 32768)), run);
  }

  lemma Rate48After1() returns (run: Run)
    ensures Certified(Num(7205759403792794, 131072).Units(), Num(5902958103587057, 64).Units(), 400000, run)
  {
    Grains();
    var rate := Num(7205759403792794, 131072);
    run := Rate48After4();
    run := Prepend(rate.Units(), Num(4675096701180763, 32768).Units(), 162200000,
      Reading(0, 400000, Num(7378697629483821, 64), Num(7378697629483821, 64),
              Num(5902958103587057, 64), Num(4686625916226831, 32768)), run);
    run := Prepend(rate.Units(), Num(4663567486134695, 32768).Units(), 161800000,
      Reading(0, 400000, Num(7378697629483821, 64), Num(7378697629483821, 64),
              Num(5902958103587057, 64), Num(4675096701180763, 32768)), run);
    run := Prepend(rate.Units(), Num(5902958103587057, 64).Units(), 400000,
      Reading(0, 161400000, Num(5815047838860784, 32768), Num(5815047838860784, 32768),
              Num(4652038271088627, 32768), Num(4663567486134695, 32768)), run);
  }

  lemma Rate48() returns (rate: Num, run: Run)
    ensures Rounded(48 * UNIT, 60, rate) && Certified(rate.Units(), 0, 0, run)
  {
    Grains();
    rate := Num(7205759403792794, 131072);
    run := Rate48After1();
    run := Prepend(rate.Units(), 0, 0,
      Reading(0, 400000, Num(7378697629483821, 64), Num(7378697629483821, 64),
              Num(5902958103587057, 64), Num(5902958103587057, 64)), run);
  }

  lemma Rate50After7() returns (run: Run)
    ensures Certified(Num(7505999378950827, 131072).Units(), Num(5320252359800343, 32768).Units(), 177200000, run)
  {
    Grains();
    var rate := Num(7505999378950827, 131072);
    run := Final(rate.Units(), Num(6004799503160657, 32768).Units(), 200000000, 1, Num(7505999378950827, 131072));
    run := Prepend(rate.Units(), Num(5728578726015267, 32768).Units(), 190800000,
      Reading(0, 9200000, Num(5303438921191496, 2048), Num(5303438921191496, 2048),
              Num(8839064868652494, 1024), Num(6004799503160657, 32768)), run);
    run := Prepend(rate.Units(), Num(5524415542907805, 32768).Units(), 184000000,
      Reading(0, 6800000, Num(7839866231326559, 1024), Num(7839866231326559, 1024),
              Num(6533221859438799, 1024), Num(5728578726015267, 32768)), run);
    run := Prepend(rate.Units(), Num(5320252359800343, 32768).Units(), 177200000,
      Reading(0, 6800000, Num(7839866231326559, 1024), Num(7839866231326559, 1024),
              Num(6533221859438799, 1024), Num(5524415542907805, 32768)), run);
  }

  lemma Rate50After4() returns (run: Run)
    ensures Certified(Num(7505999378950827, 131072).Units(), Num(4707762810477957, 32768).Units(), 156800000, run)
  {
    Grains();
    var rate := Num(7505999378950827, 131072);
    run := Rate50After7();
    run := Prepend(rate.Units(), Num(5116089176692881, 32768).Units(), 170400000,
      Reading(0, 6800000, Num(7839866231326559, 1024), Num(7839866231326559, 1024),
              Num(6533221859438799, 1024), Num(5320252359800343, 32768)), run);
    run := Prepend(rate.Units(), Num(4911925993585419, 32768).Units(), 163600000,
      Reading(0, 6800000, Num(7839866231326559, 1024), Num(7839866231326559, 1024),
              Num(6533221859438799, 1024), Num(5116089176692881, 32768)), run);
    run := Prepend(rate.Units(), Num(4707762810477957, 32768).Units(), 156800000,
      Reading(0, 6800000, Num(7839866231326559, 1024), Num(7839866231326559, 1024),
              Num(6533221859438799, 1024), Num(4911925993585419, 32768)), run);
  }

  lemma Rate50After1() returns (run: Run)
    ensures Certified(Num(7505999378950827, 131072).Units(), Num(6148914691236518, 64).Units(), 400000, run)
  {
    Grains();
    var rate := Num(7505999378950827, 131072);
    run := Rate50After4();
    run := Prepend(rate.Units(), Num(4695753211471636, 32768).Units(), 156400000,
      Reading(0, 400000, Num(7378697629483821, 64), Num(7378697629483821, 64),
              Num(6148914691236518, 64), Num(4707762810477957, 32768)), run);
    run := Prepend(rate.Units(), Num(4683743612465315, 32768).Units(), 156000000,
      Reading(0, 400000, Num(7378697629483821, 64), Num(7378697629483821, 64),
              Num(6148914691236518, 64), Num(4695753211471636, 32768)), run);
    run := Prepend(rate.Units(), Num(6148914691236518, 64).Units(), 400000,
      Reading(0, 155600000, Num(5606080816150793, 32768), Num(5606080816150793, 32768),
              Num(4671734013458994, 32768), Num(4683743612465315, 32768)), run);
  }

  lemma Rate50() returns (rate: Num, run: Run)
    ensures Rounded(50 * UNIT, 60, rate) && Certified(rate.Units(), 0, 0, run)
  {
    Grains();
    rate := Num(7505999378950827, 131072);
    run := Rate50After1();
    run := Prepend(rate.Units(), 0, 0,
      Reading(0, 400000, Num(7378697629483821, 64), Num(7378697629483821, 64),
              Num(6148914691236518, 64), Num(6148914691236518, 64)), run);
  }

  /** The rates below sixty that divide the minute into whole nanoseconds. */
  predicate InTable(rpm: int) {
    || rpm == 1 || rpm == 2 || rpm == 3 || rpm == 4 || rpm == 5 || rpm == 6 || rpm == 8 || rpm == 10 || rpm == 12
    || rpm == 15 || rpm == 16 || rpm == 20 || rpm == 24 || rpm == 25 || rpm == 30 || rpm == 32 || rpm == 40
    || rpm == 48 || rpm == 50
  }

  lemma Witness(rpm: int) returns (rate: Num, run: Run)
    requires InTable(rpm)
    ensures Rounded(rpm * UNIT, 60, rate) && Certified(rate.Units(), 0, 0, run)
  {
    match rpm
    case 1 => rate, run := Rate1();
    case 2 => rate, run := Rate2();
    case 3 => rate, run := Rate3();
    case 4 => rate, run := Rate4();
    case 5 => rate, run := Rate5();
    case 6 => rate, run := Rate6();
    case 8 => rate, run := Rate8();
    case 10 => rate, run := Rate10();
    case 12 => rate, run := Rate12();
    case 15 => rate, run := Rate15();
    case 16 => rate, run := Rate16();
    case 20 => rate, run := Rate20();
    case 24 => rate, run := Rate24();
    case 25 => rate, run := Rate25();
    case 30 => rate, run := Rate30();
    case 32 => rate, run := Rate32();
    case 40 => rate, run := Rate40();
    case 48 => rate, run := Rate48();
    case 50 => rate, run := Rate50();
  }

  lemma Indivisible(rpm: int)
    requires 0 < rpm < 60 && !InTable(rpm)
    ensures MINUTE % rpm != 0
  {
    assert MINUTE % 7 != 0 && MINUTE % 9 != 0 && MINUTE % 11 != 0 && MINUTE % 13 != 0 && MINUTE % 14 != 0;
    assert MINUTE % 17 != 0 && MINUTE % 18 != 0 && MINUTE % 19 != 0 && MINUTE % 21 != 0 && MINUTE % 22 != 0;
    assert MINUTE % 23 != 0 && MINUTE % 26 != 0 && MINUTE % 27 != 0 && MINUTE % 28 != 0 && MINUTE % 29 != 0;
    assert MINUTE % 31 != 0 && MINUTE % 33 != 0 && MINUTE % 34 != 0 && MINUTE % 35 != 0 && MINUTE % 36 != 0;
    assert MINUTE % 37 != 0 && MINUTE % 38 != 0 && MINUTE % 39 != 0 && MINUTE % 41 != 0 && MINUTE % 42 != 0;
    assert MINUTE % 43 != 0 && MINUTE % 44 != 0 && MINUTE % 45 != 0 && MINUTE % 46 != 0 && MINUTE % 47 != 0;
    assert MINUTE % 49 != 0 && MINUTE % 51 != 0 && MINUTE % 52 != 0 && MINUTE % 53 != 0 && MINUTE % 54 != 0;
    assert MINUTE % 55 != 0 && MINUTE % 56 != 0 && MINUTE % 57 != 0 && MINUTE % 58 != 0 && MINUTE % 59 != 0;
  }
}
