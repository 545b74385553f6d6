/** The runs that ScriptShort checks: at 3 and 6 requests a minute for every burst, at 9
    and 18 for bursts of two or more. */
module ScriptTrails {
  import opened RetryShort
  import opened ScriptShort
  import RetryRates

  lemma Grains()
    ensures Grain(4194304) && Grain(2097152) && Grain(1048576) && Grain(524288) && Grain(262144)
    ensures Grain(131072) && Grain(65536) && Grain(32768) && Grain(16384) && Grain(8192) && Grain(4096)
    ensures Grain(2048) && Grain(1024) && Grain(512) && Grain(256)
  {
    RetryRates.Grains();
  }

  /** A request that is turned away leaves the level. */
  function Stays(ms: int, secs: Num, gain: Num, level: Num): Visit { Visit(ms, secs, gain, level, level) }

  lemma Ends(burst: int, rate: int, held: int, at: int, h: int, lack: Num, quot: Num, gain: Num) returns (trail: Trail)
    requires at <= 60_000 && Short(rate, held, h, lack, quot, gain)
    ensures Trailed(burst, rate, held, at, trail)
  {
    trail := Missed(h, lack, quot, gain);
  }

  lemma Earlier(burst: int, rate: int, held: int, at: int, v: Visit, rest: Trail) returns (trail: Trail)
    requires Visited(burst, rate, held, v) && Trailed(burst, rate, v.left.Units(), at + v.ms, rest)
    ensures Trailed(burst, rate, held, at, trail)
  {
    trail := Then(v, rest);
  }

  lemma Trail3After11(burst: int) returns (trail: Trail)
    requires 1 <= burst
    ensures Trailed(burst, 59029581035870568448, 97339779128150474752, 1649, trail)
  {
    Grains();
    trail := Ends(burst, 59029581035870568448, 118059162071741022208, 2000, 18,
                  Num(8106479329266894, 131072), Num(5066549580791808, 4194304), Num(8106479329266893, 131072));
    trail := Earlier(burst, 59029581035870568448, 107138689580104974336, 1815,
      Stays(185, Num(6665327448508334, 32768), Num(5332261958806667, 2048), Num(7205759403792787, 16384)), trail);
    trail := Earlier(burst, 59029581035870568448, 99641932788549419008, 1688,
      Stays(127, Num(4575657221408424, 32768), Num(7321051554253479, 1024), Num(6539226658941954, 16384)), trail);
    trail := Earlier(burst, 59029581035870568448, 97339779128150474752, 1649,
      Stays(39, Num(5620492334958379, 8192), Num(8992787735933407, 256), Num(6081660936801112, 16384)), trail);
  }

  lemma Trail3After8(burst: int) returns (trail: Trail)
    requires 1 <= burst
    ensures Trailed(burst, 59029581035870568448, 90433318146953641984, 1532, trail)
  {
    Grains();
    trail := Trail3After11(burst);
    trail := Earlier(burst, 59029581035870568448, 95037625467751530496, 1610,
      Stays(39, Num(5620492334958379, 8192), Num(8992787735933407, 256), Num(5941148628427153, 16384)), trail);
    trail := Earlier(burst, 59029581035870568448, 92735471807352586240, 1571,
      Stays(39, Num(5620492334958379, 8192), Num(8992787735933407, 256), Num(5800636320053194, 16384)), trail);
    trail := Earlier(burst, 59029581035870568448, 90433318146953641984, 1532,
      Stays(39, Num(5620492334958379, 8192), Num(8992787735933407, 256), Num(5660124011679235, 16384)), trail);
  }

  lemma Trail3After5(burst: int) returns (trail: Trail)
    requires 1 <= burst
    ensures Trailed(burst, 59029581035870568448, 83526857165756809216, 1415, trail)
  {
    Grains();
    trail := Trail3After8(burst);
    trail := Earlier(burst, 59029581035870568448, 88131164486554697728, 1493,
      Stays(39, Num(5620492334958379, 8192), Num(8992787735933407, 256), Num(5519611703305276, 16384)), trail);
    trail := Earlier(burst, 59029581035870568448, 85829010826155753472, 1454,
      Stays(39, Num(5620492334958379, 8192), Num(8992787735933407, 256), Num(5379099394931317, 16384)), trail);
    trail := Earlier(burst, 59029581035870568448, 83526857165756809216, 1415,
      Stays(39, Num(5620492334958379, 8192), Num(8992787735933407, 256), Num(5238587086557358, 16384)), trail);
  }

  lemma Trail3After2(burst: int) returns (trail: Trail)
    requires 1 <= burst
    ensures Trailed(burst, 59029581035870568448, 76620396184559976448, 1298, trail)
  {
    Grains();
    trail := Trail3After5(burst);
    trail := Earlier(burst, 59029581035870568448, 81224703505357864960, 1376,
      Stays(39, Num(5620492334958379, 8192), Num(8992787735933407, 256), Num(5098074778183399, 16384)), trail);
    trail := Earlier(burst, 59029581035870568448, 78922549844958920704, 1337,
      Stays(39, Num(5620492334958379, 8192), Num(8992787735933407, 256), Num(4957562469809440, 16384)), trail);
    trail := Earlier(burst, 59029581035870568448, 76620396184559976448, 1298,
      Stays(39, Num(5620492334958379, 8192), Num(8992787735933407, 256), Num(4817050161435481, 16384)), trail);
  }

  lemma Trail3(burst: int) returns (trail: Trail)
    requires 1 <= burst
    ensures Trailed(burst, 59029581035870568448, 0, 0, trail)
  {
    Grains();
    trail := Trail3After2(burst);
    trail := Earlier(burst, 59029581035870568448, 2302153660398952192, 39,
      Stays(1259, Num(5670031930859454, 262144), Num(4536025544687563, 16384), Num(4676537853061522, 16384)), trail);
    trail := Earlier(burst, 59029581035870568448, 0, 0,
      Stays(39, Num(5620492334958379, 8192), Num(8992787735933407, 256), Num(8992787735933407, 256)), trail);
  }

  lemma Trail6After12(burst: int) returns (trail: Trail)
    requires 1 <= burst
    ensures Trailed(burst, 118059162071741136896, 99878051112692908032, 846, trail)
  {
    Grains();
    trail := Ends(burst, 118059162071741136896, 118059162071741022208, 1000, 9,
                  Num(8106479329266894, 131072), Num(5066549580791808, 2097152), Num(8106479329266893, 131072));
    trail := Earlier(burst, 118059162071741136896, 105072654243849502720, 890,
      Stays(110, Num(7926335344172073, 16384), Num(6341068275337659, 2048), Num(7205759403792787, 16384)), trail);
    trail := Earlier(burst, 118059162071741136896, 102475352678271205376, 868,
      Stays(22, Num(6341068275337658, 4096), Num(5072854620270127, 512), Num(6413125869375580, 16384)), trail);
    trail := Earlier(burst, 118059162071741136896, 99878051112692908032, 846,
      Stays(22, Num(6341068275337658, 4096), Num(5072854620270127, 512), Num(6254599162492139, 16384)), trail);
  }

  lemma Trail6After9(burst: int) returns (trail: Trail)
    requires 1 <= burst
    ensures Trailed(burst, 118059162071741136896, 92086146415958016000, 780, trail)
  {
    Grains();
    trail := Trail6After12(burst);
    trail := Earlier(burst, 118059162071741136896, 97280749547114610688, 824,
      Stays(22, Num(6341068275337658, 4096), Num(5072854620270127, 512), Num(6096072455608698, 16384)), trail);
    trail := Earlier(burst, 118059162071741136896, 94683447981536313344, 802,
      Stays(22, Num(6341068275337658, 4096), Num(5072854620270127, 512), Num(5937545748725257, 16384)), trail);
    trail := Earlier(burst, 118059162071741136896, 92086146415958016000, 780,
      Stays(22, Num(6341068275337658, 4096), Num(5072854620270127, 512), Num(5779019041841816, 16384)), trail);
  }

  lemma Trail6After6(burst: int) returns (trail: Trail)
    requires 1 <= burst
    ensures Trailed(burst, 118059162071741136896, 84294241719223123968, 714, trail)
  {
    Grains();
    trail := Trail6After9(burst);
    trail := Earlier(burst, 118059162071741136896, 89488844850379718656, 758,
      Stays(22, Num(6341068275337658, 4096), Num(5072854620270127, 512), Num(5620492334958375, 16384)), trail);
    trail := Earlier(burst, 118059162071741136896, 86891543284801421312, 736,
      Stays(22, Num(6341068275337658, 4096), Num(5072854620270127, 512), Num(5461965628074934, 16384)), trail);
    trail := Earlier(burst, 118059162071741136896, 84294241719223123968, 714,
      Stays(22, Num(6341068275337658, 4096), Num(5072854620270127, 512), Num(5303438921191493, 16384)), trail);
  }

  lemma Trail6After3(burst: int) returns (trail: Trail)
    requires 1 <= burst
    ensures Trailed(burst, 118059162071741136896, 76502337022488231936, 648, trail)
  {
    Grains();
    trail := Trail6After6(burst);
    trail := Earlier(burst, 118059162071741136896, 81696940153644826624, 692,
      Stays(22, Num(6341068275337658, 4096), Num(5072854620270127, 512), Num(5144912214308052, 16384)), trail);
    trail := Earlier(burst, 118059162071741136896, 79099638588066529280, 670,
      Stays(22, Num(6341068275337658, 4096), Num(5072854620270127, 512), Num(4986385507424611, 16384)), trail);
    trail := Earlier(burst, 118059162071741136896, 76502337022488231936, 648,
      Stays(22, Num(6341068275337658, 4096), Num(5072854620270127, 512), Num(4827858800541170, 16384)), trail);
  }

  lemma Trail6(burst: int) returns (trail: Trail)
    requires 1 <= burst
    ensures Trailed(burst, 118059162071741136896, 0, 0, trail)
  {
    Grains();
    trail := Trail6After3(burst);
    trail := Earlier(burst, 118059162071741136896, 73905035456909934592, 626,
      Stays(22, Num(6341068275337658, 4096), Num(5072854620270127, 512), Num(4669332093657729, 16384)), trail);
    trail := Earlier(burst, 118059162071741136896, 7201608886376209408, 61,
      Stays(565, Num(5089067578928660, 131072), Num(8142508126285856, 8192), Num(4510805386774288, 16384)), trail);
    trail := Earlier(burst, 118059162071741136896, 0, 0,
      Stays(61, Num(8791026472627208, 8192), Num(7032821178101767, 1024), Num(7032821178101767, 1024)), trail);
  }

  lemma Trail9(burst: int) returns (trail: Trail)
    requires 2 <= burst
    ensures Trailed(burst, 177088743107611688960, 0, 0, trail)
  {
    Grains();
    trail := Ends(burst, 177088743107611688960, 118059162071741054976, 14000, 6,
                  Num(8106479329266893, 131072), Num(6755399441055744, 1048576), Num(8106479329266892, 131072));
    trail := Earlier(burst, 177088743107611688960, 57848989415153074176, 13660,
      Stays(340, Num(6124895493223875, 65536), Num(7349874591868650, 8192), Num(7205759403792789, 16384)), trail);
    trail := Earlier(burst, 177088743107611688960, 977411802791944650752, 12186,
      Visit(1474, Num(6638305850744111, 262144), Num(7965967020892933, 32768), Num(4724276009111650, 262144),
            Num(7061644215716928, 8192)), trail);
    trail := Earlier(burst, 177088743107611688960, 0, 0,
      Visit(12186, Num(6860108132392108, 2097152), Num(8232129758870529, 262144), Num(8232129758870529, 262144),
            Num(7457060263000066, 131072)), trail);
  }

  lemma Trail18(burst: int) returns (trail: Trail)
    requires 2 <= burst
    ensures Trailed(burst, 354177486215223377920, 0, 0, trail)
  {
    Grains();
    trail := Ends(burst, 354177486215223377920, 118059162071741136896, 7000, 3,
                  Num(8106479329266893, 131072), Num(6755399441055744, 524288), Num(8106479329266892, 131072));
    trail := Earlier(burst, 354177486215223377920, 114163209723373682688, 6989,
      Stays(11, Num(6341068275337658, 2048), Num(7609281930405189, 512), Num(7205759403792794, 16384)), trail);
    trail := Earlier(burst, 354177486215223377920, 1077644031390853103616, 6376,
      Visit(613, Num(5521413143156228, 131072), Num(6625695771787473, 32768), Num(4939097711337223, 262144),
            Num(6967969343467632, 16384)), trail);
    trail := Earlier(burst, 354177486215223377920, 0, 0,
      Visit(6376, Num(7178737806028571, 1048576), Num(8614485367234285, 262144), Num(8614485367234285, 262144),
            Num(8221771479727578, 131072)), trail);
  }
}
