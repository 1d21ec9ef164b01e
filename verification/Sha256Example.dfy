/**
  The digest of "abc", the example of FIPS 180-4 that the engine's tests rely on (src/main.rs, lines 497-500): every
  word of the message schedule and every register, so each constant and each function of the standard is exercised.
 */
module Sha256Example {
  import opened Common
  import opened Sha256

  const ABC: seq<byte> := [0x61, 0x62, 0x63]

  /** The message schedule. */
  function Scheduled(t: nat): bv32
    requires t < 64
  {
    match t
    case 0 => 0x61626380 case 1 => 0x00000000 case 2 => 0x00000000 case 3 => 0x00000000
    case 4 => 0x00000000 case 5 => 0x00000000 case 6 => 0x00000000 case 7 => 0x00000000
    case 8 => 0x00000000 case 9 => 0x00000000 case 10 => 0x00000000 case 11 => 0x00000000
    case 12 => 0x00000000 case 13 => 0x00000000 case 14 => 0x00000000 case 15 => 0x00000018
    case 16 => 0x61626380 case 17 => 0x000f0000 case 18 => 0x7da86405 case 19 => 0x600003c6
    case 20 => 0x3e9d7b78 case 21 => 0x0183fc00 case 22 => 0x12dcbfdb case 23 => 0xe2e2c38e
    case 24 => 0xc8215c1a case 25 => 0xb73679a2 case 26 => 0xe5bc3909 case 27 => 0x32663c5b
    case 28 => 0x9d209d67 case 29 => 0xec8726cb case 30 => 0x702138a4 case 31 => 0xd3b7973b
    case 32 => 0x93f5997f case 33 => 0x3b68ba73 case 34 => 0xaff4ffc1 case 35 => 0xf10a5c62
    case 36 => 0x0a8b3996 case 37 => 0x72af830a case 38 => 0x9409e33e case 39 => 0x24641522
    case 40 => 0x9f47bf94 case 41 => 0xf0a64f5a case 42 => 0x3e246a79 case 43 => 0x27333ba3
    case 44 => 0x0c4763f2 case 45 => 0x840abf27 case 46 => 0x7a290d5d case 47 => 0x065c43da
    case 48 => 0xfb3e89cb case 49 => 0xcc7617db case 50 => 0xb9e66c34 case 51 => 0xa9993667
    case 52 => 0x84badedd case 53 => 0xc21462bc case 54 => 0x1487472c case 55 => 0xb20f7a99
    case 56 => 0xef57b9cd case 57 => 0xebe6b238 case 58 => 0x9fe3095e case 59 => 0x78bc8d4b
    case 60 => 0xa43fcf15 case 61 => 0x668b2ff8 case 62 => 0xeeaba2cc case _ => 0x12b1edeb
  }

  /** What register `a` holds before round `t - 3`; the registers `b`, `c` and `d` follow it. */
  function RegisterA(t: nat): bv32
    requires t < 68
  {
    match t
    case 0 => 0xa54ff53a case 1 => 0x3c6ef372 case 2 => 0xbb67ae85 case 3 => 0x6a09e667
    case 4 => 0x5d6aebcd case 5 => 0x5a6ad9ad case 6 => 0xc8c347a7 case 7 => 0xd550f666
    case 8 => 0x04409a6a case 9 => 0x2b4209f5 case 10 => 0xe5030380 case 11 => 0x85a07b5f
    case 12 => 0x8e04ecb9 case 13 => 0x8c87346b case 14 => 0x4798a3f4 case 15 => 0xf71fc5a9
    case 16 => 0x87912990 case 17 => 0xd932eb16 case 18 => 0xc0645fde case 19 => 0xb0fa238e
    case 20 => 0x21da9a9b case 21 => 0xc2fbd9d1 case 22 => 0xfe777bbf case 23 => 0xe1f20c33
    case 24 => 0x9dc68b63 case 25 => 0xc2606d6d case 26 => 0xa7a3623f case 27 => 0xc5d53d8d
    case 28 => 0x1c2c2838 case 29 => 0xcde8037d case 30 => 0xb62ec4bc case 31 => 0x77d37528
    case 32 => 0x363482c9 case 33 => 0xa0060b30 case 34 => 0xea992a22 case 35 => 0x73b33bf5
    case 36 => 0x98e12507 case 37 => 0xfe604df5 case 38 => 0xa9a7738c case 39 => 0x65a0cfe4
    case 40 => 0x41a65cb1 case 41 => 0x34df1604 case 42 => 0x6dc57a8a case 43 => 0x79ea687a
    case 44 => 0xd6670766 case 45 => 0xdf46652f case 46 => 0x17aa0dfe case 47 => 0x9d4baf93
    case 48 => 0x26628815 case 49 => 0x72ab4b91 case 50 => 0xa14c14b0 case 51 => 0x4172328d
    case 52 => 0x05757ceb case 53 => 0xf11bfaa8 case 54 => 0x7a0508a1 case 55 => 0x886e7a22
    case 56 => 0x101fd28f case 57 => 0xf5702fdb case 58 => 0x3ec45cdb case 59 => 0x38cc9913
    case 60 => 0xfcd1887b case 61 => 0xc062d46f case 62 => 0xffb70472 case 63 => 0xb6ae8fff
    case 64 => 0xb85e2ce9 case 65 => 0x04d24d6c case 66 => 0xd39a2165 case _ => 0x506e3058
  }

  /** What register `e` holds before round `t - 3`; the registers `f`, `g` and `h` follow it. */
  function RegisterE(t: nat): bv32
    requires t < 68
  {
    match t
    case 0 => 0x5be0cd19 case 1 => 0x1f83d9ab case 2 => 0x9b05688c case 3 => 0x510e527f
    case 4 => 0xfa2a4622 case 5 => 0x78ce7989 case 6 => 0xf92939eb case 7 => 0x24e00850
    case 8 => 0x43ada245 case 9 => 0x714260ad case 10 => 0x9b27a401 case 11 => 0x0c657a79
    case 12 => 0x32ca2d8c case 13 => 0x1cc92596 case 14 => 0x436b23e8 case 15 => 0x816fd6e9
    case 16 => 0x1e578218 case 17 => 0x745a48de case 18 => 0x0b92f20c case 19 => 0x07590dcd
    case 20 => 0x8034229c case 21 => 0x846ee454 case 22 => 0xcc899961 case 23 => 0xb0638179
    case 24 => 0x8ada8930 case 25 => 0xe1257970 case 26 => 0x49f5114a case 27 => 0xaa47c347
    case 28 => 0x2823ef91 case 29 => 0x14383d8e case 30 => 0xc74c6516 case 31 => 0xedffbff8
    case 32 => 0x6112a3b7 case 33 => 0xade79437 case 34 => 0x0109ab3a case 35 => 0xba591112
    case 36 => 0x9cd9f5f6 case 37 => 0x59249dd3 case 38 => 0x085f3833 case 39 => 0xf4b002d6
    case 40 => 0x0772a26b case 41 => 0xa507a53d case 42 => 0xf0781bc8 case 43 => 0x1efbc0a0
    case 44 => 0x26352d63 case 45 => 0x838b2711 case 46 => 0xdecd4715 case 47 => 0xfda24c2e
    case 48 => 0xa80f11f0 case 49 => 0xb7755da1 case 50 => 0xd57b94a9 case 51 => 0xfecf0bc6
    case 52 => 0xbd714038 case 53 => 0x6e5c390c case 54 => 0x52f1ccf7 case 55 => 0x49231c1e
    case 56 => 0x529e7d00 case 57 => 0x9f4787c3 case 58 => 0xe50e1b4f case 59 => 0x54cb266b
    case 60 => 0x9b5e906c case 61 => 0x7e44008e case 62 => 0x6d83bfc6 case 63 => 0xb21bad3d
    case 64 => 0x961f4894 case 65 => 0x948d25b6 case 66 => 0xfb121210 case _ => 0x5ef50f24
  }

  function Registers(t: nat): Words
    requires t <= 64
  {
    Words(RegisterA(t + 3), RegisterA(t + 2), RegisterA(t + 1), RegisterA(t),
          RegisterE(t + 3), RegisterE(t + 2), RegisterE(t + 1), RegisterE(t))
  }

  // ---------------------------------------------------------------------------
  // The schedule
  // ---------------------------------------------------------------------------

  lemma PaddedAbc()
    ensures var p := Padded(ABC);
      && |p| == 64 && p[0] == 0x61 && p[1] == 0x62 && p[2] == 0x63 && p[3] == 0x80
      && (forall i :: 4 <= i < 63 ==> p[i] == 0) && p[63] == 24
  {
    assert ZeroCount(3) == 52 && BitLength(ABC) == 24;
    assert BigEndian(0, 1) == [0] && BigEndian(0, 2) == [0, 0] && BigEndian(0, 3) == [0, 0, 0];
    assert BigEndian(0, 5) == BigEndian(0, 4) + [0] && BigEndian(0, 4) == BigEndian(0, 3) + [0];
    assert BigEndian(0, 7) == BigEndian(0, 6) + [0] && BigEndian(0, 6) == BigEndian(0, 5) + [0];
    assert BigEndian(24, 8) == BigEndian(0, 7) + [24];
    hide BigEndian;
  }

  lemma FirstWords(t: nat)
    requires t < 16
    ensures |Padded(ABC)| == 64 && W(Padded(ABC), 0, t) == Scheduled(t)
  {
    PaddedAbc();
    hide Padded;
    assert WordOf(0x61, 0x62, 0x63, 0x80) == 0x61626380 && WordOf(0, 0, 0, 24) == 0x18 && WordOf(0, 0, 0, 0) == 0;
    hide WordOf;
  }

  /** The equation of the schedule. */
  predicate IsNextWord(t: nat)
    requires 16 <= t < 64
  {
    Scheduled(t) == Add(Add(Add(SmallSigma1(Scheduled(t - 2)), Scheduled(t - 7)), SmallSigma0(Scheduled(t - 15))),
                        Scheduled(t - 16))
  }

  lemma NextWords16(t: nat)
    requires 16 <= t < 24
    ensures IsNextWord(t)
  {
    assert SmallSigma1(0x00000000) == 0x00000000 && SmallSigma0(0x00000000) == 0x00000000;
    assert SmallSigma1(0x00000018) == 0x000f0000 && SmallSigma0(0x00000000) == 0x00000000;
    assert SmallSigma1(0x61626380) == 0x7da86405 && SmallSigma0(0x00000000) == 0x00000000;
    assert SmallSigma1(0x000f0000) == 0x600003c6 && SmallSigma0(0x00000000) == 0x00000000;
    assert SmallSigma1(0x7da86405) == 0x3e9d7b78 && SmallSigma0(0x00000000) == 0x00000000;
    assert SmallSigma1(0x600003c6) == 0x0183fc00 && SmallSigma0(0x00000000) == 0x00000000;
    assert SmallSigma1(0x3e9d7b78) == 0x12dcbfc3 && SmallSigma0(0x00000000) == 0x00000000;
    assert SmallSigma1(0x0183fc00) == 0x8180600e && SmallSigma0(0x00000000) == 0x00000000;
    hide SmallSigma0, SmallSigma1;
  }

  lemma NextWords24(t: nat)
    requires 24 <= t < 32
    ensures IsNextWord(t)
  {
    assert SmallSigma1(0x12dcbfdb) == 0xc8125c1a && SmallSigma0(0x00000000) == 0x00000000;
    assert SmallSigma1(0xe2e2c38e) == 0x398e159d && SmallSigma0(0x00000000) == 0x00000000;
    assert SmallSigma1(0xc8215c1a) == 0x85bc3543 && SmallSigma0(0x00000000) == 0x00000000;
    assert SmallSigma1(0xb73679a2) == 0xf3c8c0e3 && SmallSigma0(0x00000000) == 0x00000000;
    assert SmallSigma1(0xe5bc3909) == 0x9b9ca167 && SmallSigma0(0x00000000) == 0x00000000;
    assert SmallSigma1(0x32663c5b) == 0xd9aa66f0 && SmallSigma0(0x00000000) == 0x00000000;
    assert SmallSigma1(0x9d209d67) == 0x5d387513 && SmallSigma0(0x00000018) == 0x30060003;
    assert SmallSigma1(0xec8726cb) == 0x7787aa1a && SmallSigma0(0x61626380) == 0x940e90ef;
    hide SmallSigma0, SmallSigma1;
  }

  lemma NextWords32(t: nat)
    requires 32 <= t < 40
    ensures IsNextWord(t)
  {
    assert SmallSigma1(0x702138a4) == 0xbb5abe5a && SmallSigma0(0x000f0000) == 0xc001fe03;
    assert SmallSigma1(0xd3b7973b) == 0x394e7e48 && SmallSigma0(0x7da86405) == 0x1c4f0322;
    assert SmallSigma1(0x93f5997f) == 0x7fb4c6e2 && SmallSigma0(0x600003c6) == 0x8031987f;
    assert SmallSigma1(0x3b68ba73) == 0x4a7920f7 && SmallSigma0(0x3e9d7b78) == 0xa9709a3e;
    assert SmallSigma1(0xaff4ffc1) == 0xe0331f3b && SmallSigma0(0x0183fc00) == 0xff337818;
    assert SmallSigma1(0xf10a5c62) == 0x65816433 && SmallSigma0(0x12dcbfdb) == 0x9b88ea33;
    assert SmallSigma1(0x0a8b3996) == 0xfbfb66da && SmallSigma0(0xe2e2c38e) == 0xb17a254e;
    assert SmallSigma1(0x72af830a) == 0x31f8dce2 && SmallSigma0(0xc8215c1a) == 0x7b92db33;
    hide SmallSigma0, SmallSigma1;
  }

  lemma NextWords40(t: nat)
    requires 40 <= t < 48
    ensures IsNextWord(t)
  {
    assert SmallSigma1(0x9409e33e) == 0xcddd9afd && SmallSigma0(0xb73679a2) == 0xcde00e0a;
    assert SmallSigma1(0x24641522) == 0x883c4fbb && SmallSigma0(0xe5bc3909) == 0x013e863c;
    assert SmallSigma1(0x9f47bf94) == 0x281f0da4 && SmallSigma0(0x32663c5b) == 0x3f3ec76a;
    assert SmallSigma1(0xf0a64f5a) == 0xee7a0fd4 && SmallSigma0(0x9d209d67) == 0xfbc7b5de;
    assert SmallSigma1(0x3e246a79) == 0xb87c31cc && SmallSigma0(0xec8726cb) == 0x43fb11b5;
    assert SmallSigma1(0x27333ba3) == 0xfaac3bb1 && SmallSigma0(0x702138a4) == 0x08cd796d;
    assert SmallSigma1(0x0c4763f2) == 0x5d845673 && SmallSigma0(0xd3b7973b) == 0x881f6924;
    assert SmallSigma1(0x840abf27) == 0x0856302b && SmallSigma0(0x93f5997f) == 0x8b06bce0;
    hide SmallSigma0, SmallSigma1;
  }

  lemma NextWords48(t: nat)
    requires 48 <= t < 56
    ensures IsNextWord(t)
  {
    assert SmallSigma1(0x7a290d5d) == 0xa71b9812 && SmallSigma0(0x3b68ba73) == 0xcf8708e0;
    assert SmallSigma1(0x065c43da) == 0xa997d4f5 && SmallSigma0(0xaff4ffc1) == 0xa9511dfa;
    assert SmallSigma1(0xfb3e89cb) == 0x95e24d5a && SmallSigma0(0xf10a5c62) == 0x4cdbe376;
    assert SmallSigma1(0xcc7617db) == 0xc9258230 && SmallSigma0(0x0a8b3996) == 0xe321f3e3;
    assert SmallSigma1(0xb9e66c34) == 0xfbb2b254 && SmallSigma0(0x72af830a) == 0xfa7233cc;
    assert SmallSigma1(0xa9993667) == 0xbdd547b2 && SmallSigma0(0x9409e33e) == 0x17668aa3;
    assert SmallSigma1(0x84badedd) == 0x34945c7d && SmallSigma0(0x24641522) == 0x458cc397;
    assert SmallSigma1(0xc21462bc) == 0xbd397c50 && SmallSigma0(0x9f47bf94) == 0xd5335f5c;
    hide SmallSigma0, SmallSigma1;
  }

  lemma NextWords56(t: nat)
    requires 56 <= t < 64
    ensures IsNextWord(t)
  {
    assert SmallSigma1(0x1487472c) == 0x4b76a902 && SmallSigma0(0xf0a64f5a) == 0x3823395c;
    assert SmallSigma1(0xb20f7a99) == 0x52336c98 && SmallSigma0(0x3e246a79) == 0xef268a12;
    assert SmallSigma1(0xef57b9cd) == 0x2be49faf && SmallSigma0(0x27333ba3) == 0x8c40c8cf;
    assert SmallSigma1(0xebe6b238) == 0x8f619123 && SmallSigma0(0x0c4763f2) == 0x3d6ce1a8;
    assert SmallSigma1(0x9fe3095e) == 0xe5a364cf && SmallSigma0(0x840abf27) == 0xf040a398;
    assert SmallSigma1(0x78bc8d4b) == 0xd712fc6a && SmallSigma0(0x7a290d5d) == 0xf6e62d3b;
    assert SmallSigma1(0xa43fcf15) == 0x1e41696b && SmallSigma0(0x065c43da) == 0xa431b16b;
    assert SmallSigma1(0x668b2ff8) == 0xf21a9d5f && SmallSigma0(0xfb3e89cb) == 0x2ae352e5;
    hide SmallSigma0, SmallSigma1;
  }

  lemma NextWord(t: nat)
    requires 16 <= t < 64
    ensures IsNextWord(t)
  {
    hide IsNextWord;
    match t / 8 {
      case 2 => NextWords16(t);
      case 3 => NextWords24(t);
      case 4 => NextWords32(t);
      case 5 => NextWords40(t);
      case 6 => NextWords48(t);
      case _ => NextWords56(t);
    }
  }

  lemma {:induction false} ScheduleIs(t: nat)
    requires t < 64
    ensures |Padded(ABC)| == 64 && W(Padded(ABC), 0, t) == Scheduled(t)
  {
    hide Padded, Scheduled, Add, SmallSigma0, SmallSigma1, WordOf;
    if t < 16 {
      FirstWords(t);
    } else {
      NextWord(t);
      ScheduleIs(t - 2);
      ScheduleIs(t - 7);
      ScheduleIs(t - 15);
      ScheduleIs(t - 16);
    }
  }

  // ---------------------------------------------------------------------------
  // The rounds
  // ---------------------------------------------------------------------------

  predicate IsNextRound(t: nat)
    requires t < 64
  {
    Registers(t + 1) == Round(Registers(t), Constant(t).word, Scheduled(t))
  }

  lemma NextRounds0()
    ensures forall t :: 0 <= t < 4 ==> IsNextRound(t)
  {
    assert IsNextRound(0) && IsNextRound(1) && IsNextRound(2) && IsNextRound(3);
    hide IsNextRound;
  }

  lemma NextRounds4()
    ensures forall t :: 4 <= t < 8 ==> IsNextRound(t)
  {
    assert IsNextRound(4) && IsNextRound(5) && IsNextRound(6) && IsNextRound(7);
    hide IsNextRound;
  }

  lemma NextRounds8()
    ensures forall t :: 8 <= t < 12 ==> IsNextRound(t)
  {
    assert IsNextRound(8) && IsNextRound(9) && IsNextRound(10) && IsNextRound(11);
    hide IsNextRound;
  }

  lemma NextRounds12()
    ensures forall t :: 12 <= t < 16 ==> IsNextRound(t)
  {
    assert IsNextRound(12) && IsNextRound(13) && IsNextRound(14) && IsNextRound(15);
    hide IsNextRound;
  }

  lemma NextRounds16()
    ensures forall t :: 16 <= t < 20 ==> IsNextRound(t)
  {
    assert IsNextRound(16) && IsNextRound(17) && IsNextRound(18) && IsNextRound(19);
    hide IsNextRound;
  }

  lemma NextRounds20()
    ensures forall t :: 20 <= t < 24 ==> IsNextRound(t)
  {
    assert IsNextRound(20) && IsNextRound(21) && IsNextRound(22) && IsNextRound(23);
    hide IsNextRound;
  }

  lemma NextRounds24()
    ensures forall t :: 24 <= t < 28 ==> IsNextRound(t)
  {
    assert IsNextRound(24) && IsNextRound(25) && IsNextRound(26) && IsNextRound(27);
    hide IsNextRound;
  }

  lemma NextRounds28()
    ensures forall t :: 28 <= t < 32 ==> IsNextRound(t)
  {
    assert IsNextRound(28) && IsNextRound(29) && IsNextRound(30) && IsNextRound(31);
    hide IsNextRound;
  }

  lemma NextRounds32()
    ensures forall t :: 32 <= t < 36 ==> IsNextRound(t)
  {
    assert IsNextRound(32) && IsNextRound(33) && IsNextRound(34) && IsNextRound(35);
    hide IsNextRound;
  }

  lemma NextRounds36()
    ensures forall t :: 36 <= t < 40 ==> IsNextRound(t)
  {
    assert IsNextRound(36) && IsNextRound(37) && IsNextRound(38) && IsNextRound(39);
    hide IsNextRound;
  }

  lemma NextRounds40()
    ensures forall t :: 40 <= t < 44 ==> IsNextRound(t)
  {
    assert IsNextRound(40) && IsNextRound(41) && IsNextRound(42) && IsNextRound(43);
    hide IsNextRound;
  }

  lemma NextRounds44()
    ensures forall t :: 44 <= t < 48 ==> IsNextRound(t)
  {
    assert IsNextRound(44) && IsNextRound(45) && IsNextRound(46) && IsNextRound(47);
    hide IsNextRound;
  }

  lemma NextRounds48()
    ensures forall t :: 48 <= t < 52 ==> IsNextRound(t)
  {
    assert IsNextRound(48) && IsNextRound(49) && IsNextRound(50) && IsNextRound(51);
    hide IsNextRound;
  }

  lemma NextRounds52()
    ensures forall t :: 52 <= t < 56 ==> IsNextRound(t)
  {
    assert IsNextRound(52) && IsNextRound(53) && IsNextRound(54) && IsNextRound(55);
    hide IsNextRound;
  }

  lemma NextRounds56()
    ensures forall t :: 56 <= t < 60 ==> IsNextRound(t)
  {
    assert IsNextRound(56) && IsNextRound(57) && IsNextRound(58) && IsNextRound(59);
    hide IsNextRound;
  }

  lemma NextRounds60()
    ensures forall t :: 60 <= t < 64 ==> IsNextRound(t)
  {
    assert IsNextRound(60) && IsNextRound(61) && IsNextRound(62) && IsNextRound(63);
    hide IsNextRound;
  }

  lemma NextRound(t: nat)
    requires t < 64
    ensures IsNextRound(t)
  {
    hide IsNextRound;
    match t / 4 {
      case 0 => NextRounds0();
      case 1 => NextRounds4();
      case 2 => NextRounds8();
      case 3 => NextRounds12();
      case 4 => NextRounds16();
      case 5 => NextRounds20();
      case 6 => NextRounds24();
      case 7 => NextRounds28();
      case 8 => NextRounds32();
      case 9 => NextRounds36();
      case 10 => NextRounds40();
      case 11 => NextRounds44();
      case 12 => NextRounds48();
      case 13 => NextRounds52();
      case 14 => NextRounds56();
      case _ => NextRounds60();
    }
  }

  lemma {:induction false} RoundsAre(t: nat)
    requires t <= 64
    ensures |Padded(ABC)| == 64 && Rounds(Padded(ABC), 0, InitialHash(), t) == Registers(t)
  {
    ScheduleIs(0);
    hide Padded, Scheduled, Round, Constant, W, K;
    if t == 0 {
      FirstRegisters();
    } else {
      hide Registers;
      RoundsAre(t - 1);
      ScheduleIs(t - 1);
      NextRound(t - 1);
      WordOfK(t - 1);
    }
  }

  lemma FirstRegisters()
    ensures Registers(0) == InitialHash()
  {
  }

  lemma WordOfK(t: nat)
    requires t < 64
    ensures K()[t] == Constant(t).word
  {
    hide Constant;
  }

  // ---------------------------------------------------------------------------
  // The digest
  // ---------------------------------------------------------------------------

  lemma HashOfAbc()
    ensures |Padded(ABC)| == 64
    ensures HashValue(Padded(ABC), 1) == Words(
              0xba7816bf, 0x8f01cfea, 0x414140de, 0x5dae2223,
              0xb00361a3, 0x96177a9c, 0xb410ff61, 0xf20015ad)
  {
    RoundsAre(64);
    hide Padded, Rounds;
    assert HashValue(Padded(ABC), 0) == InitialHash();
  }

  lemma OneDigit(n: nat, high: nat, low: nat, width: nat)
    requires low < 16 && n == 16 * high + low
    ensures HexDigits(n, width + 1) == HexDigits(high, width) + [HexDigit(low)]
  {
    assert n / 16 == high && n % 16 == low;
  }

  lemma FourDigits(n: nat, a: nat, b: nat, c: nat, d: nat, high: nat, width: nat)
    requires a < 16 && b < 16 && c < 16 && d < 16
    requires n == 0x1_0000 * high + 0x1000 * a + 0x100 * b + 0x10 * c + d
    ensures HexDigits(n, width + 4) == HexDigits(high, width) + [HexDigit(a), HexDigit(b), HexDigit(c), HexDigit(d)]
  {
    hide HexDigits, HexDigit;
    OneDigit(n, 0x1000 * high + 0x100 * a + 0x10 * b + c, d, width + 3);
    OneDigit(0x1000 * high + 0x100 * a + 0x10 * b + c, 0x100 * high + 0x10 * a + b, c, width + 2);
    OneDigit(0x100 * high + 0x10 * a + b, 0x10 * high + a, b, width + 1);
    OneDigit(0x10 * high + a, high, a, width);
  }

  lemma Digits0()
    ensures HexWord(0xba7816bf) == "ba7816bf"
  {
    FourDigits(0xba7816bf, 1, 6, 0xb, 0xf, 0xba78, 4);
    FourDigits(0xba78, 0xb, 0xa, 7, 8, 0, 0);
    hide HexDigits;
  }

  lemma Digits1()
    ensures HexWord(0x8f01cfea) == "8f01cfea"
  {
    FourDigits(0x8f01cfea, 0xc, 0xf, 0xe, 0xa, 0x8f01, 4);
    FourDigits(0x8f01, 8, 0xf, 0, 1, 0, 0);
    hide HexDigits;
  }

  lemma Digits2()
    ensures HexWord(0x414140de) == "414140de"
  {
    FourDigits(0x414140de, 4, 0, 0xd, 0xe, 0x4141, 4);
    FourDigits(0x4141, 4, 1, 4, 1, 0, 0);
    hide HexDigits;
  }

  lemma Digits3()
    ensures HexWord(0x5dae2223) == "5dae2223"
  {
    FourDigits(0x5dae2223, 2, 2, 2, 3, 0x5dae, 4);
    FourDigits(0x5dae, 5, 0xd, 0xa, 0xe, 0, 0);
    hide HexDigits;
  }

  lemma Digits4()
    ensures HexWord(0xb00361a3) == "b00361a3"
  {
    FourDigits(0xb00361a3, 6, 1, 0xa, 3, 0xb003, 4);
    FourDigits(0xb003, 0xb, 0, 0, 3, 0, 0);
    hide HexDigits;
  }

  lemma Digits5()
    ensures HexWord(0x96177a9c) == "96177a9c"
  {
    FourDigits(0x96177a9c, 7, 0xa, 9, 0xc, 0x9617, 4);
    FourDigits(0x9617, 9, 6, 1, 7, 0, 0);
    hide HexDigits;
  }

  lemma Digits6()
    ensures HexWord(0xb410ff61) == "b410ff61"
  {
    FourDigits(0xb410ff61, 0xf, 0xf, 6, 1, 0xb410, 4);
    FourDigits(0xb410, 0xb, 4, 1, 0, 0, 0);
    hide HexDigits;
  }

  lemma Digits7()
    ensures HexWord(0xf20015ad) == "f20015ad"
  {
    FourDigits(0xf20015ad, 1, 5, 0xa, 0xd, 0xf200, 4);
    FourDigits(0xf200, 0xf, 2, 0, 0, 0, 0);
    hide HexDigits;
  }

  /** The digest of "abc" is the one the standard gives. */
  lemma DigestOfAbc()
    ensures Sha256Text(ABC) == "ba7816bf" + "8f01cfea" + "414140de" + "5dae2223"
                               + "b00361a3" + "96177a9c" + "b410ff61" + "f20015ad"
  {
    HashOfAbc();
    hide Padded, HashValue, HexWord;
    Digits0();
    Digits1();
    Digits2();
    Digits3();
    Digits4();
    Digits5();
    Digits6();
    Digits7();
    HexOfEight(HashValue(Padded(ABC), 1));
  }

  lemma HexOfEight(v: Words)
    ensures Hex(WordSeq(v)) == HexWord(v.a) + HexWord(v.b) + HexWord(v.c) + HexWord(v.d)
                               + HexWord(v.e) + HexWord(v.f) + HexWord(v.g) + HexWord(v.h)
  {
    hide *;
    var s := WordSeq(v);
    WordsOf(v);
    HexOfNone(s);
    assert "" + HexWord(v.a) == HexWord(v.a);
    HexStep(s, 0);
    HexStep(s, 1);
    HexStep(s, 2);
    HexStep(s, 3);
    HexStep(s, 4);
    HexStep(s, 5);
    HexStep(s, 6);
    HexStep(s, 7);
  }

  lemma WordsOf(v: Words)
    ensures var s := WordSeq(v);
      && |s| == 8 && s[..8] == s && s[0] == v.a && s[1] == v.b && s[2] == v.c && s[3] == v.d
      && s[4] == v.e && s[5] == v.f && s[6] == v.g && s[7] == v.h
  {
  }

  lemma HexOfNone(s: seq<bv32>)
    ensures Hex(s[..0]) == ""
  {
  }

  lemma HexStep(s: seq<bv32>, k: nat)
    requires k < |s|
    ensures Hex(s[..k + 1]) == Hex(s[..k]) + HexWord(s[k])
  {
    assert s[..k + 1][..k] == s[..k];
  }
}
