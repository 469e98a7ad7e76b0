/**
 The first example of the standard: the hash of "abc", step by step. It fixes
 the constants, the order of bytes and words, and every part of a step.
 */
module Sha1Example {
  import opened Sha1Spec
  import opened Words
  import Sha1

  const ABC: seq<byte> := [0x61, 0x62, 0x63]

  /** The one block of the padded message. */
  const MESSAGE: seq<word> := [0x61626380, 0, 0, 0, 0, 0, 0, 0, 0, 0, 0, 0, 0, 0, 0, 24]

  // ---- the message schedule ------------------------------------------------

  ghost predicate Word(t: nat, x: word) { Schedule(MESSAGE, t) == x }

  /** The next word, x, from those 3, 8, 14 and 16 places back. */
  lemma NextWord(t: nat, p: word, q: word, r: word, s: word, x: word)
    requires 16 <= t && Word(t - 3, p) && Word(t - 8, q) && Word(t - 14, r) && Word(t - 16, s)
    requires x == Rotl(p ^ q ^ r ^ s, 1)
    ensures Word(t, x)
  {
    hide Rotl;
    Sha1.NextWord(MESSAGE, t);
    hide Schedule;
  }

  lemma FirstWords(m: seq<word>)
    requires |m| == 16
    ensures forall t :: 0 <= t < 16 ==> Schedule(m, t) == m[t]
  {
  }

  lemma Words0()
    ensures Word(0, 0x61626380) && Word(1, 0x00000000) && Word(2, 0x00000000) && Word(3, 0x00000000)
    ensures Word(4, 0x00000000) && Word(5, 0x00000000) && Word(6, 0x00000000) && Word(7, 0x00000000)
    ensures Word(8, 0x00000000) && Word(9, 0x00000000) && Word(10, 0x00000000) && Word(11, 0x00000000)
    ensures Word(12, 0x00000000) && Word(13, 0x00000000) && Word(14, 0x00000000) && Word(15, 0x00000018)
  {
    hide Schedule;
    FirstWords(MESSAGE);
  }

  lemma Words1()
    ensures Word(16, 0xc2c4c700) && Word(17, 0x00000000) && Word(18, 0x00000030) && Word(19, 0x85898e01)
    ensures Word(20, 0x00000000) && Word(21, 0x00000060) && Word(22, 0x0b131c03) && Word(23, 0x00000030)
    ensures Word(24, 0x85898ec1) && Word(25, 0x16263806) && Word(26, 0x00000000) && Word(27, 0x00000180)
    ensures Word(28, 0x2c4c700c) && Word(29, 0x000000f0) && Word(30, 0x93afb507) && Word(31, 0x5898e048)
  {
    hide Word;
    Words0();
    NextWord(16, 0x00000000, 0x00000000, 0x00000000, 0x61626380, 0xc2c4c700);
    NextWord(17, 0x00000000, 0x00000000, 0x00000000, 0x00000000, 0x00000000);
    NextWord(18, 0x00000018, 0x00000000, 0x00000000, 0x00000000, 0x00000030);
    NextWord(19, 0xc2c4c700, 0x00000000, 0x00000000, 0x00000000, 0x85898e01);
    NextWord(20, 0x00000000, 0x00000000, 0x00000000, 0x00000000, 0x00000000);
    NextWord(21, 0x00000030, 0x00000000, 0x00000000, 0x00000000, 0x00000060);
    NextWord(22, 0x85898e01, 0x00000000, 0x00000000, 0x00000000, 0x0b131c03);
    NextWord(23, 0x00000000, 0x00000018, 0x00000000, 0x00000000, 0x00000030);
    NextWord(24, 0x00000060, 0xc2c4c700, 0x00000000, 0x00000000, 0x85898ec1);
    NextWord(25, 0x0b131c03, 0x00000000, 0x00000000, 0x00000000, 0x16263806);
    NextWord(26, 0x00000030, 0x00000030, 0x00000000, 0x00000000, 0x00000000);
    NextWord(27, 0x85898ec1, 0x85898e01, 0x00000000, 0x00000000, 0x00000180);
    NextWord(28, 0x16263806, 0x00000000, 0x00000000, 0x00000000, 0x2c4c700c);
    NextWord(29, 0x00000000, 0x00000060, 0x00000018, 0x00000000, 0x000000f0);
    NextWord(30, 0x00000180, 0x0b131c03, 0xc2c4c700, 0x00000000, 0x93afb507);
    NextWord(31, 0x2c4c700c, 0x00000030, 0x00000000, 0x00000018, 0x5898e048);
  }

  lemma Words2()
    ensures Word(32, 0x8e9a9202) && Word(33, 0x00000600) && Word(34, 0xb131c0f0) && Word(35, 0x16263bc6)
    ensures Word(36, 0x4ebed41e) && Word(37, 0x626380a1) && Word(38, 0x16263806) && Word(39, 0x000018c0)
    ensures Word(40, 0xd2e138c4) && Word(41, 0x00000f00) && Word(42, 0x3afb5079) && Word(43, 0x898e04e5)
    ensures Word(44, 0xe2ba3c2b) && Word(45, 0x000060c0) && Word(46, 0x053a37cd) && Word(47, 0x74458547)
  {
    hide Word;
    Words1();
    NextWord(32, 0x000000f0, 0x85898ec1, 0x00000030, 0xc2c4c700, 0x8e9a9202);
    NextWord(33, 0x93afb507, 0x16263806, 0x85898e01, 0x00000000, 0x00000600);
    NextWord(34, 0x5898e048, 0x00000000, 0x00000000, 0x00000030, 0xb131c0f0);
    NextWord(35, 0x8e9a9202, 0x00000180, 0x00000060, 0x85898e01, 0x16263bc6);
    NextWord(36, 0x00000600, 0x2c4c700c, 0x0b131c03, 0x00000000, 0x4ebed41e);
    NextWord(37, 0xb131c0f0, 0x000000f0, 0x00000030, 0x00000060, 0x626380a1);
    NextWord(38, 0x16263bc6, 0x93afb507, 0x85898ec1, 0x0b131c03, 0x16263806);
    NextWord(39, 0x4ebed41e, 0x5898e048, 0x16263806, 0x00000030, 0x000018c0);
    NextWord(40, 0x626380a1, 0x8e9a9202, 0x00000000, 0x85898ec1, 0xd2e138c4);
    NextWord(41, 0x16263806, 0x00000600, 0x00000180, 0x16263806, 0x00000f00);
    NextWord(42, 0x000018c0, 0xb131c0f0, 0x2c4c700c, 0x00000000, 0x3afb5079);
    NextWord(43, 0xd2e138c4, 0x16263bc6, 0x000000f0, 0x00000180, 0x898e04e5);
    NextWord(44, 0x00000f00, 0x4ebed41e, 0x93afb507, 0x2c4c700c, 0xe2ba3c2b);
    NextWord(45, 0x3afb5079, 0x626380a1, 0x5898e048, 0x000000f0, 0x000060c0);
    NextWord(46, 0x898e04e5, 0x16263806, 0x8e9a9202, 0x93afb507, 0x053a37cd);
    NextWord(47, 0xe2ba3c2b, 0x000018c0, 0x00000600, 0x5898e048, 0x74458547);
  }

  lemma Words3()
    ensures Word(48, 0xda9415ed) && Word(49, 0x26380a16) && Word(50, 0x626383a1) && Word(51, 0x4ebf54de)
    ensures Word(52, 0x3835b44b) && Word(53, 0x0000f600) && Word(54, 0x1e84c7a3) && Word(55, 0x98e04d98)
    ensures Word(56, 0x651d16a0) && Word(57, 0x62658ca1) && Word(58, 0x458544d6) && Word(59, 0x44584cb7)
    ensures Word(60, 0x7ba06619) && Word(61, 0x6380aea2) && Word(62, 0x0ae55269) && Word(63, 0x627b49a1)
  {
    hide Word;
    Words2();
    NextWord(48, 0x000060c0, 0xd2e138c4, 0xb131c0f0, 0x8e9a9202, 0xda9415ed);
    NextWord(49, 0x053a37cd, 0x00000f00, 0x16263bc6, 0x00000600, 0x26380a16);
    NextWord(50, 0x74458547, 0x3afb5079, 0x4ebed41e, 0xb131c0f0, 0x626383a1);
    NextWord(51, 0xda9415ed, 0x898e04e5, 0x626380a1, 0x16263bc6, 0x4ebf54de);
    NextWord(52, 0x26380a16, 0xe2ba3c2b, 0x16263806, 0x4ebed41e, 0x3835b44b);
    NextWord(53, 0x626383a1, 0x000060c0, 0x000018c0, 0x626380a1, 0x0000f600);
    NextWord(54, 0x4ebf54de, 0x053a37cd, 0xd2e138c4, 0x16263806, 0x1e84c7a3);
    NextWord(55, 0x3835b44b, 0x74458547, 0x00000f00, 0x000018c0, 0x98e04d98);
    NextWord(56, 0x0000f600, 0xda9415ed, 0x3afb5079, 0xd2e138c4, 0x651d16a0);
    NextWord(57, 0x1e84c7a3, 0x26380a16, 0x898e04e5, 0x00000f00, 0x62658ca1);
    NextWord(58, 0x98e04d98, 0x626383a1, 0xe2ba3c2b, 0x3afb5079, 0x458544d6);
    NextWord(59, 0x651d16a0, 0x4ebf54de, 0x000060c0, 0x898e04e5, 0x44584cb7);
    NextWord(60, 0x62658ca1, 0x3835b44b, 0x053a37cd, 0xe2ba3c2b, 0x7ba06619);
    NextWord(61, 0x458544d6, 0x0000f600, 0x74458547, 0x000060c0, 0x6380aea2);
    NextWord(62, 0x44584cb7, 0x1e84c7a3, 0xda9415ed, 0x053a37cd, 0x0ae55269);
    NextWord(63, 0x7ba06619, 0x98e04d98, 0x26380a16, 0x74458547, 0x627b49a1);
  }

  lemma Words4()
    ensures Word(64, 0x7cd45c9d) && Word(65, 0x000f0000) && Word(66, 0xfb50753a) && Word(67, 0xec6765e8)
    ensures Word(68, 0xba3c2be2) && Word(69, 0x0060c000) && Word(70, 0x3a37cd05) && Word(71, 0x458546f4)
    ensures Word(72, 0xb8599dd6) && Word(73, 0x380a1a26) && Word(74, 0x01e02203) && Word(75, 0xe7cc3456)
    ensures Word(76, 0xe6e60b69) && Word(77, 0x00f60a00) && Word(78, 0x5795ef4f) && Word(79, 0x822e0879)
  {
    hide Word;
    Words3();
    NextWord(64, 0x6380aea2, 0x651d16a0, 0x626383a1, 0xda9415ed, 0x7cd45c9d);
    NextWord(65, 0x0ae55269, 0x62658ca1, 0x4ebf54de, 0x26380a16, 0x000f0000);
    NextWord(66, 0x627b49a1, 0x458544d6, 0x3835b44b, 0x626383a1, 0xfb50753a);
    NextWord(67, 0x7cd45c9d, 0x44584cb7, 0x0000f600, 0x4ebf54de, 0xec6765e8);
    NextWord(68, 0x000f0000, 0x7ba06619, 0x1e84c7a3, 0x3835b44b, 0xba3c2be2);
    NextWord(69, 0xfb50753a, 0x6380aea2, 0x98e04d98, 0x0000f600, 0x0060c000);
    NextWord(70, 0xec6765e8, 0x0ae55269, 0x651d16a0, 0x1e84c7a3, 0x3a37cd05);
    NextWord(71, 0xba3c2be2, 0x627b49a1, 0x62658ca1, 0x98e04d98, 0x458546f4);
    NextWord(72, 0x0060c000, 0x7cd45c9d, 0x458544d6, 0x651d16a0, 0xb8599dd6);
    NextWord(73, 0x3a37cd05, 0x000f0000, 0x44584cb7, 0x62658ca1, 0x380a1a26);
    NextWord(74, 0x458546f4, 0xfb50753a, 0x7ba06619, 0x458544d6, 0x01e02203);
    NextWord(75, 0xb8599dd6, 0xec6765e8, 0x6380aea2, 0x44584cb7, 0xe7cc3456);
    NextWord(76, 0x380a1a26, 0xba3c2be2, 0x0ae55269, 0x7ba06619, 0xe6e60b69);
    NextWord(77, 0x01e02203, 0x0060c000, 0x627b49a1, 0x6380aea2, 0x00f60a00);
    NextWord(78, 0xe7cc3456, 0x3a37cd05, 0x7cd45c9d, 0x0ae55269, 0x5795ef4f);
    NextWord(79, 0xe6e60b69, 0x458546f4, 0x000f0000, 0x627b49a1, 0x822e0879);
  }

  // ---- the steps -----------------------------------------------------------

  /** The working variables after t steps. */
  ghost predicate Reached(t: nat, a: word, b: word, c: word, d: word, e: word) {
    Rounds(INITIAL, MESSAGE, t) == Regs(a, b, c, d, e)
  }

  /** The next step on the word w, which gives x. */
  lemma NextStep(t: nat, w: word, a: word, b: word, c: word, d: word, e: word, f: word, k: word, x: word)
    requires Reached(t, a, b, c, d, e) && Word(t, w)
    requires f == F(t, b, c, d) && k == K(t) && x == Sum5(Rotl(a, 5), f, e, k, w)
    ensures Reached(t + 1, x, a, Rotl(b, 30), c, d)
  {
    hide Schedule, Sum5, Rotl, F, K;
    NextRound(INITIAL, MESSAGE, t);
  }

  lemma NextRound(h: Regs, m: seq<word>, t: nat)
    requires |m| == 16
    ensures Rounds(h, m, t + 1) == Step(Rounds(h, m, t), t, Schedule(m, t))
  {
    hide Step, Schedule;
  }

  lemma Steps0()
    ensures Reached(16, 0x20bdd62f, 0x196bee77, 0x644a3da5, 0x1181ed99, 0x18c623f9)
  {
    hide Reached, Word;
    Words0();
    Begin();
    NextStep(0, 0x61626380, 0x67452301, 0xefcdab89, 0x98badcfe, 0x10325476, 0xc3d2e1f0, 0x98badcfe, 0x5a827999, 0x0116fc33);
    NextStep(1, 0x00000000, 0x0116fc33, 0x67452301, 0x7bf36ae2, 0x98badcfe, 0x10325476, 0xfbfbfefe, 0x5a827999, 0x8990536d);
    NextStep(2, 0x00000000, 0x8990536d, 0x0116fc33, 0x59d148c0, 0x7bf36ae2, 0x98badcfe, 0x7bf14ac0, 0x5a827999, 0xa1390f08);
    NextStep(3, 0x00000000, 0xa1390f08, 0x8990536d, 0xc045bf0c, 0x59d148c0, 0x7bf36ae2, 0xd0411b8c, 0x5a827999, 0xcdd8e11b);
    NextStep(4, 0x00000000, 0xcdd8e11b, 0xa1390f08, 0x626414db, 0xc045bf0c, 0x59d148c0, 0x6064b40c, 0x5a827999, 0xcfd499de);
    NextStep(5, 0x00000000, 0xcfd499de, 0xcdd8e11b, 0x284e43c2, 0x626414db, 0xc045bf0c, 0x2a6c55c2, 0x5a827999, 0x3fc7ca40);
    NextStep(6, 0x00000000, 0x3fc7ca40, 0xcfd499de, 0xf3763846, 0x284e43c2, 0x626414db, 0xe35e5a46, 0x5a827999, 0x993e30c1);
    NextStep(7, 0x00000000, 0x993e30c1, 0x3fc7ca40, 0xb3f52677, 0xf3763846, 0x284e43c2, 0xf3f53246, 0x5a827999, 0x9e8c07d4);
    NextStep(8, 0x00000000, 0x9e8c07d4, 0x993e30c1, 0x0ff1f290, 0xb3f52677, 0xf3763846, 0x2bf136b6, 0x5a827999, 0x4b6ae328);
    NextStep(9, 0x00000000, 0x4b6ae328, 0x9e8c07d4, 0x664f8c30, 0x0ff1f290, 0xb3f52677, 0x077df410, 0x5a827999, 0x8351f929);
    NextStep(10, 0x00000000, 0x8351f929, 0x4b6ae328, 0x27a301f5, 0x664f8c30, 0x0ff1f290, 0x27270d30, 0x5a827999, 0xfbda9e89);
    NextStep(11, 0x00000000, 0xfbda9e89, 0x8351f929, 0x12dab8ca, 0x27a301f5, 0x664f8c30, 0x26f2b8dc, 0x5a827999, 0x63188fe4);
    NextStep(12, 0x00000000, 0x63188fe4, 0xfbda9e89, 0x60d47e4a, 0x12dab8ca, 0x27a301f5, 0x60d03e4a, 0x5a827999, 0x4607b664);
    NextStep(13, 0x00000000, 0x4607b664, 0x63188fe4, 0x7ef6a7a2, 0x60d47e4a, 0x12dab8ca, 0x62d4f7aa, 0x5a827999, 0x9128f695);
    NextStep(14, 0x00000000, 0x9128f695, 0x4607b664, 0x18c623f9, 0x7ef6a7a2, 0x60d47e4a, 0x38f623e2, 0x5a827999, 0x196bee77);
    NextStep(15, 0x00000018, 0x196bee77, 0x9128f695, 0x1181ed99, 0x18c623f9, 0x7ef6a7a2, 0x19c6e5f9, 0x5a827999, 0x20bdd62f);
  }

  lemma Steps1()
    ensures Reached(32, 0x3b845d33, 0x1267b407, 0x717eebd7, 0xa0dc2d4b, 0xd2aa1365)
  {
    hide Reached, Word;
    Words1();
    Steps0();
    NextStep(16, 0xc2c4c700, 0x20bdd62f, 0x196bee77, 0x644a3da5, 0x1181ed99, 0x18c623f9, 0x00ca2dad, 0x5a827999, 0x4e925823);
    NextStep(17, 0x00000000, 0x4e925823, 0x20bdd62f, 0xc65afb9d, 0x644a3da5, 0x1181ed99, 0x445afb8d, 0x5a827999, 0x82aa6728);
    NextStep(18, 0x00000030, 0x82aa6728, 0x4e925823, 0xc82f758b, 0xc65afb9d, 0x644a3da5, 0xc84af39f, 0x5a827999, 0xdc64901d);
    NextStep(19, 0x85898e01, 0xdc64901d, 0x82aa6728, 0xd3a49608, 0xc82f758b, 0xc65afb9d, 0xcaa5168b, 0x5a827999, 0xfd9e1d7d);
    NextStep(20, 0x00000000, 0xfd9e1d7d, 0xdc64901d, 0x20aa99ca, 0xd3a49608, 0xc82f758b, 0x2f6a9fdf, 0x6ed9eba1, 0x1a37b0ca);
    NextStep(21, 0x00000060, 0x1a37b0ca, 0xfd9e1d7d, 0x77192407, 0x20aa99ca, 0xd3a49608, 0xaa2da0b0, 0x6ed9eba1, 0x33a23bfc);
    NextStep(22, 0x0b131c03, 0x33a23bfc, 0x1a37b0ca, 0x7f67875f, 0x77192407, 0x20aa99ca, 0x12491392, 0x6ed9eba1, 0x21283486);
    NextStep(23, 0x00000030, 0x21283486, 0x33a23bfc, 0x868dec32, 0x7f67875f, 0x77192407, 0xca485091, 0x6ed9eba1, 0xd541f12d);
    NextStep(24, 0x85898ec1, 0xd541f12d, 0x21283486, 0x0ce88eff, 0x868dec32, 0x7f67875f, 0xab4d564b, 0x6ed9eba1, 0xc7567dc6);
    NextStep(25, 0x16263806, 0xc7567dc6, 0xd541f12d, 0x884a0d21, 0x0ce88eff, 0x868dec32, 0x51e372f3, 0x6ed9eba1, 0x48413ba4);
    NextStep(26, 0x00000000, 0x48413ba4, 0xc7567dc6, 0x75507c4b, 0x884a0d21, 0x0ce88eff, 0x3a4c0cac, 0x6ed9eba1, 0xbe35fbd5);
    NextStep(27, 0x00000180, 0xbe35fbd5, 0x48413ba4, 0xb1d59f71, 0x75507c4b, 0x884a0d21, 0x8cc4d89e, 0x6ed9eba1, 0x4aa84d97);
    NextStep(28, 0x2c4c700c, 0x4aa84d97, 0xbe35fbd5, 0x12104ee9, 0xb1d59f71, 0x75507c4b, 0x1df02a4d, 0x6ed9eba1, 0x8370b52e);
    NextStep(29, 0x000000f0, 0x8370b52e, 0x4aa84d97, 0x6f8d7ef5, 0x12104ee9, 0xb1d59f71, 0x37357d8b, 0x6ed9eba1, 0xc5fbaf5d);
    NextStep(30, 0x93afb507, 0xc5fbaf5d, 0x8370b52e, 0xd2aa1365, 0x6f8d7ef5, 0x12104ee9, 0x3e57d8be, 0x6ed9eba1, 0x1267b407);
    NextStep(31, 0x5898e048, 0x1267b407, 0xc5fbaf5d, 0xa0dc2d4b, 0xd2aa1365, 0x6f8d7ef5, 0xb78d9173, 0x6ed9eba1, 0x3b845d33);
  }

  lemma Steps2()
    ensures Reached(48, 0xbead02ca, 0xa01b846c, 0x8714787c, 0x503ca382, 0xfb86c6ab)
  {
    hide Reached, Word;
    Words2();
    Steps1();
    NextStep(32, 0x8e9a9202, 0x3b845d33, 0x1267b407, 0x717eebd7, 0xa0dc2d4b, 0xd2aa1365, 0xc3c5729b, 0x6ed9eba1, 0x046faa0a);
    NextStep(33, 0x00000600, 0x046faa0a, 0x3b845d33, 0xc499ed01, 0x717eebd7, 0xa0dc2d4b, 0x8e635be5, 0x6ed9eba1, 0x2c0ebc11);
    NextStep(34, 0xb131c0f0, 0x2c0ebc11, 0x046faa0a, 0xcee1174c, 0xc499ed01, 0x717eebd7, 0x0e175047, 0x6ed9eba1, 0x21796ad4);
    NextStep(35, 0x16263bc6, 0x21796ad4, 0x2c0ebc11, 0x811bea82, 0xcee1174c, 0xc499ed01, 0x63f441df, 0x6ed9eba1, 0xdcbbb0cb);
    NextStep(36, 0x4ebed41e, 0xdcbbb0cb, 0x21796ad4, 0x4b03af04, 0x811bea82, 0xcee1174c, 0xeb612f52, 0x6ed9eba1, 0x0f511fd8);
    NextStep(37, 0x626380a1, 0x0f511fd8, 0xdcbbb0cb, 0x085e5ab5, 0x4b03af04, 0x811bea82, 0x9fe6457a, 0x6ed9eba1, 0xdc63973f);
    NextStep(38, 0x16263806, 0xdc63973f, 0x0f511fd8, 0xf72eec32, 0x085e5ab5, 0x4b03af04, 0xf021a95f, 0x6ed9eba1, 0x4c986405);
    NextStep(39, 0x000018c0, 0x4c986405, 0xdc63973f, 0x03d447f6, 0xf72eec32, 0x085e5ab5, 0x28993cfb, 0x6ed9eba1, 0x32de1cba);
    NextStep(40, 0xd2e138c4, 0x32de1cba, 0x4c986405, 0xf718e5cf, 0x03d447f6, 0xf72eec32, 0x479865c7, 0x8f1bbcdc, 0xfc87dedf);
    NextStep(41, 0x00000f00, 0xfc87dedf, 0x32de1cba, 0x53261901, 0xf718e5cf, 0x03d447f6, 0x731e1d8b, 0x8f1bbcdc, 0x970a0d5c);
    NextStep(42, 0x3afb5079, 0x970a0d5c, 0xfc87dedf, 0x8cb7872e, 0x53261901, 0xf718e5cf, 0xdca79f0f, 0x8f1bbcdc, 0x7f193dc5);
    NextStep(43, 0x898e04e5, 0x7f193dc5, 0x970a0d5c, 0xff21f7b7, 0x8cb7872e, 0x53261901, 0x9f23873e, 0x8f1bbcdc, 0xee1b1aaf);
    NextStep(44, 0xe2ba3c2b, 0xee1b1aaf, 0x7f193dc5, 0x25c28357, 0xff21f7b7, 0x8cb7872e, 0x7f01b7d7, 0x8f1bbcdc, 0x40f28e09);
    NextStep(45, 0x000060c0, 0x40f28e09, 0xee1b1aaf, 0x5fc64f71, 0x25c28357, 0xff21f7b7, 0x6fc20b77, 0x8f1bbcdc, 0x1c51e1f2);
    NextStep(46, 0x053a37cd, 0x1c51e1f2, 0x40f28e09, 0xfb86c6ab, 0x5fc64f71, 0x25c28357, 0x5bc6ce29, 0x8f1bbcdc, 0xa01b846c);
    NextStep(47, 0x74458547, 0xa01b846c, 0x1c51e1f2, 0x503ca382, 0xfb86c6ab, 0x5fc64f71, 0x5814e3a2, 0x8f1bbcdc, 0xbead02ca);
  }

  lemma Steps3()
    ensures Reached(64, 0x6b61c9e1, 0xb66c020b, 0x9523272c, 0xf5d5b051, 0x8fd4b796)
  {
    hide Reached, Word;
    Words3();
    Steps2();
    NextStep(48, 0xda9415ed, 0xbead02ca, 0xa01b846c, 0x8714787c, 0x503ca382, 0xfb86c6ab, 0x801ca06c, 0x8f1bbcdc, 0xbaf39337);
    NextStep(49, 0x26380a16, 0xbaf39337, 0xbead02ca, 0x2806e11b, 0x8714787c, 0x503ca382, 0xae04605a, 0x8f1bbcdc, 0x120731c5);
    NextStep(50, 0x626383a1, 0x120731c5, 0xbaf39337, 0xafab40b2, 0x2806e11b, 0x8714787c, 0xaaa3c133, 0x8f1bbcdc, 0x641db2ce);
    NextStep(51, 0x4ebf54de, 0x641db2ce, 0x120731c5, 0xeebce4cd, 0xafab40b2, 0x2806e11b, 0xaeaf60c5, 0x8f1bbcdc, 0x3847ad66);
    NextStep(52, 0x3835b44b, 0x3847ad66, 0x641db2ce, 0x4481cc71, 0xeebce4cd, 0xafab40b2, 0x649de4cd, 0x8f1bbcdc, 0xe490436d);
    NextStep(53, 0x0000f600, 0xe490436d, 0x3847ad66, 0x99076cb3, 0x4481cc71, 0xeebce4cd, 0x1807ec73, 0x8f1bbcdc, 0x27e9f1d8);
    NextStep(54, 0x1e84c7a3, 0x27e9f1d8, 0xe490436d, 0x8e11eb59, 0x99076cb3, 0x4481cc71, 0x8c116b79, 0x8f1bbcdc, 0x7b71f76d);
    NextStep(55, 0x98e04d98, 0x7b71f76d, 0x27e9f1d8, 0x792410db, 0x8e11eb59, 0x99076cb3, 0x2f21f1d9, 0x8f1bbcdc, 0x5e6456af);
    NextStep(56, 0x651d16a0, 0x5e6456af, 0x7b71f76d, 0x09fa7c76, 0x792410db, 0x8e11eb59, 0x7970747f, 0x8f1bbcdc, 0xc846093f);
    NextStep(57, 0x62658ca1, 0xc846093f, 0x5e6456af, 0x5edc7ddb, 0x09fa7c76, 0x792410db, 0x5efc7cff, 0x8f1bbcdc, 0xd262ff50);
    NextStep(58, 0x458544d6, 0xd262ff50, 0xc846093f, 0xd79915ab, 0x5edc7ddb, 0x09fa7c76, 0xdedc1dbb, 0x8f1bbcdc, 0x09d785fd);
    NextStep(59, 0x44584cb7, 0x09d785fd, 0xd262ff50, 0xf211824f, 0xd79915ab, 0x5edc7ddb, 0xd211974b, 0x8f1bbcdc, 0x3f52de5a);
    NextStep(60, 0x7ba06619, 0x3f52de5a, 0x09d785fd, 0x3498bfd4, 0xf211824f, 0xd79915ab, 0xcf5eb866, 0xca62c1d6, 0xd756c147);
    NextStep(61, 0x6380aea2, 0xd756c147, 0x3f52de5a, 0x4275e17f, 0x3498bfd4, 0xf211824f, 0x49bf80f1, 0xca62c1d6, 0x548c9cb2);
    NextStep(62, 0x0ae55269, 0x548c9cb2, 0xd756c147, 0x8fd4b796, 0x4275e17f, 0x3498bfd4, 0x1af797ae, 0xca62c1d6, 0xb66c020b);
    NextStep(63, 0x627b49a1, 0xb66c020b, 0x548c9cb2, 0xf5d5b051, 0x8fd4b796, 0x4275e17f, 0x2e8d9b75, 0xca62c1d6, 0x6b61c9e1);
  }

  lemma Steps4()
    ensures Reached(80, 0x42541b35, 0x5738d5e1, 0x21834873, 0x681e6df6, 0xd8fdf6ad)
  {
    hide Reached, Word;
    Words4();
    Steps3();
    NextStep(64, 0x7cd45c9d, 0x6b61c9e1, 0xb66c020b, 0x9523272c, 0xf5d5b051, 0x8fd4b796, 0xd69a9576, 0xca62c1d6, 0x19dfa7ac);
    NextStep(65, 0x000f0000, 0x19dfa7ac, 0x6b61c9e1, 0xed9b0082, 0x9523272c, 0xf5d5b051, 0x13d9ee4f, 0xca62c1d6, 0x101655f9);
    NextStep(66, 0xfb50753a, 0x101655f9, 0x19dfa7ac, 0x5ad87278, 0xed9b0082, 0x9523272c, 0xae9cd556, 0xca62c1d6, 0x0c3df2b4);
    NextStep(67, 0xec6765e8, 0x0c3df2b4, 0x101655f9, 0x0677e9eb, 0x5ad87278, 0xed9b0082, 0x4cb9ce6a, 0xca62c1d6, 0x78dd4d2b);
    NextStep(68, 0xba3c2be2, 0x78dd4d2b, 0x0c3df2b4, 0x4405957e, 0x0677e9eb, 0x5ad87278, 0x4e4f8e21, 0xca62c1d6, 0x497093c0);
    NextStep(69, 0x0060c000, 0x497093c0, 0x78dd4d2b, 0x030f7cad, 0x4405957e, 0x0677e9eb, 0x3fd7a4f8, 0xca62c1d6, 0x3f2588c2);
    NextStep(70, 0x3a37cd05, 0x3f2588c2, 0x497093c0, 0xde37534a, 0x030f7cad, 0x4405957e, 0x9448bc27, 0xca62c1d6, 0xc199f8c7);
    NextStep(71, 0x458546f4, 0xc199f8c7, 0x3f2588c2, 0x125c24f0, 0xde37534a, 0x030f7cad, 0xf34eff78, 0xca62c1d6, 0x39859de7);
    NextStep(72, 0xb8599dd6, 0x39859de7, 0xc199f8c7, 0x8fc96230, 0x125c24f0, 0xde37534a, 0x5c0cbe07, 0xca62c1d6, 0xedb42de4);
    NextStep(73, 0x380a1a26, 0xedb42de4, 0x39859de7, 0xf0667e31, 0x8fc96230, 0x125c24f0, 0x462a81e6, 0xca62c1d6, 0x11793f6f);
    NextStep(74, 0x01e02203, 0x11793f6f, 0xedb42de4, 0xce616779, 0xf0667e31, 0x8fc96230, 0xd3b334ac, 0xca62c1d6, 0x5ee76897);
    NextStep(75, 0xe7cc3456, 0x5ee76897, 0x11793f6f, 0x3b6d0b79, 0xce616779, 0xf0667e31, 0xe475536f, 0xca62c1d6, 0x63f7dab7);
    NextStep(76, 0xe6e60b69, 0x63f7dab7, 0x5ee76897, 0xc45e4fdb, 0x3b6d0b79, 0xce616779, 0xa1d42c35, 0xca62c1d6, 0xa079b7d9);
    NextStep(77, 0x00f60a00, 0xa079b7d9, 0x63f7dab7, 0xd7b9da25, 0xc45e4fdb, 0x3b6d0b79, 0x70104f49, 0xca62c1d6, 0x860d21cc);
    NextStep(78, 0x5795ef4f, 0x860d21cc, 0xa079b7d9, 0xd8fdf6ad, 0xd7b9da25, 0xc45e4fdb, 0xaf3d9b51, 0xca62c1d6, 0x5738d5e1);
    NextStep(79, 0x822e0879, 0x5738d5e1, 0x860d21cc, 0x681e6df6, 0xd8fdf6ad, 0xd7b9da25, 0x36eeba97, 0xca62c1d6, 0x42541b35);
  }

  lemma Begin()
    ensures Reached(0, 0x67452301, 0xefcdab89, 0x98badcfe, 0x10325476, 0xc3d2e1f0)
  {
  }

  // ---- the hash ------------------------------------------------------------

  lemma Hashed()
    ensures Compress(INITIAL, MESSAGE) == Regs(0xa9993e36, 0x4706816a, 0xba3e2571, 0x7850c26c, 0x9cd0d89d)
  {
    hide Rounds;
    Steps4();
  }

  lemma LengthBytes()
    ensures BeNat(24, 8) == [0, 0, 0, 0, 0, 0, 0, 24]
  {
    hide BeNat;
    Sha1.BeNothing(0);
    Sha1.BeStep(24, 7);
    for n := 0 to 7
      invariant BeNat(0, n) == Zeros(n)
    {
      Sha1.BeStep(0, n);
    }
    assert 24 / 256 == 0 && BeNat(0, 7) == Zeros(7) == [0, 0, 0, 0, 0, 0, 0];
  }

  lemma Padded()
    ensures |ABC + Padding(3)| == 64 && BlockWords(ABC + Padding(3)) == MESSAGE
  {
    hide BeNat, Zeros;
    LengthBytes();
    assert PadZeros(3) == 52;
    var s := ABC + Padding(3);
    assert s == [0x61, 0x62, 0x63, 0x80] + Zeros(52) + [0, 0, 0, 0, 0, 0, 0, 24];
    assert forall i :: 4 <= i < 63 ==> s[i] == 0 by { ZeroAt(52); }
    forall t | 0 <= t < 16 ensures BlockWord(s, t) == MESSAGE[t] {
    }
  }

  lemma ZeroAt(k: nat)
    ensures forall i :: 0 <= i < k ==> Zeros(k)[i] == 0
  {
  }

  /** The hash of "abc", as the standard's example gives it. */
  lemma Example()
    ensures Sha1Spec.Sha1(ABC) == [
              0xa9, 0x99, 0x3e, 0x36, 0x47, 0x06, 0x81, 0x6a, 0xba, 0x3e, 0x25, 0x71,
              0x78, 0x50, 0xc2, 0x6c, 0x9c, 0xd0, 0xd8, 0x9d]
  {
    hide Compress, Padding, BlockWords, Absorb;
    Padded();
    Hashed();
    OneBlock(INITIAL, ABC + Padding(3));
  }

  lemma OneBlock(h: Regs, s: seq<byte>)
    requires |s| == 64
    ensures Absorb(h, s) == Compress(h, BlockWords(s))
  {
    hide Compress, BlockWords;
    assert s[..|s| - 64] == [] && s[|s| - 64..] == s;
  }
}
