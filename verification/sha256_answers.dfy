/** The digest of the one-block example of FIPS 180-4, computed eight words and eight rounds at a time. */
module Sha256Answers {
  import opened Concatenation
  import opened ByteStrings
  import opened Sha256Spec

  // ----- eight at a time -----

  const ALL: nat := 64

  /** The word of a schedule behind the words 2, 7, 15 and 16 places before it. */
  function Next(back2: bv32, back7: bv32, back15: bv32, back16: bv32): bv32 {
    Add(Add(Add(SmallSigma1(back2), back7), SmallSigma0(back15)), back16)
  }

  /** The eight words of a schedule behind sixteen. */
  function Extend(a: seq<bv32>, b: seq<bv32>): (r: seq<bv32>)
    requires |a| == |b| == 8
    ensures |r| == 8
  {
    var n0 := Next(b[6], b[1], a[1], a[0]);
    var n1 := Next(b[7], b[2], a[2], a[1]);
    var n2 := Next(n0, b[3], a[3], a[2]);
    var n3 := Next(n1, b[4], a[4], a[3]);
    var n4 := Next(n2, b[5], a[5], a[4]);
    var n5 := Next(n3, b[6], a[6], a[5]);
    var n6 := Next(n4, b[7], a[7], a[6]);
    var n7 := Next(n5, n0, b[0], a[7]);
    [n0, n1, n2, n3, n4, n5, n6, n7]
  }

  /** Eight rounds: only the first and the fifth working variable are computed, the others move on. */
  function Eightfold(s: State, k: seq<bv32>, w: seq<bv32>): State
    requires |k| == |w| == 8
  {
    var t0 := T1(s.e, s.f, s.g, s.h, k[0], w[0]);
    var a0 := Add(t0, T2(s.a, s.b, s.c));
    var e0 := Add(s.d, t0);
    var t1 := T1(e0, s.e, s.f, s.g, k[1], w[1]);
    var a1 := Add(t1, T2(a0, s.a, s.b));
    var e1 := Add(s.c, t1);
    var t2 := T1(e1, e0, s.e, s.f, k[2], w[2]);
    var a2 := Add(t2, T2(a1, a0, s.a));
    var e2 := Add(s.b, t2);
    var t3 := T1(e2, e1, e0, s.e, k[3], w[3]);
    var a3 := Add(t3, T2(a2, a1, a0));
    var e3 := Add(s.a, t3);
    var t4 := T1(e3, e2, e1, e0, k[4], w[4]);
    var a4 := Add(t4, T2(a3, a2, a1));
    var e4 := Add(a0, t4);
    var t5 := T1(e4, e3, e2, e1, k[5], w[5]);
    var a5 := Add(t5, T2(a4, a3, a2));
    var e5 := Add(a1, t5);
    var t6 := T1(e5, e4, e3, e2, k[6], w[6]);
    var a6 := Add(t6, T2(a5, a4, a3));
    var e6 := Add(a2, t6);
    var t7 := T1(e6, e5, e4, e3, k[7], w[7]);
    var a7 := Add(t7, T2(a6, a5, a4));
    var e7 := Add(a3, t7);
    State(a7, a6, a5, a4, e7, e6, e5, e4)
  }

  lemma Row0Constants()
    ensures |K| == 64 && K[0..8] == K0
  {
    forall i | 0 <= i < 8 ensures |K| == 64 && K[0 + i] == K0[i] {
      Place(0 + i);
    }
  }

  lemma Row1Constants()
    ensures |K| == 64 && K[8..16] == K1
  {
    forall i | 0 <= i < 8 ensures |K| == 64 && K[8 + i] == K1[i] {
      Place(8 + i);
    }
  }

  lemma Row2Constants()
    ensures |K| == 64 && K[16..24] == K2
  {
    forall i | 0 <= i < 8 ensures |K| == 64 && K[16 + i] == K2[i] {
      Place(16 + i);
    }
  }

  lemma Row3Constants()
    ensures |K| == 64 && K[24..32] == K3
  {
    forall i | 0 <= i < 8 ensures |K| == 64 && K[24 + i] == K3[i] {
      Place(24 + i);
    }
  }

  lemma Row4Constants()
    ensures |K| == 64 && K[32..40] == K4
  {
    forall i | 0 <= i < 8 ensures |K| == 64 && K[32 + i] == K4[i] {
      Place(32 + i);
    }
  }

  lemma Row5Constants()
    ensures |K| == 64 && K[40..48] == K5
  {
    forall i | 0 <= i < 8 ensures |K| == 64 && K[40 + i] == K5[i] {
      Place(40 + i);
    }
  }

  lemma Row6Constants()
    ensures |K| == 64 && K[48..56] == K6
  {
    forall i | 0 <= i < 8 ensures |K| == 64 && K[48 + i] == K6[i] {
      Place(48 + i);
    }
  }

  lemma Row7Constants()
    ensures |K| == 64 && K[56..64] == K7
  {
    forall i | 0 <= i < 8 ensures |K| == 64 && K[56 + i] == K7[i] {
      Place(56 + i);
    }
  }

  lemma NextRound(s: State, ws: seq<bv32>, t: nat)
    requires |ws| == 64 && t < 64
    ensures Rounds(s, ws, t + 1) == Round(Rounds(s, ws, t), K[t], ws[t])
  {
  }

  /** The wiring of a round: six variables move on by one place. */
  lemma Wiring(p: State, k: bv32, w: bv32)
    ensures var q, t1 := Round(p, k, w), T1(p.e, p.f, p.g, p.h, k, w);
            && q.a == Add(t1, T2(p.a, p.b, p.c)) && q.b == p.a && q.c == p.b && q.d == p.c
            && q.e == Add(p.d, t1) && q.f == p.e && q.g == p.f && q.h == p.g
  {
  }

  function RoundByRound(s: State, k: seq<bv32>, w: seq<bv32>, n: nat): State
    requires |k| == |w| == 8 && n <= 8
  {
    if n == 0 then s else Round(RoundByRound(s, k, w, n - 1), k[n - 1], w[n - 1])
  }

  function Nested(s: State, k: seq<bv32>, w: seq<bv32>): State
    requires |k| == |w| == 8
  {
    var s4 := Round(Round(Round(Round(s, k[0], w[0]), k[1], w[1]), k[2], w[2]), k[3], w[3]);
    Round(Round(Round(Round(s4, k[4], w[4]), k[5], w[5]), k[6], w[6]), k[7], w[7])
  }

  lemma RoundStep(s: State, k: seq<bv32>, w: seq<bv32>, n: nat)
    requires |k| == |w| == 8 && n < 8
    ensures RoundByRound(s, k, w, n + 1) == Round(RoundByRound(s, k, w, n), k[n], w[n])
  {
  }

  lemma NestedIsRounds(s: State, k: seq<bv32>, w: seq<bv32>)
    requires |k| == |w| == 8
    ensures RoundByRound(s, k, w, 8) == Nested(s, k, w)
  {
    RoundStep(s, k, w, 0);
    RoundStep(s, k, w, 1);
    RoundStep(s, k, w, 2);
    RoundStep(s, k, w, 3);
    RoundStep(s, k, w, 4);
    RoundStep(s, k, w, 5);
    RoundStep(s, k, w, 6);
    RoundStep(s, k, w, 7);
  }

  lemma EightfoldIsNested(s: State, k: seq<bv32>, w: seq<bv32>)
    requires |k| == |w| == 8
    ensures Eightfold(s, k, w) == Nested(s, k, w)
  {
  }

  lemma {:induction false} EightRounds(s: State, ws: seq<bv32>, t: nat, n: nat)
    requires |ws| == |K| == 64 && t <= 56 && n <= 8
    ensures Rounds(s, ws, t + n) == RoundByRound(Rounds(s, ws, t), K[t..t + 8], ws[t..t + 8], n)
  {
    if n > 0 {
      EightRounds(s, ws, t, n - 1);
      NextRound(s, ws, t + n - 1);
    }
  }

  lemma {:induction false} ScheduleKeeps(block: Block, n: nat, t: nat)
    requires t < n <= 64
    ensures Schedule(block, n)[t] == Schedule(block, t + 1)[t]
    decreases n
  {
    if t < n - 1 {
      ScheduleKeeps(block, n - 1, t);
    }
  }

  lemma ScheduleStep(block: Block, t: nat)
    requires t < 64
    ensures Schedule(block, t + 1)[t] == if t < 16 then MessageWord(block, t) else NextWord(Schedule(block, t))
  {
  }

  lemma NextWordIs(ws: seq<bv32>)
    requires |ws| >= 16
    ensures NextWord(ws) == Next(ws[|ws| - 2], ws[|ws| - 7], ws[|ws| - 15], ws[|ws| - 16])
  {
  }

  lemma EarlyWord(block: Block, t: nat)
    requires t < 16
    ensures Schedule(block, ALL)[t] == MessageWord(block, t)
  {
    ScheduleKeeps(block, ALL, t);
    ScheduleStep(block, t);
  }

  lemma LateWord(block: Block, t: nat)
    requires 16 <= t < 64
    ensures Schedule(block, ALL)[t] == NextWord(Schedule(block, t))
  {
    ScheduleKeeps(block, ALL, t);
    ScheduleStep(block, t);
  }

  lemma SameNext(before: seq<bv32>, w: seq<bv32>)
    requires 16 <= |before| && before <= w
    ensures var t := |before|;
            NextWord(before) == Next(w[t - 2], w[t - 7], w[t - 15], w[t - 16])
  {
    NextWordIs(before);
  }

  lemma EarlierWords(block: Block, t: nat)
    requires t <= 64
    ensures Schedule(block, t) <= Schedule(block, ALL)
  {
    forall k | 0 <= k < t ensures Schedule(block, t)[k] == Schedule(block, ALL)[k] {
      ScheduleKeeps(block, t, k);
      ScheduleKeeps(block, ALL, k);
    }
  }

  lemma EightOf<T>(s: seq<T>)
    requires |s| == 8
    ensures s == [s[0], s[1], s[2], s[3], s[4], s[5], s[6], s[7]]
  {
  }

  lemma FirstPair(w: seq<bv32>, t: nat, e: seq<bv32>)
    requires 16 <= t && t + 8 <= |w| && e == Extend(w[t - 16..t - 8], w[t - 8..t])
    requires w[t] == Next(w[t - 2], w[t - 7], w[t - 15], w[t - 16])
    requires w[t + 1] == Next(w[t - 1], w[t - 6], w[t - 14], w[t - 15])
    ensures w[t] == e[0] && w[t + 1] == e[1]
  {
  }

  lemma SecondPair(w: seq<bv32>, t: nat, e: seq<bv32>)
    requires 16 <= t && t + 8 <= |w| && e == Extend(w[t - 16..t - 8], w[t - 8..t])
    requires w[t] == e[0] && w[t + 1] == e[1]
    requires w[t + 2] == Next(w[t], w[t - 5], w[t - 13], w[t - 14])
    requires w[t + 3] == Next(w[t + 1], w[t - 4], w[t - 12], w[t - 13])
    ensures w[t + 2] == e[2] && w[t + 3] == e[3]
  {
  }

  lemma ThirdPair(w: seq<bv32>, t: nat, e: seq<bv32>)
    requires 16 <= t && t + 8 <= |w| && e == Extend(w[t - 16..t - 8], w[t - 8..t])
    requires w[t] == e[0] && w[t + 1] == e[1] && w[t + 2] == e[2] && w[t + 3] == e[3]
    requires w[t + 4] == Next(w[t + 2], w[t - 3], w[t - 11], w[t - 12])
    requires w[t + 5] == Next(w[t + 3], w[t - 2], w[t - 10], w[t - 11])
    ensures w[t + 4] == e[4] && w[t + 5] == e[5]
  {
  }

  lemma FourthPair(w: seq<bv32>, t: nat, e: seq<bv32>)
    requires 16 <= t && t + 8 <= |w| && e == Extend(w[t - 16..t - 8], w[t - 8..t])
    requires w[t] == e[0] && w[t + 1] == e[1] && w[t + 2] == e[2] && w[t + 3] == e[3]
    requires w[t + 4] == e[4] && w[t + 5] == e[5]
    requires w[t + 6] == Next(w[t + 4], w[t - 1], w[t - 9], w[t - 10])
    requires w[t + 7] == Next(w[t + 5], w[t], w[t - 8], w[t - 9])
    ensures w[t + 6] == e[6] && w[t + 7] == e[7]
  {
  }

  /** Section 6.2.2, step 1: which words a later word of the schedule is made of. */
  lemma NextWordOf(block: Block, t: nat)
    requires 16 <= t < 64
    ensures var w := Schedule(block, ALL);
            w[t] == Next(w[t - 2], w[t - 7], w[t - 15], w[t - 16])
  {
    LateWord(block, t);
    EarlierWords(block, t);
    SameNext(Schedule(block, t), Schedule(block, ALL));
  }

  lemma EightWords(block: Block, j: nat)
    requires j < 6
    ensures var w := Schedule(block, ALL);
            w[8 * j + 16..8 * j + 24] == Extend(w[8 * j..8 * j + 8], w[8 * j + 8..8 * j + 16])
  {
    var w, t := Schedule(block, ALL), 8 * j + 16;
    var e := Extend(w[t - 16..t - 8], w[t - 8..t]);
    NextWordOf(block, t);
    NextWordOf(block, t + 1);
    FirstPair(w, t, e);
    NextWordOf(block, t + 2);
    NextWordOf(block, t + 3);
    SecondPair(w, t, e);
    NextWordOf(block, t + 4);
    NextWordOf(block, t + 5);
    ThirdPair(w, t, e);
    NextWordOf(block, t + 6);
    NextWordOf(block, t + 7);
    FourthPair(w, t, e);
    EightOf(w[t..t + 8]);
    EightOf(e);
  }

  /** The words of a block's schedule from 8 * j on. */
  ghost predicate HasWords(block: Block, j: nat, w: seq<bv32>) {
    j < 8 && |w| == 8 && Schedule(block, ALL)[8 * j..8 * j + 8] == w
  }

  lemma NextWords(block: Block, j: nat, a: seq<bv32>, b: seq<bv32>, c: seq<bv32>)
    requires HasWords(block, j, a) && HasWords(block, j + 1, b) && j < 6 && Extend(a, b) == c
    ensures HasWords(block, j + 2, c)
  {
    EightWords(block, j);
  }

  /** The state after 8 * j rounds from start. */
  ghost predicate HasState(block: Block, start: State, j: nat, s: State) {
    j <= 8 && Rounds(start, Schedule(block, ALL), 8 * j) == s
  }

  lemma NextState(block: Block, start: State, j: nat, s: State, k: seq<bv32>, w: seq<bv32>, next: State)
    requires HasState(block, start, j, s) && HasWords(block, j, w)
    requires |K| == 64 && |k| == 8 && K[8 * j..8 * j + 8] == k && Eightfold(s, k, w) == next
    ensures HasState(block, start, j + 1, next)
  {
    EightRounds(start, Schedule(block, ALL), 8 * j, 8);
    NestedIsRounds(s, k, w);
    EightfoldIsNested(s, k, w);
  }

  // ----- the block of "abc" -----

  const ABC_W0: seq<bv32> := [
    0x61626380, 0x00000000, 0x00000000, 0x00000000,
    0x00000000, 0x00000000, 0x00000000, 0x00000000]
  const ABC_W1: seq<bv32> := [
    0x00000000, 0x00000000, 0x00000000, 0x00000000,
    0x00000000, 0x00000000, 0x00000000, 0x00000018]
  const ABC_W2: seq<bv32> := [
    0x61626380, 0x000f0000, 0x7da86405, 0x600003c6,
    0x3e9d7b78, 0x0183fc00, 0x12dcbfdb, 0xe2e2c38e]
  const ABC_W3: seq<bv32> := [
    0xc8215c1a, 0xb73679a2, 0xe5bc3909, 0x32663c5b,
    0x9d209d67, 0xec8726cb, 0x702138a4, 0xd3b7973b]
  const ABC_W4: seq<bv32> := [
    0x93f5997f, 0x3b68ba73, 0xaff4ffc1, 0xf10a5c62,
    0x0a8b3996, 0x72af830a, 0x9409e33e, 0x24641522]
  const ABC_W5: seq<bv32> := [
    0x9f47bf94, 0xf0a64f5a, 0x3e246a79, 0x27333ba3,
    0x0c4763f2, 0x840abf27, 0x7a290d5d, 0x065c43da]
  const ABC_W6: seq<bv32> := [
    0xfb3e89cb, 0xcc7617db, 0xb9e66c34, 0xa9993667,
    0x84badedd, 0xc21462bc, 0x1487472c, 0xb20f7a99]
  const ABC_W7: seq<bv32> := [
    0xef57b9cd, 0xebe6b238, 0x9fe3095e, 0x78bc8d4b,
    0xa43fcf15, 0x668b2ff8, 0xeeaba2cc, 0x12b1edeb]

  const ABC_S0 := INITIAL
  const ABC_S1 := State(
    0x85a07b5f, 0xe5030380, 0x2b4209f5, 0x04409a6a,
    0x0c657a79, 0x9b27a401, 0x714260ad, 0x43ada245)
  const ABC_S2 := State(
    0xb0fa238e, 0xc0645fde, 0xd932eb16, 0x87912990,
    0x07590dcd, 0x0b92f20c, 0x745a48de, 0x1e578218)
  const ABC_S3 := State(
    0xc5d53d8d, 0xa7a3623f, 0xc2606d6d, 0x9dc68b63,
    0xaa47c347, 0x49f5114a, 0xe1257970, 0x8ada8930)
  const ABC_S4 := State(
    0x73b33bf5, 0xea992a22, 0xa0060b30, 0x363482c9,
    0xba591112, 0x0109ab3a, 0xade79437, 0x6112a3b7)
  const ABC_S5 := State(
    0x79ea687a, 0x6dc57a8a, 0x34df1604, 0x41a65cb1,
    0x1efbc0a0, 0xf0781bc8, 0xa507a53d, 0x0772a26b)
  const ABC_S6 := State(
    0x4172328d, 0xa14c14b0, 0x72ab4b91, 0x26628815,
    0xfecf0bc6, 0xd57b94a9, 0xb7755da1, 0xa80f11f0)
  const ABC_S7 := State(
    0x38cc9913, 0x3ec45cdb, 0xf5702fdb, 0x101fd28f,
    0x54cb266b, 0xe50e1b4f, 0x9f4787c3, 0x529e7d00)
  const ABC_S8 := State(
    0x506e3058, 0xd39a2165, 0x04d24d6c, 0xb85e2ce9,
    0x5ef50f24, 0xfb121210, 0x948d25b6, 0x961f4894)

  lemma AbcWords2()
    ensures Extend(ABC_W0, ABC_W1) == ABC_W2
  {
  }

  lemma AbcWords3()
    ensures Extend(ABC_W1, ABC_W2) == ABC_W3
  {
  }

  lemma AbcWords4()
    ensures Extend(ABC_W2, ABC_W3) == ABC_W4
  {
  }

  lemma AbcWords5()
    ensures Extend(ABC_W3, ABC_W4) == ABC_W5
  {
  }

  lemma AbcWords6()
    ensures Extend(ABC_W4, ABC_W5) == ABC_W6
  {
  }

  lemma AbcWords7()
    ensures Extend(ABC_W5, ABC_W6) == ABC_W7
  {
  }

  lemma AbcSums0()
    ensures T1(0x510e527f, 0x9b05688c, 0x1f83d9ab, 0x5be0cd19, 0x428a2f98, 0x61626380) == 0x54da50e8
    ensures T1(0xfa2a4622, 0x510e527f, 0x9b05688c, 0x1f83d9ab, 0x71374491, 0x00000000) == 0x3c5f8617
    ensures T1(0x78ce7989, 0xfa2a4622, 0x510e527f, 0x9b05688c, 0xb5c0fbcf, 0x00000000) == 0x3dc18b66
    ensures T1(0xf92939eb, 0x78ce7989, 0xfa2a4622, 0x510e527f, 0xe9b5dba5, 0x00000000) == 0xbad621e9
    ensures T1(0x24e00850, 0xf92939eb, 0x78ce7989, 0xfa2a4622, 0x3956c25b, 0x00000000) == 0xe642b678
    ensures T1(0x43ada245, 0x24e00850, 0xf92939eb, 0x78ce7989, 0x59f111f1, 0x00000000) == 0x16d78700
    ensures T1(0x714260ad, 0x43ada245, 0x24e00850, 0xf92939eb, 0x923f82a4, 0x00000000) == 0xd2645c5a
    ensures T1(0x9b27a401, 0x714260ad, 0x43ada245, 0x24e00850, 0xab1c5ed5, 0x00000000) == 0x37148413
  {
  }

  lemma AbcSums1()
    ensures T1(0x0c657a79, 0x9b27a401, 0x714260ad, 0x43ada245, 0xd807aa98, 0x00000000) == 0x2e899322
    ensures T1(0x32ca2d8c, 0x0c657a79, 0x9b27a401, 0x714260ad, 0x12835b01, 0x00000000) == 0xf1871ba1
    ensures T1(0x1cc92596, 0x32ca2d8c, 0x0c657a79, 0x9b27a401, 0x243185be, 0x00000000) == 0x5e682068
    ensures T1(0x436b23e8, 0x1cc92596, 0x32ca2d8c, 0x0c657a79, 0x550c7dc3, 0x00000000) == 0xfbcf5b8a
    ensures T1(0x816fd6e9, 0x436b23e8, 0x1cc92596, 0x32ca2d8c, 0x72be5d74, 0x00000000) == 0x9052955f
    ensures T1(0x1e578218, 0x816fd6e9, 0x436b23e8, 0x1cc92596, 0x80deb1fe, 0x00000000) == 0xe7d31473
    ensures T1(0x745a48de, 0x1e578218, 0x816fd6e9, 0x436b23e8, 0x9bdc06a7, 0x00000000) == 0xc3fa4e18
    ensures T1(0x0b92f20c, 0x745a48de, 0x1e578218, 0x816fd6e9, 0xc19bf174, 0x00000018) == 0x10394824
  {
  }

  lemma AbcSums2()
    ensures T1(0x07590dcd, 0x0b92f20c, 0x745a48de, 0x1e578218, 0xe49b69c1, 0x61626380) == 0xf8a2f90c
    ensures T1(0x8034229c, 0x07590dcd, 0x0b92f20c, 0x745a48de, 0xefbe4786, 0x000f0000) == 0xab3bf93e
    ensures T1(0x846ee454, 0x8034229c, 0x07590dcd, 0x0b92f20c, 0x0fc19dc6, 0x7da86405) == 0x0c253983
    ensures T1(0xcc899961, 0x846ee454, 0x8034229c, 0x07590dcd, 0x240ca1cc, 0x600003c6) == 0xff695deb
    ensures T1(0xb0638179, 0xcc899961, 0x846ee454, 0x8034229c, 0x2de92c6f, 0x3e9d7b78) == 0x68ffee95
    ensures T1(0x8ada8930, 0xb0638179, 0xcc899961, 0x846ee454, 0x4a7484aa, 0x0183fc00) == 0x1e299f9f
    ensures T1(0xe1257970, 0x8ada8930, 0xb0638179, 0xcc899961, 0x5cb0a9dc, 0x12dcbfdb) == 0x4b7d958b
    ensures T1(0x49f5114a, 0xe1257970, 0x8ada8930, 0xb0638179, 0x76f988da, 0xe2e2c38e) == 0xc855b714
  {
  }

  lemma AbcSums3()
    ensures T1(0xaa47c347, 0x49f5114a, 0xe1257970, 0x8ada8930, 0x983e5152, 0xc8215c1a) == 0x8a5d642e
    ensures T1(0x2823ef91, 0xaa47c347, 0x49f5114a, 0xe1257970, 0xa831c66d, 0xb73679a2) == 0x51d7d021
    ensures T1(0x14383d8e, 0x2823ef91, 0xaa47c347, 0x49f5114a, 0xb00327c8, 0xe5bc3909) == 0x1fa902d7
    ensures T1(0xc74c6516, 0x14383d8e, 0x2823ef91, 0xaa47c347, 0xbf597fc7, 0x32663c5b) == 0x282a826b
    ensures T1(0xedffbff8, 0xc74c6516, 0x14383d8e, 0x2823ef91, 0xc6e00bf3, 0x9d209d67) == 0x44e67b7f
    ensures T1(0x6112a3b7, 0xedffbff8, 0xc74c6516, 0x14383d8e, 0xd5a79147, 0xec8726cb) == 0xdfff90ba
    ensures T1(0xade79437, 0x6112a3b7, 0xedffbff8, 0xc74c6516, 0x06ca6351, 0x702138a4) == 0x4adae67e
    ensures T1(0x0109ab3a, 0xade79437, 0x6112a3b7, 0xedffbff8, 0x14292967, 0xd3b7973b) == 0x42859bea
  {
  }

  lemma AbcSums4()
    ensures T1(0xba591112, 0x0109ab3a, 0xade79437, 0x6112a3b7, 0x27b70a85, 0x93f5997f) == 0x66a5732d
    ensures T1(0x9cd9f5f6, 0xba591112, 0x0109ab3a, 0xade79437, 0x2e1b2138, 0x3b68ba73) == 0xb91e92a3
    ensures T1(0x59249dd3, 0x9cd9f5f6, 0xba591112, 0x0109ab3a, 0x4d2c6dfc, 0xaff4ffc1) == 0x1dc60e11
    ensures T1(0x085f3833, 0x59249dd3, 0x9cd9f5f6, 0xba591112, 0x53380d13, 0xf10a5c62) == 0x80fcc6e1
    ensures T1(0xf4b002d6, 0x085f3833, 0x59249dd3, 0x9cd9f5f6, 0x650a7354, 0x0a8b3996) == 0x6e917d64
    ensures T1(0x0772a26b, 0xf4b002d6, 0x085f3833, 0x59249dd3, 0x766a0abb, 0x72af830a) == 0xa6a75748
    ensures T1(0xa507a53d, 0x0772a26b, 0xf4b002d6, 0x085f3833, 0x81c2c92e, 0x9409e33e) == 0x46d0a83c
    ensures T1(0xf0781bc8, 0xa507a53d, 0x0772a26b, 0xf4b002d6, 0x92722c85, 0x24641522) == 0xb95af0bc
  {
  }

  lemma AbcSums5()
    ensures T1(0x1efbc0a0, 0xf0781bc8, 0xa507a53d, 0x0772a26b, 0xa2bfe8a1, 0x9f47bf94) == 0xe48ed0b2
    ensures T1(0x26352d63, 0x1efbc0a0, 0xf0781bc8, 0xa507a53d, 0xa81a664b, 0xf0a64f5a) == 0x4eac110d
    ensures T1(0x838b2711, 0x26352d63, 0x1efbc0a0, 0xf0781bc8, 0xc24b8b70, 0x3e246a79) == 0x7107cc8b
    ensures T1(0xdecd4715, 0x838b2711, 0x26352d63, 0x1efbc0a0, 0xc76c51a3, 0x27333ba3) == 0x83b7e3b4
    ensures T1(0xfda24c2e, 0xdecd4715, 0x838b2711, 0x26352d63, 0xd192e819, 0x0c4763f2) == 0xd1a80a8a
    ensures T1(0xa80f11f0, 0xfda24c2e, 0xdecd4715, 0x838b2711, 0xd6990624, 0x840abf27) == 0xd82ef872
    ensures T1(0xb7755da1, 0xa80f11f0, 0xfda24c2e, 0xdecd4715, 0xf40e3585, 0x7a290d5d) == 0xbdd186ab
    ensures T1(0xd57b94a9, 0xb7755da1, 0xa80f11f0, 0xfda24c2e, 0x106aa070, 0x065c43da) == 0x61835c33
  {
  }

  lemma AbcSums6()
    ensures T1(0xfecf0bc6, 0xd57b94a9, 0xb7755da1, 0xa80f11f0, 0x19a4c116, 0xfb3e89cb) == 0x970eb823
    ensures T1(0xbd714038, 0xfecf0bc6, 0xd57b94a9, 0xb7755da1, 0x1e376c08, 0xcc7617db) == 0xfbb0ed7b
    ensures T1(0x6e5c390c, 0xbd714038, 0xfecf0bc6, 0xd57b94a9, 0x2748774c, 0xb9e66c34) == 0xb1a5b847
    ensures T1(0x52f1ccf7, 0x6e5c390c, 0xbd714038, 0xfecf0bc6, 0x34b0bcb5, 0xa9993667) == 0x07b0e991
    ensures T1(0x49231c1e, 0x52f1ccf7, 0x6e5c390c, 0xbd714038, 0x391c0cb3, 0x84badedd) == 0x4d290015
    ensures T1(0x529e7d00, 0x49231c1e, 0x52f1ccf7, 0x6e5c390c, 0x4ed8aa4a, 0xc21462bc) == 0xae2b8d1b
    ensures T1(0x9f4787c3, 0x529e7d00, 0x49231c1e, 0x52f1ccf7, 0x5b9cca4f, 0x1487472c) == 0x6b0912ae
    ensures T1(0xe50e1b4f, 0x9f4787c3, 0x529e7d00, 0x49231c1e, 0x682e6ff3, 0xb20f7a99) == 0xcc5cac49
  {
  }

  lemma AbcSums7()
    ensures T1(0x54cb266b, 0xe50e1b4f, 0x9f4787c3, 0x529e7d00, 0x748f82ee, 0xef57b9cd) == 0x8b3ebddd
    ensures T1(0x9b5e906c, 0x54cb266b, 0xe50e1b4f, 0x9f4787c3, 0x78a5636f, 0xebe6b238) == 0x88d3d0b3
    ensures T1(0x7e44008e, 0x9b5e906c, 0x54cb266b, 0xe50e1b4f, 0x84c87814, 0x9fe3095e) == 0x2ebf62eb
    ensures T1(0x6d83bfc6, 0x7e44008e, 0x9b5e906c, 0x54cb266b, 0x8cc70208, 0x78bc8d4b) == 0x794f142a
    ensures T1(0xb21bad3d, 0x6d83bfc6, 0x7e44008e, 0x9b5e906c, 0x90befffa, 0xa43fcf15) == 0x994dc019
    ensures T1(0x961f4894, 0xb21bad3d, 0x6d83bfc6, 0x7e44008e, 0xa4506ceb, 0x668b2ff8) == 0xd42a5147
    ensures T1(0x948d25b6, 0x961f4894, 0xb21bad3d, 0x6d83bfc6, 0xbef9a3f7, 0xeeaba2cc) == 0xfb5b0d9e
    ensures T1(0xfb121210, 0x948d25b6, 0x961f4894, 0xb21bad3d, 0xc67178f2, 0x12b1edeb) == 0xa8467f25
  {
  }

  // ----- the digests -----

  lemma PadAt(message: seq<Byte>, i: nat)
    requires i < |Pad(message)|
    ensures |Pad(message)| == |message| + 1 + ZeroCount(|message|) + 8
    ensures Pad(message)[i] ==
            if i < |message| then message[i] else if i == |message| then 0x80
            else if i < |Pad(message)| - 8 then 0 else BigEndian(8 * |message|, 8)[i - (|Pad(message)| - 8)]
  {
  }

  /** The length field of a message of less than 8192 bytes. */
  lemma {:induction false} ShortField(value: nat, n: nat)
    requires 2 <= n && value < 0x1_0000
    ensures BigEndian(value, n) == Zeros(n - 2) + [(value / 256) as Byte, (value % 256) as Byte]
  {
    if n == 2 {
      assert BigEndian(value / 256, 1) == [] + [(value / 256) as Byte];
    } else {
      SmallerField(value, n);
    }
  }

  lemma {:induction false} ZeroField(n: nat)
    ensures BigEndian(0, n) == Zeros(n)
  {
    if n > 0 {
      ZeroField(n - 1);
    }
  }

  lemma SmallerField(value: nat, n: nat)
    requires 2 < n && value < 0x1_0000
    ensures BigEndian(value, n) == Zeros(n - 2) + [(value / 256) as Byte, (value % 256) as Byte]
  {
    assert value / 256 / 256 == 0 && value / 256 % 256 == value / 256;
    ZeroField(n - 2);
    assert BigEndian(value / 256, n - 1) == Zeros(n - 2) + [(value / 256) as Byte];
  }

  lemma AbcSchedule(block: Block)
    requires HasWords(block, 0, ABC_W0) && HasWords(block, 1, ABC_W1)
    ensures HasWords(block, 2, ABC_W2) && HasWords(block, 3, ABC_W3) && HasWords(block, 4, ABC_W4)
    ensures HasWords(block, 5, ABC_W5) && HasWords(block, 6, ABC_W6) && HasWords(block, 7, ABC_W7)
  {
    AbcWords2();
    NextWords(block, 0, ABC_W0, ABC_W1, ABC_W2);
    AbcWords3();
    NextWords(block, 1, ABC_W1, ABC_W2, ABC_W3);
    AbcWords4();
    NextWords(block, 2, ABC_W2, ABC_W3, ABC_W4);
    AbcWords5();
    NextWords(block, 3, ABC_W3, ABC_W4, ABC_W5);
    AbcWords6();
    NextWords(block, 4, ABC_W4, ABC_W5, ABC_W6);
    AbcWords7();
    NextWords(block, 5, ABC_W5, ABC_W6, ABC_W7);
  }

  lemma AbcStep0(block: Block, n: nat)
    requires n == 0 && HasWords(block, n, ABC_W0) && HasState(block, ABC_S0, n, ABC_S0)
    ensures HasState(block, ABC_S0, n + 1, ABC_S1)
  {
    Row0Constants();
    AbcSums0();
    assert Eightfold(ABC_S0, K0, ABC_W0) == ABC_S1;
    NextState(block, ABC_S0, n, ABC_S0, K0, ABC_W0, ABC_S1);
  }

  lemma AbcStep1(block: Block, n: nat)
    requires n == 1 && HasWords(block, n, ABC_W1) && HasState(block, ABC_S0, n, ABC_S1)
    ensures HasState(block, ABC_S0, n + 1, ABC_S2)
  {
    Row1Constants();
    AbcSums1();
    assert Eightfold(ABC_S1, K1, ABC_W1) == ABC_S2;
    NextState(block, ABC_S0, n, ABC_S1, K1, ABC_W1, ABC_S2);
  }

  lemma AbcStep2(block: Block, n: nat)
    requires n == 2 && HasWords(block, n, ABC_W2) && HasState(block, ABC_S0, n, ABC_S2)
    ensures HasState(block, ABC_S0, n + 1, ABC_S3)
  {
    Row2Constants();
    AbcSums2();
    assert Eightfold(ABC_S2, K2, ABC_W2) == ABC_S3;
    NextState(block, ABC_S0, n, ABC_S2, K2, ABC_W2, ABC_S3);
  }

  lemma AbcStep3(block: Block, n: nat)
    requires n == 3 && HasWords(block, n, ABC_W3) && HasState(block, ABC_S0, n, ABC_S3)
    ensures HasState(block, ABC_S0, n + 1, ABC_S4)
  {
    Row3Constants();
    AbcSums3();
    assert Eightfold(ABC_S3, K3, ABC_W3) == ABC_S4;
    NextState(block, ABC_S0, n, ABC_S3, K3, ABC_W3, ABC_S4);
  }

  lemma AbcStep4(block: Block, n: nat)
    requires n == 4 && HasWords(block, n, ABC_W4) && HasState(block, ABC_S0, n, ABC_S4)
    ensures HasState(block, ABC_S0, n + 1, ABC_S5)
  {
    Row4Constants();
    AbcSums4();
    assert Eightfold(ABC_S4, K4, ABC_W4) == ABC_S5;
    NextState(block, ABC_S0, n, ABC_S4, K4, ABC_W4, ABC_S5);
  }

  lemma AbcStep5(block: Block, n: nat)
    requires n == 5 && HasWords(block, n, ABC_W5) && HasState(block, ABC_S0, n, ABC_S5)
    ensures HasState(block, ABC_S0, n + 1, ABC_S6)
  {
    Row5Constants();
    AbcSums5();
    assert Eightfold(ABC_S5, K5, ABC_W5) == ABC_S6;
    NextState(block, ABC_S0, n, ABC_S5, K5, ABC_W5, ABC_S6);
  }

  lemma AbcStep6(block: Block, n: nat)
    requires n == 6 && HasWords(block, n, ABC_W6) && HasState(block, ABC_S0, n, ABC_S6)
    ensures HasState(block, ABC_S0, n + 1, ABC_S7)
  {
    Row6Constants();
    AbcSums6();
    assert Eightfold(ABC_S6, K6, ABC_W6) == ABC_S7;
    NextState(block, ABC_S0, n, ABC_S6, K6, ABC_W6, ABC_S7);
  }

  lemma AbcStep7(block: Block, n: nat)
    requires n == 7 && HasWords(block, n, ABC_W7) && HasState(block, ABC_S0, n, ABC_S7)
    ensures HasState(block, ABC_S0, n + 1, ABC_S8)
  {
    Row7Constants();
    AbcSums7();
    assert Eightfold(ABC_S7, K7, ABC_W7) == ABC_S8;
    NextState(block, ABC_S0, n, ABC_S7, K7, ABC_W7, ABC_S8);
  }

  lemma StartState(block: Block, start: State)
    ensures HasState(block, start, 0, start)
  {
  }

  lemma AbcCompressed(block: Block)
    requires HasWords(block, 0, ABC_W0) && HasWords(block, 1, ABC_W1)
    ensures Compress(ABC_S0, block) == State(
              0xba7816bf, 0x8f01cfea, 0x414140de, 0x5dae2223,
              0xb00361a3, 0x96177a9c, 0xb410ff61, 0xf20015ad)
  {
    AbcSchedule(block);
    StartState(block, ABC_S0);
    AbcStep0(block, 0);
    AbcStep1(block, 1);
    AbcStep2(block, 2);
    AbcStep3(block, 3);
    AbcStep4(block, 4);
    AbcStep5(block, 5);
    AbcStep6(block, 6);
    AbcStep7(block, 7);
    AbcAdded();
  }

  lemma AbcAdded()
    ensures Plus(ABC_S0, ABC_S8) == State(
              0xba7816bf, 0x8f01cfea, 0x414140de, 0x5dae2223,
              0xb00361a3, 0x96177a9c, 0xb410ff61, 0xf20015ad)
  {
  }

  lemma HexOfEight(a: bv32, b: bv32, c: bv32, d: bv32, e: bv32, f: bv32, g: bv32, h: bv32)
    ensures HexAll([a, b, c, d, e, f, g, h]) ==
            (Hex(a) + (Hex(b) + (Hex(c) + Hex(d)))) + (Hex(e) + (Hex(f) + (Hex(g) + Hex(h))))
  {
    HexOfFour([], a, b, c, d);
    HexOfFour([a, b, c, d], e, f, g, h);
    assert [a, b, c, d] + [e, f, g, h] == [a, b, c, d, e, f, g, h];
    NoGap([a, b, c, d]);
    NoGap(Hex(a) + (Hex(b) + (Hex(c) + Hex(d))));
  }

  lemma HexOfFour(before: seq<bv32>, a: bv32, b: bv32, c: bv32, d: bv32)
    ensures HexAll(before + [a, b, c, d]) == HexAll(before) + (Hex(a) + (Hex(b) + (Hex(c) + Hex(d))))
  {
    HexOfOneMore(before, a);
    HexOfOneMore(before + [a], b);
    HexOfOneMore(before + [a] + [b], c);
    HexOfOneMore(before + [a] + [b] + [c], d);
    assert before + [a] + [b] + [c] + [d] == before + [a, b, c, d];
    Regroup(HexAll(before) + Hex(a) + Hex(b), Hex(c), Hex(d));
    Regroup(HexAll(before) + Hex(a), Hex(b), Hex(c) + Hex(d));
    Regroup(HexAll(before), Hex(a), Hex(b) + (Hex(c) + Hex(d)));
  }

  lemma HexOfOneMore(words: seq<bv32>, w: bv32)
    ensures HexAll(words + [w]) == HexAll(words) + Hex(w)
  {
    DropLast(words, w);
  }

  lemma AbcHex0()
    ensures Hex(0xba7816bf) == "ba7816bf" && Hex(0x8f01cfea) == "8f01cfea"
    ensures Hex(0x414140de) == "414140de" && Hex(0x5dae2223) == "5dae2223"
  {
  }

  lemma AbcHex1()
    ensures Hex(0xb00361a3) == "b00361a3" && Hex(0x96177a9c) == "96177a9c"
    ensures Hex(0xb410ff61) == "b410ff61" && Hex(0xf20015ad) == "f20015ad"
  {
  }

  lemma AbcHex()
    ensures HexAll(Words(State(
                           0xba7816bf, 0x8f01cfea, 0x414140de, 0x5dae2223,
                           0xb00361a3, 0x96177a9c, 0xb410ff61, 0xf20015ad))) ==
            ("ba7816bf" + ("8f01cfea" + ("414140de" + "5dae2223"))) +
            ("b00361a3" + ("96177a9c" + ("b410ff61" + "f20015ad")))
  {
    HexOfEight(0xba7816bf, 0x8f01cfea, 0x414140de, 0x5dae2223,
               0xb00361a3, 0x96177a9c, 0xb410ff61, 0xf20015ad);
    AbcHex0();
    AbcHex1();
  }

  const ABC_MESSAGE: Bytes := [0x61, 0x62, 0x63]

  lemma AbcBytes(block: Block)
    requires |Pad(ABC_MESSAGE)| == 64 && block == BlockAt(Pad(ABC_MESSAGE), 0)
    ensures block[0] == 0x61 && block[1] == 0x62 && block[2] == 0x63 && block[3] == 0x80 && block[63] == 24
    ensures forall i :: 4 <= i < 63 ==> block[i] == 0
  {
    ShortField(24, 8);
    forall i | 0 <= i < 64 ensures block[i] == Pad(ABC_MESSAGE)[i] {
    }
    PadAt(ABC_MESSAGE, 0);
    PadAt(ABC_MESSAGE, 1);
    PadAt(ABC_MESSAGE, 2);
    PadAt(ABC_MESSAGE, 3);
    PadAt(ABC_MESSAGE, 63);
    forall i | 4 <= i < 63 ensures block[i] == 0 {
      PadAt(ABC_MESSAGE, i);
    }
  }

  lemma ZeroWord(block: Block, i: nat)
    requires i < 16 && block[4 * i] == block[4 * i + 1] == block[4 * i + 2] == block[4 * i + 3] == 0
    ensures MessageWord(block, i) == 0
  {
  }

  lemma BytesOf(block: Block, i: nat, a: Byte, b: Byte, c: Byte, d: Byte)
    requires i < 16 && block[4 * i] == a && block[4 * i + 1] == b && block[4 * i + 2] == c && block[4 * i + 3] == d
    ensures MessageWord(block, i) == Word(a, b, c, d)
  {
  }

  lemma WordAt(block: Block, i: nat, w: bv32)
    requires i < 16 && MessageWord(block, i) == w
    ensures Schedule(block, ALL)[i] == w
  {
    EarlyWord(block, i);
  }

  lemma AbcLetters(block: Block)
    requires block[0] == 0x61 && block[1] == 0x62 && block[2] == 0x63 && block[3] == 0x80
    ensures Schedule(block, ALL)[0] == 0x61626380
  {
    BytesOf(block, 0, 0x61, 0x62, 0x63, 0x80);
    AbcWord();
    WordAt(block, 0, 0x61626380);
  }

  lemma AbcWord()
    ensures Word(0x61, 0x62, 0x63, 0x80) == 0x61626380
  {
  }

  lemma AbcLength(block: Block)
    requires block[60] == block[61] == block[62] == 0 && block[63] == 24
    ensures Schedule(block, ALL)[15] == 24
  {
    BytesOf(block, 15, 0, 0, 0, 24);
    LengthWord();
    WordAt(block, 15, 24);
  }

  lemma LengthWord()
    ensures Word(0, 0, 0, 24) == 24
  {
  }

  lemma AbcStarts(block: Block)
    requires |Pad(ABC_MESSAGE)| == 64 && block == BlockAt(Pad(ABC_MESSAGE), 0)
    ensures HasWords(block, 0, ABC_W0) && HasWords(block, 1, ABC_W1)
  {
    AbcBytes(block);
    AbcLetters(block);
    AbcLength(block);
    forall i | 1 <= i < 15 ensures Schedule(block, ALL)[i] == 0 {
      ZeroWord(block, i);
      WordAt(block, i, 0);
    }
    EightOf(Schedule(block, ALL)[..8]);
    EightOf(Schedule(block, ALL)[8..16]);
  }

  /** The one-block example. */
  lemma DigestOfAbc()
    ensures Sha256(ABC_MESSAGE) ==
            ("ba7816bf" + ("8f01cfea" + ("414140de" + "5dae2223"))) +
            ("b00361a3" + ("96177a9c" + ("b410ff61" + "f20015ad")))
  {
    PadAt(ABC_MESSAGE, 0);
    var padded := Pad(ABC_MESSAGE);
    var block := BlockAt(padded, 0);
    AbcStarts(block);
    AbcCompressed(block);
    AbcHex();
    OneBlock(padded);
  }

  lemma OneBlock(padded: Bytes)
    requires |padded| == 64
    ensures Chain(padded, 1) == Compress(INITIAL, BlockAt(padded, 0))
  {
    assert Fold(Compress, padded, 0) == INITIAL;
  }
}
