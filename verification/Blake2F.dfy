/** The BLAKE2 F precompile: the compression function of RFC 7693 for any number of rounds. */
module Blake2F {
  import opened ChainTypes

  type Word = bv64

  /** The message schedule of section 2.7 of RFC 7693. */
  const SIGMA: seq<seq<nat>> := [
    [0, 1, 2, 3, 4, 5, 6, 7, 8, 9, 10, 11, 12, 13, 14, 15],
    [14, 10, 4, 8, 9, 15, 13, 6, 1, 12, 0, 2, 11, 7, 5, 3],
    [11, 8, 12, 0, 5, 2, 15, 13, 10, 14, 3, 6, 7, 1, 9, 4],
    [7, 9, 3, 1, 13, 12, 11, 14, 2, 6, 5, 10, 4, 0, 15, 8],
    [9, 0, 5, 7, 2, 4, 10, 15, 14, 1, 11, 12, 6, 8, 3, 13],
    [2, 12, 6, 10, 0, 11, 8, 3, 4, 13, 7, 5, 15, 14, 1, 9],
    [12, 5, 1, 15, 14, 13, 4, 10, 0, 7, 6, 3, 9, 2, 8, 11],
    [13, 11, 7, 14, 12, 1, 3, 9, 5, 0, 15, 4, 8, 6, 2, 10],
    [6, 15, 14, 9, 11, 3, 0, 8, 12, 2, 13, 7, 1, 4, 10, 5],
    [10, 2, 8, 4, 7, 6, 1, 5, 15, 11, 9, 14, 3, 12, 13, 0]]

  const IV: seq<Word> := [
    0x6a09e667f3bcc908, 0xbb67ae8584caa73b, 0x3c6ef372fe94f82b, 0xa54ff53a5f1d36f1,
    0x510e527fade682d1, 0x9b05688c2b3e6c1f, 0x1f83d9abfb41bd6b, 0x5be0cd19137e2179]

  const TWO_64: nat := 0x1_0000000000000000

  /** Whether w is the first 64 bits of the fractional part of the square root of p, whose whole part is given. */
  predicate RootFraction(p: nat, whole: nat, w: nat) {
    var root := whole * TWO_64 + w;
    w < TWO_64 && root * root <= p * TWO_64 * TWO_64 < (root + 1) * (root + 1)
  }

  /** The constants are the fractions of the square roots of the first eight primes, as in section 2.6 of RFC 7693. */
  lemma ConstantsAreRoots()
    ensures RootFraction(2, 1, IV[0] as nat) && RootFraction(3, 1, IV[1] as nat)
    ensures RootFraction(5, 2, IV[2] as nat) && RootFraction(7, 2, IV[3] as nat)
    ensures RootFraction(11, 3, IV[4] as nat) && RootFraction(13, 3, IV[5] as nat)
    ensures RootFraction(17, 4, IV[6] as nat) && RootFraction(19, 4, IV[7] as nat)
  {
    assert IV[0] as nat == 0x6a09e667f3bcc908 && IV[1] as nat == 0xbb67ae8584caa73b;
    assert IV[2] as nat == 0x3c6ef372fe94f82b && IV[3] as nat == 0xa54ff53a5f1d36f1;
    assert IV[4] as nat == 0x510e527fade682d1 && IV[5] as nat == 0x9b05688c2b3e6c1f;
    assert IV[6] as nat == 0x1f83d9abfb41bd6b && IV[7] as nat == 0x5be0cd19137e2179;
  }

  // ---------------------------------------------------------------- the mixing function

  function Plus(x: Word, y: Word): Word { x + y }
  function Minus(x: Word, y: Word): Word { x - y }
  function Xor(x: Word, y: Word): Word { x ^ y }
  function Rotr32(x: Word): Word { (x >> 32) | (x << 32) }
  function Rotr24(x: Word): Word { (x >> 24) | (x << 40) }
  function Rotr16(x: Word): Word { (x >> 16) | (x << 48) }
  function Rotr63(x: Word): Word { (x >> 63) | (x << 1) }
  function Rotl24(x: Word): Word { (x << 24) | (x >> 40) }
  function Rotl16(x: Word): Word { (x << 16) | (x >> 48) }
  function Rotl63(x: Word): Word { (x << 63) | (x >> 1) }

  datatype Quad = Quad(a: Word, b: Word, c: Word, d: Word)

  function AddA(q: Quad, x: Word): Quad { q.(a := Plus(Plus(q.a, q.b), x)) }
  function TurnD32(q: Quad): Quad { q.(d := Rotr32(Xor(q.d, q.a))) }
  function AddC(q: Quad): Quad { q.(c := Plus(q.c, q.d)) }
  function TurnB24(q: Quad): Quad { q.(b := Rotr24(Xor(q.b, q.c))) }
  function TurnD16(q: Quad): Quad { q.(d := Rotr16(Xor(q.d, q.a))) }
  function TurnB63(q: Quad): Quad { q.(b := Rotr63(Xor(q.b, q.c))) }

  /** The mixing function G of section 3.1 of RFC 7693. */
  function Mix(q: Quad, x: Word, y: Word): Quad {
    TurnB63(AddC(TurnD16(AddA(TurnB24(AddC(TurnD32(AddA(q, x)))), y))))
  }

  function SubA(q: Quad, x: Word): Quad { q.(a := Minus(Minus(q.a, x), q.b)) }
  function BackD32(q: Quad): Quad { q.(d := Xor(Rotr32(q.d), q.a)) }
  function SubC(q: Quad): Quad { q.(c := Minus(q.c, q.d)) }
  function BackB24(q: Quad): Quad { q.(b := Xor(Rotl24(q.b), q.c)) }
  function BackD16(q: Quad): Quad { q.(d := Xor(Rotl16(q.d), q.a)) }
  function BackB63(q: Quad): Quad { q.(b := Xor(Rotl63(q.b), q.c)) }

  /** G run backwards. */
  function Unmix(q: Quad, x: Word, y: Word): Quad {
    SubA(BackD32(SubC(BackB24(SubA(BackD16(SubC(BackB63(q))), y)))), x)
  }

  lemma MinusOfSum(x: Word, y: Word)
    ensures Minus(x + y, y) == x
  {
  }

  lemma PlusOfDifference(x: Word, y: Word)
    ensures Plus(x - y, y) == x
  {
  }

  lemma MinusPlus(x: Word, y: Word)
    ensures Minus(Plus(x, y), y) == x
  {
    hide Minus;
    MinusOfSum(x, y);
  }

  lemma PlusMinus(x: Word, y: Word)
    ensures Plus(Minus(x, y), y) == x
  {
    hide Plus;
    PlusOfDifference(x, y);
  }

  lemma XorInverts(x: Word, y: Word)
    ensures Xor(Xor(x, y), y) == x
  {
  }

  lemma RotationsInvert(x: Word)
    ensures Rotr32(Rotr32(x)) == x
    ensures Rotl24(Rotr24(x)) == x && Rotr24(Rotl24(x)) == x
    ensures Rotl16(Rotr16(x)) == x && Rotr16(Rotl16(x)) == x
    ensures Rotl63(Rotr63(x)) == x && Rotr63(Rotl63(x)) == x
  {
  }

  lemma SumsInvert(q: Quad, x: Word)
    ensures SubA(AddA(q, x), x) == q && AddA(SubA(q, x), x) == q
    ensures SubC(AddC(q)) == q && AddC(SubC(q)) == q
  {
    hide Plus, Minus;
    MinusPlus(q.a, q.b);
    MinusPlus(Plus(q.a, q.b), x);
    PlusMinus(Minus(q.a, x), q.b);
    PlusMinus(q.a, x);
    MinusPlus(q.c, q.d);
    PlusMinus(q.c, q.d);
  }

  lemma TurnsInvert(q: Quad)
    ensures BackD32(TurnD32(q)) == q && TurnD32(BackD32(q)) == q
    ensures BackD16(TurnD16(q)) == q && TurnD16(BackD16(q)) == q
    ensures BackB24(TurnB24(q)) == q && TurnB24(BackB24(q)) == q
    ensures BackB63(TurnB63(q)) == q && TurnB63(BackB63(q)) == q
  {
    hide Xor, Rotr32, Rotr24, Rotr16, Rotr63, Rotl24, Rotl16, Rotl63;
    RotationsInvert(q.b);
    RotationsInvert(q.d);
    RotationsInvert(Xor(q.d, q.a));
    RotationsInvert(Xor(q.b, q.c));
    XorInverts(q.d, q.a);
    XorInverts(q.b, q.c);
    XorInverts(Rotr32(q.d), q.a);
    XorInverts(Rotl16(q.d), q.a);
    XorInverts(Rotl24(q.b), q.c);
    XorInverts(Rotl63(q.b), q.c);
  }

  lemma UnmixMix(q: Quad, x: Word, y: Word)
    ensures Unmix(Mix(q, x, y), x, y) == q
  {
    hide AddA, SubA, AddC, SubC, TurnD32, BackD32, TurnB24, BackB24, TurnD16, BackD16, TurnB63, BackB63;
    var q1 := AddA(q, x);
    var q2 := TurnD32(q1);
    var q3 := AddC(q2);
    var q4 := TurnB24(q3);
    var q5 := AddA(q4, y);
    var q6 := TurnD16(q5);
    var q7 := AddC(q6);
    SumsInvert(q, x);
    TurnsInvert(q1);
    SumsInvert(q2, x);
    TurnsInvert(q3);
    SumsInvert(q4, y);
    TurnsInvert(q5);
    SumsInvert(q6, y);
    TurnsInvert(q7);
  }

  lemma MixUnmix(q: Quad, x: Word, y: Word)
    ensures Mix(Unmix(q, x, y), x, y) == q
  {
    hide AddA, SubA, AddC, SubC, TurnD32, BackD32, TurnB24, BackB24, TurnD16, BackD16, TurnB63, BackB63;
    var q1 := BackB63(q);
    var q2 := SubC(q1);
    var q3 := BackD16(q2);
    var q4 := SubA(q3, y);
    var q5 := BackB24(q4);
    var q6 := SubC(q5);
    var q7 := BackD32(q6);
    TurnsInvert(q);
    SumsInvert(q1, y);
    TurnsInvert(q2);
    SumsInvert(q3, y);
    TurnsInvert(q4);
    SumsInvert(q5, x);
    TurnsInvert(q6);
    SumsInvert(q7, x);
  }

  // ---------------------------------------------------------------- the reference rounds

  type Words = s: seq<Word> | |s| == 16 witness seq(16, _ => 0)

  function Column(v: Words, i: nat): Quad
    requires i < 4
  {
    Quad(v[i], v[4 + i], v[8 + i], v[12 + i])
  }

  function FromColumns(q0: Quad, q1: Quad, q2: Quad, q3: Quad): Words {
    [q0.a, q1.a, q2.a, q3.a, q0.b, q1.b, q2.b, q3.b, q0.c, q1.c, q2.c, q3.c, q0.d, q1.d, q2.d, q3.d]
  }

  /** The vector as a four by four matrix: each column is mixed with two message words. */
  function MixColumns(v: Words, w: Words, from: nat): Words
    requires from <= 8
  {
    FromColumns(Mix(Column(v, 0), w[from], w[from + 1]), Mix(Column(v, 1), w[from + 2], w[from + 3]),
                Mix(Column(v, 2), w[from + 4], w[from + 5]), Mix(Column(v, 3), w[from + 6], w[from + 7]))
  }

  function UnmixColumns(v: Words, w: Words, from: nat): Words
    requires from <= 8
  {
    FromColumns(Unmix(Column(v, 0), w[from], w[from + 1]), Unmix(Column(v, 1), w[from + 2], w[from + 3]),
                Unmix(Column(v, 2), w[from + 4], w[from + 5]), Unmix(Column(v, 3), w[from + 6], w[from + 7]))
  }

  /** Row r turned left by r places, so that diagonals become columns. */
  function Turn(v: Words): Words {
    [v[0], v[1], v[2], v[3], v[5], v[6], v[7], v[4], v[10], v[11], v[8], v[9], v[15], v[12], v[13], v[14]]
  }

  function TurnBack(v: Words): Words {
    [v[0], v[1], v[2], v[3], v[7], v[4], v[5], v[6], v[10], v[11], v[8], v[9], v[13], v[14], v[15], v[12]]
  }

  function Row(i: nat): seq<nat>
    ensures |Row(i)| == 16 && forall k :: 0 <= k < 16 ==> Row(i)[k] < 16
  {
    SIGMA[i % 10]
  }

  /** The message words in the order round i uses them. */
  function Schedule(m: Words, i: nat): Words {
    seq(16, k requires 0 <= k < 16 => m[Row(i)[k]])
  }

  function Round(v: Words, w: Words): Words {
    TurnBack(MixColumns(Turn(MixColumns(v, w, 0)), w, 8))
  }

  function UndoRound(v: Words, w: Words): Words {
    UnmixColumns(TurnBack(UnmixColumns(Turn(v), w, 8)), w, 0)
  }

  function Rounds(v: Words, m: Words, n: nat): Words {
    if n == 0 then v else Round(Rounds(v, m, n - 1), Schedule(m, n - 1))
  }

  function UndoRounds(v: Words, m: Words, n: nat): Words
    decreases n
  {
    if n == 0 then v else UndoRounds(UndoRound(v, Schedule(m, n - 1)), m, n - 1)
  }

  lemma TurnInverts(v: Words)
    ensures TurnBack(Turn(v)) == v && Turn(TurnBack(v)) == v
  {
  }

  lemma ColumnsOf(q0: Quad, q1: Quad, q2: Quad, q3: Quad)
    ensures
      var v := FromColumns(q0, q1, q2, q3);
      Column(v, 0) == q0 && Column(v, 1) == q1 && Column(v, 2) == q2 && Column(v, 3) == q3
  {
  }

  /** A vector is its columns. */
  lemma IsItsColumns(v: Words)
    ensures v == FromColumns(Column(v, 0), Column(v, 1), Column(v, 2), Column(v, 3))
  {
  }

  lemma MixedColumnsUnmix(v: Words, w: Words, from: nat)
    requires from <= 8
    ensures UnmixColumns(MixColumns(v, w, from), w, from) == v
  {
    hide Mix, Unmix, Column, FromColumns;
    IsItsColumns(v);
    ColumnsOf(Mix(Column(v, 0), w[from], w[from + 1]), Mix(Column(v, 1), w[from + 2], w[from + 3]),
              Mix(Column(v, 2), w[from + 4], w[from + 5]), Mix(Column(v, 3), w[from + 6], w[from + 7]));
    UnmixMix(Column(v, 0), w[from], w[from + 1]);
    UnmixMix(Column(v, 1), w[from + 2], w[from + 3]);
    UnmixMix(Column(v, 2), w[from + 4], w[from + 5]);
    UnmixMix(Column(v, 3), w[from + 6], w[from + 7]);
  }

  lemma UnmixedColumnsMix(v: Words, w: Words, from: nat)
    requires from <= 8
    ensures MixColumns(UnmixColumns(v, w, from), w, from) == v
  {
    hide Mix, Unmix, Column, FromColumns;
    IsItsColumns(v);
    ColumnsOf(Unmix(Column(v, 0), w[from], w[from + 1]), Unmix(Column(v, 1), w[from + 2], w[from + 3]),
              Unmix(Column(v, 2), w[from + 4], w[from + 5]), Unmix(Column(v, 3), w[from + 6], w[from + 7]));
    MixUnmix(Column(v, 0), w[from], w[from + 1]);
    MixUnmix(Column(v, 1), w[from + 2], w[from + 3]);
    MixUnmix(Column(v, 2), w[from + 4], w[from + 5]);
    MixUnmix(Column(v, 3), w[from + 6], w[from + 7]);
  }

  lemma RoundInverts(v: Words, w: Words)
    ensures UndoRound(Round(v, w), w) == v && Round(UndoRound(v, w), w) == v
  {
    hide MixColumns, UnmixColumns, Turn, TurnBack;
    MixedColumnsUnmix(v, w, 0);
    TurnInverts(MixColumns(v, w, 0));
    MixedColumnsUnmix(Turn(MixColumns(v, w, 0)), w, 8);
    TurnInverts(MixColumns(Turn(MixColumns(v, w, 0)), w, 8));
    TurnInverts(v);
    UnmixedColumnsMix(Turn(v), w, 8);
    TurnInverts(UnmixColumns(Turn(v), w, 8));
    UnmixedColumnsMix(TurnBack(UnmixColumns(Turn(v), w, 8)), w, 0);
  }

  /** For every message block and every round count the round loop is a bijection on the working vector. */
  lemma {:induction false} RoundsAreABijection(v: Words, m: Words, n: nat)
    ensures UndoRounds(Rounds(v, m, n), m, n) == v && Rounds(UndoRounds(v, m, n), m, n) == v
    decreases n
  {
    hide Round, UndoRound, Schedule;
    if n > 0 {
      RoundInverts(Rounds(v, m, n - 1), Schedule(m, n - 1));
      RoundsAreABijection(v, m, n - 1);
      RoundInverts(v, Schedule(m, n - 1));
      RoundsAreABijection(UndoRound(v, Schedule(m, n - 1)), m, n - 1);
    }
  }

  /** Every round uses every message word exactly once. */
  lemma EachWordOnce(i: nat, w: nat)
    requires w < 16
    ensures w in Row(i) && NoDup(Row(i))
  {
    RowsHaveNoDup(i % 10);
    NoDupCovers(Row(i), w);
  }

  /** Sixteen different positions below sixteen are all of them. */
  lemma NoDupCovers(r: seq<nat>, w: nat)
    requires NoDup(r) && |r| == 16 && w < 16 && forall k :: 0 <= k < 16 ==> r[k] < 16
    ensures w in r
  {
    NoDupSize(r);
    var all := Elements(seq<nat>(16, k => k));
    NoDupSize(seq<nat>(16, k => k));
    assert Elements(r) <= all by {
      forall x | x in r
        ensures x in all
      {
        assert seq<nat>(16, k => k)[x] == x;
      }
    }
    assert |all - Elements(r)| == 0;
    assert seq<nat>(16, k => k)[w] == w;
    assert w in all;
  }

  lemma Row0HasNoDup()
    ensures NoDup(SIGMA[0])
  {
  }

  lemma Row1HasNoDup()
    ensures NoDup(SIGMA[1])
  {
  }

  lemma Row2HasNoDup()
    ensures NoDup(SIGMA[2])
  {
  }

  lemma Row3HasNoDup()
    ensures NoDup(SIGMA[3])
  {
  }

  lemma Row4HasNoDup()
    ensures NoDup(SIGMA[4])
  {
  }

  lemma Row5HasNoDup()
    ensures NoDup(SIGMA[5])
  {
  }

  lemma Row6HasNoDup()
    ensures NoDup(SIGMA[6])
  {
  }

  lemma Row7HasNoDup()
    ensures NoDup(SIGMA[7])
  {
  }

  lemma Row8HasNoDup()
    ensures NoDup(SIGMA[8])
  {
  }

  lemma Row9HasNoDup()
    ensures NoDup(SIGMA[9])
  {
  }

  lemma RowsHaveNoDup(r: nat)
    requires r < 10
    ensures NoDup(SIGMA[r])
  {
    hide NoDup;
    if r == 0 {
      Row0HasNoDup();
    } else if r == 1 {
      Row1HasNoDup();
    } else if r == 2 {
      Row2HasNoDup();
    } else if r == 3 {
      Row3HasNoDup();
    } else if r == 4 {
      Row4HasNoDup();
    } else if r == 5 {
      Row5HasNoDup();
    } else if r == 6 {
      Row6HasNoDup();
    } else if r == 7 {
      Row7HasNoDup();
    } else if r == 8 {
      Row8HasNoDup();
    } else {
      Row9HasNoDup();
    }
  }

  // ---------------------------------------------------------------- in place

  predicate Indices(a: nat, b: nat, c: nat, d: nat) {
    a < 16 && b < 16 && c < 16 && d < 16 && a != b && a != c && a != d && b != c && b != d && c != d
  }

  function Pick(v: Words, a: nat, b: nat, c: nat, d: nat): Quad
    requires Indices(a, b, c, d)
  {
    Quad(v[a], v[b], v[c], v[d])
  }

  function Put(v: Words, a: nat, b: nat, c: nat, d: nat, q: Quad): Words
    requires Indices(a, b, c, d)
  {
    v[a := q.a][b := q.b][c := q.c][d := q.d]
  }

  function MixAt(v: Words, a: nat, b: nat, c: nat, d: nat, x: Word, y: Word): Words
    requires Indices(a, b, c, d)
  {
    Put(v, a, b, c, d, Mix(Pick(v, a, b, c, d), x, y))
  }

  lemma PickPut(v: Words, a: nat, b: nat, c: nat, d: nat, q: Quad)
    requires Indices(a, b, c, d)
    ensures Pick(Put(v, a, b, c, d, q), a, b, c, d) == q
    ensures Put(v, a, b, c, d, Pick(v, a, b, c, d)) == v
    ensures forall i :: 0 <= i < 16 && i != a && i != b && i != c && i != d ==> Put(v, a, b, c, d, q)[i] == v[i]
  {
  }

  lemma PutStep(v: Words, a: nat, b: nat, c: nat, d: nat, q: Quad, z: Word)
    requires Indices(a, b, c, d)
    ensures Put(v, a, b, c, d, q)[a := z] == Put(v, a, b, c, d, q.(a := z))
    ensures Put(v, a, b, c, d, q)[b := z] == Put(v, a, b, c, d, q.(b := z))
    ensures Put(v, a, b, c, d, q)[c := z] == Put(v, a, b, c, d, q.(c := z))
    ensures Put(v, a, b, c, d, q)[d := z] == Put(v, a, b, c, d, q.(d := z))
  {
  }

  /** Writes one word of the four that `g` works on. */
  method Write(v: array<Word>, i: nat, z: Word, ghost v0: Words, a: nat, b: nat, c: nat, d: nat, ghost q: Quad)
    requires v.Length == 16 && Indices(a, b, c, d) && i in {a, b, c, d} && v[..] == Put(v0, a, b, c, d, q)
    modifies v
    ensures v[..] == Put(v0, a, b, c, d, if i == a then q.(a := z) else if i == b then q.(b := z)
                                         else if i == c then q.(c := z) else q.(d := z))
    ensures v[a] == (if i == a then z else q.a) && v[b] == (if i == b then z else q.b)
    ensures v[c] == (if i == c then z else q.c) && v[d] == (if i == d then z else q.d)
  {
    PickPut(v0, a, b, c, d, q);
    PutStep(v0, a, b, c, d, q, z);
    assert v[a] == v[..][a] && v[b] == v[..][b] && v[c] == v[..][c] && v[d] == v[..][d];
    hide Put;
    v[i] := z;
    assert v[..] == old(v[..])[i := z];
  }

  method G(v: array<Word>, a: nat, b: nat, c: nat, d: nat, x: Word, y: Word)
    requires v.Length == 16 && Indices(a, b, c, d)
    modifies v
    ensures v[..] == MixAt(old(v[..]), a, b, c, d, x, y)
  {
    hide Plus, Xor, Rotr32, Rotr24, Rotr16, Rotr63, Put;
    ghost var v0 := v[..];
    ghost var q := Pick(v0, a, b, c, d);
    PickPut(v0, a, b, c, d, q);
    Write(v, a, Plus(Plus(v[a], v[b]), x), v0, a, b, c, d, q);
    Write(v, d, Rotr32(Xor(v[d], v[a])), v0, a, b, c, d, AddA(q, x));
    Write(v, c, Plus(v[c], v[d]), v0, a, b, c, d, TurnD32(AddA(q, x)));
    Write(v, b, Rotr24(Xor(v[b], v[c])), v0, a, b, c, d, AddC(TurnD32(AddA(q, x))));
    ghost var half := TurnB24(AddC(TurnD32(AddA(q, x))));
    Write(v, a, Plus(Plus(v[a], v[b]), y), v0, a, b, c, d, half);
    Write(v, d, Rotr16(Xor(v[d], v[a])), v0, a, b, c, d, AddA(half, y));
    Write(v, c, Plus(v[c], v[d]), v0, a, b, c, d, TurnD16(AddA(half, y)));
    Write(v, b, Rotr63(Xor(v[b], v[c])), v0, a, b, c, d, AddC(TurnD16(AddA(half, y))));
  }

  /** Four mixings, one after the other, down the columns. */
  function Columns(v: Words, w: Words): Words {
    var v1 := MixAt(v, 0, 4, 8, 12, w[0], w[1]);
    var v2 := MixAt(v1, 1, 5, 9, 13, w[2], w[3]);
    var v3 := MixAt(v2, 2, 6, 10, 14, w[4], w[5]);
    MixAt(v3, 3, 7, 11, 15, w[6], w[7])
  }

  /** Four mixings, one after the other, along the diagonals. */
  function Diagonals(v: Words, w: Words): Words {
    var v1 := MixAt(v, 0, 5, 10, 15, w[8], w[9]);
    var v2 := MixAt(v1, 1, 6, 11, 12, w[10], w[11]);
    var v3 := MixAt(v2, 2, 7, 8, 13, w[12], w[13]);
    MixAt(v3, 3, 4, 9, 14, w[14], w[15])
  }

  datatype Line = Line(a: nat, b: nat, c: nat, d: nat)

  predicate Fits(l: Line) { Indices(l.a, l.b, l.c, l.d) }

  predicate Apart(k: Line, l: Line) {
    && k.a != l.a && k.a != l.b && k.a != l.c && k.a != l.d && k.b != l.a && k.b != l.b && k.b != l.c && k.b != l.d
    && k.c != l.a && k.c != l.b && k.c != l.c && k.c != l.d && k.d != l.a && k.d != l.b && k.d != l.c && k.d != l.d
  }

  function On(v: Words, l: Line): Quad
    requires Fits(l)
  {
    Pick(v, l.a, l.b, l.c, l.d)
  }

  function MixOn(v: Words, l: Line, x: Word, y: Word): Words
    requires Fits(l)
  {
    MixAt(v, l.a, l.b, l.c, l.d, x, y)
  }

  lemma MixHere(v: Words, l: Line, x: Word, y: Word)
    requires Fits(l)
    ensures On(MixOn(v, l, x, y), l) == Mix(On(v, l), x, y)
  {
    hide Mix;
    PickPut(v, l.a, l.b, l.c, l.d, Mix(On(v, l), x, y));
  }

  lemma MixElsewhere(v: Words, l: Line, x: Word, y: Word, k: Line)
    requires Fits(l) && Fits(k) && Apart(k, l)
    ensures On(MixOn(v, l, x, y), k) == On(v, k)
  {
    hide Mix;
    PickPut(v, l.a, l.b, l.c, l.d, Mix(On(v, l), x, y));
  }

  ghost predicate FourLines(j: Line, k: Line, l: Line, n: Line) {
    && Fits(j) && Fits(k) && Fits(l) && Fits(n)
    && Apart(j, k) && Apart(j, l) && Apart(j, n) && Apart(k, l) && Apart(k, n) && Apart(l, n)
    && Apart(k, j) && Apart(l, j) && Apart(n, j) && Apart(l, k) && Apart(n, k) && Apart(n, l)
  }

  ghost function MixFour(v: Words, j: Line, k: Line, l: Line, n: Line, w: Words, from: nat): Words
    requires FourLines(j, k, l, n) && from <= 8
  {
    MixOn(MixOn(MixOn(MixOn(v, j, w[from], w[from + 1]), k, w[from + 2], w[from + 3]), l, w[from + 4], w[from + 5]),
          n, w[from + 6], w[from + 7])
  }

  /** Mixing four lines that share no position, one after the other, mixes each as it was at the start. */
  lemma MixFourIsParallel(v: Words, j: Line, k: Line, l: Line, n: Line, w: Words, from: nat)
    requires FourLines(j, k, l, n) && from <= 8
    ensures
      var r := MixFour(v, j, k, l, n, w, from);
      && On(r, j) == Mix(On(v, j), w[from], w[from + 1]) && On(r, k) == Mix(On(v, k), w[from + 2], w[from + 3])
      && On(r, l) == Mix(On(v, l), w[from + 4], w[from + 5]) && On(r, n) == Mix(On(v, n), w[from + 6], w[from + 7])
  {
    hide Mix, MixOn, On, Apart;
    var v1 := MixOn(v, j, w[from], w[from + 1]);
    var v2 := MixOn(v1, k, w[from + 2], w[from + 3]);
    var v3 := MixOn(v2, l, w[from + 4], w[from + 5]);
    MixHere(v, j, w[from], w[from + 1]);
    MixElsewhere(v, j, w[from], w[from + 1], k);
    MixElsewhere(v, j, w[from], w[from + 1], l);
    MixElsewhere(v, j, w[from], w[from + 1], n);
    MixHere(v1, k, w[from + 2], w[from + 3]);
    MixElsewhere(v1, k, w[from + 2], w[from + 3], j);
    MixElsewhere(v1, k, w[from + 2], w[from + 3], l);
    MixElsewhere(v1, k, w[from + 2], w[from + 3], n);
    MixHere(v2, l, w[from + 4], w[from + 5]);
    MixElsewhere(v2, l, w[from + 4], w[from + 5], j);
    MixElsewhere(v2, l, w[from + 4], w[from + 5], k);
    MixElsewhere(v2, l, w[from + 4], w[from + 5], n);
    MixHere(v3, n, w[from + 6], w[from + 7]);
    MixElsewhere(v3, n, w[from + 6], w[from + 7], j);
    MixElsewhere(v3, n, w[from + 6], w[from + 7], k);
    MixElsewhere(v3, n, w[from + 6], w[from + 7], l);
  }

  lemma ByColumns(v: Words)
    ensures Column(v, 0) == On(v, Line(0, 4, 8, 12)) && Column(v, 1) == On(v, Line(1, 5, 9, 13))
    ensures Column(v, 2) == On(v, Line(2, 6, 10, 14)) && Column(v, 3) == On(v, Line(3, 7, 11, 15))
  {
  }

  /** Turned, a vector is its diagonals. */
  lemma ByDiagonals(v: Words)
    ensures Column(Turn(v), 0) == On(v, Line(0, 5, 10, 15)) && Column(Turn(v), 1) == On(v, Line(1, 6, 11, 12))
    ensures Column(Turn(v), 2) == On(v, Line(2, 7, 8, 13)) && Column(Turn(v), 3) == On(v, Line(3, 4, 9, 14))
    ensures TurnBack(Turn(v)) == v
  {
  }

  lemma ColumnsAreParallel(v: Words, w: Words)
    ensures Columns(v, w) == MixColumns(v, w, 0)
  {
    hide Mix, MixAt, On, Column, FromColumns;
    MixFourIsParallel(v, Line(0, 4, 8, 12), Line(1, 5, 9, 13), Line(2, 6, 10, 14), Line(3, 7, 11, 15), w, 0);
    ByColumns(v);
    ByColumns(Columns(v, w));
    IsItsColumns(Columns(v, w));
  }

  lemma DiagonalsAreColumns(v: Words, w: Words)
    ensures Diagonals(v, w) == TurnBack(MixColumns(Turn(v), w, 8))
  {
    hide Mix, MixAt, On, Column, FromColumns, Turn, TurnBack;
    MixFourIsParallel(v, Line(0, 5, 10, 15), Line(1, 6, 11, 12), Line(2, 7, 8, 13), Line(3, 4, 9, 14), w, 8);
    ByDiagonals(v);
    ByDiagonals(Diagonals(v, w));
    IsItsColumns(Turn(Diagonals(v, w)));
  }

  /** One pass of the round loop. */
  method RoundInPlace(v: array<Word>, m: Words, i: nat)
    requires v.Length == 16
    modifies v
    ensures v[..] == Round(old(v[..]), Schedule(m, i))
  {
    hide MixAt, MixColumns, Turn, TurnBack;
    ghost var v0 := v[..];
    ghost var w := Schedule(m, i);
    var s := Row(i);
    G(v, 0, 4, 8, 12, m[s[0]], m[s[1]]);
    G(v, 1, 5, 9, 13, m[s[2]], m[s[3]]);
    G(v, 2, 6, 10, 14, m[s[4]], m[s[5]]);
    G(v, 3, 7, 11, 15, m[s[6]], m[s[7]]);
    ghost var v1 := v[..];
    assert v1 == Columns(v0, w);
    G(v, 0, 5, 10, 15, m[s[8]], m[s[9]]);
    G(v, 1, 6, 11, 12, m[s[10]], m[s[11]]);
    G(v, 2, 7, 8, 13, m[s[12]], m[s[13]]);
    G(v, 3, 4, 9, 14, m[s[14]], m[s[15]]);
    assert v[..] == Diagonals(v1, w);
    ColumnsAreParallel(v0, w);
    DiagonalsAreColumns(v1, w);
  }

  const ALL_ONES: Word := 0xFFFFFFFFFFFFFFFF

  /** The working vector at the start: state, constants, counter and final-block flag. */
  function Initial(h: seq<Word>, t0: Word, t1: Word, final: bool): Words
    requires |h| == 8
  {
    h + IV[..4] + [Xor(IV[4], t0), Xor(IV[5], t1), if final then Xor(IV[6], ALL_ONES) else IV[6], IV[7]]
  }

  /** The function F of section 3.2 of RFC 7693 for any number of rounds. */
  function F(h: seq<Word>, m: Words, t0: Word, t1: Word, final: bool, rounds: nat): (r: seq<Word>)
    requires |h| == 8
  {
    Folded(h, Rounds(Initial(h, t0, t1, final), m, rounds))
  }

  function Folded(h: seq<Word>, v: Words): seq<Word>
    requires |h| == 8
  {
    seq(8, i requires 0 <= i < 8 => Xor(h[i], Xor(v[i], v[i + 8])))
  }

  /** Without rounds the state cancels out and the result is the constants with the counter and the flag. */
  lemma ZeroRounds(h: seq<Word>, m: Words, t0: Word, t1: Word, final: bool)
    requires |h| == 8
    ensures F(h, m, t0, t1, final, 0) ==
            [IV[0], IV[1], IV[2], IV[3], IV[4] ^ t0, IV[5] ^ t1, if final then !IV[6] else IV[6], IV[7]]
  {
    var v := Initial(h, t0, t1, final);
    NotIsXor(IV[6]);
    forall i | 0 <= i < 8
      ensures F(h, m, t0, t1, final, 0)[i] == v[i + 8]
    {
      XorCancels(h[i], v[i + 8]);
    }
    assert Xor(IV[4], t0) == IV[4] ^ t0 && Xor(IV[5], t1) == IV[5] ^ t1;
  }

  lemma XorCancels(x: Word, y: Word)
    ensures Xor(x, Xor(x, y)) == y
  {
  }

  lemma NotIsXor(x: Word)
    ensures !x == Xor(x, ALL_ONES)
  {
  }

  method Fill(h: array<Word>, v: array<Word>, t0: Word, t1: Word, final: bool)
    requires h.Length == 8 && v.Length == 16 && h != v
    modifies v
    ensures v[..] == Initial(h[..], t0, t1, final)
  {
    forall i | 0 <= i < 8 {
      v[i] := h[i];
    }
    forall i | 8 <= i < 16 {
      v[i] := IV[i - 8];
    }
    v[12] := Xor(v[12], t0);
    v[13] := Xor(v[13], t1);
    if final {
      NotIsXor(v[14]);
      v[14] := !v[14];
    }
    hide Xor;
  }

  /** `compress` computes F in place. */
  method Compress(h: array<Word>, m: Words, t0: Word, t1: Word, final: bool, rounds: nat)
    requires h.Length == 8
    modifies h
    ensures h[..] == F(old(h[..]), m, t0, t1, final, rounds)
  {
    hide Xor, Round, Initial, Folded;
    var v := new Word[16];
    Fill(h, v, t0, t1, final);
    ghost var v0 := v[..];
    for i := 0 to rounds
      invariant v[..] == Rounds(v0, m, i) && h[..] == old(h[..])
    {
      RoundInPlace(v, m, i);
    }
    Finish(h, v);
  }

  /** Folds the working vector back into the state. */
  method Finish(h: array<Word>, v: array<Word>)
    requires h.Length == 8 && v.Length == 16 && h != v
    modifies h
    ensures h[..] == Folded(old(h[..]), v[..])
  {
    hide Xor;
    for i := 0 to 8
      invariant forall k :: 0 <= k < i ==> h[k] == Xor(old(h[k]), Xor(v[k], v[k + 8]))
      invariant forall k :: i <= k < 8 ==> h[k] == old(h[k])
    {
      h[i] := Xor(h[i], Xor(v[i], v[i + 8]));
    }
  }
}
