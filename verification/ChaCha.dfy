/** The ChaCha20 block function: RFC 8439 as functions on a state of sixteen words, the kernel's version
    on an array, and why the twenty rounds are a permutation. */
module ChaCha {
  import opened Words

  type State = s: seq<Word> | |s| == 16 witness seq(16, _ => 0)

  const ROUNDS: nat := 20

  // ------------------------------------------------------------------------------------------
  // Words
  // ------------------------------------------------------------------------------------------

  function Sub(x: Word, y: Word): Word {
    x - y
  }

  function Xor(x: Word, y: Word): Word {
    x ^ y
  }

  function Rotr(x: Word, n: bv32): Word
    requires 0 < n < 32
  {
    (x >> n) | (x << (32 - n))
  }

  lemma AddIs(x: Word, y: Word)
    ensures Add(x, y) == x + y
  {
  }

  lemma SubIs(x: Word, y: Word)
    ensures Sub(x, y) == x - y
  {
  }

  lemma SumCancels(x: Word, y: Word)
    ensures Sub(x + y, y) == x && Add(x - y, y) == x
  {
  }

  lemma AddSub(x: Word, y: Word)
    ensures Sub(Add(x, y), y) == x && Add(Sub(x, y), y) == x
  {
    hide Add, Sub;
    AddIs(x, y);
    SubIs(x, y);
    SumCancels(x, y);
  }

  lemma XorXor(x: Word, y: Word)
    ensures Xor(Xor(x, y), y) == x
  {
  }

  lemma Rotate16(x: Word)
    ensures Rotr(Rotl(x, 16), 16) == x && Rotl(Rotr(x, 16), 16) == x
  {
  }

  lemma Rotate12(x: Word)
    ensures Rotr(Rotl(x, 12), 12) == x && Rotl(Rotr(x, 12), 12) == x
  {
  }

  lemma Rotate8(x: Word)
    ensures Rotr(Rotl(x, 8), 8) == x && Rotl(Rotr(x, 8), 8) == x
  {
  }

  lemma Rotate7(x: Word)
    ensures Rotr(Rotl(x, 7), 7) == x && Rotl(Rotr(x, 7), 7) == x
  {
  }

  lemma RotlRotr(x: Word, n: bv32)
    requires n == 16 || n == 12 || n == 8 || n == 7
    ensures Rotr(Rotl(x, n), n) == x && Rotl(Rotr(x, n), n) == x
  {
    hide Rotl, Rotr;
    Rotate16(x);
    Rotate12(x);
    Rotate8(x);
    Rotate7(x);
  }

  // ------------------------------------------------------------------------------------------
  // Quarter round, section 2.1
  // ------------------------------------------------------------------------------------------

  datatype Quad = Quad(a: Word, b: Word, c: Word, d: Word)

  // a += b; d ^= a; d <<<= n
  function Mix(a: Word, b: Word, d: Word, n: bv32): (Word, Word)
    requires 0 < n < 32
  {
    var a1 := Add(a, b);
    (a1, Rotl(Xor(d, a1), n))
  }

  function Unmix(a: Word, b: Word, d: Word, n: bv32): (Word, Word)
    requires 0 < n < 32
  {
    (Sub(a, b), Xor(Rotr(d, n), a))
  }

  lemma MixUnmix(a: Word, b: Word, d: Word, n: bv32)
    requires n == 16 || n == 12 || n == 8 || n == 7
    ensures var (p, q) := Mix(a, b, d, n); Unmix(p, b, q, n) == (a, d)
    ensures var (p, q) := Unmix(a, b, d, n); Mix(p, b, q, n) == (a, d)
  {
    hide Add, Sub, Xor, Rotl, Rotr;
    AddSub(a, b);
    XorXor(d, Add(a, b));
    RotlRotr(Xor(d, Add(a, b)), n);
    XorXor(Rotr(d, n), a);
    RotlRotr(d, n);
  }

  function QuarterRound(q: Quad): Quad {
    var (a1, d1) := Mix(q.a, q.b, q.d, 16);
    var (c1, b1) := Mix(q.c, d1, q.b, 12);
    var (a2, d2) := Mix(a1, b1, d1, 8);
    var (c2, b2) := Mix(c1, d2, b1, 7);
    Quad(a2, b2, c2, d2)
  }

  function InverseQuarterRound(q: Quad): Quad {
    var (c1, b1) := Unmix(q.c, q.d, q.b, 7);
    var (a1, d1) := Unmix(q.a, b1, q.d, 8);
    var (c0, b0) := Unmix(c1, d1, b1, 12);
    var (a0, d0) := Unmix(a1, b0, d1, 16);
    Quad(a0, b0, c0, d0)
  }

  lemma QuarterRoundInverse(q: Quad)
    ensures InverseQuarterRound(QuarterRound(q)) == q
    ensures QuarterRound(InverseQuarterRound(q)) == q
  {
    hide Mix, Unmix;
    var (a1, d1) := Mix(q.a, q.b, q.d, 16);
    var (c1, b1) := Mix(q.c, d1, q.b, 12);
    MixUnmix(q.a, q.b, q.d, 16);
    MixUnmix(q.c, d1, q.b, 12);
    MixUnmix(a1, b1, d1, 8);
    MixUnmix(c1, Mix(a1, b1, d1, 8).1, b1, 7);
    var (c3, b3) := Unmix(q.c, q.d, q.b, 7);
    var (a3, d3) := Unmix(q.a, b3, q.d, 8);
    var (c4, b4) := Unmix(c3, d3, b3, 12);
    MixUnmix(q.c, q.d, q.b, 7);
    MixUnmix(q.a, b3, q.d, 8);
    MixUnmix(c3, d3, b3, 12);
    MixUnmix(a3, b4, d3, 16);
  }

  // ------------------------------------------------------------------------------------------
  // On the state, sections 2.2 and 2.3
  // ------------------------------------------------------------------------------------------

  predicate Distinct(i: nat, j: nat, k: nat, l: nat) {
    i < 16 && j < 16 && k < 16 && l < 16 && i != j && i != k && i != l && j != k && j != l && k != l
  }

  function At(s: State, i: nat, j: nat, k: nat, l: nat): Quad
    requires Distinct(i, j, k, l)
  {
    Quad(s[i], s[j], s[k], s[l])
  }

  function Put(s: State, i: nat, j: nat, k: nat, l: nat, q: Quad): State
    requires Distinct(i, j, k, l)
  {
    s[i := q.a][j := q.b][k := q.c][l := q.d]
  }

  function QR(s: State, i: nat, j: nat, k: nat, l: nat): State
    requires Distinct(i, j, k, l)
  {
    Put(s, i, j, k, l, QuarterRound(At(s, i, j, k, l)))
  }

  function InverseQR(s: State, i: nat, j: nat, k: nat, l: nat): State
    requires Distinct(i, j, k, l)
  {
    Put(s, i, j, k, l, InverseQuarterRound(At(s, i, j, k, l)))
  }

  lemma QRInverse(s: State, i: nat, j: nat, k: nat, l: nat)
    requires Distinct(i, j, k, l)
    ensures InverseQR(QR(s, i, j, k, l), i, j, k, l) == s
    ensures QR(InverseQR(s, i, j, k, l), i, j, k, l) == s
  {
    hide QuarterRound, InverseQuarterRound;
    QuarterRoundInverse(At(s, i, j, k, l));
  }

  function ColumnRound(s: State): State {
    QR(QR(QR(QR(s, 0, 4, 8, 12), 1, 5, 9, 13), 2, 6, 10, 14), 3, 7, 11, 15)
  }

  function DiagonalRound(s: State): State {
    QR(QR(QR(QR(s, 0, 5, 10, 15), 1, 6, 11, 12), 2, 7, 8, 13), 3, 4, 9, 14)
  }

  function DoubleRound(s: State): State {
    DiagonalRound(ColumnRound(s))
  }

  function InverseColumnRound(s: State): State {
    InverseQR(InverseQR(InverseQR(InverseQR(s, 3, 7, 11, 15), 2, 6, 10, 14), 1, 5, 9, 13), 0, 4, 8, 12)
  }

  function InverseDiagonalRound(s: State): State {
    InverseQR(InverseQR(InverseQR(InverseQR(s, 3, 4, 9, 14), 2, 7, 8, 13), 1, 6, 11, 12), 0, 5, 10, 15)
  }

  function InverseDoubleRound(s: State): State {
    InverseColumnRound(InverseDiagonalRound(s))
  }

  lemma ColumnRoundInverse(s: State)
    ensures InverseColumnRound(ColumnRound(s)) == s && ColumnRound(InverseColumnRound(s)) == s
  {
    hide QR, InverseQR;
    var s1 := QR(s, 0, 4, 8, 12);
    var s2 := QR(s1, 1, 5, 9, 13);
    var s3 := QR(s2, 2, 6, 10, 14);
    QRInverse(s, 0, 4, 8, 12);
    QRInverse(s1, 1, 5, 9, 13);
    QRInverse(s2, 2, 6, 10, 14);
    QRInverse(s3, 3, 7, 11, 15);
    var t1 := InverseQR(s, 3, 7, 11, 15);
    var t2 := InverseQR(t1, 2, 6, 10, 14);
    var t3 := InverseQR(t2, 1, 5, 9, 13);
    QRInverse(t1, 2, 6, 10, 14);
    QRInverse(t2, 1, 5, 9, 13);
    QRInverse(t3, 0, 4, 8, 12);
    QRInverse(s, 3, 7, 11, 15);
  }

  lemma DiagonalRoundInverse(s: State)
    ensures InverseDiagonalRound(DiagonalRound(s)) == s && DiagonalRound(InverseDiagonalRound(s)) == s
  {
    hide QR, InverseQR;
    var s1 := QR(s, 0, 5, 10, 15);
    var s2 := QR(s1, 1, 6, 11, 12);
    var s3 := QR(s2, 2, 7, 8, 13);
    QRInverse(s, 0, 5, 10, 15);
    QRInverse(s1, 1, 6, 11, 12);
    QRInverse(s2, 2, 7, 8, 13);
    QRInverse(s3, 3, 4, 9, 14);
    var t1 := InverseQR(s, 3, 4, 9, 14);
    var t2 := InverseQR(t1, 2, 7, 8, 13);
    var t3 := InverseQR(t2, 1, 6, 11, 12);
    QRInverse(s, 3, 4, 9, 14);
    QRInverse(t1, 2, 7, 8, 13);
    QRInverse(t2, 1, 6, 11, 12);
    QRInverse(t3, 0, 5, 10, 15);
  }

  lemma DoubleRoundInverse(s: State)
    ensures InverseDoubleRound(DoubleRound(s)) == s && DoubleRound(InverseDoubleRound(s)) == s
  {
    hide ColumnRound, DiagonalRound, InverseColumnRound, InverseDiagonalRound;
    ColumnRoundInverse(s);
    DiagonalRoundInverse(ColumnRound(s));
    DiagonalRoundInverse(s);
    ColumnRoundInverse(InverseDiagonalRound(s));
  }

  // n double rounds
  function Core(s: State, n: nat): State {
    if n == 0 then s else DoubleRound(Core(s, n - 1))
  }

  function InverseCore(s: State, n: nat): State
    decreases n
  {
    if n == 0 then s else InverseCore(InverseDoubleRound(s), n - 1)
  }

  // The rounds lose nothing: every state comes from exactly one state, which InverseCore finds.
  lemma {:induction false} CoreIsPermutation(s: State, n: nat)
    ensures InverseCore(Core(s, n), n) == s
    ensures Core(InverseCore(s, n), n) == s
    decreases n
  {
    hide DoubleRound, InverseDoubleRound;
    if n > 0 {
      DoubleRoundInverse(Core(s, n - 1));
      CoreIsPermutation(s, n - 1);
      CoreIsPermutation(InverseDoubleRound(s), n - 1);
      DoubleRoundInverse(s);
    }
  }

  lemma CoreIsInjective(s: State, t: State, n: nat)
    requires Core(s, n) == Core(t, n)
    ensures s == t
  {
    CoreIsPermutation(s, n);
    CoreIsPermutation(t, n);
  }

  function Sum(s: State, t: State): State {
    seq(16, i requires 0 <= i < 16 => Add(s[i], t[i]))
  }

  function Block(s: State): State {
    Sum(Core(s, ROUNDS / 2), s)
  }

  // ------------------------------------------------------------------------------------------
  // The kernel's version
  // ------------------------------------------------------------------------------------------

  // One line of the QR macro: a += b, d ^= a, d = ROTL(d, n).
  method MixInPlace(x: array<Word>, a: nat, b: nat, d: nat, n: bv32)
    requires x.Length == 16 && a < 16 && b < 16 && d < 16 && a != b && a != d && b != d && 0 < n < 32
    modifies x
    ensures var (p, q) := Mix(old(x[a]), old(x[b]), old(x[d]), n); x[..] == old(x[..])[a := p][d := q]
  {
    hide Add, Xor, Rotl;
    x[a] := Add(x[a], x[b]);
    x[d] := Xor(x[d], x[a]);
    x[d] := Rotl(x[d], n);
  }

  method QuarterRoundInPlace(x: array<Word>, a: nat, b: nat, c: nat, d: nat)
    requires x.Length == 16 && Distinct(a, b, c, d)
    modifies x
    ensures x[..] == QR(old(x[..]), a, b, c, d)
  {
    hide Mix;
    MixInPlace(x, a, b, d, 16);
    MixInPlace(x, c, d, b, 12);
    MixInPlace(x, a, b, d, 8);
    MixInPlace(x, c, d, b, 7);
  }

  method ChaChaBlock(out: array<Word>, input: array<Word>)
    requires out.Length == 16 && input.Length == 16
    modifies out
    ensures out[..] == Block(old(input[..]))
  {
    hide QR, Core, Add;
    ghost var s := input[..];
    var x := new Word[16];
    var i := 0;
    while i < 16
      invariant i <= 16 && input[..] == s && forall k :: 0 <= k < i ==> x[k] == s[k]
    {
      x[i] := input[i];
      i := i + 1;
    }
    assert x[..] == s;
    CoreStarts(s);
    i := 0;
    while i < ROUNDS
      invariant i <= ROUNDS && i % 2 == 0 && input[..] == s && x[..] == Core(s, i / 2)
    {
      CoreStep(s, i / 2);
      QuarterRoundInPlace(x, 0, 4, 8, 12);
      QuarterRoundInPlace(x, 1, 5, 9, 13);
      QuarterRoundInPlace(x, 2, 6, 10, 14);
      QuarterRoundInPlace(x, 3, 7, 11, 15);

      QuarterRoundInPlace(x, 0, 5, 10, 15);
      QuarterRoundInPlace(x, 1, 6, 11, 12);
      QuarterRoundInPlace(x, 2, 7, 8, 13);
      QuarterRoundInPlace(x, 3, 4, 9, 14);
      i := i + 2;
    }
    i := 0;
    ghost var y := x[..];
    while i < 16
      invariant i <= 16 && x[..] == y
      invariant forall k :: 0 <= k < 16 ==> input[k] == if out == input && k < i then out[k] else s[k]
      invariant forall k :: 0 <= k < i ==> out[k] == Add(y[k], s[k])
    {
      out[i] := Add(x[i], input[i]);
      i := i + 1;
    }
    assert out[..] == Sum(y, s);
  }

  lemma CoreStarts(s: State)
    ensures Core(s, 0) == s
  {
  }

  lemma CoreStep(s: State, n: nat)
    ensures Core(s, n + 1) == DiagonalRound(ColumnRound(Core(s, n)))
  {
    hide ColumnRound, DiagonalRound;
  }
}
