/** The random number generator of src/common/randommt.c: batches computed in
    place against the recurrence that defines the sequence. */
module MersenneTwister {

  type Word32 = bv32

  const N := 624
  const M := 397
  const K: Word32 := 0x9908B0DF

  function HiBit(u: Word32): Word32 { u & 0x8000_0000 }
  function LoBit(u: Word32): Word32 { u & 0x0000_0001 }
  function LoBits(u: Word32): Word32 { u & 0x7FFF_FFFF }
  function MixBits(u: Word32, v: Word32): Word32 { HiBit(u) | LoBits(v) }

  /** A word shifted down, with the constant added or not. */
  function Halved(m: Word32, odd: bool): Word32 {
    (m >> 1) ^ (if odd then K else 0)
  }

  function Twist(u: Word32, v: Word32): Word32 {
    Halved(MixBits(u, v), LoBit(v) != 0)
  }

  /** The recurrence: what follows from the words 624, 623 and 227 places back. */
  function Following(u: Word32, v: Word32, m: Word32): Word32 {
    m ^ Twist(u, v)
  }

  function SeedFirst(seed: Word32): Word32 { seed | 1 }
  function SeedNext(w: Word32): Word32 { w * 69069 }

  // The four stages of tempering, and what undoes them.
  function Temper1(w: Word32): Word32 { w ^ (w >> 11) }
  function Temper2(w: Word32): Word32 { w ^ ((w << 7) & 0x9D2C_5680) }
  function Temper3(w: Word32): Word32 { w ^ ((w << 15) & 0xEFC6_0000) }
  function Temper4(w: Word32): Word32 { w ^ (w >> 18) }

  function Temper(w: Word32): Word32 {
    Temper4(Temper3(Temper2(Temper1(w))))
  }

  /** The sequence x[0], x[1], ... that a seed stands for. */
  function X(seed: Word32, k: nat): Word32 {
    if k == 0 then SeedFirst(seed)
    else if k < N then SeedNext(X(seed, k - 1))
    else Following(X(seed, k - N), X(seed, k - N + 1), X(seed, k - N + M))
  }

  lemma Recurrence(seed: Word32, k: nat)
    ensures X(seed, k + N) == Following(X(seed, k), X(seed, k + 1), X(seed, k + M))
  {
  }

  function Undo1(w: Word32): Word32 { w ^ (w >> 11) ^ (w >> 22) }
  function Undo4(w: Word32): Word32 { w ^ (w >> 18) }
  function Undo3(w: Word32): Word32 { Temper3(w) }

  /** Seven bits become known with each round. */
  function Undo2(w: Word32): Word32 {
    var r1 := w ^ ((w << 7) & 0x9D2C_5680);
    var r2 := w ^ ((r1 << 7) & 0x9D2C_5680);
    var r3 := w ^ ((r2 << 7) & 0x9D2C_5680);
    w ^ ((r3 << 7) & 0x9D2C_5680)
  }

  lemma UndoesShift11(w: Word32)
    ensures Undo1(w ^ (w >> 11)) == w
  {
  }

  lemma UndoesShift18(w: Word32)
    ensures Undo4(w ^ (w >> 18)) == w
  {
  }

  lemma Undoes1(w: Word32)
    ensures Undo1(Temper1(w)) == w
  {
    UndoesShift11(w);
    hide Undo1;
  }

  lemma Undoes2(w: Word32)
    ensures Undo2(Temper2(w)) == w
  {
  }

  lemma Undoes3(w: Word32)
    ensures Undo3(Temper3(w)) == w
  {
  }

  lemma Undoes4(w: Word32)
    ensures Undo4(Temper4(w)) == w
  {
    UndoesShift18(w);
    hide Undo4;
  }

  /** Different words are tempered to different numbers. */
  lemma TemperInjective(a: Word32, b: Word32)
    requires Temper(a) == Temper(b)
    ensures a == b
  {
    hide Temper1, Temper2, Temper3, Temper4, Undo1, Undo2, Undo3, Undo4;
    Undoes4(Temper3(Temper2(Temper1(a))));
    Undoes4(Temper3(Temper2(Temper1(b))));
    Undoes3(Temper2(Temper1(a)));
    Undoes3(Temper2(Temper1(b)));
    Undoes2(Temper1(a));
    Undoes2(Temper1(b));
    Undoes1(a);
    Undoes1(b);
  }

  // --------------------------------------------------- what the recurrence keeps

  function High(w: Word32): Word32 { w & 0x8000_0000 }
  function Lower(w: Word32): Word32 { w & 0x7FFF_FFFF }

  /** Shifting a word down, and what undoes it: the bit shifted out is the high bit of the constant. */
  function Shifted(m: Word32): Word32 {
    Halved(m, Odd(m))
  }

  predicate Odd(m: Word32) {
    m & 1 != 0
  }

  function Unshifted(t: Word32): Word32 {
    if t & 0x8000_0000 != 0 then ((t ^ 0x9908_B0DF) << 1) | 1 else t << 1
  }

  lemma Unshifts(m: Word32)
    ensures Unshifted(Shifted(m)) == m
  {
  }

  lemma MixedBits(u: Word32, v: Word32)
    ensures High(MixBits(u, v)) == High(u) && Lower(MixBits(u, v)) == Lower(v)
  {
  }

  lemma MixedShift(u: Word32, v: Word32)
    ensures Twist(u, v) == Shifted(MixBits(u, v))
  {
    hide Halved, MixBits, LoBit, Odd;
    LastBit(u, v);
  }

  lemma LastBit(u: Word32, v: Word32)
    ensures LoBit(v) != 0 <==> Odd(MixBits(u, v))
  {
  }

  lemma BitsTogether(u: Word32, v: Word32)
    ensures u == v <==> High(u) == High(v) && Lower(u) == Lower(v)
  {
  }

  /** Two pairs of words are twisted alike exactly if their first words have the same
      high bit and their second words the same other bits. */
  lemma TwistIff(u: Word32, v: Word32, a: Word32, b: Word32)
    ensures Twist(u, v) == Twist(a, b) <==> High(u) == High(a) && Lower(v) == Lower(b)
  {
    hide Twist, MixBits, Shifted, Unshifted, High, Lower;
    MixedShift(u, v);
    MixedShift(a, b);
    Unshifts(MixBits(u, v));
    Unshifts(MixBits(a, b));
    MixedBits(u, v);
    MixedBits(a, b);
    BitsTogether(MixBits(u, v), MixBits(a, b));
  }

  ghost predicate Same(s: Word32, t: Word32, k: nat, l: nat, j: nat) {
    X(s, k + j) == X(t, l + j)
  }

  /** Two sequences agree N places on exactly if the words that make up the ones there do. */
  lemma FollowsSame(s: Word32, t: Word32, k: nat, l: nat, i: nat)
    requires Same(s, t, k, l, i + M)
    ensures Same(s, t, k, l, i + N) <==>
            && High(X(s, k + i)) == High(X(t, l + i))
            && Lower(X(s, k + i + 1)) == Lower(X(t, l + i + 1))
  {
    hide X, Twist, High, Lower, Xor;
    FollowsTwist(s, k + i);
    FollowsTwist(t, l + i);
    SameXor(X(s, k + i + M), Twist(X(s, k + i), X(s, k + i + 1)), Twist(X(t, l + i), X(t, l + i + 1)));
    TwistIff(X(s, k + i), X(s, k + i + 1), X(t, l + i), X(t, l + i + 1));
    assert k + (i + N) == k + i + N && l + (i + N) == l + i + N;
    assert k + (i + M) == k + i + M && l + (i + M) == l + i + M;
  }

  function Xor(a: Word32, b: Word32): Word32 { a ^ b }

  lemma SameXor(m: Word32, p: Word32, q: Word32)
    ensures Xor(m, p) == Xor(m, q) <==> p == q
  {
  }

  /** Each word from the 625th on, by the words 624, 623 and 227 places back. */
  lemma FollowsTwist(seed: Word32, k: nat)
    ensures X(seed, k + 624) == Xor(X(seed, k + 397), Twist(X(seed, k), X(seed, k + 1)))
  {
    Recurrence(seed, k);
    hide X, Twist;
  }

  lemma WordSame(s: Word32, t: Word32, k: nat, l: nat, i: nat)
    ensures Same(s, t, k, l, i) <==> High(X(s, k + i)) == High(X(t, l + i)) && Lower(X(s, k + i)) == Lower(X(t, l + i))
  {
    hide X;
    BitsTogether(X(s, k + i), X(t, l + i));
    hide High, Lower;
  }

  /** A reload can be undone but for 31 bits: the next batch determines all words from place i
      of this one on, except that it tells of the word at place i the high bit only. */
  lemma {:induction false} ReloadUndone(s: Word32, t: Word32, k: nat, l: nat, i: nat)
    requires i < N && forall j: nat | N <= j < 2 * N :: Same(s, t, k, l, j)
    ensures High(X(s, k + i)) == High(X(t, l + i))
    ensures forall j: nat | i < j < 2 * N :: Same(s, t, k, l, j)
    decreases N - i
  {
    hide X, High, Lower, Same;
    if i + 1 < N {
      ReloadUndone(s, t, k, l, i + 1);
    }
    FollowsSame(s, t, k, l, i);
    WordSame(s, t, k, l, i + 1);
    assert k + (i + 1) == k + i + 1 && l + (i + 1) == l + i + 1;
  }

  /** And nothing of these 31 bits ever shows in what follows. */
  lemma {:induction false} ReloadForgets(s: Word32, t: Word32, k: nat, l: nat, n: nat)
    requires High(X(s, k)) == High(X(t, l)) && forall j: nat | 0 < j < N :: Same(s, t, k, l, j)
    ensures forall j: nat | 0 < j < N + n :: Same(s, t, k, l, j)
  {
    hide X, High, Lower, Same;
    if n > 0 {
      ReloadForgets(s, t, k, l, n - 1);
      var i: nat := n - 1;
      FollowsSame(s, t, k, l, i);
      WordSame(s, t, k, l, i);
      WordSame(s, t, k, l, i + 1);
      assert k + (i + 1) == k + i + 1 && l + (i + 1) == l + i + 1;
    }
  }

  // --------------------------------------------------------- some of its values

  /** The words that seed 4357 begins with, and what is made of them. */
  lemma KnownValues()
    ensures X(4357, 0) == X(4356, 0) == 4357 && X(4357, 1) == 300933633
    ensures Twist(4357, 300933633) == 2449424863 && Twist(0x8000_0000, 2) == 0x4000_0001
    ensures Temper(2454627182) == 3510405877
    ensures Temper(1) == 4194449 && Temper(0x8000_0000) == 2282758660 && Temper(0xFFFF_FFFF) == 1876958200
  {
    assert X(4357, 1) == SeedNext(X(4357, 0));
  }

  /** The first word is the seed, made odd, and each word after it is multiplied on. */
  lemma SeedWords(seed: Word32, w: Word32)
    ensures X(seed, 0) & 1 == 1 && X(seed, 0) >> 1 == seed >> 1
    ensures SeedNext(w) == w * 69069
  {
    SeedOdd(seed);
    hide SeedFirst;
  }

  lemma SeedOdd(seed: Word32)
    ensures SeedFirst(seed) & 1 == 1 && SeedFirst(seed) >> 1 == seed >> 1
  {
  }

  class Generator {
    const state: array<Word32>  // N words, and one more that is read but never used
    var next: int               // the next word to be tempered
    var left: int               // how many words are left before the next batch
    ghost var seed: Word32
    ghost var base: nat         // the batch is x[base], x[base + 1], ...
    ghost var drawn: nat        // numbers drawn since seeding

    ghost predicate Valid()
      reads this, state
    {
      && state.Length == N + 1
      && (if left == -1 then seed == 4357 && base == 0 && drawn == 0
          else
            && 0 <= left < N
            && drawn == base - left
            && (base > 0 ==> next == N - left)
            && (base == 0 ==> left == 0)
            && Batch(0, base))
    }

    /** From place i on the array still holds the words after x[from]. */
    ghost predicate Batch(i: int, from: nat)
      requires 0 <= i && state.Length == N + 1
      reads this, state
    {
      forall k | i <= k < N :: state[k] == X(seed, from + k)
    }

    constructor ()
      ensures Valid() && fresh(state) && seed == 4357 && drawn == 0
    {
      state := new Word32[N + 1](_ => 0);
      left := -1;
      next := 0;
      seed, base, drawn := 4357, 0, 0;
    }

    method SeedMT(s: Word32)
      requires state.Length == N + 1
      modifies this, state
      ensures Valid() && seed == s && drawn == 0 && left == 0 && base == 0
    {
      hide SeedFirst, SeedNext, Following;
      var x := SeedFirst(s);
      var i := 0;
      left, seed, base, drawn := 0, s, 0, 0;
      state[i] := x;
      i := i + 1;
      var j := N - 1;
      while j > 0
        modifies state
        invariant 1 <= i && j == N - i && 0 <= j
        invariant x == X(seed, i - 1)
        invariant forall k | 0 <= k < i :: state[k] == X(seed, k)
      {
        x := SeedNext(x);
        state[i] := x;
        i := i + 1;
        j := j - 1;
      }
    }

    /** Replaces the batch by the next one in place and returns its first number. */
    method ReloadMT() returns (r: Word32)
      requires state.Length == N + 1 && -2 <= left < 0
      requires if left == -2 then seed == 4357 && drawn == 0
               else drawn == base && Batch(0, base)
      modifies this, state
      ensures Valid() && seed == old(seed) && drawn == old(drawn) + 1 && left != -1
      ensures r == Temper(X(seed, N + old(drawn)))
    {
      hide X, Temper;
      if left < -1 {
        SeedMT(4357);
      }
      r := NextBatch();
    }

    method NextBatch() returns (r: Word32)
      requires state.Length == N + 1 && drawn == base && Batch(0, base)
      modifies this, state
      ensures Valid() && seed == old(seed) && drawn == old(drawn) + 1 && left != -1
      ensures r == Temper(X(seed, N + old(drawn)))
    {
      hide X, Following, Temper;
      left, next := N - 1, 1;
      var s0, s1 := state[0], state[1];
      s0, s1 := RenewFront(s0, s1);
      s0, s1 := RenewBack(s0, s1);
      s1 := RenewLast(s0);
      base := base + N;
      drawn := drawn + 1;
      r := TemperWord(s1);
    }

    /** The first i words are those of the next batch, the others still of this one. */
    ghost predicate Renewed(i: int)
      requires 0 <= i && state.Length == N + 1
      reads this, state
    {
      Batch(i, base) && forall k | 0 <= k < i && k < N :: state[k] == X(seed, base + N + k)
    }

    /** Renews the words whose partner M places on is still of this batch. */
    method RenewFront(a: Word32, b: Word32) returns (s0: Word32, s1: Word32)
      requires state.Length == N + 1 && Renewed(0) && a == X(seed, base) && b == X(seed, base + 1)
      modifies state
      ensures Renewed(N - M) && s0 == X(seed, base + N - M) && s1 == X(seed, base + N - M + 1)
    {
      hide X, Following;
      s0, s1 := a, b;
      var p0, pM, p2 := 0, M, 2;
      var j := N - M;
      while j > 0
        invariant 0 <= p0 == N - M - j <= N - M && pM == p0 + M && p2 == p0 + 2
        invariant Renewed(p0)
        invariant s0 == X(seed, base + p0) && s1 == X(seed, base + p0 + 1)
      {
        Recurrence(seed, base + p0);
        state[p0] := Following(s0, s1, state[pM]);
        p0, pM := p0 + 1, pM + 1;
        s0 := s1;
        s1 := state[p2];
        p2 := p2 + 1;
        j := j - 1;
      }
    }

    /** Renews the words, except the last, whose partner is of the next batch. */
    method RenewBack(a: Word32, b: Word32) returns (s0: Word32, s1: Word32)
      requires state.Length == N + 1 && Renewed(N - M)
      requires a == X(seed, base + N - M) && b == X(seed, base + N - M + 1)
      modifies state
      ensures Renewed(N - 1) && s0 == X(seed, base + N - 1)
    {
      hide X, Following;
      s0, s1 := a, b;
      var p0, pM, p2 := N - M, 0, N - M + 2;
      var j := M - 1;
      while j > 0
        invariant N - M <= p0 == N - 1 - j <= N - 1 && pM == p0 + M - N && p2 == p0 + 2
        invariant Renewed(p0)
        invariant s0 == X(seed, base + p0) && (j > 0 ==> s1 == X(seed, base + p0 + 1))
      {
        Recurrence(seed, base + p0);
        state[p0] := Following(s0, s1, state[pM]);
        p0, pM := p0 + 1, pM + 1;
        s0 := s1;
        s1 := state[p2];
        p2 := p2 + 1;
        j := j - 1;
      }
    }

    /** Renews the last word, whose neighbour is the first word of the next batch. */
    method RenewLast(s0: Word32) returns (s1: Word32)
      requires state.Length == N + 1 && Renewed(N - 1) && s0 == X(seed, base + N - 1)
      modifies state
      ensures Batch(0, base + N) && s1 == X(seed, base + N)
    {
      hide X, Following;
      s1 := state[0];
      Recurrence(seed, base + N - 1);
      state[N - 1] := Following(s0, s1, state[M - 1]);
    }

    /** Draws the next number: the n-th drawn since seeding is word N + n of
        the sequence, tempered, however many batches that takes. */
    method RandomMT() returns (r: Word32)
      requires Valid()
      modifies this, state
      ensures Valid() && seed == old(seed) && drawn == old(drawn) + 1
      ensures r == Temper(X(seed, N + old(drawn)))
    {
      hide X, Temper;
      left := left - 1;
      if left < 0 {
        r := ReloadMT();
        return;
      }
      r := TemperWord(state[next]);
      next := next + 1;
      drawn := drawn + 1;
    }
  }

  method TemperWord(w: Word32) returns (y: Word32)
    ensures y == Temper(w)
  {
    hide Temper1, Temper2, Temper3, Temper4;
    y := w;
    y := Temper1(y);
    y := Temper2(y);
    y := Temper3(y);
    return Temper4(y);
  }

  /** Any number of draws after seeding yields the tempered sequence. */
  method DrawMany(g: Generator, s: Word32, n: nat) returns (numbers: seq<Word32>)
    requires g.Valid()
    modifies g, g.state
    ensures |numbers| == n && forall k | 0 <= k < n :: numbers[k] == Temper(X(s, N + k))
  {
    hide X, Temper;
    g.SeedMT(s);
    numbers := [];
    while |numbers| < n
      invariant g.Valid() && g.seed == s && g.drawn == |numbers| <= n
      invariant forall k | 0 <= k < |numbers| :: numbers[k] == Temper(X(s, N + k))
    {
      var r := g.RandomMT();
      numbers := numbers + [r];
    }
  }
}
