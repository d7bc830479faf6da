/** The word that weapon modifiers are packed into (src/server/modifiers.c): eight
    small numbers, and the rules that say which of them are allowed. */
module ModWord {

  datatype Modifier = Nuclear | Cluster | Implosion | Velocity | Mini | Spread | Power | Laser

  /** What the rules of the world allow. */
  datatype Rules = Rules(nukes: bool, clusters: bool, modifiers: bool, lasers: bool) {
    predicate Allow(m: Modifier, val: int) {
      || val == 0
      || match m
         case Nuclear => nukes
         case Cluster => clusters
         case Laser => lasers
         case _ => modifiers
    }
  }

  /** Each of the four rules allows its own modifiers, and no rule is needed to clear one. */
  lemma WhichAllows(m: Modifier, val: int)
    ensures Rules(false, false, false, false).Allow(m, val) <==> val == 0
    ensures val != 0 ==>
              && (Rules(true, false, false, false).Allow(m, val) <==> m == Nuclear)
              && (Rules(false, true, false, false).Allow(m, val) <==> m == Cluster)
              && (Rules(false, false, false, true).Allow(m, val) <==> m == Laser)
              && (Rules(false, false, true, false).Allow(m, val) <==>
                    m == Implosion || m == Velocity || m == Mini || m == Spread || m == Power)
  {
  }

  const NUCLEAR := 1
  const FULLNUCLEAR := 2
  const LASER_STUN := 1
  const LASER_BLIND := 2
  const MAX_CHARS := 80

  function Max(m: Modifier): int {
    match m
    case Cluster => 1
    case Implosion => 1
    case Laser => 2
    case _ => 3
  }

  function Low(m: Modifier): bv16 {
    match m
    case Nuclear => 0x0001
    case Cluster => 0x0004
    case Implosion => 0x0008
    case Velocity => 0x0010
    case Mini => 0x0040
    case Spread => 0x0100
    case Power => 0x0400
    case Laser => 0x1000
  }

  /** The second bit of a modifier that has two. */
  function High(m: Modifier): bv16 {
    match m
    case Cluster => 0
    case Implosion => 0
    case Nuclear => 0x0002
    case Velocity => 0x0020
    case Mini => 0x0080
    case Spread => 0x0200
    case Power => 0x0800
    case Laser => 0x2000
  }

  function Limit(val: int, lo: int, hi: int): int {
    if val > hi then hi else if val < lo then lo else val
  }

  function Put(w: bv16, bit: bv16, on: bool): bv16 {
    if on then w | bit else w & !bit
  }

  function Get(w: bv16, m: Modifier): (v: int)
    ensures 0 <= v <= 3
  {
    (if HasHigh(w, m) then 2 else 0) + (if HasLow(w, m) then 1 else 0)
  }

  predicate HasLow(w: bv16, m: Modifier) {
    w & Low(m) != 0
  }

  predicate HasHigh(w: bv16, m: Modifier) {
    w & High(m) != 0
  }

  function Set(w: bv16, m: Modifier, val: int): bv16 {
    var v := Limit(val, 0, Max(m));
    PutBoth(w, m, v % 2 == 1, v >= 2)
  }

  lemma PutBit(w: bv16, bit: bv16, on: bool, other: bv16)
    requires bit & other == 0
    ensures Put(w, bit, on) & other == w & other
  {
  }

  lemma PutSame(w: bv16, bit: bv16, on: bool)
    requires bit != 0
    ensures (Put(w, bit, on) & bit != 0) == on
  {
  }

  lemma PutNothing(w: bv16, on: bool)
    ensures Put(w, 0, on) == w && w & 0 == 0
  {
  }

  lemma BitsApart(m: Modifier, k: Modifier)
    ensures Low(m) != 0 && High(m) & Low(k) == 0
    ensures m != k ==> Low(m) & Low(k) == 0 && High(m) & High(k) == 0
    ensures Low(m) & High(k) == 0
    ensures High(m) == 0 <==> Max(m) == 1
  {
  }

  lemma MaxRange(m: Modifier)
    ensures 1 <= Max(m) <= 3
  {
  }

  function PutBoth(w: bv16, m: Modifier, x: bool, y: bool): bv16 {
    Put(Put(w, Low(m), x), High(m), y)
  }

  lemma TwoPuts(w: bv16, a: bv16, b: bv16, x: bool, y: bool, c: bv16)
    requires a & c == 0 && b & c == 0
    ensures Put(Put(w, a, x), b, y) & c == w & c
  {
    PutBit(w, a, x, c);
    PutBit(Put(w, a, x), b, y, c);
  }

  lemma FirstPut(w: bv16, a: bv16, b: bv16, x: bool, y: bool)
    requires a != 0 && b & a == 0
    ensures (Put(Put(w, a, x), b, y) & a != 0) == x
  {
    hide Put;
    PutSame(w, a, x);
    PutBit(Put(w, a, x), b, y, a);
  }

  lemma SecondPut(w: bv16, a: bv16, b: bv16, x: bool, y: bool)
    requires y ==> b != 0
    ensures (Put(Put(w, a, x), b, y) & b != 0) == y
  {
    hide Put;
    if b != 0 {
      PutSame(Put(w, a, x), b, y);
    } else {
      PutNothing(Put(w, a, x), y);
    }
  }

  lemma LowApart(m: Modifier, k: Modifier)
    requires m != k
    ensures Low(m) & Low(k) == 0 && High(m) & Low(k) == 0
  {
    BitsApart(m, k);
    hide Low, High;
  }

  lemma HighApart(m: Modifier, k: Modifier)
    requires m != k
    ensures Low(m) & High(k) == 0 && High(m) & High(k) == 0
  {
    BitsApart(m, k);
    hide Low, High;
  }

  lemma SplitPut(w: bv16, m: Modifier, x: bool, y: bool)
    ensures PutBoth(w, m, x, y) == Put(Put(w, Low(m), x), High(m), y)
  {
  }

  lemma LowOfOther(w: bv16, m: Modifier, x: bool, y: bool, k: Modifier)
    requires m != k
    ensures HasLow(PutBoth(w, m, x, y), k) == HasLow(w, k)
  {
    hide Put, Low, High, PutBoth;
    LowApart(m, k);
    SplitPut(w, m, x, y);
    TwoPuts(w, Low(m), High(m), x, y, Low(k));
  }

  lemma HighOfOther(w: bv16, m: Modifier, x: bool, y: bool, k: Modifier)
    requires m != k
    ensures HasHigh(PutBoth(w, m, x, y), k) == HasHigh(w, k)
  {
    hide Put, Low, High, PutBoth;
    HighApart(m, k);
    SplitPut(w, m, x, y);
    TwoPuts(w, Low(m), High(m), x, y, High(k));
  }

  lemma LowOfSame(w: bv16, m: Modifier, x: bool, y: bool)
    ensures HasLow(PutBoth(w, m, x, y), m) == x
  {
    hide Put, Low, High;
    BitsApart(m, m);
    FirstPut(w, Low(m), High(m), x, y);
  }

  lemma HighOfSame(w: bv16, m: Modifier, x: bool, y: bool)
    requires y ==> Max(m) > 1
    ensures HasHigh(PutBoth(w, m, x, y), m) == y
  {
    hide Put, Low, High, Max;
    BitsApart(m, m);
    SecondPut(w, Low(m), High(m), x, y);
  }

  /** Setting a modifier changes that one, to the value brought into its range. */
  lemma GetSet(w: bv16, m: Modifier, val: int, k: Modifier)
    ensures Get(Set(w, m, val), k) == if k == m then Limit(val, 0, Max(m)) else Get(w, k)
  {
    MaxRange(m);
    var v := Limit(val, 0, Max(m));
    hide HasLow, HasHigh, PutBoth;
    if k == m {
      LowOfSame(w, m, v % 2 == 1, v >= 2);
      HighOfSame(w, m, v % 2 == 1, v >= 2);
    } else {
      LowOfOther(w, m, v % 2 == 1, v >= 2, k);
      HighOfOther(w, m, v % 2 == 1, v >= 2, k);
    }
  }

  /** The bits that no modifier uses stay as they are. */
  lemma SetUnused(w: bv16, m: Modifier, val: int)
    ensures Set(w, m, val) & 0xC000 == w & 0xC000
  {
    var v := Limit(val, 0, Max(m));
    assert Low(m) & 0xC000 == 0 && High(m) & 0xC000 == 0;
    PutBit(w, Low(m), v % 2 == 1, 0xC000);
    PutBit(Put(w, Low(m), v % 2 == 1), High(m), v >= 2, 0xC000);
  }

  /** Words without unused bits that agree on all modifiers are equal. */
  lemma SameWord(v: bv16, w: bv16)
    requires v & 0xC000 == 0 && w & 0xC000 == 0
    requires forall m: Modifier :: Get(v, m) == Get(w, m)
    ensures v == w
  {
    forall m: Modifier ensures v & Low(m) == w & Low(m) && v & High(m) == w & High(m) {
      assert Get(v, m) == Get(w, m);
      SameBits(v, w, m);
    }
    SameLow(v, w);
  }

  lemma SameBits(v: bv16, w: bv16, m: Modifier)
    requires Get(v, m) == Get(w, m)
    ensures v & Low(m) == w & Low(m) && v & High(m) == w & High(m)
  {
  }

  lemma SameLow(v: bv16, w: bv16)
    requires v & 0xC000 == 0 && w & 0xC000 == 0
    requires forall m: Modifier :: v & Low(m) == w & Low(m) && v & High(m) == w & High(m)
    ensures v == w
  {
    hide Low, High;
    EachLow(v, w);
    AllBits(v, w);
  }

  lemma EachLow(v: bv16, w: bv16)
    requires forall m: Modifier :: v & Low(m) == w & Low(m) && v & High(m) == w & High(m)
    ensures v & 0x0001 == w & 0x0001 && v & 0x0002 == w & 0x0002 && v & 0x0004 == w & 0x0004
    ensures v & 0x0008 == w & 0x0008 && v & 0x0010 == w & 0x0010 && v & 0x0020 == w & 0x0020
    ensures v & 0x0040 == w & 0x0040 && v & 0x0080 == w & 0x0080 && v & 0x0100 == w & 0x0100
    ensures v & 0x0200 == w & 0x0200 && v & 0x0400 == w & 0x0400 && v & 0x0800 == w & 0x0800
    ensures v & 0x1000 == w & 0x1000 && v & 0x2000 == w & 0x2000
  {
    assert v & Low(Nuclear) == w & Low(Nuclear) && v & Low(Cluster) == w & Low(Cluster);
    assert v & Low(Implosion) == w & Low(Implosion) && v & Low(Velocity) == w & Low(Velocity);
    assert v & Low(Mini) == w & Low(Mini) && v & Low(Spread) == w & Low(Spread);
    assert v & Low(Power) == w & Low(Power) && v & Low(Laser) == w & Low(Laser);
  }

  lemma AllBits(v: bv16, w: bv16)
    requires v & 0xC000 == 0 && w & 0xC000 == 0
    requires v & 0x0001 == w & 0x0001 && v & 0x0002 == w & 0x0002 && v & 0x0004 == w & 0x0004
    requires v & 0x0008 == w & 0x0008 && v & 0x0010 == w & 0x0010 && v & 0x0020 == w & 0x0020
    requires v & 0x0040 == w & 0x0040 && v & 0x0080 == w & 0x0080 && v & 0x0100 == w & 0x0100
    requires v & 0x0200 == w & 0x0200 && v & 0x0400 == w & 0x0400 && v & 0x0800 == w & 0x0800
    requires v & 0x1000 == w & 0x1000 && v & 0x2000 == w & 0x2000
    ensures v == w
  {
  }

  // ---------- rules ----------

  function ModsSet(rules: Rules, w: bv16, m: Modifier, val: int): bv16 {
    if rules.Allow(m, val) then Set(w, m, val) else w
  }

  function Clear(rules: Rules, w: bv16, m: Modifier): bv16 {
    if rules.Allow(m, 1) then w else ModsSet(rules, w, m, 0)
  }

  /** Takes away what the rules do not allow. */
  function Filter(rules: Rules, w: bv16): bv16 {
    var w1 := Clear(rules, Clear(rules, w, Nuclear), Cluster);
    var w2 := Clear(rules, Clear(rules, w1, Implosion), Velocity);
    var w3 := Clear(rules, Clear(rules, w2, Mini), Spread);
    Clear(rules, Clear(rules, w3, Power), Laser)
  }

  predicate Canonical(w: bv16) {
    w & 0xC000 == 0 && Get(w, Nuclear) != 2 && Get(w, Laser) != 3
  }

  predicate Allowed(rules: Rules, w: bv16) {
    forall m: Modifier :: Get(w, m) == 0 || rules.Allow(m, 1)
  }

  lemma GetClear(rules: Rules, w: bv16, m: Modifier, k: Modifier)
    ensures Get(Clear(rules, w, m), k) == if k == m && !rules.Allow(m, 1) then 0 else Get(w, k)
    ensures Clear(rules, w, m) & 0xC000 == w & 0xC000
  {
    GetSet(w, m, 0, k);
    SetUnused(w, m, 0);
    MaxRange(m);
  }

  /** Filtering keeps every modifier that is allowed and clears the others. */
  lemma GetFilter(rules: Rules, w: bv16, k: Modifier)
    ensures Get(Filter(rules, w), k) == if rules.Allow(k, 1) then Get(w, k) else 0
    ensures Filter(rules, w) & 0xC000 == w & 0xC000
  {
    var w1 := Clear(rules, w, Nuclear);
    var w2 := Clear(rules, w1, Cluster);
    var w3 := Clear(rules, w2, Implosion);
    var w4 := Clear(rules, w3, Velocity);
    var w5 := Clear(rules, w4, Mini);
    var w6 := Clear(rules, w5, Spread);
    var w7 := Clear(rules, w6, Power);
    GetClear(rules, w, Nuclear, k);
    GetClear(rules, w1, Cluster, k);
    GetClear(rules, w2, Implosion, k);
    GetClear(rules, w3, Velocity, k);
    GetClear(rules, w4, Mini, k);
    GetClear(rules, w5, Spread, k);
    GetClear(rules, w6, Power, k);
    GetClear(rules, w7, Laser, k);
    hide Clear, Get;
    assert Filter(rules, w) == Clear(rules, w7, Laser);
  }

  /** A word is left alone by the filter exactly if the rules allow all it has. */
  lemma FilterFixes(rules: Rules, w: bv16)
    requires w & 0xC000 == 0
    ensures Filter(rules, w) == w <==> Allowed(rules, w)
  {
    hide Filter, Get;
    forall m: Modifier ensures Get(Filter(rules, w), m) == if rules.Allow(m, 1) then Get(w, m) else 0 {
      GetFilter(rules, w, m);
    }
    GetFilter(rules, w, Nuclear);
    if Allowed(rules, w) {
      SameWord(Filter(rules, w), w);
    }
  }
}
