/** How weapon modifiers are printed and parsed (src/server/modifiers.c), as functions
    on strings and words, and why the one undoes the other. */
module ModText {
  import opened ModWord

  // ---------- parsing ----------

  /** What parsing a string gives; Overrun, if it reads past the end of the string. */
  datatype Outcome = Bank(word: bv16) | Overrun

  predicate IsDigit(c: char) {
    '0' <= c <= '9'
  }

  predicate IsL(c: char) {
    c == 'L' || c == 'l'
  }

  predicate IsN(c: char) {
    c == 'N' || c == 'n'
  }

  predicate TakesNumber(c: char) {
    c == 'V' || c == 'v' || c == 'X' || c == 'x' || c == 'Z' || c == 'z' || c == 'B' || c == 'b'
  }

  /** The value that an int of 32 bits takes. */
  function Wrap32(x: int): int {
    (x + 0x8000_0000) % 0x1_0000_0000 - 0x8000_0000
  }

  /** How many digits the string starts with. */
  function Digits(s: string): (n: nat)
    ensures n <= |s| && (forall k | 0 <= k < n :: IsDigit(s[k])) && (n < |s| ==> !IsDigit(s[n]))
  {
    if s == [] || !IsDigit(s[0]) then 0 else 1 + Digits(s[1..])
  }

  function Number(s: string): int
  {
    if s == [] then 0 else Wrap32(Wrap32(Number(s[..|s| - 1]) * 10) + (s[|s| - 1] as int - '0' as int))
  }

  function Value(s: string, lo: int, hi: int): int {
    Limit(Number(s[..Digits(s)]), lo, hi)
  }

  /** How many characters the first of them takes with it, itself included. */
  function Eaten(s: string): (n: nat)
    requires s != []
    ensures 1 <= n && (n <= |s| || (n == 2 && |s| == 1 && IsL(s[0])))
  {
    if TakesNumber(s[0]) then 1 + Digits(s[1..])
    else if IsL(s[0]) then 2
    else 1
  }

  /** What a character makes of the word; next is the character behind it, and the
      other two are the number behind it, brought into one range or the other. */
  function Effect(rules: Rules, c: char, next: char, v: int, x: int, w: bv16): bv16 {
    match c
    case 'F' | 'f' => if IsN(next) then ModsSet(rules, w, Nuclear, NUCLEAR + FULLNUCLEAR) else w
    case 'N' | 'n' => if Get(w, Nuclear) == 0 then ModsSet(rules, w, Nuclear, NUCLEAR) else w
    case 'C' | 'c' => ModsSet(rules, w, Cluster, 1)
    case 'I' | 'i' => ModsSet(rules, w, Implosion, 1)
    case 'V' | 'v' => ModsSet(rules, w, Velocity, v)
    case 'X' | 'x' => ModsSet(rules, w, Mini, x - 1)
    case 'Z' | 'z' => ModsSet(rules, w, Spread, v)
    case 'B' | 'b' => ModsSet(rules, w, Power, v)
    case 'L' | 'l' =>
      if next == 'S' || next == 's' then ModsSet(rules, w, Laser, LASER_STUN)
      else if next == 'B' || next == 'b' then ModsSet(rules, w, Laser, LASER_BLIND)
      else w
    case _ => w
  }

  function Second(s: string): char {
    if |s| > 1 then s[1] else '\0'
  }

  /** What the first character, with those it takes with it, makes of the word. */
  function Apply(rules: Rules, s: string, w: bv16): bv16
    requires s != []
  {
    Effect(rules, s[0], Second(s), Value(s[1..], 0, 3), Value(s[1..], 1, 4), w)
  }

  function Parse(rules: Rules, s: string, w: bv16): Outcome
    decreases |s|
  {
    if s == [] then Bank(w)
    else if Eaten(s) > |s| then Overrun
    else Parse(rules, s[Eaten(s)..], Apply(rules, s, w))
  }

  /** How many Ls the string ends with. */
  function EndLs(s: string): (n: nat)
    ensures n <= |s|
  {
    if s == [] || !IsL(s[|s| - 1]) then 0 else 1 + EndLs(s[..|s| - 1])
  }

  lemma {:induction false} EndLsOfRest(s: string, k: nat)
    requires k <= |s|
    ensures EndLs(s) == if EndLs(s[k..]) < |s| - k then EndLs(s[k..]) else |s| - k + EndLs(s[..k])
    decreases |s|
  {
    if k < |s| {
      var n := |s| - 1;
      EndLsOfRest(s[..n], k);
      assert s[k..][..n - k] == s[..n][k..] && s[..n][..k] == s[..k];
    } else {
      assert s[k..] == [] && s[..k] == s;
    }
  }

  /** Parsing reads past the end of the string exactly if the number of Ls there is odd. */
  lemma {:induction false} OverrunIff(rules: Rules, s: string, w: bv16)
    ensures Parse(rules, s, w) == Overrun <==> EndLs(s) % 2 == 1
    decreases |s|
  {
    hide Apply, EndLs;
    LastL(s);
    if s != [] && Eaten(s) <= |s| {
      EndLsAfterEaten(s);
      OverrunIff(rules, s[Eaten(s)..], Apply(rules, s, w));
    }
  }

  lemma LastL(s: string)
    ensures s == [] ==> EndLs(s) == 0
    ensures |s| == 1 && IsL(s[0]) ==> EndLs(s) == 1
  {
    if |s| == 1 {
      assert s[..0] == [];
    }
  }

  lemma EndLsAfterEaten(s: string)
    requires s != [] && Eaten(s) <= |s|
    ensures EndLs(s) % 2 == EndLs(s[Eaten(s)..]) % 2
  {
    hide EndLs, Eaten;
    EatenLs(s);
    EndLsOfRest(s, Eaten(s));
    Parity(EndLs(s), EndLs(s[Eaten(s)..]), |s| - Eaten(s), EndLs(s[..Eaten(s)]));
  }

  lemma Parity(x: int, y: int, r: int, e: int)
    requires (e == 0 || e == 2) && y <= r && x == if y < r then y else r + e
    ensures x % 2 == y % 2
  {
  }

  /** The characters that are taken together do not end in an L, or they are two. */
  lemma EatenLs(s: string)
    requires s != [] && Eaten(s) <= |s|
    ensures EndLs(s[..Eaten(s)]) == 0 || EndLs(s[..Eaten(s)]) == 2
  {
  }

  /** Parsing keeps a word canonical and within the rules. */
  lemma {:induction false} ParseCanonical(rules: Rules, s: string, w: bv16)
    requires Canonical(w) && Allowed(rules, w)
    ensures var r := Parse(rules, s, w); r.Bank? ==> Canonical(r.word) && Allowed(rules, r.word)
    decreases |s|
  {
    hide Apply, Canonical, Allowed;
    if s != [] && Eaten(s) <= |s| {
      ApplyCanonical(rules, s, w);
      ParseCanonical(rules, s[Eaten(s)..], Apply(rules, s, w));
    }
  }

  lemma ApplyCanonical(rules: Rules, s: string, w: bv16)
    requires s != [] && Eaten(s) <= |s| && Canonical(w) && Allowed(rules, w)
    ensures Canonical(Apply(rules, s, w)) && Allowed(rules, Apply(rules, s, w))
  {
    hide Canonical, Allowed, Set, Get, Number, Digits, ModsSet;
    forall m: Modifier, val: int |
      val >= 0 && (m == Nuclear ==> val == 1 || val == 3) && (m == Laser ==> val == 1 || val == 2)
      ensures Canonical(ModsSet(rules, w, m, val)) && Allowed(rules, ModsSet(rules, w, m, val))
    {
      SetCanonical(rules, w, m, val);
    }
  }

  lemma SetCanonical(rules: Rules, w: bv16, m: Modifier, val: int)
    requires Canonical(w) && Allowed(rules, w) && val >= 0
    requires (m == Nuclear ==> val == 1 || val == 3) && (m == Laser ==> val == 1 || val == 2)
    ensures Canonical(ModsSet(rules, w, m, val)) && Allowed(rules, ModsSet(rules, w, m, val))
  {
    hide Get, Set;
    SetUnused(w, m, val);
    forall k: Modifier ensures Get(Set(w, m, val), k) == if k == m then Limit(val, 0, Max(m)) else Get(w, k) {
      GetSet(w, m, val, k);
    }
  }

  // ---------- printing ----------

  function Digit(v: int): char
    requires 0 <= v <= 4
  {
    ('0' as int + v) as char
  }

  function Text(w: bv16, m: Modifier): string {
    var v := Get(w, m);
    match m
    case Nuclear => (if v >= 2 then "F" else "") + (if v % 2 == 1 then "N" else "")
    case Cluster => if v != 0 then "C" else ""
    case Implosion => if v != 0 then "I" else ""
    case Velocity => if v != 0 then ['V', Digit(v)] else ""
    case Mini => if v != 0 then ['X', Digit(v + 1)] else ""
    case Spread => if v != 0 then ['Z', Digit(v)] else ""
    case Power => if v != 0 then ['B', Digit(v)] else ""
    case Laser =>
      if v != 0 then "L" + (if v % 2 == 1 then "S" else "") + (if v >= 2 then "B" else "") else ""
  }

  function Spaced(a: string, b: string): string {
    if b == "" then a else if a == "" then b else a + " " + b
  }

  function Letters(w: bv16): string {
    Text(w, Nuclear) + Text(w, Cluster) + Text(w, Implosion)
  }

  function Numbers(w: bv16): string {
    Spaced(Spaced(Spaced(Spaced(Letters(w), Text(w, Velocity)), Text(w, Mini)), Text(w, Spread)), Text(w, Power))
  }

  function Print(w: bv16): string {
    Spaced(Numbers(w), Text(w, Laser))
  }

  // ---------- printing and parsing ----------

  /** The character before it does not take the first one of the string with it. */
  predicate Fresh(b: string) {
    b == [] || (!IsDigit(b[0]) && !IsN(b[0]))
  }

  lemma {:induction false} ParseAppend(rules: Rules, a: string, b: string, w: bv16)
    requires Parse(rules, a, w).Bank? && Fresh(b)
    ensures Parse(rules, a + b, w) == Parse(rules, b, Parse(rules, a, w).word)
    decreases |a|
  {
    hide Apply, Eaten, Parse;
    if a == [] {
      ParseNothing(rules, w);
      assert a + b == b;
    } else {
      BankNoOverrun(rules, a, w);
      FirstOfBoth(rules, a, b, w);
      ParseStep(rules, a, w);
      ParseStep(rules, a + b, w);
      assert (a + b)[Eaten(a)..] == a[Eaten(a)..] + b;
      ParseAppend(rules, a[Eaten(a)..], b, Apply(rules, a, w));
    }
  }

  lemma BankNoOverrun(rules: Rules, s: string, w: bv16)
    requires s != [] && Parse(rules, s, w).Bank?
    ensures Eaten(s) <= |s|
  {
  }

  lemma FirstOfBoth(rules: Rules, a: string, b: string, w: bv16)
    requires a != [] && Eaten(a) <= |a| && Fresh(b)
    ensures Eaten(a + b) == Eaten(a) && Apply(rules, a + b, w) == Apply(rules, a, w)
  {
    hide Effect, Value, Eaten;
    EatenOfBoth(a, b);
    var s := a + b;
    assert s[0] == a[0] && s[1..] == a[1..] + b;
    LTakesTwo(a);
    ValueOfBoth(a[1..], b, 0, 3);
    ValueOfBoth(a[1..], b, 1, 4);
    assert |a| > 1 ==> s[1] == a[1];
    assert |a| == 1 && b != [] ==> s[1] == b[0];
    if |a| == 1 {
      NextIgnored(rules, a[0], Second(s), Second(a), Value(a[1..], 0, 3), Value(a[1..], 1, 4), w);
    }
  }

  lemma NextIgnored(rules: Rules, c: char, n1: char, n2: char, v: int, x: int, w: bv16)
    requires !IsL(c) && !IsN(n1) && !IsN(n2)
    ensures Effect(rules, c, n1, v, x, w) == Effect(rules, c, n2, v, x, w)
  {
    hide ModsSet;
  }

  lemma LTakesTwo(a: string)
    requires a != [] && Eaten(a) <= |a|
    ensures IsL(a[0]) ==> |a| > 1
  {
  }

  lemma EatenOfBoth(a: string, b: string)
    requires a != [] && Fresh(b)
    ensures Eaten(a + b) == Eaten(a)
  {
    hide Digits;
    assert (a + b)[0] == a[0] && (a + b)[1..] == a[1..] + b;
    DigitsOfBoth(a[1..], b);
  }

  lemma ValueOfBoth(a: string, b: string, lo: int, hi: int)
    requires Fresh(b)
    ensures Value(a + b, lo, hi) == Value(a, lo, hi)
  {
    DigitsOfBoth(a, b);
    assert (a + b)[..Digits(a)] == a[..Digits(a)];
  }

  lemma {:induction false} DigitsOfBoth(a: string, b: string)
    requires Fresh(b)
    ensures Digits(a + b) == Digits(a)
  {
    if a == [] {
      assert a + b == b;
    } else {
      assert (a + b)[1..] == a[1..] + b;
      if IsDigit(a[0]) {
        DigitsOfBoth(a[1..], b);
      }
    }
  }

  /** A value that the modifier can have in a canonical word. */
  predicate Fitting(m: Modifier, v: int) {
    0 <= v <= Max(m) && (m == Nuclear ==> v != 2)
  }

  lemma TextFresh(w: bv16, m: Modifier)
    ensures m != Nuclear ==> Fresh(Text(w, m)) && Fresh(" " + Text(w, m))
  {
    hide Get;
  }

  /** The text of one modifier sets it to the value it has, if the rules allow it. */
  lemma ParseText(rules: Rules, w: bv16, m: Modifier, u: bv16)
    requires Fitting(m, Get(w, m)) && Get(u, m) == 0
    ensures Parse(rules, Text(w, m), u) == Bank(if Get(w, m) == 0 then u else ModsSet(rules, u, m, Get(w, m)))
  {
    var v := Get(w, m);
    hide Get, ModsSet, Parse, Digit;
    ParseNothing(rules, u);
    assert "" + "" == "" && "" + "N" == "N";
    if v != 0 {
      match m
      case Nuclear => ParseNuclear(rules, v, u);
      case Cluster => ParseLetter(rules, u);
      case Implosion => ParseLetter(rules, u);
      case Laser => ParseLaser(rules, v, u);
      case Mini => ParseNumber(rules, 'X', v + 1, m, v, u);
      case Velocity => ParseNumber(rules, 'V', v, m, v, u);
      case Spread => ParseNumber(rules, 'Z', v, m, v, u);
      case Power => ParseNumber(rules, 'B', v, m, v, u);
    }
  }

  lemma ParseLetter(rules: Rules, u: bv16)
    ensures Parse(rules, "C", u) == Bank(ModsSet(rules, u, Cluster, 1))
    ensures Parse(rules, "I", u) == Bank(ModsSet(rules, u, Implosion, 1))
  {
    hide Get, ModsSet, Parse;
    ParseAll(rules, "C", u);
    ParseAll(rules, "I", u);
  }

  lemma ParseNothing(rules: Rules, u: bv16)
    ensures Parse(rules, "", u) == Bank(u)
  {
  }

  lemma ParseNuclear(rules: Rules, v: int, u: bv16)
    requires (v == 1 || v == 3) && Get(u, Nuclear) == 0
    ensures v == 1 ==> Parse(rules, "N", u) == Bank(ModsSet(rules, u, Nuclear, 1))
    ensures v == 3 ==> Parse(rules, "F" + "N", u) == Bank(ModsSet(rules, u, Nuclear, 3))
  {
    hide Get, Set, Parse;
    if v == 1 {
      ParseAll(rules, "N", u);
    } else {
      var s, u1 := "FN", ModsSet(rules, u, Nuclear, 3);
      assert "F" + "N" == s && s[1..] == "N";
      ParseStep(rules, s, u);
      ParseAll(rules, "N", u1);
      GetSet(u, Nuclear, 3, Nuclear);
    }
  }

  lemma ParseLaser(rules: Rules, v: int, u: bv16)
    requires v == 1 || v == 2
    ensures v == 1 ==> Parse(rules, "L" + "S" + "", u) == Bank(ModsSet(rules, u, Laser, 1))
    ensures v == 2 ==> Parse(rules, "L" + "" + "B", u) == Bank(ModsSet(rules, u, Laser, 2))
  {
    hide ModsSet, Parse;
    if v == 1 {
      assert "L" + "S" + "" == "LS";
      ParseAll(rules, "LS", u);
    } else {
      assert "L" + "" + "B" == "LB";
      ParseAll(rules, "LB", u);
    }
  }

  lemma ParseNumber(rules: Rules, c: char, d: int, m: Modifier, v: int, u: bv16)
    requires 1 <= v <= 3 && d == v + if m == Mini then 1 else 0
    requires (m, c) == (Velocity, 'V') || (m, c) == (Mini, 'X') || (m, c) == (Spread, 'Z') || (m, c) == (Power, 'B')
    ensures Parse(rules, [c, Digit(d)], u) == Bank(ModsSet(rules, u, m, v))
  {
    hide ModsSet, Parse, Value, Digits, Digit, Get;
    var s := [c, Digit(d)];
    assert s[1..] == [Digit(d)];
    OneDigit(d);
    ParseAll(rules, s, u);
  }

  lemma OneDigit(d: int)
    requires 0 <= d <= 4
    ensures Digits([Digit(d)]) == 1
    ensures Value([Digit(d)], 0, 3) == Limit(d, 0, 3) && Value([Digit(d)], 1, 4) == Limit(d, 1, 4)
  {
    var s := [Digit(d)];
    assert s[..1] == s && s[..0] == [] && s[1..] == [];
    assert Number([]) == 0;
    assert Number(s) == d;
  }

  /** The words in turn when the texts of the modifiers are parsed one after the other. */
  function Turn(rules: Rules, w: bv16, u: bv16, m: Modifier): bv16 {
    if Get(w, m) == 0 then u else ModsSet(rules, u, m, Get(w, m))
  }

  lemma ParseNext(rules: Rules, a: string, w: bv16, m: Modifier, u: bv16, v: bv16)
    requires Parse(rules, a, u) == Bank(v) && Fitting(m, Get(w, m)) && Get(v, m) == 0 && m != Nuclear
    ensures Parse(rules, a + Text(w, m), u) == Bank(Turn(rules, w, v, m))
    ensures Parse(rules, Spaced(a, Text(w, m)), u) == Bank(Turn(rules, w, v, m))
  {
    hide Get, Text, ModsSet, Fitting;
    var b := Text(w, m);
    TextFresh(w, m);
    ParseText(rules, w, m, v);
    ParseAppend(rules, a, b, u);
    ParseAppend(rules, a, " " + b, u);
    SpaceIgnored(rules, b, v);
    hide Parse, Fresh, Turn;
    assert a + " " + b == a + (" " + b);
    assert b == "" ==> a + b == a;
    assert a == "" ==> a + b == b;
  }

  lemma SpaceIgnored(rules: Rules, b: string, v: bv16)
    ensures Parse(rules, " " + b, v) == Parse(rules, b, v)
  {
    hide Parse;
    var s := " " + b;
    assert s[0] == ' ' && s[1..] == b;
    SpaceStep(rules, s, v);
    ParseStep(rules, s, v);
  }

  lemma SpaceStep(rules: Rules, s: string, v: bv16)
    requires s != [] && s[0] == ' '
    ensures Eaten(s) == 1 && Apply(rules, s, v) == v
  {
  }

  lemma ParseStep(rules: Rules, s: string, v: bv16)
    requires s != [] && Eaten(s) <= |s|
    ensures Parse(rules, s, v) == Parse(rules, s[Eaten(s)..], Apply(rules, s, v))
  {
    hide Apply, Eaten;
  }

  lemma ParseAll(rules: Rules, s: string, v: bv16)
    requires s != [] && Eaten(s) == |s|
    ensures Parse(rules, s, v) == Bank(Apply(rules, s, v))
  {
    hide Apply, Eaten;
    assert s[|s|..] == [];
  }

  function Place(m: Modifier): nat {
    match m
    case Nuclear => 0
    case Cluster => 1
    case Implosion => 2
    case Velocity => 3
    case Mini => 4
    case Spread => 5
    case Power => 6
    case Laser => 7
  }

  /** Word u has what the rules allow of the first n modifiers of w, and no others. */
  predicate Partly(rules: Rules, w: bv16, u: bv16, n: nat) {
    && u & 0xC000 == 0
    && forall k: Modifier :: Get(u, k) == if Place(k) < n && rules.Allow(k, 1) then Get(w, k) else 0
  }

  lemma NextTurn(rules: Rules, w: bv16, u: bv16, m: Modifier)
    requires Fitting(m, Get(w, m)) && Partly(rules, w, u, Place(m))
    ensures Get(u, m) == 0 && Partly(rules, w, Turn(rules, w, u, m), Place(m) + 1)
  {
    hide Get, Set;
    var v := Get(w, m);
    SetUnused(u, m, v);
    forall k: Modifier
      ensures Get(Set(u, m, v), k) == if k == m then v else Get(u, k)
    {
      GetSet(u, m, v, k);
    }
    assert Get(u, m) == 0;
  }

  lemma NothingYet(rules: Rules, w: bv16)
    ensures Partly(rules, w, 0, 0)
  {
    forall k: Modifier ensures Get(0, k) == 0 {
      NoBits(Low(k));
      NoBits(High(k));
    }
  }

  lemma NoBits(b: bv16)
    ensures 0 & b == 0
  {
  }

  lemma FittingCanonical(w: bv16, m: Modifier)
    requires Canonical(w)
    ensures Fitting(m, Get(w, m))
  {
    NoBits(w);
  }

  /** What a canonical word prints as is parsed as what the rules allow of it. */
  lemma ParsePrint(rules: Rules, w: bv16)
    requires Canonical(w)
    ensures Parse(rules, Print(w), 0) == Bank(Filter(rules, w))
  {
    hide Get, Text, Parse, Filter, Turn, Spaced, Fitting, Canonical, Partly;
    forall m: Modifier ensures Fitting(m, Get(w, m)) {
      FittingCanonical(w, m);
    }
    NothingYet(rules, w);
    NextTurn(rules, w, 0, Nuclear);
    var u1 := Turn(rules, w, 0, Nuclear);
    NextTurn(rules, w, u1, Cluster);
    var u2 := Turn(rules, w, u1, Cluster);
    NextTurn(rules, w, u2, Implosion);
    var u3 := Turn(rules, w, u2, Implosion);
    FirstTurn(rules, w);
    var s1 := Text(w, Nuclear);
    ParseNext(rules, s1, w, Cluster, 0, u1);
    ParseNext(rules, s1 + Text(w, Cluster), w, Implosion, 0, u2);
    ParseRest(rules, w, u3);
  }

  lemma FirstTurn(rules: Rules, w: bv16)
    requires Fitting(Nuclear, Get(w, Nuclear)) && Get(0, Nuclear) == 0
    ensures Parse(rules, Text(w, Nuclear), 0) == Bank(Turn(rules, w, 0, Nuclear))
  {
    hide Get, Text, Parse;
    ParseText(rules, w, Nuclear, 0);
  }

  lemma ParseRest(rules: Rules, w: bv16, u3: bv16)
    requires Canonical(w) && Partly(rules, w, u3, 3) && Parse(rules, Letters(w), 0) == Bank(u3)
    ensures Parse(rules, Print(w), 0) == Bank(Filter(rules, w))
  {
    hide Get, Text, Parse, Filter, Turn, Spaced, Fitting, Canonical, Partly, Letters;
    forall m: Modifier ensures Fitting(m, Get(w, m)) {
      FittingCanonical(w, m);
    }
    NextTurn(rules, w, u3, Velocity);
    var u4 := Turn(rules, w, u3, Velocity);
    NextTurn(rules, w, u4, Mini);
    var u5 := Turn(rules, w, u4, Mini);
    NextTurn(rules, w, u5, Spread);
    var u6 := Turn(rules, w, u5, Spread);
    NextTurn(rules, w, u6, Power);
    var u7 := Turn(rules, w, u6, Power);
    NextTurn(rules, w, u7, Laser);
    var u8 := Turn(rules, w, u7, Laser);
    var s4 := Spaced(Letters(w), Text(w, Velocity));
    var s5 := Spaced(s4, Text(w, Mini));
    var s6 := Spaced(s5, Text(w, Spread));
    var s7 := Spaced(s6, Text(w, Power));
    ParseNext(rules, Letters(w), w, Velocity, 0, u3);
    ParseNext(rules, s4, w, Mini, 0, u4);
    ParseNext(rules, s5, w, Spread, 0, u5);
    ParseNext(rules, s6, w, Power, 0, u6);
    ParseNext(rules, s7, w, Laser, 0, u7);
    AllIsFilter(rules, w, u8);
  }

  lemma AllIsFilter(rules: Rules, w: bv16, u: bv16)
    requires Canonical(w) && Partly(rules, w, u, 8)
    ensures u == Filter(rules, w)
  {
    hide Get, Filter;
    GetFilter(rules, w, Nuclear);
    forall k: Modifier ensures Get(u, k) == Get(Filter(rules, w), k) {
      GetFilter(rules, w, k);
    }
    SameWord(u, Filter(rules, w));
  }

  /** Whatever a string is parsed as, printing and parsing that gives it again. */
  lemma ParsePrintParse(rules: Rules, s: string)
    ensures var r := Parse(rules, s, 0);
            r.Bank? ==> Parse(rules, Print(r.word), 0) == r && Filter(rules, r.word) == r.word
  {
    hide Get, Parse, Print, Filter;
    NothingYet(rules, 0);
    var r := Parse(rules, s, 0);
    NoBits(0xC000);
    ParseCanonical(rules, s, 0);
    if r.Bank? {
      FilterFixes(rules, r.word);
      ParsePrint(rules, r.word);
    }
  }

  // ---------- with the characters written out ----------

  /** How each modifier is written. */
  lemma LettersWritten()
    ensures Text(0x0001, Nuclear) == "N" && Text(0x0003, Nuclear) == "FN"
    ensures Text(0x0004, Cluster) == "C" && Text(0x0008, Implosion) == "I"
    ensures Text(0x0010, Velocity) == "V1" && Text(0x0040, Mini) == "X2"
    ensures Text(0x0100, Spread) == "Z1" && Text(0x0400, Power) == "B1"
    ensures Text(0x1000, Laser) == "LS" && Text(0x2000, Laser) == "LB"
  {
  }

  /** All modifiers at their most, in the order in which they are written. */
  lemma AllWritten()
    ensures Print(0x2FFF) == "FNCI V3 X4 Z3 B3 LB"
  {
  }

  lemma WhichModifiers()
    ensures Get(0x0003, Nuclear) == 3 && Get(0x0004, Cluster) == 1 && Get(0x0008, Implosion) == 1
    ensures Get(0x0020, Velocity) == 2 && Get(0x0040, Mini) == 1 && Get(0x0200, Spread) == 2
    ensures Get(0x0400, Power) == 1 && Get(0x2000, Laser) == 2
  {
  }
}
