/** The program that sets, prints and parses weapon modifiers (src/server/modifiers.c). */
module Modifiers {
  import opened ModWord
  import opened ModText

  /** Sets a modifier if that is allowed; returns 0 then, otherwise -1. */
  method ModsSetOrFail(rules: Rules, mods: bv16, m: Modifier, val: int) returns (result: int, now: bv16)
    ensures result == if rules.Allow(m, val) then 0 else -1
    ensures forall k: Modifier :: Get(now, k) == if k == m && result == 0 then Limit(val, 0, Max(m)) else Get(mods, k)
    ensures now == ModsSet(rules, mods, m, val) && now & 0xC000 == mods & 0xC000
  {
    var allow := false;
    if val == 0 {
      allow := true;
    } else if m == Nuclear {
      if rules.nukes {
        allow := true;
      }
    } else if m == Cluster {
      if rules.clusters {
        allow := true;
      }
    } else if m == Laser {
      if rules.lasers {
        allow := true;
      }
    } else {
      if rules.modifiers {
        allow := true;
      }
    }
    forall k: Modifier ensures Get(Set(mods, m, val), k) == if k == m then Limit(val, 0, Max(m)) else Get(mods, k) {
      GetSet(mods, m, val, k);
    }
    SetUnused(mods, m, val);
    if !allow {
      return -1, mods;
    }
    return 0, Set(mods, m, val);
  }

  lemma {:induction false} DigitsAre(s: string, n: nat)
    requires n <= |s| && (forall k | 0 <= k < n :: IsDigit(s[k])) && (n < |s| ==> !IsDigit(s[n]))
    ensures Digits(s) == n
  {
    if n > 0 {
      DigitsAre(s[1..], n - 1);
    }
  }

  /** Reads a number and goes behind it. */
  method Str2Num(s: string, start: nat, lo: int, hi: int) returns (num: int, cp: nat)
    requires start <= |s|
    ensures cp == start + Digits(s[start..]) && num == Value(s[start..], lo, hi)
  {
    hide Wrap32;
    num := 0;
    cp := start;
    while cp < |s| && IsDigit(s[cp])
      invariant start <= cp <= |s| && num == Number(s[start..cp])
      invariant forall k | start <= k < cp :: IsDigit(s[k])
    {
      assert s[start..cp + 1][..cp - start] == s[start..cp];
      num := Wrap32(num * 10);
      num := Wrap32(num + (s[cp] as int - '0' as int));
      cp := cp + 1;
    }
    DigitsAre(s[start..], cp - start);
    assert s[start..][..cp - start] == s[start..cp];
    num := Limit(num, lo, hi);
  }

  class Player {
    var modbank: array<bv16>

    /** Parses a string into one of the banks, unless there is no such bank. The
        result says whether the end of the string was overrun; what the program
        does then is not known. */
    method SetModbank(rules: Rules, bank: nat, str: string) returns (overrun: bool)
      requires modbank.Length == 4
      modifies modbank
      ensures bank >= 4 ==> !overrun && modbank[..] == old(modbank[..])
      ensures bank < 4 ==>
                && (overrun <==> EndLs(str) % 2 == 1)
                && (forall k | 0 <= k < 4 && k != bank :: modbank[k] == old(modbank[k]))
                && (!overrun ==> Parse(rules, str, 0) == Bank(modbank[bank]))
    {
      hide Parse, Eaten, EndLs, Apply;
      overrun := false;
      if bank >= modbank.Length {
        return;
      }
      var mods: bv16 := 0;
      var cp := 0;
      OverrunIff(rules, str, 0);
      assert str[0..] == str;
      while cp < |str|
        invariant 0 <= cp <= |str|
        invariant Parse(rules, str[cp..], mods) == Parse(rules, str, 0)
        modifies {}
      {
        ghost var rest := str[cp..];
        ParseOver(rules, rest, mods);
        if IsL(str[cp]) && cp + 1 == |str| {
          return true;
        }
        ParseStep(rules, rest, mods);
        assert str[cp + Eaten(rest)..] == rest[Eaten(rest)..];
        cp, mods := OneCommand(rules, str, cp, mods);
      }
      assert str[cp..] == "";
      ParseNothing(rules, mods);
      modbank[bank] := mods;
    }
  }

  lemma ParseOver(rules: Rules, s: string, w: bv16)
    requires s != []
    ensures if IsL(s[0]) && |s| == 1 then Parse(rules, s, w) == Overrun else Eaten(s) <= |s|
  {
    hide Apply;
  }

  /** Obeys the character at cp and goes on to the next one. */
  method OneCommand(rules: Rules, str: string, cp: nat, mods: bv16) returns (next: nat, now: bv16)
    requires cp < |str| && Eaten(str[cp..]) <= |str| - cp
    ensures next == cp + Eaten(str[cp..]) && now == Apply(rules, str[cp..], mods)
  {
    hide ModsSet, Digits, Value, Get;
    ghost var rest := str[cp..];
    assert rest[0] == str[cp] && rest[1..] == str[cp + 1..];
    LTakesTwo(rest);
    assert Second(rest) == if cp + 1 < |str| then str[cp + 1] else '\0';
    next, now := cp, mods;
    var result;
    match str[cp] {
      case 'F' | 'f' =>
        if cp + 1 < |str| && IsN(str[cp + 1]) {
          result, now := ModsSetOrFail(rules, mods, Nuclear, NUCLEAR + FULLNUCLEAR);
        }
      case 'N' | 'n' =>
        if Get(mods, Nuclear) == 0 {
          result, now := ModsSetOrFail(rules, mods, Nuclear, NUCLEAR);
        }
      case 'C' | 'c' =>
        result, now := ModsSetOrFail(rules, mods, Cluster, 1);
      case 'I' | 'i' =>
        result, now := ModsSetOrFail(rules, mods, Implosion, 1);
      case 'V' | 'v' =>
        next := next + 1;
        var velocity;
        velocity, next := Str2Num(str, next, 0, 3);
        result, now := ModsSetOrFail(rules, mods, Velocity, velocity);
        next := next - 1;
      case 'X' | 'x' =>
        next := next + 1;
        var mini;
        mini, next := Str2Num(str, next, 1, 4);
        result, now := ModsSetOrFail(rules, mods, Mini, mini - 1);
        next := next - 1;
      case 'Z' | 'z' =>
        next := next + 1;
        var spread;
        spread, next := Str2Num(str, next, 0, 3);
        result, now := ModsSetOrFail(rules, mods, Spread, spread);
        next := next - 1;
      case 'B' | 'b' =>
        next := next + 1;
        var power;
        power, next := Str2Num(str, next, 0, 3);
        result, now := ModsSetOrFail(rules, mods, Power, power);
        next := next - 1;
      case 'L' | 'l' =>
        next := next + 1;
        if str[next] == 'S' || str[next] == 's' {
          result, now := ModsSetOrFail(rules, now, Laser, LASER_STUN);
        }
        if str[next] == 'B' || str[next] == 'b' {
          result, now := ModsSetOrFail(rules, now, Laser, LASER_BLIND);
        }
      case _ =>
    }
    next := next + 1;
  }

  method Append(modstr: array<char>, i: nat, c: char, ghost text: string) returns (next: nat)
    requires i == |text| && i + 1 < modstr.Length && modstr[..i] == text
    modifies modstr
    ensures next == i + 1 && modstr[..next] == text + [c]
    ensures forall k | next <= k < modstr.Length :: modstr[k] == old(modstr[k])
  {
    modstr[i] := c;
    next := i + 1;
    assert modstr[..next] == modstr[..i] + [c];
  }

  /** Appends the text of a modifier that has a number, after a blank if it is not the first. */
  method AppendNumber(modstr: array<char>, i: nat, c: char, v: int, ghost text: string) returns (next: nat)
    requires 0 <= v <= 4 && i == |text| && i + 3 < modstr.Length && modstr[..i] == text
    modifies modstr
    ensures next == |Spaced(text, [c, Digit(v)])| && modstr[..next] == Spaced(text, [c, Digit(v)])
    ensures next <= i + 3 && forall k | next <= k < modstr.Length :: modstr[k] == old(modstr[k])
  {
    next := i;
    ghost var now := text;
    if next != 0 {
      next := Append(modstr, next, ' ', now);
      now := now + [' '];
    }
    next := Append(modstr, next, c, now);
    now := now + [c];
    next := Append(modstr, next, Digit(v), now);
    assert now + [Digit(v)] == Spaced(text, [c, Digit(v)]);
  }

  method AppendLetters(modstr: array<char>, mods: bv16) returns (i: nat)
    requires modstr.Length >= MAX_CHARS
    modifies modstr
    ensures i == |Letters(mods)| <= 4 && modstr[..i] == Letters(mods)
    ensures forall k | i <= k < modstr.Length :: modstr[k] == old(modstr[k])
  {
    hide Get;
    i := 0;
    ghost var text := "";
    var t := Get(mods, Nuclear);
    if t / 2 % 2 == 1 {
      i := Append(modstr, i, 'F', text);
      text := text + "F";
    }
    if t % 2 == 1 {
      i := Append(modstr, i, 'N', text);
      text := text + "N";
    }
    assert text == Text(mods, Nuclear);
    if Get(mods, Cluster) != 0 {
      i := Append(modstr, i, 'C', text);
      text := text + "C";
    }
    assert text == Text(mods, Nuclear) + Text(mods, Cluster);
    if Get(mods, Implosion) != 0 {
      i := Append(modstr, i, 'I', text);
      text := text + "I";
    }
    assert text == Letters(mods);
  }

  /** Appends the text of the laser modifier. */
  method AppendLaser(modstr: array<char>, start: nat, mods: bv16, ghost text: string) returns (i: nat)
    requires start == |text| && start + 4 < modstr.Length && modstr[..start] == text
    modifies modstr
    ensures start <= i == |Spaced(text, Text(mods, Laser))| <= start + 4
            && modstr[..i] == Spaced(text, Text(mods, Laser))
    ensures forall k | i <= k < modstr.Length :: modstr[k] == old(modstr[k])
  {
    hide Get;
    i := start;
    var t := Get(mods, Laser);
    ghost var now := text;
    if t != 0 {
      if i != 0 {
        i := Append(modstr, i, ' ', now);
        now := now + " ";
      }
      i := Append(modstr, i, 'L', now);
      now := now + "L";
      if t % 2 == 1 {
        i := Append(modstr, i, 'S', now);
        now := now + "S";
      }
      if t / 2 % 2 == 1 {
        i := Append(modstr, i, 'B', now);
        now := now + "B";
      }
      assert now == Spaced(text, Text(mods, Laser));
    }
  }

  /** Appends the text of a modifier with a number, if it is set. */
  method AppendModifier(modstr: array<char>, start: nat, mods: bv16, m: Modifier, c: char, extra: nat,
                        ghost text: string)
    returns (i: nat)
    requires start == |text| && start + 3 < modstr.Length && modstr[..start] == text && extra <= 1
    requires Get(mods, m) != 0 ==> Text(mods, m) == [c, Digit(Get(mods, m) + extra)]
    requires Get(mods, m) == 0 ==> Text(mods, m) == ""
    modifies modstr
    ensures start <= i == |Spaced(text, Text(mods, m))| <= start + 3 && modstr[..i] == Spaced(text, Text(mods, m))
    ensures forall k | i <= k < modstr.Length :: modstr[k] == old(modstr[k])
  {
    hide Get, Text;
    i := start;
    var t := Get(mods, m);
    if t != 0 {
      i := AppendNumber(modstr, i, c, t + extra, text);
    }
  }

  /** Prints the modifiers into a buffer that has room for MAX_CHARS characters. */
  method ModsToString(mods: bv16, modstr: array<char>, size: nat)
    requires size <= modstr.Length
    modifies modstr
    ensures size < MAX_CHARS ==> modstr[..] == old(modstr[..])
    ensures size >= MAX_CHARS ==>
              && |Print(mods)| <= 20
              && modstr[..|Print(mods)|] == Print(mods) && modstr[|Print(mods)|] == '\0'
              && forall k | |Print(mods)| < k < modstr.Length :: modstr[k] == old(modstr[k])
  {
    if size < MAX_CHARS {
      return;
    }
    hide Get, Text, Letters, Spaced, Numbers;
    var i := AppendLetters(modstr, mods);
    i := AppendNumbers(modstr, i, mods);
    i := AppendLaser(modstr, i, mods, Numbers(mods));
    modstr[i] := '\0';
  }

  method AppendNumbers(modstr: array<char>, start: nat, mods: bv16) returns (i: nat)
    requires start == |Letters(mods)| && start + 12 < modstr.Length && modstr[..start] == Letters(mods)
    modifies modstr
    ensures start <= i == |Numbers(mods)| <= start + 12 && modstr[..i] == Numbers(mods)
    ensures forall k | i <= k < modstr.Length :: modstr[k] == old(modstr[k])
  {
    hide Get, Text, Letters, Spaced;
    NumberText(mods, Velocity, 'V', 0);
    i := AppendModifier(modstr, start, mods, Velocity, 'V', 0, Letters(mods));
    ghost var s1 := Spaced(Letters(mods), Text(mods, Velocity));
    NumberText(mods, Mini, 'X', 1);
    i := AppendModifier(modstr, i, mods, Mini, 'X', 1, s1);
    ghost var s2 := Spaced(s1, Text(mods, Mini));
    NumberText(mods, Spread, 'Z', 0);
    i := AppendModifier(modstr, i, mods, Spread, 'Z', 0, s2);
    ghost var s3 := Spaced(s2, Text(mods, Spread));
    NumberText(mods, Power, 'B', 0);
    i := AppendModifier(modstr, i, mods, Power, 'B', 0, s3);
  }

  lemma NumberText(w: bv16, m: Modifier, c: char, extra: nat)
    requires (m, c, extra) == (Velocity, 'V', 0) || (m, c, extra) == (Mini, 'X', 1)
             || (m, c, extra) == (Spread, 'Z', 0) || (m, c, extra) == (Power, 'B', 0)
    ensures Text(w, m) == if Get(w, m) == 0 then "" else [c, Digit(Get(w, m) + extra)]
  {
    hide Get;
  }
}
