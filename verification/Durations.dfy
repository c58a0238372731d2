/**
 The age a prune selects by: durations read component by component in nanoseconds, whole
 days and weeks, dates, and the instant an age bounds back from now.
 */
module Durations {
  import opened Wrappers
  import opened Tasks
  import opened Calendar
  import Text

  const I64_MAX := 0x7FFF_FFFF_FFFF_FFFF
  const I64_MIN := -0x8000_0000_0000_0000
  const I128_MAX := 0x7FFF_FFFF_FFFF_FFFF_FFFF_FFFF_FFFF_FFFF
  const NANOS_PER_SECOND := 1_000_000_000

  // ----- components

  /** A number and its unit, as spelled: whether a point stands between whole and fraction too. */
  datatype Component = Component(whole: string, point: bool, fraction: string, unit: string)

  /** How many nanoseconds a unit is; 0 for what is none. */
  function Scale(unit: string): nat {
    if unit == "ns" then 1
    else if unit == "us" || unit == "\U{00B5}s" || unit == "\U{03BC}s" then 1_000
    else if unit == "ms" then 1_000_000
    else if unit == "s" then 1_000_000_000
    else if unit == "m" then 60_000_000_000
    else if unit == "h" then 3_600_000_000_000
    else 0
  }

  predicate WellFormed(c: Component) {
    && Digits(c.whole) && Digits(c.fraction) && (c.whole != "" || c.fraction != "")
    && (!c.point ==> c.fraction == "") && Scale(c.unit) > 0
  }

  /** How many of the first characters are digits. */
  function DigitRun(s: string): (n: nat)
    ensures n <= |s| && Digits(s[..n]) && (n < |s| ==> !Digit(s[n]))
  {
    if s == "" || !Digit(s[0]) then 0 else
      assert forall i :: 0 < i < |s| ==> s[i] == s[1..][i - 1];
      1 + DigitRun(s[1..])
  }

  /** How many of the first characters spell a unit: up to a digit or a point. */
  function UnitRun(s: string): (n: nat)
    ensures n <= |s| && (n < |s| ==> Digit(s[n]) || s[n] == '.')
    ensures forall i :: 0 <= i < n ==> !Digit(s[i]) && s[i] != '.'
  {
    if s == "" || Digit(s[0]) || s[0] == '.' then 0 else
      assert forall i :: 0 < i < |s| ==> s[i] == s[1..][i - 1];
      1 + UnitRun(s[1..])
  }

  /** What follows a number's whole digits: its fraction, if it has a point, its unit, and the rest. */
  function AfterPoint(tail: string, point: bool): (parts: (string, string, string))
    ensures Digits(parts.0) && (!point ==> parts.0 == "") && |parts.0| + |parts.1| + |parts.2| == |tail|
  {
    var f := if point then DigitRun(tail) else 0;
    var u := UnitRun(tail[f..]);
    (tail[..f], tail[f..][..u], tail[f..][u..])
  }

  /** The first component of `rest`, and what follows it. */
  function Head(rest: string): (head: (Component, string))
    ensures Digits(head.0.whole) && Digits(head.0.fraction) && (!head.0.point ==> head.0.fraction == "")
    ensures |head.1| <= |rest| && (head.0.whole != "" || head.0.fraction != "" ==> |head.1| < |rest|)
  {
    var n := DigitRun(rest);
    var after := rest[n..];
    var point := after != "" && after[0] == '.';
    var (fraction, unit, left) := AfterPoint(if point then after[1..] else after, point);
    (Component(rest[..n], point, fraction, unit), left)
  }

  /** The components of `rest`, if it is nothing else. */
  function Components(rest: string): (components: Option<seq<Component>>)
    ensures components.Some? ==> AllWellFormed(components.value)
    decreases |rest|
  {
    if rest == "" then NoneIllFormed(); Some([]) else
    WellFormedShortens(rest);
    hide Head, WellFormed, AllWellFormed;
    var (c, after) := Head(rest);
    if !WellFormed(c) then None else
    match Components(after)
    case None => None
    case Some(more) => Prepended(c, more); Some([c] + more)
  }

  lemma NoneIllFormed()
    ensures AllWellFormed([])
  {
  }

  lemma Prepended(c: Component, more: seq<Component>)
    requires WellFormed(c) && AllWellFormed(more)
    ensures AllWellFormed([c] + more)
  {
    hide WellFormed;
  }

  // ----- what components come to

  /** What a digit stands for at the `k`th place of a fraction, cut to whole nanoseconds. */
  function Place(scale: nat, k: nat): nat {
    if k == 0 then scale else Place(scale, k - 1) / 10
  }

  /** A fraction's digits in nanoseconds, each cut. */
  function Part(scale: nat, fraction: string): nat
    requires Digits(fraction)
  {
    if fraction == "" then 0
    else
      var last := |fraction| - 1;
      Part(scale, fraction[..last]) + (fraction[last] - '0') as nat * Place(scale, |fraction|)
  }

  function Nanos(c: Component): nat
    requires WellFormed(c)
  {
    Value(c.whole) * Scale(c.unit) + Part(Scale(c.unit), c.fraction)
  }

  predicate AllWellFormed(components: seq<Component>) {
    forall i :: 0 <= i < |components| ==> WellFormed(components[i])
  }

  function Total(components: seq<Component>): nat
    requires AllWellFormed(components)
  {
    if components == [] then 0 else Nanos(components[0]) + Total(components[1..])
  }

  /** A duration: an optional sign, then "0" or components that an int64 of nanoseconds holds. */
  function DurationOf(text: string): Option<int> {
    if text == "" then None else
    var sign := if text[0] == '-' then -1 else 1;
    var rest := if text[0] in {'-', '+'} then text[1..] else text;
    if rest == "0" then Some(0)
    else if rest == "" then None
    else
      match Components(rest)
      case None => None
      case Some(components) => if Total(components) > I64_MAX then None else Some(sign * Total(components))
  }

  // ----- the reader, in checked 128-bit arithmetic

  function Checked(n: int): Option<int> {
    if n > I128_MAX || n < -I128_MAX - 1 then None else Some(n)
  }

  /** A digit at the next place, and what that place leaves, are within the place before. */
  lemma DigitFits(digit: nat, place: nat)
    requires digit <= 9
    ensures digit * (place / 10) + place / 10 <= place
  {
    DigitTimes(digit, place / 10);
  }

  /** The digits of a fraction, one place after another: their sum, never checked, stays within the unit. */
  method ReadFraction(scale: nat, fraction: string) returns (part: nat)
    requires Digits(fraction)
    ensures part == Part(scale, fraction) && part <= scale
  {
    part := 0;
    var place := scale;
    for i := 0 to |fraction|
      invariant part == Part(scale, fraction[..i]) && place == Place(scale, i)
      invariant part + place <= scale
    {
      assert fraction[..i + 1][..i] == fraction[..i];
      var digit := (fraction[i] - '0') as nat;
      DigitFits(digit, place);
      place := place / 10;
      part := part + digit * place;
    }
    assert fraction[..|fraction|] == fraction;
  }

  method Duration(text: string) returns (nanos: Option<int>)
    ensures nanos == DurationOf(text)
  {
    hide Head, Nanos, WellFormed;
    if text == "" {
      return None;
    }
    var sign, rest := 1, text;
    if text[0] == '-' {
      sign, rest := -1, text[1..];
    } else if text[0] == '+' {
      rest := text[1..];
    }
    if rest == "0" {
      return Some(0);
    }
    if rest == "" {
      return None;
    }
    ghost var all := rest;
    var total: int := 0;
    while rest != ""
      invariant Goes(all, total, rest)
      decreases |rest|
    {
      var (c, after) := Head(rest);
      var read := Add(total, c);
      AfterComponent(all, total, rest);
      WellFormedShortens(rest);
      if read.None? {
        return None;
      }
      total := read.value;
      rest := after;
    }
    nanos := Some(sign * total);
  }

  /** What is read of `all` once its components up to `rest` came to `total`. */
  predicate Goes(all: string, total: int, rest: string) {
    && 0 <= total <= I64_MAX
    && (Components(rest).None? ==> Components(all).None?)
    && (Components(rest).Some? ==>
          Components(all).Some? && Total(Components(all).value) == total + Total(Components(rest).value))
  }

  lemma WellFormedShortens(rest: string)
    ensures WellFormed(Head(rest).0) ==> |Head(rest).1| < |rest|
  {
  }

  lemma TotalFirst(c: Component, more: seq<Component>)
    requires WellFormed(c) && AllWellFormed(more)
    ensures AllWellFormed([c] + more) && Total([c] + more) == Nanos(c) + Total(more)
  {
    hide WellFormed, Nanos;
    assert ([c] + more)[1..] == more;
  }

  /** What one component of what is left makes of the whole reading. */
  lemma AfterComponent(all: string, total: int, rest: string)
    requires rest != "" && Goes(all, total, rest)
    ensures var (c, after) := Head(rest);
            if !WellFormed(c) then Components(all).None?
            else if total + Nanos(c) <= I64_MAX then Goes(all, total + Nanos(c), after)
            else Components(all).Some? ==> Total(Components(all).value) > I64_MAX
  {
    hide Head, WellFormed, Nanos, Total;
    var (c, after) := Head(rest);
    if WellFormed(c) && Components(after).Some? {
      TotalFirst(c, Components(after).value);
    }
  }

  lemma ScaleGrows(n: nat, scale: nat)
    requires scale > 0
    ensures n <= n * scale
  {
  }

  /** One component more, refused once an int64 cannot hold it. */
  method Add(total: int, c: Component) returns (sum: Option<int>)
    requires 0 <= total <= I64_MAX && Digits(c.whole) && Digits(c.fraction) && (!c.point ==> c.fraction == "")
    ensures sum == if !WellFormed(c) || total + Nanos(c) > I64_MAX then None else Some(total + Nanos(c))
  {
    if c.whole == "" && c.fraction == "" {
      return None;
    }
    var scale := Scale(c.unit);
    if scale == 0 {
      return None;
    }
    ScaleGrows(Value(c.whole), scale);
    hide Scale, Part, Value;
    var whole := Checked(Value(c.whole));
    if whole.None? {
      return None;
    }
    var scaled := Checked(whole.value * scale);
    if scaled.None? {
      return None;
    }
    var part := ReadFraction(scale, c.fraction);
    var nanos := Checked(scaled.value + part);
    if nanos.None? {
      return None;
    }
    sum := Checked(total + nanos.value);
    if sum.Some? && sum.value > I64_MAX {
      return None;
    }
  }

  // ----- how near a component comes

  function Power(n: nat): nat {
    if n == 0 then 1 else 10 * Power(n - 1)
  }

  /** What a component falls short of its exact value by, at most, in nanoseconds. */
  function Short(unit: string): nat {
    if unit == "h" then 9 else if unit == "m" then 6 else 1
  }

  /** A unit as a count times a power of ten: what its places run down to. */
  predicate Powers(scale: nat, count: nat, zeros: nat) {
    scale == count * Power(zeros)
  }

  lemma {:induction false} PlacesExact(scale: nat, count: nat, zeros: nat, k: nat)
    requires Powers(scale, count, zeros) && k <= zeros
    ensures Place(scale, k) == count * Power(zeros - k) && Place(scale, k) * Power(k) == scale
  {
    if k > 0 {
      PlacesExact(scale, count, zeros, k - 1);
      var place := count * Power(zeros - k);
      Associate(count, 10, Power(zeros - k));
      Associate(10, count, Power(zeros - k));
      assert Place(scale, k - 1) == 10 * place;
      hide Power, Powers;
      Associate(place, 10, Power(k - 1));
      assert Power(k) == 10 * Power(k - 1) by { PowerStep(k); }
    }
  }

  lemma PowerStep(k: nat)
    requires k > 0
    ensures Power(k) == 10 * Power(k - 1)
  {
  }

  /** Past the digits of its count, no place is left. */
  lemma {:induction false} PlacesEnd(scale: nat, count: nat, zeros: nat, k: nat)
    requires Powers(scale, count, zeros) && count < 100 && k > zeros
    ensures Place(scale, k) == if k == zeros + 1 then count / 10 else 0
  {
    if k == zeros + 1 {
      PlacesExact(scale, count, zeros, zeros);
    } else {
      PlacesEnd(scale, count, zeros, k - 1);
    }
  }

  /** How far a fraction's part falls short of it, as a count of its last place. */
  function Behind(scale: nat, fraction: string): int
    requires Digits(fraction)
  {
    Value(fraction) * scale - Part(scale, fraction) * Power(|fraction|)
  }

  lemma Distribute(a: int, b: int, c: int)
    ensures (a + b) * c == a * c + b * c
  {
  }

  lemma Associate(a: int, b: int, c: int)
    ensures (a * b) * c == a * (b * c)
  {
  }

  lemma DigitTimes(d: int, x: int)
    requires 0 <= d <= 9 && 0 <= x
    ensures 0 <= d * x <= 9 * x
  {
    Distribute(d, 9 - d, x);
    assert (9 - d) * x >= 0;
  }

  lemma Expand(value: int, part: int, place: int, power: int, d: int, scale: int)
    ensures (10 * value + d) * scale - (part + d * place) * (10 * power) ==
            10 * (value * scale - part * power) + d * (scale - place * (10 * power))
  {
    Distribute(10 * value, d, scale);
    Associate(10, value, scale);
    Distribute(part, d * place, 10 * power);
    Associate(d, place, 10 * power);
    Distribute(scale, -(place * (10 * power)), d);
    assert part * (10 * power) == 10 * (part * power);
  }

  lemma BehindGrows(scale: nat, fraction: string)
    requires Digits(fraction) && fraction != ""
    ensures var last := |fraction| - 1;
            var d := (fraction[last] - '0') as nat;
            Behind(scale, fraction) ==
              10 * Behind(scale, fraction[..last]) + d * (scale - Place(scale, |fraction|) * Power(|fraction|))
  {
    hide Place;
    var last := |fraction| - 1;
    Expand(Value(fraction[..last]), Part(scale, fraction[..last]), Place(scale, |fraction|), Power(last),
           (fraction[last] - '0') as nat, scale);
  }

  /** The counts the units come to, and how far short each can be cut. */
  predicate Cuts(count: nat, short: nat) {
    (count == 1 && short == 1) || (count == 6 && short == 6) || (count == 36 && short == 9)
  }

  /** The first digit past the exact ones, cut at its place. */
  lemma FirstCut(scale: nat, count: nat, zeros: nat, short: nat, d: nat)
    requires Powers(scale, count, zeros) && Cuts(count, short) && d <= 9
    ensures var power := 10 * Power(zeros);
            0 <= d * (scale - count / 10 * power) <= short * power - scale
  {
    var p := Power(zeros);
    PowerGrows(0, zeros);
    hide Power;
    if count == 36 {
      assert scale - count / 10 * (10 * p) == 6 * p;
      DigitTimes(d, 6 * p);
    } else {
      assert scale - count / 10 * (10 * p) == scale;
      DigitTimes(d, scale);
      if count == 6 {
        assert scale == 6 * p;
      } else {
        assert scale == p;
      }
    }
  }

  /** One more digit past the exact ones keeps the bound. */
  lemma CutBound(scale: nat, count: nat, zeros: nat, short: nat, fraction: string)
    requires Powers(scale, count, zeros) && Digits(fraction) && |fraction| > zeros && Cuts(count, short)
    requires var before := Behind(scale, fraction[..|fraction| - 1]);
             if |fraction| == zeros + 1 then before == 0
             else 0 <= before <= short * Power(|fraction| - 1) - scale
    ensures 0 <= Behind(scale, fraction) <= short * Power(|fraction|) - scale
  {
    hide Place, Part, Value, Behind, Powers;
    var d := (fraction[|fraction| - 1] - '0') as nat;
    BehindGrows(scale, fraction);
    PlacesEnd(scale, count, zeros, |fraction|);
    if |fraction| == zeros + 1 {
      FirstCut(scale, count, zeros, short, d);
    } else {
      DigitTimes(d, scale);
      Associate(short, 10, Power(|fraction| - 1));
    }
  }

  lemma ExactGrows(scale: nat, count: nat, zeros: nat, fraction: string)
    requires Powers(scale, count, zeros) && Digits(fraction) && 0 < |fraction| <= zeros
    requires Behind(scale, fraction[..|fraction| - 1]) == 0
    ensures Behind(scale, fraction) == 0
  {
    hide Behind, Powers, Power, Place;
    BehindGrows(scale, fraction);
    PlacesExact(scale, count, zeros, |fraction|);
  }

  /** The digits that are exact fall short by nothing; those past them by less than the unit's bound. */
  lemma {:induction false} BehindBound(scale: nat, count: nat, zeros: nat, short: nat, fraction: string)
    requires Powers(scale, count, zeros) && Digits(fraction) && Cuts(count, short)
    ensures if |fraction| <= zeros then Behind(scale, fraction) == 0
            else 0 <= Behind(scale, fraction) <= short * Power(|fraction|) - scale
  {
    hide Place, Part, Value;
    if fraction == "" {
      BehindNothing(scale);
    } else {
      hide Behind, Powers, Cuts, Power;
      BehindBound(scale, count, zeros, short, fraction[..|fraction| - 1]);
      if |fraction| <= zeros {
        ExactGrows(scale, count, zeros, fraction);
      } else {
        CutBound(scale, count, zeros, short, fraction);
      }
    }
  }

  lemma BehindNothing(scale: nat)
    ensures Behind(scale, "") == 0
  {
  }

  lemma UnitPowers(unit: string) returns (count: nat, zeros: nat)
    requires Scale(unit) > 0
    ensures Powers(Scale(unit), count, zeros) && Cuts(count, Short(unit))
  {
    count := if unit == "h" then 36 else if unit == "m" then 6 else 1;
    zeros := if unit == "h" then 11 else if unit == "m" then 10 else if unit == "s" then 9
             else if unit == "ms" then 6 else if unit == "ns" then 0 else 3;
    Thousands();
  }

  lemma Thousands()
    ensures Power(0) == 1 && Power(3) == 1_000 && Power(6) == 1_000_000 && Power(9) == 1_000_000_000
    ensures Power(10) == 10_000_000_000 && Power(11) == 100_000_000_000
  {
    assert Power(2) == 100 && Power(3) == 10 * Power(2);
    assert Power(4) == 10 * Power(3) && Power(5) == 10 * Power(4) && Power(6) == 10 * Power(5);
    assert Power(7) == 10 * Power(6) && Power(8) == 10 * Power(7) && Power(9) == 10 * Power(8);
    assert Power(10) == 10 * Power(9) && Power(11) == 10 * Power(10);
  }

  /**
   A component is never above its exact value, and below it by less than 9 ns for hours,
   6 for minutes and 1 for smaller units, however many fraction digits: the exact value is
   (whole * 10^n + fraction) * scale / 10^n, for a fraction of n digits.
   */
  lemma ComponentWithin(c: Component)
    requires WellFormed(c)
    ensures var power := Power(|c.fraction|);
            var exact := (Value(c.whole) * power + Value(c.fraction)) * Scale(c.unit);
            Nanos(c) * power <= exact < (Nanos(c) + Short(c.unit)) * power
  {
    hide Scale, Part, Value, Short, Power;
    var count, zeros := UnitPowers(c.unit);
    var scale, power, short := Scale(c.unit), Power(|c.fraction|), Short(c.unit);
    BehindBound(scale, count, zeros, short, c.fraction);
    PowerGrows(0, |c.fraction|);
    assert short * power > 0 by { ScaleGrows(power, short); }
    Within(Value(c.whole), Value(c.fraction), scale, Part(scale, c.fraction), power, short);
  }

  lemma Within(whole: int, fraction: int, scale: int, part: int, power: int, short: int)
    requires 0 <= fraction * scale - part * power < short * power
    ensures (whole * scale + part) * power <= (whole * power + fraction) * scale <
            (whole * scale + part + short) * power
  {
    Distribute(whole * power, fraction, scale);
    Distribute(whole * scale, part, power);
    Distribute(whole * scale + part, short, power);
    assert whole * power * scale == whole * scale * power;
  }

  lemma {:induction false} PowerGrows(k: nat, n: nat)
    requires k <= n
    ensures 1 <= Power(k) <= Power(n)
  {
    if k < n {
      PowerGrows(k, n - 1);
    } else if n > 0 {
      PowerGrows(k - 1, n - 1);
    }
  }

  // ----- spelling components, and reading them back

  function Spelling(c: Component): string {
    c.whole + (if c.point then "." else "") + c.fraction + c.unit
  }

  function SpellingAll(components: seq<Component>): string {
    if components == [] then "" else Spelling(components[0]) + SpellingAll(components[1..])
  }

  lemma {:induction false} DigitRunIs(s: string, n: nat)
    requires n <= |s| && (forall i :: 0 <= i < n ==> Digit(s[i])) && (n < |s| ==> !Digit(s[n]))
    ensures DigitRun(s) == n
  {
    if n > 0 {
      DigitRunIs(s[1..], n - 1);
    }
  }

  lemma {:induction false} UnitRunIs(s: string, n: nat)
    requires n <= |s| && (forall i :: 0 <= i < n ==> !Digit(s[i]) && s[i] != '.')
    requires n < |s| ==> Digit(s[n]) || s[n] == '.'
    ensures UnitRun(s) == n
  {
    if n > 0 {
      UnitRunIs(s[1..], n - 1);
    }
  }

  lemma UnitLetters(unit: string)
    requires Scale(unit) > 0
    ensures unit != "" && forall i :: 0 <= i < |unit| ==> !Digit(unit[i]) && unit[i] != '.'
  {
  }

  /** What follows a component begins another, if anything does. */
  predicate Follows(rest: string) {
    rest == "" || Digit(rest[0]) || rest[0] == '.'
  }

  lemma Joined(a: string, b: string)
    ensures (a + b)[..|a|] == a && (a + b)[|a|..] == b
    ensures forall i :: 0 <= i < |a| ==> (a + b)[i] == a[i]
    ensures b != "" ==> (a + b)[|a|] == b[0]
  {
  }

  /** The fraction and unit of a component are read back, before what follows it. */
  lemma TailReads(c: Component, rest: string)
    requires WellFormed(c) && Follows(rest)
    ensures AfterPoint(c.fraction + (c.unit + rest), c.point) == (c.fraction, c.unit, rest)
    ensures c.fraction == "" ==> var tail := c.fraction + (c.unit + rest);
                                 tail != "" && tail[0] != '.' && !Digit(tail[0])
  {
    hide Scale, DigitRun, UnitRun;
    UnitLetters(c.unit);
    Joined(c.unit, rest);
    Joined(c.fraction, c.unit + rest);
    var tail := c.fraction + (c.unit + rest);
    if c.point {
      DigitRunIs(tail, |c.fraction|);
    }
    assert tail[|c.fraction|..] == c.unit + rest;
    UnitRunIs(c.unit + rest, |c.unit|);
  }

  lemma HeadReads(c: Component, rest: string)
    requires WellFormed(c) && Follows(rest)
    ensures Head(Spelling(c) + rest) == (c, rest)
  {
    hide Scale, DigitRun, UnitRun, AfterPoint;
    TailReads(c, rest);
    var tail := c.fraction + (c.unit + rest);
    var after := (if c.point then "." else "") + tail;
    SpellingParts(c, rest);
    hide Spelling;
    Joined(c.whole, after);
    assert after[0] == if c.point then '.' else tail[0];
    DigitRunIs(c.whole + after, |c.whole|);
    assert (if c.point then after[1..] else after) == tail;
  }

  lemma SpellingParts(c: Component, rest: string)
    ensures Spelling(c) + rest == c.whole + ((if c.point then "." else "") + (c.fraction + (c.unit + rest)))
  {
  }

  lemma SpellingFollows(c: Component)
    requires WellFormed(c)
    ensures Spelling(c) != "" && Follows(Spelling(c))
  {
    hide Scale;
    if c.whole != "" {
      assert Spelling(c)[0] == c.whole[0];
    } else {
      assert Spelling(c)[0] == '.';
    }
  }

  lemma ComponentsGrow(c: Component, rest: string)
    requires WellFormed(c) && Follows(rest) && Components(rest).Some?
    ensures Components(Spelling(c) + rest) == Some([c] + Components(rest).value)
    ensures Follows(Spelling(c) + rest)
  {
    hide WellFormed, Head, Spelling, Digit;
    HeadReads(c, rest);
    SpellingFollows(c);
    assert (Spelling(c) + rest)[0] == Spelling(c)[0];
  }

  lemma FirstWellFormed(components: seq<Component>)
    requires AllWellFormed(components) && components != []
    ensures WellFormed(components[0]) && AllWellFormed(components[1..])
  {
    hide WellFormed;
  }

  /** Components spelled one after another are read as themselves. */
  lemma {:induction false} ComponentsReadBack(components: seq<Component>)
    requires AllWellFormed(components)
    ensures Components(SpellingAll(components)) == Some(components) && Follows(SpellingAll(components))
  {
    if components != [] {
      FirstWellFormed(components);
      hide WellFormed, AllWellFormed, Spelling, Components, Follows;
      ComponentsReadBack(components[1..]);
      ComponentsGrow(components[0], SpellingAll(components[1..]));
      assert components == [components[0]] + components[1..];
    }
  }

  /** Components, signed or not, are the duration they come to; one an int64 cannot hold is refused. */
  lemma DurationReads(sign: string, components: seq<Component>)
    requires sign in {"", "+", "-"} && AllWellFormed(components) && components != []
    ensures var total := Total(components);
            DurationOf(sign + SpellingAll(components)) ==
              if total > I64_MAX then None else Some((if sign == "-" then -1 else 1) * total)
  {
    hide WellFormed, Total, Components, Spelling, Head;
    ComponentsReadBack(components);
    SpellingLong(components[0]);
    var spelled := SpellingAll(components);
    assert |spelled| > 1;
    Joined(sign, spelled);
  }

  lemma SpellingLong(c: Component)
    requires WellFormed(c)
    ensures |Spelling(c)| > 1
  {
    UnitLetters(c.unit);
    hide Scale;
  }

  lemma TailSpells(tail: string, point: bool)
    ensures var (fraction, unit, left) := AfterPoint(tail, point); fraction + (unit + left) == tail
  {
    hide DigitRun, UnitRun;
    var f := if point then DigitRun(tail) else 0;
    var u := UnitRun(tail[f..]);
    assert tail[f..][..u] + tail[f..][u..] == tail[f..];
    assert tail[..f] + tail[f..] == tail;
  }

  lemma HeadSpells(rest: string)
    ensures Spelling(Head(rest).0) + Head(rest).1 == rest
  {
    hide DigitRun, AfterPoint, Digits, Digit;
    var n := DigitRun(rest);
    var after := rest[n..];
    var point := after != "" && after[0] == '.';
    var tail := if point then after[1..] else after;
    TailSpells(tail, point);
    var (c, left) := Head(rest);
    SpellingParts(c, left);
    hide Spelling, Head;
    Halves(rest, n);
    if point {
      Halves(after, 1);
      assert after[..1] == ".";
    } else {
      assert "" + tail == tail;
    }
  }

  lemma Halves(s: string, n: nat)
    requires n <= |s|
    ensures s == s[..n] + s[n..]
  {
  }

  /** A text read as components is exactly their spelling. */
  lemma {:induction false} ComponentsSpell(rest: string)
    requires Components(rest).Some?
    ensures SpellingAll(Components(rest).value) == rest
    decreases |rest|
  {
    if rest != "" {
      HeadSpells(rest);
      var (c, after) := Head(rest);
      ComponentsSpell(after);
      var more := Components(after).value;
      assert ([c] + more)[1..] == more;
      hide Spelling, Head;
    }
  }

  // ----- ages

  datatype PruneRefusal = NoStatus | AgeRequired | AgeNotPositive(age: string) | AgeUnreadable(age: string)

  /** A signed whole number an int64 holds. */
  function WholeNumber(text: string): Option<int> {
    var signed := text != "" && text[0] in {'-', '+'};
    var digits := if signed then text[1..] else text;
    if digits == "" || !Digits(digits) then None else
    var n := (if signed && text[0] == '-' then -1 else 1) * Value(digits);
    if I64_MIN <= n <= I64_MAX then Some(n) else None
  }

  function WholeDays(text: string, suffix: char, days: nat): Option<int> {
    if text != "" && text[|text| - 1] == suffix && WholeNumber(text[..|text| - 1]).Some?
    then Some(WholeNumber(text[..|text| - 1]).value * (days * SECONDS_PER_DAY) * NANOS_PER_SECOND)
    else None
  }

  /** A span of time: whole days or weeks, or a duration. */
  function Offset(text: string): Option<int> {
    var days := WholeDays(text, 'd', 1);
    var weeks := WholeDays(text, 'w', 7);
    if days.Some? then days else if weeks.Some? then weeks else DurationOf(text)
  }

  /** Which units there are, and how each is told by the next smaller one. */
  lemma UnitsAre()
    ensures forall unit :: Scale(unit) > 0 <==>
              unit in {"ns", "us", "\U{00B5}s", "\U{03BC}s", "ms", "s", "m", "h"}
    ensures Scale("h") == 60 * Scale("m") && Scale("m") == 60 * Scale("s") && Scale("s") == 1000 * Scale("ms")
    ensures Scale("ms") == 1000 * Scale("us") && Scale("us") == 1000 * Scale("ns") && Scale("ns") == 1
    ensures Scale("us") == Scale("\U{00B5}s") == Scale("\U{03BC}s")
  {
  }

  /** A whole number of a unit is read as that many of it, in nanoseconds, or refused past an int64. */
  lemma WholeReads(count: string, unit: string)
    requires count != "" && Digits(count) && Scale(unit) > 0
    ensures var nanos := Value(count) * Scale(unit);
            DurationOf(count + unit) == if nanos > I64_MAX then None else Some(nanos)
  {
    hide Scale, DurationOf, Digits, Value;
    var c := Component(count, false, "", unit);
    NoneLeft();
    assert AllWellFormed([c]) && [c][1..] == [];
    assert SpellingAll([c]) == Spelling(c) + "" == count + unit;
    assert "" + SpellingAll([c]) == count + unit;
    PartNothing(Scale(unit));
    assert Total([c]) == Nanos(c) + 0;
    DurationReads("", [c]);
  }

  lemma NoneLeft()
    ensures SpellingAll([]) == "" && Total([]) == 0 && Digits("")
  {
  }

  lemma PartNothing(scale: nat)
    ensures Part(scale, "") == 0
  {
  }

  /** A count of days is that many times 24 hours, and of weeks that many times 7 days, wherever it fits an int64. */
  lemma DaysAndWeeks(text: string)
    requires WholeNumber(text).Some?
    ensures Offset(text + "d") == Some(WholeNumber(text).value * 24 * Scale("h"))
    ensures Offset(text + "w") == Some(WholeNumber(text).value * 7 * 24 * Scale("h"))
  {
    hide WholeNumber, DurationOf;
    assert (text + "d")[..|text + "d"| - 1] == text && (text + "w")[..|text + "w"| - 1] == text;
  }

  /** What an age is refused for: blank, a span that is not longer than none, or neither a span nor a date. */
  lemma CutRefused(age: string, now: Timestamp)
    ensures Cut(age, now).Failure? <==>
              var text := Text.Trim(age);
              text == "" || (if Offset(text).Some? then Offset(text).value <= 0 else ReadDate(text).None?)
    ensures Cut(age, now) == Failure(AgeRequired) <==> Text.Trim(age) == ""
    ensures Cut(age, now) == Failure(AgeNotPositive(age)) <==>
              Text.Trim(age) != "" && Offset(Text.Trim(age)).Some? && Offset(Text.Trim(age)).value <= 0
  {
    hide Offset, ReadDate, Text.Trim;
  }

  /** Whatever is read as an offset is one a 128-bit number holds, as is each product on the way. */
  lemma OffsetFits(text: string, suffix: char, days: nat)
    requires days == 1 || days == 7
    ensures WholeDays(text, suffix, days).Some? ==>
              var count := WholeNumber(text[..|text| - 1]).value;
              Checked(count * (days * SECONDS_PER_DAY)).Some? && Checked(WholeDays(text, suffix, days).value).Some?
    ensures DurationOf(text).Some? ==> -I64_MAX <= DurationOf(text).value <= I64_MAX
    ensures Offset(text).Some? ==> Bounded(Offset(text).value)
  {
    hide Value, Digits, Components, Total;
  }

  /** No further from 0 than the most weeks an int64 counts. */
  predicate Bounded(nanos: int) {
    I64_MIN * 7 * SECONDS_PER_DAY * NANOS_PER_SECOND <= nanos <= -I64_MIN * 7 * SECONDS_PER_DAY * NANOS_PER_SECOND
  }

  /** Counted back from any instant an int64 of seconds holds, an offset's instant is one too. */
  lemma CutFits(text: string, now: Timestamp)
    requires Normal(now) && Offset(text).Some?
    ensures Checked(now.seconds * NANOS_PER_SECOND).Some? && Checked(Instant(now)).Some?
    ensures Checked(Instant(now) - Offset(text).value).Some?
  {
    OffsetFits(text, 'd', 1);
    hide Offset;
  }

  function Instant(at: Timestamp): int {
    at.seconds * NANOS_PER_SECOND + at.nanos
  }

  /** Where `age` puts the bound: that long before `now`, or where the date it names begins. */
  function Cut(age: string, now: Timestamp): Result<Timestamp, PruneRefusal> {
    var trimmed := Text.Trim(age);
    if trimmed == "" then Failure(AgeRequired) else
    match Offset(trimmed)
    case Some(nanos) =>
      if nanos <= 0 then Failure(AgeNotPositive(age)) else
      var at := Instant(now) - nanos;
      var seconds := at / NANOS_PER_SECOND;
      Success(Timestamp(if I64_MIN <= seconds <= I64_MAX then seconds else I64_MIN, at % NANOS_PER_SECOND))
    case None =>
      match ReadDate(trimmed)
      case Some(midnight) => Success(midnight)
      case None => Failure(AgeUnreadable(age))
  }

  predicate Normal(at: Timestamp) {
    I64_MIN <= at.seconds <= I64_MAX && 0 <= at.nanos < NANOS_PER_SECOND
  }

  predicate Earlier(a: Timestamp, b: Timestamp) {
    a.seconds < b.seconds || (a.seconds == b.seconds && a.nanos < b.nanos)
  }

  /** An offset back from now reaches past the first second an int64 holds: the cut is held at that second. */
  predicate Clamped(age: string, now: Timestamp) {
    Offset(Text.Trim(age)).Some? && Instant(now) - Offset(Text.Trim(age)).value < I64_MIN * NANOS_PER_SECOND
  }

  /** An instant comes before an offset's cut exactly when it is older than the offset. */
  lemma CutIsAge(age: string, now: Timestamp, at: Timestamp)
    requires Normal(now) && Normal(at) && Cut(age, now).Success? && Offset(Text.Trim(age)).Some?
    requires Clamped(age, now) ==> at.seconds > I64_MIN
    ensures Normal(Cut(age, now).value)
    ensures Earlier(at, Cut(age, now).value) <==> Instant(now) - Instant(at) > Offset(Text.Trim(age)).value > 0
  {
    hide Offset, Text.Trim, ReadDate;
    var nanos := Offset(Text.Trim(age)).value;
    var cut := Instant(now) - nanos;
    assert cut == NANOS_PER_SECOND * (cut / NANOS_PER_SECOND) + cut % NANOS_PER_SECOND;
  }

  /** A date's cut is its midnight, whenever it is read. */
  lemma CutIsMidnight(date: Date, now: Timestamp)
    requires Valid(date) && 0 <= date.year < 10_000
    ensures Cut(DateText(date), now) == Success(Timestamp(DaysFromCivil(date) * SECONDS_PER_DAY, 0))
  {
    DateTextIsAge(date);
    ReadDateReadsSpelling(date);
    hide DateText, ReadDate, Offset, Text.Trim, Valid, DaysFromCivil;
  }

  /** A date is spelled so that no offset reads it, and trimming leaves it. */
  lemma DateTextIsAge(date: Date)
    requires Valid(date) && 0 <= date.year < 10_000
    ensures Text.Trim(DateText(date)) == DateText(date) != "" && Offset(DateText(date)).None?
  {
    var text := DateText(date);
    hide DateText, Text.Trim, Valid, Number, Offset;
    DateTextParts(date);
    NumbersAreDigits(text);
    Text.TrimTrims(text);
    HeadAtDash(text);
    NoOffset(text);
  }

  /** What begins and ends with a digit, and is no components, is no offset. */
  lemma NoOffset(text: string)
    requires |text| > 1 && Digit(text[0]) && Digit(text[|text| - 1]) && Components(text).None?
    ensures Offset(text).None?
  {
    hide Components, Total, WholeNumber, Value, Digits;
  }

  lemma NumbersAreDigits(text: string)
    requires |text| == 10 && Number(text[0..4]).Some? && Number(text[5..7]).Some? && Number(text[8..10]).Some?
    ensures (forall i :: 0 <= i < 4 ==> Digit(text[i])) && Digit(text[5]) && Digit(text[9])
  {
    var (y, m, d) := (text[0..4], text[5..7], text[8..10]);
    assert m[0] == text[5] && d[1] == text[9];
    forall i | 0 <= i < 4 ensures Digit(text[i]) {
      assert y[i] == text[i];
    }
  }

  lemma HeadAtDash(text: string)
    requires |text| == 10 && (forall i :: 0 <= i < 4 ==> Digit(text[i])) && text[4] == '-' && Digit(text[5])
    ensures Components(text).None?
  {
    hide DigitRun, UnitRun, Scale, Components, Digits;
    DigitRunIs(text, 4);
    UnitRunIs(text[4..], 1);
    assert text[4..][0..] == text[4..] && text[4..][..1] == "-";
    assert Head(text).0.unit == "-";
    NoUnit(text);
  }

  lemma NoUnit(text: string)
    requires text != "" && Head(text).0.unit == "-"
    ensures Components(text).None?
  {
    hide Head;
  }
}
