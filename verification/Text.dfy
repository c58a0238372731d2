/**
 Strings as the program reads them: trimming by Unicode White_Space, and the
 order its sorted maps and vectors keep (code point by code point, which is
 also the order of their UTF-8 bytes), with the sorted sequences it keeps
 sets of names in.
 */
module Text {

  // ----- trimming

  predicate Whitespace(c: char) {
    || '\U{0009}' <= c <= '\U{000D}'
    || '\U{2000}' <= c <= '\U{200A}'
    || c in {'\U{0020}', '\U{0085}', '\U{00A0}', '\U{1680}', '\U{2028}', '\U{2029}',
             '\U{202F}', '\U{205F}', '\U{3000}'}
  }

  function TrimStart(s: string): string {
    if s != "" && Whitespace(s[0]) then TrimStart(s[1..]) else s
  }

  function TrimEnd(s: string): string {
    if s != "" && Whitespace(s[|s| - 1]) then TrimEnd(s[..|s| - 1]) else s
  }

  function Trim(s: string): string {
    TrimEnd(TrimStart(s))
  }

  /** Neither end is whitespace: what trimming leaves alone. */
  predicate Trimmed(s: string) {
    s == "" || (!Whitespace(s[0]) && !Whitespace(s[|s| - 1]))
  }

  lemma {:induction false} TrimStartSuffix(s: string)
    ensures |TrimStart(s)| <= |s| && TrimStart(s) == s[|s| - |TrimStart(s)|..]
    ensures TrimStart(s) != "" ==> !Whitespace(TrimStart(s)[0])
  {
    if s != "" && Whitespace(s[0]) {
      TrimStartSuffix(s[1..]);
    }
  }

  lemma {:induction false} TrimEndPrefix(s: string)
    ensures TrimEnd(s) <= s
    ensures TrimEnd(s) != "" ==> !Whitespace(TrimEnd(s)[|TrimEnd(s)| - 1])
  {
    if s != "" && Whitespace(s[|s| - 1]) {
      TrimEndPrefix(s[..|s| - 1]);
    }
  }

  /** Trimming leaves neither end whitespace, and changes only what is not trimmed. */
  lemma TrimTrims(s: string)
    ensures Trimmed(Trim(s))
    ensures Trim(s) == s <==> Trimmed(s)
    ensures Trim(Trim(s)) == Trim(s)
  {
    TrimStartSuffix(s);
    TrimEndPrefix(TrimStart(s));
  }

  // ----- the order of names

  /** `a` before `b`: at their first difference, or by being a proper prefix. */
  predicate Less(a: string, b: string) {
    b != "" && (a == "" || a[0] < b[0] || (a[0] == b[0] && Less(a[1..], b[1..])))
  }

  lemma {:induction false} LessTransitive(a: string, b: string, c: string)
    requires Less(a, b) && Less(b, c)
    ensures Less(a, c)
  {
    if a != "" && a[0] == b[0] == c[0] {
      LessTransitive(a[1..], b[1..], c[1..]);
    }
  }

  lemma {:induction false} LessIrreflexive(a: string)
    ensures !Less(a, a)
  {
    if a != "" {
      LessIrreflexive(a[1..]);
    }
  }

  lemma {:induction false} LessTotal(a: string, b: string)
    ensures a == b || Less(a, b) || Less(b, a)
  {
    if a != "" && b != "" && a[0] == b[0] {
      LessTotal(a[1..], b[1..]);
      assert a == [a[0]] + a[1..] && b == [b[0]] + b[1..];
    }
  }

  /** `a` comes before `b` exactly where, past what they have in common, `a` ends or has the lower character. */
  lemma {:induction false} LessMeans(a: string, b: string)
    ensures Less(a, b) <==>
              exists k :: 0 <= k < |b| && k <= |a| && a[..k] == b[..k] && (k == |a| || a[k] < b[k])
  {
    if Less(a, b) && a != "" && a[0] == b[0] {
      LessMeans(a[1..], b[1..]);
      var k :| 0 <= k < |b[1..]| && k <= |a[1..]| && a[1..][..k] == b[1..][..k]
               && (k == |a[1..]| || a[1..][k] < b[1..][k]);
      Prefixed(a, b, k);
    } else if Less(a, b) {
      assert a[..0] == b[..0];
    }
    if k :| 0 <= k < |b| && k <= |a| && a[..k] == b[..k] && (k == |a| || a[k] < b[k]) {
      DifferAt(a, b, k);
    }
  }

  lemma Prefixed(a: string, b: string, k: nat)
    requires a != "" && b != "" && a[0] == b[0] && k <= |a| - 1 && k <= |b| - 1 && a[1..][..k] == b[1..][..k]
    ensures a[..k + 1] == b[..k + 1]
  {
    assert a[..k + 1] == [a[0]] + a[1..][..k] && b[..k + 1] == [b[0]] + b[1..][..k];
  }

  lemma {:induction false} DifferAt(a: string, b: string, k: nat)
    requires k < |b| && k <= |a| && a[..k] == b[..k] && (k == |a| || a[k] < b[k])
    ensures Less(a, b)
    decreases k
  {
    if k > 0 {
      assert a[0] == a[..k][0] == b[..k][0] == b[0];
      assert a[1..][..k - 1] == a[..k][1..] && b[1..][..k - 1] == b[..k][1..];
      DifferAt(a[1..], b[1..], k - 1);
    }
  }

  // ----- sets of names, in order

  /** In order, each once. */
  predicate Sorted(s: seq<string>) {
    forall i, j :: 0 <= i < j < |s| ==> Less(s[i], s[j])
  }

  function Elements(s: seq<string>): set<string> {
    set x | x in s
  }

  /** How many of the sorted `s` come before `x`. */
  function Rank(s: seq<string>, x: string): (at: nat)
    ensures at <= |s|
    ensures forall i :: 0 <= i < at ==> Less(s[i], x)
    ensures at < |s| ==> !Less(s[at], x)
  {
    if s == [] || !Less(s[0], x) then 0 else 1 + Rank(s[1..], x)
  }

  /** The sorted `s` with `x` in its place, once. */
  function Insert(s: seq<string>, x: string): seq<string> {
    var at := Rank(s, x);
    if at < |s| && s[at] == x then s else s[..at] + [x] + s[at..]
  }

  lemma SplicedInOrder(s: seq<string>, at: nat, x: string)
    requires Sorted(s) && at <= |s|
    requires forall i :: 0 <= i < at ==> Less(s[i], x)
    requires at < |s| ==> Less(x, s[at])
    ensures Sorted(s[..at] + [x] + s[at..])
  {
    forall j | at < j < |s| ensures Less(x, s[j]) { LessTransitive(x, s[at], s[j]); }
  }

  lemma SplicedElements(s: seq<string>, at: nat, x: string)
    requires at <= |s|
    ensures Elements(s[..at] + [x] + s[at..]) == Elements(s) + {x}
  {
    assert s == s[..at] + s[at..];
  }

  lemma InsertKeepsOrder(s: seq<string>, x: string)
    requires Sorted(s)
    ensures Sorted(Insert(s, x))
    ensures Elements(Insert(s, x)) == Elements(s) + {x}
  {
    var at := Rank(s, x);
    if !(at < |s| && s[at] == x) {
      if at < |s| {
        LessTotal(s[at], x);
      }
      SplicedInOrder(s, at, x);
      SplicedElements(s, at, x);
    }
  }

  function Without(names: seq<string>, name: string): seq<string> {
    if names == [] then []
    else (if names[0] == name then [] else [names[0]]) + Without(names[1..], name)
  }

  lemma {:induction false} WithoutElements(names: seq<string>, name: string)
    ensures forall x :: x in Without(names, name) <==> x in names && x != name
  {
    if names != [] {
      WithoutElements(names[1..], name);
      assert forall x :: x in names <==> x == names[0] || x in names[1..];
    }
  }

  lemma {:induction false} WithoutKeepsOrder(names: seq<string>, name: string)
    requires Sorted(names)
    ensures Sorted(Without(names, name))
    ensures Elements(Without(names, name)) == Elements(names) - {name}
  {
    WithoutElements(names, name);
    if names != [] {
      WithoutKeepsOrder(names[1..], name);
      WithoutElements(names[1..], name);
      var rest := Without(names[1..], name);
      forall k | 0 <= k < |rest| ensures Less(names[0], rest[k]) {
        assert rest[k] in names[1..];
      }
    }
  }

  /** `names` inserted in turn. */
  function InsertAll(s: seq<string>, names: seq<string>): seq<string> {
    if names == [] then s else Insert(InsertAll(s, names[..|names| - 1]), names[|names| - 1])
  }

  lemma {:induction false} InsertAllKeepsOrder(s: seq<string>, names: seq<string>)
    requires Sorted(s)
    ensures Sorted(InsertAll(s, names))
    ensures Elements(InsertAll(s, names)) == Elements(s) + Elements(names)
  {
    if names != [] {
      var last := |names| - 1;
      InsertAllKeepsOrder(s, names[..last]);
      InsertKeepsOrder(InsertAll(s, names[..last]), names[last]);
      assert names == names[..last] + [names[last]];
    }
  }

  /** `names` taken out in turn. */
  function WithoutAll(s: seq<string>, names: seq<string>): seq<string> {
    if names == [] then s else Without(WithoutAll(s, names[..|names| - 1]), names[|names| - 1])
  }

  lemma {:induction false} WithoutAllKeepsOrder(s: seq<string>, names: seq<string>)
    requires Sorted(s)
    ensures Sorted(WithoutAll(s, names))
    ensures Elements(WithoutAll(s, names)) == Elements(s) - Elements(names)
  {
    if names != [] {
      var last := |names| - 1;
      WithoutAllKeepsOrder(s, names[..last]);
      WithoutKeepsOrder(WithoutAll(s, names[..last]), names[last]);
      assert names == names[..last] + [names[last]];
    }
  }

  /** A set as the sorted sequence of its elements: the order a sorted set is walked in. */
  ghost function InOrder(names: set<string>): (s: seq<string>)
    ensures Sorted(s) && Elements(s) == names
  {
    if names == {} then [] else
    var x :| x in names;
    InsertKeepsOrder(InOrder(names - {x}), x);
    Insert(InOrder(names - {x}), x)
  }

  /** A sorted sequence is determined by its elements. */
  lemma {:induction false} SortedUnique(a: seq<string>, b: seq<string>)
    requires Sorted(a) && Sorted(b) && Elements(a) == Elements(b)
    ensures a == b
  {
    assert forall i :: 0 <= i < |a| ==> a[i] in Elements(b);
    assert forall i :: 0 <= i < |b| ==> b[i] in Elements(a);
    if a != [] && b != [] {
      var i :| 0 <= i < |b| && b[i] == a[0];
      var j :| 0 <= j < |a| && a[j] == b[0];
      if i > 0 {
        if j > 0 {
          LessTransitive(a[0], a[j], a[0]);
        }
        LessIrreflexive(a[0]);
      }
      forall k | 0 < k < |a| ensures a[k] != a[0] { LessIrreflexive(a[0]); }
      forall k | 0 < k < |b| ensures b[k] != b[0] { LessIrreflexive(b[0]); }
      assert Elements(a[1..]) == Elements(a) - {a[0]};
      assert Elements(b[1..]) == Elements(b) - {b[0]};
      SortedUnique(a[1..], b[1..]);
      assert a == [a[0]] + a[1..] && b == [b[0]] + b[1..];
    }
  }
}
