/** Where a plan's path resolves: normalized, inside the work root or outside it. */
module PlanPaths {
  import opened Wrappers

  const PLAN_SUFFIX := ".plan.md"

  // ----- components

  /** The parts of `s` between slashes. */
  function Split(s: string): (parts: seq<string>)
    ensures |parts| > 0
  {
    if s == "" then [""] else WithChar(Split(s[..|s| - 1]), s[|s| - 1])
  }

  /** Parts with one more character read: a slash begins another. */
  function WithChar(parts: seq<string>, c: char): (longer: seq<string>)
    requires |parts| > 0
    ensures |longer| > 0
  {
    if c == '/' then parts + [""] else parts[..|parts| - 1] + [parts[|parts| - 1] + [c]]
  }

  function Join(parts: seq<string>): string {
    if parts == [] then ""
    else if |parts| == 1 then parts[0]
    else Join(parts[..|parts| - 1]) + "/" + parts[|parts| - 1]
  }

  /** A part that names something: no slash in it, neither empty nor a dot or two. */
  predicate Plain(part: string) {
    part != "" && part != "." && part != ".." && '/' !in part
  }

  predicate AllPlain(parts: seq<string>) {
    forall i :: 0 <= i < |parts| ==> Plain(parts[i])
  }

  /** Parts walked in turn: empty ones and dots skipped, two dots going back, at the root staying there. */
  function Walked(parts: seq<string>): seq<string> {
    if parts == [] then [] else
      var before := Walked(parts[..|parts| - 1]);
      var part := parts[|parts| - 1];
      if part == "" || part == "." then before
      else if part == ".." then (if before == [] then [] else before[..|before| - 1])
      else before + [part]
  }

  /** An absolute path with dots, double dots and empty components resolved. */
  function NormalizedOf(path: string): string {
    "/" + Join(Walked(Split(path)))
  }

  method Normalized(path: string) returns (normalized: string)
    ensures normalized == NormalizedOf(path)
  {
    var split := Split(path);
    var parts: seq<string> := [];
    for i := 0 to |split|
      invariant parts == Walked(split[..i])
    {
      assert split[..i + 1][..i] == split[..i];
      if split[i] == "" || split[i] == "." {
      } else if split[i] == ".." {
        if parts != [] {
          parts := parts[..|parts| - 1];
        }
      } else {
        parts := parts + [split[i]];
      }
    }
    assert split[..|split|] == split;
    normalized := "/" + Join(parts);
  }

  // ----- locating

  datatype Located = Inside(path: string) | Outside(path: string)

  function WithoutSlashes(s: string): string {
    if s != "" && s[|s| - 1] == '/' then WithoutSlashes(s[..|s| - 1]) else s
  }

  /** Where `given` is: a relative path counts from the work root, and an absolute one is cut to start there. */
  function Locate(workRoot: string, given: string): Located {
    var root := WithoutSlashes(workRoot);
    var absolute := NormalizedOf(if given != "" && given[0] == '/' then given else root + "/" + given);
    if root + "/" <= absolute && |absolute| > |root| + 1 then Inside(absolute[|root| + 1..]) else Outside(absolute)
  }

  datatype PathError = Empty | OutsideWorkRoot(given: string) | NotAPlanFile(given: string)

  predicate EndsWith(s: string, end: string) {
    |end| <= |s| && s[|s| - |end|..] == end
  }

  /** The work-root-relative path recorded of a plan given by `given`. */
  function ResolvePath(workRoot: string, given: string): Result<string, PathError> {
    if given == "" then Failure(Empty) else
    match Locate(workRoot, given)
    case Outside(_) => Failure(OutsideWorkRoot(given))
    case Inside(path) => if EndsWith(path, PLAN_SUFFIX) then Success(path) else Failure(NotAPlanFile(given))
  }

  // ----- splitting and joining

  predicate Unslashed(parts: seq<string>) {
    forall i :: 0 <= i < |parts| ==> '/' !in parts[i]
  }

  lemma {:induction false} SplitUnslashed(s: string)
    ensures Unslashed(Split(s))
  {
    if s != "" {
      SplitUnslashed(s[..|s| - 1]);
    }
  }

  lemma WithCharAfter(before: seq<string>, after: seq<string>, c: char)
    requires |after| > 0
    ensures WithChar(before + after, c) == before + WithChar(after, c)
  {
    assert (before + after)[..|before + after| - 1] == before + after[..|after| - 1];
  }

  /** Splitting goes on past a slash as if it began there. */
  lemma {:induction false} SplitAfter(s: string, t: string)
    ensures Split(s + "/" + t) == Split(s) + Split(t)
  {
    hide WithChar;
    var text := s + "/" + t;
    if t == "" {
      assert text[..|text| - 1] == s;
      SlashBegins(Split(s));
    } else {
      SplitAfter(s, t[..|t| - 1]);
      assert text[..|text| - 1] == s + "/" + t[..|t| - 1];
      WithCharAfter(Split(s), Split(t[..|t| - 1]), t[|t| - 1]);
    }
  }

  lemma SlashBegins(parts: seq<string>)
    requires |parts| > 0
    ensures WithChar(parts, '/') == parts + [""]
  {
  }

  lemma {:induction false} SplitUncut(part: string)
    requires '/' !in part
    ensures Split(part) == [part]
  {
    if part != "" {
      assert part == part[..|part| - 1] + [part[|part| - 1]];
      SplitUncut(part[..|part| - 1]);
    }
  }

  lemma {:induction false} SplitJoined(parts: seq<string>)
    requires parts != [] && Unslashed(parts)
    ensures Split(Join(parts)) == parts
  {
    var last := |parts| - 1;
    SplitUncut(parts[last]);
    if last > 0 {
      SplitJoined(parts[..last]);
      SplitAfter(Join(parts[..last]), parts[last]);
      assert parts == parts[..last] + [parts[last]];
    }
  }

  // ----- walking

  lemma {:induction false} WalkedPlain(parts: seq<string>)
    requires Unslashed(parts)
    ensures AllPlain(Walked(parts))
    ensures AllPlain(parts) ==> Walked(parts) == parts && Walked([""] + parts) == parts
  {
    if parts != [] {
      var last := |parts| - 1;
      WalkedPlain(parts[..last]);
      assert parts == parts[..last] + [parts[last]];
      assert ([""] + parts)[..last + 1] == [""] + parts[..last];
    } else {
      assert [""] + parts == [""] && [""][..0] == [];
    }
  }

  /** The parts of a normalized path: the root's empty one, and those walked. */
  lemma NormalizedParts(path: string)
    ensures var parts := Walked(Split(path));
            && AllPlain(parts)
            && Split(NormalizedOf(path)) == [""] + if parts == [] then [""] else parts
  {
    hide Walked, Split;
    var parts := Walked(Split(path));
    SplitUnslashed(path);
    WalkedPlain(Split(path));
    assert "" + "/" + Join(parts) == NormalizedOf(path);
    SplitAfter("", Join(parts));
    SplitUncut("");
    if parts != [] {
      assert Unslashed(parts) by {
        forall i | 0 <= i < |parts| ensures '/' !in parts[i] {
          assert Plain(parts[i]);
        }
      }
      SplitJoined(parts);
    }
  }

  /** Normalizing a normalized path changes nothing. */
  lemma NormalizedAgain(path: string)
    ensures NormalizedOf(NormalizedOf(path)) == NormalizedOf(path)
  {
    hide Split, Join;
    var parts := Walked(Split(path));
    NormalizedParts(path);
    if parts == [] {
      assert [""] + [""] == ["", ""] && ["", ""][..1] == [""] && [""][..0] == [];
    } else {
      forall i | 0 <= i < |parts| ensures '/' !in parts[i] {
        assert Plain(parts[i]);
      }
      hide Walked;
      WalkedPlain(parts);
    }
  }

  // ----- what a path comes to

  /** A walk goes on from where it has come to, however it came there. */
  lemma {:induction false} WalkedOn(a: seq<string>, b: seq<string>, after: seq<string>)
    requires Walked(a) == Walked(b)
    ensures Walked(a + after) == Walked(b + after)
  {
    if after == [] {
      assert a + after == a && b + after == b;
    } else {
      var last := |after| - 1;
      WalkedOn(a, b, after[..last]);
      assert (a + after)[..|a + after| - 1] == a + after[..last];
      assert (b + after)[..|b + after| - 1] == b + after[..last];
    }
  }

  lemma WalkedOne(before: seq<string>, part: string)
    ensures Walked(before + [part]) ==
            if part == "" || part == "." then Walked(before)
            else if part == ".." then (var w := Walked(before); if w == [] then [] else w[..|w| - 1])
            else Walked(before) + [part]
  {
    assert (before + [part])[..|before|] == before;
  }

  /** What each kind of part does to a walk: nothing, or a step and the step back, or a step back at the root. */
  lemma WalkedReduces(before: seq<string>, name: string, after: seq<string>)
    ensures Walked(before + [""] + after) == Walked(before + ["."] + after) == Walked(before + after)
    ensures Plain(name) ==> Walked(before + [name] + [".."] + after) == Walked(before + after)
    ensures Walked(before) == [] ==> Walked(before + [".."] + after) == Walked(after)
  {
    hide Walked;
    WalkedOne(before, "");
    WalkedOne(before, ".");
    WalkedOne(before, "..");
    WalkedOne(before, name);
    WalkedOne(before + [name], "..");
    WalkedOn(before + [""], before, after);
    WalkedOn(before + ["."], before, after);
    if Plain(name) {
      assert (Walked(before) + [name])[..|Walked(before)|] == Walked(before);
      WalkedOn(before + [name] + [".."], before, after);
    }
    if Walked(before) == [] {
      NoWalk();
      WalkedOn(before + [".."], [], after);
      assert [] + after == after;
    }
  }

  lemma NoWalk()
    ensures Walked([]) == []
  {
  }

  /** Normalizing walks a text's parts, those after a slash from where those before it come to. */
  lemma NormalizedParted(a: string, b: string)
    ensures NormalizedOf(a + "/" + b) == "/" + Join(Walked(Split(a) + Split(b)))
  {
    SplitAfter(a, b);
    hide Split, Walked, Join;
  }

  /** Of text put between two slashes, all that counts is what walking its parts comes to. */
  lemma NormalizedAlike(a: string, part: string, b: string)
    requires '/' !in part && Walked(Split(a) + [part] + Split(b)) == Walked(Split(a) + Split(b))
    ensures NormalizedOf(a + "/" + part + "/" + b) == NormalizedOf(a + "/" + b)
  {
    hide Split, Walked, Join;
    NormalizedParted(a, b);
    NormalizedParted(a, part + "/" + b);
    SplitAfter(part, b);
    SplitUncut(part);
    assert a + "/" + (part + "/" + b) == a + "/" + part + "/" + b;
    assert Split(a) + ([part] + Split(b)) == Split(a) + [part] + Split(b);
  }

  /** A step to a name and back is none. */
  lemma StepAndBack(a: string, name: string, b: string)
    requires Plain(name)
    ensures NormalizedOf(a + "/" + name + "/../" + b) == NormalizedOf(a + "/" + b)
  {
    hide Split, Walked, Join;
    var (x, y) := (Split(a), Split(b));
    NormalizedParted(a, b);
    NormalizedParted(a, name + "/../" + b);
    SplitUncut(name);
    SplitUncut("..");
    SplitAfter("..", b);
    SplitAfter(name, ".." + "/" + b);
    assert name + "/" + (".." + "/" + b) == name + "/../" + b;
    assert a + "/" + (name + "/../" + b) == a + "/" + name + "/../" + b;
    assert x + ([name] + ([".."] + y)) == x + [name] + [".."] + y;
    WalkedReduces(x, name, y);
  }

  /** A step back at the root of all stays there. */
  lemma BackAtRoot(b: string)
    ensures NormalizedOf("/../" + b) == NormalizedOf("/" + b)
  {
    hide Split, Walked, Join;
    NormalizedParted("", b);
    NormalizedParted("", ".." + "/" + b);
    SplitUncut("");
    SplitUncut("..");
    SplitAfter("..", b);
    assert "" + "/" + (".." + "/" + b) == "/../" + b && "" + "/" + b == "/" + b;
    NoWalk();
    WalkedOne([], "");
    assert [] + [""] == [""];
    assert [""] + ([".."] + Split(b)) == [""] + [".."] + Split(b);
    WalkedReduces([""], "", Split(b));
    WalkedReduces([], "", Split(b));
    assert [] + [""] + Split(b) == [""] + Split(b) && [] + Split(b) == Split(b);
  }

  /** A path of names alone is left as it is. */
  lemma NamesStay(b: string)
    requires AllPlain(Split(b))
    ensures NormalizedOf("/" + b) == "/" + b
  {
    hide Split, Walked, Join;
    NormalizedParted("", b);
    SplitUncut("");
    assert "" + "/" + b == "/" + b;
    SplitUnslashed(b);
    WalkedPlain(Split(b));
    JoinSplit(b);
  }

  /**
   What normalizing does, text by text: a doubled slash is one, a dot is nothing, a name and
   two dots after it are nothing, two dots at the root are nothing, and a path of names alone
   is left as it is.
   */
  lemma NormalizedMeans(a: string, name: string, b: string)
    ensures NormalizedOf(a + "//" + b) == NormalizedOf(a + "/./" + b) == NormalizedOf(a + "/" + b)
    ensures Plain(name) ==> NormalizedOf(a + "/" + name + "/../" + b) == NormalizedOf(a + "/" + b)
    ensures NormalizedOf("/../" + b) == NormalizedOf("/" + b)
    ensures AllPlain(Split(b)) ==> NormalizedOf("/" + b) == "/" + b
  {
    hide Split, Walked, Join, NormalizedOf, Plain, AllPlain;
    WalkedReduces(Split(a), name, Split(b));
    NormalizedAlike(a, "", b);
    NormalizedAlike(a, ".", b);
    assert a + "/" + "" + "/" + b == a + "//" + b && a + "/" + "." + "/" + b == a + "/./" + b;
    if Plain(name) {
      StepAndBack(a, name, b);
    }
    BackAtRoot(b);
    if AllPlain(Split(b)) {
      NamesStay(b);
    }
  }

  lemma {:induction false} JoinSplit(s: string)
    ensures Join(Split(s)) == s
  {
    hide Split, Join, WithChar;
    if s == "" {
      NothingSplit();
    } else {
      var (before, c) := (s[..|s| - 1], s[|s| - 1]);
      JoinSplit(before);
      SplitNext(s);
      if c == '/' {
        JoinSlash(Split(before));
      } else {
        JoinWith(Split(before), c);
      }
      assert s == before + [c];
    }
  }

  lemma NothingSplit()
    ensures Split("") == [""] && Join([""]) == ""
  {
  }

  lemma SplitNext(s: string)
    requires s != ""
    ensures Split(s) == WithChar(Split(s[..|s| - 1]), s[|s| - 1])
  {
  }

  lemma JoinSlash(parts: seq<string>)
    requires |parts| > 0
    ensures Join(WithChar(parts, '/')) == Join(parts) + "/"
  {
    assert (parts + [""])[..|parts|] == parts;
    assert Join(parts) + "/" + "" == Join(parts) + "/";
  }

  lemma JoinWith(parts: seq<string>, c: char)
    requires |parts| > 0 && c != '/'
    ensures Join(WithChar(parts, c)) == Join(parts) + [c]
  {
    hide Join, WithChar;
    var (front, last) := (parts[..|parts| - 1], parts[|parts| - 1]);
    assert parts == front + [last];
    WithCharOn(front, last, c);
    JoinGrows(front, last, c);
  }

  lemma WithCharOn(front: seq<string>, last: string, c: char)
    requires c != '/'
    ensures WithChar(front + [last], c) == front + [last + [c]]
  {
    assert (front + [last])[..|front|] == front;
  }

  lemma JoinGrows(front: seq<string>, last: string, c: char)
    ensures Join(front + [last + [c]]) == Join(front + [last]) + [c]
  {
    JoinLast(front, last);
    JoinLast(front, last + [c]);
    hide Join;
    if front != [] {
      Regrouped(Join(front) + "/", last, [c]);
    }
  }

  lemma Regrouped(a: string, b: string, c: string)
    ensures a + (b + c) == a + b + c
  {
  }

  lemma JoinLast(front: seq<string>, last: string)
    ensures Join(front + [last]) == if front == [] then last else Join(front) + "/" + last
  {
    assert (front + [last])[..|front|] == front;
  }

  // ----- where a path is

  lemma {:induction false} JoinAppend(a: seq<string>, b: seq<string>)
    requires a != [] && b != []
    ensures Join(a + b) == Join(a) + "/" + Join(b)
  {
    var last := |b| - 1;
    assert (a + b)[..|a + b| - 1] == a + b[..last];
    if last > 0 {
      JoinAppend(a, b[..last]);
      assert Join(a) + "/" + Join(b) == Join(a) + "/" + Join(b[..last]) + "/" + b[last];
    } else {
      assert a + b[..last] == a;
    }
  }

  lemma {:induction false} JoinEnds(parts: seq<string>)
    requires AllPlain(parts) && parts != []
    ensures Join(parts) != "" && Join(parts)[|Join(parts)| - 1] != '/'
  {
    var last := |parts| - 1;
    assert Plain(parts[last]);
    if last > 0 {
      JoinEnds(parts[..last]);
    }
  }

  lemma PlainUnslashed(parts: seq<string>)
    requires AllPlain(parts)
    ensures Unslashed(parts)
  {
    forall i | 0 <= i < |parts| ensures '/' !in parts[i] {
      assert Plain(parts[i]);
    }
  }

  /** A root of plain parts, as paths are compared with it. */
  function RootText(work: seq<string>): string {
    if work == [] then "" else "/" + Join(work)
  }

  lemma RootTextIs(work: seq<string>)
    requires AllPlain(work)
    ensures WithoutSlashes("/" + Join(work)) == RootText(work)
    ensures Split(RootText(work)) == [""] + work
  {
    hide Split, Join;
    SplitUncut("");
    if work == [] {
      JoinNone();
      assert WithoutSlashes("") == "" && "/"[..0] == "" && "/" + "" == "/";
    } else {
      JoinEnds(work);
      PlainUnslashed(work);
      SplitJoined(work);
      SplitAfter("", Join(work));
      assert "" + "/" + Join(work) == "/" + Join(work);
    }
  }

  lemma JoinNone()
    ensures Join([]) == ""
  {
  }

  /** A normalized path's text goes on past the root's exactly where its parts go on past the root's. */
  lemma PrefixTold(work: seq<string>, parts: seq<string>)
    requires AllPlain(work) && AllPlain(parts)
    ensures var (root, absolute) := (RootText(work), "/" + Join(parts));
            && (root + "/" <= absolute && |absolute| > |root| + 1 <==> work < parts)
            && (work < parts ==> absolute == root + "/" + Join(parts[|work|..]))
  {
    hide Split, Join;
    var (root, absolute) := (RootText(work), "/" + Join(parts));
    RootTextIs(work);
    if work < parts {
      var rest := parts[|work|..];
      assert parts == work + rest;
      assert AllPlain(rest);
      JoinEnds(rest);
      if work == [] {
        assert rest == parts;
      } else {
        JoinAppend(work, rest);
      }
      assert absolute == root + "/" + Join(rest);
    } else if root + "/" <= absolute && |absolute| > |root| + 1 {
      var rest := absolute[|root| + 1..];
      assert absolute == root + "/" + rest;
      SplitAfter(root, rest);
      JoinNone();
      PlainUnslashed(parts);
      SplitJoined(parts);
      SplitAfter("", Join(parts));
      SplitUncut("");
      assert "" + "/" + Join(parts) == absolute;
      PrefixOf(work, Split(rest), parts);
    }
  }

  lemma PrefixOf(work: seq<string>, rest: seq<string>, parts: seq<string>)
    requires rest != [] && ([""] + work) + rest == [""] + parts
    ensures work < parts
  {
    assert (([""] + work) + rest)[1..] == work + rest && ([""] + parts)[1..] == parts;
  }

  /** The parts a given path comes to: its own from the root of all, or from the work root's where it is relative. */
  function Reached(work: seq<string>, given: string): seq<string> {
    Walked(if given != "" && given[0] == '/' then Split(given) else work + Split(given))
  }

  /**
   A path is inside the work root exactly where its parts begin with the root's and go on,
   and is then what they go on with; else it is outside, as the absolute path it comes to.
   */
  lemma LocateMeans(work: seq<string>, given: string)
    requires AllPlain(work)
    ensures var parts := Reached(work, given);
            Locate("/" + Join(work), given) ==
              if work < parts then Inside(Join(parts[|work|..])) else Outside("/" + Join(parts))
  {
    hide Split, Join, Walked, WithoutSlashes, NormalizedOf, RootText, AllPlain;
    RootTextIs(work);
    var (root, parts) := (RootText(work), Reached(work, given));
    ReachedIs(work, given);
    PrefixTold(work, parts);
    if work < parts {
      AfterRoot(root, Join(parts[|work|..]));
    }
  }

  lemma AfterRoot(root: string, rest: string)
    ensures (root + "/" + rest)[|root| + 1..] == rest
  {
  }

  lemma ReachedIs(work: seq<string>, given: string)
    requires AllPlain(work)
    ensures var whole := if given != "" && given[0] == '/' then given else RootText(work) + "/" + given;
            NormalizedOf(whole) == "/" + Join(Reached(work, given)) && AllPlain(Reached(work, given))
  {
    hide Split, Join, Walked, RootText, AllPlain;
    if given != "" && given[0] == '/' {
      NormalizedParts(given);
    } else {
      RootTextIs(work);
      NormalizedParts(RootText(work) + "/" + given);
      SplitAfter(RootText(work), given);
      WalkedReduces([], "", work + Split(given));
      assert [] + [""] + (work + Split(given)) == [""] + work + Split(given);
      assert [] + (work + Split(given)) == work + Split(given);
    }
  }

  /** What a plan's given path is recorded as, or refused for. */
  lemma ResolveMeans(work: seq<string>, given: string)
    requires AllPlain(work)
    ensures var parts := Reached(work, given);
            ResolvePath("/" + Join(work), given) ==
              if given == "" then Failure(Empty)
              else if !(work < parts) then Failure(OutsideWorkRoot(given))
              else if !EndsWith(Join(parts[|work|..]), PLAN_SUFFIX) then Failure(NotAPlanFile(given))
              else Success(Join(parts[|work|..]))
  {
    hide Locate, Join, Reached;
    LocateMeans(work, given);
  }

  /**
   A path located inside the work root names something at each step, never going back or
   leaving it, and located again is itself.
   */
  lemma InsideStays(workRoot: string, given: string)
    requires Locate(workRoot, given).Inside?
    ensures var path := Locate(workRoot, given).path;
            path != "" && path[0] != '/' && AllPlain(Split(path)) && Locate(workRoot, path) == Inside(path)
  {
    hide Split, Join, Walked, NormalizedOf;
    var root := WithoutSlashes(workRoot);
    var whole := if given != "" && given[0] == '/' then given else root + "/" + given;
    var absolute := NormalizedOf(whole);
    var path := absolute[|root| + 1..];
    NormalizedAgain(whole);
    assert absolute == root + "/" + path;
    SplitAfter(root, path);
    NormalizedParts(whole);
    var parts := Walked(Split(whole));
    PartsPlain(parts, Split(root), Split(path), path);
    FirstPart(path);
  }

  /** What follows the root's parts in a normalized path are plain ones, unless nothing does. */
  lemma PartsPlain(parts: seq<string>, root: seq<string>, rest: seq<string>, path: string)
    requires AllPlain(parts) && root != [] && rest == Split(path) && path != ""
    requires root + rest == [""] + if parts == [] then [""] else parts
    ensures AllPlain(rest)
  {
    SplitNotEmpty(path);
    if parts == [] {
      SecondOfTwo(root, rest);
    } else {
      forall i | 0 <= i < |rest| ensures Plain(rest[i]) {
        assert rest[i] == (root + rest)[|root| + i] == parts[|root| + i - 1];
      }
    }
  }

  lemma SecondOfTwo(root: seq<string>, rest: seq<string>)
    requires root != [] && rest != [] && root + rest == [""] + [""]
    ensures rest == [""]
  {
    assert |root| == 1 && rest[0] == (root + rest)[1];
  }

  lemma {:induction false} SplitNotEmpty(path: string)
    ensures path != "" ==> Split(path) != [""]
  {
    if path != "" && |path| > 1 {
      SplitNotEmpty(path[..|path| - 1]);
    }
  }

  lemma {:induction false} FirstPart(path: string)
    requires path != ""
    ensures path[0] == '/' ==> Split(path)[0] == ""
  {
    if |path| > 1 {
      FirstPart(path[..|path| - 1]);
    }
  }

  /** A path recorded of a plan is a plan's file inside the work root, and resolves to itself. */
  lemma ResolvedStays(workRoot: string, given: string)
    requires ResolvePath(workRoot, given).Success?
    ensures var path := ResolvePath(workRoot, given).value;
            && EndsWith(path, PLAN_SUFFIX) && AllPlain(Split(path)) && ResolvePath(workRoot, path) == Success(path)
  {
    hide Split, Locate;
    InsideStays(workRoot, given);
  }
}
