/**
 A retag, as the store's rules shape it: a scalar target's last added value displaces
 the ones before it and the one the task holds, and the task then takes the change.
 */
module Retags {
  import opened Wrappers
  import opened Tasks
  import Text

  /**
   What the rules say of a tag: its target and its value, and which targets are declared
   scalar.
   */
  datatype Rules = Rules(target: Tag -> string, value: Tag -> Option<string>, scalars: set<string>) {
    predicate IsScalar(tag: Tag) {
      target(tag) in scalars
    }
  }

  // ----- what collapsing means

  /** `add[i]` is the last of `add` with its target. */
  predicate IsLast(rules: Rules, add: seq<Tag>, i: nat) {
    i < |add| && forall j :: i < j < |add| ==> rules.target(add[j]) != rules.target(add[i])
  }

  /** A tag `add` gives a target, and every tag given a target that is not scalar. */
  predicate Survives(rules: Rules, add: seq<Tag>, i: nat) {
    i < |add| && (rules.IsScalar(add[i]) ==> IsLast(rules, add, i))
  }

  /** `held` is of a scalar target whose last added tag has another value. */
  predicate IsDisplaced(rules: Rules, add: seq<Tag>, held: Tag) {
    rules.IsScalar(held) &&
    exists i :: 0 <= i < |add| && IsLast(rules, add, i) && rules.target(add[i]) == rules.target(held) &&
                rules.value(add[i]) != rules.value(held)
  }

  function Kept(rules: Rules, add: seq<Tag>, upTo: nat): seq<Tag>
    requires upTo <= |add|
  {
    if upTo == 0 then [] else
      Kept(rules, add, upTo - 1) + (if Survives(rules, add, upTo - 1) then [add[upTo - 1]] else [])
  }

  function Displaced(rules: Rules, add: seq<Tag>, held: seq<Tag>): seq<Tag> {
    if held == [] then [] else
      var last := |held| - 1;
      Displaced(rules, add, held[..last]) + (if IsDisplaced(rules, add, held[last]) then [held[last]] else [])
  }

  lemma {:induction false} KeptHolds(rules: Rules, add: seq<Tag>, upTo: nat)
    requires upTo <= |add|
    ensures forall tag :: tag in Kept(rules, add, upTo) <==>
              exists i :: 0 <= i < upTo && add[i] == tag && Survives(rules, add, i)
  {
    if upTo > 0 {
      KeptHolds(rules, add, upTo - 1);
    }
  }

  lemma {:induction false} DisplacedHolds(rules: Rules, add: seq<Tag>, held: seq<Tag>)
    ensures forall tag :: tag in Displaced(rules, add, held) <==> tag in held && IsDisplaced(rules, add, tag)
  {
    if held != [] {
      var last := |held| - 1;
      DisplacedHolds(rules, add, held[..last]);
      assert held == held[..last] + [held[last]];
    }
  }

  /** Every target some tag is added of has a last one. */
  lemma {:induction false} SomeLast(rules: Rules, add: seq<Tag>, target: string)
    requires exists i :: 0 <= i < |add| && rules.target(add[i]) == target
    ensures exists i :: 0 <= i < |add| && IsLast(rules, add, i) && rules.target(add[i]) == target
  {
    var i :| 0 <= i < |add| && rules.target(add[i]) == target;
    while exists j :: i < j < |add| && rules.target(add[j]) == target
      invariant 0 <= i < |add| && rules.target(add[i]) == target
      decreases |add| - i
    {
      var j :| i < j < |add| && rules.target(add[j]) == target;
      i := j;
    }
  }

  // ----- collapsing

  /** Each scalar target `add` gives, and where its last tag is. */
  predicate Lasts(rules: Rules, add: seq<Tag>, last: map<string, nat>) {
    && (forall i :: 0 <= i < |add| && rules.IsScalar(add[i]) ==> rules.target(add[i]) in last)
    && (forall target :: target in last ==>
          target in rules.scalars && IsLast(rules, add, last[target]) && rules.target(add[last[target]]) == target)
  }

  method LastOfEach(rules: Rules, add: seq<Tag>) returns (last: map<string, nat>)
    ensures Lasts(rules, add, last)
  {
    last := map[];
    for i := 0 to |add|
      invariant Lasts(rules, add[..i], last)
    {
      hide Lasts;
      assert add[..i + 1] == add[..i] + [add[i]];
      if rules.IsScalar(add[i]) {
        last := last[rules.target(add[i]) := i];
      }
    }
    assert add[..|add|] == add;
  }

  lemma LastIsIt(rules: Rules, add: seq<Tag>, last: map<string, nat>, i: nat)
    requires Lasts(rules, add, last) && i < |add| && rules.IsScalar(add[i])
    ensures rules.target(add[i]) in last && (last[rules.target(add[i])] == i <==> IsLast(rules, add, i))
  {
  }

  /** What remains of `add` when each scalar target keeps one value, the last given, and the held tags it replaces. */
  method Collapse(rules: Rules, held: seq<Tag>, add: seq<Tag>) returns (kept: seq<Tag>, displaced: seq<Tag>)
    ensures kept == Kept(rules, add, |add|)
    ensures displaced == Displaced(rules, add, held)
  {
    hide IsLast, IsDisplaced, Lasts;
    var last := LastOfEach(rules, add);
    kept := [];
    for i := 0 to |add|
      invariant kept == Kept(rules, add, i)
    {
      if rules.IsScalar(add[i]) {
        LastIsIt(rules, add, last, i);
      }
      if !rules.IsScalar(add[i]) || last[rules.target(add[i])] == i {
        kept := kept + [add[i]];
      }
    }
    displaced := [];
    for i := 0 to |held|
      invariant displaced == Displaced(rules, add, held[..i])
    {
      assert held[..i + 1][..i] == held[..i];
      var tag := held[i];
      var surviving := Surviving(rules, add, last, tag);
      if surviving.Some? && surviving.value != rules.value(tag) {
        displaced := displaced + [tag];
      }
    }
    assert held[..|held|] == held;
  }

  /** The value that survives of `tag`'s target, when it is scalar and `add` gives it one. */
  function Surviving(rules: Rules, add: seq<Tag>, last: map<string, nat>, tag: Tag): (value: Option<Option<string>>)
    requires Lasts(rules, add, last)
    ensures IsDisplaced(rules, add, tag) <==> value.Some? && value.value != rules.value(tag)
  {
    if rules.IsScalar(tag) && rules.target(tag) in last then Some(rules.value(add[last[rules.target(tag)]])) else None
  }

  // ----- the retag

  /** The command a retag sends, shaped from the task as the kernel loads it. */
  method Shape(rules: Rules, task: TaskState, add: seq<Tag>, remove: seq<Tag>) returns (retag: TaskCommand)
    ensures retag == Shaped(rules, task, add, remove)
  {
    var kept, displaced := Collapse(rules, task.tags, add);
    return Retag(kept, remove + displaced);
  }

  function Shaped(rules: Rules, task: TaskState, add: seq<Tag>, remove: seq<Tag>): TaskCommand {
    Retag(Kept(rules, add, |add|), remove + Displaced(rules, add, task.tags))
  }

  /** The tags the task holds once the retag is decided. */
  function TagsAfter(rules: Rules, task: TaskState, add: seq<Tag>, remove: seq<Tag>): seq<Tag> {
    var decided := Decide(task, true, Shaped(rules, task, add, remove));
    if decided.Success? && decided.value.Some? && decided.value.value.Retagged? then decided.value.value.tags
    else task.tags
  }

  /** `tag`'s target is scalar, and `add` gives it a value. */
  predicate Given(rules: Rules, add: seq<Tag>, tag: Tag) {
    rules.IsScalar(tag) && exists i :: 0 <= i < |add| && rules.target(add[i]) == rules.target(tag)
  }

  /** `add[i]` is the last tag given of `tag`'s scalar target. */
  predicate GivesLast(rules: Rules, add: seq<Tag>, i: nat, tag: Tag) {
    IsLast(rules, add, i) && rules.IsScalar(add[i]) && rules.target(add[i]) == rules.target(tag)
  }

  lemma KeptSome(rules: Rules, add: seq<Tag>)
    ensures Kept(rules, add, |add|) == [] ==> add == []
  {
    if add != [] {
      assert Survives(rules, add, |add| - 1);
    }
  }

  /** What a retag is decided to, as sets of tags: an event exactly when the set changes. */
  lemma RetagDecides(rules: Rules, task: TaskState, add: seq<Tag>, remove: seq<Tag>)
    requires Sound(task) && !task.removed && (add != [] || remove != [])
    ensures var decided := Decide(task, true, Shaped(rules, task, add, remove));
            var after := TagsAfter(rules, task, add, remove);
            && decided.Success?
            && Text.Sorted(after)
            && Text.Elements(after) == Text.Elements(task.tags) + Text.Elements(Kept(rules, add, |add|))
                                       - Text.Elements(remove + Displaced(rules, add, task.tags))
            && (decided.value.Some? <==> Text.Elements(after) != Text.Elements(task.tags))
  {
    hide Kept, Displaced, Text.InsertAll, Text.WithoutAll, Text.Sorted, Status, Text.Trimmed;
    var kept, gone := Kept(rules, add, |add|), remove + Displaced(rules, add, task.tags);
    KeptSome(rules, add);
    Text.InsertAllKeepsOrder([], task.tags);
    Text.SortedUnique(Normalized(task.tags), task.tags);
    Text.InsertAllKeepsOrder(task.tags, kept);
    Text.WithoutAllKeepsOrder(Text.InsertAll(task.tags, kept), gone);
    var after := RetaggedTags(task.tags, kept, gone);
    if Text.Elements(after) == Text.Elements(task.tags) {
      Text.SortedUnique(after, task.tags);
    }
  }

  /** What a retag leaves, tag by tag. */
  predicate Leaves(rules: Rules, task: TaskState, add: seq<Tag>, remove: seq<Tag>, tag: Tag) {
    && (tag in task.tags || AddedLast(rules, add, tag))
    && tag !in remove && !(tag in task.tags && IsDisplaced(rules, add, tag))
  }

  predicate AddedLast(rules: Rules, add: seq<Tag>, tag: Tag) {
    exists i :: 0 <= i < |add| && add[i] == tag && Survives(rules, add, i)
  }

  lemma RetagLeaves(rules: Rules, task: TaskState, add: seq<Tag>, remove: seq<Tag>)
    requires Sound(task) && !task.removed && (add != [] || remove != [])
    ensures forall tag :: tag in TagsAfter(rules, task, add, remove) <==> Leaves(rules, task, add, remove, tag)
  {
    var after := TagsAfter(rules, task, add, remove);
    RetagDecides(rules, task, add, remove);
    KeptHolds(rules, add, |add|);
    DisplacedHolds(rules, add, task.tags);
    hide Sound, Decide, TagsAfter, Kept, Displaced, Survives, IsDisplaced;
    forall tag: Tag ensures tag in after <==> Leaves(rules, task, add, remove, tag) {
      assert tag in after <==> tag in Text.Elements(after);
    }
  }

  /**
   A retag leaves every tag of a scalar target it gives carrying only the last added
   value, whatever the task held, and that last tag, which there always is, on the task
   unless it is removed too.
   Every other tag is held after exactly when it was held or added, and not removed.
   */
  lemma RetagMeans(rules: Rules, task: TaskState, add: seq<Tag>, remove: seq<Tag>)
    requires Sound(task) && !task.removed && (add != [] || remove != [])
    ensures var after := TagsAfter(rules, task, add, remove);
            && (forall i, tag | 0 <= i < |add| && IsLast(rules, add, i) && rules.IsScalar(add[i]) ::
                  tag in after && rules.target(tag) == rules.target(add[i]) ==>
                  rules.value(tag) == rules.value(add[i]))
            && (forall i :: 0 <= i < |add| && IsLast(rules, add, i) && rules.IsScalar(add[i]) ==>
                  (add[i] in after <==> add[i] !in remove))
            && (forall tag :: Given(rules, add, tag) ==> exists i :: 0 <= i < |add| && GivesLast(rules, add, i, tag))
            && (forall tag :: !Given(rules, add, tag) ==>
                  (tag in after <==> (tag in task.tags || tag in add) && tag !in remove))
  {
    hide Sound, TagsAfter;
    RetagLeaves(rules, task, add, remove);
    forall tag | Given(rules, add, tag) ensures exists i :: 0 <= i < |add| && GivesLast(rules, add, i, tag) {
      SomeLast(rules, add, rules.target(tag));
      var i :| 0 <= i < |add| && IsLast(rules, add, i) && rules.target(add[i]) == rules.target(tag);
      assert GivesLast(rules, add, i, tag);
    }
  }

  /**
   Of two tags of one scalar target with different values, it is the later given, with none
   of the target after it, that the task has afterwards, and the other, given before or
   held, that it has not.
   */
  lemma LastAddedWins(rules: Rules, task: TaskState, add: seq<Tag>, i: nat, other: Tag)
    requires Sound(task) && !task.removed && i < |add| && rules.target(add[i]) in rules.scalars
    requires forall j :: i < j < |add| ==> rules.target(add[j]) != rules.target(add[i])
    requires rules.target(other) == rules.target(add[i]) && rules.value(other) != rules.value(add[i])
    ensures add[i] in TagsAfter(rules, task, add, []) && other !in TagsAfter(rules, task, add, [])
  {
    hide Sound, TagsAfter;
    RetagMeans(rules, task, add, []);
    assert IsLast(rules, add, i) && rules.IsScalar(add[i]);
  }
}
