/**
 Pruning: removing old finished tasks and purging their streams, which frees their harps,
 and reporting what the tasks left still say of them.
 */
module Prunes {
  import opened Wrappers
  import opened Streams
  import opened Tasks
  import opened TaskStores
  import TaskLists
  import Durations
  import Text

  // ----- the order added

  /** When a task was added, then its harp. */
  predicate AddedBefore(a: TaskState, b: TaskState) {
    var (x, y) := (a.createdAt, b.createdAt);
    || x.seconds < y.seconds
    || (x.seconds == y.seconds && (x.nanos < y.nanos || (x.nanos == y.nanos && Text.Less(a.harpId, b.harpId))))
  }

  predicate InOrder(tasks: seq<TaskState>) {
    forall i, j :: 0 <= i < j < |tasks| ==> AddedBefore(tasks[i], tasks[j])
  }

  /** `task` after every task it was not added before. */
  function Insert(tasks: seq<TaskState>, task: TaskState): seq<TaskState> {
    if tasks == [] || !AddedBefore(task, tasks[|tasks| - 1]) then tasks + [task]
    else Insert(tasks[..|tasks| - 1], task) + [tasks[|tasks| - 1]]
  }

  /** Tasks in the order added. */
  function Sorted(tasks: seq<TaskState>): seq<TaskState> {
    if tasks == [] then [] else Insert(Sorted(tasks[..|tasks| - 1]), tasks[|tasks| - 1])
  }

  predicate NoHarpTwice(tasks: seq<TaskState>) {
    forall i, j :: 0 <= i < j < |tasks| ==> tasks[i].harpId != tasks[j].harpId
  }

  lemma OrderIsTotal(a: TaskState, b: TaskState)
    ensures !(AddedBefore(a, b) && AddedBefore(b, a)) && !AddedBefore(a, a)
    ensures a.harpId != b.harpId ==> AddedBefore(a, b) || AddedBefore(b, a)
  {
    Text.LessIrreflexive(a.harpId);
    Text.LessTotal(a.harpId, b.harpId);
    if Text.Less(a.harpId, b.harpId) && Text.Less(b.harpId, a.harpId) {
      Text.LessTransitive(a.harpId, b.harpId, a.harpId);
    }
  }

  lemma OrderIsTransitive(a: TaskState, b: TaskState, c: TaskState)
    requires AddedBefore(a, b) && AddedBefore(b, c)
    ensures AddedBefore(a, c)
  {
    if Text.Less(a.harpId, b.harpId) && Text.Less(b.harpId, c.harpId) {
      Text.LessTransitive(a.harpId, b.harpId, c.harpId);
    }
  }

  lemma {:induction false} InsertHolds(tasks: seq<TaskState>, task: TaskState)
    ensures forall t :: t in Insert(tasks, task) <==> t in tasks || t == task
    ensures |Insert(tasks, task)| == |tasks| + 1
  {
    if !(tasks == [] || !AddedBefore(task, tasks[|tasks| - 1])) {
      InsertHolds(tasks[..|tasks| - 1], task);
      assert tasks == tasks[..|tasks| - 1] + [tasks[|tasks| - 1]];
    }
  }

  lemma {:induction false} InsertInOrder(tasks: seq<TaskState>, task: TaskState)
    requires InOrder(tasks) && forall t :: t in tasks ==> t.harpId != task.harpId
    ensures InOrder(Insert(tasks, task))
  {
    hide AddedBefore;
    if tasks != [] {
      var last := tasks[|tasks| - 1];
      OrderIsTotal(task, last);
      if AddedBefore(task, last) {
        var before := tasks[..|tasks| - 1];
        InsertInOrder(before, task);
        InsertHolds(before, task);
        forall i | 0 <= i < |Insert(before, task)| ensures AddedBefore(Insert(before, task)[i], last) {
          assert Insert(before, task)[i] in Insert(before, task);
        }
      } else {
        forall i | 0 <= i < |tasks| ensures AddedBefore(tasks[i], task) {
          if i < |tasks| - 1 {
            OrderIsTransitive(tasks[i], last, task);
          }
        }
      }
    }
  }

  lemma {:induction false} SortedHolds(tasks: seq<TaskState>)
    ensures (forall t :: t in Sorted(tasks) <==> t in tasks) && |Sorted(tasks)| == |tasks|
  {
    if tasks != [] {
      hide Insert;
      var last := |tasks| - 1;
      SortedHolds(tasks[..last]);
      InsertHolds(Sorted(tasks[..last]), tasks[last]);
      assert tasks == tasks[..last] + [tasks[last]];
    }
  }

  lemma {:induction false} SortedInOrder(tasks: seq<TaskState>)
    requires NoHarpTwice(tasks)
    ensures InOrder(Sorted(tasks))
  {
    if tasks != [] {
      hide Insert, AddedBefore;
      var last := |tasks| - 1;
      SortedInOrder(tasks[..last]);
      SortedHolds(tasks[..last]);
      InsertInOrder(Sorted(tasks[..last]), tasks[last]);
    }
  }

  /** Tasks in order are one sequence, whatever order they were read in. */
  lemma {:induction false} OrderIsUnique(a: seq<TaskState>, b: seq<TaskState>)
    requires InOrder(a) && InOrder(b) && forall t :: t in a <==> t in b
    ensures a == b
  {
    hide AddedBefore;
    LastIsIn(a);
    LastIsIn(b);
    if a != [] {
      LastAlike(a, b);
      var (x, y) := (a[..|a| - 1], b[..|b| - 1]);
      assert a == x + [a[|a| - 1]] && b == y + [b[|b| - 1]];
      NotBeforeItself(a);
      NotBeforeItself(b);
      forall t ensures t in x <==> t in y {
        assert t in a <==> t in x || t == a[|a| - 1];
        assert t in b <==> t in y || t == b[|b| - 1];
      }
      OrderIsUnique(x, y);
    }
  }

  lemma LastIsIn(tasks: seq<TaskState>)
    ensures tasks == [] || tasks[|tasks| - 1] in tasks
  {
  }

  lemma NotBeforeItself(tasks: seq<TaskState>)
    requires InOrder(tasks) && tasks != []
    ensures tasks[|tasks| - 1] !in tasks[..|tasks| - 1]
  {
    hide AddedBefore;
    OrderIsTotal(tasks[|tasks| - 1], tasks[|tasks| - 1]);
  }

  lemma LastAlike(a: seq<TaskState>, b: seq<TaskState>)
    requires InOrder(a) && InOrder(b) && (forall t :: t in a <==> t in b) && a != [] && b != []
    ensures a[|a| - 1] == b[|b| - 1]
  {
    hide AddedBefore;
    var (x, y) := (a[|a| - 1], b[|b| - 1]);
    assert x in b && y in a;
    OrderIsTotal(x, y);
  }

  // ----- what a prune selects by

  /** What a prune selects by; whether a task's tags match the query is taken task by task. */
  datatype Selection = Selection(statuses: seq<string>, before: Timestamp, matches: (string, seq<Tag>) -> bool)

  /** Live, in one of the statuses, and its status last changed before the cut. */
  predicate Dated(selection: Selection, task: TaskState) {
    && !task.removed && task.status in selection.statuses
    && Durations.Earlier(task.statusSetAt, selection.before)
  }

  predicate Qualifies(selection: Selection, task: TaskState) {
    Dated(selection, task) && selection.matches(task.harpId, task.tags)
  }

  datatype StatusRefusal = BlankStatus | ReservedStatus(status: string) | NoneGiven

  /** The first of the statuses asked for that claims a status class, if any does. */
  function FirstClass(asked: seq<string>): (class_: Option<string>)
    ensures class_.None? ==> forall s :: s in asked ==> !IsClass(Text.Trim(s))
    ensures class_.Some? ==> IsClass(class_.value) && exists s :: s in asked && Text.Trim(s) == class_.value
  {
    if asked == [] then None
    else if IsClass(Text.Trim(asked[0])) then Some(Text.Trim(asked[0]))
    else FirstClass(asked[1..])
  }

  predicate IsClass(status: string) {
    status != "" && status[0] == STATUS_CLASS_SIGIL
  }

  /** The statuses asked for, trimmed: at least one, none blank, none a status class. */
  function StatusesAsked(asked: seq<string>): (statuses: Result<seq<string>, StatusRefusal>)
    ensures statuses.Success? ==> |statuses.value| == |asked| > 0 && forall i :: 0 <= i < |asked| ==>
              statuses.value[i] == Text.Trim(asked[i]) != "" && !IsClass(statuses.value[i])
    ensures statuses == Failure(BlankStatus) <==> exists s :: s in asked && Text.Trim(s) == ""
    ensures statuses == Failure(NoneGiven) <==> asked == []
    ensures statuses.Failure? && statuses.error.ReservedStatus? ==>
              IsClass(statuses.error.status) && exists s :: s in asked && Text.Trim(s) == statuses.error.status
  {
    if exists s :: s in asked && Text.Trim(s) == "" then Failure(BlankStatus)
    else if FirstClass(asked).Some? then Failure(ReservedStatus(FirstClass(asked).value))
    else if asked == [] then Failure(NoneGiven)
    else
      assert forall i :: 0 <= i < |asked| ==> asked[i] in asked;
      Success(seq(|asked|, i requires 0 <= i < |asked| => Text.Trim(asked[i])))
  }

  // ----- the store, as lists show it

  /** Every stream is one task's, rooted by its harp. */
  ghost predicate AllRooted(store: Store) {
    forall harp :: harp in store ==> TaskLists.Rooted(Root(harp), store[harp])
  }

  /** How a stream is shown: its task live, or removed by a prune that left it unpurged. */
  datatype Shown = Live | Unpurged

  predicate IsShown(store: Store, harp: string, shown: Shown) {
    harp in store &&
    match shown
    case Live => !Replay(store[harp]).removed
    case Unpurged => TaskLists.EndsPruned(store[harp])
  }

  /** `tasks` are those the store shows so, each once, as their streams leave them. */
  ghost predicate Lists(store: Store, tasks: seq<TaskState>, shown: Shown) {
    && NoHarpTwice(tasks)
    && (forall t :: t in tasks ==> IsShown(store, t.harpId, shown) && t == Replay(store[t.harpId]))
    && forall harp :: IsShown(store, harp, shown) ==> Replay(store[harp]) in tasks
  }

  lemma RootedTask(store: Store, harp: string)
    requires AllRooted(store) && harp in store
    ensures store[harp] != [] && History(store[harp]) && Replay(store[harp]).harpId == harp != ""
    ensures Sound(Replay(store[harp]))
    ensures TaskLists.EndsPruned(store[harp]) ==> Replay(store[harp]).removed
  {
    HistorySound(store[harp]);
    TaskLists.RootedHarp(Root(harp), store[harp]);
  }

  /** `tasks` are a list's, each once. */
  ghost predicate Reads(list: map<string, TaskState>, tasks: seq<TaskState>) {
    && NoHarpTwice(tasks)
    && (forall t :: t in tasks ==> t.harpId in list && list[t.harpId] == t)
    && forall harp :: harp in list ==> list[harp] in tasks
  }

  /** What is read of a task list caught up with the store is what the store shows. */
  lemma ReadListsAreShown(store: Store, held: TaskLists.Held, entries: map<string, TaskState>,
                          unpurged: map<string, TaskState>, tasks: seq<TaskState>, left: seq<TaskState>)
    requires AllRooted(store) && forall harp :: StreamOf(store, harp) == TaskLists.Of(held, harp)
    requires TaskLists.ListedBy(entries, unpurged, held) && Reads(entries, tasks) && Reads(unpurged, left)
    ensures Lists(store, tasks, Live) && Lists(store, left, Unpurged)
  {
    hide Replay, TaskLists.Of;
    forall harp
      ensures harp in entries <==> IsShown(store, harp, Live)
      ensures harp in unpurged <==> IsShown(store, harp, Unpurged)
      ensures harp in store ==> (harp in entries ==> entries[harp] == Replay(store[harp]))
                                && (harp in unpurged ==> unpurged[harp] == Replay(store[harp]))
    {
      assert TaskLists.ListedAs(entries, unpurged, harp, TaskLists.Of(held, harp));
      if harp in store {
        RootedTask(store, harp);
      }
    }
  }

  // ----- taking one task

  /** Its stream purged, if it holds a removed task: how many events that deletes. */
  function Purged(store: Store, harp: string): (Store, nat) {
    var stream := StreamOf(store, harp);
    if stream == [] || !Replay(stream).removed then (store, 0) else (store - {harp}, |stream|)
  }

  /**
   A task taken as selected: removed and purged when `apply`, else only counted. `None` when
   it was not taken after all.
   */
  function Taken(store: Store, selection: Selection, task: TaskState, apply: bool, at: Timestamp, id: string)
    : (Store, Option<nat>)
  {
    var harp := task.harpId;
    var stream := StreamOf(store, harp);
    if !apply then (store, Some(|stream| + if task.removed then 0 else 1))
    else if task.removed then
      var (purged, deleted) := Purged(store, harp);
      (purged, if deleted > 0 then Some(deleted) else None)
    else
      var held := Replay(stream);
      if !(held.removed || Qualifies(selection, held)) then (store, None) else
      var (removed, handled) := Committed(store, harp, RemoveTask(Pruned), at, id);
      if handled.Rejected? then (removed, None)
      else var (purged, deleted) := Purged(removed, harp); (purged, Some(deleted))
  }

  /** Whether a stream is one a prune may purge: its task qualifies, or it was removed already. */
  predicate MayGo(selection: Selection, stream: Stream, removed: bool) {
    stream != [] && if removed then Replay(stream).removed else Qualifies(selection, Replay(stream))
  }

  lemma RemovalDecided(stream: Stream)
    requires stream != [] && Sound(Replay(stream))
    ensures Decide(Replay(stream), true, RemoveTask(Pruned)) ==
            if Replay(stream).removed then Failure(AlreadyRemoved(Replay(stream).harpId))
            else Success(Some(TaskRemoved(Pruned)))
  {
    hide Replay, Text.Sorted, Text.Trimmed;
  }

  lemma RemovalReplays(stream: Stream, at: Timestamp, id: string)
    ensures Replay(stream + [Recorded(TaskRemoved(Pruned), at, id)]).removed
  {
    var grown := stream + [Recorded(TaskRemoved(Pruned), at, id)];
    assert grown[..|grown| - 1] == stream;
  }

  /**
   Whatever became of the store since a task was selected, taking it purges its own stream
   or nothing, and that only where the stream now holds a task that qualifies, or, of a task
   selected as removed, one that is: a live task that does not qualify is never touched.
   */
  lemma TakenSpares(store: Store, selection: Selection, task: TaskState, at: Timestamp, id: string)
    requires task.harpId in store ==> !Found(store[task.harpId], id)
    requires AllRooted(store) && "" !in selection.statuses
    ensures var (after, events) := Taken(store, selection, task, true, at, id);
            var stream := StreamOf(store, task.harpId);
            if MayGo(selection, stream, task.removed)
            then after == store - {task.harpId} && events == Some(|stream| + if task.removed then 0 else 1)
            else after == store && events == None
  {
    hide AllRooted, Replay, Sound, History, TaskLists.EndsPruned, Qualifies, Found, Decide;
    var harp := task.harpId;
    if harp !in store {
      NoTaskQualifies(selection);
    } else {
      RootedTask(store, harp);
      if !task.removed {
        TakenLive(store, selection, task, at, id);
      }
    }
  }

  lemma NoTaskQualifies(selection: Selection)
    requires "" !in selection.statuses
    ensures Replay([]) == NoTask && !Qualifies(selection, NoTask)
  {
  }

  /** A task selected live: its stream's removal is decided where it qualifies still, and then purged. */
  lemma TakenLive(store: Store, selection: Selection, task: TaskState, at: Timestamp, id: string)
    requires task.harpId in store && store[task.harpId] != [] && Sound(Replay(store[task.harpId])) && !task.removed
    requires !Found(store[task.harpId], id)
    ensures Taken(store, selection, task, true, at, id) ==
            if Qualifies(selection, Replay(store[task.harpId])) then (store - {task.harpId}, Some(|store[task.harpId]| + 1))
            else (store, None)
  {
    hide Replay, Sound, Found, Decide;
    var harp := task.harpId;
    var stream := store[harp];
    RemovalDecided(stream);
    RemovalReplays(stream, at, id);
    QualifiesLive(selection, Replay(stream));
    hide Qualifies;
    var removed := store[harp := stream + [Recorded(TaskRemoved(Pruned), at, id)]];
    assert removed - {harp} == store - {harp};
    assert StreamOf(removed, harp) == stream + [Recorded(TaskRemoved(Pruned), at, id)];
  }

  lemma QualifiesLive(selection: Selection, task: TaskState)
    ensures Qualifies(selection, task) ==> !task.removed
  {
  }

  // ----- what qualifies, read off the stream

  /**
   A stream whose task a prune takes: not removed, its tags matching, and the status it was
   last given, by its add or by a change, one of those asked for and given before the cut.
   */
  ghost predicate Ripe(selection: Selection, stream: Stream) {
    && stream != [] && stream[0].event.TaskAdded? && !stream[|stream| - 1].event.TaskRemoved?
    && selection.matches(stream[0].event.harpId, Replay(stream).tags)
    && exists k: nat :: LastStatus(stream, k) && stream[k].event.status in selection.statuses
                        && Durations.Earlier(stream[k].at, selection.before)
  }

  lemma QualifiesMeans(selection: Selection, stream: Stream)
    requires History(stream) && stream != []
    ensures Qualifies(selection, Replay(stream)) <==> Ripe(selection, stream)
  {
    hide History, Replay, Sound, Durations.Earlier;
    HistorySound(stream);
    StatusSinceLastSet(stream);
    var k: nat :| LastStatus(stream, k);
  }

  // ----- what a prune selects

  /** The live tasks that qualify. */
  function Matching(selection: Selection, tasks: seq<TaskState>): seq<TaskState> {
    if tasks == [] then [] else
      var last := tasks[|tasks| - 1];
      Matching(selection, tasks[..|tasks| - 1]) + (if Qualifies(selection, last) then [last] else [])
  }

  /** The tasks a prune takes, in the order added: those that qualify, and those left unpurged. */
  function Selected(selection: Selection, tasks: seq<TaskState>, unpurged: seq<TaskState>): seq<TaskState> {
    Sorted(Matching(selection, tasks) + unpurged)
  }

  function Harps(tasks: seq<TaskState>): (harps: set<string>)
    ensures forall t :: t in tasks ==> t.harpId in harps
    ensures forall harp :: harp in harps ==> exists t :: t in tasks && t.harpId == harp
  {
    set t | t in tasks :: t.harpId
  }

  /** The events purged with `tasks`, the removals recorded first included. */
  function Cost(store: Store, tasks: seq<TaskState>): nat {
    if tasks == [] then 0 else
      var last := tasks[|tasks| - 1];
      Cost(store, tasks[..|tasks| - 1]) + |StreamOf(store, last.harpId)| + if last.removed then 0 else 1
  }

  function Survivors(tasks: seq<TaskState>, gone: set<string>): seq<TaskState> {
    if tasks == [] then [] else
      var last := tasks[|tasks| - 1];
      Survivors(tasks[..|tasks| - 1], gone) + (if last.harpId in gone then [] else [last])
  }

  // ----- what still names a pruned task

  datatype Via = ViaTag(tag: Tag) | ViaText | ViaTrigger

  datatype Dangling = Dangling(harpId: string, pruned: string, via: Via)

  predicate HarpChar(c: char) {
    'a' <= c <= 'z' || '0' <= c <= '9' || c == '-'
  }

  /** The characters of a harp, listed. */
  lemma HarpCharsAre(c: char)
    ensures HarpChar(c) <==> c in "abcdefghijklmnopqrstuvwxyz0123456789-"
  {
  }

  function HarpRun(s: string): (n: nat)
    ensures n <= |s| && (forall i :: 0 <= i < n ==> HarpChar(s[i])) && (n < |s| ==> !HarpChar(s[n]))
  {
    if s == "" || !HarpChar(s[0]) then 0 else
      assert forall i :: 0 < i < |s| ==> s[i] == s[1..][i - 1];
      1 + HarpRun(s[1..])
  }

  /** The words of a text: maximal stretches of harp characters. */
  function Words(s: string): seq<string>
    decreases |s|
  {
    if s == "" then []
    else if !HarpChar(s[0]) then Words(s[1..])
    else [s[..HarpRun(s)]] + Words(s[HarpRun(s)..])
  }

  /** From `i` to `j` is one whole run of a harp's characters. */
  predicate Run(s: string, i: int, j: int) {
    && 0 <= i < j <= |s| && (forall k :: i <= k < j ==> HarpChar(s[k]))
    && (i > 0 ==> !HarpChar(s[i - 1])) && (j < |s| ==> !HarpChar(s[j]))
  }

  predicate HasWord(s: string, word: string) {
    exists i, j :: 0 <= i < j <= |s| && Run(s, i, j) && s[i..j] == word
  }

  /** How much of a string its first word takes, or what is no word. */
  function FirstPart(s: string): (n: nat)
    requires s != ""
    ensures 0 < n <= |s|
  {
    if HarpChar(s[0]) then HarpRun(s) else 1
  }

  /** The runs past the first part are those of what follows it. */
  lemma RunShifts(s: string, i: int, j: int)
    requires s != "" && i >= FirstPart(s)
    ensures Run(s, i, j) <==> Run(s[FirstPart(s)..], i - FirstPart(s), j - FirstPart(s))
  {
    hide HarpChar;
    var n := FirstPart(s);
    var rest := s[n..];
    assert forall k :: 0 <= k < |rest| ==> rest[k] == s[k + n];
    if Run(rest, i - n, j - n) {
      assert forall k :: i <= k < j ==> s[k] == rest[k - n];
    }
  }

  /** A string's first run, if it begins with one, is its first part. */
  lemma FirstRun(s: string, i: int, j: int)
    requires s != "" && i < FirstPart(s)
    ensures Run(s, i, j) <==> i == 0 && j == FirstPart(s) && HarpChar(s[0])
  {
    hide HarpChar;
  }

  /** A word is found exactly where it stands whole, never inside a longer one. */
  lemma {:induction false} WordsAreRuns(s: string, word: string)
    ensures word in Words(s) <==> HasWord(s, word)
    decreases |s|
  {
    if s != "" {
      var n := FirstPart(s);
      WordsAreRuns(s[n..], word);
      HasWordSplits(s, word);
      hide HasWord, HarpChar;
    }
  }

  lemma SliceShifts(s: string, n: nat, i: nat, j: nat)
    requires n <= |s| && i <= j <= |s| - n
    ensures s[i + n..j + n] == s[n..][i..j]
  {
  }

  /** A word of what follows the first part stands in the whole. */
  lemma LaterWord(s: string, word: string)
    requires s != "" && HasWord(s[FirstPart(s)..], word)
    ensures HasWord(s, word)
  {
    hide Run, HarpChar, HarpRun, FirstPart;
    var n := FirstPart(s);
    var i, j :| 0 <= i < j <= |s[n..]| && Run(s[n..], i, j) && s[n..][i..j] == word;
    RunShifts(s, i + n, j + n);
    SliceShifts(s, n, i, j);
    assert Run(s, i + n, j + n);
  }

  /** A word of the whole is its first part or stands in what follows. */
  lemma WordSplits(s: string, word: string)
    requires s != "" && HasWord(s, word)
    ensures (HarpChar(s[0]) && word == s[..FirstPart(s)]) || HasWord(s[FirstPart(s)..], word)
  {
    hide Run, HarpChar, HarpRun, FirstPart;
    var n := FirstPart(s);
    var i, j :| 0 <= i < j <= |s| && Run(s, i, j) && s[i..j] == word;
    if i >= n {
      RunShifts(s, i, j);
      SliceShifts(s, n, i - n, j - n);
      assert Run(s[n..], i - n, j - n);
    } else {
      FirstRun(s, i, j);
      assert s[0..n] == s[..n];
    }
  }

  lemma HasWordSplits(s: string, word: string)
    requires s != ""
    ensures HasWord(s, word) <==> (HarpChar(s[0]) && word == s[..FirstPart(s)]) || HasWord(s[FirstPart(s)..], word)
  {
    hide HasWord, Run, HarpChar, FirstPart;
    if HasWord(s, word) {
      WordSplits(s, word);
    }
    if HasWord(s[FirstPart(s)..], word) {
      LaterWord(s, word);
    }
    if HarpChar(s[0]) && word == s[..FirstPart(s)] {
      FirstWord(s);
    }
  }

  lemma FirstWord(s: string)
    requires s != "" && HarpChar(s[0])
    ensures HasWord(s, s[..FirstPart(s)])
  {
    hide Run, HarpChar, FirstPart;
    FirstRun(s, 0, FirstPart(s));
    assert s[0..FirstPart(s)] == s[..FirstPart(s)];
  }

  /** The words that name a pruned harp, each once. */
  function Naming(words: seq<string>, gone: set<string>): seq<string> {
    if words == [] then [] else
      var before := Naming(words[..|words| - 1], gone);
      var word := words[|words| - 1];
      if word in gone && word !in before then before + [word] else before
  }

  function Noted(harp: string, names: seq<string>, via: Via): (noted: seq<Dangling>)
    ensures forall d :: d in noted <==> d.harpId == harp && d.via == via && d.pruned in names
  {
    if names == [] then [] else
      assert forall d: Dangling :: d.pruned in names <==>
               d.pruned in names[..|names| - 1] || d.pruned == names[|names| - 1];
      Noted(harp, names[..|names| - 1], via) + [Dangling(harp, names[|names| - 1], via)]
  }

  /** What one text of a task names. */
  function NotedIn(task: TaskState, gone: set<string>, text: string, via: Via): seq<Dangling> {
    Noted(task.harpId, Naming(Words(text), gone), via)
  }

  function TagsNoted(task: TaskState, gone: set<string>, tags: seq<Tag>): seq<Dangling> {
    if tags == [] then [] else
      var tag := tags[|tags| - 1];
      TagsNoted(task, gone, tags[..|tags| - 1]) + NotedIn(task, gone, tag, ViaTag(tag))
  }

  /** Every place a task names a harp in `gone`: its tags, then its text, then its trigger. */
  function TaskDangling(task: TaskState, gone: set<string>): seq<Dangling> {
    TagsNoted(task, gone, task.tags) + NotedIn(task, gone, task.text, ViaText) +
    NotedIn(task, gone, task.trigger, ViaTrigger)
  }

  function AllDangling(survivors: seq<TaskState>, gone: set<string>): seq<Dangling> {
    if survivors == [] then [] else
      AllDangling(survivors[..|survivors| - 1], gone) + TaskDangling(survivors[|survivors| - 1], gone)
  }

  method FindDangling(survivors: seq<TaskState>, gone: set<string>) returns (found: seq<Dangling>)
    ensures found == AllDangling(survivors, gone)
  {
    hide TaskDangling;
    found := [];
    for i := 0 to |survivors|
      invariant found == AllDangling(survivors[..i], gone)
    {
      assert survivors[..i + 1][..i] == survivors[..i];
      var noted := NoteTask(survivors[i], gone);
      found := found + noted;
    }
    assert survivors[..|survivors|] == survivors;
  }

  method NoteTask(task: TaskState, gone: set<string>) returns (found: seq<Dangling>)
    ensures found == TaskDangling(task, gone)
  {
    hide NotedIn;
    found := [];
    for k := 0 to |task.tags|
      invariant found == TagsNoted(task, gone, task.tags[..k])
    {
      assert task.tags[..k + 1][..k] == task.tags[..k];
      var noted := Note(task, gone, task.tags[k], ViaTag(task.tags[k]));
      found := found + noted;
    }
    assert task.tags[..|task.tags|] == task.tags;
    var inText := Note(task, gone, task.text, ViaText);
    var inTrigger := Note(task, gone, task.trigger, ViaTrigger);
    found := found + inText + inTrigger;
  }

  method Note(task: TaskState, gone: set<string>, text: string, via: Via) returns (found: seq<Dangling>)
    ensures found == NotedIn(task, gone, text, via)
  {
    found := [];
    ghost var names: seq<string> := [];
    var seen: set<string> := {};
    var words := Words(text);
    for i := 0 to |words|
      invariant names == Naming(words[..i], gone) && found == Noted(task.harpId, names, via)
      invariant forall w :: w in seen <==> w in names
    {
      assert words[..i + 1][..i] == words[..i];
      if words[i] in gone && words[i] !in seen {
        assert (names + [words[i]])[..|names|] == names;
        seen := seen + {words[i]};
        names := names + [words[i]];
        found := found + [Dangling(task.harpId, words[i], via)];
      }
    }
    assert words[..|words|] == words;
  }

  /** Where a task says something: what a reference stands in. */
  predicate Says(task: TaskState, via: Via, text: string) {
    match via
    case ViaTag(tag) => tag in task.tags && text == tag
    case ViaText => text == task.text
    case ViaTrigger => text == task.trigger
  }

  lemma {:induction false} NamingHolds(words: seq<string>, gone: set<string>)
    ensures forall w :: w in Naming(words, gone) <==> w in words && w in gone
  {
    if words != [] {
      NamingHolds(words[..|words| - 1], gone);
      assert words == words[..|words| - 1] + [words[|words| - 1]];
    }
  }

  lemma NotedInMeans(task: TaskState, gone: set<string>, text: string, via: Via)
    ensures forall d :: d in NotedIn(task, gone, text, via) <==>
              d.harpId == task.harpId && d.via == via && d.pruned in gone && HasWord(text, d.pruned)
  {
    hide Words, HasWord;
    NamingHolds(Words(text), gone);
    forall word ensures word in Words(text) <==> HasWord(text, word) { WordsAreRuns(text, word); }
  }

  lemma {:induction false} TagsNotedMean(task: TaskState, gone: set<string>, tags: seq<Tag>)
    ensures forall d :: d in TagsNoted(task, gone, tags) <==>
              d.harpId == task.harpId && d.pruned in gone && d.via.ViaTag? && d.via.tag in tags &&
              HasWord(d.via.tag, d.pruned)
  {
    hide HasWord, NotedIn;
    if tags != [] {
      var last := |tags| - 1;
      TagsNotedMean(task, gone, tags[..last]);
      NotedInMeans(task, gone, tags[last], ViaTag(tags[last]));
      assert tags == tags[..last] + [tags[last]];
    }
  }

  ghost predicate Dangles(task: TaskState, gone: set<string>, d: Dangling) {
    d.harpId == task.harpId && d.pruned in gone && exists text :: Says(task, d.via, text) && HasWord(text, d.pruned)
  }

  lemma TaskDangles(task: TaskState, gone: set<string>, d: Dangling)
    ensures Dangles(task, gone, d) <==> d in TaskDangling(task, gone)
  {
    hide HasWord, NotedIn, TagsNoted;
    TagsNotedMean(task, gone, task.tags);
    NotedInMeans(task, gone, task.text, ViaText);
    NotedInMeans(task, gone, task.trigger, ViaTrigger);
    if d.via.ViaTag? {
      assert Says(task, d.via, d.via.tag) <==> d.via.tag in task.tags;
    } else if d.via.ViaText? {
      assert Says(task, d.via, task.text);
    } else {
      assert Says(task, d.via, task.trigger);
    }
  }

  ghost predicate AnyDangles(survivors: seq<TaskState>, gone: set<string>, d: Dangling) {
    exists i :: 0 <= i < |survivors| && Dangles(survivors[i], gone, d)
  }

  lemma OneMoreDangles(survivors: seq<TaskState>, task: TaskState, gone: set<string>, d: Dangling)
    ensures AnyDangles(survivors + [task], gone, d) <==> AnyDangles(survivors, gone, d) || Dangles(task, gone, d)
  {
    hide Dangles;
    var more := survivors + [task];
    assert more[|survivors|] == task && forall i :: 0 <= i < |survivors| ==> more[i] == survivors[i];
  }

  /** What is reported is every place a task left still names a pruned one as a whole word. */
  lemma {:induction false} DanglingMeans(survivors: seq<TaskState>, gone: set<string>, d: Dangling)
    ensures d in AllDangling(survivors, gone) <==> AnyDangles(survivors, gone, d)
  {
    hide TaskDangling, AnyDangles, Dangles, AllDangling;
    if survivors == [] {
      NoneDangles(gone, d);
    } else {
      var (before, task) := (survivors[..|survivors| - 1], survivors[|survivors| - 1]);
      DanglingMeans(before, gone, d);
      TaskDangles(task, gone, d);
      OneMoreDangles(before, task, gone, d);
      OneMoreFound(before, task, gone, d);
      assert survivors == before + [task];
    }
  }

  lemma NoneDangles(gone: set<string>, d: Dangling)
    ensures d !in AllDangling([], gone) && !AnyDangles([], gone, d)
  {
  }

  lemma OneMoreFound(survivors: seq<TaskState>, task: TaskState, gone: set<string>, d: Dangling)
    ensures d in AllDangling(survivors + [task], gone) <==>
              d in AllDangling(survivors, gone) || d in TaskDangling(task, gone)
  {
    hide TaskDangling;
    assert (survivors + [task])[..|survivors|] == survivors;
  }

  // ----- a prune

  datatype Pruning = Pruning(
    pruned: seq<(TaskState, Timestamp)>,
    eventsRemoved: nat,
    tasksRemaining: nat,
    dangling: seq<Dangling>)

  function Reported(tasks: seq<TaskState>): seq<(TaskState, Timestamp)> {
    seq(|tasks|, i requires 0 <= i < |tasks| => (tasks[i], tasks[i].statusSetAt))
  }

  /** What a prune of the store comes to: what it takes, what that deletes, and what is left of `tasks`. */
  function Forecast(store: Store, selection: Selection, listed: seq<TaskState>, unpurged: seq<TaskState>): Pruning {
    var tasks := Sorted(listed);
    var selected := Selected(selection, tasks, Sorted(unpurged));
    var left := Survivors(tasks, Harps(selected));
    Pruning(Reported(selected), Cost(store, selected), |left|, AllDangling(left, Harps(selected)))
  }

  /** The ids commands are sent under next: none is on any stream. */
  ghost predicate NewIds(store: Store, ids: nat -> string) {
    forall n: nat, harp :: harp in store ==> !Found(store[harp], ids(n))
  }

  /** The prune's own store, and the lists it reads there. */
  class Pruner {
    var store: Store

    method InOrderAdded(tasks: seq<TaskState>) returns (sorted: seq<TaskState>)
      ensures sorted == Sorted(tasks)
    {
      sorted := [];
      for i := 0 to |tasks|
        invariant sorted == Sorted(tasks[..i])
      {
        assert tasks[..i + 1][..i] == tasks[..i];
        sorted := Insert(sorted, tasks[i]);
      }
      assert tasks[..|tasks|] == tasks;
    }

    method Select(selection: Selection, tasks: seq<TaskState>, unpurged: seq<TaskState>)
      returns (selected: seq<TaskState>)
      ensures selected == Selected(selection, tasks, unpurged)
    {
      hide Qualifies;
      var matching: seq<TaskState> := [];
      for i := 0 to |tasks|
        invariant matching == Matching(selection, tasks[..i])
      {
        assert tasks[..i + 1][..i] == tasks[..i];
        if Qualifies(selection, tasks[i]) {
          matching := matching + [tasks[i]];
        }
      }
      assert tasks[..|tasks|] == tasks;
      selected := InOrderAdded(matching + unpurged);
    }

    /** Purge a stream, if it holds a removed task. */
    method Purge(harp: string) returns (deleted: nat)
      modifies this
      ensures (store, deleted) == Purged(old(store), harp)
    {
      hide Replay;
      var stream := StreamOf(store, harp);
      if !Replay(stream).removed || stream == [] {
        return 0;
      }
      store := store - {harp};
      deleted := |stream|;
    }

    /** Take a task as selected: remove and purge it when `apply`, else count what that would delete. */
    method Take(selection: Selection, task: TaskState, apply: bool, at: Timestamp, id: string)
      returns (events: Option<nat>)
      modifies this
      ensures (store, events) == Taken(old(store), selection, task, apply, at, id)
    {
      hide Replay, Qualifies, Decide, Found, Purged;
      var stream := StreamOf(store, task.harpId);
      if !apply {
        return Some(|stream| + if task.removed then 0 else 1);
      }
      if task.removed {
        var deleted := Purge(task.harpId);
        return if deleted > 0 then Some(deleted) else None;
      }
      var held := Replay(stream);
      if !(held.removed || Qualifies(selection, held)) {
        return None;
      }
      var (removed, handled) := Committed(store, task.harpId, RemoveTask(Pruned), at, id);
      store := removed;
      if handled.Rejected? {
        return None;
      }
      var deleted := Purge(task.harpId);
      events := Some(deleted);
    }

    /** Prune the store, whose live and unpurged tasks are `listed`, in any order. Applied or not, one forecast. */
    method Prune(selection: Selection, listed: seq<TaskState>, unpurged: seq<TaskState>, apply: bool, at: Timestamp,
                 ids: nat -> string)
      returns (pruning: Pruning)
      requires AllRooted(store) && Lists(store, listed, Live) && Lists(store, unpurged, Unpurged)
      requires NewIds(store, ids) && "" !in selection.statuses
      modifies this
      ensures pruning == Forecast(old(store), selection, listed, unpurged)
      ensures var taken := Harps(Selected(selection, Sorted(listed), Sorted(unpurged)));
              store == if apply then old(store) - taken else old(store)
    {
      hide Sorted, Selected, Qualifies, Replay, AllRooted, Found, Lists, Taken;
      var tasks := InOrderAdded(listed);
      var left := InOrderAdded(unpurged);
      var selected := Select(selection, tasks, left);
      SelectedAre(store, selection, listed, unpurged);
      var pruned: seq<(TaskState, Timestamp)>, events := [], 0;
      for i := 0 to |selected|
        invariant store == if apply then old(store) - Harps(selected[..i]) else old(store)
        invariant pruned == Reported(selected[..i]) && events == Cost(old(store), selected[..i])
      {
        NextTaken(old(store), selection, selected, i, apply, at, ids(i));
        var taken := Take(selection, selected[i], apply, at, ids(i));
        assert taken.Some?;
        events := events + taken.value;
        pruned := pruned + [(selected[i], selected[i].statusSetAt)];
        assert selected[..i + 1] == selected[..i] + [selected[i]];
      }
      assert selected[..|selected|] == selected;
      pruning := Left(tasks, selected, events);
    }

    /** What a prune that took `selected` left of the tasks it read. */
    method Left(tasks: seq<TaskState>, selected: seq<TaskState>, events: nat) returns (pruning: Pruning)
      ensures var left := Survivors(tasks, Harps(selected));
              pruning == Pruning(Reported(selected), events, |left|, AllDangling(left, Harps(selected)))
    {
      var gone := Harps(selected);
      var left: seq<TaskState> := [];
      for i := 0 to |tasks|
        invariant left == Survivors(tasks[..i], gone)
      {
        assert tasks[..i + 1][..i] == tasks[..i];
        if tasks[i].harpId !in gone {
          left := left + [tasks[i]];
        }
      }
      assert tasks[..|tasks|] == tasks;
      var dangling := FindDangling(left, gone);
      pruning := Pruning(Reported(selected), events, |left|, dangling);
    }
  }

  // ----- what it takes, of the store

  /** A task a prune takes: selected of a store, as its stream leaves it. */
  ghost predicate TakenOf(store: Store, selection: Selection, task: TaskState) {
    && task.harpId in store && task == Replay(store[task.harpId])
    && if task.removed then TaskLists.EndsPruned(store[task.harpId]) else Qualifies(selection, task)
  }

  lemma {:induction false} MatchingHolds(selection: Selection, tasks: seq<TaskState>)
    ensures forall t :: t in Matching(selection, tasks) <==> t in tasks && Qualifies(selection, t)
    ensures NoHarpTwice(tasks) ==> NoHarpTwice(Matching(selection, tasks))
  {
    if tasks != [] {
      hide Qualifies;
      var last := |tasks| - 1;
      MatchingHolds(selection, tasks[..last]);
      assert tasks == tasks[..last] + [tasks[last]];
      forall t | t in Matching(selection, tasks[..last]) && NoHarpTwice(tasks)
        ensures t.harpId != tasks[last].harpId
      {
        var i :| 0 <= i < last && tasks[..last][i] == t;
      }
    }
  }

  lemma SortedListed(store: Store, tasks: seq<TaskState>, shown: Shown)
    requires Lists(store, tasks, shown)
    ensures Lists(store, Sorted(tasks), shown) && InOrder(Sorted(tasks))
  {
    hide TaskLists.EndsPruned, Replay, AddedBefore;
    SortedHolds(tasks);
    SortedInOrder(tasks);
    OrderedHarpsDiffer(store, Sorted(tasks));
  }

  /** Tasks in order, each as its stream leaves it, are each of a harp of its own. */
  lemma OrderedHarpsDiffer(store: Store, tasks: seq<TaskState>)
    requires InOrder(tasks) && forall t :: t in tasks ==> t.harpId in store && t == Replay(store[t.harpId])
    ensures NoHarpTwice(tasks)
  {
    hide Replay, AddedBefore;
    forall i, j | 0 <= i < j < |tasks| ensures tasks[i].harpId != tasks[j].harpId {
      assert tasks[i] in tasks && tasks[j] in tasks;
      OrderIsTotal(tasks[i], tasks[j]);
    }
  }

  /** What a prune selects of a store: the live tasks that qualify, and those left unpurged, each once. */
  lemma SelectedAre(store: Store, selection: Selection, listed: seq<TaskState>, unpurged: seq<TaskState>)
    requires AllRooted(store) && Lists(store, listed, Live) && Lists(store, unpurged, Unpurged)
    ensures var selected := Selected(selection, Sorted(listed), Sorted(unpurged));
            InOrder(selected) && NoHarpTwice(selected) && forall t :: t in selected <==> TakenOf(store, selection, t)
  {
    hide Sorted, Replay, AddedBefore, AllRooted, Qualifies, TaskLists.EndsPruned;
    SortedListed(store, listed, Live);
    SortedListed(store, unpurged, Unpurged);
    var (tasks, left) := (Sorted(listed), Sorted(unpurged));
    var matching := Matching(selection, tasks);
    MatchingHolds(selection, tasks);
    MatchingLive(store, selection, tasks);
    UnpurgedRemoved(store, left);
    SortedHolds(matching + left);
    SortedInOrder(matching + left);
    forall t ensures t in matching + left <==> TakenOf(store, selection, t) {
      TakenIsListed(store, selection, tasks, left, t);
    }
    OrderedHarpsDiffer(store, Selected(selection, tasks, left));
  }

  lemma MatchingLive(store: Store, selection: Selection, tasks: seq<TaskState>)
    requires Lists(store, tasks, Live)
    ensures forall t :: t in Matching(selection, tasks) ==> !t.removed
  {
    hide Replay;
    MatchingHolds(selection, tasks);
  }

  lemma UnpurgedRemoved(store: Store, left: seq<TaskState>)
    requires AllRooted(store) && Lists(store, left, Unpurged)
    ensures forall t :: t in left ==> t.removed
  {
    forall t | t in left ensures t.removed {
      RootedTask(store, t.harpId);
    }
  }

  lemma TakenIsListed(store: Store, selection: Selection, tasks: seq<TaskState>, left: seq<TaskState>, t: TaskState)
    requires AllRooted(store) && Lists(store, tasks, Live) && Lists(store, left, Unpurged)
    ensures t in Matching(selection, tasks) + left <==> TakenOf(store, selection, t)
  {
    MatchingHolds(selection, tasks);
    if t.harpId in store {
      RootedTask(store, t.harpId);
      hide Replay, AllRooted, TaskLists.EndsPruned, Matching;
      assert t in tasks <==> IsShown(store, t.harpId, Live) && t == Replay(store[t.harpId]);
      assert t in left <==> IsShown(store, t.harpId, Unpurged) && t == Replay(store[t.harpId]);
    }
  }

  /** Taking the next of what was selected purges it from what the ones before it left. */
  lemma NextTaken(store: Store, selection: Selection, selected: seq<TaskState>, i: nat, apply: bool, at: Timestamp,
                  id: string)
    requires AllRooted(store) && NoHarpTwice(selected) && "" !in selection.statuses && i < |selected|
    requires forall t :: t in selected ==> TakenOf(store, selection, t)
    requires forall harp :: harp in store ==> !Found(store[harp], id)
    ensures Taken(if apply then store - Harps(selected[..i]) else store, selection, selected[i], apply, at, id) ==
            (if apply then store - Harps(selected[..i + 1]) else store,
             Some(|StreamOf(store, selected[i].harpId)| + if selected[i].removed then 0 else 1))
  {
    hide Replay, Qualifies, Found, AllRooted, TaskLists.EndsPruned, Sound, History, Harps;
    var task := selected[i];
    var harp := task.harpId;
    assert task in selected && TakenOf(store, selection, task);
    if apply {
      var before := Harps(selected[..i]);
      RootedTask(store, harp);
      StillRooted(store, before);
      assert StreamOf(store - before, harp) == StreamOf(store, harp) == store[harp];
      TakenSpares(store - before, selection, task, at, id);
      hide Taken;
      assert selected[..i + 1] == selected[..i] + [task];
      HarpsGrow(selected[..i], task);
      assert (store - before) - {harp} == store - (before + {harp});
    }
  }

  lemma StillRooted(store: Store, gone: set<string>)
    requires AllRooted(store)
    ensures AllRooted(store - gone)
  {
    hide TaskLists.Rooted;
  }

  lemma HarpsGrow(tasks: seq<TaskState>, task: TaskState)
    ensures Harps(tasks + [task]) == Harps(tasks) + {task.harpId}
  {
    var more := tasks + [task];
    assert forall t :: t in more <==> t in tasks || t == task;
    assert task in more;
  }

  // ----- what a prune means

  /**
   However its lists were read, one store has one forecast: a prune without `apply` reports
   what the one applied next on the same store takes, deletes, and leaves.
   */
  lemma ForecastIsTheStores(store: Store, selection: Selection, listed: seq<TaskState>, unpurged: seq<TaskState>,
                            listed': seq<TaskState>, unpurged': seq<TaskState>)
    requires Lists(store, listed, Live) && Lists(store, unpurged, Unpurged)
    requires Lists(store, listed', Live) && Lists(store, unpurged', Unpurged)
    ensures Forecast(store, selection, listed, unpurged) == Forecast(store, selection, listed', unpurged')
  {
    OneOrder(store, listed, listed', Live);
    OneOrder(store, unpurged, unpurged', Unpurged);
    hide Sorted, Selected, Lists, AllDangling, Cost, Survivors;
  }

  lemma OneOrder(store: Store, tasks: seq<TaskState>, tasks': seq<TaskState>, shown: Shown)
    requires Lists(store, tasks, shown) && Lists(store, tasks', shown)
    ensures Sorted(tasks) == Sorted(tasks')
  {
    hide Replay, AddedBefore, Sorted, TaskLists.EndsPruned;
    SortedListed(store, tasks, shown);
    SortedListed(store, tasks', shown);
    OrderIsUnique(Sorted(tasks), Sorted(tasks'));
  }

  /**
   An applied prune leaves no stream unpurged and exactly the live tasks it did not select,
   each stream as it was; the tasks it counts as remaining are those.
   */
  lemma PruneLeaves(store: Store, selection: Selection, listed: seq<TaskState>, unpurged: seq<TaskState>)
    requires AllRooted(store) && Lists(store, listed, Live) && Lists(store, unpurged, Unpurged)
    ensures var taken := Harps(Selected(selection, Sorted(listed), Sorted(unpurged)));
            var after := store - taken;
            && AllRooted(after)
            && (forall harp :: !IsShown(after, harp, Unpurged))
            && (forall harp :: IsShown(after, harp, Live) <==>
                                 IsShown(store, harp, Live) && !Qualifies(selection, Replay(store[harp])))
            && Lists(after, Survivors(Sorted(listed), taken), Live)
  {
    hide Sorted, Replay, Qualifies, TaskLists.EndsPruned, TaskLists.Rooted, Selected, Lists;
    SelectedAre(store, selection, listed, unpurged);
    var selected := Selected(selection, Sorted(listed), Sorted(unpurged));
    var taken := Harps(selected);
    forall harp
      ensures harp in taken <==> harp in store && TakenOf(store, selection, Replay(store[harp]))
    {
      if harp in store {
        RootedTask(store, harp);
        assert Replay(store[harp]) in selected <==> TakenOf(store, selection, Replay(store[harp]));
      }
      if harp in taken {
        var t :| t in selected && t.harpId == harp;
        assert TakenOf(store, selection, t);
      }
    }
    forall harp | harp in store ensures TaskLists.EndsPruned(store[harp]) ==> Replay(store[harp]).removed {
      RootedTask(store, harp);
    }
    forall harp | harp in store ensures Replay(store[harp]).harpId == harp {
      RootedTask(store, harp);
    }
    SurvivorsList(store, listed, taken);
  }

  /**
   What a prune takes of a store, read off the streams: each one ripe, and each one a prune
   removed and left; in the order of their adds, those of one instant by harp.
   */
  lemma PruneTakes(store: Store, selection: Selection, listed: seq<TaskState>, unpurged: seq<TaskState>)
    requires AllRooted(store) && Lists(store, listed, Live) && Lists(store, unpurged, Unpurged)
    ensures var selected := Selected(selection, Sorted(listed), Sorted(unpurged));
            && (forall harp :: harp in Harps(selected) <==>
                  harp in store && store[harp] != [] &&
                  (Ripe(selection, store[harp]) || store[harp][|store[harp]| - 1].event == TaskRemoved(Pruned)))
            && forall i, j :: 0 <= i < j < |selected| ==> AddedEarlier(store, selected[i].harpId, selected[j].harpId)
  {
    hide Sorted, Replay, Qualifies, Ripe, TaskLists.EndsPruned, TaskLists.Rooted, Selected, Lists;
    SelectedAre(store, selection, listed, unpurged);
    var selected := Selected(selection, Sorted(listed), Sorted(unpurged));
    forall harp
      ensures harp in Harps(selected) <==>
                harp in store && store[harp] != [] &&
                (Ripe(selection, store[harp]) || store[harp][|store[harp]| - 1].event == TaskRemoved(Pruned))
    {
      TakesOne(store, selection, selected, harp);
    }
    forall i, j | 0 <= i < j < |selected| ensures AddedEarlier(store, selected[i].harpId, selected[j].harpId) {
      assert selected[i] in selected && selected[j] in selected;
      RootedTask(store, selected[i].harpId);
      RootedTask(store, selected[j].harpId);
      StatusSinceLastSet(store[selected[i].harpId]);
      StatusSinceLastSet(store[selected[j].harpId]);
    }
  }

  /** The stream of `a` begins before that of `b`, or with it and its harp comes first. */
  predicate AddedEarlier(store: Store, a: string, b: string) {
    && a in store && b in store && store[a] != [] && store[b] != []
    && (Durations.Earlier(store[a][0].at, store[b][0].at) || (store[a][0].at == store[b][0].at && Text.Less(a, b)))
  }

  lemma TakesOne(store: Store, selection: Selection, selected: seq<TaskState>, harp: string)
    requires AllRooted(store) && forall t :: t in selected <==> TakenOf(store, selection, t)
    ensures harp in Harps(selected) <==>
              harp in store && store[harp] != [] &&
              (Ripe(selection, store[harp]) || store[harp][|store[harp]| - 1].event == TaskRemoved(Pruned))
  {
    hide Replay, Qualifies, Ripe, TaskLists.Rooted, AllRooted;
    if harp in store {
      RootedTask(store, harp);
      QualifiesMeans(selection, store[harp]);
      QualifiesLive(selection, Replay(store[harp]));
      assert Replay(store[harp]) in selected <==> TakenOf(store, selection, Replay(store[harp]));
    }
    if harp in Harps(selected) {
      var t :| t in selected && t.harpId == harp;
      assert TakenOf(store, selection, t);
    }
  }

  // ----- the events a prune deletes

  /** The events of a store, all streams together. */
  ghost function EventsIn(store: Store): nat {
    if store == map[] then 0 else
      var harp :| harp in store;
      |store[harp]| + EventsIn(store - {harp})
  }

  lemma {:induction false} EventsWithout(store: Store, harp: string)
    requires harp in store
    ensures EventsIn(store) == |store[harp]| + EventsIn(store - {harp})
    decreases |store|
  {
    var other :| other in store && EventsIn(store) == |store[other]| + EventsIn(store - {other});
    if other != harp {
      EventsWithout(store - {other}, harp);
      EventsWithout(store - {harp}, other);
      assert store - {other} - {harp} == store - {harp} - {other};
    }
  }

  /** The removals a prune records first: one for each live task it takes. */
  function Removals(tasks: seq<TaskState>): nat {
    if tasks == [] then 0 else Removals(tasks[..|tasks| - 1]) + if tasks[|tasks| - 1].removed then 0 else 1
  }

  /** No event is lost sight of: those there were and the removals recorded are those left and those counted. */
  lemma {:induction false} CostBalances(store: Store, tasks: seq<TaskState>)
    requires NoHarpTwice(tasks) && forall t :: t in tasks ==> t.harpId in store
    ensures EventsIn(store) + Removals(tasks) == EventsIn(store - Harps(tasks)) + Cost(store, tasks)
  {
    hide EventsIn, Harps;
    if tasks == [] {
      assert store - Harps(tasks) == store;
    } else {
      var (before, last) := (tasks[..|tasks| - 1], tasks[|tasks| - 1]);
      CostBalances(store, before);
      assert tasks == before + [last] && last in tasks;
      HarpsGrow(before, last);
      assert store - Harps(tasks) == store - Harps(before) - {last.harpId};
      LastHarpIsNew(tasks);
      EventsWithout(store - Harps(before), last.harpId);
    }
  }

  lemma LastHarpIsNew(tasks: seq<TaskState>)
    requires NoHarpTwice(tasks) && tasks != []
    ensures tasks[|tasks| - 1].harpId !in Harps(tasks[..|tasks| - 1])
  {
    hide Harps;
    var last := |tasks| - 1;
    forall t | t in tasks[..last] ensures t.harpId != tasks[last].harpId {
      var k :| 0 <= k < last && tasks[..last][k] == t;
    }
  }

  lemma {:induction false} SurvivorsHold(tasks: seq<TaskState>, gone: set<string>)
    ensures forall t :: t in Survivors(tasks, gone) <==> t in tasks && t.harpId !in gone
    ensures NoHarpTwice(tasks) ==> NoHarpTwice(Survivors(tasks, gone))
  {
    if tasks != [] {
      var last := |tasks| - 1;
      SurvivorsHold(tasks[..last], gone);
      assert tasks == tasks[..last] + [tasks[last]];
      forall t | t in Survivors(tasks[..last], gone) && NoHarpTwice(tasks)
        ensures t.harpId != tasks[last].harpId
      {
        var i :| 0 <= i < last && tasks[..last][i] == t;
      }
    }
  }

  lemma SurvivorsList(store: Store, listed: seq<TaskState>, gone: set<string>)
    requires AllRooted(store) && Lists(store, listed, Live)
    ensures Lists(store - gone, Survivors(Sorted(listed), gone), Live)
  {
    hide Replay, TaskLists.EndsPruned, Sorted, TaskLists.Rooted;
    SortedListed(store, listed, Live);
    SurvivorsHold(Sorted(listed), gone);
    forall harp | IsShown(store - gone, harp, Live)
      ensures Replay(store[harp]) in Survivors(Sorted(listed), gone)
    {
      assert IsShown(store, harp, Live);
      RootedTask(store, harp);
    }
  }
}
