/**
 The tasks domain: one task is one stream of events. `Decide` accepts a command
 against the task a stream folds to, or refuses it; `Apply` folds one event, at the
 instant it was recorded.
 */
module Tasks {
  import opened Wrappers
  import Text

  const TO_DO := "To Do"
  const DEFERRED := "Deferred"
  const STATUS_CLASS_SIGIL: char := '@'
  /** The statuses the application sends with every command that can set one. */
  const DEFERS := DEFERRED
  const INITIAL := TO_DO

  datatype Timestamp = Timestamp(seconds: int, nanos: int)

  /** A tag, by its canonical spelling, which is unique to it. */
  type Tag = string

  datatype RemovalReason = ByName | Pruned

  datatype TaskState = TaskState(
    harpId: string,
    text: string,
    status: string,
    trigger: string,
    originSession: string,
    tags: seq<Tag>,
    createdAt: Timestamp,
    statusSetAt: Timestamp,
    deferredSince: Option<Timestamp>,
    removed: bool,
    priorStatus: string)

  const EPOCH := Timestamp(0, 0)
  const NoTask := TaskState("", "", "", "", "", [], EPOCH, EPOCH, None, false, "")

  /** What a command gives: `None` is left out. */
  datatype TaskCommand =
    | AddTask(harpId: string, text: string, status: Option<string>, trigger: Option<string>, tags: seq<Tag>,
              originSession: Option<string>, defers: string, initial: string)
    | SetStatus(status: Option<string>, trigger: Option<string>, defers: string, initial: string)
    | EditText(text: string)
    | Retag(add: seq<Tag>, remove: seq<Tag>)
    | RemoveTask(reason: RemovalReason)

  datatype TaskEvent =
    | TaskAdded(harpId: string, text: string, status: string, trigger: string, tags: seq<Tag>,
                originSession: string, priorStatus: string)
    | StatusChanged(status: string, trigger: string, priorStatus: string)
    | TextEdited(text: string)
    | Retagged(tags: seq<Tag>)
    | TaskRemoved(reason: RemovalReason)

  datatype TaskRejection =
    | HarpIdRequired
    | TaskExists(harpId: string)
    | NoTaskHeld
    | AlreadyRemoved(harpId: string)
    | TextRequired
    | StatusRequired
    | StatusReserved(status: string)
    | TriggerRequired
    | TagRequired
    | Blank(field: string)
    | TriggerWithStatus(status: string, defers: string)
    | Unresolved(field: string)

  // ----- what a command carries

  /** A value trimmed; refused when it is given blank, never read as left out. */
  function Present(value: Option<string>, field: string): Result<Option<string>, TaskRejection> {
    if value.None? then Success(None)
    else if Text.Trim(value.value) == "" then Failure(Blank(field))
    else Success(Some(Text.Trim(value.value)))
  }

  function RequiredText(text: string): Result<string, TaskRejection> {
    if Text.Trim(text) == "" then Failure(TextRequired) else Success(Text.Trim(text))
  }

  function ValidStatus(status: Option<string>): Result<Option<string>, TaskRejection> {
    var given :- Present(status, "status");
    if given.Some? && given.value[0] == STATUS_CLASS_SIGIL then Failure(StatusReserved(given.value))
    else Success(given)
  }

  datatype Statuses = Statuses(defers: string, initial: string)

  /** The two statuses every command names, trimmed; neither may be blank. */
  function ResolvedStatuses(defers: string, initial: string): Result<Statuses, TaskRejection> {
    if Text.Trim(defers) == "" then Failure(Unresolved("defers"))
    else if Text.Trim(initial) == "" then Failure(Unresolved("initial"))
    else Success(Statuses(Text.Trim(defers), Text.Trim(initial)))
  }

  datatype Added = Added(text: string, status: string, trigger: string, originSession: string, priorStatus: string)

  /** What an add records of its own fields. */
  function AddedFields(add: TaskCommand): Result<Added, TaskRejection>
    requires add.AddTask?
  {
    var text :- RequiredText(add.text);
    var statuses :- ResolvedStatuses(add.defers, add.initial);
    var given :- ValidStatus(add.status);
    var trigger :- Present(add.trigger, "trigger");
    var session :- Present(add.originSession, "origin_session");
    var status := if given.Some? then given.value else if trigger.Some? then statuses.defers else statuses.initial;
    var deferred := status == statuses.defers;
    if trigger.Some? && !deferred then Failure(TriggerWithStatus(status, statuses.defers))
    else if deferred && trigger.None? then Failure(TriggerRequired)
    else Success(Added(text, status, if trigger.Some? then trigger.value else "",
                       if session.Some? then session.value else "",
                       if deferred then statuses.initial else ""))
  }

  /** What a status change asks of the trigger. */
  datatype Trigger = Kept | Cleared | Set(trigger: string)

  datatype Change = Change(status: Option<string>, trigger: Trigger, statuses: Statuses)

  /** What a status change asks for, checked by what it carries alone. */
  function Changed(set_: TaskCommand): (change: Result<Change, TaskRejection>)
    requires set_.SetStatus?
    ensures change.Success? && change.value.status.None? ==> !change.value.trigger.Kept?
  {
    var statuses :- ResolvedStatuses(set_.defers, set_.initial);
    var status :- ValidStatus(set_.status);
    var present :- if set_.trigger == Some("") then Success(None) else Present(set_.trigger, "trigger");
    var trigger := if set_.trigger.None? then Kept else if present.None? then Cleared else Set(present.value);
    if status.None? && trigger.Kept? then Failure(StatusRequired)
    else if status.Some? && trigger.Set? && status.value != statuses.defers
    then Failure(TriggerWithStatus(status.value, statuses.defers))
    else if status.Some? && trigger.Cleared? && status.value == statuses.defers then Failure(TriggerRequired)
    else Success(Change(status, trigger, statuses))
  }

  function Retagging(retag: TaskCommand): Result<(), TaskRejection>
    requires retag.Retag?
  {
    if retag.add == [] && retag.remove == [] then Failure(TagRequired) else Success(())
  }

  /** The rules a command keeps by what it carries alone: what a caller checks first. */
  function Check(command: TaskCommand): Result<(), TaskRejection> {
    match command
    case AddTask(_, _, _, _, _, _, _, _) => var _ :- AddedFields(command); Success(())
    case SetStatus(_, _, _, _) => var _ :- Changed(command); Success(())
    case EditText(text) => var _ :- RequiredText(text); Success(())
    case Retag(_, _) => Retagging(command)
    case RemoveTask(_) => Success(())
  }

  // ----- deciding

  /** The live task of the stream, if there is one. */
  function Live(held: TaskState): Result<(), TaskRejection> {
    if held.harpId == "" then Failure(NoTaskHeld)
    else if held.removed then Failure(AlreadyRemoved(held.harpId))
    else Success(())
  }

  /** The event `change` comes to for the task `held`, if it alters anything. */
  function Moved(held: TaskState, change: Change): Result<Option<TaskEvent>, TaskRejection>
    requires change.status.None? ==> !change.trigger.Kept?
  {
    var defers := change.statuses.defers;
    var toReturnTo := if held.status == defers then held.priorStatus else held.status;
    match change.trigger
    case Set(trigger) => Success(Some(StatusChanged(defers, trigger, toReturnTo)))
    case Cleared =>
      if change.status.None? && held.trigger == "" then Success(None)
      else Success(Some(StatusChanged(if change.status.Some? then change.status.value else held.priorStatus, "", "")))
    case Kept =>
      if change.status.value == defers then
        if held.trigger == "" then Failure(TriggerRequired)
        else Success(Some(StatusChanged(defers, held.trigger, toReturnTo)))
      else Success(Some(StatusChanged(change.status.value, "", "")))
  }

  /** Tags deduplicated, in the order of their spelling. */
  function Normalized(tags: seq<Tag>): seq<Tag> {
    Text.InsertAll([], tags)
  }

  /** The tags a retag leaves of `held`. */
  function RetaggedTags(held: seq<Tag>, add: seq<Tag>, remove: seq<Tag>): seq<Tag> {
    Text.WithoutAll(Text.InsertAll(Normalized(held), add), remove)
  }

  /**
   What `command` records on the stream that folds to `held`, `taken` when the stream
   has history: an event, nothing, or a refusal.
   */
  function Decide(held: TaskState, taken: bool, command: TaskCommand): Result<Option<TaskEvent>, TaskRejection> {
    match command
    case AddTask(harpId, _, _, _, tags, _, _, _) =>
      if taken then Failure(TaskExists(held.harpId))
      else if Text.Trim(harpId) == "" then Failure(HarpIdRequired)
      else
        var a :- AddedFields(command);
        Success(Some(TaskAdded(Text.Trim(harpId), a.text, a.status, a.trigger, Normalized(tags), a.originSession,
                               a.priorStatus)))
    case SetStatus(_, _, _, _) =>
      var _ :- Live(held);
      var change :- Changed(command);
      Moved(held, change)
    case EditText(text) =>
      var _ :- Live(held);
      var edited :- RequiredText(text);
      Success(Some(TextEdited(edited)))
    case Retag(add, remove) =>
      var _ :- Live(held);
      var _ :- Retagging(command);
      var after := RetaggedTags(held.tags, add, remove);
      Success(if after == Normalized(held.tags) then None else Some(Retagged(after)))
    case RemoveTask(reason) =>
      var _ :- Live(held);
      Success(Some(TaskRemoved(reason)))
  }

  // ----- folding

  /** A trigger defers the task at the event's instant; without one, it keeps what it held. */
  function DeferredSince(trigger: string, at: Timestamp, held: Option<Timestamp>): Option<Timestamp> {
    if trigger == "" then held else Some(at)
  }

  function Apply(task: TaskState, event: TaskEvent, at: Timestamp): TaskState {
    match event
    case TaskAdded(harpId, text, status, trigger, tags, session, prior) =>
      task.(harpId := harpId, text := text, status := status, trigger := trigger, tags := tags,
            originSession := session, createdAt := at, statusSetAt := at,
            deferredSince := DeferredSince(trigger, at, None), priorStatus := prior)
    case StatusChanged(status, trigger, prior) =>
      task.(status := status, trigger := trigger, statusSetAt := at,
            deferredSince := DeferredSince(trigger, at, task.deferredSince), priorStatus := prior)
    case TextEdited(text) => task.(text := text)
    case Retagged(tags) => task.(tags := tags)
    case TaskRemoved(_) => task.(removed := true)
  }

  /** One recorded event: when, and the id of the command that caused it. */
  datatype Recorded = Recorded(event: TaskEvent, at: Timestamp, cause: string)

  type Stream = seq<Recorded>

  function Replay(stream: Stream): TaskState {
    if stream == [] then NoTask
    else var last := |stream| - 1; Apply(Replay(stream[..last]), stream[last].event, stream[last].at)
  }

  /** The aggregate the kernel runs: the folded task, changed in place by each event. */
  class TaskAggregate {
    var harpId: string
    var text: string
    var status: string
    var trigger: string
    var originSession: string
    var tags: seq<Tag>
    var createdAt: Timestamp
    var statusSetAt: Timestamp
    var deferredSince: Option<Timestamp>
    var removed: bool
    var priorStatus: string

    function State(): TaskState
      reads this
    {
      TaskState(harpId, text, status, trigger, originSession, tags, createdAt, statusSetAt, deferredSince, removed,
                priorStatus)
    }

    constructor ()
      ensures State() == NoTask
    {
      harpId, text, status, trigger, originSession, tags := "", "", "", "", "", [];
      createdAt, statusSetAt, deferredSince, removed, priorStatus := EPOCH, EPOCH, None, false, "";
    }

    /** Fold one event in place, recorded at `at`. */
    method Fold(event: TaskEvent, at: Timestamp)
      modifies this
      ensures State() == Apply(old(State()), event, at)
    {
      match event
      case TaskAdded(harpId', text', status', trigger', tags', session, prior) =>
        harpId, text, status, trigger, tags, originSession := harpId', text', status', trigger', tags', session;
        createdAt, statusSetAt, deferredSince := at, at, DeferredSince(trigger', at, None);
        priorStatus := prior;
      case StatusChanged(status', trigger', prior) =>
        status, trigger, statusSetAt := status', trigger', at;
        deferredSince := DeferredSince(trigger', at, deferredSince);
        priorStatus := prior;
      case TextEdited(text') => text := text';
      case Retagged(tags') => tags := tags';
      case TaskRemoved(_) => removed := true;
    }
  }

  // ----- histories: streams every event of which was decided

  /** A command as the application sends it: with its constant statuses. */
  predicate Sendable(command: TaskCommand) {
    command.AddTask? || command.SetStatus? ==> command.defers == DEFERS && command.initial == INITIAL
  }

  /** Some command the application sends records `event` on the stream that folds to `held`. */
  ghost predicate Decided(held: TaskState, taken: bool, event: TaskEvent) {
    exists command :: Sendable(command) && Decide(held, taken, command) == Success(Some(event))
  }

  /** A stream the aggregate wrote. */
  ghost predicate History(stream: Stream) {
    stream == [] ||
    var last := |stream| - 1;
    History(stream[..last]) && Decided(Replay(stream[..last]), last > 0, stream[last].event)
  }

  /** A status as one is held: trimmed, not blank, no status class. */
  predicate Status(status: string) {
    status != "" && Text.Trimmed(status) && status[0] != STATUS_CLASS_SIGIL
  }

  /** What every task a history folds to keeps: it waits on a trigger exactly while Deferred. */
  ghost predicate Sound(task: TaskState) {
    && Status(task.status)
    && Text.Trimmed(task.trigger)
    && (task.trigger != "" <==> task.status == DEFERRED)
    && (task.priorStatus != "" <==> task.status == DEFERRED)
    && (task.priorStatus != "" ==> Status(task.priorStatus) && task.priorStatus != DEFERRED)
    && task.text != "" && Text.Trimmed(task.text)
    && task.harpId != "" && Text.Trimmed(task.harpId)
    && Text.Sorted(task.tags)
  }

  lemma DefaultsTrimmed()
    ensures Text.Trim(DEFERS) == DEFERS && Text.Trim(INITIAL) == INITIAL
    ensures DEFERS != INITIAL && Status(INITIAL) && Status(DEFERS)
  {
    Text.TrimTrims(DEFERS);
    Text.TrimTrims(INITIAL);
  }

  lemma ValidStatusIsStatus(status: Option<string>)
    requires ValidStatus(status).Success? && ValidStatus(status).value.Some?
    ensures Status(ValidStatus(status).value.value)
  {
    Text.TrimTrims(status.value);
  }

  lemma AddedIsSound(add: TaskCommand, at: Timestamp)
    requires add.AddTask? && Sendable(add) && Decide(NoTask, false, add).Success?
    ensures var event := Decide(NoTask, false, add).value;
            event.Some? && event.value.TaskAdded? && Sound(Apply(NoTask, event.value, at))
  {
    DefaultsTrimmed();
    Text.TrimTrims(add.text);
    Text.TrimTrims(add.harpId);
    if add.status.Some? {
      ValidStatusIsStatus(add.status);
    }
    if add.trigger.Some? {
      Text.TrimTrims(add.trigger.value);
    }
    Text.InsertAllKeepsOrder([], add.tags);
  }

  lemma MovedIsSound(held: TaskState, set_: TaskCommand, at: Timestamp)
    requires Sound(held) && set_.SetStatus? && Sendable(set_)
    requires Decide(held, true, set_).Success? && Decide(held, true, set_).value.Some?
    ensures var event := Decide(held, true, set_).value.value;
            event.StatusChanged? && !held.removed && Sound(Apply(held, event, at))
  {
    hide Text.Trimmed, Text.Sorted;
    DefaultsTrimmed();
    if set_.status.Some? {
      ValidStatusIsStatus(set_.status);
    }
    if set_.trigger.Some? {
      Text.TrimTrims(set_.trigger.value);
    }
    assert Text.Trimmed("") by { Text.TrimTrims(""); }
  }

  lemma RetaggedIsSound(held: TaskState, add: seq<Tag>, remove: seq<Tag>)
    requires Sound(held)
    ensures Text.Sorted(RetaggedTags(held.tags, add, remove))
  {
    Text.InsertAllKeepsOrder([], held.tags);
    Text.InsertAllKeepsOrder(Normalized(held.tags), add);
    Text.WithoutAllKeepsOrder(Text.InsertAll(Normalized(held.tags), add), remove);
  }

  /** Whatever a decided event does to a sound task, it leaves it sound; an add is of a new one. */
  lemma DecidedKeepsSound(held: TaskState, taken: bool, event: TaskEvent, at: Timestamp)
    requires if taken then Sound(held) else held == NoTask
    requires Decided(held, taken, event)
    ensures Sound(Apply(held, event, at))
    ensures event.TaskAdded? <==> !taken
    ensures !event.TaskAdded? ==> !held.removed
  {
    var command :| Sendable(command) && Decide(held, taken, command) == Success(Some(event));
    if command.AddTask? {
      AddedIsSound(command, at);
    } else {
      hide Text.Sorted, AddedFields, RetaggedTags, Normalized;
      assert taken;
      if command.SetStatus? {
        MovedIsSound(held, command, at);
      } else if command.EditText? {
        Text.TrimTrims(command.text);
      } else if command.Retag? {
        RetaggedIsSound(held, command.add, command.remove);
      }
    }
  }

  /** What one event does to who the task is, and to when it was deferred. */
  lemma AppliedFacts(held: TaskState, event: TaskEvent, at: Timestamp)
    requires Sound(Apply(held, event, at)) && (event.TaskAdded? ==> held == NoTask)
    ensures var task := Apply(held, event, at);
            && task.harpId == (if event.TaskAdded? then event.harpId else held.harpId)
            && (task.removed <==> held.removed || event.TaskRemoved?)
            && task.deferredSince == if (event.TaskAdded? || event.StatusChanged?) && task.status == DEFERRED
                                     then Some(at) else held.deferredSince
  {
  }

  /**
   Over every history: the task is sound, so holding a trigger, being Deferred and
   having a status to return to are one; its add is its first event and its only one;
   and nothing follows its removal.
   */
  lemma {:induction false} HistorySound(stream: Stream)
    requires History(stream) && stream != []
    ensures Sound(Replay(stream))
    ensures forall i :: 0 <= i < |stream| ==> (stream[i].event.TaskAdded? <==> i == 0)
    ensures Replay(stream).harpId == stream[0].event.harpId
    ensures Replay(stream).removed <==> stream[|stream| - 1].event.TaskRemoved?
  {
    hide Sound, Apply, Decided;
    var last := |stream| - 1;
    var before := stream[..last];
    if last > 0 {
      HistorySound(before);
      assert forall i :: 0 <= i < last ==> before[i] == stream[i];
    }
    DecidedKeepsSound(Replay(before), last > 0, stream[last].event, stream[last].at);
    AppliedFacts(Replay(before), stream[last].event, stream[last].at);
  }

  // ----- since when a task is deferred

  /** At `k` the task is added Deferred, or its status changed to that. */
  predicate Defers(stream: Stream, k: nat) {
    && k < |stream| && (stream[k].event.TaskAdded? || stream[k].event.StatusChanged?)
    && Replay(stream[..k + 1]).status == DEFERRED
  }

  /** The last of a stream's deferrals. */
  ghost predicate LastDeferral(stream: Stream, k: nat) {
    Defers(stream, k) && forall j: nat :: j > k ==> !Defers(stream, j)
  }

  /** A task is deferred since its last deferral, and since never when nothing deferred it. */
  lemma {:induction false} DeferredSinceLastDeferral(stream: Stream)
    requires History(stream)
    ensures Replay(stream).deferredSince.None? <==> forall k: nat :: !Defers(stream, k)
    ensures forall k: nat :: LastDeferral(stream, k) ==> Replay(stream).deferredSince == Some(stream[k].at)
    ensures Replay(stream).deferredSince.Some? ==> exists k: nat :: LastDeferral(stream, k)
  {
    if stream != [] {
      hide Sound, Apply, Decided;
      var last := |stream| - 1;
      var before := stream[..last];
      DeferredSinceLastDeferral(before);
      HistorySound(stream);
      AppliedFacts(Replay(before), stream[last].event, stream[last].at);
      assert stream[..last + 1] == stream;
      forall k: nat | k != last
        ensures Defers(stream, k) <==> Defers(before, k)
      {
        if k < last {
          assert before[..k + 1] == stream[..k + 1];
        }
      }
      if Defers(stream, last) {
        assert LastDeferral(stream, last);
      } else {
        assert forall k: nat :: LastDeferral(stream, k) <==> LastDeferral(before, k);
      }
    }
  }

  // ----- since when a task has its status

  predicate SetsStatus(stream: Stream, k: nat) {
    k < |stream| && (stream[k].event.TaskAdded? || stream[k].event.StatusChanged?)
  }

  /** The last of a stream's events that give its task a status. */
  ghost predicate LastStatus(stream: Stream, k: nat) {
    SetsStatus(stream, k) && forall j: nat :: j > k ==> !SetsStatus(stream, j)
  }

  /** A task has the status last given, since then, and is as old as its add. */
  lemma {:induction false} StatusSinceLastSet(stream: Stream)
    requires History(stream) && stream != []
    ensures exists k: nat :: LastStatus(stream, k)
    ensures forall k: nat :: LastStatus(stream, k) ==>
              Replay(stream).status == stream[k].event.status && Replay(stream).statusSetAt == stream[k].at
    ensures Replay(stream).createdAt == stream[0].at
  {
    hide Sound, Decided, History;
    HistoryPrefix(stream);
    var last := |stream| - 1;
    var before := stream[..last];
    if last == 0 {
      assert LastStatus(stream, 0);
    } else {
      StatusSinceLastSet(before);
      forall k: nat | k != last
        ensures SetsStatus(stream, k) <==> SetsStatus(before, k)
      {
      }
      if SetsStatus(stream, last) {
        assert LastStatus(stream, last);
      } else {
        assert forall k: nat :: LastStatus(stream, k) <==> LastStatus(before, k);
      }
    }
  }

  lemma HistoryPrefix(stream: Stream)
    requires History(stream) && stream != []
    ensures History(stream[..|stream| - 1])
    ensures forall i :: 0 <= i < |stream| ==> (stream[i].event.TaskAdded? <==> i == 0)
  {
    hide Sound, Decided;
    HistorySound(stream);
  }

  // ----- deferred and back

  /** `commands` sent in turn to a live task, each at its instant; one refused changes nothing. */
  function Sent(task: TaskState, commands: seq<(TaskCommand, Timestamp)>): TaskState
    decreases |commands|
  {
    if commands == [] then task else
      var decided := Decide(task, true, commands[0].0);
      Sent(if decided.Success? && decided.value.Some? then Apply(task, decided.value.value, commands[0].1) else task,
           commands[1..])
  }

  /** A deferral, a re-deferral, an edit or a retag: what leaves a deferred task deferred. */
  predicate Parks(command: TaskCommand) {
    && Sendable(command)
    && (command.EditText? || command.Retag? ||
        (command.SetStatus? &&
         if command.trigger.Some? then command.trigger.value != ""
         else command.status.Some? && Text.Trim(command.status.value) == DEFERRED))
  }

  /** The status a task has when it waits on nothing: the one to return to, while it is Deferred. */
  function Home(task: TaskState): string {
    if task.status == DEFERRED then task.priorStatus else task.status
  }

  const CLEAR := SetStatus(None, Some(""), DEFERS, INITIAL)

  lemma ParkedStaysHome(task: TaskState, command: TaskCommand, at: Timestamp)
    requires Sound(task) && !task.removed && Parks(command)
    requires Decide(task, true, command).Success? && Decide(task, true, command).value.Some?
    ensures var next := Apply(task, Decide(task, true, command).value.value, at);
            && Sound(next) && !next.removed && Home(next) == Home(task)
            && (command.SetStatus? ==> next.status == DEFERRED)
  {
    var event := Decide(task, true, command).value.value;
    assert Decided(task, true, event);
    DecidedKeepsSound(task, true, event, at);
    DefaultsTrimmed();
    hide Sound, Text.Sorted, Text.Trimmed, Text.Trim, Status, RetaggedTags, Normalized;
  }

  /**
   Any run of deferrals, re-deferrals, edits and retags, then a clear: the task is back
   in the status it held before the first deferral, holding no trigger.
   */
  lemma {:induction false} ClearReturnsHome(task: TaskState, commands: seq<(TaskCommand, Timestamp)>, at: Timestamp)
    requires Sound(task) && !task.removed
    requires forall i :: 0 <= i < |commands| ==> Parks(commands[i].0)
    ensures var parked := Sent(task, commands);
            && Sound(parked) && !parked.removed && Home(parked) == Home(task)
    ensures var cleared := Sent(Sent(task, commands), [(CLEAR, at)]);
            && cleared.status == Home(task) && cleared.trigger == "" && cleared.priorStatus == ""
    decreases |commands|
  {
    if commands == [] {
      ClearedGoesHome(task, at);
    } else {
      hide Sound, Apply, Home, Decide, Parks;
      var decided := Decide(task, true, commands[0].0);
      var next := task;
      if decided.Success? && decided.value.Some? {
        ParkedStaysHome(task, commands[0].0, commands[0].1);
        next := Apply(task, decided.value.value, commands[0].1);
      }
      ClearReturnsHome(next, commands[1..], at);
    }
  }

  lemma ClearedGoesHome(task: TaskState, at: Timestamp)
    requires Sound(task) && !task.removed
    ensures var cleared := Sent(task, [(CLEAR, at)]);
            && cleared.status == Home(task) && cleared.trigger == "" && cleared.priorStatus == ""
  {
    DefaultsTrimmed();
    hide Text.Sorted, Text.Trimmed, Text.Trim, Status;
    assert [(CLEAR, at)][1..] == [];
    assert Changed(CLEAR) == Success(Change(None, Trigger.Cleared, Statuses(DEFERS, INITIAL)));
  }

  // ----- what a command leaves

  function TrimmedOr(value: Option<string>, other: string): string {
    if value.Some? then Text.Trim(value.value) else other
  }

  predicate GivenBlank(value: Option<string>) {
    value.Some? && Text.Trim(value.value) == ""
  }

  /** The status an add asks for, deferred by a trigger alone. */
  function AddedStatus(add: TaskCommand): string
    requires add.AddTask?
  {
    TrimmedOr(add.status, if add.trigger.Some? then DEFERRED else TO_DO)
  }

  /**
   An add on a stream without history is refused exactly for a blank harp id, text or
   given field, a status class, or a trigger and a Deferred status not given together.
   */
  lemma AddRefused(add: TaskCommand)
    requires add.AddTask? && Sendable(add)
    ensures Decide(NoTask, false, add).Failure? <==>
              || Text.Trim(add.harpId) == "" || Text.Trim(add.text) == ""
              || GivenBlank(add.status) || GivenBlank(add.trigger) || GivenBlank(add.originSession)
              || AddedStatus(add)[0] == STATUS_CLASS_SIGIL
              || (add.trigger.Some? <==> AddedStatus(add) != DEFERRED)
  {
    DefaultsTrimmed();
    hide Text.Trim, Normalized;
  }

  /** A task as an add to `harp`, recorded at `at`, makes it: each field the one given, trimmed. */
  predicate MadeBy(task: TaskState, add: TaskCommand, harp: string, at: Timestamp)
    requires add.AddTask?
  {
    && task.harpId == Text.Trim(harp) && task.text == Text.Trim(add.text)
    && task.originSession == TrimmedOr(add.originSession, "") && task.trigger == TrimmedOr(add.trigger, "")
    && task.status == AddedStatus(add) && task.priorStatus == (if task.status == DEFERRED then TO_DO else "")
    && task.createdAt == task.statusSetAt == at && !task.removed
    && task.deferredSince == (if task.status == DEFERRED then Some(at) else None)
    && Text.Sorted(task.tags) && Text.Elements(task.tags) == Text.Elements(add.tags)
  }

  /** What an add makes of its fields. */
  lemma AddMeans(add: TaskCommand, at: Timestamp)
    requires add.AddTask? && Sendable(add) && Decide(NoTask, false, add).Success?
    ensures MadeBy(Apply(NoTask, Decide(NoTask, false, add).value.value, at), add, add.harpId, at)
  {
    DefaultsTrimmed();
    Text.InsertAllKeepsOrder([], add.tags);
    hide Text.Trim, Text.Sorted, Text.InsertAll;
  }

  /** The status a status change leaves: the one it gives, Deferred for a trigger alone, else the one to return to. */
  function StatusLeft(task: TaskState, set_: TaskCommand): string
    requires set_.SetStatus?
  {
    TrimmedOr(set_.status, if set_.trigger == Some("") then Home(task) else DEFERRED)
  }

  /** A command accepted on a live task changes what it is for and nothing else. */
  lemma ChangeMeans(task: TaskState, command: TaskCommand, at: Timestamp)
    requires Sound(task) && Sendable(command) && !command.AddTask?
    requires Decide(task, true, command).Success? && Decide(task, true, command).value.Some?
    ensures var after := Apply(task, Decide(task, true, command).value.value, at);
            match command
            case EditText(text) => after == task.(text := Text.Trim(text))
            case RemoveTask(_) => after == task.(removed := true)
            case Retag(_, _) => after == task.(tags := after.tags) && after.tags != Normalized(task.tags)
            case SetStatus(_, trigger, _, _) =>
              && after == task.(status := after.status, trigger := after.trigger, priorStatus := after.priorStatus,
                                statusSetAt := at, deferredSince := after.deferredSince)
              && after.status == StatusLeft(task, command)
              && after.trigger == (if after.status != DEFERRED then "" else TrimmedOr(trigger, task.trigger))
              && after.priorStatus == (if after.status == DEFERRED then Home(task) else "")
              && after.deferredSince == (if after.status == DEFERRED then Some(at) else task.deferredSince)
  {
    DefaultsTrimmed();
    if command.SetStatus? {
      StatusChangeMeans(task, command, at);
    }
    hide Text.Trim, Text.Sorted, Text.Trimmed, RetaggedTags, Normalized, Sound;
  }

  lemma StatusChangeMeans(task: TaskState, set_: TaskCommand, at: Timestamp)
    requires Sound(task) && Sendable(set_) && set_.SetStatus?
    requires Decide(task, true, set_).Success? && Decide(task, true, set_).value.Some?
    ensures var after := Apply(task, Decide(task, true, set_).value.value, at);
            && after == task.(status := after.status, trigger := after.trigger, priorStatus := after.priorStatus,
                              statusSetAt := at, deferredSince := after.deferredSince)
            && after.status == StatusLeft(task, set_)
            && after.trigger == (if after.status != DEFERRED then "" else TrimmedOr(set_.trigger, task.trigger))
            && after.priorStatus == (if after.status == DEFERRED then Home(task) else "")
            && after.deferredSince == (if after.status == DEFERRED then Some(at) else task.deferredSince)
  {
    DefaultsTrimmed();
    hide Text.Trim, Text.Sorted, Text.Trimmed;
  }

  // ----- what a refusal is for

  /** What a status change is refused for, of a live task. */
  predicate StatusRefused(task: TaskState, status: Option<string>, trigger: Option<string>) {
    || GivenBlank(status) || (status.Some? && Text.Trim(status.value)[0] == STATUS_CLASS_SIGIL)
    || (GivenBlank(trigger) && trigger != Some(""))
    || (status.None? && trigger.None?)
    || (status.Some? && trigger.Some? && (Text.Trim(status.value) == DEFERRED <==> trigger == Some("")))
    || (status.Some? && trigger.None? && Text.Trim(status.value) == DEFERRED && task.trigger == "")
  }

  /**
   Exactly what a command to a task is refused for: its removal, a blank text, a retag of
   nothing, or a status change that is ill-formed, gives a trigger and a status not meant
   for each other, or defers with no trigger to wait on. And when it records nothing: only
   to clear a trigger not held, or to leave the same tags.
   */
  lemma ChangeRefused(task: TaskState, command: TaskCommand)
    requires Sound(task) && Sendable(command) && !command.AddTask?
    ensures Decide(task, true, command).Failure? <==>
              task.removed ||
              match command
              case EditText(text) => Text.Trim(text) == ""
              case Retag(add, remove) => add == remove == []
              case RemoveTask(_) => false
              case SetStatus(status, trigger, _, _) => StatusRefused(task, status, trigger)
    ensures Decide(task, true, command) == Success(None) ==> command.SetStatus? || command.Retag?
    ensures command.SetStatus? ==>
              (Decide(task, true, command) == Success(None) <==>
                 !task.removed && command.status.None? && command.trigger == Some("") && task.trigger == "")
  {
    DefaultsTrimmed();
    if command.SetStatus? {
      ChangedRefused(command);
    }
    hide Text.Trim, Text.Sorted, Text.Trimmed, RetaggedTags, Normalized, Changed;
  }

  /** What a status change is refused for by what it carries alone, and what else it asks for. */
  lemma ChangedRefused(set_: TaskCommand)
    requires set_.SetStatus? && Sendable(set_)
    ensures var (status, trigger) := (set_.status, set_.trigger);
            && (Changed(set_).Failure? <==>
                  || GivenBlank(status) || (status.Some? && Text.Trim(status.value)[0] == STATUS_CLASS_SIGIL)
                  || (GivenBlank(trigger) && trigger != Some(""))
                  || (status.None? && trigger.None?)
                  || (status.Some? && trigger.Some? && (Text.Trim(status.value) == DEFERRED <==> trigger == Some(""))))
            && (Changed(set_).Success? ==>
                  var asked := Changed(set_).value;
                  && asked.statuses == Statuses(DEFERS, INITIAL)
                  && asked.status == (if status.None? then None else Some(Text.Trim(status.value)))
                  && asked.trigger == (if trigger.None? then Kept else if trigger == Some("") then Cleared
                                       else Set(Text.Trim(trigger.value))))
  {
    DefaultsTrimmed();
    Text.TrimTrims("");
    hide Text.Trim;
  }

  /** Some stream the aggregate wrote decides `command`. */
  ghost predicate SomeStreamDecides(command: TaskCommand) {
    exists stream :: History(stream) && Decide(Replay(stream), stream != [], command).Success?
  }

  /** A stream of one task, added waiting on a trigger. */
  lemma WaitingStream() returns (stream: Stream)
    ensures stream != [] && History(stream)
    ensures var task := Replay(stream); task.harpId != "" && !task.removed && task.trigger != ""
  {
    DefaultsTrimmed();
    Text.TrimTrims("a");
    hide Text.Trim;
    var add := AddTask("a", "a", None, Some("a"), [], None, DEFERS, INITIAL);
    AddRefused(add);
    AddMeans(add, EPOCH);
    AddedIsSound(add, EPOCH);
    var event := Decide(NoTask, false, add).value.value;
    stream := [Recorded(event, EPOCH, "")];
    assert stream[..0] == [];
    assert Decided(NoTask, false, event);
  }

  /**
   The caller's own check is what a command is refused for on every stream: one it fails
   is refused by every stream, and one it passes is decided by some, but for an add with
   no harp id, which its stream's address rules out.
   */
  lemma CheckIsDecideAlone(command: TaskCommand)
    ensures SomeStreamDecides(command) <==>
              (Check(command).Success? && (command.AddTask? ==> Text.Trim(command.harpId) != ""))
  {
    if Check(command).Success? && (command.AddTask? ==> Text.Trim(command.harpId) != "") {
      var stream: Stream := [];
      if !command.AddTask? {
        stream := WaitingStream();
      }
      assert History(stream) && Decide(Replay(stream), stream != [], command).Success?;
    }
    hide History, Replay, Text.Trim, Normalized;
  }
}
