/**
 Importing a JSONL task log into a project's task streams: a record is sent
 as a command of the same effect, under an id derived from its line, by which a later
 import finds it on its stream and skips it.
 */
module Import {
  import opened Wrappers
  import opened JsonlLog
  import opened Tasks
  import opened TaskStores
  import Text

  // ----- the tags a log spells

  /** What a spelling that is not blank is read as: a tag an import brings over, or none. */
  datatype Spelled = IsTag(tag: Tag) | NoTag

  /** The readings this model leaves open: tagma's grammar, and the key a repair names an add by. */
  datatype Reading = Reading(parse: string -> Spelled, anomalyKey: LogRecord -> string)

  /** The tags an import may bring over of `spelled`, in its order. */
  function Parsed(reading: Reading, spelled: seq<string>): seq<Tag> {
    if spelled == [] then [] else
      var last := Text.Trim(spelled[|spelled| - 1]);
      Parsed(reading, spelled[..|spelled| - 1]) +
      (if last != "" && reading.parse(last).IsTag? then [reading.parse(last).tag] else [])
  }

  predicate AnyRefused(reading: Reading, spelled: seq<string>) {
    exists s :: s in spelled && Text.Trim(s) != "" && reading.parse(Text.Trim(s)).NoTag?
  }

  /** The same, each once, by canonical spelling. */
  function ParsedSet(reading: Reading, spelled: seq<string>): seq<Tag> {
    Text.InsertAll([], Parsed(reading, spelled))
  }

  function TrimmedAll(tags: seq<string>): seq<string> {
    if tags == [] then [] else
      var last := Text.Trim(tags[|tags| - 1]);
      TrimmedAll(tags[..|tags| - 1]) + (if last != "" then [last] else [])
  }

  /** Tags trimmed, empties dropped, deduplicated and sorted. */
  function LoggedSet(tags: seq<string>): seq<string> {
    Text.InsertAll([], TrimmedAll(tags))
  }

  // ----- the log's fold

  /** What the fold keeps of the log to tell which of its records count. */
  datatype Fold = Fold(
    issued: set<string>,
    live: map<string, seq<string>>,
    triggers: map<string, string>,
    repaired: set<string>,
    missing: set<string>)

  datatype Why = Displaced | Refused(rejection: TaskRejection) | TaskNotImported

  datatype Step = Run(command: TaskCommand) | Unchanged | Ignored | Repaired | Lost(why: Why) | NothingLeft

  function LeftOut(value: string): Option<string> {
    if value == "" then None else Some(value)
  }

  /** The trigger the log so far has the task hold, when the record defers it. */
  function DeferringOn(status: string, logHeld: string): Option<string> {
    if status == DEFERS then LeftOut(logHeld) else None
  }

  function NewFold(records: seq<LogRecord>): Fold {
    Fold({}, map[], map[], set r | r in records && r.op == Add && r.repairOf != "" :: r.repairOf, {})
  }

  /** The command an add is run as. */
  function AddCommand(reading: Reading, r: LogRecord): TaskCommand {
    AddTask(r.task, r.text, LeftOut(r.status), DeferringOn(r.status, Text.Trim(r.trigger)), Parsed(reading, r.tags),
            LeftOut(r.session), DEFERS, INITIAL)
  }

  function StepAdd(reading: Reading, fold: Fold, r: LogRecord): (Fold, Step) {
    if r.task in fold.issued then
      (fold, if reading.anomalyKey(r) in fold.repaired then Repaired else Lost(Displaced))
    else
      var logHeld := Text.Trim(r.trigger);
      (fold.(issued := fold.issued + {r.task}, live := fold.live[r.task := LoggedSet(r.tags)],
             triggers := fold.triggers[r.task := logHeld]),
       Run(AddCommand(reading, r)))
  }

  function StepTags(reading: Reading, fold: Fold, r: LogRecord): (Fold, Step)
    requires r.task in fold.live
  {
    var held, given := fold.live[r.task], LoggedSet(r.tags);
    var after := if r.op == TagOn then Text.InsertAll(held, given) else Text.WithoutAll(held, given);
    var before, now := ParsedSet(reading, held), ParsedSet(reading, after);
    var add, remove := Text.WithoutAll(now, before), Text.WithoutAll(before, now);
    (fold.(live := fold.live[r.task := after]),
     if add == [] && remove == [] then (if AnyRefused(reading, given) then NothingLeft else Unchanged)
     else Run(Retag(add, remove)))
  }

  /** One record of a live task, its add imported or not. */
  function StepLive(reading: Reading, fold: Fold, r: LogRecord): (Fold, Step)
    requires r.op != Add && r.task in fold.live
  {
    match r.op
    case Status =>
      var logHeld := if r.trigger != "" then Text.Trim(r.trigger)
                    else if r.task in fold.triggers then fold.triggers[r.task] else "";
      (fold.(triggers := fold.triggers[r.task := logHeld]),
       Run(SetStatus(LeftOut(r.status), DeferringOn(r.status, logHeld), DEFERS, INITIAL)))
    case TextEdit => (fold, Run(EditText(r.text)))
    case Remove => (fold.(live := fold.live - {r.task}, triggers := fold.triggers - {r.task}), Run(RemoveTask(ByName)))
    case _ => StepTags(reading, fold, r)
  }

  /** What one record comes to; the fold changes whether or not its task was imported. */
  function Stepped(reading: Reading, fold: Fold, r: LogRecord): (Fold, Step) {
    if r.op == Add then StepAdd(reading, fold, r)
    else if r.task !in fold.live then (fold, Ignored)
    else
      var (next, step) := StepLive(reading, fold, r);
      (next, if r.task in fold.missing then Lost(TaskNotImported) else step)
  }

  // ----- one record into the store

  datatype Outcome =
    | Applied
    | Already
    | WasUnchanged
    | WasIgnored
    | WasRepaired
    | WasNothingLeft
    | WasLost(why: Why)

  datatype Progress = Progress(fold: Fold, store: Store)

  /** The fold once a record's command was refused: a refused add's task is missing. */
  function NotImported(fold: Fold, r: LogRecord): Fold {
    if r.op == Add then fold.(missing := fold.missing + {r.task}) else fold
  }

  /** The record's command, sent to its stream at the instant it was recorded. */
  function Posted(progress: Progress, r: LogRecord, command: TaskCommand): (Progress, Outcome) {
    var (store, handled) := Committed(progress.store, r.task, command, r.ts, r.raw);
    match handled
    case Duplicate => (progress, Already)
    case Rejected(rejection) => (progress.(fold := NotImported(progress.fold, r)), WasLost(Refused(rejection)))
    case Left(_) => (progress.(store := store), Applied)
  }

  function ImportOne(reading: Reading, progress: Progress, r: LogRecord): (Progress, Outcome) {
    var (fold, step) := Stepped(reading, progress.fold, r);
    match step
    case Run(command) => Posted(progress.(fold := fold), r, command)
    case Unchanged => (progress.(fold := fold), WasUnchanged)
    case Ignored => (progress.(fold := fold), WasIgnored)
    case Repaired => (progress.(fold := fold), WasRepaired)
    case Lost(why) => (progress.(fold := fold), WasLost(why))
    case NothingLeft => (progress.(fold := fold), WasNothingLeft)
  }

  /** How far an import of `records` into `store` has come after its first `k`. */
  function Imported(reading: Reading, records: seq<LogRecord>, store: Store, k: nat): Progress
    requires k <= |records|
  {
    if k == 0 then Progress(NewFold(records), store)
    else ImportOne(reading, Imported(reading, records, store, k - 1), records[k - 1]).0
  }

  function OutcomeAt(reading: Reading, records: seq<LogRecord>, store: Store, k: nat): Outcome
    requires k < |records|
  {
    ImportOne(reading, Imported(reading, records, store, k), records[k]).1
  }

  // ----- tags, logged and held

  lemma {:induction false} ParsedHolds(reading: Reading, spelled: seq<string>)
    ensures forall tag :: tag in Parsed(reading, spelled) <==>
              exists s :: s in spelled && Text.Trim(s) != "" && reading.parse(Text.Trim(s)) == IsTag(tag)
  {
    if spelled != [] {
      var last := |spelled| - 1;
      ParsedHolds(reading, spelled[..last]);
      assert spelled == spelled[..last] + [spelled[last]];
    }
  }

  lemma {:induction false} TrimmedHolds(tags: seq<string>)
    ensures forall s :: s in TrimmedAll(tags) <==> s != "" && exists t :: t in tags && Text.Trim(t) == s
  {
    if tags != [] {
      var last := |tags| - 1;
      TrimmedHolds(tags[..last]);
      assert tags == tags[..last] + [tags[last]];
    }
  }

  /** Parsing a record's logged tags, trimmed and each once, gives the tags its add carries. */
  lemma LoggedParseAlike(reading: Reading, tags: seq<string>)
    ensures Text.Elements(ParsedSet(reading, LoggedSet(tags))) == Text.Elements(Parsed(reading, tags))
  {
    var logged := LoggedSet(tags);
    Text.InsertAllKeepsOrder([], TrimmedAll(tags));
    Text.InsertAllKeepsOrder([], Parsed(reading, logged));
    ParsedHolds(reading, tags);
    ParsedHolds(reading, logged);
    TrimmedHolds(tags);
    hide Text.InsertAll, Text.Sorted, Text.Trim;
    forall tag
      ensures tag in Parsed(reading, logged) <==> tag in Parsed(reading, tags)
    {
      forall s | s in tags ensures Text.Trim(Text.Trim(s)) == Text.Trim(s) { Text.TrimTrims(s); }
      assert forall s :: s in logged <==> s in Text.Elements(logged);
      assert forall s :: s in TrimmedAll(tags) <==> s in Text.Elements(TrimmedAll(tags));
    }
  }

  // ----- the log's fold against the store's tasks

  /** What the fold says of a task and what its stream holds say the same. */
  ghost predicate Corresponds(reading: Reading, fold: Fold, task: string, stream: Stream) {
    && History(stream)
    && (task !in fold.issued ==> stream == [] && task !in fold.live && task !in fold.missing)
    && (task in fold.missing ==> stream == [])
    && (task in fold.live ==> Text.Sorted(fold.live[task]))
    && (task in fold.issued && task !in fold.missing ==>
          stream != [] && (Replay(stream).removed <==> task !in fold.live))
    && (task in fold.live && task !in fold.missing ==>
          Text.Elements(Replay(stream).tags) == Text.Elements(ParsedSet(reading, fold.live[task])))
  }

  /** A command an import sends to a task: never one that clears a trigger. */
  predicate Sends(command: TaskCommand) {
    && !command.AddTask? && Sendable(command)
    && (command.SetStatus? ==> command.trigger != Some(""))
    && (command.Retag? ==> command.add != [] || command.remove != [])
  }

  /** A deferral naming no trigger, of a task holding none: the one refusal a stream can lift later. */
  predicate Waits(held: TaskState, command: TaskCommand) {
    && command.SetStatus? && command.trigger.None?
    && command.status.Some? && Text.Trim(command.status.value) == DEFERRED
    && held.trigger == ""
  }

  /** Why a stream refuses what an import sends it: its removal, the command alone, or a trigger to wait on. */
  lemma SentIsDecided(held: TaskState, command: TaskCommand)
    requires Sound(held) && Sends(command)
    ensures var decided := Decide(held, true, command);
            && (decided.Failure? <==> held.removed || Check(command).Failure? || Waits(held, command))
            && (!held.removed && decided.Failure? ==> (decided.error == TriggerRequired <==> Check(command).Success?))
            && (decided.Success? && !command.Retag? ==> decided.value.Some?)
  {
    DefaultsTrimmed();
    hide Text.Trimmed, Text.Sorted, RetaggedTags, Normalized;
  }

  /** The command a record of a live task is run as. */
  lemma StepSends(reading: Reading, fold: Fold, r: LogRecord)
    requires r.op != Add && r.task in fold.live
    requires Stepped(reading, fold, r).1.Run?
    ensures Sends(Stepped(reading, fold, r).1.command)
  {
  }

  /** The two folds say the same of `task`. */
  predicate SameOf(fold: Fold, fold': Fold, task: string) {
    && (task in fold.issued <==> task in fold'.issued)
    && (task in fold.missing <==> task in fold'.missing)
    && (task in fold.live <==> task in fold'.live)
    && (task in fold.live ==> fold.live[task] == fold'.live[task])
  }

  lemma SteppedElsewhere(reading: Reading, fold: Fold, r: LogRecord, task: string)
    requires task != r.task
    ensures SameOf(fold, Stepped(reading, fold, r).0, task)
  {
    hide LoggedSet, ParsedSet, Parsed, Text.InsertAll, Text.WithoutAll, Text.Trim, AnyRefused;
  }

  /** A record changes the fold and the store for its own task alone. */
  lemma ImportedElsewhere(reading: Reading, progress: Progress, r: LogRecord, task: string)
    requires task != r.task
    ensures var next := ImportOne(reading, progress, r).0;
            SameOf(progress.fold, next.fold, task) && StreamOf(next.store, task) == StreamOf(progress.store, task)
  {
    hide Stepped, Decide, Replay, Found;
    SteppedElsewhere(reading, progress.fold, r, task);
  }

  lemma CorrespondsElsewhere(reading: Reading, progress: Progress, r: LogRecord, task: string)
    requires task != r.task && Corresponds(reading, progress.fold, task, StreamOf(progress.store, task))
    ensures var next := ImportOne(reading, progress, r).0;
            Corresponds(reading, next.fold, task, StreamOf(next.store, task))
  {
    ImportedElsewhere(reading, progress, r, task);
    hide ImportOne, History, Replay, ParsedSet, Text.Sorted;
  }

  /** The stream a command's event leaves. */
  function Grown(stream: Stream, event: TaskEvent, r: LogRecord): Stream {
    stream + [Recorded(event, r.ts, r.raw)]
  }

  lemma GrownReplays(stream: Stream, command: TaskCommand, r: LogRecord)
    requires History(stream) && Sendable(command)
    requires var decided := Decide(Replay(stream), stream != [], command); decided.Success? && decided.value.Some?
    ensures var event := Decide(Replay(stream), stream != [], command).value.value;
            && History(Grown(stream, event, r)) && Sound(Replay(Grown(stream, event, r)))
            && Replay(Grown(stream, event, r)) == Apply(Replay(stream), event, r.ts)
  {
    var event := Decide(Replay(stream), stream != [], command).value.value;
    var grown := Grown(stream, event, r);
    assert grown[..|grown| - 1] == stream;
    assert Decided(Replay(stream), stream != [], event);
    HistorySound(grown);
  }

  /** What one record leaves: the store as it was, or its own task's stream one event longer. */
  ghost predicate Leaves(reading: Reading, progress: Progress, r: LogRecord) {
    var (next, outcome) := ImportOne(reading, progress, r);
    && Corresponds(reading, next.fold, r.task, StreamOf(next.store, r.task))
    && outcome != Already
    && (outcome != Applied ==> next.store == progress.store)
    && (outcome == Applied ==> exists event ::
          next.store == progress.store[r.task := Grown(StreamOf(progress.store, r.task), event, r)])
  }

  lemma AddGrows(reading: Reading, r: LogRecord)
    ensures var decided := Decide(NoTask, false, AddCommand(reading, r));
            decided.Success? ==>
              && decided.value.Some?
              && var grown := Grown([], decided.value.value, r);
              && History(grown) && !Replay(grown).removed
              && Text.Elements(Replay(grown).tags) == Text.Elements(ParsedSet(reading, LoggedSet(r.tags)))
  {
    var command := AddCommand(reading, r);
    if Decide(NoTask, false, command).Success? {
      GrownReplays([], command, r);
      LoggedParseAlike(reading, r.tags);
      Text.InsertAllKeepsOrder([], command.tags);
    }
  }

  lemma AddLeaves(reading: Reading, progress: Progress, r: LogRecord)
    requires r.op == Add && Corresponds(reading, progress.fold, r.task, StreamOf(progress.store, r.task))
    requires !Found(StreamOf(progress.store, r.task), r.raw)
    ensures Leaves(reading, progress, r)
  {
    hide Decide, AddCommand, LoggedSet, ParsedSet, Parsed, Text.Trim, Text.Sorted, History;
    AddGrows(reading, r);
    LoggedSorted(r.tags);
    if r.task !in progress.fold.issued {
      assert StreamOf(progress.store, r.task) == [] && Replay([]) == NoTask;
      var decided := Decide(NoTask, false, AddCommand(reading, r));
      if decided.Success? {
        assert [] + [Recorded(decided.value.value, r.ts, r.raw)] == Grown([], decided.value.value, r);
      }
    }
  }

  lemma LoggedSorted(tags: seq<string>)
    ensures Text.Sorted(LoggedSet(tags))
  {
    Text.InsertAllKeepsOrder([], TrimmedAll(tags));
  }

  lemma SetSorted(reading: Reading, spelled: seq<string>)
    ensures Text.Sorted(ParsedSet(reading, spelled))
  {
    Text.InsertAllKeepsOrder([], Parsed(reading, spelled));
  }

  lemma AfterSorted(reading: Reading, fold: Fold, r: LogRecord)
    requires r.task in fold.live && Text.Sorted(fold.live[r.task])
    ensures Text.Sorted(StepTags(reading, fold, r).0.live[r.task])
  {
    Text.InsertAllKeepsOrder(fold.live[r.task], LoggedSet(r.tags));
    Text.WithoutAllKeepsOrder(fold.live[r.task], LoggedSet(r.tags));
  }

  /** A retag from the logged tags before to those after takes a task holding the one to the other. */
  lemma RetagTakes(held: TaskState, before: seq<Tag>, now: seq<Tag>)
    requires Sound(held) && !held.removed && Text.Sorted(before) && Text.Sorted(now)
    requires Text.Elements(held.tags) == Text.Elements(before)
    ensures var add, remove := Text.WithoutAll(now, before), Text.WithoutAll(before, now);
            if add == [] && remove == [] then Text.Elements(now) == Text.Elements(held.tags) else
            var decided := Decide(held, true, Retag(add, remove));
            && decided.Success? && decided.value.Some? && decided.value.value.Retagged?
            && Text.Elements(decided.value.value.tags) == Text.Elements(now)
  {
    hide Text.Sorted, Text.Insert, Text.Without, Text.InsertAll, Text.WithoutAll, Text.Trimmed;
    var add, remove := Text.WithoutAll(now, before), Text.WithoutAll(before, now);
    Text.WithoutAllKeepsOrder(now, before);
    Text.WithoutAllKeepsOrder(before, now);
    Text.InsertAllKeepsOrder([], held.tags);
    Text.InsertAllKeepsOrder(Normalized(held.tags), add);
    Text.WithoutAllKeepsOrder(Text.InsertAll(Normalized(held.tags), add), remove);
    if add != [] {
      assert add[0] in Text.Elements(add);
    }
    if remove != [] {
      assert remove[0] in Text.Elements(remove);
    }
  }

  lemma TagsLeave(reading: Reading, progress: Progress, r: LogRecord)
    requires (r.op == TagOn || r.op == TagOff) && r.task in progress.fold.live
    requires Corresponds(reading, progress.fold, r.task, StreamOf(progress.store, r.task))
    requires !Found(StreamOf(progress.store, r.task), r.raw)
    ensures Leaves(reading, progress, r)
  {
    hide Decide, LoggedSet, ParsedSet, Parsed, History, Replay, AnyRefused;
    hide Text.Trim, Text.Sorted, Text.InsertAll, Text.WithoutAll;
    var stream := StreamOf(progress.store, r.task);
    var fold' := StepTags(reading, progress.fold, r).0;
    AfterSorted(reading, progress.fold, r);
    if r.task !in progress.fold.missing {
      var before, now := ParsedSet(reading, progress.fold.live[r.task]), ParsedSet(reading, fold'.live[r.task]);
      SetSorted(reading, progress.fold.live[r.task]);
      SetSorted(reading, fold'.live[r.task]);
      HistorySound(stream);
      RetagTakes(Replay(stream), before, now);
      var command := Retag(Text.WithoutAll(now, before), Text.WithoutAll(before, now));
      if command.add != [] || command.remove != [] {
        GrownReplays(stream, command, r);
      }
    }
  }

  lemma OthersLeave(reading: Reading, progress: Progress, r: LogRecord)
    requires r.op == Status || r.op == TextEdit || r.op == Remove
    requires r.task in progress.fold.live
    requires Corresponds(reading, progress.fold, r.task, StreamOf(progress.store, r.task))
    requires !Found(StreamOf(progress.store, r.task), r.raw)
    ensures Leaves(reading, progress, r)
  {
    hide LoggedSet, ParsedSet, Parsed, Text.Trim, Text.Sorted, History, Replay, Sound, Changed, Moved, RequiredText;
    var stream := StreamOf(progress.store, r.task);
    if r.task !in progress.fold.missing {
      HistorySound(stream);
      var command := StepLive(reading, progress.fold, r).1.command;
      StepSends(reading, progress.fold, r);
      SentIsDecided(Replay(stream), command);
      if Decide(Replay(stream), true, command).Success? {
        GrownReplays(stream, command, r);
        SentEvent(Replay(stream), command);
      }
    }
  }

  /** What a status change, an edit and a removal record touches no tags. */
  lemma SentEvent(held: TaskState, command: TaskCommand)
    requires command.SetStatus? || command.EditText? || command.RemoveTask?
    requires Decide(held, true, command).Success? && Decide(held, true, command).value.Some?
    ensures var event := Decide(held, true, command).value.value;
            && !held.removed
            && !event.TaskAdded? && !event.Retagged?
            && (event.TaskRemoved? <==> command.RemoveTask?)
  {
  }

  /** One record not yet imported leaves its own task's fold and stream corresponding. */
  lemma RecordLeaves(reading: Reading, progress: Progress, r: LogRecord)
    requires Corresponds(reading, progress.fold, r.task, StreamOf(progress.store, r.task))
    requires !Found(StreamOf(progress.store, r.task), r.raw)
    ensures Leaves(reading, progress, r)
  {
    if r.op == Add {
      AddLeaves(reading, progress, r);
    } else if r.task in progress.fold.live {
      if r.op == TagOn || r.op == TagOff {
        TagsLeave(reading, progress, r);
      } else {
        OthersLeave(reading, progress, r);
      }
    }
  }

  // ----- a whole run, from an empty store

  /** The first run's progress after `k` records. */
  function First(reading: Reading, records: seq<LogRecord>, k: nat): Progress
    requires k <= |records|
  {
    Imported(reading, records, map[], k)
  }

  ghost predicate AllCorrespond(reading: Reading, progress: Progress) {
    forall task :: Corresponds(reading, progress.fold, task, StreamOf(progress.store, task))
  }

  /** No stream holds an event of the record. */
  ghost predicate Nowhere(store: Store, raw: string) {
    forall task :: !Found(StreamOf(store, task), raw)
  }

  lemma FoundGrown(stream: Stream, event: TaskEvent, r: LogRecord, raw: string)
    ensures Found(Grown(stream, event, r), raw) <==> Found(stream, raw) || r.raw == raw
  {
    var grown := Grown(stream, event, r);
    assert forall i :: 0 <= i < |stream| ==> grown[i] == stream[i];
    assert grown[|stream|].cause == r.raw;
  }

  /** One record of the first run: the fold and the store go on corresponding, by its own task alone. */
  lemma OneCorresponds(reading: Reading, progress: Progress, r: LogRecord)
    requires AllCorrespond(reading, progress) && Nowhere(progress.store, r.raw)
    ensures AllCorrespond(reading, ImportOne(reading, progress, r).0)
    ensures Leaves(reading, progress, r)
  {
    hide Corresponds;
    RecordLeaves(reading, progress, r);
    forall task
      ensures var next := ImportOne(reading, progress, r).0;
              Corresponds(reading, next.fold, task, StreamOf(next.store, task))
    {
      if task != r.task {
        CorrespondsElsewhere(reading, progress, r, task);
      }
    }
  }

  /** Where a record's event is once it is imported: on its task's stream if it was applied, else nowhere. */
  lemma OneFound(reading: Reading, progress: Progress, r: LogRecord, raw: string)
    requires AllCorrespond(reading, progress) && Nowhere(progress.store, r.raw)
    ensures var (next, outcome) := ImportOne(reading, progress, r);
            forall task :: Found(StreamOf(next.store, task), raw) <==>
              Found(StreamOf(progress.store, task), raw) || (task == r.task && r.raw == raw && outcome == Applied)
    ensures var next := ImportOne(reading, progress, r).0;
            forall task :: StreamOf(progress.store, task) <= StreamOf(next.store, task)
  {
    OneCorresponds(reading, progress, r);
    hide ImportOne, Corresponds, Found;
    var (next, outcome) := ImportOne(reading, progress, r);
    if outcome == Applied {
      var event :| next.store == progress.store[r.task := Grown(StreamOf(progress.store, r.task), event, r)];
      FoundGrown(StreamOf(progress.store, r.task), event, r, raw);
    }
  }

  /** Over the first run: what the fold says and what the store holds correspond; later records are nowhere yet. */
  lemma {:induction false} FirstCorresponds(reading: Reading, records: seq<LogRecord>, k: nat)
    requires Distinct(records) && k <= |records|
    ensures AllCorrespond(reading, First(reading, records, k))
    ensures forall i :: k <= i < |records| ==> Nowhere(First(reading, records, k).store, records[i].raw)
  {
    if k > 0 {
      hide Corresponds, ImportOne, Found, Leaves, StreamOf;
      FirstCorresponds(reading, records, k - 1);
      OneCorresponds(reading, First(reading, records, k - 1), records[k - 1]);
      forall i | k <= i < |records|
        ensures Nowhere(First(reading, records, k).store, records[i].raw)
      {
        OneFound(reading, First(reading, records, k - 1), records[k - 1], records[i].raw);
      }
    } else {
      hide Corresponds, ImportOne, Found, Leaves;
      StartCorresponds(reading, records);
    }
  }

  lemma StartCorresponds(reading: Reading, records: seq<LogRecord>)
    ensures AllCorrespond(reading, First(reading, records, 0))
    ensures forall raw :: Nowhere(First(reading, records, 0).store, raw)
  {
    assert forall task :: Corresponds(reading, NewFold(records), task, []);
  }

  /** From record `i` on, the first run only adds: to streams, to what was issued, to what is missing. */
  lemma {:induction false} FirstOnlyAdds(reading: Reading, records: seq<LogRecord>, i: nat, k: nat)
    requires Distinct(records) && i <= k <= |records|
    ensures OnlyAdds(First(reading, records, i), First(reading, records, k))
    decreases k
  {
    if i < k {
      hide Found, AllCorrespond, ImportOne, OnlyAdds, Nowhere;
      FirstOnlyAdds(reading, records, i, k - 1);
      FirstCorresponds(reading, records, k - 1);
      var before, r := First(reading, records, k - 1), records[k - 1];
      OneAdds(reading, before, r);
      OnlyAddsOnward(First(reading, records, i), before, First(reading, records, k));
    }
  }

  ghost predicate OnlyAdds(before: Progress, after: Progress) {
    && (forall task :: StreamOf(before.store, task) <= StreamOf(after.store, task))
    && before.fold.issued <= after.fold.issued && before.fold.missing <= after.fold.missing
  }

  lemma OneAdds(reading: Reading, progress: Progress, r: LogRecord)
    requires AllCorrespond(reading, progress) && Nowhere(progress.store, r.raw)
    ensures OnlyAdds(progress, ImportOne(reading, progress, r).0)
  {
    hide AllCorrespond, Nowhere, ImportOne, StreamOf;
    OneFound(reading, progress, r, r.raw);
    OneIssues(reading, progress, r);
  }

  lemma OnlyAddsOnward(first: Progress, next: Progress, last: Progress)
    requires OnlyAdds(first, next) && OnlyAdds(next, last)
    ensures OnlyAdds(first, last)
  {
    hide StreamOf;
  }

  lemma OneIssues(reading: Reading, progress: Progress, r: LogRecord)
    ensures var next := ImportOne(reading, progress, r).0;
            progress.fold.issued <= next.fold.issued && progress.fold.missing <= next.fold.missing
  {
    hide Decide, Found, Replay, LoggedSet, ParsedSet, Parsed, Text.InsertAll, Text.WithoutAll, AnyRefused, Text.Trim;
  }

  /** After the first run's record `i`, its event is on its stream exactly when it was applied, from then on. */
  lemma {:induction false} FirstFinds(reading: Reading, records: seq<LogRecord>, i: nat, k: nat)
    requires Distinct(records) && i < k <= |records|
    ensures var outcome := OutcomeAt(reading, records, map[], i);
            forall task :: Found(StreamOf(First(reading, records, k).store, task), records[i].raw) <==>
              task == records[i].task && outcome == Applied
    decreases k
  {
    hide Corresponds, ImportOne, Found;
    FirstCorresponds(reading, records, k - 1);
    OneFound(reading, First(reading, records, k - 1), records[k - 1], records[i].raw);
    if i < k - 1 {
      FirstFinds(reading, records, i, k - 1);
    }
  }

  // ----- importing again what was imported

  /**
   A record lost for want of a trigger, whose task now holds one: the deferral refused
   before is one its stream would take now.
   */
  predicate Lifted(reading: Reading, records: seq<LogRecord>, i: nat, k: nat)
    requires i < k <= |records|
  {
    var stream := StreamOf(First(reading, records, k).store, records[i].task);
    && OutcomeAt(reading, records, map[], i) == WasLost(Refused(TriggerRequired))
    && stream != [] && !Replay(stream).removed && Replay(stream).trigger != ""
  }

  /** A command a live task refused: what its later stream says of it. */
  lemma LiveRefusedAgain(held: Stream, later: Stream, command: TaskCommand)
    requires History(held) && History(later) && held != [] && later != [] && !Replay(held).removed
    requires Sends(command) && Decide(Replay(held), true, command).Failure?
    ensures var decided := Decide(Replay(later), true, command);
            && (decided.Success? ==> decided.value.Some?)
            && (decided.Success? <==>
                  Decide(Replay(held), true, command).error == TriggerRequired &&
                  !Replay(later).removed && Replay(later).trigger != "")
  {
    HistorySound(held);
    HistorySound(later);
    SentIsDecided(Replay(held), command);
    SentIsDecided(Replay(later), command);
    hide Decide, Sound, Replay, History;
  }

  /** How a run record came out: refused, its fold noting an add's task as missing; or applied. */
  lemma RunComesOut(reading: Reading, progress: Progress, r: LogRecord)
    requires Stepped(reading, progress.fold, r).1.Run? && Nowhere(progress.store, r.raw)
    ensures var (fold, step) := Stepped(reading, progress.fold, r);
            var (next, outcome) := ImportOne(reading, progress, r);
            var stream := StreamOf(progress.store, r.task);
            var decided := Decide(Replay(stream), stream != [], step.command);
            if decided.Success? then outcome == Applied && next.fold == fold
            else outcome == WasLost(Refused(decided.error)) && next.fold == NotImported(fold, r)
  {
    hide Stepped, Decide, Replay;
    assert !Found(StreamOf(progress.store, r.task), r.raw);
  }

  /** What a record of the log is run as: an add of a task not issued, or a command to a live one. */
  lemma RunIsFor(reading: Reading, fold: Fold, r: LogRecord)
    requires Stepped(reading, fold, r).1.Run?
    ensures r.op == Add ==> r.task !in fold.issued
    ensures r.op != Add ==> r.task in fold.live && r.task !in fold.missing
    ensures r.op != Add ==> Sends(Stepped(reading, fold, r).1.command)
  {
    if r.op != Add {
      StepSends(reading, fold, r);
    }
  }

  /** Sent again to its task's later stream, a refused record is refused again, unless it was lifted. */
  lemma RefusedAgain(reading: Reading, records: seq<LogRecord>, i: nat, k: nat)
    requires Distinct(records) && i < k <= |records|
    requires Stepped(reading, First(reading, records, i).fold, records[i]).1.Run?
    requires OutcomeAt(reading, records, map[], i) != Applied
    ensures var r := records[i];
            var stream := StreamOf(First(reading, records, k).store, r.task);
            var command := Stepped(reading, First(reading, records, i).fold, r).1.command;
            var decided := Decide(Replay(stream), stream != [], command);
            && (decided.Success? <==> Lifted(reading, records, i, k))
            && (decided.Success? ==> decided.value.Some? && r.op != Add)
            && (r.op == Add ==> r.task in First(reading, records, i + 1).fold.missing)
  {
    hide Stepped, Decide, ImportOne, Sound, History, Nowhere, Replay;
    var r, then_, now := records[i], First(reading, records, i), First(reading, records, k);
    FirstCorresponds(reading, records, i);
    FirstCorresponds(reading, records, k);
    FirstOnlyAdds(reading, records, i + 1, k);
    FirstOnlyAdds(reading, records, i, k);
    RunComesOut(reading, then_, r);
    RunIsFor(reading, then_.fold, r);
    var held, later := StreamOf(then_.store, r.task), StreamOf(now.store, r.task);
    assert Corresponds(reading, then_.fold, r.task, held);
    assert Corresponds(reading, now.fold, r.task, later);
    if r.op != Add {
      LiveRefusedAgain(held, later, Stepped(reading, then_.fold, r).1.command);
    }
  }

  /**
   Run again where the first run's store has come to record `k`, record `i` before it
   changes nothing and leaves the fold as it was then, unless it was lifted: then it is
   applied, at the end of its task's stream.
   */
  lemma OneAgain(reading: Reading, records: seq<LogRecord>, i: nat, k: nat)
    requires Distinct(records) && i < k <= |records|
    ensures var store := First(reading, records, k).store;
            var (next, outcome) := ImportOne(reading, Progress(First(reading, records, i).fold, store), records[i]);
            if Lifted(reading, records, i, k)
            then outcome == Applied && OutcomeAt(reading, records, map[], i) != Applied &&
                 Found(StreamOf(next.store, records[i].task), records[i].raw)
            else outcome != Applied && next == Progress(First(reading, records, i + 1).fold, store)
  {
    hide Stepped, Decide, Replay, History, Corresponds, Imported, Found, Lifted;
    var r, then_, store := records[i], First(reading, records, i), First(reading, records, k).store;
    FirstNext(reading, records, i);
    FirstFinds(reading, records, i, k);
    FirstCorresponds(reading, records, i);
    if !Stepped(reading, then_.fold, r).1.Run? {
      NotRunAgain(reading, records, i, k);
    } else {
      RunComesOut(reading, then_, r);
      if OutcomeAt(reading, records, map[], i) == Applied {
        LiftedWasLost(reading, records, i, k);
        FoundAgain(reading, then_.fold, store, r);
      } else {
        RefusedAgain(reading, records, i, k);
        UnfoundAgain(reading, then_.fold, store, r);
      }
    }
  }

  lemma FirstNext(reading: Reading, records: seq<LogRecord>, i: nat)
    requires i < |records|
    ensures First(reading, records, i + 1) == ImportOne(reading, First(reading, records, i), records[i]).0
    ensures OutcomeAt(reading, records, map[], i) == ImportOne(reading, First(reading, records, i), records[i]).1
  {
  }

  lemma LiftedWasLost(reading: Reading, records: seq<LogRecord>, i: nat, k: nat)
    requires i < k <= |records|
    ensures Lifted(reading, records, i, k) ==> OutcomeAt(reading, records, map[], i) == WasLost(Refused(TriggerRequired))
  {
  }

  /** A record that runs no command leaves any store alone, and was lost to no refusal. */
  lemma NotRunAgain(reading: Reading, records: seq<LogRecord>, i: nat, k: nat)
    requires i < k <= |records|
    requires !Stepped(reading, First(reading, records, i).fold, records[i]).1.Run?
    ensures !Lifted(reading, records, i, k)
    ensures forall store ::
              var (next, outcome) := ImportOne(reading, Progress(First(reading, records, i).fold, store), records[i]);
              outcome != Applied && next == Progress(First(reading, records, i + 1).fold, store)
  {
    hide LoggedSet, ParsedSet, Parsed, Text.InsertAll, Text.WithoutAll, AnyRefused, Text.Trim, Decide;
  }

  lemma FoundAgain(reading: Reading, fold: Fold, store: Store, r: LogRecord)
    requires Stepped(reading, fold, r).1.Run? && Found(StreamOf(store, r.task), r.raw)
    ensures ImportOne(reading, Progress(fold, store), r) == (Progress(Stepped(reading, fold, r).0, store), Already)
  {
    hide Stepped;
  }

  lemma UnfoundAgain(reading: Reading, fold: Fold, store: Store, r: LogRecord)
    requires Stepped(reading, fold, r).1.Run? && !Found(StreamOf(store, r.task), r.raw)
    ensures var stream := StreamOf(store, r.task);
            var (fold', step) := Stepped(reading, fold, r);
            var decided := Decide(Replay(stream), stream != [], step.command);
            var (next, outcome) := ImportOne(reading, Progress(fold, store), r);
            && (decided.Failure? ==>
                  next == Progress(NotImported(fold', r), store) && outcome == WasLost(Refused(decided.error)))
            && (decided.Success? && decided.value.Some? ==>
                  outcome == Applied && Found(StreamOf(next.store, r.task), r.raw))
  {
    hide Stepped, Decide, Replay;
    var stream := StreamOf(store, r.task);
    var decided := Decide(Replay(stream), stream != [], Stepped(reading, fold, r).1.command);
    if decided.Success? && decided.value.Some? {
      FoundGrown(stream, decided.value.value, r, r.raw);
    }
  }

  /** No record before `k` was lifted: what the first run's report and the store together tell. */
  predicate Settled(reading: Reading, records: seq<LogRecord>, k: nat)
    requires k <= |records|
  {
    forall i :: 0 <= i < k ==> !Lifted(reading, records, i, k)
  }

  lemma {:induction false} AgainUpTo(reading: Reading, records: seq<LogRecord>, j: nat, k: nat)
    requires Distinct(records) && j <= k <= |records|
    requires forall i :: 0 <= i < j ==> !Lifted(reading, records, i, k)
    ensures var store := First(reading, records, k).store;
            Imported(reading, records, store, j) == Progress(First(reading, records, j).fold, store)
  {
    hide ImportOne, Lifted;
    if j > 0 {
      AgainUpTo(reading, records, j - 1, k);
      OneAgain(reading, records, j - 1, k);
    }
  }

  /** Once past where the first run had come to, a run resumed there is the first run. */
  lemma {:induction false} GoesOn(reading: Reading, records: seq<LogRecord>, k: nat, j: nat)
    requires Distinct(records) && k <= j <= |records| && Settled(reading, records, k)
    ensures Imported(reading, records, First(reading, records, k).store, j) == First(reading, records, j)
    decreases j
  {
    hide ImportOne, Lifted;
    if j == k {
      AgainUpTo(reading, records, k, k);
    } else {
      GoesOn(reading, records, k, j - 1);
    }
  }

  lemma {:induction false} StreamsOnlyGrow(reading: Reading, records: seq<LogRecord>, store: Store, j: nat, k: nat)
    requires j <= k <= |records|
    ensures forall task :: StreamOf(Imported(reading, records, store, j).store, task)
                        <= StreamOf(Imported(reading, records, store, k).store, task)
    decreases k
  {
    hide ImportOne, StreamOf;
    if j < k {
      StreamsOnlyGrow(reading, records, store, j, k - 1);
      OneGrows(reading, Imported(reading, records, store, k - 1), records[k - 1]);
    }
  }

  lemma OneGrows(reading: Reading, progress: Progress, r: LogRecord)
    ensures forall task :: StreamOf(progress.store, task) <= StreamOf(ImportOne(reading, progress, r).0.store, task)
  {
    hide Stepped, Decide, Replay, Found;
  }

  lemma FoundStays(stream: Stream, longer: Stream, raw: string)
    requires stream <= longer && Found(stream, raw)
    ensures Found(longer, raw)
  {
    var i :| 0 <= i < |stream| && stream[i].cause == raw;
    assert longer[i].cause == raw;
  }

  /** The first lifted record is applied, where the first run never applied it. */
  lemma LiftedIsApplied(reading: Reading, records: seq<LogRecord>, k: nat) returns (i: nat)
    requires Distinct(records) && k <= |records| && !Settled(reading, records, k)
    ensures i < k && OutcomeAt(reading, records, First(reading, records, k).store, i) == Applied
    ensures Imported(reading, records, First(reading, records, k).store, |records|).store !=
            First(reading, records, |records|).store
  {
    hide Lifted, ImportOne, Found, StreamOf;
    var store := First(reading, records, k).store;
    var first :| 0 <= first < k && Lifted(reading, records, first, k);
    i := 0;
    while !Lifted(reading, records, i, k)
      invariant i <= first && forall j :: 0 <= j < i ==> !Lifted(reading, records, j, k)
      decreases first - i
    {
      i := i + 1;
    }
    AgainUpTo(reading, records, i, k);
    OneAgain(reading, records, i, k);
    Diverged(reading, records, store, i);
  }

  /** An event of record `i`, which the first run never applied, is an event no run of it holds. */
  lemma Diverged(reading: Reading, records: seq<LogRecord>, store: Store, i: nat)
    requires Distinct(records) && i < |records|
    requires OutcomeAt(reading, records, map[], i) != Applied
    requires Found(StreamOf(Imported(reading, records, store, i + 1).store, records[i].task), records[i].raw)
    ensures Imported(reading, records, store, |records|).store != First(reading, records, |records|).store
  {
    hide ImportOne, Found, StreamOf;
    var n := |records|;
    StreamsOnlyGrow(reading, records, store, i + 1, n);
    FoundStays(StreamOf(Imported(reading, records, store, i + 1).store, records[i].task),
               StreamOf(Imported(reading, records, store, n).store, records[i].task), records[i].raw);
    FirstFinds(reading, records, i, n);
  }

  /**
   An import stopped after any number of records and run again leaves every stream exactly
   as one that never stopped, if and only if no record lost for want of a trigger is of a
   task that was by then live and holding one.
   */
  lemma ResumeIsExact(reading: Reading, records: seq<LogRecord>, k: nat)
    requires Distinct(records) && k <= |records|
    ensures Imported(reading, records, First(reading, records, k).store, |records|).store ==
              First(reading, records, |records|).store <==>
            Settled(reading, records, k)
  {
    if Settled(reading, records, k) {
      GoesOn(reading, records, k, |records|);
    } else {
      var _ := LiftedIsApplied(reading, records, k);
    }
  }

  /** A second full import applies nothing, under the same condition and no weaker one. */
  lemma SecondRunAppliesNothing(reading: Reading, records: seq<LogRecord>)
    requires Distinct(records)
    ensures (forall i :: 0 <= i < |records| ==>
               OutcomeAt(reading, records, First(reading, records, |records|).store, i) != Applied) <==>
            Settled(reading, records, |records|)
  {
    var n := |records|;
    if Settled(reading, records, n) {
      forall i | 0 <= i < n
        ensures OutcomeAt(reading, records, First(reading, records, n).store, i) != Applied
      {
        AgainUpTo(reading, records, i, n);
        OneAgain(reading, records, i, n);
      }
    } else {
      var _ := LiftedIsApplied(reading, records, n);
    }
  }

  // ----- a log that is not imported the same twice

  /** A task deferred on nothing, and then on something: the first deferral is refused, and could be taken later. */
  const ADDED := LogRecord("1", Add, "a", "t", "", "", "", "", [], EPOCH)
  const WAITING := LogRecord("2", Status, "a", "", DEFERRED, "", "", "", [], EPOCH)
  const TRIGGERED := LogRecord("3", Status, "a", "", DEFERRED, "w", "", "", [], EPOCH)

  lemma Trims()
    ensures Text.Trim("") == "" && Text.Trim("a") == "a" && Text.Trim("t") == "t" && Text.Trim("w") == "w"
  {
    Text.TrimTrims("");
    Text.TrimTrims("a");
    Text.TrimTrims("t");
    Text.TrimTrims("w");
  }

  lemma AddedSent(reading: Reading)
    ensures Decide(NoTask, false, AddCommand(reading, ADDED)) ==
            Success(Some(TaskAdded("a", "t", TO_DO, "", [], "", "")))
  {
    Trims();
    DefaultsTrimmed();
    hide Text.Trim;
    assert Parsed(reading, []) == [] && Normalized([]) == [];
  }

  lemma WaitingSent(task: TaskState)
    requires task.harpId == "a" && !task.removed && task.status == TO_DO && task.trigger == ""
    ensures Decide(task, true, SetStatus(Some(DEFERRED), None, DEFERS, INITIAL)) == Failure(TriggerRequired)
    ensures Decide(task, true, SetStatus(Some(DEFERRED), Some("w"), DEFERS, INITIAL)) ==
            Success(Some(StatusChanged(DEFERRED, "w", TO_DO)))
  {
    Trims();
    DefaultsTrimmed();
    hide Text.Trim;
  }

  const ADDED_STREAM: Stream := [Recorded(TaskAdded("a", "t", TO_DO, "", [], "", ""), EPOCH, "1")]
  const DEFERRED_STREAM: Stream := ADDED_STREAM + [Recorded(StatusChanged(DEFERRED, "w", TO_DO), EPOCH, "3")]

  lemma StreamsReplay()
    ensures var task := Replay(ADDED_STREAM);
            task.harpId == "a" && !task.removed && task.status == TO_DO && task.trigger == ""
    ensures !Replay(DEFERRED_STREAM).removed && Replay(DEFERRED_STREAM).trigger == "w"
  {
    assert ADDED_STREAM[..0] == [];
    assert DEFERRED_STREAM[..1] == ADDED_STREAM;
  }

  /** What the fold says of the task while it is live. */
  predicate LiveFold(fold: Fold, trigger: string) {
    && "a" in fold.issued && "a" in fold.live && "a" !in fold.missing
    && "a" in fold.triggers && fold.triggers["a"] == trigger
  }

  lemma FirstRecord(reading: Reading, fold: Fold)
    requires "a" !in fold.issued && "a" !in fold.missing
    ensures var (next, outcome) := ImportOne(reading, Progress(fold, map[]), ADDED);
            LiveFold(next.fold, "") && next.store == map["a" := ADDED_STREAM] && outcome == Applied
  {
    AddedSent(reading);
    Trims();
    hide Text.Trim, Decide, LoggedSet, AddCommand;
    assert Replay([]) == NoTask;
    assert [] + ADDED_STREAM == ADDED_STREAM;
  }

  lemma SecondRecord(reading: Reading, fold: Fold)
    requires LiveFold(fold, "")
    ensures var (next, outcome) := ImportOne(reading, Progress(fold, map["a" := ADDED_STREAM]), WAITING);
            LiveFold(next.fold, "") && next.store == map["a" := ADDED_STREAM]
            && outcome == WasLost(Refused(TriggerRequired))
  {
    StreamsReplay();
    WaitingSent(Replay(ADDED_STREAM));
    Trims();
    hide Text.Trim, Decide, Replay;
  }

  lemma ThirdRecord(reading: Reading, fold: Fold)
    requires LiveFold(fold, "")
    ensures var (next, outcome) := ImportOne(reading, Progress(fold, map["a" := ADDED_STREAM]), TRIGGERED);
            next.store == map["a" := DEFERRED_STREAM] && outcome == Applied
  {
    StreamsReplay();
    WaitingSent(Replay(ADDED_STREAM));
    Trims();
    hide Text.Trim, Decide, Replay;
  }

  /** Importing that log a second time applies its refused record, at the end of the task's stream. */
  lemma RefusedThenLifted(reading: Reading)
    ensures var log := [ADDED, WAITING, TRIGGERED];
            Distinct(log) && Lifted(reading, log, 1, 3) && !Settled(reading, log, 3)
  {
    var log := [ADDED, WAITING, TRIGGERED];
    hide ImportOne, Stepped;
    var zero := First(reading, log, 0);
    assert zero == Progress(NewFold(log), map[]);
    FirstRecord(reading, zero.fold);
    var one := First(reading, log, 1);
    assert one == ImportOne(reading, zero, ADDED).0;
    SecondRecord(reading, one.fold);
    var two := First(reading, log, 2);
    assert two == ImportOne(reading, one, WAITING).0;
    ThirdRecord(reading, two.fold);
    assert First(reading, log, 3) == ImportOne(reading, two, TRIGGERED).0;
    StreamsReplay();
    hide Replay;
    assert Lifted(reading, log, 1, 3);
  }

  // ----- any number of attempts

  /** Each attempt stops within the log, where nothing before it was lifted. */
  ghost predicate AllSettled(reading: Reading, records: seq<LogRecord>, stops: seq<nat>) {
    forall i :: 0 <= i < |stops| ==> stops[i] <= |records| && Settled(reading, records, stops[i])
  }

  /** The store after attempts at the import, each stopping after so many records. */
  ghost function Attempted(reading: Reading, records: seq<LogRecord>, stops: seq<nat>): Store
    requires AllSettled(reading, records, stops)
  {
    if stops == [] then map[] else
      var last := |stops| - 1;
      Imported(reading, records, Attempted(reading, records, stops[..last]), stops[last]).store
  }

  function Furthest(stops: seq<nat>): nat {
    if stops == [] then 0 else
      var last := |stops| - 1;
      if Furthest(stops[..last]) < stops[last] then stops[last] else Furthest(stops[..last])
  }

  /** However many attempts stopped wherever: the store is the one run's, as far as the furthest came. */
  lemma {:induction false} AttemptsReachFurthest(reading: Reading, records: seq<LogRecord>, stops: seq<nat>)
    requires Distinct(records) && AllSettled(reading, records, stops)
    ensures Furthest(stops) <= |records| && Settled(reading, records, Furthest(stops))
    ensures Attempted(reading, records, stops) == First(reading, records, Furthest(stops)).store
  {
    if stops != [] {
      hide ImportOne, Lifted;
      var before, stop := stops[..|stops| - 1], stops[|stops| - 1];
      AttemptsReachFurthest(reading, records, before);
      var furthest := Furthest(before);
      if furthest < stop {
        GoesOn(reading, records, furthest, stop);
      } else {
        AgainUpTo(reading, records, stop, furthest);
      }
    }
  }

  // ----- the import as it runs

  /** The fold, updated in place by each record. */
  class LogFold {
    var issued: set<string>
    var live: map<string, seq<string>>
    var triggers: map<string, string>
    var repaired: set<string>
    var missing: set<string>

    function State(): Fold
      reads this
    {
      Fold(issued, live, triggers, repaired, missing)
    }

    constructor (records: seq<LogRecord>)
      ensures State() == NewFold(records)
    {
      issued, live, triggers, missing := {}, map[], map[], {};
      repaired := set r | r in records && r.op == Add && r.repairOf != "" :: r.repairOf;
    }

    /** What one record comes to, the fold going on past it. */
    method Step(reading: Reading, r: LogRecord) returns (step: Step)
      modifies this
      ensures (State(), step) == Stepped(reading, old(State()), r)
    {
      if r.op == Add {
        if r.task in issued {
          return if reading.anomalyKey(r) in repaired then Repaired else Lost(Displaced);
        }
        issued := issued + {r.task};
        live := live[r.task := LoggedSet(r.tags)];
        triggers := triggers[r.task := Text.Trim(r.trigger)];
        return Run(AddCommand(reading, r));
      }
      if r.task !in live {
        return Ignored;
      }
      if r.op == Status {
        var logHeld := if r.task in triggers then triggers[r.task] else "";
        if r.trigger != "" {
          logHeld := Text.Trim(r.trigger);
        }
        triggers := triggers[r.task := logHeld];
        step := Run(SetStatus(LeftOut(r.status), DeferringOn(r.status, logHeld), DEFERS, INITIAL));
      } else if r.op == TextEdit {
        step := Run(EditText(r.text));
      } else if r.op == Remove {
        live := live - {r.task};
        triggers := triggers - {r.task};
        step := Run(RemoveTask(ByName));
      } else {
        var (next, retag) := StepTags(reading, State(), r);
        live := next.live;
        step := retag;
      }
      if r.task in missing {
        step := Lost(TaskNotImported);
      }
    }
  }

  /** What importing one project's log did. */
  datatype Report = Report(
    records: nat,
    repeated: nat,
    tasks: nat,
    applied: nat,
    already: nat,
    unaltered: nat,
    ignored: nat,
    repaired: nat,
    lost: seq<Why>)

  const NOTHING_YET := Report(0, 0, 0, 0, 0, 0, 0, 0, [])

  /** `report` with one more record's outcome counted in. */
  function Counted(report: Report, r: LogRecord, outcome: Outcome): Report {
    match outcome
    case Applied => report.(applied := report.applied + 1, tasks := report.tasks + if r.op == Add then 1 else 0)
    case Already => report.(already := report.already + 1)
    case WasUnchanged => report.(unaltered := report.unaltered + 1)
    case WasIgnored => report.(ignored := report.ignored + 1)
    case WasRepaired => report.(repaired := report.repaired + 1)
    case WasNothingLeft => report
    case WasLost(why) => report.(lost := report.lost + [why])
  }

  /** What the first `k` records came to, counted. */
  function Tally(reading: Reading, records: seq<LogRecord>, store: Store, k: nat): Report
    requires k <= |records|
  {
    if k == 0 then NOTHING_YET
    else Counted(Tally(reading, records, store, k - 1), records[k - 1], OutcomeAt(reading, records, store, k - 1))
  }

  /** An import that counts nothing applied is one in which no record was. */
  lemma {:induction false} TallyAppliedNone(reading: Reading, records: seq<LogRecord>, store: Store, k: nat)
    requires k <= |records|
    ensures Tally(reading, records, store, k).applied == 0 <==>
              forall i :: 0 <= i < k ==> OutcomeAt(reading, records, store, i) != Applied
  {
    hide OutcomeAt;
    if k > 0 {
      TallyAppliedNone(reading, records, store, k - 1);
    }
  }

  /** How many records a report counts an outcome of. */
  function Total(report: Report): nat {
    report.applied + report.already + report.unaltered + report.ignored + report.repaired + |report.lost|
  }

  lemma CountedTotals(report: Report, r: LogRecord, outcome: Outcome)
    ensures Total(Counted(report, r, outcome)) == Total(report) + if outcome == WasNothingLeft then 0 else 1
    ensures report.tasks <= report.applied ==> Counted(report, r, outcome).tasks <= Counted(report, r, outcome).applied
  {
  }

  /** Every record is counted once, but for retags left with no tag to change. */
  lemma {:induction false} TallyCountsEach(reading: Reading, records: seq<LogRecord>, store: Store, k: nat)
    requires k <= |records|
    ensures var t := Tally(reading, records, store, k);
            && Total(t) <= k && t.tasks <= t.applied
            && (Total(t) == k <==> forall i :: 0 <= i < k ==> OutcomeAt(reading, records, store, i) != WasNothingLeft)
  {
    hide OutcomeAt, Counted;
    if k > 0 {
      TallyCountsEach(reading, records, store, k - 1);
      CountedTotals(Tally(reading, records, store, k - 1), records[k - 1], OutcomeAt(reading, records, store, k - 1));
    }
  }

  /** The records before `k` that came out as `out` says. */
  ghost function Those(reading: Reading, records: seq<LogRecord>, store: Store, k: nat, out: (LogRecord, Outcome) -> bool)
    : set<nat>
    requires k <= |records|
  {
    set j: nat | j < k && out(records[j], OutcomeAt(reading, records, store, j))
  }

  lemma ThoseGrow(reading: Reading, records: seq<LogRecord>, store: Store, k: nat, out: (LogRecord, Outcome) -> bool)
    requires k < |records|
    ensures |Those(reading, records, store, k + 1, out)| ==
            |Those(reading, records, store, k, out)| +
            if out(records[k], OutcomeAt(reading, records, store, k)) then 1 else 0
  {
    hide OutcomeAt;
    var (before, after) := (Those(reading, records, store, k, out), Those(reading, records, store, k + 1, out));
    assert after == before + (if out(records[k], OutcomeAt(reading, records, store, k)) then {k} else {});
  }

  function Came(outcome: Outcome): (LogRecord, Outcome) -> bool {
    (r: LogRecord, o: Outcome) => o == outcome
  }

  function AddApplied(): (LogRecord, Outcome) -> bool {
    (r: LogRecord, o: Outcome) => o == Applied && r.op == Add
  }

  function CameToNothing(): (LogRecord, Outcome) -> bool {
    (r: LogRecord, o: Outcome) => o.WasLost?
  }

  /** Each count of a report is of the records that came out so, and the losses are theirs. */
  lemma {:induction false} TallyMeans(reading: Reading, records: seq<LogRecord>, store: Store, k: nat)
    requires k <= |records|
    ensures var t := Tally(reading, records, store, k);
            && t.applied == |Those(reading, records, store, k, Came(Applied))|
            && t.tasks == |Those(reading, records, store, k, AddApplied())|
            && t.already == |Those(reading, records, store, k, Came(Already))|
            && t.unaltered == |Those(reading, records, store, k, Came(WasUnchanged))|
            && t.ignored == |Those(reading, records, store, k, Came(WasIgnored))|
            && t.repaired == |Those(reading, records, store, k, Came(WasRepaired))|
            && |t.lost| == |Those(reading, records, store, k, CameToNothing())|
            && forall why :: why in t.lost <==>
                 exists j :: 0 <= j < k && OutcomeAt(reading, records, store, j) == WasLost(why)
  {
    hide OutcomeAt, Those, Counted;
    if k == 0 {
      NoneYet(reading, records, store);
    } else {
      TallyMeans(reading, records, store, k - 1);
      ThoseGrow(reading, records, store, k - 1, Came(Applied));
      ThoseGrow(reading, records, store, k - 1, AddApplied());
      ThoseGrow(reading, records, store, k - 1, Came(Already));
      ThoseGrow(reading, records, store, k - 1, Came(WasUnchanged));
      ThoseGrow(reading, records, store, k - 1, Came(WasIgnored));
      ThoseGrow(reading, records, store, k - 1, Came(WasRepaired));
      ThoseGrow(reading, records, store, k - 1, CameToNothing());
      CountedMeans(Tally(reading, records, store, k - 1), records[k - 1], OutcomeAt(reading, records, store, k - 1));
    }
  }

  /** What one more outcome adds to each count. */
  lemma CountedMeans(report: Report, r: LogRecord, outcome: Outcome)
    ensures var counted := Counted(report, r, outcome);
            && counted.applied == report.applied + (if outcome == Applied then 1 else 0)
            && counted.tasks == report.tasks + (if outcome == Applied && r.op == Add then 1 else 0)
            && counted.already == report.already + (if outcome == Already then 1 else 0)
            && counted.unaltered == report.unaltered + (if outcome == WasUnchanged then 1 else 0)
            && counted.ignored == report.ignored + (if outcome == WasIgnored then 1 else 0)
            && counted.repaired == report.repaired + (if outcome == WasRepaired then 1 else 0)
            && |counted.lost| == |report.lost| + (if outcome.WasLost? then 1 else 0)
            && forall why :: why in counted.lost <==> why in report.lost || outcome == WasLost(why)
  {
  }

  lemma NoneYet(reading: Reading, records: seq<LogRecord>, store: Store)
    ensures forall out :: Those(reading, records, store, 0, out) == {}
  {
  }

  lemma OneFurther(reading: Reading, records: seq<LogRecord>, store: Store, i: nat)
    requires i < |records|
    ensures ImportOne(reading, Imported(reading, records, store, i), records[i]) ==
            (Imported(reading, records, store, i + 1), OutcomeAt(reading, records, store, i))
    ensures Tally(reading, records, store, i + 1) ==
            Counted(Tally(reading, records, store, i), records[i], OutcomeAt(reading, records, store, i))
  {
    hide ImportOne, Counted;
  }

  lemma CountedCounts(report: Report, r: LogRecord, outcome: Outcome)
    ensures var counted := Counted(report, r, outcome);
            counted.records == report.records && counted.repeated == report.repeated
  {
  }

  /** The importer over a project's store. */
  class Importer {
    var store: Store

    /** Import a log, stopping after `stop` of its records in replay order. */
    method ImportProject(reading: Reading, log: seq<LogRecord>, stop: nat) returns (report: Report)
      modifies this
      ensures var records := ByTime(Once(log));
              var k := if stop < |records| then stop else |records|;
              && store == Imported(reading, records, old(store), k).store
              && report.(records := 0, repeated := 0) == Tally(reading, records, old(store), k)
              && report.records == |log| == |records| + report.repeated
    {
      hide Imported, Tally, ByTime, Once, Distinct;
      var records, repeated := ReplayOrder(log);
      report := ImportFirst(reading, records, if stop < |records| then stop else |records|);
      report := report.(records := |log|, repeated := repeated);
    }

    /** Import the first `k` records of a log already in replay order. */
    method ImportFirst(reading: Reading, records: seq<LogRecord>, k: nat) returns (report: Report)
      requires k <= |records|
      modifies this
      ensures store == Imported(reading, records, old(store), k).store
      ensures report == Tally(reading, records, old(store), k)
      ensures report.records == report.repeated == 0
    {
      hide ImportOne, OutcomeAt, Counted;
      report := NOTHING_YET;
      var fold := new LogFold(records);
      for i := 0 to k
        invariant Progress(fold.State(), store) == Imported(reading, records, old(store), i)
        invariant report == Tally(reading, records, old(store), i)
        invariant report.records == report.repeated == 0
        modifies fold, this
      {
        OneFurther(reading, records, old(store), i);
        CountedCounts(report, records[i], OutcomeAt(reading, records, old(store), i));
        var outcome := ImportRecord(reading, fold, records[i]);
        report := Counted(report, records[i], outcome);
      }
    }

    method ImportRecord(reading: Reading, fold: LogFold, r: LogRecord) returns (outcome: Outcome)
      modifies this, fold
      ensures (Progress(fold.State(), store), outcome) ==
                ImportOne(reading, Progress(old(fold.State()), old(store)), r)
    {
      hide Stepped, Posted;
      var step := fold.Step(reading, r);
      match step {
        case Run(command) => outcome := Send(fold, r, command);
        case Unchanged => outcome := WasUnchanged;
        case Ignored => outcome := WasIgnored;
        case Repaired => outcome := WasRepaired;
        case Lost(why) => outcome := WasLost(why);
        case NothingLeft => outcome := WasNothingLeft;
      }
    }

    /** Send a record's command, unless its stream already holds what it caused. */
    method Send(fold: LogFold, r: LogRecord, command: TaskCommand) returns (outcome: Outcome)
      modifies this, fold`missing
      ensures (Progress(fold.State(), store), outcome) == Posted(Progress(old(fold.State()), old(store)), r, command)
    {
      var stream := StreamOf(store, r.task);
      if Found(stream, r.raw) {
        return Already;
      }
      var decided := Decide(Replay(stream), stream != [], command);
      if decided.Failure? {
        if r.op == Add {
          fold.missing := fold.missing + {r.task};
        }
        return WasLost(Refused(decided.error));
      }
      if decided.value.Some? {
        store := store[r.task := stream + [Recorded(decided.value.value, r.ts, r.raw)]];
      }
      return Applied;
    }
  }

  /** The report tells a second full import's whole effect: it applied nothing if and only if none was lifted. */
  lemma SecondReport(reading: Reading, records: seq<LogRecord>)
    requires Distinct(records)
    ensures Tally(reading, records, First(reading, records, |records|).store, |records|).applied == 0 <==>
              Settled(reading, records, |records|)
  {
    SecondRunAppliesNothing(reading, records);
    TallyAppliedNone(reading, records, First(reading, records, |records|).store, |records|);
  }
}
