/**
 What the first import of a log makes of each task, and of each record, read off the
 log: the records of the task and which of them were applied.
 */
module LoggedTasks {
  import opened Wrappers
  import opened JsonlLog
  import opened Tasks
  import opened TaskStores
  import opened Import
  import Text

  // ----- the log, read

  /** The last position below `k` where `at` holds; -1 where it holds at none. */
  function LastWhere(at: nat -> bool, k: nat): (i: int)
    ensures -1 <= i < k && (i >= 0 ==> at(i))
    ensures forall j: nat :: i < j < k ==> !at(j)
  {
    if k == 0 then -1 else if at(k - 1) then k - 1 else LastWhere(at, k - 1)
  }

  /** An earlier record adds the task. */
  predicate AddedBefore(records: seq<LogRecord>, task: string, k: nat) {
    exists i :: 0 <= i < k && i < |records| && records[i].task == task && records[i].op == Add
  }

  /** The log takes the record for its task's: an add the first time, anything else after it. */
  predicate Counts(records: seq<LogRecord>, task: string, j: nat) {
    j < |records| && records[j].task == task && (records[j].op == Add <==> !AddedBefore(records, task, j))
  }

  function Lives(records: seq<LogRecord>, task: string): nat -> bool {
    (j: nat) => Counts(records, task, j) && (records[j].op == Add || records[j].op == Remove)
  }

  /** By its first `k` records the log has the task added, and not removed. */
  predicate LiveInLog(records: seq<LogRecord>, task: string, k: nat) {
    var j := LastWhere(Lives(records, task), k);
    j >= 0 && records[j].op == Add
  }

  function GivesTrigger(records: seq<LogRecord>, task: string): nat -> bool {
    (j: nat) => Counts(records, task, j)
                && (records[j].op == Add || (records[j].op == Status && records[j].trigger != ""))
  }

  /** The trigger the log's first `k` records have the task hold, whatever its status: an empty one changes nothing. */
  function LogTrigger(records: seq<LogRecord>, task: string, k: nat): string {
    var j := LastWhere(GivesTrigger(records, task), k);
    if j < 0 then "" else Text.Trim(records[j].trigger)
  }

  /** A record spells a tag so, but for what surrounds it. */
  predicate Spells(r: LogRecord, s: string) {
    s != "" && exists t :: t in r.tags && Text.Trim(t) == s
  }

  function NamesTag(records: seq<LogRecord>, task: string, s: string): nat -> bool {
    (j: nat) => Counts(records, task, j) && records[j].op in {Add, TagOn, TagOff} && Spells(records[j], s)
  }

  /** The log's first `k` records leave the task tagged `s`: the last to name it did not untag it. */
  predicate TagLogged(records: seq<LogRecord>, task: string, s: string, k: nat) {
    var j := LastWhere(NamesTag(records, task, s), k);
    j >= 0 && records[j].op != TagOff
  }

  /** The tags a live task has by then: the logged ones that are tags. */
  ghost predicate TaggedBy(reading: Reading, records: seq<LogRecord>, task: string, tag: Tag, k: nat) {
    exists s :: TagLogged(records, task, s, k) && reading.parse(s) == IsTag(tag)
  }

  // ----- the log and what was applied of it

  /** The first import applies the record at `j`. */
  predicate Took(reading: Reading, records: seq<LogRecord>, j: nat) {
    j < |records| && OutcomeAt(reading, records, map[], j) == Applied
  }

  /** The applied records of the task of one of the kinds `ops`. */
  function Takes(reading: Reading, records: seq<LogRecord>, task: string, ops: set<Op>): nat -> bool {
    (j: nat) => j < |records| && records[j].task == task && records[j].op in ops && Took(reading, records, j)
  }

  predicate Imports(reading: Reading, records: seq<LogRecord>, task: string, k: nat) {
    LastWhere(Takes(reading, records, task, {Add}), k) >= 0
  }

  /** An applied record that defers the task, and on the trigger the log then has it hold. */
  function DefersOn(reading: Reading, records: seq<LogRecord>, task: string): nat -> bool {
    (j: nat) => Takes(reading, records, task, {Add, Status})(j) && records[j].status == DEFERRED
         && LogTrigger(records, task, j + 1) != ""
  }

  function StatusGiven(r: LogRecord): string {
    if r.status == "" then TO_DO else Text.Trim(r.status)
  }

  /**
   A task as its applied records leave it: the text of the last that gives one, the status
   of the last that gives one, since then; the trigger it was last deferred on, while it is
   Deferred; and the session and the instant of its add.
   */
  predicate Carries(reading: Reading, records: seq<LogRecord>, task: string, k: nat, held: TaskState)
    requires k <= |records|
  {
    var added := LastWhere(Takes(reading, records, task, {Add}), k);
    var texted := LastWhere(Takes(reading, records, task, {Add, TextEdit}), k);
    var moved := LastWhere(Takes(reading, records, task, {Add, Status}), k);
    var waits := LastWhere(DefersOn(reading, records, task), k);
    && added >= 0 && texted >= 0 && moved >= 0
    && held.harpId == Text.Trim(task) && held.text == Text.Trim(records[texted].text)
    && held.originSession == Text.Trim(records[added].session) && held.createdAt == records[added].ts
    && held.status == StatusGiven(records[moved]) && held.statusSetAt == records[moved].ts
    && (if held.status == DEFERRED then waits >= 0 && held.trigger == LogTrigger(records, task, waits + 1)
        else held.trigger == "")
  }

  // ----- what the fold says is what the log says

  ghost predicate FoldReads(reading: Reading, records: seq<LogRecord>, task: string, k: nat, fold: Fold) {
    && (task in fold.issued <==> AddedBefore(records, task, k))
    && (task in fold.live <==> LiveInLog(records, task, k))
    && (task in fold.live ==> task in fold.triggers && fold.triggers[task] == LogTrigger(records, task, k))
    && (task in fold.live ==> forall s :: s in fold.live[task] <==> TagLogged(records, task, s, k))
  }

  lemma AddedNow(records: seq<LogRecord>, task: string, k: nat)
    requires k < |records|
    ensures AddedBefore(records, task, k + 1) <==>
              AddedBefore(records, task, k) || (records[k].task == task && records[k].op == Add)
  {
  }

  /** A task the log has live was added; one it has not was not, or was removed for good. */
  lemma LiveWasAdded(records: seq<LogRecord>, task: string, k: nat)
    ensures LiveInLog(records, task, k) ==> AddedBefore(records, task, k)
  {
    var j := LastWhere(Lives(records, task), k);
  }

  lemma LoggedSetHolds(r: LogRecord)
    ensures forall s :: s in LoggedSet(r.tags) <==> Spells(r, s)
  {
    TrimmedHolds(r.tags);
    Text.InsertAllKeepsOrder([], TrimmedAll(r.tags));
    assert forall s :: s in LoggedSet(r.tags) <==> s in Text.Elements(LoggedSet(r.tags));
    assert forall s :: s in TrimmedAll(r.tags) <==> s in Text.Elements(TrimmedAll(r.tags));
    hide LoggedSet, TrimmedAll, Text.Trim, Text.Sorted;
  }

  /** A record of another task changes nothing of what the fold or the log say of this one. */
  lemma ReadsElsewhere(reading: Reading, records: seq<LogRecord>, task: string, k: nat, fold: Fold)
    requires k < |records| && records[k].task != task && FoldReads(reading, records, task, k, fold)
    ensures FoldReads(reading, records, task, k + 1, Stepped(reading, fold, records[k]).0)
  {
    hide LoggedSet, ParsedSet, Parsed, Text.InsertAll, Text.WithoutAll, Text.Trim, AnyRefused;
    AddedNow(records, task, k);
    hide AddedBefore;
  }

  /** Before its add the log says nothing of a task. */
  lemma NothingSaid(records: seq<LogRecord>, task: string, k: nat)
    requires !AddedBefore(records, task, k)
    ensures forall j: nat :: j < k ==> !Counts(records, task, j)
  {
    forall j: nat | j < k ensures !AddedBefore(records, task, j) {
    }
  }

  lemma ReadsAdd(reading: Reading, records: seq<LogRecord>, k: nat, fold: Fold)
    requires k < |records| && records[k].op == Add && FoldReads(reading, records, records[k].task, k, fold)
    ensures FoldReads(reading, records, records[k].task, k + 1, Stepped(reading, fold, records[k]).0)
  {
    hide LoggedSet, Parsed, Text.Trim, Spells;
    var r, task := records[k], records[k].task;
    AddedNow(records, task, k);
    if !AddedBefore(records, task, k) {
      NothingSaid(records, task, k);
      LoggedSetHolds(r);
    }
    hide AddedBefore;
  }

  /** Logged tags, tagged or untagged. */
  lemma TagsRead(held: seq<string>, r: LogRecord)
    requires Text.Sorted(held)
    ensures forall s :: s in Text.InsertAll(held, LoggedSet(r.tags)) <==> s in held || Spells(r, s)
    ensures forall s :: s in Text.WithoutAll(held, LoggedSet(r.tags)) <==> s in held && !Spells(r, s)
  {
    LoggedSetHolds(r);
    var (given, more, less) :=
      (LoggedSet(r.tags), Text.InsertAll(held, LoggedSet(r.tags)), Text.WithoutAll(held, LoggedSet(r.tags)));
    Text.InsertAllKeepsOrder(held, given);
    Text.WithoutAllKeepsOrder(held, given);
    hide LoggedSet, Text.InsertAll, Text.WithoutAll, Text.Sorted, Spells;
    assert forall s :: (s in more <==> s in Text.Elements(more)) && (s in less <==> s in Text.Elements(less));
    assert forall s :: (s in held <==> s in Text.Elements(held)) && (s in given <==> s in Text.Elements(given));
  }

  lemma ReadsLive(reading: Reading, records: seq<LogRecord>, k: nat, fold: Fold)
    requires k < |records| && records[k].op != Add && FoldReads(reading, records, records[k].task, k, fold)
    requires records[k].task in fold.live && Text.Sorted(fold.live[records[k].task])
    ensures FoldReads(reading, records, records[k].task, k + 1, Stepped(reading, fold, records[k]).0)
  {
    hide LoggedSet, Parsed, ParsedSet, AnyRefused, Spells, AddedBefore, LastWhere, Counts;
    hide Text.Trim, Text.InsertAll, Text.WithoutAll, Text.Sorted;
    var r, task := records[k], records[k].task;
    AddedNow(records, task, k);
    LiveWasAdded(records, task, k);
    LiveCounts(records, k);
    TagsRead(fold.live[task], r);
    NextLast(Lives(records, task), k);
    NextLast(GivesTrigger(records, task), k);
    forall s { NextLast(NamesTag(records, task, s), k); }
  }

  lemma LiveCounts(records: seq<LogRecord>, k: nat)
    requires k < |records| && records[k].op != Add
    ensures AddedBefore(records, records[k].task, k) ==> Counts(records, records[k].task, k)
  {
  }

  lemma ReadsIgnored(reading: Reading, records: seq<LogRecord>, k: nat, fold: Fold)
    requires k < |records| && records[k].op != Add && FoldReads(reading, records, records[k].task, k, fold)
    requires records[k].task !in fold.live
    ensures FoldReads(reading, records, records[k].task, k + 1, Stepped(reading, fold, records[k]).0)
  {
    AddedNow(records, records[k].task, k);
    hide AddedBefore, Spells, Text.Trim;
  }

  /** One record more: what the fold says of every task is what the log says. */
  lemma ReadsNext(reading: Reading, records: seq<LogRecord>, task: string, k: nat, progress: Progress)
    requires k < |records| && FoldReads(reading, records, task, k, progress.fold)
    requires task in progress.fold.live ==> Text.Sorted(progress.fold.live[task])
    ensures FoldReads(reading, records, task, k + 1, ImportOne(reading, progress, records[k]).0.fold)
  {
    hide Stepped, FoldReads, Text.Sorted;
    if records[k].task != task {
      ReadsElsewhere(reading, records, task, k, progress.fold);
    } else if records[k].op == Add {
      ReadsAdd(reading, records, k, progress.fold);
    } else if task in progress.fold.live {
      ReadsLive(reading, records, k, progress.fold);
    } else {
      ReadsIgnored(reading, records, k, progress.fold);
    }
    StepsAlike(reading, progress, records[k]);
    FoldAlike(reading, records, task, k + 1, Stepped(reading, progress.fold, records[k]).0,
              ImportOne(reading, progress, records[k]).0.fold);
  }

  /** But for which tasks are missing, a record's fold is the log's alone. */
  lemma StepsAlike(reading: Reading, progress: Progress, r: LogRecord)
    ensures ImportOne(reading, progress, r).0.fold.(missing := {}) == Stepped(reading, progress.fold, r).0.(missing := {})
  {
    hide Stepped, Decide, Replay, Found;
  }

  lemma FoldAlike(reading: Reading, records: seq<LogRecord>, task: string, k: nat, fold: Fold, fold': Fold)
    requires fold.(missing := {}) == fold'.(missing := {})
    ensures FoldReads(reading, records, task, k, fold) <==> FoldReads(reading, records, task, k, fold')
  {
    hide LiveInLog, LogTrigger, TagLogged, AddedBefore;
  }

  /** Over the whole first import the fold says of each task what the log says. */
  lemma {:induction false} FirstReads(reading: Reading, records: seq<LogRecord>, task: string, k: nat)
    requires Distinct(records) && k <= |records|
    ensures FoldReads(reading, records, task, k, First(reading, records, k).fold)
    ensures First(reading, records, k).fold.repaired == NewFold(records).repaired
  {
    hide ImportOne, Corresponds, NewFold, Nowhere;
    if k == 0 {
      StartReads(reading, records, task);
    } else {
      FirstReads(reading, records, task, k - 1);
      FirstCorresponds(reading, records, k - 1);
      FirstNext(reading, records, k - 1);
      var before := First(reading, records, k - 1);
      assert Corresponds(reading, before.fold, task, StreamOf(before.store, task));
      CorrespondsSorted(reading, before.fold, task, StreamOf(before.store, task));
      ReadsNext(reading, records, task, k - 1, before);
      RepairsStay(reading, before, records[k - 1]);
    }
  }

  lemma StartReads(reading: Reading, records: seq<LogRecord>, task: string)
    ensures FoldReads(reading, records, task, 0, First(reading, records, 0).fold)
    ensures First(reading, records, 0).fold.repaired == NewFold(records).repaired
  {
  }

  lemma CorrespondsSorted(reading: Reading, fold: Fold, task: string, stream: Stream)
    requires Corresponds(reading, fold, task, stream)
    ensures task in fold.live ==> Text.Sorted(fold.live[task])
  {
  }

  lemma RepairsStay(reading: Reading, progress: Progress, r: LogRecord)
    ensures ImportOne(reading, progress, r).0.fold.repaired == progress.fold.repaired
  {
    hide Decide, Replay, Found, LoggedSet, ParsedSet, Parsed, Text.Trim, Text.InsertAll, Text.WithoutAll, AnyRefused;
  }

  // ----- what the applied records leave

  /** An applied record's command was decided by its stream, which holds its event now; no other changed. */
  lemma AppliedDecided(reading: Reading, progress: Progress, r: LogRecord)
    requires AllCorrespond(reading, progress) && Nowhere(progress.store, r.raw)
    ensures var (next, outcome) := ImportOne(reading, progress, r);
            var stream := StreamOf(progress.store, r.task);
            if outcome != Applied then next.store == progress.store
            else
              && Stepped(reading, progress.fold, r).1.Run?
              && var decided := Decide(Replay(stream), stream != [], Stepped(reading, progress.fold, r).1.command);
                 && decided.Success? && decided.value.Some?
                 && next.store == progress.store[r.task := Grown(stream, decided.value.value, r)]
  {
    OneCorresponds(reading, progress, r);
    hide Stepped, Decide, Replay, Corresponds, Nowhere, Found, Posted;
    NotFound(progress.store, r.raw, r.task);
    var (next, outcome) := ImportOne(reading, progress, r);
    var (fold, step) := Stepped(reading, progress.fold, r);
    if step.Run? {
      PostedApplies(progress.(fold := fold), r, step.command);
    }
    if outcome == Applied {
      var stream := StreamOf(progress.store, r.task);
      var event :| next.store == progress.store[r.task := Grown(stream, event, r)];
      assert StreamOf(next.store, r.task) != stream;
    }
  }

  /** A command sent to a stream that has no event of its id is applied exactly where the stream decides it. */
  lemma PostedApplies(progress: Progress, r: LogRecord, command: TaskCommand)
    requires !Found(StreamOf(progress.store, r.task), r.raw)
    ensures var (next, outcome) := Posted(progress, r, command);
            var stream := StreamOf(progress.store, r.task);
            var decided := Decide(Replay(stream), stream != [], command);
            if decided.Failure? then outcome != Applied && next.store == progress.store
            else
              && outcome == Applied
              && next.store == (if decided.value.None? then progress.store
                                else progress.store[r.task := Grown(stream, decided.value.value, r)])
  {
    hide Decide, Replay, Found;
  }

  lemma NotFound(store: Store, raw: string, task: string)
    requires Nowhere(store, raw)
    ensures !Found(StreamOf(store, task), raw)
  {
  }

  /** A task's stream after `k` records: none before its add is applied, else what its applied records leave. */
  ghost predicate StreamReads(reading: Reading, records: seq<LogRecord>, task: string, k: nat, stream: Stream)
    requires k <= |records|
  {
    && (stream != [] <==> Imports(reading, records, task, k))
    && (stream != [] ==> Carries(reading, records, task, k, Replay(stream)))
  }

  /** A record not applied, or another task's, is none of the task's applied records. */
  lemma NotTaken(reading: Reading, records: seq<LogRecord>, task: string, k: nat, stream: Stream)
    requires k < |records| && StreamReads(reading, records, task, k, stream)
    requires records[k].task != task || !Took(reading, records, k)
    ensures StreamReads(reading, records, task, k + 1, stream)
  {
    hide Took, Replay, LogTrigger, Text.Trim;
  }

  /** What an add record's command makes, of the record's own fields. */
  lemma AddCarries(reading: Reading, r: LogRecord)
    requires Decide(NoTask, false, AddCommand(reading, r)).Success?
    ensures var task := Apply(NoTask, Decide(NoTask, false, AddCommand(reading, r)).value.value, r.ts);
            && task.harpId == Text.Trim(r.task) && task.text == Text.Trim(r.text)
            && task.originSession == Text.Trim(r.session) && task.createdAt == task.statusSetAt == r.ts
            && task.status == StatusGiven(r)
            && (if task.status == DEFERRED then r.status == DEFERRED && task.trigger == Text.Trim(r.trigger) != ""
                else task.trigger == "")
  {
    var add := AddCommand(reading, r);
    AddRefused(add);
    AddMeans(add, r.ts);
    Text.TrimTrims("");
    Text.TrimTrims(r.trigger);
    DefaultsTrimmed();
    hide Text.Trim, Decide, Apply, Text.Sorted, Parsed;
  }

  /** The add of a task, applied. */
  lemma AddTaken(reading: Reading, records: seq<LogRecord>, k: nat, stream: Stream)
    requires k < |records| && records[k].op == Add && Took(reading, records, k) && stream != []
    requires !AddedBefore(records, records[k].task, k)
    requires Decide(NoTask, false, AddCommand(reading, records[k])).Success?
    requires Replay(stream) ==
             Apply(NoTask, Decide(NoTask, false, AddCommand(reading, records[k])).value.value, records[k].ts)
    ensures StreamReads(reading, records, records[k].task, k + 1, stream)
  {
    hide Took, Replay, Text.Trim, Decide, Apply, AddCommand, AddedBefore, LastWhere, StatusGiven, Counts, LogTrigger;
    AddCarries(reading, records[k]);
    var task := records[k].task;
    AddGives(records, k);
    NextLast(Takes(reading, records, task, {Add}), k);
    NextLast(Takes(reading, records, task, {Add, TextEdit}), k);
    NextLast(Takes(reading, records, task, {Add, Status}), k);
    NextLast(DefersOn(reading, records, task), k);
  }

  lemma AddGives(records: seq<LogRecord>, k: nat)
    requires k < |records| && records[k].op == Add && !AddedBefore(records, records[k].task, k)
    ensures LogTrigger(records, records[k].task, k + 1) == Text.Trim(records[k].trigger)
  {
    hide Text.Trim, AddedBefore;
    assert Counts(records, records[k].task, k);
  }

  /** The last position where something holds, one position further on. */
  lemma NextLast(at: nat -> bool, k: nat)
    ensures LastWhere(at, k + 1) == if at(k) then k else LastWhere(at, k)
  {
  }

  /** A record of a live task, applied: what each kind changes, and nothing else. */
  predicate Alters(r: LogRecord, held: TaskState, after: TaskState) {
    match r.op
    case TextEdit => after == held.(text := Text.Trim(r.text))
    case Remove => after == held.(removed := true)
    case Status =>
      && after == held.(status := after.status, trigger := after.trigger, priorStatus := after.priorStatus,
                        statusSetAt := r.ts, deferredSince := after.deferredSince)
      && after.status == StatusGiven(r) && r.status != ""
    case _ => after == held.(tags := after.tags)
  }

  /** The trigger a status record leaves: the one it names, where it spells Deferred as it is and the log holds one. */
  predicate Rewaits(r: LogRecord, logHeld: string, held: TaskState, after: TaskState) {
    r.op == Status ==>
      if after.status != DEFERRED then after.trigger == ""
      else if r.status == DEFERRED && logHeld != "" then after.trigger == logHeld
      else held.status == DEFERRED && after.trigger == held.trigger
  }

  /** What a live task's record alters, of the trigger the fold has it hold by then. */
  lemma RecordAlters(reading: Reading, fold: Fold, r: LogRecord, held: TaskState)
    requires r.op != Add && r.task in fold.live && Sound(held) && Stepped(reading, fold, r).1.Run?
    requires var decided := Decide(held, true, Stepped(reading, fold, r).1.command);
             decided.Success? && decided.value.Some?
    requires r.task in fold.triggers && Text.Trim(fold.triggers[r.task]) == fold.triggers[r.task]
    ensures var event := Decide(held, true, Stepped(reading, fold, r).1.command).value.value;
            var logHeld := if r.op == Status && r.trigger != "" then Text.Trim(r.trigger) else fold.triggers[r.task];
            Alters(r, held, Apply(held, event, r.ts)) && Rewaits(r, logHeld, held, Apply(held, event, r.ts))
  {
    var command := Stepped(reading, fold, r).1.command;
    StepSends(reading, fold, r);
    ChangeRefused(held, command);
    ChangeMeans(held, command, r.ts);
    Text.TrimTrims(r.trigger);
    DefaultsTrimmed();
    hide LoggedSet, Parsed, ParsedSet, AnyRefused, Text.InsertAll, Text.WithoutAll, Text.Sorted, Text.Trimmed;
    hide Decide, Apply, Text.Trim, RetaggedTags, Normalized;
  }

  /** A record of a live task, applied. */
  lemma LiveTaken(reading: Reading, records: seq<LogRecord>, k: nat, stream: Stream, after: Stream)
    requires k < |records| && records[k].op != Add && Took(reading, records, k) && stream != [] && after != []
    requires StreamReads(reading, records, records[k].task, k, stream)
    requires Alters(records[k], Replay(stream), Replay(after))
    requires var logHeld := LogTrigger(records, records[k].task, k + 1);
             Rewaits(records[k], logHeld, Replay(stream), Replay(after))
    ensures StreamReads(reading, records, records[k].task, k + 1, after)
  {
    hide Took, Replay, Text.Trim, AddedBefore, LastWhere, Counts, LogTrigger, StatusGiven, Carries;
    NextLast(Takes(reading, records, records[k].task, {Add}), k);
    LiveCarries(reading, records, k, Replay(stream), Replay(after));
  }

  lemma LiveCarries(reading: Reading, records: seq<LogRecord>, k: nat, held: TaskState, after: TaskState)
    requires k < |records| && records[k].op != Add && Took(reading, records, k)
    requires Carries(reading, records, records[k].task, k, held) && Alters(records[k], held, after)
    requires Rewaits(records[k], LogTrigger(records, records[k].task, k + 1), held, after)
    ensures Carries(reading, records, records[k].task, k + 1, after)
  {
    hide Took, Text.Trim, AddedBefore, LastWhere, Counts, LogTrigger, StatusGiven;
    var (r, task) := (records[k], records[k].task);
    NextLast(Takes(reading, records, task, {Add}), k);
    NextLast(Takes(reading, records, task, {Add, TextEdit}), k);
    NextLast(Takes(reading, records, task, {Add, Status}), k);
    NextLast(DefersOn(reading, records, task), k);
    if r.op == Status {
      GivenSpelled(r);
      hide Takes;
    }
  }

  /** A status spelled Deferred as it is, is what it gives. */
  lemma GivenSpelled(r: LogRecord)
    ensures r.status == DEFERRED ==> StatusGiven(r) == DEFERRED
  {
    DefaultsTrimmed();
    hide Text.Trim;
  }

  /** The log's trigger of a live task, once a record of it is read. */
  lemma TriggerNow(records: seq<LogRecord>, k: nat)
    requires k < |records| && records[k].op != Add && Counts(records, records[k].task, k)
    ensures var r := records[k];
            LogTrigger(records, r.task, k + 1) ==
              if r.op == Status && r.trigger != "" then Text.Trim(r.trigger) else LogTrigger(records, r.task, k)
  {
    hide Text.Trim, Counts;
  }

  lemma TriggerTrimmed(records: seq<LogRecord>, task: string, k: nat)
    ensures Text.Trim(LogTrigger(records, task, k)) == LogTrigger(records, task, k)
  {
    var j := LastWhere(GivesTrigger(records, task), k);
    if j < 0 {
      Text.TrimTrims("");
    } else {
      Text.TrimTrims(records[j].trigger);
    }
    hide Text.Trim, LastWhere;
  }

  /** The record at `k`, applied to its own task. */
  lemma OwnTaken(reading: Reading, records: seq<LogRecord>, k: nat)
    requires Distinct(records) && k < |records| && Took(reading, records, k)
    requires StreamReads(reading, records, records[k].task, k,
                         StreamOf(First(reading, records, k).store, records[k].task))
    ensures StreamReads(reading, records, records[k].task, k + 1,
                        StreamOf(First(reading, records, k + 1).store, records[k].task))
  {
    hide Stepped, Decide, Replay, Corresponds, Nowhere, ImportOne, Imported, FoldReads, StreamReads, Took, AddCommand;
    hide AddedBefore, LiveInLog, LogTrigger, Sound, Alters, Rewaits, History, Text.Trim;
    var r, progress := records[k], First(reading, records, k);
    var stream := StreamOf(progress.store, r.task);
    FirstCorresponds(reading, records, k);
    FirstReads(reading, records, r.task, k);
    FirstNext(reading, records, k);
    TookIs(reading, records, k);
    AppliedDecided(reading, progress, r);
    var command := Stepped(reading, progress.fold, r).1.command;
    var event := Decide(Replay(stream), stream != [], command).value.value;
    RunIsFor(reading, progress.fold, r);
    assert Corresponds(reading, progress.fold, r.task, stream);
    RunStands(reading, records, k, progress, stream);
    GrownReplays(stream, command, r);
    var after := Grown(stream, event, r);
    assert after != [];
    if r.op == Add {
      AddRuns(reading, progress.fold, r);
      AddTaken(reading, records, k, after);
    } else {
      TriggerTrimmed(records, r.task, k);
      RecordAlters(reading, progress.fold, r, Replay(stream));
      TriggerNow(records, k);
      LiveTaken(reading, records, k, stream, after);
    }
  }

  lemma TookIs(reading: Reading, records: seq<LogRecord>, k: nat)
    requires k < |records|
    ensures Took(reading, records, k) <==> ImportOne(reading, First(reading, records, k), records[k]).1 == Applied
  {
    hide ImportOne;
  }

  lemma AddRuns(reading: Reading, fold: Fold, r: LogRecord)
    requires r.op == Add && Stepped(reading, fold, r).1.Run?
    ensures Stepped(reading, fold, r).1.command == AddCommand(reading, r)
  {
    hide AddCommand, LoggedSet;
  }

  /** Where a record that is run stands: an add on no stream, anything else on its live task's. */
  lemma RunStands(reading: Reading, records: seq<LogRecord>, k: nat, progress: Progress, stream: Stream)
    requires k < |records| && FoldReads(reading, records, records[k].task, k, progress.fold)
    requires Corresponds(reading, progress.fold, records[k].task, stream)
    requires Stepped(reading, progress.fold, records[k]).1.Run?
    ensures var (r, command) := (records[k], Stepped(reading, progress.fold, records[k]).1.command);
            && Counts(records, r.task, k) && History(stream) && Sendable(command)
            && (r.op == Add ==> stream == [] && Replay(stream) == NoTask && !AddedBefore(records, r.task, k))
            && (r.op != Add ==>
                  && stream != [] && r.task in progress.fold.live && Sound(Replay(stream))
                  && r.task in progress.fold.triggers
                  && progress.fold.triggers[r.task] == LogTrigger(records, r.task, k))
  {
    hide Sound, Decide, Stepped, LogTrigger, LiveInLog, TagLogged;
    RunIsFor(reading, progress.fold, records[k]);
    if records[k].op == Add {
      AddRuns(reading, progress.fold, records[k]);
    } else {
      HistorySound(stream);
      LiveWasAdded(records, records[k].task, k);
    }
    hide Replay, History, AddedBefore;
  }

  /** Over the whole first import, each task's stream is what its applied records leave. */
  lemma {:induction false} FirstStreams(reading: Reading, records: seq<LogRecord>, task: string, k: nat)
    requires Distinct(records) && k <= |records|
    ensures StreamReads(reading, records, task, k, StreamOf(First(reading, records, k).store, task))
  {
    hide ImportOne, Corresponds, Nowhere, StreamReads, Took;
    if k == 0 {
      NoneRead(reading, records, task);
    } else {
      FirstStreams(reading, records, task, k - 1);
      if records[k - 1].task == task && Took(reading, records, k - 1) {
        OwnTaken(reading, records, k - 1);
      } else {
        var before := First(reading, records, k - 1);
        FirstCorresponds(reading, records, k - 1);
        FirstNext(reading, records, k - 1);
        TookIs(reading, records, k - 1);
        AppliedDecided(reading, before, records[k - 1]);
        NotTaken(reading, records, task, k - 1, StreamOf(before.store, task));
      }
    }
  }

  lemma NoneRead(reading: Reading, records: seq<LogRecord>, task: string)
    ensures StreamReads(reading, records, task, 0, StreamOf(First(reading, records, 0).store, task))
  {
  }

  /**
   What the first import makes of a task by its first `k` records. It has a stream once its
   add is applied; the stream's task is removed exactly when the log removed it; and the
   task carries what its applied records gave it, and while it is live the logged tags.
   */
  lemma ImportedMeans(reading: Reading, records: seq<LogRecord>, task: string, k: nat)
    requires Distinct(records) && k <= |records|
    ensures var stream := StreamOf(First(reading, records, k).store, task);
            if !Imports(reading, records, task, k) then stream == []
            else
              && stream != [] && (Replay(stream).removed <==> !LiveInLog(records, task, k))
              && Carries(reading, records, task, k, Replay(stream))
              && (LiveInLog(records, task, k) ==>
                    forall tag :: tag in Replay(stream).tags <==> TaggedBy(reading, records, task, tag, k))
  {
    FirstStreams(reading, records, task, k);
    FirstReads(reading, records, task, k);
    FirstCorresponds(reading, records, k);
    var (fold, stream) := (First(reading, records, k).fold, StreamOf(First(reading, records, k).store, task));
    assert Corresponds(reading, fold, task, stream);
    if LiveInLog(records, task, k) {
      TagsMean(reading, records, task, k, fold.live[task]);
    }
    hide Replay, History, Imported, LiveInLog, LogTrigger, TagLogged, Carries, Imports, ParsedSet, Text.Sorted;
  }

  /** Whatever the first import removes, it removes as removed by name: no prune is left to finish it. */
  predicate RemovedByName(stream: Stream) {
    forall i :: 0 <= i < |stream| && stream[i].event.TaskRemoved? ==> stream[i].event.reason == ByName
  }

  lemma {:induction false} FirstRemovals(reading: Reading, records: seq<LogRecord>, task: string, k: nat)
    requires Distinct(records) && k <= |records|
    ensures RemovedByName(StreamOf(First(reading, records, k).store, task))
  {
    hide ImportOne, Corresponds, Nowhere, Stepped, Decide, Replay;
    if k > 0 {
      var (before, r) := (First(reading, records, k - 1), records[k - 1]);
      FirstRemovals(reading, records, task, k - 1);
      FirstCorresponds(reading, records, k - 1);
      FirstNext(reading, records, k - 1);
      AppliedDecided(reading, before, r);
      if Stepped(reading, before.fold, r).1.Run? {
        RemovesByName(reading, before.fold, r, StreamOf(before.store, r.task));
      }
    }
  }

  lemma RemovesByName(reading: Reading, fold: Fold, r: LogRecord, stream: Stream)
    requires Stepped(reading, fold, r).1.Run?
    ensures var decided := Decide(Replay(stream), stream != [], Stepped(reading, fold, r).1.command);
            decided.Success? && decided.value.Some? && decided.value.value.TaskRemoved? ==>
              decided.value.value.reason == ByName
  {
    hide LoggedSet, ParsedSet, Parsed, AnyRefused, Text.InsertAll, Text.WithoutAll, Text.Trim, Replay, Normalized;
  }

  /** The logged tags, parsed, are those a task is tagged by. */
  lemma TagsMean(reading: Reading, records: seq<LogRecord>, task: string, k: nat, logged: seq<string>)
    requires forall s :: s in logged <==> TagLogged(records, task, s, k)
    ensures forall tag :: tag in Text.Elements(ParsedSet(reading, logged)) <==> TaggedBy(reading, records, task, tag, k)
  {
    ParsedHolds(reading, logged);
    Text.InsertAllKeepsOrder([], Parsed(reading, logged));
    forall s | s in logged ensures Text.Trim(s) == s != "" {
      var j := LastWhere(NamesTag(records, task, s), k);
      var t :| t in records[j].tags && Text.Trim(t) == s;
      Text.TrimTrims(t);
    }
    hide TagLogged, Text.Trim, Text.InsertAll, Text.Sorted, Parsed;
  }

  // ----- what becomes of each record

  predicate NotClass(status: string) {
    status != "" && status[0] != STATUS_CLASS_SIGIL
  }

  /** An add whose fields make a task: each given one not blank, and Deferred only on a trigger. */
  predicate AddStands(r: LogRecord) {
    && Text.Trim(r.task) != "" && Text.Trim(r.text) != ""
    && (r.status != "" ==> NotClass(Text.Trim(r.status)))
    && (r.session != "" ==> Text.Trim(r.session) != "")
    && (Text.Trim(r.status) == DEFERRED ==> r.status == DEFERRED && Text.Trim(r.trigger) != "")
  }

  /** A status a live task takes: one that is given, and Deferred only on a trigger the log or the task holds. */
  predicate StatusStands(reading: Reading, records: seq<LogRecord>, k: nat)
    requires k < |records|
  {
    var r := records[k];
    var moved := LastWhere(Takes(reading, records, r.task, {Add, Status}), k);
    && NotClass(Text.Trim(r.status))
    && (Text.Trim(r.status) == DEFERRED ==>
          || (r.status == DEFERRED && LogTrigger(records, r.task, k + 1) != "")
          || (moved >= 0 && StatusGiven(records[moved]) == DEFERRED))
  }

  /** The record changes which tags the log leaves its task. */
  ghost predicate Retags(reading: Reading, records: seq<LogRecord>, k: nat)
    requires k < |records|
  {
    exists tag ::
      !(TaggedBy(reading, records, records[k].task, tag, k) <==> TaggedBy(reading, records, records[k].task, tag, k + 1))
  }

  /** Some record repairs the add `r`, which its key names. */
  predicate Repairs(reading: Reading, records: seq<LogRecord>, r: LogRecord) {
    exists j :: 0 <= j < |records| && records[j].op == Add && records[j].repairOf == reading.anomalyKey(r) != ""
  }

  predicate SpellsNone(reading: Reading, r: LogRecord) {
    exists t :: t in r.tags && Text.Trim(t) != "" && reading.parse(Text.Trim(t)).NoTag?
  }

  /** What a record of a live, imported task comes to. */
  ghost predicate LiveOutcome(reading: Reading, records: seq<LogRecord>, k: nat, outcome: Outcome)
    requires k < |records|
  {
    var r := records[k];
    match r.op
    case Add => false
    case Remove => outcome == Applied
    case TextEdit => outcome == if Text.Trim(r.text) != "" then Applied else WasLost(Refused(TextRequired))
    case Status =>
      if StatusStands(reading, records, k) then outcome == Applied else outcome.WasLost? && outcome.why.Refused?
    case _ =>
      outcome == if Retags(reading, records, k) then Applied
                 else if SpellsNone(reading, r) then WasNothingLeft else WasUnchanged
  }

  /**
   What each record of the first import comes to, by the log before it: a second add is
   displaced, unless a repair names it; a record of a task not live is ignored; one of a
   task whose add was refused is lost with it; and any other is applied where it can be.
   */
  lemma OutcomeMeans(reading: Reading, records: seq<LogRecord>, k: nat)
    requires Distinct(records) && k < |records|
    ensures var (r, outcome) := (records[k], OutcomeAt(reading, records, map[], k));
            if r.op == Add then
              if AddedBefore(records, r.task, k) then
                outcome == if Repairs(reading, records, r) then WasRepaired else WasLost(Displaced)
              else if AddStands(r) then outcome == Applied
              else outcome.WasLost? && outcome.why.Refused?
            else if !LiveInLog(records, r.task, k) then outcome == WasIgnored
            else if !Imports(reading, records, r.task, k) then outcome == WasLost(TaskNotImported)
            else LiveOutcome(reading, records, k, outcome)
  {
    hide Imported, Stepped, ImportOne, Decide, Replay, Corresponds, FoldReads, LiveOutcome, AddStands, Nowhere;
    hide LiveInLog, AddedBefore, Imports, Carries, Repairs, Text.Trim;
    var (r, progress) := (records[k], First(reading, records, k));
    FirstNext(reading, records, k);
    FirstReads(reading, records, r.task, k);
    FirstCorresponds(reading, records, k);
    ImportedMeans(reading, records, r.task, k);
    assert Corresponds(reading, progress.fold, r.task, StreamOf(progress.store, r.task));
    if r.op == Add {
      AddComesOut(reading, records, k, progress);
    } else {
      MissingIs(reading, records, k, progress);
      if LiveInLog(records, r.task, k) && Imports(reading, records, r.task, k) {
        LiveComesOut(reading, records, k, progress);
      }
    }
  }

  lemma AddComesOut(reading: Reading, records: seq<LogRecord>, k: nat, progress: Progress)
    requires k < |records| && records[k].op == Add && Nowhere(progress.store, records[k].raw)
    requires FoldReads(reading, records, records[k].task, k, progress.fold)
    requires progress.fold.repaired == NewFold(records).repaired
    requires Corresponds(reading, progress.fold, records[k].task, StreamOf(progress.store, records[k].task))
    ensures var (r, outcome) := (records[k], ImportOne(reading, progress, records[k]).1);
            if AddedBefore(records, r.task, k) then
              outcome == if Repairs(reading, records, r) then WasRepaired else WasLost(Displaced)
            else if AddStands(r) then outcome == Applied
            else outcome.WasLost? && outcome.why.Refused?
  {
    hide Decide, AddStands, LoggedSet, AddCommand, Text.Trim, LiveInLog, AddedBefore, TagLogged, LogTrigger;
    var r := records[k];
    AddStandsIs(reading, r);
    if r.task !in progress.fold.issued {
      assert Stepped(reading, progress.fold, r).1 == Run(AddCommand(reading, r));
      RunComesOut(reading, progress, r);
      assert StreamOf(progress.store, r.task) == [] && Replay([]) == NoTask;
    } else {
      RepairsRead(reading, records, r);
    }
  }

  lemma RepairsRead(reading: Reading, records: seq<LogRecord>, r: LogRecord)
    ensures reading.anomalyKey(r) in NewFold(records).repaired <==> Repairs(reading, records, r)
  {
    if Repairs(reading, records, r) {
      var j :| 0 <= j < |records| && records[j].op == Add && records[j].repairOf == reading.anomalyKey(r) != "";
      assert records[j] in records;
    }
  }

  lemma AddStandsIs(reading: Reading, r: LogRecord)
    ensures Decide(NoTask, false, AddCommand(reading, r)).Success? <==> AddStands(r)
  {
    AddRefused(AddCommand(reading, r));
    Text.TrimTrims("");
    Text.TrimTrims(r.trigger);
    DefaultsTrimmed();
    hide Text.Trim, Decide, Parsed;
  }

  /** A record of a task not live is ignored, and one of a live task without a stream is lost with its add. */
  lemma MissingIs(reading: Reading, records: seq<LogRecord>, k: nat, progress: Progress)
    requires k < |records| && records[k].op != Add
    requires FoldReads(reading, records, records[k].task, k, progress.fold)
    requires Corresponds(reading, progress.fold, records[k].task, StreamOf(progress.store, records[k].task))
    ensures var (r, outcome) := (records[k], ImportOne(reading, progress, records[k]).1);
            var live := LiveInLog(records, r.task, k);
            && (if live then r.task in progress.fold.live else outcome == WasIgnored)
            && (live && StreamOf(progress.store, r.task) == [] ==> outcome == WasLost(TaskNotImported))
            && (live && StreamOf(progress.store, r.task) != [] ==> r.task !in progress.fold.missing)
  {
    hide StepLive, LiveInLog, AddedBefore, TagLogged, LogTrigger, Decide, Replay, History, Found;
  }

  lemma LiveComesOut(reading: Reading, records: seq<LogRecord>, k: nat, progress: Progress)
    requires Distinct(records) && k < |records| && progress == First(reading, records, k) && records[k].op != Add
    requires LiveInLog(records, records[k].task, k) && Imports(reading, records, records[k].task, k)
    ensures LiveOutcome(reading, records, k, ImportOne(reading, progress, records[k]).1)
  {
    hide Imported, Stepped, ImportOne, Decide, Replay, Corresponds, FoldReads, Nowhere, LiveInLog, AddedBefore, Imports;
    hide Retags, SpellsNone, StatusStands, Text.Trim, History, Sound, TagLogged, LogTrigger, LastWhere;
    var (r, stream) := (records[k], StreamOf(progress.store, records[k].task));
    FirstReads(reading, records, r.task, k);
    FirstCorresponds(reading, records, k);
    ImportedMeans(reading, records, r.task, k);
    assert Corresponds(reading, progress.fold, r.task, stream);
    MissingIs(reading, records, k, progress);
    if r.op == TagOn || r.op == TagOff {
      TagsComeOut(reading, records, k, progress, stream);
    } else {
      RunIsLive(reading, records, k, progress, stream);
      RunComesOut(reading, progress, r);
      LiveStands(reading, records, k, Replay(stream));
    }
  }

  /** The command a record of a live task that is no tag record is run as. */
  function LiveCommand(records: seq<LogRecord>, k: nat): TaskCommand
    requires k < |records|
  {
    var r := records[k];
    match r.op
    case Status =>
      SetStatus(LeftOut(r.status), DeferringOn(r.status, LogTrigger(records, r.task, k + 1)), DEFERS, INITIAL)
    case TextEdit => EditText(r.text)
    case _ => RemoveTask(ByName)
  }

  lemma RunIsLive(reading: Reading, records: seq<LogRecord>, k: nat, progress: Progress, stream: Stream)
    requires k < |records| && (records[k].op == Status || records[k].op == TextEdit || records[k].op == Remove)
    requires FoldReads(reading, records, records[k].task, k, progress.fold)
    requires Corresponds(reading, progress.fold, records[k].task, stream)
    requires records[k].task in progress.fold.live && records[k].task !in progress.fold.missing
    ensures Stepped(reading, progress.fold, records[k]).1 == Run(LiveCommand(records, k))
    ensures stream != [] && Sound(Replay(stream)) && !Replay(stream).removed
  {
    hide LiveInLog, AddedBefore, TagLogged, LogTrigger, Text.Trim, Sound, Replay;
    LiveWasAdded(records, records[k].task, k);
    LiveCounts(records, k);
    TriggerNow(records, k);
    HistorySound(stream);
  }

  /** What a live task refuses of a record's command, by the record and what the task carries. */
  lemma LiveStands(reading: Reading, records: seq<LogRecord>, k: nat, held: TaskState)
    requires k < |records| && (records[k].op == Status || records[k].op == TextEdit || records[k].op == Remove)
    requires Sound(held) && !held.removed && Carries(reading, records, records[k].task, k, held)
    ensures var (r, decided) := (records[k], Decide(held, true, LiveCommand(records, k)));
            match r.op
            case Status => decided.Success? <==> StatusStands(reading, records, k)
            case TextEdit => decided.Success? <==> Text.Trim(r.text) != ""
            case _ => decided.Success?
    ensures records[k].op == TextEdit && Text.Trim(records[k].text) == "" ==>
              Decide(held, true, LiveCommand(records, k)) == Failure(TextRequired)
  {
    hide Text.Trim, Text.Sorted, Text.Trimmed, LogTrigger, LastWhere, Changed, Sound, Decide, StatusStands;
    ChangeRefused(held, LiveCommand(records, k));
    if records[k].op == Status {
      StatusIs(reading, records, k, held);
    } else if records[k].op == TextEdit && Text.Trim(records[k].text) == "" {
      EditRefused(held, records[k].text);
    }
  }

  lemma EditRefused(held: TaskState, text: string)
    requires Sound(held) && !held.removed && Text.Trim(text) == ""
    ensures Decide(held, true, EditText(text)) == Failure(TextRequired)
  {
    hide Text.Trim, Text.Sorted;
  }

  /** The conditions a status change is refused on, told of a status record's command. */
  lemma StatusIs(reading: Reading, records: seq<LogRecord>, k: nat, held: TaskState)
    requires k < |records| && records[k].op == Status
    requires Sound(held) && Carries(reading, records, records[k].task, k, held)
    ensures var r := records[k];
            var trigger := DeferringOn(r.status, LogTrigger(records, r.task, k + 1));
            StatusRefused(held, LeftOut(r.status), trigger) <==> !StatusStands(reading, records, k)
  {
    hide StatusRefused, StatusStands, LogTrigger, LastWhere, Sound, Text.Trim, Carries, NotClass, DeferringOn, LeftOut;
    TriggerTrimmed(records, records[k].task, k + 1);
    WaitsWhileDeferred(held);
    StatusTold(records[k].status, LogTrigger(records, records[k].task, k + 1), held);
    StandsIs(reading, records, k, held);
  }

  lemma WaitsWhileDeferred(held: TaskState)
    requires Sound(held)
    ensures held.trigger == "" <==> held.status != DEFERRED
  {
    hide Text.Sorted, Text.Trimmed;
  }

  /** What a status record's command is refused on: the same, of the status spelled and the trigger the log holds. */
  lemma StatusTold(status: string, logHeld: string, held: TaskState)
    requires Text.Trim(logHeld) == logHeld && (held.trigger == "" <==> held.status != DEFERRED)
    ensures StatusRefused(held, LeftOut(status), DeferringOn(status, logHeld)) <==>
              !(NotClass(Text.Trim(status)) &&
                (Text.Trim(status) == DEFERRED ==> (status == DEFERRED && logHeld != "") || held.status == DEFERRED))
  {
    Text.TrimTrims("");
    DefaultsTrimmed();
    hide Text.Trim;
  }

  lemma StandsIs(reading: Reading, records: seq<LogRecord>, k: nat, held: TaskState)
    requires k < |records| && Carries(reading, records, records[k].task, k, held)
    ensures var (status, logHeld) := (records[k].status, LogTrigger(records, records[k].task, k + 1));
            StatusStands(reading, records, k) <==>
              (NotClass(Text.Trim(status)) &&
               (Text.Trim(status) == DEFERRED ==> (status == DEFERRED && logHeld != "") || held.status == DEFERRED))
  {
    hide LogTrigger, LastWhere, Text.Trim, NotClass;
  }

  /** What a tag record of a live task comes to. */
  lemma TagsComeOut(reading: Reading, records: seq<LogRecord>, k: nat, progress: Progress, stream: Stream)
    requires Distinct(records) && k < |records| && progress == First(reading, records, k)
    requires (records[k].op == TagOn || records[k].op == TagOff) && stream == StreamOf(progress.store, records[k].task)
    requires FoldReads(reading, records, records[k].task, k, progress.fold)
    requires Corresponds(reading, progress.fold, records[k].task, stream) && Nowhere(progress.store, records[k].raw)
    requires records[k].task in progress.fold.live && records[k].task !in progress.fold.missing
    ensures LiveOutcome(reading, records, k, ImportOne(reading, progress, records[k]).1)
  {
    hide Imported, Decide, Replay, History, Nowhere, LiveInLog, AddedBefore, LoggedSet, ParsedSet, AnyRefused;
    hide Text.Trim, Text.Sorted, Text.InsertAll, Text.WithoutAll, TagLogged, LogTrigger, Found, SpellsNone, Retags, Sound;
    var r := records[k];
    var held := progress.fold.live[r.task];
    var after := StepTags(reading, progress.fold, r).0.live[r.task];
    var (before, now) := (ParsedSet(reading, held), ParsedSet(reading, after));
    TagsStep(reading, records, k, progress.fold);
    HistorySound(stream);
    SetSorted(reading, held);
    SetSorted(reading, after);
    RetagTakes(Replay(stream), before, now);
    RetagsMeans(reading, records, k, held, after);
    SpellsRead(reading, r);
    if Text.WithoutAll(now, before) != [] || Text.WithoutAll(before, now) != [] {
      RunComesOut(reading, progress, r);
    }
  }

  /** The logged tags a tag record leaves. */
  lemma TagsStep(reading: Reading, records: seq<LogRecord>, k: nat, fold: Fold)
    requires k < |records| && (records[k].op == TagOn || records[k].op == TagOff) && records[k].task in fold.live
    requires FoldReads(reading, records, records[k].task, k, fold) && Text.Sorted(fold.live[records[k].task])
    ensures var after := StepTags(reading, fold, records[k]).0.live[records[k].task];
            forall s :: s in after <==> TagLogged(records, records[k].task, s, k + 1)
  {
    ReadsLive(reading, records, k, fold);
    hide LoggedSet, ParsedSet, Parsed, Text.InsertAll, Text.WithoutAll, AnyRefused, TagLogged, LogTrigger, LiveInLog;
    hide AddedBefore, Text.Sorted, Text.Trim;
  }

  lemma RetagsMeans(reading: Reading, records: seq<LogRecord>, k: nat, held: seq<string>, after: seq<string>)
    requires k < |records|
    requires forall s :: s in held <==> TagLogged(records, records[k].task, s, k)
    requires forall s :: s in after <==> TagLogged(records, records[k].task, s, k + 1)
    ensures var (before, now) := (ParsedSet(reading, held), ParsedSet(reading, after));
            Retags(reading, records, k) <==> Text.WithoutAll(now, before) != [] || Text.WithoutAll(before, now) != []
  {
    var task := records[k].task;
    var (before, now) := (ParsedSet(reading, held), ParsedSet(reading, after));
    TagsMean(reading, records, task, k, held);
    TagsMean(reading, records, task, k + 1, after);
    SetSorted(reading, held);
    SetSorted(reading, after);
    Text.WithoutAllKeepsOrder(now, before);
    Text.WithoutAllKeepsOrder(before, now);
    hide ParsedSet, TaggedBy, Text.WithoutAll, Text.Sorted;
    var (add, remove) := (Text.WithoutAll(now, before), Text.WithoutAll(before, now));
    assert add != [] ==> add[0] in Text.Elements(add);
    assert remove != [] ==> remove[0] in Text.Elements(remove);
    forall tag
      ensures tag in Text.Elements(add) || tag in Text.Elements(remove) <==>
                !(TaggedBy(reading, records, task, tag, k) <==> TaggedBy(reading, records, task, tag, k + 1))
    {
    }
    if Retags(reading, records, k) {
      var tag :| !(TaggedBy(reading, records, task, tag, k) <==> TaggedBy(reading, records, task, tag, k + 1));
      assert tag in Text.Elements(add) || tag in Text.Elements(remove);
    }
  }

  lemma SpellsRead(reading: Reading, r: LogRecord)
    ensures AnyRefused(reading, LoggedSet(r.tags)) <==> SpellsNone(reading, r)
  {
    LoggedSetHolds(r);
    forall t | t in r.tags ensures Text.Trim(Text.Trim(t)) == Text.Trim(t) { Text.TrimTrims(t); }
    hide LoggedSet, Text.Trim;
    if SpellsNone(reading, r) {
      var t :| t in r.tags && Text.Trim(t) != "" && reading.parse(Text.Trim(t)).NoTag?;
      assert Spells(r, Text.Trim(t));
    }
  }
}
