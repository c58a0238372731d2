/**
 The plans domain: one plan is one stream of events. `Decide` accepts a command
 against the plan a stream folds to, or refuses it; `Apply` folds one event.
 */
module Plans {
  import opened Wrappers
  import Text

  datatype PlanStatus = Draft | Active | Superseded | Done | Abandoned {
    /** Whether `plan status` may move a plan from this status to `to`. */
    predicate MayBecome(to: PlanStatus) {
      match this
      case Draft => to == Active || to == Abandoned
      case Active => to == Done || to == Abandoned
      case Done => to == Active
      case Abandoned => to == Active
      case Superseded => false
    }
  }

  /** A plan as its stream folds it; a set is a `BTreeSet` of harp ids. */
  datatype PlanState = PlanState(
    added: bool,
    harpId: string,
    title: string,
    status: PlanStatus,
    path: string,
    contentHash: string,
    originSession: string,
    governs: set<string>,
    supersedes: set<string>,
    supersededBy: string)

  const NoPlan := PlanState(false, "", "", Draft, "", "", "", {}, {}, "")

  datatype AddPlan = AddPlan(
    harpId: string,
    title: string,
    status: PlanStatus,
    path: string,
    contentHash: string,
    originSession: string)

  datatype PlanCommand =
    | Add(add: AddPlan)
    | SetStatus(to: PlanStatus)
    | Govern(task: string)
    | Ungovern(task: string)
    | Supersede(plan: string)
    | Unsupersede(plan: string)
    | MarkSuperseded(superseder: string)
    | Reinstate
    | Rehash(hash: string)

  datatype PlanEvent =
    | PlanAdded(add: AddPlan)
    | StatusChanged(fromStatus: PlanStatus, to: PlanStatus)
    | Governed(task: string)
    | Ungoverned(task: string)
    | HasSuperseded(plan: string)
    | Unsuperseded(plan: string)
    | MarkedSuperseded(superseder: string, fromStatus: PlanStatus)
    | Reinstated
    | Rehashed(hash: string)

  datatype PlanRejection =
    | AlreadyAdded
    | NoSuchPlan
    | EmptyTitle
    | InitialStatus(status: PlanStatus)
    | StatusUnchanged(status: PlanStatus)
    | Transition(fromStatus: PlanStatus, to: PlanStatus)
    | SupersededBySupersedeOnly
    | AlreadyGoverns(task: string)
    | NotGoverned(task: string)
    | SupersedesItself
    | AlreadySupersedes(plan: string)
    | NotSuperseded(plan: string)
    | HashUnchanged
    | BadHash(hash: string)

  type Decision = Result<PlanEvent, PlanRejection>

  // ----- deciding

  predicate WellFormed(hash: string) {
    |hash| == 64 && forall c | c in hash :: '0' <= c <= '9' || 'a' <= c <= 'f'
  }

  function HashChecked(hash: string): Result<(), PlanRejection> {
    if WellFormed(hash) then Success(()) else Failure(BadHash(hash))
  }

  /** What an add is judged by alone: its title is not blank, its status one to begin with, its hash well-formed. */
  function Carried(add: AddPlan): Result<(), PlanRejection> {
    if Text.Trim(add.title) == "" then Failure(EmptyTitle)
    else if !(add.status == Draft || add.status == Active) then Failure(InitialStatus(add.status))
    else HashChecked(add.contentHash)
  }

  function StatusSet(held: PlanStatus, to: PlanStatus): Result<PlanStatus, PlanRejection> {
    if to == Superseded then Failure(SupersededBySupersedeOnly)
    else if to == held then Failure(StatusUnchanged(held))
    else if !held.MayBecome(to) then Failure(Transition(held, to))
    else Success(to)
  }

  /** What a command is refused for by itself, on any stream: what a caller checks first. */
  function Check(command: PlanCommand): Result<(), PlanRejection> {
    match command
    case Add(add) => Carried(add)
    case Rehash(hash) => HashChecked(hash)
    case SetStatus(to) => if to == Superseded then Failure(SupersededBySupersedeOnly) else Success(())
    case _ => Success(())
  }

  /** What `command` records on the stream that folds to `plan`, or why not. */
  function Decide(plan: PlanState, command: PlanCommand): Decision {
    if command.Add? then
      if plan.added then Failure(AlreadyAdded) else
      var _ :- Carried(command.add);
      Success(PlanAdded(command.add))
    else if !plan.added then Failure(NoSuchPlan)
    else match command
      case SetStatus(asked) =>
        var to :- StatusSet(plan.status, asked);
        Success(StatusChanged(plan.status, to))
      case Govern(task) =>
        if task in plan.governs then Failure(AlreadyGoverns(task)) else Success(Governed(task))
      case Ungovern(task) =>
        if task in plan.governs then Success(Ungoverned(task)) else Failure(NotGoverned(task))
      case Supersede(other) =>
        if other == plan.harpId then Failure(SupersedesItself)
        else if other in plan.supersedes then Failure(AlreadySupersedes(other))
        else Success(HasSuperseded(other))
      case Unsupersede(other) =>
        if other in plan.supersedes then Success(Unsuperseded(other)) else Failure(NotSuperseded(other))
      case MarkSuperseded(superseder) =>
        if plan.status == Superseded then Failure(Transition(Superseded, Superseded))
        else Success(MarkedSuperseded(superseder, plan.status))
      case Reinstate =>
        if plan.status == Superseded then Success(Reinstated) else Failure(Transition(plan.status, Active))
      case Rehash(hash) =>
        var _ :- HashChecked(hash);
        if hash == plan.contentHash then Failure(HashUnchanged) else Success(Rehashed(hash))
  }

  // ----- folding

  function Apply(plan: PlanState, event: PlanEvent): PlanState {
    match event
    case PlanAdded(add) =>
      plan.(added := true, harpId := add.harpId, title := add.title, status := add.status,
            path := add.path, contentHash := add.contentHash, originSession := add.originSession)
    case StatusChanged(_, to) => plan.(status := to)
    case Governed(task) => plan.(governs := plan.governs + {task})
    case Ungoverned(task) => plan.(governs := plan.governs - {task})
    case HasSuperseded(other) => plan.(supersedes := plan.supersedes + {other})
    case Unsuperseded(other) => plan.(supersedes := plan.supersedes - {other})
    case MarkedSuperseded(superseder, _) => plan.(status := Superseded, supersededBy := superseder)
    case Reinstated => plan.(status := Active, supersededBy := "")
    case Rehashed(hash) => plan.(contentHash := hash)
  }

  /** The plan a stream of events folds to. */
  function Replay(events: seq<PlanEvent>): PlanState {
    if events == [] then NoPlan
    else Apply(Replay(events[..|events| - 1]), events[|events| - 1])
  }

  /** The aggregate the kernel runs: the folded plan, changed in place by each event. */
  class PlanAggregate {
    var added: bool
    var harpId: string
    var title: string
    var status: PlanStatus
    var path: string
    var contentHash: string
    var originSession: string
    var governs: set<string>
    var supersedes: set<string>
    var supersededBy: string

    function State(): PlanState
      reads this
    {
      PlanState(added, harpId, title, status, path, contentHash, originSession, governs, supersedes, supersededBy)
    }

    constructor ()
      ensures State() == NoPlan
    {
      added, harpId, title, status, path := false, "", "", Draft, "";
      contentHash, originSession, governs, supersedes, supersededBy := "", "", {}, {}, "";
    }

    /** Fold one event in place, as the stream's replay folds it. */
    method Fold(event: PlanEvent)
      modifies this
      ensures State() == Apply(old(State()), event)
    {
      match event
      case PlanAdded(add) =>
        added, harpId, title, status := true, add.harpId, add.title, add.status;
        path, contentHash, originSession := add.path, add.contentHash, add.originSession;
      case StatusChanged(_, to) => status := to;
      case Governed(task) => governs := governs + {task};
      case Ungoverned(task) => governs := governs - {task};
      case HasSuperseded(other) => supersedes := supersedes + {other};
      case Unsuperseded(other) => supersedes := supersedes - {other};
      case MarkedSuperseded(superseder, _) => status, supersededBy := Superseded, superseder;
      case Reinstated => status, supersededBy := Active, "";
      case Rehashed(hash) => contentHash := hash;
    }

    /** Fold a stream's events from an empty plan: the load the kernel makes. */
    method Load(events: seq<PlanEvent>)
      requires State() == NoPlan
      modifies this
      ensures State() == Replay(events)
    {
      for i := 0 to |events|
        invariant State() == Replay(events[..i])
      {
        Fold(events[i]);
        assert events[..i + 1][..i] == events[..i];
      }
      assert events[..|events|] == events;
    }
  }

  // ----- histories: streams every event of which was decided

  /** Some command, sent to the plan `events` folds to, records `event`. */
  ghost predicate Decided(plan: PlanState, event: PlanEvent) {
    exists command :: Decide(plan, command) == Success(event)
  }

  /** A stream the aggregate wrote. */
  ghost predicate History(events: seq<PlanEvent>) {
    events == [] ||
    (History(events[..|events| - 1]) && Decided(Replay(events[..|events| - 1]), events[|events| - 1]))
  }

  /** What every plan a history folds to keeps. */
  ghost predicate Sound(plan: PlanState) {
    if !plan.added then plan == NoPlan else
      && Text.Trim(plan.title) != ""
      && WellFormed(plan.contentHash)
      && plan.harpId !in plan.supersedes
      && (plan.supersededBy != "" ==> plan.status == Superseded)
  }

  /** One decided event keeps a plan sound, and is an add exactly on an empty stream. */
  lemma DecidedKeepsSound(plan: PlanState, event: PlanEvent)
    requires Sound(plan) && Decided(plan, event)
    ensures Sound(Apply(plan, event)) && Apply(plan, event).added
    ensures event.PlanAdded? <==> !plan.added
    ensures Apply(plan, event).harpId == if event.PlanAdded? then event.add.harpId else plan.harpId
  {
    var command :| Decide(plan, command) == Success(event);
  }

  lemma EmptyIsSound()
    ensures Sound(NoPlan)
  {
  }

  /** Over every history: the plan is sound, its add is its first event and its only one. */
  lemma {:induction false} HistorySound(events: seq<PlanEvent>)
    requires History(events)
    ensures Sound(Replay(events))
    ensures Replay(events).added <==> events != []
    ensures forall i :: 0 <= i < |events| ==> (events[i].PlanAdded? <==> i == 0)
    ensures events != [] ==> Replay(events).harpId == events[0].add.harpId
  {
    hide Sound, Apply, Decided;
    if events == [] {
      EmptyIsSound();
    } else {
      var prefix := events[..|events| - 1];
      HistorySound(prefix);
      DecidedKeepsSound(Replay(prefix), events[|events| - 1]);
      assert forall i :: 0 <= i < |prefix| ==> prefix[i] == events[i];
    }
  }

  /** Every event a command records changes the plan: nothing is recorded for nothing. */
  lemma DecidedChanges(plan: PlanState, command: PlanCommand)
    requires Sound(plan) && Decide(plan, command).Success?
    ensures Apply(plan, Decide(plan, command).value) != plan
  {
    var event := Decide(plan, command).value;
    match event {
      case Governed(task) => assert task in Apply(plan, event).governs;
      case Ungoverned(task) => assert task !in Apply(plan, event).governs;
      case HasSuperseded(other) => assert other in Apply(plan, event).supersedes;
      case Unsuperseded(other) => assert other !in Apply(plan, event).supersedes;
      case _ =>
    }
  }

  // ----- what a command is accepted for, and what it leaves

  /** The moves `plan status` makes: on from Draft and Active, and back to Active from where work stopped. */
  const MOVES: set<(PlanStatus, PlanStatus)> :=
    {(Draft, Active), (Draft, Abandoned), (Active, Done), (Active, Abandoned), (Done, Active), (Abandoned, Active)}

  predicate Accepts(plan: PlanState, command: PlanCommand) {
    match command
    case Add(add) =>
      !plan.added && Text.Trim(add.title) != "" && (add.status == Draft || add.status == Active)
      && WellFormed(add.contentHash)
    case SetStatus(to) => plan.added && (plan.status, to) in MOVES
    case Govern(task) => plan.added && task !in plan.governs
    case Ungovern(task) => plan.added && task in plan.governs
    case Supersede(other) => plan.added && other != plan.harpId && other !in plan.supersedes
    case Unsupersede(other) => plan.added && other in plan.supersedes
    case MarkSuperseded(_) => plan.added && plan.status != Superseded
    case Reinstate => plan.added && plan.status == Superseded
    case Rehash(hash) => plan.added && WellFormed(hash) && hash != plan.contentHash
  }

  /** The plan once an accepted command's event is folded. */
  function Leaves(plan: PlanState, command: PlanCommand): PlanState {
    match command
    case Add(add) =>
      PlanState(true, add.harpId, add.title, add.status, add.path, add.contentHash, add.originSession, {}, {}, "")
    case SetStatus(to) => plan.(status := to)
    case Govern(task) => plan.(governs := plan.governs + {task})
    case Ungovern(task) => plan.(governs := plan.governs - {task})
    case Supersede(other) => plan.(supersedes := plan.supersedes + {other})
    case Unsupersede(other) => plan.(supersedes := plan.supersedes - {other})
    case MarkSuperseded(superseder) => plan.(status := Superseded, supersededBy := superseder)
    case Reinstate => plan.(status := Active, supersededBy := "")
    case Rehash(hash) => plan.(contentHash := hash)
  }

  /** Exactly which commands are accepted, and all that each leaves of the plan. */
  lemma DecideMeans(plan: PlanState, command: PlanCommand)
    requires Sound(plan)
    ensures Decide(plan, command).Success? <==> Accepts(plan, command)
    ensures Decide(plan, command).Success? ==>
              Apply(plan, Decide(plan, command).value) == Leaves(plan, command)
  {
    hide WellFormed, Text.Trim;
    if command.SetStatus? {
      MovesAre(plan.status, command.to);
    }
  }

  lemma MovesAre(from_: PlanStatus, to: PlanStatus)
    ensures StatusSet(from_, to).Success? <==> (from_, to) in MOVES
  {
  }

  /** What its add gives a plan for good, whatever is recorded after: its title, its path and its session. */
  lemma {:induction false} AddedForGood(events: seq<PlanEvent>)
    requires History(events) && events != []
    ensures events[0].PlanAdded?
    ensures var (plan, add) := (Replay(events), events[0].add);
            plan.title == add.title && plan.path == add.path && plan.originSession == add.originSession
  {
    hide Decided, Sound;
    HistorySound(events);
    var before := events[..|events| - 1];
    if before != [] {
      AddedForGood(before);
    }
  }

  /** A plan is a Draft until it first leaves that status, and never again. */
  lemma {:induction false} DraftOnlyFirst(events: seq<PlanEvent>, k: nat)
    requires History(events) && 0 < k <= |events| && Replay(events[..k]).status != Draft
    ensures Replay(events).status != Draft
    decreases |events|
  {
    if k < |events| {
      var before := events[..|events| - 1];
      assert before[..k] == events[..k];
      DraftOnlyFirst(before, k);
      HistorySound(before);
      hide Sound, WellFormed, Text.Trim;
    } else {
      assert events[..k] == events;
    }
  }

  /** The command that takes back what `command` does, where one does. */
  function Opposite(command: PlanCommand): Option<PlanCommand> {
    match command
    case Govern(task) => Some(Ungovern(task))
    case Ungovern(task) => Some(Govern(task))
    case Supersede(other) => Some(Unsupersede(other))
    case Unsupersede(other) => Some(Supersede(other))
    case MarkSuperseded(_) => Some(Reinstate)
    case _ => None
  }

  /**
   A link of either kind and its opposite leave the plan as it was; a mark and a
   reinstatement leave it unmarked and Active, whatever it was before.
   */
  lemma OppositesUndo(plan: PlanState, command: PlanCommand)
    requires Sound(plan) && Decide(plan, command).Success? && Opposite(command).Some?
    ensures var after := Apply(plan, Decide(plan, command).value);
            var undone := Decide(after, Opposite(command).value);
            && undone.Success?
            && Apply(after, undone.value) ==
               if command.MarkSuperseded? then plan.(status := Active, supersededBy := "") else plan
  {
    var after := Apply(plan, Decide(plan, command).value);
    match command {
      case Govern(task) => assert plan.governs + {task} - {task} == plan.governs;
      case Ungovern(task) => assert plan.governs - {task} + {task} == plan.governs;
      case Supersede(other) => assert plan.supersedes + {other} - {other} == plan.supersedes;
      case Unsupersede(other) => assert plan.supersedes - {other} + {other} == plan.supersedes;
      case _ =>
    }
  }

  /** Sent one after another to one stream, accepted, a refused one recording nothing. */
  function Sent(plan: PlanState, commands: seq<PlanCommand>): PlanState
    decreases |commands|
  {
    if commands == [] then plan else
      var decided := Decide(plan, commands[0]);
      Sent(if decided.Success? then Apply(plan, decided.value) else plan, commands[1..])
  }

  /**
   `plan status` alone, however often and with whatever statuses, neither makes a
   plan Superseded nor takes it out of it: only the supersede commands do.
   */
  lemma {:induction false} StatusNeverSupersedes(plan: PlanState, commands: seq<PlanCommand>)
    requires forall c :: c in commands ==> !c.MarkSuperseded? && !c.Reinstate? && !c.Add?
    ensures Sent(plan, commands).status == Superseded <==> plan.status == Superseded
    ensures Sent(plan, commands).supersededBy == plan.supersededBy
    decreases |commands|
  {
    if commands != [] {
      var decided := Decide(plan, commands[0]);
      var next := if decided.Success? then Apply(plan, decided.value) else plan;
      assert commands[0] in commands && forall c :: c in commands[1..] ==> c in commands;
      StatusNeverSupersedes(next, commands[1..]);
    }
  }

  /** A well-formed hash other than `hash`. */
  lemma OtherHash(hash: string) returns (other: string)
    ensures WellFormed(other) && other != hash
  {
    var zeros, ones := seq(64, _ => '0'), seq(64, _ => '1');
    assert zeros[0] != ones[0];
    other := if zeros == hash then ones else zeros;
  }

  /** A stream of one add that is accepted. */
  lemma OneAdd(harp: string, status: PlanStatus, hash: string) returns (events: seq<PlanEvent>)
    requires (status == Draft || status == Active) && WellFormed(hash)
    ensures History(events)
    ensures Replay(events) == NoPlan.(added := true, harpId := harp, title := "t", status := status, contentHash := hash)
  {
    hide WellFormed, Text.Trim;
    Text.TrimTrims("t");
    events := OneMore([], Add(AddPlan(harp, "t", status, "", hash, "")));
  }

  /** A stream one accepted command longer. */
  lemma OneMore(events: seq<PlanEvent>, command: PlanCommand) returns (more: seq<PlanEvent>)
    requires History(events) && Decide(Replay(events), command).Success?
    ensures History(more) && Replay(more) == Apply(Replay(events), Decide(Replay(events), command).value)
  {
    hide Decide, Apply;
    var event := Decide(Replay(events), command).value;
    more := events + [event];
    assert more[..|more| - 1] == events;
    assert Decided(Replay(events), event);
  }

  lemma EmptyHistory()
    ensures History([]) && Replay([]) == NoPlan
  {
  }

  /** Some stream the aggregate wrote accepts `command`. */
  ghost predicate SomeStreamAccepts(command: PlanCommand) {
    exists events :: History(events) && Decide(Replay(events), command).Success?
  }

  /** A stream that accepts a command its own check passes: an add, and what the command takes back. */
  lemma AcceptingStream(command: PlanCommand) returns (events: seq<PlanEvent>)
    requires Check(command).Success? && command != SetStatus(Draft)
    ensures History(events) && Decide(Replay(events), command).Success?
  {
    var hash := OtherHash(if command.Rehash? then command.hash else "");
    hide WellFormed, History, Replay, Text.Trim;
    EmptyHistory();
    match command
    case Add(_) => events := [];
    case SetStatus(to) => events := OneAdd("a", if to == Active then Draft else Active, hash);
    case Govern(_) => events := OneAdd("a", Active, hash);
    case Supersede(other) => events := OneAdd(other + "a", Active, hash);
    case MarkSuperseded(_) => events := OneAdd("a", Active, hash);
    case Rehash(_) => events := OneAdd("a", Active, hash);
    case Ungovern(task) =>
      events := OneAdd("a", Active, hash);
      events := OneMore(events, Govern(task));
    case Unsupersede(other) =>
      events := OneAdd(other + "a", Active, hash);
      events := OneMore(events, Supersede(other));
    case Reinstate =>
      events := OneAdd("a", Active, hash);
      events := OneMore(events, MarkSuperseded("b"));
  }

  /**
   The caller's own check is what a command is refused for on every stream: one it
   fails is refused by all of them, and one it passes is accepted by some stream,
   but for the one move no status may make, back to Draft.
   */
  lemma CheckIsDecideAlone(command: PlanCommand)
    ensures SomeStreamAccepts(command) <==> (Check(command).Success? && command != SetStatus(Draft))
  {
    if Check(command).Success? && command != SetStatus(Draft) {
      var _ := AcceptingStream(command);
    }
    hide History, Replay;
  }
}
