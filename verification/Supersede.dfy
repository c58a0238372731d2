/**
 `plan link/unlink --supersedes`: one supersede is two writes, each on a plan's own
 stream, and a call may stop between them. Over every run of calls that do not
 overlap, stopped or not, with any other command to any plan among them.
 */
module Supersede {
  import opened Wrappers
  import opened Plans
  import opened PlanLists
  import opened Streams
  import Graphs
  import Text

  datatype PlanError =
    | Rejected(rejection: PlanRejection)
    | NoPlanNamed(plan: string)
    | SupersedeCycle(plan: string, target: string)
    | AlreadySuperseded(plan: string, superseder: string)
    | NotItsStream

  /** What a call comes to; `Stopped` after its first write has landed. */
  datatype Answer = Finished | Refused(error: PlanError) | Stopped

  function StateOf(held: Held, plan: string): PlanState {
    if Root(plan) in held then Replay(held[Root(plan)]) else NoPlan
  }

  // ----- one write

  /** One command to one plan's stream: the streams after it, or why it was refused. */
  function Commit(held: Held, plan: string, command: PlanCommand): Result<Held, PlanError> {
    if command.Add? && command.add.harpId != plan then Failure(NotItsStream) else
    var decided := Decide(StateOf(held, plan), command);
    if decided.Failure? then Failure(Rejected(decided.error)) else
    var before := if Root(plan) in held then held[Root(plan)] else [];
    Success(held[Root(plan) := before + [decided.value]])
  }

  /** What was decided is folded into its own plan, and every other is as it was. */
  lemma CommitFolds(held: Held, plan: string, command: PlanCommand)
    requires Commit(held, plan, command).Success?
    ensures StateOf(Commit(held, plan, command).value, plan)
         == Apply(StateOf(held, plan), Decide(StateOf(held, plan), command).value)
    ensures forall other :: other != plan ==>
              StateOf(Commit(held, plan, command).value, other) == StateOf(held, other)
  {
    var before := if Root(plan) in held then held[Root(plan)] else [];
    var longer := before + [Decide(StateOf(held, plan), command).value];
    assert longer[..|longer| - 1] == before;
    assert Replay(before) == StateOf(held, plan);
    hide Decide, Apply;
  }

  /** Every stream stays the aggregate's own. */
  lemma CommitKeepsRooted(held: Held, plan: string, command: PlanCommand)
    requires AllRooted(held) && Commit(held, plan, command).Success?
    ensures AllRooted(Commit(held, plan, command).value)
  {
    var before := if Root(plan) in held then held[Root(plan)] else [];
    var event := Decide(StateOf(held, plan), command).value;
    var longer := before + [event];
    assert longer[..|longer| - 1] == before;
    assert Replay(before) == StateOf(held, plan);
    assert Decided(Replay(before), event);
    if Root(plan) in held {
      assert Rooted(Root(plan), before);
      assert longer[0] == before[0];
    } else {
      assert StateOf(held, plan) == NoPlan && command.Add?;
      assert longer[0] == event == PlanAdded(command.add);
    }
    assert Rooted(Root(plan), longer);
  }

  // ----- calls of two writes

  /** A write to make: the plan whose stream it goes to, and the command. */
  datatype Write = Write(plan: string, command: PlanCommand)

  /** `writes` in order; with `stops`, the process dies once its first has landed. */
  function Writes(held: Held, writes: seq<Write>, stops: bool): (Held, Answer)
    decreases |writes|
  {
    if writes == [] then (held, Finished) else
    var written := Commit(held, writes[0].plan, writes[0].command);
    if written.Failure? then (held, Refused(written.error))
    else if stops then (written.value, Stopped)
    else Writes(written.value, writes[1..], stops)
  }

  /** What a link checks of both streams before it writes: the writes it has to make. */
  ghost function LinkWrites(held: Held, plan: string, target: string): Result<seq<Write>, PlanError> {
    var superseding, superseded := StateOf(held, plan), StateOf(held, target);
    if !superseding.added then Failure(NoPlanNamed(plan))
    else if target == plan then Failure(Rejected(SupersedesItself))
    else if !superseded.added then Failure(NoPlanNamed(target))
    else if Graphs.Reaches(GraphOf(held), target, plan) then Failure(SupersedeCycle(plan, target))
    else
      var linked, mark := target in superseding.supersedes, superseded.supersededBy;
      if linked && mark == plan then Failure(Rejected(AlreadySupersedes(target)))
      else if mark != "" && mark != plan then Failure(AlreadySuperseded(target, mark))
      else Success((if linked then [] else [Write(plan, Supersede(target))])
                 + (if mark == "" then [Write(target, MarkSuperseded(plan))] else []))
  }

  function UnlinkWrites(held: Held, plan: string, target: string): Result<seq<Write>, PlanError> {
    var linked := target in StateOf(held, plan).supersedes;
    var marked := StateOf(held, target).added && StateOf(held, target).supersededBy == plan;
    if !StateOf(held, plan).added then Failure(NoPlanNamed(plan))
    else if !linked && !marked then Failure(Rejected(NotSuperseded(target)))
    else Success((if linked then [Write(plan, Unsupersede(target))] else [])
               + (if marked then [Write(target, Reinstate)] else []))
  }

  /** A call, `stops` when its process dies between its writes; `Send` is any other command. */
  datatype Call =
    | Link(plan: string, target: string, stops: bool)
    | Unlink(plan: string, target: string, stops: bool)
    | Send(plan: string, command: PlanCommand)
  {
    /** The supersede commands are sent by link and unlink alone, and a minted id is never empty. */
    predicate Possible() {
      Send? ==> && !command.Supersede? && !command.Unsupersede? && !command.MarkSuperseded? && !command.Reinstate?
                && plan != ""
    }
  }

  ghost function WritesOf(held: Held, call: Call): Result<seq<Write>, PlanError> {
    match call
    case Link(plan, target, _) => LinkWrites(held, plan, target)
    case Unlink(plan, target, _) => UnlinkWrites(held, plan, target)
    case Send(plan, command) => Success([Write(plan, command)])
  }

  ghost function Called(held: Held, call: Call): (Held, Answer) {
    var writes := WritesOf(held, call);
    if writes.Failure? then (held, Refused(writes.error))
    else Writes(held, writes.value, !call.Send? && call.stops)
  }

  /** A run of calls, none overlapping another. */
  ghost function Run(held: Held, calls: seq<Call>): Held {
    if calls == [] then held else Called(Run(held, calls[..|calls| - 1]), calls[|calls| - 1]).0
  }

  // ----- what every run keeps

  /** Holds of every state a run reaches, however many of its calls stopped half way. */
  ghost predicate Consistent(held: Held) {
    && AllRooted(held)
    && Root("") !in held
    && Marked(held)
    && Graphs.Acyclic(GraphOf(held))
  }

  /** A plan is Superseded exactly while some plan's name marks it. */
  ghost predicate Marked(held: Held) {
    forall plan :: StateOf(held, plan).status == Superseded <==> StateOf(held, plan).supersededBy != ""
  }

  /** Holds besides when no call stopped: a plan is marked by exactly the plan that supersedes it. */
  ghost predicate Paired(held: Held) {
    forall plan, target ::
      target in StateOf(held, plan).supersedes <==> (plan != "" && StateOf(held, target).supersededBy == plan)
  }

  lemma EdgesAreSupersedes(held: Held, a: string, b: string)
    ensures Graphs.Edge(GraphOf(held), a, b) <==> b in StateOf(held, a).supersedes
  {
    assert forall root :: root in held ==> Root(root.harp) == root;
  }

  lemma GraphFollows(held: Held, held': Held)
    requires Graphs.Acyclic(GraphOf(held))
    requires forall plan :: StateOf(held', plan).supersedes <= StateOf(held, plan).supersedes
    ensures Graphs.Acyclic(GraphOf(held'))
  {
    forall a, b | Graphs.Edge(GraphOf(held'), a, b)
      ensures Graphs.Edge(GraphOf(held), a, b)
    {
      EdgesAreSupersedes(held, a, b);
      EdgesAreSupersedes(held', a, b);
    }
    Graphs.SubgraphAcyclic(GraphOf(held), GraphOf(held'));
  }

  lemma WriteKeepsMarked(held: Held, plan: string, command: PlanCommand)
    requires AllRooted(held) && Marked(held) && Commit(held, plan, command).Success?
    requires command.MarkSuperseded? ==> command.superseder != ""
    ensures Marked(Commit(held, plan, command).value)
  {
    hide AllRooted, Replay, StateOf;
    CommitFolds(held, plan, command);
    StateSound(held, plan);
  }

  lemma StateSound(held: Held, plan: string)
    requires AllRooted(held)
    ensures Sound(StateOf(held, plan))
    ensures StateOf(held, plan).added ==> StateOf(held, plan).harpId == plan
    ensures StateOf(held, plan).added <==> Root(plan) in held
  {
    if Root(plan) in held {
      assert Rooted(Root(plan), held[Root(plan)]);
      HistorySound(held[Root(plan)]);
    }
  }

  lemma WriteKeepsAcyclic(held: Held, plan: string, command: PlanCommand)
    requires AllRooted(held) && Graphs.Acyclic(GraphOf(held)) && Commit(held, plan, command).Success?
    requires command.Supersede? ==> !Graphs.Reaches(GraphOf(held), command.plan, plan)
    ensures Graphs.Acyclic(GraphOf(Commit(held, plan, command).value))
  {
    hide AllRooted, Replay, StateOf, Graphs.Acyclic, Graphs.Reaches, GraphOf;
    var held' := Commit(held, plan, command).value;
    CommitFolds(held, plan, command);
    if command.Supersede? {
      var g := GraphOf(held);
      Graphs.AcyclicWithEdge(g, plan, command.plan);
      forall a, b | Graphs.Edge(GraphOf(held'), a, b)
        ensures Graphs.Edge(Graphs.WithEdge(g, plan, command.plan), a, b)
      {
        EdgesAreSupersedes(held, a, b);
        EdgesAreSupersedes(held', a, b);
      }
      Graphs.SubgraphAcyclic(Graphs.WithEdge(g, plan, command.plan), GraphOf(held'));
    } else {
      StateSound(held, plan);
      GraphFollows(held, held');
    }
  }

  /** What a write needs to leave a consistent state consistent. */
  ghost predicate Checked(held: Held, write: Write) {
    && write.plan != ""
    && Commit(held, write.plan, write.command).Success?
    && (write.command.MarkSuperseded? ==> write.command.superseder != "")
    && (write.command.Supersede? ==> !Graphs.Reaches(GraphOf(held), write.command.plan, write.plan))
  }

  /** One checked write leaves a consistent state consistent. */
  lemma WriteKeepsConsistent(held: Held, write: Write)
    requires Consistent(held) && Checked(held, write)
    ensures Consistent(Commit(held, write.plan, write.command).value)
  {
    hide AllRooted, Replay, StateOf, Graphs.Acyclic, Graphs.Reaches, GraphOf, Marked;
    CommitFolds(held, write.plan, write.command);
    CommitKeepsRooted(held, write.plan, write.command);
    WriteKeepsMarked(held, write.plan, write.command);
    WriteKeepsAcyclic(held, write.plan, write.command);
  }

  /** The writes a call plans all land, unless it stops: none is ever refused half way. */
  lemma PlannedWritesLand(held: Held, call: Call)
    requires Consistent(held) && !call.Send? && WritesOf(held, call).Success?
    ensures var writes := WritesOf(held, call).value;
            && 1 <= |writes| <= 2
            && Checked(held, writes[0])
            && (|writes| == 2 ==> Checked(Commit(held, writes[0].plan, writes[0].command).value, writes[1]))
  {
    hide AllRooted, Replay, StateOf, Graphs.Acyclic, Graphs.Reaches, GraphOf;
    var writes := WritesOf(held, call).value;
    StateSound(held, call.plan);
    StateSound(held, call.target);
    CommitFolds(held, writes[0].plan, writes[0].command);
  }

  /** Every write of the sequence that lands was checked. */
  ghost predicate AllChecked(held: Held, writes: seq<Write>)
    decreases |writes|
  {
    writes == [] ||
    (Commit(held, writes[0].plan, writes[0].command).Success? ==>
       Checked(held, writes[0]) && AllChecked(Commit(held, writes[0].plan, writes[0].command).value, writes[1..]))
  }

  lemma {:induction false} WritesKeepConsistent(held: Held, writes: seq<Write>, stops: bool)
    requires Consistent(held) && AllChecked(held, writes)
    ensures Consistent(Writes(held, writes, stops).0)
    decreases |writes|
  {
    hide Consistent, Checked, Commit;
    if writes != [] && Commit(held, writes[0].plan, writes[0].command).Success? {
      WriteKeepsConsistent(held, writes[0]);
      WritesKeepConsistent(Commit(held, writes[0].plan, writes[0].command).value, writes[1..], stops);
    }
  }

  /** Whether it stops or not, a possible call leaves a consistent state consistent. */
  lemma CallKeepsConsistent(held: Held, call: Call)
    requires Consistent(held) && call.Possible()
    ensures Consistent(Called(held, call).0)
  {
    if WritesOf(held, call).Success? {
      var writes := WritesOf(held, call).value;
      hide Consistent, Commit;
      if call.Send? {
        assert AllChecked(held, writes) <==> (Commit(held, call.plan, call.command).Success? ==> Checked(held, writes[0]));
      } else {
        PlannedWritesLand(held, call);
        WritesInFull(held, writes);
      }
      WritesKeepConsistent(held, writes, !call.Send? && call.stops);
    }
  }

  /** Over every run of calls from an empty project, stopped wherever: consistent, so acyclic. */
  lemma {:induction false} EveryRunConsistent(calls: seq<Call>)
    requires forall call :: call in calls ==> call.Possible()
    ensures Consistent(Run(map[], calls))
    ensures Graphs.Acyclic(GraphOf(Run(map[], calls)))
  {
    if calls == [] {
      assert forall a, b :: !Graphs.Edge(GraphOf(map[]), a, b);
    } else {
      EveryRunConsistent(calls[..|calls| - 1]);
      CallKeepsConsistent(Run(map[], calls[..|calls| - 1]), calls[|calls| - 1]);
    }
  }

  /** The one or two writes of a call, run in full and run up to the stop between them. */
  lemma WritesInFull(held: Held, writes: seq<Write>)
    requires Consistent(held) && 1 <= |writes| <= 2 && Checked(held, writes[0])
    requires |writes| == 2 ==> Checked(Commit(held, writes[0].plan, writes[0].command).value, writes[1])
    ensures AllChecked(held, writes)
    ensures var half := Commit(held, writes[0].plan, writes[0].command).value;
            && Writes(held, writes, true) == (half, Stopped)
            && Writes(held, writes, false) == (if |writes| == 1 then half else
                 Commit(half, writes[1].plan, writes[1].command).value, Finished)
  {
    hide Consistent, Commit, Graphs.Reaches, GraphOf;
    var half := Commit(held, writes[0].plan, writes[0].command).value;
    if |writes| == 1 {
      assert writes[1..] == [];
    } else {
      assert writes[1..] == [writes[1]] && writes[1..][1..] == [];
      assert AllChecked(half, [writes[1]]);
      var whole := Commit(half, writes[1].plan, writes[1].command).value;
      assert Writes(whole, [], false) == (whole, Finished);
      assert Writes(half, [writes[1]], false) == (whole, Finished);
    }
  }

  // ----- what an answer means

  /** Each plan once `plan` supersedes `target`, both halves done. */
  function LinkedState(held: Held, plan: string, target: string, other: string): PlanState {
    var state := StateOf(held, other);
    if other == plan then state.(supersedes := state.supersedes + {target})
    else if other == target then state.(status := Superseded, supersededBy := plan)
    else state
  }

  /** Each plan once `plan` no longer supersedes `target`: a mark of another plan's stays. */
  function UnlinkedState(held: Held, plan: string, target: string, other: string): PlanState {
    var state := StateOf(held, other);
    var freed := if other == plan then state.(supersedes := state.supersedes - {target}) else state;
    if other == target && state.supersededBy == plan then freed.(status := Active, supersededBy := "") else freed
  }

  lemma ConsistentParts(held: Held)
    requires Consistent(held)
    ensures AllRooted(held) && Marked(held) && Graphs.Acyclic(GraphOf(held)) && Root("") !in held
  {
  }

  /** The states after the one or two writes of a call: each folded into its own plan. */
  lemma WritesApplied(held: Held, writes: seq<Write>)
    requires Consistent(held) && 1 <= |writes| <= 2 && Checked(held, writes[0])
    requires |writes| == 2 ==> Checked(Commit(held, writes[0].plan, writes[0].command).value, writes[1])
    requires |writes| == 2 ==> writes[0].plan != writes[1].plan
    ensures forall other :: StateOf(Writes(held, writes, false).0, other) == Written(held, writes, other)
  {
    hide AllRooted, Marked, Graphs.Acyclic, Graphs.Reaches, GraphOf, Replay, StateOf, Decide, Apply;
    WritesInFull(held, writes);
    CommitFolds(held, writes[0].plan, writes[0].command);
    WriteKeepsConsistent(held, writes[0]);
    var half := Commit(held, writes[0].plan, writes[0].command).value;
    if |writes| == 2 {
      CommitFolds(half, writes[1].plan, writes[1].command);
    }
  }

  /** A plan after the writes sent to it. */
  ghost function Written(held: Held, writes: seq<Write>, plan: string): PlanState {
    var state := StateOf(held, plan);
    if writes != [] && plan == writes[0].plan && Decide(state, writes[0].command).Success?
    then Apply(state, Decide(state, writes[0].command).value)
    else if |writes| > 1 && plan == writes[1].plan && Decide(state, writes[1].command).Success?
    then Apply(state, Decide(state, writes[1].command).value)
    else state
  }

  /**
   A link that returns Ok leaves the target superseded by the plan and marked by it,
   and nothing else of any plan changed; refused, it wrote nothing.
   */
  lemma LinkMeans(held: Held, plan: string, target: string)
    requires Consistent(held)
    ensures var (held', answer) := Called(held, Link(plan, target, false));
            && (answer == Finished || (answer.Refused? && held' == held))
            && (answer == Finished ==> forall other :: StateOf(held', other) == LinkedState(held, plan, target, other))
  {
    hide Consistent, AllRooted, Replay, StateOf, Graphs.Acyclic, Graphs.Reaches, GraphOf, Sound;
    if LinkWrites(held, plan, target).Success? {
      var writes := LinkWrites(held, plan, target).value;
      ConsistentParts(held);
      PlannedWritesLand(held, Link(plan, target, false));
      WritesInFull(held, writes);
      WritesApplied(held, writes);
    }
  }

  /**
   An unlink that returns Ok leaves neither the link nor the plan's mark, and touches
   no other plan's mark; refused, it wrote nothing.
   */
  lemma UnlinkMeans(held: Held, plan: string, target: string)
    requires Consistent(held)
    ensures var (held', answer) := Called(held, Unlink(plan, target, false));
            && (answer == Finished || (answer.Refused? && held' == held))
            && (answer == Finished ==> forall other :: StateOf(held', other) == UnlinkedState(held, plan, target, other))
  {
    hide Consistent, AllRooted, Replay, StateOf, Graphs.Acyclic, Graphs.Reaches, GraphOf, Sound;
    if UnlinkWrites(held, plan, target).Success? {
      var writes := UnlinkWrites(held, plan, target).value;
      ConsistentParts(held);
      LinksNotItself(held, plan);
      if StateOf(held, target).supersededBy == plan {
        TargetAdded(held, plan, target);
      }
      PlannedWritesLand(held, Unlink(plan, target, false));
      WritesInFull(held, writes);
      WritesApplied(held, writes);
      assert target !in StateOf(held, plan).supersedes ==>
          StateOf(held, plan).supersedes - {target} == StateOf(held, plan).supersedes;
    }
  }

  /** Only a plan that was added is marked, and by a plan with a name. */
  lemma TargetAdded(held: Held, plan: string, target: string)
    requires Consistent(held) && StateOf(held, plan).added && StateOf(held, target).supersededBy == plan
    ensures StateOf(held, target).added && plan != ""
  {
    StateSound(held, plan);
    StateSound(held, target);
  }

  lemma LinksNotItself(held: Held, plan: string)
    requires AllRooted(held)
    ensures plan !in StateOf(held, plan).supersedes
  {
    StateSound(held, plan);
  }

  // ----- finishing what stopped

  /**
   A link stopped between its writes and run again leaves the streams exactly as one
   that never stopped; so does an unlink. The second run is refused only where the
   first had nothing left to write.
   */
  lemma RerunFinishes(held: Held, call: Call)
    requires Consistent(held) && !call.Send? && WritesOf(held, call).Success?
    ensures var whole := Called(held, call.(stops := false)).0;
            var stopped := Called(held, call.(stops := true)).0;
            var (again, answer) := Called(stopped, call.(stops := false));
            && again == whole
            && (answer == Finished <==> |WritesOf(held, call).value| == 2)
  {
    hide Consistent, Commit, LinkWrites, UnlinkWrites, Graphs.Reaches, GraphOf;
    var writes := WritesOf(held, call).value;
    var half := Called(held, call.(stops := true)).0;
    PlannedWritesLand(held, call);
    WritesInFull(held, writes);
    WriteKeepsConsistent(held, writes[0]);
    if call.Link? {
      AfterFirstOfLink(held, call.plan, call.target, half);
    } else {
      AfterFirstOfUnlink(held, call.plan, call.target, half);
    }
    if |writes| == 2 {
      LastWrite(half, writes[1]);
    }
  }

  lemma LastWrite(held: Held, write: Write)
    requires Commit(held, write.plan, write.command).Success?
    ensures Writes(held, [write], false) == (Commit(held, write.plan, write.command).value, Finished)
  {
    var whole := Commit(held, write.plan, write.command).value;
    assert [write][1..] == [];
    assert Writes(whole, [], false) == (whole, Finished);
  }

  /** What a link plans once its first write has landed: its second write, if it had one. */
  lemma AfterFirstOfLink(held: Held, plan: string, target: string, half: Held)
    requires Consistent(held) && LinkWrites(held, plan, target).Success?
    requires var first := LinkWrites(held, plan, target).value[0];
             Commit(held, first.plan, first.command) == Success(half)
    ensures var writes := LinkWrites(held, plan, target).value;
            if |writes| == 2 then LinkWrites(half, plan, target) == Success([writes[1]])
            else LinkWrites(half, plan, target).Failure?
  {
    hide Consistent, AllRooted, Replay, StateOf, Graphs.Acyclic, Graphs.Reaches, GraphOf, Sound;
    var writes := LinkWrites(held, plan, target).value;
    ConsistentParts(held);
    PlannedWritesLand(held, Link(plan, target, false));
    WriteKeepsConsistent(held, writes[0]);
    ConsistentParts(half);
    StateSound(held, plan);
    CommitFolds(held, writes[0].plan, writes[0].command);
    if |writes| == 2 {
      assert [] + [writes[1]] == [writes[1]];
      EdgesAreSupersedes(half, plan, target);
      NoWayBack(GraphOf(half), plan, target);
    }
  }

  /** What an unlink plans once its first write has landed: its second write, if it had one. */
  lemma AfterFirstOfUnlink(held: Held, plan: string, target: string, half: Held)
    requires Consistent(held) && UnlinkWrites(held, plan, target).Success?
    requires var first := UnlinkWrites(held, plan, target).value[0];
             Commit(held, first.plan, first.command) == Success(half)
    ensures var writes := UnlinkWrites(held, plan, target).value;
            if |writes| == 2 then UnlinkWrites(half, plan, target) == Success([writes[1]])
            else UnlinkWrites(half, plan, target).Failure?
  {
    hide Consistent, AllRooted, Replay, StateOf, Graphs.Acyclic, Graphs.Reaches, GraphOf, Sound;
    var writes := UnlinkWrites(held, plan, target).value;
    ConsistentParts(held);
    LinksNotItself(held, plan);
    if StateOf(held, target).supersededBy == plan {
      TargetAdded(held, plan, target);
    }
    CommitFolds(held, writes[0].plan, writes[0].command);
    if |writes| == 2 {
      assert [] + [writes[1]] == [writes[1]];
    }
  }

  lemma NoWayBack(g: Graphs.Graph, a: string, b: string)
    requires Graphs.Acyclic(g) && Graphs.Edge(g, a, b)
    ensures !Graphs.Reaches(g, b, a)
  {
  }

  /** A call that does not stop returns Ok exactly when its checks pass. */
  lemma FinishesWhenPlanned(held: Held, call: Call)
    requires Consistent(held) && !call.Send? && !call.stops
    ensures Called(held, call).1 == Finished <==> WritesOf(held, call).Success?
  {
    hide Consistent, Commit, LinkWrites, UnlinkWrites;
    if WritesOf(held, call).Success? {
      PlannedWritesLand(held, call);
      WritesInFull(held, WritesOf(held, call).value);
    }
  }

  /**
   From every state a run reaches, stopped calls and all: a link half done either way
   round is settled by an unlink, and one whose mark is missing by a link too.
   */
  lemma HalfDoneSettles(held: Held, plan: string, target: string)
    requires Consistent(held) && StateOf(held, plan).added
    ensures Called(held, Unlink(plan, target, false)).1 == Finished <==>
              (target in StateOf(held, plan).supersedes || StateOf(held, target).supersededBy == plan)
    ensures target in StateOf(held, plan).supersedes && StateOf(held, target).added &&
              StateOf(held, target).supersededBy == "" ==>
                Called(held, Link(plan, target, false)).1 == Finished
  {
    hide AllRooted, Replay, StateOf, Graphs.Acyclic, Graphs.Reaches, GraphOf, Called;
    FinishesWhenPlanned(held, Unlink(plan, target, false));
    FinishesWhenPlanned(held, Link(plan, target, false));
    StateSound(held, plan);
    if StateOf(held, target).supersededBy == plan {
      TargetAdded(held, plan, target);
    }
    if target in StateOf(held, plan).supersedes {
      EdgesAreSupersedes(held, plan, target);
      NoWayBack(GraphOf(held), plan, target);
    }
  }

  // ----- what is refused

  /** The link and the mark are both there already: a whole link would change no plan. */
  ghost predicate LinkChangesNothing(held: Held, plan: string, target: string) {
    forall other :: LinkedState(held, plan, target, other) == StateOf(held, other)
  }

  /**
   A link is refused for the first of these, and for nothing else: its plan was not added,
   it is its own target, the target was not added, the edge would close a cycle, another
   plan supersedes the target, or nothing would change.
   */
  lemma LinkAnswers(held: Held, plan: string, target: string)
    requires Consistent(held)
    ensures Called(held, Link(plan, target, false)).1 ==
            if !StateOf(held, plan).added then Refused(NoPlanNamed(plan))
            else if target == plan then Refused(Rejected(SupersedesItself))
            else if !StateOf(held, target).added then Refused(NoPlanNamed(target))
            else if !Graphs.Acyclic(Graphs.WithEdge(GraphOf(held), plan, target)) then
              Refused(SupersedeCycle(plan, target))
            else if StateOf(held, target).supersededBy !in {"", plan} then
              Refused(AlreadySuperseded(target, StateOf(held, target).supersededBy))
            else if LinkChangesNothing(held, plan, target) then Refused(Rejected(AlreadySupersedes(target)))
            else Finished
  {
    hide Called, StateOf, Graphs.Acyclic, Graphs.Reaches, Graphs.WithEdge, GraphOf, Consistent, LinkChangesNothing;
    ConsistentParts(held);
    FinishesWhenPlanned(held, Link(plan, target, false));
    Graphs.AcyclicWithEdge(GraphOf(held), plan, target);
    if StateOf(held, plan).added {
      AddedNamed(held, plan);
      if target != plan && StateOf(held, target).supersededBy in {"", plan} {
        LinkLeftToDo(held, plan, target);
      }
    }
    RefusedAsChecked(held, plan, target);
  }

  lemma LinkLeftToDo(held: Held, plan: string, target: string)
    requires Marked(held) && plan != "" && plan != target && StateOf(held, target).supersededBy in {"", plan}
    ensures LinkChangesNothing(held, plan, target) <==>
              target in StateOf(held, plan).supersedes && StateOf(held, target).supersededBy == plan
  {
    hide StateOf;
    var linked := LinkedState(held, plan, target, plan);
    if LinkChangesNothing(held, plan, target) {
      assert linked == StateOf(held, plan) && target in linked.supersedes;
      assert LinkedState(held, plan, target, target) == StateOf(held, target);
    } else if target in StateOf(held, plan).supersedes {
      assert StateOf(held, plan).supersedes + {target} == StateOf(held, plan).supersedes;
    }
  }

  lemma RefusedAsChecked(held: Held, plan: string, target: string)
    ensures LinkWrites(held, plan, target).Failure? ==>
              Called(held, Link(plan, target, false)) == (held, Refused(LinkWrites(held, plan, target).error))
  {
    hide LinkWrites;
  }

  /** So a link of two plans is accepted exactly where it closes no cycle, takes no mark, and changes something. */
  lemma LinkAccepted(held: Held, plan: string, target: string)
    requires Consistent(held)
    ensures Called(held, Link(plan, target, false)).1 == Finished <==>
              && StateOf(held, plan).added && StateOf(held, target).added
              && Graphs.Acyclic(Graphs.WithEdge(GraphOf(held), plan, target))
              && StateOf(held, target).supersededBy in {"", plan}
              && !LinkChangesNothing(held, plan, target)
  {
    hide Called, StateOf, Graphs.Acyclic, Graphs.Reaches, GraphOf, Consistent, LinkChangesNothing;
    LinkAnswers(held, plan, target);
    ConsistentParts(held);
    if plan == target {
      Graphs.AcyclicWithEdge(GraphOf(held), plan, target);
      Graphs.ReachesSelf(GraphOf(held), plan);
    }
  }

  /** An unlink is refused for a plan that was not added, or where neither the link nor the plan's mark is there. */
  lemma UnlinkAnswers(held: Held, plan: string, target: string)
    requires Consistent(held)
    ensures Called(held, Unlink(plan, target, false)).1 ==
            if !StateOf(held, plan).added then Refused(NoPlanNamed(plan))
            else if target !in StateOf(held, plan).supersedes && StateOf(held, target).supersededBy != plan then
              Refused(Rejected(NotSuperseded(target)))
            else Finished
  {
    hide Consistent, StateOf, Writes;
    if StateOf(held, plan).added {
      HalfDoneSettles(held, plan, target);
      if StateOf(held, target).supersededBy == plan {
        TargetAdded(held, plan, target);
      }
    }
  }

  // ----- runs in which nothing stops

  lemma LinkedPaired(held: Held, held': Held, plan: string, target: string)
    requires Paired(held) && plan != "" && plan != target
    requires StateOf(held, target).supersededBy == "" || StateOf(held, target).supersededBy == plan
    requires forall other :: StateOf(held', other) == LinkedState(held, plan, target, other)
    ensures Paired(held')
  {
    hide Replay, StateOf;
  }

  lemma LinkKeepsPaired(held: Held, plan: string, target: string)
    requires Consistent(held) && Paired(held)
    ensures Paired(Called(held, Link(plan, target, false)).0)
  {
    hide Consistent, AllRooted, Replay, StateOf, Graphs.Acyclic, Graphs.Reaches, GraphOf, Called, Paired;
    LinkMeans(held, plan, target);
    FinishesWhenPlanned(held, Link(plan, target, false));
    if LinkWrites(held, plan, target).Success? {
      ConsistentParts(held);
      StateSound(held, plan);
      AddedNamed(held, plan);
      LinkedPaired(held, Called(held, Link(plan, target, false)).0, plan, target);
    }
  }

  lemma AddedNamed(held: Held, plan: string)
    requires Consistent(held) && StateOf(held, plan).added
    ensures plan != ""
  {
  }

  lemma UnlinkedPaired(held: Held, held': Held, plan: string, target: string)
    requires Paired(held) && plan != ""
    requires forall other :: StateOf(held', other) == UnlinkedState(held, plan, target, other)
    ensures Paired(held')
  {
    hide Replay, StateOf;
  }

  lemma UnlinkKeepsPaired(held: Held, plan: string, target: string)
    requires Consistent(held) && Paired(held)
    ensures Paired(Called(held, Unlink(plan, target, false)).0)
  {
    hide Consistent, AllRooted, Replay, StateOf, Graphs.Acyclic, Graphs.Reaches, GraphOf, Called, Paired;
    UnlinkMeans(held, plan, target);
    FinishesWhenPlanned(held, Unlink(plan, target, false));
    if UnlinkWrites(held, plan, target).Success? {
      AddedNamed(held, plan);
      UnlinkedPaired(held, Called(held, Unlink(plan, target, false)).0, plan, target);
    }
  }

  /** A command of no supersession leaves every plan's links and mark. */
  lemma SendLeavesLinks(held: Held, plan: string, command: PlanCommand, other: string)
    requires AllRooted(held) && Send(plan, command).Possible() && Commit(held, plan, command).Success?
    ensures var held' := Commit(held, plan, command).value;
            && StateOf(held', other).supersedes == StateOf(held, other).supersedes
            && StateOf(held', other).supersededBy == StateOf(held, other).supersededBy
  {
    hide StateOf, AllRooted;
    CommitFolds(held, plan, command);
    StateSound(held, plan);
    CommitDecided(held, plan, command);
    if other == plan {
      DecidedLeavesLinks(StateOf(held, plan), command);
    }
  }

  lemma CommitDecided(held: Held, plan: string, command: PlanCommand)
    requires Commit(held, plan, command).Success?
    ensures Decide(StateOf(held, plan), command).Success?
  {
    hide StateOf, Decide;
  }

  lemma DecidedLeavesLinks(plan: PlanState, command: PlanCommand)
    requires Sound(plan) && Decide(plan, command).Success?
    requires !command.Supersede? && !command.Unsupersede? && !command.MarkSuperseded? && !command.Reinstate?
    ensures var after := Apply(plan, Decide(plan, command).value);
            after.supersedes == plan.supersedes && after.supersededBy == plan.supersededBy
  {
    hide Text.Sorted, Text.Trimmed, Text.Trim;
  }

  lemma AlikePaired(held: Held, held': Held)
    requires Paired(held)
    requires forall other :: StateOf(held', other).supersedes == StateOf(held, other).supersedes
                             && StateOf(held', other).supersededBy == StateOf(held, other).supersededBy
    ensures Paired(held')
  {
    hide StateOf;
  }

  lemma SendKeepsPaired(held: Held, plan: string, command: PlanCommand)
    requires Consistent(held) && Paired(held) && Send(plan, command).Possible()
    ensures Paired(Called(held, Send(plan, command)).0)
  {
    hide Consistent, AllRooted, StateOf, Paired, Commit, Writes;
    FinishesOrNot(held, plan, command);
    if Commit(held, plan, command).Success? {
      var held' := Commit(held, plan, command).value;
      ConsistentParts(held);
      forall other
        ensures StateOf(held', other).supersedes == StateOf(held, other).supersedes
                && StateOf(held', other).supersededBy == StateOf(held, other).supersededBy
      {
        SendLeavesLinks(held, plan, command, other);
      }
      AlikePaired(held, held');
    }
  }

  lemma FinishesOrNot(held: Held, plan: string, command: PlanCommand)
    ensures var committed := Commit(held, plan, command);
            Called(held, Send(plan, command)).0 == if committed.Success? then committed.value else held
  {
    hide Commit;
    if Commit(held, plan, command).Success? {
      LastWrite(held, Write(plan, command));
    }
  }

  /** A call that does not stop keeps links and marks paired. */
  lemma CallKeepsPaired(held: Held, call: Call)
    requires Consistent(held) && Paired(held) && call.Possible()
    requires call.Send? || !call.stops
    ensures Paired(Called(held, call).0)
  {
    hide *;
    match call {
      case Link(plan, target, _) => LinkKeepsPaired(held, plan, target);
      case Unlink(plan, target, _) => UnlinkKeepsPaired(held, plan, target);
      case Send(plan, command) => SendKeepsPaired(held, plan, command);
    }
  }

  /** Over every run in which no call stops: a plan is marked by exactly the plan that supersedes it. */
  lemma {:induction false} UnstoppedRunPaired(calls: seq<Call>)
    requires forall call :: call in calls ==> call.Possible() && (call.Send? || !call.stops)
    ensures Paired(Run(map[], calls))
  {
    if calls != [] {
      var before := calls[..|calls| - 1];
      EveryRunConsistent(before);
      UnstoppedRunPaired(before);
      CallKeepsPaired(Run(map[], before), calls[|calls| - 1]);
    }
  }

  // ----- the calls as they are made

  /** What the caught-up list says of a plan is what its stream folds to. */
  lemma ListSays(list: PlanList, held: Held, plan: string)
    requires list.Shows(held) && AllRooted(held)
    ensures plan in list.rows <==> StateOf(held, plan).added
    ensures plan in list.rows ==>
              && list.rows[plan].supersededBy == StateOf(held, plan).supersededBy
              && (forall other :: other in list.rows[plan].supersedes <==> other in StateOf(held, plan).supersedes)
  {
    StateSound(held, plan);
    ListAnswersReplay(list, held);
    if plan in list.rows {
      var links := StateOf(held, plan).supersedes;
      assert forall other :: other in Text.InOrder(links) <==> other in Text.Elements(Text.InOrder(links));
    }
  }

  /** The project's plan streams, and the link and unlink that write them. */
  class Changing {
    var streams: Held

    /** One command, sent to one plan's stream. */
    method Record(plan: string, command: PlanCommand) returns (error: Option<PlanError>)
      modifies this
      ensures Commit(old(streams), plan, command).Success? ==>
                error == None && streams == Commit(old(streams), plan, command).value
      ensures Commit(old(streams), plan, command).Failure? ==>
                error == Some(Commit(old(streams), plan, command).error) && streams == old(streams)
    {
      if command.Add? && command.add.harpId != plan {
        return Some(NotItsStream);
      }
      var decided := Decide(StateOf(streams, plan), command);
      if decided.Failure? {
        return Some(Rejected(decided.error));
      }
      streams := streams[Root(plan) := (if Root(plan) in streams then streams[Root(plan)] else []) + [decided.value]];
      return None;
    }

    /** The link's checks of both streams, then its writes, in order. */
    method Link(plan: string, target: string, stops: bool, list: PlanList) returns (answer: Answer)
      requires list.Shows(streams) && AllRooted(streams)
      modifies this
      ensures (streams, answer) == Called(old(streams), Call.Link(plan, target, stops))
    {
      hide AllRooted, Replay, StateOf, Graphs.Reaches, GraphOf, Commit;
      ghost var held := streams;
      ListSays(list, held, plan);
      ListSays(list, held, target);
      ListAnswersReplay(list, held);
      if plan !in list.rows {
        return Refused(NoPlanNamed(plan));
      }
      if target == plan {
        return Refused(Rejected(SupersedesItself));
      }
      if target !in list.rows {
        return Refused(NoPlanNamed(target));
      }
      var reaches := list.SupersedesReaches(target, plan);
      if reaches {
        return Refused(SupersedeCycle(plan, target));
      }
      var linked, mark := target in list.rows[plan].supersedes, list.rows[target].supersededBy;
      if linked && mark == plan {
        return Refused(Rejected(AlreadySupersedes(target)));
      }
      if mark != "" && mark != plan {
        return Refused(AlreadySuperseded(target, mark));
      }
      answer := Both(if linked then None else Some(Write(plan, Supersede(target))),
                     if mark == "" then Some(Write(target, MarkSuperseded(plan))) else None, stops);
    }

    method Unlink(plan: string, target: string, stops: bool) returns (answer: Answer)
      modifies this
      ensures (streams, answer) == Called(old(streams), Call.Unlink(plan, target, stops))
    {
      hide Replay, StateOf, Commit;
      if !StateOf(streams, plan).added {
        return Refused(NoPlanNamed(plan));
      }
      var linked := target in StateOf(streams, plan).supersedes;
      var marked := StateOf(streams, target).added && StateOf(streams, target).supersededBy == plan;
      if !linked && !marked {
        return Refused(Rejected(NotSuperseded(target)));
      }
      answer := Both(if linked then Some(Write(plan, Unsupersede(target))) else None,
                     if marked then Some(Write(target, Reinstate)) else None, stops);
    }

    /** A call's writes that are wanted, in order; a stop once the first has landed. */
    method Both(first: Option<Write>, second: Option<Write>, stops: bool) returns (answer: Answer)
      modifies this
      ensures (streams, answer) == Writes(old(streams), Wanted(first) + Wanted(second), stops)
    {
      hide Commit;
      ghost var rest := Wanted(second);
      assert first.Some? ==> (Wanted(first) + rest)[1..] == rest;
      assert first.None? ==> Wanted(first) + rest == rest;
      assert second.Some? ==> rest[1..] == [];
      if first.Some? {
        var error := Record(first.value.plan, first.value.command);
        if error.Some? {
          return Refused(error.value);
        }
        if stops {
          return Stopped;
        }
      }
      assert Writes(old(streams), Wanted(first) + rest, stops) == Writes(streams, rest, stops);
      if second.Some? {
        var error := Record(second.value.plan, second.value.command);
        if error.Some? {
          return Refused(error.value);
        }
        if stops {
          return Stopped;
        }
      }
      assert Writes(streams, [], stops) == (streams, Finished);
      return Finished;
    }
  }

  function Wanted(write: Option<Write>): seq<Write> {
    if write.Some? then [write.value] else []
  }
}
