/**
 Linking and unlinking while others send commands: before a call's first write, and
 between its writes, any number of other commands to any plans.
 */
module Turns {
  import opened Wrappers
  import opened Plans
  import opened PlanLists
  import opened Streams
  import opened Supersede
  import Graphs

  /**
   A call and other commands to any plans while it is made: `ahead` after its checks and
   before its first write, `between` its writes; or such a command by itself.
   */
  datatype Turn = Turn(call: Call, ahead: seq<Call>, between: seq<Call>)
  {
    predicate Possible() {
      && call.Possible() && (call.Send? ==> ahead == between == [])
      && Sends(ahead) && Sends(between)
    }
  }

  predicate Sends(calls: seq<Call>) {
    forall i :: 0 <= i < |calls| ==> calls[i].Send? && calls[i].Possible()
  }

  ghost function Taken(held: Held, turn: Turn): (Held, Answer) {
    if turn.call.Send? then Called(held, turn.call) else
    var writes := WritesOf(held, turn.call);
    var ready := Run(held, turn.ahead);
    if writes.Failure? then (ready, Refused(writes.error)) else
    if writes.value == [] then (ready, Finished) else
    var first := Commit(ready, writes.value[0].plan, writes.value[0].command);
    if first.Failure? then (ready, Refused(first.error)) else
    var half := Run(first.value, turn.between);
    if turn.call.stops then (half, Stopped) else
    if |writes.value| == 1 then (half, Finished) else
    var second := Commit(half, writes.value[1].plan, writes.value[1].command);
    if second.Failure? then (half, Refused(second.error)) else (second.value, Finished)
  }

  ghost function TurnsRun(held: Held, turns: seq<Turn>): Held {
    if turns == [] then held else Taken(TurnsRun(held, turns[..|turns| - 1]), turns[|turns| - 1]).0
  }

  /** The links and the mark of each plan are the same, and no plan is missing. */
  ghost predicate Alike(held: Held, held': Held) {
    forall plan :: AlikeAt(held, held', plan)
  }

  predicate AlikeAt(held: Held, held': Held, plan: string) {
    var state, state' := StateOf(held, plan), StateOf(held', plan);
    && state'.supersedes == state.supersedes && state'.supersededBy == state.supersededBy
    && (state.added ==> state'.added)
  }

  lemma AlikeOnward(held: Held, held': Held, held'': Held)
    requires Alike(held, held') && Alike(held', held'')
    ensures Alike(held, held'')
  {
    hide AlikeAt;
    forall plan ensures AlikeAt(held, held'', plan) {
      assert AlikeAt(held, held', plan) && AlikeAt(held', held'', plan);
      AlikeOnwardAt(held, held', held'', plan);
    }
  }

  lemma AlikeOnwardAt(held: Held, held': Held, held'': Held, plan: string)
    requires AlikeAt(held, held', plan) && AlikeAt(held', held'', plan)
    ensures AlikeAt(held, held'', plan)
  {
    hide StateOf;
  }

  lemma AlikeLinks(held: Held, held': Held)
    requires Alike(held, held')
    ensures forall plan :: StateOf(held', plan).supersedes == StateOf(held, plan).supersedes
    ensures forall plan :: StateOf(held', plan).supersededBy == StateOf(held, plan).supersededBy
  {
    forall plan
      ensures StateOf(held', plan).supersedes == StateOf(held, plan).supersedes
              && StateOf(held', plan).supersededBy == StateOf(held, plan).supersededBy
    {
      assert AlikeAt(held, held', plan);
    }
  }

  lemma AlikeConsistent(held: Held, held': Held)
    requires Consistent(held) && Alike(held, held')
    requires AllRooted(held') && Marked(held') && Root("") !in held'
    ensures Consistent(held')
  {
    hide AllRooted, Marked, StateOf, Graphs.Acyclic, GraphOf, Alike;
    AlikeLinks(held, held');
    GraphFollows(held, held');
  }

  lemma SendAlike(held: Held, call: Call)
    requires Consistent(held) && call.Send? && call.Possible()
    ensures Alike(held, Called(held, call).0)
  {
    hide Consistent, AllRooted, StateOf, Commit, Called;
    ConsistentParts(held);
    FinishesOrNot(held, call.plan, call.command);
    if Commit(held, call.plan, call.command).Success? {
      forall other ensures AlikeAt(held, Called(held, call).0, other) {
        SendLeavesLinks(held, call.plan, call.command, other);
        CommitKeepsAdded(held, call.plan, call.command, other);
      }
    }
  }

  lemma CommitKeepsAdded(held: Held, plan: string, command: PlanCommand, other: string)
    requires AllRooted(held) && Commit(held, plan, command).Success?
    ensures StateOf(held, other).added ==> StateOf(Commit(held, plan, command).value, other).added
  {
    hide AllRooted, StateOf;
    CommitFolds(held, plan, command);
    CommitKeepsRooted(held, plan, command);
    StateSound(held, other);
    StateSound(Commit(held, plan, command).value, other);
  }

  lemma {:induction false} SendsAlike(held: Held, sends: seq<Call>)
    requires Consistent(held) && Sends(sends)
    ensures Consistent(Run(held, sends)) && Alike(held, Run(held, sends))
  {
    if sends != [] {
      hide Consistent, Called, Alike;
      var last := |sends| - 1;
      var before := Run(held, sends[..last]);
      SendsAlike(held, sends[..last]);
      CallKeepsConsistent(before, sends[last]);
      SendAlike(before, sends[last]);
      AlikeOnward(held, before, Run(held, sends));
    }
  }

  /** A planned write lands where others' commands came first, and leaves the plans alike. */
  lemma WriteAlike(held: Held, held': Held, write: Write)
    requires Consistent(held) && Consistent(held') && Alike(held, held') && Checked(held, write)
    requires !Send(write.plan, write.command).Possible()
    ensures Commit(held', write.plan, write.command).Success?
    ensures var (after, after') := (Commit(held, write.plan, write.command).value,
                                    Commit(held', write.plan, write.command).value);
            Consistent(after') && Alike(after, after')
  {
    hide AllRooted, Marked, Replay, StateOf, Graphs.Acyclic, Graphs.Reaches, GraphOf;
    StateSound(held, write.plan);
    StateSound(held', write.plan);
    MarkedAt(held, write.plan);
    MarkedAt(held', write.plan);
    assert AlikeAt(held, held', write.plan);
    CommitFolds(held, write.plan, write.command);
    CommitFolds(held', write.plan, write.command);
    CommitKeepsRooted(held', write.plan, write.command);
    WriteKeepsConsistent(held, write);
    WriteKeepsMarked(held', write.plan, write.command);
    var after, after' := Commit(held, write.plan, write.command).value, Commit(held', write.plan, write.command).value;
    forall other ensures AlikeAt(after, after', other) {
      assert AlikeAt(held, held', other);
    }
    AlikeConsistent(after, after');
  }

  lemma MarkedAt(held: Held, plan: string)
    requires Marked(held)
    ensures StateOf(held, plan).status == Superseded <==> StateOf(held, plan).supersededBy != ""
  {
  }

  lemma PlannedSupersede(held: Held, call: Call, write: Write)
    requires !call.Send? && WritesOf(held, call).Success? && write in WritesOf(held, call).value
    ensures !Send(write.plan, write.command).Possible()
  {
    hide StateOf, Graphs.Reaches, GraphOf;
  }

  /**
   Whatever other commands come between a call's checks and its writes, it answers as it
   would have alone, and leaves every plan's links and mark as it would have.
   */
  lemma TurnMeans(held: Held, turn: Turn)
    requires Consistent(held) && turn.Possible()
    ensures var (after, answer) := Taken(held, turn);
            && Consistent(after) && answer == Called(held, turn.call).1
            && Alike(Called(held, turn.call).0, after)
  {
    var call := turn.call;
    hide Consistent, Commit, WritesOf, Alike, Checked;
    CallKeepsConsistent(held, call);
    if call.Send? {
      AlikeItself(Called(held, call).0);
    } else {
      SendsAlike(held, turn.ahead);
      if WritesOf(held, call).Success? {
        TurnWrites(held, turn);
      }
    }
  }

  lemma AlikeItself(held: Held)
    ensures Alike(held, held)
  {
    hide StateOf;
  }

  lemma TurnWrites(held: Held, turn: Turn)
    requires Consistent(held) && turn.Possible() && !turn.call.Send? && WritesOf(held, turn.call).Success?
    ensures var (after, answer) := Taken(held, turn);
            && Consistent(after) && answer == Called(held, turn.call).1
            && Alike(Called(held, turn.call).0, after)
  {
    hide Consistent, Commit, WritesOf, Alike, Checked, Run;
    var writes := WritesOf(held, turn.call).value;
    var ready := Run(held, turn.ahead);
    PlannedWritesLand(held, turn.call);
    WritesInFull(held, writes);
    PlannedSupersede(held, turn.call, writes[0]);
    SendsAlike(held, turn.ahead);
    WriteAlike(held, ready, writes[0]);
    var alone := Commit(held, writes[0].plan, writes[0].command).value;
    var first := Commit(ready, writes[0].plan, writes[0].command).value;
    SendsAlike(first, turn.between);
    var half := Run(first, turn.between);
    AlikeOnward(alone, first, half);
    if |writes| == 2 {
      PlannedSupersede(held, turn.call, writes[1]);
      WriteKeepsConsistent(held, writes[0]);
      WriteAlike(alone, half, writes[1]);
    }
  }

  /** Over every run of calls with other commands between their steps, stopped wherever: consistent. */
  lemma {:induction false} EveryTurnConsistent(turns: seq<Turn>)
    requires forall i :: 0 <= i < |turns| ==> turns[i].Possible()
    ensures Consistent(TurnsRun(map[], turns))
    ensures Graphs.Acyclic(GraphOf(TurnsRun(map[], turns)))
  {
    if turns == [] {
      EveryRunConsistent([]);
    } else {
      hide Taken;
      EveryTurnConsistent(turns[..|turns| - 1]);
      TurnMeans(TurnsRun(map[], turns[..|turns| - 1]), turns[|turns| - 1]);
    }
  }

  /** And where no call stops, links and marks are each other's inverse over every such run. */
  lemma {:induction false} UnstoppedTurnsPaired(turns: seq<Turn>)
    requires forall i :: 0 <= i < |turns| ==>
               turns[i].Possible() && (turns[i].call.Send? || !turns[i].call.stops)
    ensures Paired(TurnsRun(map[], turns))
  {
    if turns != [] {
      hide Taken, Called, Paired, Consistent, StateOf, Alike;
      var turn := turns[|turns| - 1];
      var before := TurnsRun(map[], turns[..|turns| - 1]);
      EveryTurnConsistent(turns[..|turns| - 1]);
      UnstoppedTurnsPaired(turns[..|turns| - 1]);
      CallKeepsPaired(before, turn.call);
      TurnMeans(before, turn);
      AlikeLinks(Called(before, turn.call).0, TurnsRun(map[], turns));
      AlikePaired(Called(before, turn.call).0, TurnsRun(map[], turns));
    } else {
      UnstoppedRunPaired([]);
    }
  }
}
