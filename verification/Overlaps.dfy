/**
 Why links must not overlap: two of the same plans, opposite ways, each checked before
 the other writes.
 */
module Overlaps {
  import opened Wrappers
  import opened Plans
  import opened PlanLists
  import opened Streams
  import opened Supersede
  import Graphs
  import Text

  /**
   Two links of the same two plans, opposite ways, each checked before the other's
   writes: both pass, both land whole, and the graph holds a cycle.
   */
  lemma OverlappingLinksCloseACycle(held: Held, a: string, b: string)
    requires Consistent(held) && a != b
    requires LinkWrites(held, a, b).Success? && LinkWrites(held, b, a).Success?
    requires StateOf(held, a).supersededBy == "" && StateOf(held, b).supersededBy == ""
    ensures var (one, answer) := Writes(held, LinkWrites(held, a, b).value, false);
            var (two, other) := Writes(one, LinkWrites(held, b, a).value, false);
            answer == other == Finished && !Graphs.Acyclic(GraphOf(two))
  {
    hide Consistent, AllRooted, Replay, StateOf, Graphs.Acyclic, Graphs.Reaches, GraphOf;
    UnreachedUnlinked(held, b, a);
    LinkMeans(held, a, b);
    FinishesWhenPlanned(held, Link(a, b, false));
    CallKeepsConsistent(held, Link(a, b, false));
    var one := Writes(held, LinkWrites(held, a, b).value, false).0;
    BothLand(held, one, a, b);
  }

  lemma UnreachedUnlinked(held: Held, a: string, b: string)
    requires !Graphs.Reaches(GraphOf(held), a, b)
    ensures b !in StateOf(held, a).supersedes
  {
    EdgesAreSupersedes(held, a, b);
    if b in StateOf(held, a).supersedes {
      Graphs.EdgeReaches(GraphOf(held), a, b);
    }
  }

  /** The second link's writes, made where the first's have landed since its check. */
  lemma BothLand(held: Held, one: Held, a: string, b: string)
    requires Consistent(held) && Consistent(one) && a != b
    requires StateOf(held, a).added && StateOf(held, b).added && a !in StateOf(held, b).supersedes
    requires StateOf(held, a).supersededBy == ""
    requires forall other :: StateOf(one, other) == LinkedState(held, a, b, other)
    ensures var (two, answer) := Writes(one, [Write(b, Supersede(a)), Write(a, MarkSuperseded(b))], false);
            answer == Finished && !Graphs.Acyclic(GraphOf(two))
  {
    hide AllRooted, Replay, StateOf, Graphs.Acyclic, Graphs.Reaches, GraphOf;
    StateSound(one, b);
    CommitFolds(one, b, Supersede(a));
    CommitKeepsRooted(one, b, Supersede(a));
    var half := Commit(one, b, Supersede(a)).value;
    CommitFolds(half, a, MarkSuperseded(b));
    LastWrite(half, Write(a, MarkSuperseded(b)));
    var two := Commit(half, a, MarkSuperseded(b)).value;
    EdgesAreSupersedes(two, a, b);
    EdgesAreSupersedes(two, b, a);
    TwoCycle(GraphOf(two), a, b);
    assert [Write(b, Supersede(a)), Write(a, MarkSuperseded(b))][1..] == [Write(a, MarkSuperseded(b))];
  }

  lemma TwoCycle(g: Graphs.Graph, a: string, b: string)
    requires Graphs.Edge(g, a, b) && Graphs.Edge(g, b, a)
    ensures !Graphs.Acyclic(g)
  {
    Graphs.EdgeReaches(g, b, a);
  }

  /** A call adding a plan that nothing supersedes. */
  function Adding(harp: string, hash: string): Call {
    Send(harp, Add(AddPlan(harp, "t", Active, "", hash, "")))
  }

  function TwoPlans(hash: string): seq<Call> {
    [Adding("a", hash), Adding("b", hash)]
  }

  /** Links either way, both checked before either writes, would both land and close a cycle. */
  ghost predicate LinksCross(held: Held, a: string, b: string) {
    var link, back := LinkWrites(held, a, b), LinkWrites(held, b, a);
    && link.Success? && back.Success?
    && !Graphs.Acyclic(GraphOf(Writes(Writes(held, link.value, false).0, back.value, false).0))
  }

  /** Two plans just added are enough. */
  lemma TwoPlansCloseACycle(hash: string)
    requires WellFormed(hash)
    ensures LinksCross(Run(map[], TwoPlans(hash)), "a", "b")
  {
    hide Called, Consistent, StateOf, Graphs.Acyclic, Graphs.Reaches, GraphOf;
    EveryRunConsistent([]);
    EveryRunConsistent(TwoPlans(hash)[..1]);
    EveryRunConsistent(TwoPlans(hash));
    assert TwoPlans(hash)[..1] == [TwoPlans(hash)[0]] && TwoPlans(hash)[..1][..0] == [];
    NothingHeld("a");
    NothingHeld("b");
    AddLands(map[], "a", hash);
    AddLands(Run(map[], TwoPlans(hash)[..1]), "b", hash);
    var held := Run(map[], TwoPlans(hash));
    Unlinked(held, "a", "b");
    Unlinked(held, "b", "a");
    OverlappingLinksCloseACycle(held, "a", "b");
  }

  lemma NothingHeld(plan: string)
    ensures StateOf(map[], plan) == NoPlan
  {
  }

  lemma AddLands(held: Held, harp: string, hash: string)
    requires Consistent(held) && StateOf(held, harp) == NoPlan && WellFormed(hash)
    ensures var after := Called(held, Adding(harp, hash)).0;
            && StateOf(after, harp) == NoPlan.(added := true, harpId := harp, title := "t", status := Active,
                                               contentHash := hash)
            && forall other :: other != harp ==> StateOf(after, other) == StateOf(held, other)
  {
    hide AllRooted, StateOf, WellFormed, Text.Trim;
    ConsistentParts(held);
    Text.TrimTrims("t");
    FinishesOrNot(held, harp, Adding(harp, hash).command);
    CommitFolds(held, harp, Adding(harp, hash).command);
  }

  /** A plan that supersedes nothing reaches no other. */
  lemma Unlinked(held: Held, plan: string, other: string)
    requires plan != other && StateOf(held, plan).supersedes == {}
    ensures !Graphs.Reaches(GraphOf(held), plan, other)
  {
    hide StateOf, GraphOf;
    var g := GraphOf(held);
    if Graphs.Reaches(g, plan, other) {
      var p :| Graphs.PathFrom(g, p, plan, other);
      forall b ensures !Graphs.Edge(g, plan, b) {
        EdgesAreSupersedes(held, plan, b);
      }
      Graphs.PathStaysInside(g, {plan}, p);
    }
  }
}
