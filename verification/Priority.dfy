/**
 Task priority: raw scores rank-normalized onto a display scale over the live tasks, and
 what the formulas behind the raw scores read of a task's tags.
 */
module Priority {
  import opened Wrappers
  import Text

  /** The top of the display scale. */
  const MAX := 5.0
  const EXPLOITED_IN_WILD := "triage:exploited-in-wild"

  // ----- finite scores

  /** A finite float: the number it is, and whether it is the zero with a sign. */
  datatype Float = Float(value: real, negative: bool)

  type Score = f: Float | f.negative ==> f.value == 0.0 witness Float(0.0, false)

  /** The total order sorting uses: by number, and the negative zero before the other. */
  predicate Before(a: Score, b: Score) {
    a.value < b.value || (a.value == b.value && a.negative && !b.negative)
  }

  /** The positions of `ordered`, and `at` after every one it is not before. */
  function Inserted(raw: seq<Score>, ordered: seq<nat>, at: nat): seq<nat>
    requires at < |raw| && Positions(raw, ordered)
  {
    if ordered == [] || !Before(raw[at], raw[ordered[|ordered| - 1]]) then ordered + [at]
    else Inserted(raw, ordered[..|ordered| - 1], at) + [ordered[|ordered| - 1]]
  }

  /** The first `n` positions in the order of their scores, ties as they come. */
  function Ordered(raw: seq<Score>, n: nat): (order: seq<nat>)
    requires n <= |raw|
    ensures |order| == n && forall k :: 0 <= k < |order| ==> order[k] < n
  {
    if n == 0 then [] else
      InsertedElements(raw, Ordered(raw, n - 1), n - 1);
      Inserted(raw, Ordered(raw, n - 1), n - 1)
  }

  predicate Positions(raw: seq<Score>, order: seq<nat>) {
    forall k :: 0 <= k < |order| ==> order[k] < |raw|
  }

  predicate Sorted(raw: seq<Score>, order: seq<nat>)
    requires Positions(raw, order)
  {
    forall i, j :: 0 <= i < j < |order| ==> raw[order[i]].value <= raw[order[j]].value
  }

  lemma {:induction false} InsertedElements(raw: seq<Score>, ordered: seq<nat>, at: nat)
    requires at < |raw| && Positions(raw, ordered)
    ensures |Inserted(raw, ordered, at)| == |ordered| + 1
    ensures forall k :: 0 <= k < |ordered| + 1 ==>
              Inserted(raw, ordered, at)[k] in ordered || Inserted(raw, ordered, at)[k] == at
    ensures at in Inserted(raw, ordered, at) && forall x :: x in ordered ==> x in Inserted(raw, ordered, at)
  {
    hide Before;
    if !(ordered == [] || !Before(raw[at], raw[ordered[|ordered| - 1]])) {
      var last := |ordered| - 1;
      InsertedElements(raw, ordered[..last], at);
      assert ordered == ordered[..last] + [ordered[last]];
    }
  }

  lemma SortedOnward(raw: seq<Score>, ordered: seq<nat>, at: nat)
    requires at < |raw| && Positions(raw, ordered) && Sorted(raw, ordered)
    requires forall x :: x in ordered ==> raw[x].value <= raw[at].value
    ensures Positions(raw, ordered + [at]) && Sorted(raw, ordered + [at])
  {
  }

  lemma {:induction false} InsertedSorted(raw: seq<Score>, ordered: seq<nat>, at: nat)
    requires at < |raw| && Positions(raw, ordered) && Sorted(raw, ordered)
    ensures Positions(raw, Inserted(raw, ordered, at)) && Sorted(raw, Inserted(raw, ordered, at))
  {
    InsertedElements(raw, ordered, at);
    if !(ordered == [] || !Before(raw[at], raw[ordered[|ordered| - 1]])) {
      var last := |ordered| - 1;
      InsertedSorted(raw, ordered[..last], at);
      InsertedElements(raw, ordered[..last], at);
      SortedOnward(raw, Inserted(raw, ordered[..last], at), ordered[last]);
    } else {
      SortedOnward(raw, ordered, at);
    }
  }

  lemma {:induction false} OrderedSorted(raw: seq<Score>, n: nat)
    requires n <= |raw|
    ensures Sorted(raw, Ordered(raw, n)) && forall x: nat :: x < n ==> x in Ordered(raw, n)
  {
    if n > 0 {
      OrderedSorted(raw, n - 1);
      InsertedSorted(raw, Ordered(raw, n - 1), n - 1);
      InsertedElements(raw, Ordered(raw, n - 1), n - 1);
    }
  }

  // ----- percentiles

  /** How many score no higher than `value`; the two zeros are one score. */
  function NoHigher(raw: seq<Score>, value: real): nat {
    if raw == [] then 0
    else NoHigher(raw[..|raw| - 1], value) + if raw[|raw| - 1].value <= value then 1 else 0
  }

  /** The positions of the scores that are no higher than `value`. */
  ghost function AtMost(raw: seq<Score>, value: real): set<nat> {
    set j: nat | j < |raw| && raw[j].value <= value
  }

  lemma {:induction false} NoHigherCounts(raw: seq<Score>, value: real)
    ensures NoHigher(raw, value) == |AtMost(raw, value)|
  {
    var all := AtMost(raw, value);
    if raw == [] {
      assert all == {};
    } else {
      var last := |raw| - 1;
      NoHigherCounts(raw[..last], value);
      assert all == AtMost(raw[..last], value) + (if raw[last].value <= value then {last} else {});
    }
  }

  /** `MAX` times the fraction of all scores that are at most this one. */
  function Percentile(raw: seq<Score>, i: nat): real
    requires i < |raw|
  {
    MAX * NoHigher(raw, raw[i].value) as real / |raw| as real
  }

  /** The same count, over positions in some order. */
  function NoHigherIn(raw: seq<Score>, order: seq<nat>, value: real): nat
    requires Positions(raw, order)
  {
    if order == [] then 0
    else NoHigherIn(raw, order[..|order| - 1], value) + if raw[order[|order| - 1]].value <= value then 1 else 0
  }

  lemma NoHigherLast(raw: seq<Score>, order: seq<nat>, at: nat, value: real)
    requires Positions(raw, order) && at < |raw|
    ensures NoHigherIn(raw, order + [at], value) ==
            NoHigherIn(raw, order, value) + if raw[at].value <= value then 1 else 0
  {
    assert (order + [at])[..|order|] == order;
  }

  lemma {:induction false} InsertedCounts(raw: seq<Score>, ordered: seq<nat>, at: nat, value: real)
    requires at < |raw| && Positions(raw, ordered)
    ensures Positions(raw, Inserted(raw, ordered, at))
    ensures NoHigherIn(raw, Inserted(raw, ordered, at), value) ==
            NoHigherIn(raw, ordered, value) + if raw[at].value <= value then 1 else 0
  {
    hide Before;
    InsertedElements(raw, ordered, at);
    if !(ordered == [] || !Before(raw[at], raw[ordered[|ordered| - 1]])) {
      var last := |ordered| - 1;
      InsertedCounts(raw, ordered[..last], at, value);
      NoHigherLast(raw, Inserted(raw, ordered[..last], at), ordered[last], value);
    } else {
      NoHigherLast(raw, ordered, at, value);
    }
  }

  lemma {:induction false} OrderedCounts(raw: seq<Score>, n: nat, value: real)
    requires n <= |raw|
    ensures NoHigherIn(raw, Ordered(raw, n), value) == NoHigher(raw[..n], value)
  {
    if n > 0 {
      OrderedCounts(raw, n - 1, value);
      InsertedCounts(raw, Ordered(raw, n - 1), n - 1, value);
      assert raw[..n][..n - 1] == raw[..n - 1];
    }
  }

  lemma {:induction false} SortedCounts(raw: seq<Score>, order: seq<nat>, end: nat, value: real)
    requires Positions(raw, order) && end <= |order|
    requires forall k :: 0 <= k < end ==> raw[order[k]].value <= value
    requires forall k :: end <= k < |order| ==> raw[order[k]].value > value
    ensures NoHigherIn(raw, order, value) == end
    decreases |order|
  {
    if order != [] {
      SortedCounts(raw, order[..|order| - 1], if end < |order| then end else end - 1, value);
    }
  }

  lemma SortedSplits(raw: seq<Score>, order: seq<nat>, end: nat)
    requires Positions(raw, order) && Sorted(raw, order) && 0 < end <= |order|
    requires end < |order| ==> raw[order[end]].value > raw[order[end - 1]].value
    ensures forall k :: 0 <= k < end ==> raw[order[k]].value <= raw[order[end - 1]].value
    ensures forall k :: end <= k < |order| ==> raw[order[k]].value > raw[order[end - 1]].value
  {
    forall k | end <= k < |order| ensures raw[order[k]].value > raw[order[end - 1]].value {
      assert raw[order[end]].value <= raw[order[k]].value;
    }
  }

  /** In sorted order, those scoring no higher than one are those up to the last scoring as it does. */
  lemma GroupEnds(raw: seq<Score>, end: nat)
    requires 0 < end <= |raw|
    requires var order := Ordered(raw, |raw|); end < |raw| ==> raw[order[end]].value > raw[order[end - 1]].value
    ensures NoHigher(raw, raw[Ordered(raw, |raw|)[end - 1]].value) == end
  {
    hide Ordered, NoHigher, NoHigherIn, Sorted;
    var order := Ordered(raw, |raw|);
    var value := raw[order[end - 1]].value;
    OrderedSorted(raw, |raw|);
    SortedSplits(raw, order, end);
    SortedCounts(raw, order, end, value);
    OrderedCounts(raw, |raw|, value);
    assert raw[..|raw|] == raw;
  }

  /** Each score's percentile: groups of equal scores, found in sorted order, share one. */
  method RankNormalize(raw: seq<Score>) returns (normalized: array<real>)
    ensures fresh(normalized) && normalized.Length == |raw|
    ensures forall i :: 0 <= i < |raw| ==> normalized[i] == Percentile(raw, i)
  {
    hide Ordered, NoHigher, Sorted;
    var n := |raw|;
    var order := Ordered(raw, n);
    normalized := new real[n](_ => 0.0);
    var start := 0;
    while start < n
      invariant start <= n
      invariant forall k :: 0 <= k < start ==> normalized[order[k]] == Percentile(raw, order[k])
    {
      var value := raw[order[start]].value;
      var end := start + 1;
      while end < n && raw[order[end]].value == value
        invariant start < end <= n
        invariant forall k :: start <= k < end ==> raw[order[k]].value == value
      {
        end := end + 1;
      }
      GroupCounts(raw, end, value);
      var priority := MAX * end as real / n as real;
      for at := start to end
        invariant forall k :: 0 <= k < at ==> normalized[order[k]] == Percentile(raw, order[k])
      {
        normalized[order[at]] := priority;
      }
      start := end;
    }
    OrderedSorted(raw, n);
    forall i: nat | i < n ensures normalized[i] == Percentile(raw, i) {
      assert i in order;
      var k :| 0 <= k < |order| && order[k] == i;
    }
  }

  lemma GroupCounts(raw: seq<Score>, end: nat, value: real)
    requires 0 < end <= |raw| && raw[Ordered(raw, |raw|)[end - 1]].value == value
    requires end < |raw| ==> raw[Ordered(raw, |raw|)[end]].value != value
    ensures NoHigher(raw, value) == end
  {
    OrderedSorted(raw, |raw|);
    hide Ordered, NoHigher;
    GroupEnds(raw, end);
  }

  // ----- what percentiles mean

  lemma {:induction false} NoHigherGrows(raw: seq<Score>, low: real, high: real)
    requires low <= high
    ensures NoHigher(raw, low) <= NoHigher(raw, high) <= |raw|
    ensures NoHigher(raw, low) == NoHigher(raw, high) <==>
              forall j :: 0 <= j < |raw| ==> !(low < raw[j].value <= high)
    ensures NoHigher(raw, high) == |raw| <==> forall j :: 0 <= j < |raw| ==> raw[j].value <= high
    ensures NoHigher(raw, high) > 0 <==> exists j :: 0 <= j < |raw| && raw[j].value <= high
  {
    if raw != [] {
      var last := |raw| - 1;
      NoHigherGrows(raw[..last], low, high);
      assert forall j :: 0 <= j < last ==> raw[..last][j] == raw[j];
    }
  }

  lemma Shares(a: nat, b: nat, n: nat)
    requires n > 0
    ensures a < b <==> MAX * a as real / n as real < MAX * b as real / n as real
    ensures MAX * n as real / n as real == MAX && MAX * 0 as real / n as real == 0.0
  {
    var unit := MAX / n as real;
    assert unit > 0.0 && unit * n as real == MAX;
    assert MAX * a as real / n as real == unit * a as real;
    assert MAX * b as real / n as real == unit * b as real;
    if a < b {
      assert unit * (b - a) as real > 0.0;
    } else {
      assert unit * (a - b) as real >= 0.0;
    }
  }

  /** A score's percentile is `MAX` times the share of the scores, by their number, that are no higher. */
  lemma PercentileIsShare(raw: seq<Score>, i: nat)
    requires i < |raw|
    ensures Percentile(raw, i) == MAX * |AtMost(raw, raw[i].value)| as real / |raw| as real
  {
    NoHigherCounts(raw, raw[i].value);
    hide NoHigher;
  }

  /** Percentiles order scores as their numbers do, the two zeros alike. */
  lemma PercentilesOrder(raw: seq<Score>, i: nat, j: nat)
    requires i < |raw| && j < |raw|
    ensures Percentile(raw, i) < Percentile(raw, j) <==> raw[i].value < raw[j].value
    ensures Percentile(raw, i) == Percentile(raw, j) <==> raw[i].value == raw[j].value
  {
    hide NoHigher;
    var a, b := NoHigher(raw, raw[i].value), NoHigher(raw, raw[j].value);
    Shares(a, b, |raw|);
    Shares(b, a, |raw|);
    if raw[i].value < raw[j].value {
      NoHigherGrows(raw, raw[i].value, raw[j].value);
    } else {
      NoHigherGrows(raw, raw[j].value, raw[i].value);
    }
  }

  /** Every percentile is above 0 and at most MAX, and exactly the highest scores are MAX. */
  lemma PercentilesSpan(raw: seq<Score>, i: nat)
    requires i < |raw|
    ensures 0.0 < Percentile(raw, i) <= MAX
    ensures Percentile(raw, i) == MAX <==> forall j :: 0 <= j < |raw| ==> raw[j].value <= raw[i].value
  {
    hide NoHigher;
    var count := NoHigher(raw, raw[i].value);
    NoHigherGrows(raw, raw[i].value, raw[i].value);
    Shares(0, count, |raw|);
    Shares(count, |raw|, |raw|);
    Shares(|raw|, count, |raw|);
  }

  // ----- what formulas read of tags

  datatype Tag = Tag(target: string, value: Option<string>)

  /** The number a tag carries: 1 without a value, 0 with one that is not a finite number. */
  function NumberOf(number: string -> Option<real>, tag: Tag): real {
    match tag.value
    case None => 1.0
    case Some(value) => match number(value) case Some(n) => n case None => 0.0
  }

  /** What one tag adds to what the tags before it set. */
  function WithTag(number: string -> Option<real>, values: map<string, real>, tag: Tag): map<string, real> {
    if '=' in tag.target then values else
    var present := values[tag.target + "=*" := 1.0];
    var valued := if tag.value.Some? then present[tag.target + "=" + tag.value.value := 1.0] else present;
    valued[tag.target := NumberOf(number, tag)]
  }

  function TagValuesOf(number: string -> Option<real>, tags: seq<Tag>): map<string, real> {
    if tags == [] then map[]
    else WithTag(number, TagValuesOf(number, tags[..|tags| - 1]), tags[|tags| - 1])
  }

  method TagValues(number: string -> Option<real>, tags: seq<Tag>) returns (values: map<string, real>)
    ensures values == TagValuesOf(number, tags)
  {
    values := map[];
    for i := 0 to |tags|
      invariant values == TagValuesOf(number, tags[..i])
    {
      assert tags[..i + 1][..i] == tags[..i];
      var tag := tags[i];
      if '=' in tag.target {
        continue;
      }
      values := values[tag.target + "=*" := 1.0];
      if tag.value.None? {
        values := values[tag.target := 1.0];
        continue;
      }
      values := values[tag.target + "=" + tag.value.value := 1.0];
      values := values[tag.target := NumberOf(number, tag)];
    }
    assert tags[..|tags|] == tags;
  }

  predicate Carries(tags: seq<Tag>, target: string) {
    exists i :: 0 <= i < |tags| && tags[i].target == target
  }

  /** The last tag of `target`, if there is one. */
  function LastOf(tags: seq<Tag>, target: string): (i: int)
    ensures -1 <= i < |tags| && (i >= 0 ==> tags[i].target == target)
    ensures forall j :: i < j < |tags| ==> tags[j].target != target
  {
    if tags == [] then -1
    else if tags[|tags| - 1].target == target then |tags| - 1
    else LastOf(tags[..|tags| - 1], target)
  }

  /** The key `target=*` or `target=value` of one of the tags. */
  predicate Keyed(tags: seq<Tag>, key: string) {
    exists i :: 0 <= i < |tags| && KeyOf(tags[i], key)
  }

  predicate KeyOf(tag: Tag, key: string) {
    && '=' !in tag.target
    && (key == tag.target + "=*" || (tag.value.Some? && key == tag.target + "=" + tag.value.value))
  }

  /** A target reads the last value it carries; a keyed read is 1 exactly where a tag says so; else nothing. */
  lemma {:induction false} TagValuesMean(number: string -> Option<real>, tags: seq<Tag>, key: string)
    ensures var values := TagValuesOf(number, tags);
            if '=' in key then (key in values <==> Keyed(tags, key)) && (key in values ==> values[key] == 1.0)
            else (key in values <==> Carries(tags, key))
                 && (key in values ==> values[key] == NumberOf(number, tags[LastOf(tags, key)]))
  {
    if tags != [] {
      hide NumberOf;
      var last := |tags| - 1;
      TagValuesMean(number, tags[..last], key);
      assert forall i :: 0 <= i < last ==> tags[..last][i] == tags[i];
      assert Keyed(tags, key) <==> Keyed(tags[..last], key) || KeyOf(tags[last], key);
      assert Carries(tags, key) <==> Carries(tags[..last], key) || tags[last].target == key;
      KeysHoldEquals(tags[last]);
    }
  }

  lemma KeysHoldEquals(tag: Tag)
    ensures '=' in tag.target + "=*" && (tag.value.Some? ==> '=' in tag.target + "=" + tag.value.value)
  {
    assert (tag.target + "=*")[|tag.target|] == '=';
    if tag.value.Some? {
      assert (tag.target + "=" + tag.value.value)[|tag.target|] == '=';
    }
  }

  // ----- ranking

  datatype Candidate = Candidate(harpId: string, terminal: bool, tags: seq<Tag>)

  datatype PriorityError = Unscored(harpId: string)

  /** Targets in order, each once. */
  type Targets = s: seq<string> | Text.Sorted(s) witness []

  /** How the formulas score a task, whether one for the priority is `declared`, and what they read. */
  datatype Formulas = Formulas(
    score: (Candidate, map<string, real>) -> Result<Score, PriorityError>,
    declared: bool,
    number: string -> Option<real>,
    referenced: Targets)

  datatype Ranked = Ranked(raw: Score, priority: real, overridden: bool)

  /** How many live tasks carry one of the targets read. */
  datatype Coverage = Coverage(target: string, tasks: nat)

  datatype Ranking = Ranking(
    scores: seq<Ranked>,
    noPriorityFn: bool,
    allTied: bool,
    scoredTasks: nat,
    liveTasks: nat,
    coverage: seq<Coverage>)

  /** A score counts where a formula for the priority is declared; without one, each task's is 0. */
  function Counted(formulas: Formulas, score: Score): Score {
    if formulas.declared then score else Float(0.0, false)
  }

  function RawOf(formulas: Formulas, c: Candidate): Result<Score, PriorityError> {
    match formulas.score(c, TagValuesOf(formulas.number, c.tags))
    case Failure(error) => Failure(error)
    case Success(score) => Success(Counted(formulas, score))
  }

  predicate AllScored(formulas: Formulas, candidates: seq<Candidate>) {
    forall i :: 0 <= i < |candidates| ==> RawOf(formulas, candidates[i]).Success?
  }

  /** The raw scores of the live tasks. */
  function LiveRaws(formulas: Formulas, candidates: seq<Candidate>): seq<Score>
    requires AllScored(formulas, candidates)
  {
    if candidates == [] then [] else
      var last := candidates[|candidates| - 1];
      LiveRaws(formulas, candidates[..|candidates| - 1]) +
      (if last.terminal then [] else [RawOf(formulas, last).value])
  }

  /** The live tasks carrying a target a formula reads. */
  function ScoredTasks(formulas: Formulas, candidates: seq<Candidate>): nat {
    if candidates == [] then 0 else
      var last := candidates[|candidates| - 1];
      ScoredTasks(formulas, candidates[..|candidates| - 1]) +
      if !last.terminal && ReadsAny(formulas, last) then 1 else 0
  }

  predicate ReadsAny(formulas: Formulas, c: Candidate) {
    exists target :: target in formulas.referenced && target in TagValuesOf(formulas.number, c.tags)
  }

  /** The live tasks carrying `target`. */
  function Carriers(formulas: Formulas, candidates: seq<Candidate>, target: string): nat {
    if candidates == [] then 0 else
      var last := candidates[|candidates| - 1];
      Carriers(formulas, candidates[..|candidates| - 1], target) +
      if !last.terminal && target in TagValuesOf(formulas.number, last.tags) then 1 else 0
  }

  /** Worst covered first, and then by target. */
  predicate WorstFirst(coverage: seq<Coverage>) {
    forall i, j :: 0 <= i < j < |coverage| ==> Worse(coverage[i], coverage[j])
  }

  predicate Worse(a: Coverage, b: Coverage) {
    a.tasks < b.tasks || (a.tasks == b.tasks && Text.Less(a.target, b.target))
  }

  /** Each target read, once, with its carriers. */
  ghost predicate Covers(formulas: Formulas, candidates: seq<Candidate>, coverage: seq<Coverage>) {
    && WorstFirst(coverage)
    && forall c :: c in coverage <==>
         c.target in formulas.referenced && c.tasks == Carriers(formulas, candidates, c.target)
  }

  predicate Exploited(formulas: Formulas, c: Candidate) {
    EXPLOITED_IN_WILD in TagValuesOf(formulas.number, c.tags)
  }

  /** A task's display priority, of a ranking of `candidates`. */
  function PriorityOf(formulas: Formulas, candidates: seq<Candidate>, i: nat): real
    requires i < |candidates| && AllScored(formulas, candidates)
  {
    if candidates[i].terminal then 0.0
    else if Exploited(formulas, candidates[i]) then MAX
    else
      var raws := LiveRaws(formulas, candidates);
      LiveRawsHold(formulas, candidates, i);
      MAX * NoHigher(raws, RawOf(formulas, candidates[i]).value.value) as real / |raws| as real
  }

  lemma {:induction false} LiveRawsHold(formulas: Formulas, candidates: seq<Candidate>, i: nat)
    requires i < |candidates| && AllScored(formulas, candidates) && !candidates[i].terminal
    ensures RawOf(formulas, candidates[i]).value in LiveRaws(formulas, candidates)
  {
    var last := |candidates| - 1;
    if i < last {
      LiveRawsHold(formulas, candidates[..last], i);
    }
  }

  /** Whether the live tasks, more than one, all score alike. */
  predicate AllTied(raws: seq<Score>) {
    |raws| > 1 && forall i :: 0 <= i < |raws| ==> raws[i].value == raws[0].value
  }

  /** Rank `candidates`; refused at the first that cannot be scored. */
  method Rank(formulas: Formulas, candidates: seq<Candidate>) returns (ranking: Result<Ranking, PriorityError>)
    ensures ranking.Failure? ==> exists i :: 0 <= i < |candidates| && AllScored(formulas, candidates[..i])
                                             && RawOf(formulas, candidates[i]) == Failure(ranking.error)
    ensures ranking.Success? <==> AllScored(formulas, candidates)
    ensures ranking.Success? ==>
              var r := ranking.value;
              && |r.scores| == |candidates|
              && (forall i :: 0 <= i < |candidates| ==>
                    r.scores[i] == Ranked(RawOf(formulas, candidates[i]).value, PriorityOf(formulas, candidates, i),
                                          !candidates[i].terminal && Exploited(formulas, candidates[i])))
              && r.noPriorityFn == !formulas.declared
              && r.allTied == AllTied(LiveRaws(formulas, candidates))
              && r.scoredTasks == ScoredTasks(formulas, candidates)
              && r.liveTasks == |LiveRaws(formulas, candidates)|
              && Covers(formulas, candidates, r.coverage)
  {
    hide TagValuesOf, NoHigher, Percentile, PriorityOf, LiveRaws, ScoredTasks, Carriers, Covers;
    var scored := ScoreAll(formulas, candidates);
    if scored.Failure? {
      return Failure(scored.error);
    }
    var stage := scored.value;
    assert candidates[..|candidates|] == candidates;
    var scores := Spread(formulas, candidates, stage);
    var coverage := WorstCovered(formulas, candidates, stage.counts);
    ranking := Success(Ranking(scores, !formulas.declared, AllTied(stage.raws), stage.scoredTasks, |stage.live|,
                               coverage));
  }

  /** The candidates scored so far: the live ones' positions and raw scores, in step, and each target's count. */
  datatype Stage = Stage(scores: seq<Ranked>, live: seq<nat>, raws: seq<Score>, scoredTasks: nat, counts: seq<nat>)

  predicate StageAt(formulas: Formulas, candidates: seq<Candidate>, n: nat, stage: Stage)
    requires n <= |candidates|
  {
    && AllScored(formulas, candidates[..n]) && |stage.scores| == n
    && (forall i :: 0 <= i < n ==> Unranked(formulas, candidates[i], stage.scores[i]))
    && stage.raws == LiveRaws(formulas, candidates[..n])
    && LiveAre(formulas, candidates, n, stage.live, stage.raws)
    && stage.scoredTasks == ScoredTasks(formulas, candidates[..n])
    && CountsAre(formulas, candidates[..n], stage.counts)
  }

  predicate CountsAre(formulas: Formulas, candidates: seq<Candidate>, counts: seq<nat>) {
    && |counts| == |formulas.referenced|
    && forall k :: 0 <= k < |counts| ==> counts[k] == Carriers(formulas, candidates, formulas.referenced[k])
  }

  /** One task's carrying counted under each target it carries, and whether there is one. */
  method Count(targets: seq<string>, values: map<string, real>, counts: seq<nat>)
    returns (counts': seq<nat>, scored: bool)
    requires |counts| == |targets|
    ensures |counts'| == |targets|
    ensures forall k :: 0 <= k < |targets| ==> counts'[k] == counts[k] + if targets[k] in values then 1 else 0
    ensures scored <==> exists target :: target in targets && target in values
  {
    counts', scored := counts, false;
    for k := 0 to |targets|
      invariant |counts'| == |targets|
      invariant forall j :: 0 <= j < k ==> counts'[j] == counts[j] + if targets[j] in values then 1 else 0
      invariant forall j :: k <= j < |targets| ==> counts'[j] == counts[j]
      invariant scored <==> exists j :: 0 <= j < k && targets[j] in values
    {
      if targets[k] in values {
        counts', scored := counts'[k := counts'[k] + 1], true;
      }
    }
  }

  method ScoreAll(formulas: Formulas, candidates: seq<Candidate>) returns (scored: Result<Stage, PriorityError>)
    ensures scored.Failure? ==> exists i :: 0 <= i < |candidates| && AllScored(formulas, candidates[..i])
                                            && RawOf(formulas, candidates[i]) == Failure(scored.error)
    ensures scored.Success? ==> StageAt(formulas, candidates, |candidates|, scored.value)
  {
    hide TagValuesOf, LiveRaws, ScoredTasks, LiveAre, Unranked, CountsAre;
    var scores: seq<Ranked>, live: seq<nat>, raws: seq<Score>, scoredTasks := [], [], [], 0;
    var counts: seq<nat> := seq(|formulas.referenced|, _ => 0);
    StageStarts(formulas, candidates, counts);
    for at := 0 to |candidates|
      invariant StageAt(formulas, candidates, at, Stage(scores, live, raws, scoredTasks, counts))
    {
      var c := candidates[at];
      var values := TagValues(formulas.number, c.tags);
      var raw := formulas.score(c, values);
      if raw.Failure? {
        return Failure(raw.error);
      }
      ghost var before := Stage(scores, live, raws, scoredTasks, counts);
      StageCounts(formulas, candidates, at, before);
      scores := scores + [Ranked(Counted(formulas, raw.value), 0.0, !c.terminal && EXPLOITED_IN_WILD in values)];
      if !c.terminal {
        var counted;
        live, raws := live + [at], raws + [Counted(formulas, raw.value)];
        counts, counted := Count(formulas.referenced, values, counts);
        scoredTasks := scoredTasks + if counted then 1 else 0;
      }
      StageGrows(formulas, candidates, at, before, counts);
    }
    scored := Success(Stage(scores, live, raws, scoredTasks, counts));
  }

  lemma StageStarts(formulas: Formulas, candidates: seq<Candidate>, counts: seq<nat>)
    requires |counts| == |formulas.referenced| && forall k :: 0 <= k < |counts| ==> counts[k] == 0
    ensures StageAt(formulas, candidates, 0, Stage([], [], [], 0, counts))
  {
  }

  lemma StageCounts(formulas: Formulas, candidates: seq<Candidate>, n: nat, stage: Stage)
    requires n <= |candidates| && StageAt(formulas, candidates, n, stage)
    ensures |stage.counts| == |formulas.referenced|
  {
  }

  function Staged(formulas: Formulas, c: Candidate, at: nat, stage: Stage, counts: seq<nat>): Stage
    requires RawOf(formulas, c).Success?
  {
    var raw := RawOf(formulas, c).value;
    var scores := stage.scores + [Ranked(raw, 0.0, !c.terminal && Exploited(formulas, c))];
    if c.terminal then stage.(scores := scores)
    else Stage(scores, stage.live + [at], stage.raws + [raw],
               stage.scoredTasks + if ReadsAny(formulas, c) then 1 else 0, counts)
  }

  /** `counts` are those the candidate leaves. */
  predicate Grown(formulas: Formulas, c: Candidate, counts: seq<nat>, counts': seq<nat>)
    requires |counts| == |formulas.referenced|
  {
    if c.terminal then counts' == counts else
      && |counts'| == |counts|
      && forall k :: 0 <= k < |counts| ==>
           counts'[k] == counts[k] +
             if formulas.referenced[k] in TagValuesOf(formulas.number, c.tags) then 1 else 0
  }

  lemma CountsGrow(formulas: Formulas, candidates: seq<Candidate>, at: nat, counts: seq<nat>, counts': seq<nat>)
    requires at < |candidates| && CountsAre(formulas, candidates[..at], counts)
    requires Grown(formulas, candidates[at], counts, counts')
    ensures CountsAre(formulas, candidates[..at + 1], counts')
  {
    hide TagValuesOf;
    assert candidates[..at + 1][..at] == candidates[..at];
  }

  lemma StageGrows(formulas: Formulas, candidates: seq<Candidate>, at: nat, stage: Stage, counts: seq<nat>)
    requires at < |candidates| && StageAt(formulas, candidates, at, stage) && RawOf(formulas, candidates[at]).Success?
    requires Grown(formulas, candidates[at], stage.counts, counts)
    ensures StageAt(formulas, candidates, at + 1, Staged(formulas, candidates[at], at, stage, counts))
  {
    hide TagValuesOf, RawOf, CountsAre, Grown;
    var c := candidates[at];
    var stage' := Staged(formulas, c, at, stage, counts);
    CountsGrow(formulas, candidates, at, stage.counts, counts);
    StageCounts(formulas, candidates, at, stage);
    TerminalCounts(formulas, c, stage.counts, counts);
    assert candidates[..at + 1][..at] == candidates[..at];
    forall k | 0 <= k < |stage'.live|
      ensures LiveIs(formulas, candidates, stage'.live[k], stage'.raws[k]) && stage'.live[k] < at + 1
    {
      if k < |stage.live| {
        assert LiveIs(formulas, candidates, stage.live[k], stage.raws[k]);
      }
    }
    forall i: nat | i < at + 1 && !candidates[i].terminal ensures i in stage'.live {
    }
  }

  lemma TerminalCounts(formulas: Formulas, c: Candidate, counts: seq<nat>, counts': seq<nat>)
    requires |counts| == |formulas.referenced| && Grown(formulas, c, counts, counts')
    ensures c.terminal ==> counts' == counts
  {
  }

  /** `c` among those sorted by their counts, after each no better covered. */
  function Placed(sorted: seq<Coverage>, c: Coverage): seq<Coverage> {
    if sorted == [] || sorted[|sorted| - 1].tasks <= c.tasks then sorted + [c]
    else Placed(sorted[..|sorted| - 1], c) + [sorted[|sorted| - 1]]
  }

  lemma {:induction false} PlacedWorst(sorted: seq<Coverage>, c: Coverage)
    requires WorstFirst(sorted) && forall x :: x in sorted ==> Text.Less(x.target, c.target)
    ensures WorstFirst(Placed(sorted, c)) && forall x :: x in Placed(sorted, c) <==> x in sorted || x == c
  {
    hide Text.Less;
    if sorted != [] && sorted[|sorted| - 1].tasks > c.tasks {
      var last := sorted[|sorted| - 1];
      var front := sorted[..|sorted| - 1];
      PlacedWorst(front, c);
      assert sorted == front + [last];
      var placed := Placed(front, c);
      forall i | 0 <= i < |placed| ensures Worse(placed[i], last) {
        assert placed[i] in placed;
      }
    }
  }

  /** What the targets count, sorted by it as a stable sort does. */
  method WorstCovered(formulas: Formulas, candidates: seq<Candidate>, counts: seq<nat>)
    returns (coverage: seq<Coverage>)
    requires CountsAre(formulas, candidates, counts)
    ensures Covers(formulas, candidates, coverage)
  {
    hide Text.Less, Carriers;
    var targets := formulas.referenced;
    coverage := [];
    for k := 0 to |targets|
      invariant WorstFirst(coverage)
      invariant forall c :: c in coverage <==>
                  c.target in targets[..k] && c.tasks == Carriers(formulas, candidates, c.target)
    {
      forall c | c in coverage ensures Text.Less(c.target, targets[k]) {
        var i :| 0 <= i < k && targets[..k][i] == c.target;
      }
      PlacedWorst(coverage, Coverage(targets[k], counts[k]));
      coverage := Placed(coverage, Coverage(targets[k], counts[k]));
      assert targets[..k + 1] == targets[..k] + [targets[k]];
    }
    assert targets[..|targets|] == targets;
  }

  /** Without a formula for the priority every ranking of two or more live tasks is tied. */
  lemma UndeclaredTies(formulas: Formulas, candidates: seq<Candidate>)
    requires AllScored(formulas, candidates) && !formulas.declared && |LiveRaws(formulas, candidates)| > 1
    ensures AllTied(LiveRaws(formulas, candidates))
  {
    UndeclaredZero(formulas, candidates);
  }

  lemma {:induction false} UndeclaredZero(formulas: Formulas, candidates: seq<Candidate>)
    requires AllScored(formulas, candidates) && !formulas.declared
    ensures forall i :: 0 <= i < |LiveRaws(formulas, candidates)| ==> LiveRaws(formulas, candidates)[i].value == 0.0
  {
    hide TagValuesOf;
    if candidates != [] {
      UndeclaredZero(formulas, candidates[..|candidates| - 1]);
    }
  }

  /** Each live task given its priority: its percentile, unless it is forced. */
  method Spread(formulas: Formulas, candidates: seq<Candidate>, stage: Stage) returns (scores: seq<Ranked>)
    requires AllScored(formulas, candidates) && StageAt(formulas, candidates, |candidates|, stage)
    ensures |scores| == |candidates|
    ensures forall i :: 0 <= i < |candidates| ==>
              scores[i] == Ranked(RawOf(formulas, candidates[i]).value, PriorityOf(formulas, candidates, i),
                                  !candidates[i].terminal && Exploited(formulas, candidates[i]))
  {
    hide TagValuesOf, NoHigher, Percentile, PriorityOf, LiveRaws, ScoredTasks, RawOf, Exploited, CountsAre;
    assert candidates[..|candidates|] == candidates;
    var live := stage.live;
    scores := stage.scores;
    var percentiles := RankNormalize(stage.raws);
    var normalized := percentiles[..];
    for k := 0 to |live|
      invariant |scores| == |candidates|
      invariant forall i :: 0 <= i < |candidates| ==> RankedUpTo(formulas, candidates, live, k, i, scores[i])
    {
      var score := scores[live[k]];
      assert LiveIs(formulas, candidates, live[k], stage.raws[k]);
      assert RankedUpTo(formulas, candidates, live, k, live[k], score);
      PriorityIs(formulas, candidates, live, stage.raws, k);
      ghost var before := scores;
      scores := scores[live[k] := score.(priority := if score.overridden then MAX else normalized[k])];
      forall i | 0 <= i < |candidates| ensures RankedUpTo(formulas, candidates, live, k + 1, i, scores[i]) {
        assert RankedUpTo(formulas, candidates, live, k, i, before[i]);
        assert live[..k + 1] == live[..k] + [live[k]];
        assert i in live[..k + 1] <==> i in live[..k] || i == live[k];
      }
    }
    forall i | 0 <= i < |candidates|
      ensures scores[i].priority == PriorityOf(formulas, candidates, i)
    {
      assert RankedUpTo(formulas, candidates, live, |live|, i, scores[i]);
      assert live[..|live|] == live;
      TerminalIsZero(formulas, candidates, i);
    }
  }

  lemma TerminalIsZero(formulas: Formulas, candidates: seq<Candidate>, i: nat)
    requires i < |candidates| && AllScored(formulas, candidates)
    ensures candidates[i].terminal ==> PriorityOf(formulas, candidates, i) == 0.0
  {
  }

  predicate Unranked(formulas: Formulas, c: Candidate, score: Ranked) {
    && RawOf(formulas, c) == Success(score.raw) && score.priority == 0.0
    && (score.overridden <==> !c.terminal && Exploited(formulas, c))
  }

  /** The positions of the first `n` candidates that are live, with their raw scores. */
  predicate LiveAre(formulas: Formulas, candidates: seq<Candidate>, n: nat, live: seq<nat>, raws: seq<Score>)
    requires n <= |candidates|
  {
    && |live| == |raws|
    && (forall k :: 0 <= k < |live| ==> LiveIs(formulas, candidates, live[k], raws[k]) && live[k] < n)
    && forall i: nat :: i < n && !candidates[i].terminal ==> i in live
  }

  predicate LiveIs(formulas: Formulas, candidates: seq<Candidate>, i: nat, raw: Score) {
    i < |candidates| && !candidates[i].terminal && RawOf(formulas, candidates[i]) == Success(raw)
  }

  /** A score once the first `k` live ones have their priority. */
  predicate RankedUpTo(formulas: Formulas, candidates: seq<Candidate>, live: seq<nat>, k: nat, i: nat, score: Ranked)
    requires k <= |live| && i < |candidates| && AllScored(formulas, candidates)
  {
    && RawOf(formulas, candidates[i]) == Success(score.raw)
    && (score.overridden <==> !candidates[i].terminal && Exploited(formulas, candidates[i]))
    && score.priority == if i in live[..k] then PriorityOf(formulas, candidates, i) else 0.0
  }

  lemma PriorityIs(formulas: Formulas, candidates: seq<Candidate>, live: seq<nat>, raws: seq<Score>, k: nat)
    requires AllScored(formulas, candidates) && raws == LiveRaws(formulas, candidates)
    requires LiveAre(formulas, candidates, |candidates|, live, raws) && k < |live|
    ensures PriorityOf(formulas, candidates, live[k]) ==
            if Exploited(formulas, candidates[live[k]]) then MAX else Percentile(raws, k)
  {
    hide TagValuesOf, NoHigher, LiveRaws;
    assert LiveIs(formulas, candidates, live[k], raws[k]);
  }

  /** A live task's percentile is one of the raw scores' it is ranked among. */
  lemma LivePercentile(formulas: Formulas, candidates: seq<Candidate>, i: nat) returns (k: nat)
    requires i < |candidates| && AllScored(formulas, candidates) && !candidates[i].terminal
    ensures var raws := LiveRaws(formulas, candidates);
            && k < |raws| && raws[k] == RawOf(formulas, candidates[i]).value
            && PriorityOf(formulas, candidates, i) ==
               if Exploited(formulas, candidates[i]) then MAX else Percentile(raws, k)
  {
    hide TagValuesOf, NoHigher;
    LiveRawsHold(formulas, candidates, i);
    var raws := LiveRaws(formulas, candidates);
    k :| 0 <= k < |raws| && raws[k] == RawOf(formulas, candidates[i]).value;
  }

  // ----- what a ranking counts

  /** The positions of the live candidates of which `holds` is so. */
  ghost function LiveWhere(candidates: seq<Candidate>, holds: Candidate -> bool): set<nat> {
    set i: nat | i < |candidates| && !candidates[i].terminal && holds(candidates[i])
  }

  lemma LiveGrow(candidates: seq<Candidate>, holds: Candidate -> bool)
    requires candidates != []
    ensures var (before, last) := (candidates[..|candidates| - 1], candidates[|candidates| - 1]);
            |LiveWhere(candidates, holds)| ==
              |LiveWhere(before, holds)| + if !last.terminal && holds(last) then 1 else 0
  {
    var n := |candidates| - 1;
    assert LiveWhere(candidates, holds) ==
           LiveWhere(candidates[..n], holds)
           + (if !candidates[n].terminal && holds(candidates[n]) then {n} else {});
  }

  function Any(): Candidate -> bool {
    (c: Candidate) => true
  }

  function Reading(formulas: Formulas): Candidate -> bool {
    (c: Candidate) => ReadsAny(formulas, c)
  }

  function Carrying(formulas: Formulas, target: string): Candidate -> bool {
    (c: Candidate) => target in TagValuesOf(formulas.number, c.tags)
  }

  /** A ranking's counts are of live tasks: all of them, those a formula reads a target of, and each target's. */
  lemma {:induction false} CountsMean(formulas: Formulas, candidates: seq<Candidate>, target: string)
    requires AllScored(formulas, candidates)
    ensures |LiveRaws(formulas, candidates)| == |LiveWhere(candidates, Any())|
    ensures ScoredTasks(formulas, candidates) == |LiveWhere(candidates, Reading(formulas))|
    ensures Carriers(formulas, candidates, target) == |LiveWhere(candidates, Carrying(formulas, target))|
  {
    hide TagValuesOf, ReadsAny;
    if candidates == [] {
      assert forall holds: Candidate -> bool :: LiveWhere(candidates, holds) == {};
    } else {
      CountsMean(formulas, candidates[..|candidates| - 1], target);
      LiveGrow(candidates, Any());
      LiveGrow(candidates, Reading(formulas));
      LiveGrow(candidates, Carrying(formulas, target));
      hide LiveWhere;
    }
  }

  /** Each raw score ranked is a live task's. */
  lemma {:induction false} RawsAreLive(formulas: Formulas, candidates: seq<Candidate>, k: nat) returns (i: nat)
    requires AllScored(formulas, candidates) && k < |LiveRaws(formulas, candidates)|
    ensures i < |candidates| && !candidates[i].terminal
    ensures RawOf(formulas, candidates[i]).value == LiveRaws(formulas, candidates)[k]
  {
    hide TagValuesOf, RawOf;
    var last := |candidates| - 1;
    if k < |LiveRaws(formulas, candidates[..last])| {
      i := RawsAreLive(formulas, candidates[..last], k);
    } else {
      i := last;
    }
  }

  /** A ranking is tied exactly where more than one task is live and every live one scores alike. */
  lemma TiedMeans(formulas: Formulas, candidates: seq<Candidate>)
    requires AllScored(formulas, candidates)
    ensures AllTied(LiveRaws(formulas, candidates)) <==>
              && |LiveWhere(candidates, Any())| > 1
              && forall i, j :: 0 <= i < |candidates| && 0 <= j < |candidates|
                                && !candidates[i].terminal && !candidates[j].terminal ==>
                   RawOf(formulas, candidates[i]).value.value == RawOf(formulas, candidates[j]).value.value
  {
    hide TagValuesOf, RawOf, LiveWhere, LiveRaws;
    var raws := LiveRaws(formulas, candidates);
    CountsMean(formulas, candidates, "");
    if AllTied(raws) {
      forall i | 0 <= i < |candidates| && !candidates[i].terminal
        ensures RawOf(formulas, candidates[i]).value.value == raws[0].value
      {
        LiveRawsHold(formulas, candidates, i);
      }
    } else if |raws| > 1 {
      var k :| 0 <= k < |raws| && raws[k].value != raws[0].value;
      var i := RawsAreLive(formulas, candidates, k);
      var j := RawsAreLive(formulas, candidates, 0);
    }
  }

  /** What a ranking says: terminal tasks 0, live ones above it, in the order of their raw scores unless forced. */
  lemma RankMeans(formulas: Formulas, candidates: seq<Candidate>, i: nat, j: nat)
    requires i < |candidates| && j < |candidates| && AllScored(formulas, candidates)
    ensures candidates[i].terminal <==> PriorityOf(formulas, candidates, i) == 0.0
    ensures 0.0 <= PriorityOf(formulas, candidates, i) <= MAX
    ensures !candidates[i].terminal && Exploited(formulas, candidates[i]) ==> PriorityOf(formulas, candidates, i) == MAX
    ensures !candidates[i].terminal && !candidates[j].terminal
            && !Exploited(formulas, candidates[i]) && !Exploited(formulas, candidates[j]) ==>
              (PriorityOf(formulas, candidates, i) < PriorityOf(formulas, candidates, j) <==>
               RawOf(formulas, candidates[i]).value.value < RawOf(formulas, candidates[j]).value.value)
  {
    hide TagValuesOf, NoHigher, LiveRaws, Percentile, Exploited, RawOf;
    TerminalIsZero(formulas, candidates, i);
    if !candidates[i].terminal {
      var raws := LiveRaws(formulas, candidates);
      var k := LivePercentile(formulas, candidates, i);
      PercentilesSpan(raws, k);
      if !candidates[j].terminal {
        var l := LivePercentile(formulas, candidates, j);
        PercentilesOrder(raws, k, l);
      }
    }
  }
}
