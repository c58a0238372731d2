/** The records of a JSONL task log, and the order an import replays them in. */
module JsonlLog {
  import opened Tasks

  datatype Op = Add | Status | TextEdit | Remove | TagOn | TagOff

  /** One line of a log; an absent field is empty. */
  datatype LogRecord = LogRecord(
    raw: string,
    op: Op,
    task: string,
    text: string,
    status: string,
    trigger: string,
    session: string,
    repairOf: string,
    tags: seq<string>,
    ts: Timestamp)

  /** Each line once: what the replay order leaves of a log. */
  predicate Distinct(records: seq<LogRecord>) {
    forall i, j :: 0 <= i < j < |records| ==> records[i].raw != records[j].raw
  }

  // ----- the order records are replayed in

  predicate NotAfter(a: Timestamp, b: Timestamp) {
    a.seconds < b.seconds || (a.seconds == b.seconds && a.nanos <= b.nanos)
  }

  /** `r` after every record not after it in time: where a stable sort puts the next of a log. */
  function Placed(ordered: seq<LogRecord>, r: LogRecord): seq<LogRecord> {
    if ordered == [] || NotAfter(ordered[|ordered| - 1].ts, r.ts) then ordered + [r]
    else Placed(ordered[..|ordered| - 1], r) + [ordered[|ordered| - 1]]
  }

  /** The records sorted by time, those at one instant in the log's order. */
  function ByTime(records: seq<LogRecord>): seq<LogRecord> {
    if records == [] then [] else Placed(ByTime(records[..|records| - 1]), records[|records| - 1])
  }

  predicate Repeats(records: seq<LogRecord>, raw: string) {
    exists i :: 0 <= i < |records| && records[i].raw == raw
  }

  /** The records whose line repeats no earlier one. */
  function Once(log: seq<LogRecord>): seq<LogRecord> {
    if log == [] then [] else
      var last := |log| - 1;
      Once(log[..last]) + (if Repeats(log[..last], log[last].raw) then [] else [log[last]])
  }

  /** The records at one instant, in order. */
  function At(records: seq<LogRecord>, ts: Timestamp): seq<LogRecord> {
    if records == [] then [] else
      var last := |records| - 1;
      At(records[..last], ts) + (if records[last].ts == ts then [records[last]] else [])
  }

  predicate InTime(records: seq<LogRecord>) {
    forall i, j :: 0 <= i < j < |records| ==> NotAfter(records[i].ts, records[j].ts)
  }

  lemma {:induction false} PlacedHolds(ordered: seq<LogRecord>, r: LogRecord)
    ensures multiset(Placed(ordered, r)) == multiset(ordered) + multiset{r}
  {
    if !(ordered == [] || NotAfter(ordered[|ordered| - 1].ts, r.ts)) {
      PlacedHolds(ordered[..|ordered| - 1], r);
      assert ordered == ordered[..|ordered| - 1] + [ordered[|ordered| - 1]];
    }
  }

  lemma {:induction false} PlacedInTime(ordered: seq<LogRecord>, r: LogRecord)
    requires InTime(ordered)
    ensures InTime(Placed(ordered, r))
  {
    if !(ordered == [] || NotAfter(ordered[|ordered| - 1].ts, r.ts)) {
      var last := |ordered| - 1;
      var placed := Placed(ordered[..last], r);
      PlacedInTime(ordered[..last], r);
      PlacedHolds(ordered[..last], r);
      forall i | 0 <= i < |placed|
        ensures NotAfter(placed[i].ts, ordered[last].ts)
      {
        assert placed[i] in multiset(ordered[..last]) + multiset{r};
      }
    }
  }

  lemma {:induction false} PlacedStable(ordered: seq<LogRecord>, r: LogRecord, ts: Timestamp)
    requires InTime(ordered)
    ensures At(Placed(ordered, r), ts) == At(ordered, ts) + (if r.ts == ts then [r] else [])
  {
    if ordered == [] || NotAfter(ordered[|ordered| - 1].ts, r.ts) {
      assert (ordered + [r])[..|ordered|] == ordered;
    } else {
      var last := |ordered| - 1;
      var placed := Placed(ordered[..last], r);
      PlacedStable(ordered[..last], r, ts);
      assert (placed + [ordered[last]])[..|placed|] == placed;
    }
  }

  lemma PlacedAllStable(ordered: seq<LogRecord>, r: LogRecord)
    requires InTime(ordered)
    ensures forall ts :: At(Placed(ordered, r), ts) == At(ordered, ts) + (if r.ts == ts then [r] else [])
  {
    hide At, Placed, InTime;
    forall ts { PlacedStable(ordered, r, ts); }
  }

  /** The replay order is the log's records in time order, ties as the log has them. */
  lemma {:induction false} ByTimeSorts(records: seq<LogRecord>)
    ensures InTime(ByTime(records)) && multiset(ByTime(records)) == multiset(records)
    ensures forall ts :: At(ByTime(records), ts) == At(records, ts)
  {
    if records != [] {
      hide Placed, InTime;
      var last := |records| - 1;
      ByTimeSorts(records[..last]);
      PlacedHolds(ByTime(records[..last]), records[last]);
      PlacedInTime(ByTime(records[..last]), records[last]);
      PlacedAllStable(ByTime(records[..last]), records[last]);
      assert records == records[..last] + [records[last]];
    } else {
      hide Placed;
    }
  }

  /** Where the lines that repeat no earlier one stand in the log, in its order. */
  function Firsts(log: seq<LogRecord>): (firsts: seq<nat>)
    ensures forall k :: 0 <= k < |firsts| ==> firsts[k] < |log|
  {
    if log == [] then [] else
      var last := |log| - 1;
      Firsts(log[..last]) + (if Repeats(log[..last], log[last].raw) then [] else [last])
  }

  /** Record `i`'s line repeats no earlier one. */
  predicate IsFirst(log: seq<LogRecord>, i: nat) {
    i < |log| && !Repeats(log[..i], log[i].raw)
  }

  lemma {:induction false} FirstsAre(log: seq<LogRecord>)
    ensures forall k, l :: 0 <= k < l < |Firsts(log)| ==> Firsts(log)[k] < Firsts(log)[l]
    ensures forall i: nat :: i in Firsts(log) <==> IsFirst(log, i)
  {
    if log != [] {
      var last := |log| - 1;
      var before := log[..last];
      FirstsAre(before);
      hide Repeats;
      forall i: nat ensures IsFirst(log, i) <==> IsFirst(before, i) || (i == last && !Repeats(before, log[last].raw)) {
        if i < last {
          assert before[..i] == log[..i];
        }
      }
    }
  }

  /** What is left of repeated lines is the first of each, in the log's order. */
  lemma {:induction false} OnceIsFirsts(log: seq<LogRecord>)
    ensures |Once(log)| == |Firsts(log)| && forall k :: 0 <= k < |Firsts(log)| ==> Once(log)[k] == log[Firsts(log)[k]]
    ensures forall k, l :: 0 <= k < l < |Firsts(log)| ==> Firsts(log)[k] < Firsts(log)[l]
    ensures forall i: nat :: i in Firsts(log) <==> IsFirst(log, i)
  {
    FirstsAre(log);
    hide Repeats, IsFirst;
    if log != [] {
      OnceIsFirsts(log[..|log| - 1]);
    }
  }

  lemma {:induction false} OnceIsDistinct(log: seq<LogRecord>)
    ensures Distinct(Once(log)) && |Once(log)| <= |log|
    ensures forall raw :: Repeats(Once(log), raw) <==> Repeats(log, raw)
  {
    if log != [] {
      var last := |log| - 1;
      OnceIsDistinct(log[..last]);
      var before, once := Once(log[..last]), Once(log);
      assert forall i :: 0 <= i < |before| ==> before[i] == once[i];
      assert forall i :: 0 <= i < last ==> log[..last][i] == log[i];
      forall raw
        ensures Repeats(once, raw) <==> Repeats(log, raw)
      {
        assert Repeats(log, raw) <==> Repeats(log[..last], raw) || log[last].raw == raw;
        assert Repeats(once, raw) <==> Repeats(before, raw) || (|once| > |before| && once[|before|].raw == raw);
      }
      if |once| > |before| {
        assert !Repeats(before, log[last].raw);
      }
    }
  }

  lemma {:induction false} PlacedDistinct(ordered: seq<LogRecord>, r: LogRecord)
    requires Distinct(ordered) && !Repeats(ordered, r.raw)
    ensures Distinct(Placed(ordered, r))
    ensures forall raw :: Repeats(Placed(ordered, r), raw) <==> Repeats(ordered, raw) || r.raw == raw
  {
    if !(ordered == [] || NotAfter(ordered[|ordered| - 1].ts, r.ts)) {
      var last := |ordered| - 1;
      PlacedDistinct(ordered[..last], r);
      SplitRepeats(ordered[..last], ordered[last]);
      SplitRepeats(Placed(ordered[..last], r), ordered[last]);
      assert ordered == ordered[..last] + [ordered[last]];
    } else {
      SplitRepeats(ordered, r);
    }
  }

  lemma SplitRepeats(records: seq<LogRecord>, r: LogRecord)
    ensures forall raw :: Repeats(records + [r], raw) <==> Repeats(records, raw) || r.raw == raw
    ensures Distinct(records + [r]) <==> Distinct(records) && !Repeats(records, r.raw)
  {
    var longer := records + [r];
    assert longer[|records|] == r;
    assert forall i :: 0 <= i < |records| ==> longer[i] == records[i];
  }

  lemma {:induction false} ByTimeDistinct(records: seq<LogRecord>)
    requires Distinct(records)
    ensures Distinct(ByTime(records))
    ensures forall raw :: Repeats(ByTime(records), raw) <==> Repeats(records, raw)
  {
    if records != [] {
      var last := |records| - 1;
      ByTimeDistinct(records[..last]);
      assert records == records[..last] + [records[last]];
      SplitRepeats(records[..last], records[last]);
      PlacedDistinct(ByTime(records[..last]), records[last]);
    }
  }

  /** The log sorted and freed of repeats, and the number of repeats dropped. */
  method ReplayOrder(log: seq<LogRecord>) returns (records: seq<LogRecord>, repeated: nat)
    ensures records == ByTime(Once(log)) && Distinct(records)
    ensures |log| == |records| + repeated
  {
    var seen: set<string> := {};
    var once: seq<LogRecord> := [];
    for i := 0 to |log|
      invariant once == Once(log[..i]) && |once| <= i
      invariant forall raw :: raw in seen <==> Repeats(log[..i], raw)
    {
      assert log[..i + 1][..i] == log[..i] && log[..i + 1] == log[..i] + [log[i]];
      SplitRepeats(log[..i], log[i]);
      if log[i].raw !in seen {
        seen := seen + {log[i].raw};
        once := once + [log[i]];
      }
    }
    assert log[..|log|] == log;
    OnceIsDistinct(log);
    ByTimeDistinct(once);
    ByTimeSorts(once);
    records := ByTime(once);
    assert |records| == |multiset(records)| == |once|;
    repeated := |log| - |once|;
  }

  /** An instant, in nanoseconds. */
  function Nanos(ts: Timestamp): int {
    ts.seconds * 1_000_000_000 + ts.nanos
  }

  /** The records are replayed in the order of their instants, to the nanosecond. */
  lemma ReplayedInTime(records: seq<LogRecord>)
    requires forall i :: 0 <= i < |records| ==> 0 <= records[i].ts.nanos < 1_000_000_000
    ensures forall i, j :: 0 <= i < j < |ByTime(records)| ==>
              Nanos(ByTime(records)[i].ts) <= Nanos(ByTime(records)[j].ts)
  {
    ByTimeSorts(records);
    var ordered := ByTime(records);
    forall i | 0 <= i < |ordered| ensures 0 <= ordered[i].ts.nanos < 1_000_000_000 {
      assert ordered[i] in multiset(ordered);
    }
    hide ByTime;
  }
}
