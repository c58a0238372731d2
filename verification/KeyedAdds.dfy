/**
 Adding a task on the first harp none holds. Under a request's key the add probes the
 key's eight harps, after looking on each for the add it sent before, so that however
 often it is retried the task is added once.
 */
module KeyedAdds {
  import opened Wrappers
  import opened Tasks
  import opened TaskStores
  import Text

  const KEYED_PROBES := 8
  const HARP_ATTEMPTS := 100

  /** A request's key: its harps in probe order, and the one command id its adds are sent under. */
  datatype Keyed = Keyed(harps: seq<string>, id: string)

  predicate Probes(keyed: Keyed) {
    |keyed.harps| == KEYED_PROBES
  }

  /** What an add would record, but for its harp. */
  type NewTask = command: TaskCommand | command.AddTask? witness AddTask("", "", None, None, [], None, "", "")

  datatype Refusal =
    | Vanished(harp: string)
    | AddRequestIdCollides
    | HarpsExhausted
    | RejectedAdd(rejection: TaskRejection)

  /**
   Where one attempt under a key stands: `Looking` and `Adding` at a position of the key's
   order, each with the attempt's own add, which what it was called with and the tag rules
   it read have made; two attempts under one key need not carry the same.
   */
  datatype Attempt =
    | Looking(next: nat, add: NewTask)
    | Seen(harp: string)
    | Adding(next: nat, add: NewTask)
    | Answered(harp: string, task: TaskState)
    | Failed(error: Refusal)
    | Crashed

  predicate Active(attempt: Attempt) {
    attempt.Looking? || attempt.Seen? || attempt.Adding?
  }

  /** The attempt answered with the task of `harp` as the store holds it; a stream holding none has vanished. */
  function Answer(store: Store, harp: string): Attempt {
    var task := Replay(StreamOf(store, harp));
    if task.harpId == "" then Failed(Vanished(harp)) else Answered(harp, task)
  }

  /** One probe: the add sent to `harp`, which a task of another's is passed at. */
  function Probed(store: Store, add: NewTask, harp: string, id: string, at: Timestamp, next: nat)
    : (Store, Attempt)
  {
    var (after, handled) := Committed(store, harp, add.(harpId := harp), at, id);
    match handled
    case Duplicate => (after, Seen(harp))
    case Left(_) => (after, Answer(after, harp))
    case Rejected(why) => (after, if why.TaskExists? then Adding(next + 1, add) else Failed(RejectedAdd(why)))
  }

  /** One read or one commit of an attempt. */
  function Advance(keyed: Keyed, store: Store, attempt: Attempt, at: Timestamp): (Store, Attempt)
    requires Probes(keyed)
  {
    match attempt
    case Looking(i, add) =>
      (store, if i >= |keyed.harps| then Adding(0, add)
              else if Found(StreamOf(store, keyed.harps[i]), keyed.id) then Seen(keyed.harps[i])
              else Looking(i + 1, add))
    case Seen(harp) => (store, Answer(store, harp))
    case Adding(i, add) =>
      if i >= |keyed.harps| then (store, Failed(AddRequestIdCollides))
      else Probed(store, add, keyed.harps[i], keyed.id, at, i)
    case _ => (store, attempt)
  }

  // ----- attempts and everyone else, interleaved

  datatype System = System(store: Store, attempts: seq<Attempt>)

  /** What happens next: to the key's attempts, or to the store by someone else's command or prune. */
  datatype Action =
    | Begin(add: NewTask)
    | Go(attempt: nat, at: Timestamp)
    | Crash(attempt: nat)
    | Other(harp: string, command: TaskCommand, at: Timestamp, id: string)
    | Purge(harp: string)

  function Act(keyed: Keyed, s: System, action: Action): System
    requires Probes(keyed)
  {
    match action
    case Begin(add) => s.(attempts := s.attempts + [Looking(0, add)])
    case Go(a, at) =>
      if a >= |s.attempts| then s else
      var (store, attempt) := Advance(keyed, s.store, s.attempts[a], at);
      System(store, s.attempts[a := attempt])
    case Crash(a) =>
      if a < |s.attempts| && Active(s.attempts[a]) then s.(attempts := s.attempts[a := Crashed]) else s
    case Other(harp, command, at, id) =>
      if id == keyed.id then s else s.(store := Committed(s.store, harp, command, at, id).0)
    case Purge(harp) =>
      if Found(StreamOf(s.store, harp), keyed.id) then s else s.(store := s.store - {harp})
  }

  function Run(keyed: Keyed, s: System, actions: seq<Action>): System
    requires Probes(keyed)
  {
    if actions == [] then s else
      var last := |actions| - 1;
      Act(keyed, Run(keyed, s, actions[..last]), actions[last])
  }

  predicate NoPurge(actions: seq<Action>) {
    forall i :: 0 <= i < |actions| ==> !actions[i].Purge?
  }

  predicate NoneActive(attempts: seq<Attempt>) {
    forall i :: 0 <= i < |attempts| ==> !Active(attempts[i])
  }

  /** No attempt begins before the last one has answered, failed or crashed. */
  predicate InTurns(keyed: Keyed, s: System, actions: seq<Action>)
    requires Probes(keyed)
  {
    actions == [] ||
    var last := |actions| - 1;
    InTurns(keyed, s, actions[..last]) &&
    (actions[last].Begin? ==> NoneActive(Run(keyed, s, actions[..last]).attempts))
  }

  // ----- what is claimed

  /** No harp of the key's holds its add yet. */
  predicate Fresh(keyed: Keyed, store: Store) {
    forall h :: 0 <= h < |keyed.harps| ==> !Holds(keyed, store, h)
  }

  predicate Holds(keyed: Keyed, store: Store, h: nat)
    requires h < |keyed.harps|
  {
    Found(StreamOf(store, keyed.harps[h]), keyed.id)
  }

  /** The key's adds, wherever they are, are one event on one harp. */
  ghost predicate AddedOnce(keyed: Keyed, store: Store) {
    forall h, i, g, j ::
      0 <= h < |keyed.harps| && 0 <= g < |keyed.harps| && Caused(keyed, store, h, i) && Caused(keyed, store, g, j) ==>
        keyed.harps[h] == keyed.harps[g] && i == j
  }

  predicate Caused(keyed: Keyed, store: Store, h: nat, i: int)
    requires h < |keyed.harps|
  {
    var stream := StreamOf(store, keyed.harps[h]);
    0 <= i < |stream| && stream[i].cause == keyed.id
  }

  /** The answer is the task the key's add made, and its harp still holds it. */
  predicate Owned(keyed: Keyed, store: Store, harp: string) {
    harp in keyed.harps && Found(StreamOf(store, harp), keyed.id)
  }

  /** Each answer is the key's own task; none found its add and then no task there. */
  predicate AnswersOwn(keyed: Keyed, s: System) {
    forall a :: 0 <= a < |s.attempts| ==>
      match s.attempts[a]
      case Answered(harp, task) => Owned(keyed, s.store, harp) && task.harpId == Text.Trim(harp) != ""
      case Failed(error) => !error.Vanished?
      case Seen(harp) => Owned(keyed, s.store, harp)
      case _ => true
  }

  // ----- what every run keeps

  /** Each of the key's adds opened its stream, which holds the task it added. */
  ghost predicate OwnFirst(keyed: Keyed, store: Store) {
    forall h, i :: 0 <= h < |keyed.harps| && Caused(keyed, store, h, i) ==> Opened(store, keyed.harps[h], i)
  }

  predicate Opened(store: Store, harp: string, i: int) {
    i == 0 && Replay(StreamOf(store, harp)).harpId == Text.Trim(harp) != ""
  }

  /** Each of the first `p` harps holds a task, none the key's own. */
  predicate Passed(keyed: Keyed, store: Store, p: nat) {
    forall j :: 0 <= j < p && j < |keyed.harps| ==> StreamOf(store, keyed.harps[j]) != [] && !Holds(keyed, store, j)
  }

  /** An add landed where every harp before it holds another's task. */
  ghost predicate Landed(keyed: Keyed, store: Store) {
    forall g :: 0 <= g < |keyed.harps| && Holds(keyed, store, g) ==> LandedAt(keyed, store, g)
  }

  ghost predicate LandedAt(keyed: Keyed, store: Store, g: nat)
    requires g < |keyed.harps|
  {
    exists h :: 0 <= h < |keyed.harps| && keyed.harps[h] == keyed.harps[g] && Passed(keyed, store, h)
  }

  /** What a run without purges keeps. */
  ghost predicate Unpurged(keyed: Keyed, s: System) {
    && OwnFirst(keyed, s.store) && AnswersOwn(keyed, s) && Landed(keyed, s.store)
    && forall a :: 0 <= a < |s.attempts| && s.attempts[a].Adding? ==> Passed(keyed, s.store, s.attempts[a].next)
  }

  /** Every harp that holds the key's add is one harp. */
  predicate OneHarp(keyed: Keyed, store: Store) {
    forall h, g :: 0 <= h < |keyed.harps| && 0 <= g < |keyed.harps| && Holds(keyed, store, h) && Holds(keyed, store, g)
      ==> keyed.harps[h] == keyed.harps[g]
  }

  /** What an attempt has found out of the harps it looked at. */
  predicate Looked(keyed: Keyed, store: Store, attempt: Attempt) {
    match attempt
    case Looking(i, _) => forall h :: 0 <= h < i && h < |keyed.harps| ==> !Holds(keyed, store, h)
    case Adding(_, _) => Fresh(keyed, store)
    case _ => true
  }

  /** What a run of attempts in turn keeps. */
  ghost predicate OneByOne(keyed: Keyed, s: System) {
    && OwnFirst(keyed, s.store) && AnswersOwn(keyed, s) && OneHarp(keyed, s.store)
    && (forall a, b :: 0 <= a < b < |s.attempts| ==> !(Active(s.attempts[a]) && Active(s.attempts[b])))
    && forall a :: 0 <= a < |s.attempts| ==> Looked(keyed, s.store, s.attempts[a])
  }

  // ----- one step of the store

  /** No stream lost the key's add, gained it, or was emptied. */
  predicate Grew(keyed: Keyed, store: Store, store': Store) {
    forall h :: 0 <= h < |keyed.harps| ==> GrewAt(keyed, store, store', h)
  }

  predicate GrewAt(keyed: Keyed, store: Store, store': Store, h: nat)
    requires h < |keyed.harps|
  {
    && (Holds(keyed, store, h) <==> Holds(keyed, store', h))
    && (StreamOf(store, keyed.harps[h]) != [] ==> StreamOf(store', keyed.harps[h]) != [])
  }

  lemma DecidedKeepsHarp(stream: Stream, command: TaskCommand, at: Timestamp)
    requires stream != []
    ensures var decided := Decide(Replay(stream), true, command);
            decided.Success? && decided.value.Some? ==>
              Apply(Replay(stream), decided.value.value, at).harpId == Replay(stream).harpId
  {
    hide Changed, RetaggedTags, AddedFields, Replay, RequiredText;
  }

  lemma FoundGrown(stream: Stream, recorded: Recorded, id: string)
    ensures Found(stream + [recorded], id) <==> Found(stream, id) || recorded.cause == id
    ensures Replay(stream + [recorded]) == Apply(Replay(stream), recorded.event, recorded.at)
    ensures Replay([]) == NoTask
  {
    var grown := stream + [recorded];
    assert grown[..|grown| - 1] == stream;
    assert grown[|stream|] == recorded;
    assert forall i :: 0 <= i < |stream| ==> grown[i] == stream[i];
    hide Apply;
  }

  lemma OtherKeeps(keyed: Keyed, store: Store, harp: string, command: TaskCommand, at: Timestamp, id: string)
    requires id != keyed.id && OwnFirst(keyed, store)
    ensures var store' := Committed(store, harp, command, at, id).0;
            OwnFirst(keyed, store') && Grew(keyed, store, store')
  {
    hide Decide, Replay, Apply, Found;
    var store' := Committed(store, harp, command, at, id).0;
    var stream := StreamOf(store, harp);
    if store' != store {
      var event := Decide(Replay(stream), stream != [], command).value.value;
      FoundGrown(stream, Recorded(event, at, id), keyed.id);
      forall h, i | 0 <= h < |keyed.harps| && Caused(keyed, store', h, i)
        ensures Opened(store', keyed.harps[h], i)
      {
        assert Caused(keyed, store, h, i) && Opened(store, keyed.harps[h], i);
        if keyed.harps[h] == harp {
          DecidedKeepsHarp(stream, command, at);
        }
      }
      forall h | 0 <= h < |keyed.harps| ensures GrewAt(keyed, store, store', h) {
      }
    }
  }

  lemma PurgeKeeps(keyed: Keyed, store: Store, harp: string)
    requires !Found(StreamOf(store, harp), keyed.id) && OwnFirst(keyed, store)
    ensures OwnFirst(keyed, store - {harp})
    ensures forall h :: 0 <= h < |keyed.harps| ==> (Holds(keyed, store - {harp}, h) <==> Holds(keyed, store, h))
  {
    hide Replay;
    forall h, i | 0 <= h < |keyed.harps| && Caused(keyed, store - {harp}, h, i)
      ensures Opened(store - {harp}, keyed.harps[h], i)
    {
      assert Caused(keyed, store, h, i) && Opened(store, keyed.harps[h], i);
    }
  }

  /** What an add landing on the empty harp at `p` makes of the store. */
  ghost predicate Lands(keyed: Keyed, store: Store, store': Store, p: nat)
    requires p < |keyed.harps|
  {
    && StreamOf(store, keyed.harps[p]) == []
    && exists own: Recorded :: store' == store[keyed.harps[p] := [own]] && own.cause == keyed.id
                               && Replay([own]).harpId == Text.Trim(keyed.harps[p]) != ""
  }

  lemma LandingHolds(keyed: Keyed, store: Store, store': Store, p: nat)
    requires p < |keyed.harps| && Lands(keyed, store, store', p) && OwnFirst(keyed, store)
    ensures OwnFirst(keyed, store')
    ensures forall h :: 0 <= h < |keyed.harps| ==>
              (Holds(keyed, store', h) <==> Holds(keyed, store, h) || keyed.harps[h] == keyed.harps[p])
    ensures forall h :: 0 <= h < |keyed.harps| && StreamOf(store, keyed.harps[h]) != [] ==>
              StreamOf(store', keyed.harps[h]) == StreamOf(store, keyed.harps[h])
  {
    hide Replay;
    var own: Recorded :| store' == store[keyed.harps[p] := [own]] && own.cause == keyed.id
                         && Replay([own]).harpId == Text.Trim(keyed.harps[p]) != "";
    assert StreamOf(store', keyed.harps[p])[0].cause == keyed.id;
    forall h, i | 0 <= h < |keyed.harps| && Caused(keyed, store', h, i)
      ensures Opened(store', keyed.harps[h], i)
    {
      if keyed.harps[h] != keyed.harps[p] {
        assert Caused(keyed, store, h, i) && Opened(store, keyed.harps[h], i);
      }
    }
  }

  /** An add on a stream without history records the task of its harp, or is refused for what it carries. */
  lemma AddDecided(add: NewTask, at: Timestamp)
    ensures var decided := Decide(NoTask, false, add);
            match decided
            case Failure(error) => !error.TaskExists?
            case Success(event) => event.Some? && Apply(NoTask, event.value, at).harpId == Text.Trim(add.harpId) != ""
  {
    hide Text.Trim, Normalized;
  }

  lemma ProbeHeld(store: Store, add: NewTask, harp: string, id: string, at: Timestamp, next: nat)
    requires StreamOf(store, harp) != []
    ensures Probed(store, add, harp, id, at, next) ==
            (store, if Found(StreamOf(store, harp), id) then Seen(harp) else Adding(next + 1, add))
  {
    hide AddedFields, Replay, Found;
  }

  /** A probe of a harp no task holds adds on it, answered with that task; refused, it changes nothing. */
  lemma ProbeEmpty(keyed: Keyed, add: NewTask, store: Store, p: nat, at: Timestamp)
    requires p < |keyed.harps| && StreamOf(store, keyed.harps[p]) == []
    ensures var (store', attempt) := Probed(store, add, keyed.harps[p], keyed.id, at, p);
            if store' == store then attempt.Failed? && attempt.error.RejectedAdd? else
              && Lands(keyed, store, store', p)
              && attempt == Answered(keyed.harps[p], Replay(StreamOf(store', keyed.harps[p])))
              && attempt.task.harpId == Text.Trim(keyed.harps[p]) != ""
  {
    hide Decide, Apply, Replay, Text.Trim;
    var harp := keyed.harps[p];
    AddDecided(add.(harpId := harp), at);
    var decided := Decide(NoTask, false, add.(harpId := harp));
    assert Replay([]) == NoTask by { FoundGrown([], Recorded(TextEdited(""), at, ""), ""); }
    if decided.Success? {
      var own := Recorded(decided.value.value, at, keyed.id);
      FoundGrown([], own, keyed.id);
      assert [] + [own] == [own];
      assert StreamOf(store[harp := [own]], harp) == [own];
      assert Probed(store, add, harp, keyed.id, at, p).0 == store[harp := [own]];
    }
  }

  /** What `Advance` can do to an attempt and the store, case by case. */
  lemma AdvanceCases(keyed: Keyed, store: Store, attempt: Attempt, at: Timestamp)
    requires Probes(keyed)
    ensures var (store', next) := Advance(keyed, store, attempt, at);
            if store' == store then
              (attempt.Adding? && next.Adding? ==>
                 next.next == attempt.next + 1 && attempt.next < |keyed.harps| && !Holds(keyed, store, attempt.next)
                 && StreamOf(store, keyed.harps[attempt.next]) != [])
              && (attempt.Adding? ==> !next.Looking? && !next.Answered? && (next.Failed? ==> !next.error.Vanished?))
              && (attempt.Adding? && next.Seen? ==> Owned(keyed, store, next.harp))
            else
              attempt.Adding? && attempt.next < |keyed.harps| && Lands(keyed, store, store', attempt.next)
              && next.Answered? && next.harp == keyed.harps[attempt.next]
              && next.task.harpId == Text.Trim(next.harp) != ""
  {
    hide Probed, Replay, Found;
    if attempt.Adding? && attempt.next < |keyed.harps| {
      if StreamOf(store, keyed.harps[attempt.next]) == [] {
        ProbeEmpty(keyed, attempt.add, store, attempt.next, at);
      } else {
        ProbeHeld(store, attempt.add, keyed.harps[attempt.next], keyed.id, at, attempt.next);
      }
    }
  }

  // ----- runs without purges

  /** Streams that only grew keep every claim an attempt rests on. */
  lemma GrewKeeps(keyed: Keyed, s: System, store': Store)
    requires Grew(keyed, s.store, store') && Unpurged(keyed, s) && OwnFirst(keyed, store')
    ensures Unpurged(keyed, s.(store := store'))
  {
    hide Found, OwnFirst;
    assert forall h :: 0 <= h < |keyed.harps| ==> GrewAt(keyed, s.store, store', h);
    forall p: nat | Passed(keyed, s.store, p) ensures Passed(keyed, store', p) {
      forall j | 0 <= j < p && j < |keyed.harps|
        ensures StreamOf(store', keyed.harps[j]) != [] && !Holds(keyed, store', j)
      {
        assert GrewAt(keyed, s.store, store', j);
      }
    }
    forall g | 0 <= g < |keyed.harps| && Holds(keyed, store', g) ensures LandedAt(keyed, store', g) {
      assert GrewAt(keyed, s.store, store', g) && LandedAt(keyed, s.store, g);
    }
    forall harp | Owned(keyed, s.store, harp) ensures Owned(keyed, store', harp) {
      var h :| 0 <= h < |keyed.harps| && keyed.harps[h] == harp;
      assert GrewAt(keyed, s.store, store', h) && Holds(keyed, s.store, h);
    }
  }

  /** The harps two landings passed leave them one harp. */
  lemma LandedOnce(keyed: Keyed, store: Store)
    requires OwnFirst(keyed, store) && Landed(keyed, store)
    ensures OneHarp(keyed, store)
  {
    hide Found, OwnFirst;
    forall h, g | 0 <= h < |keyed.harps| && 0 <= g < |keyed.harps| && Holds(keyed, store, h) && Holds(keyed, store, g)
      ensures keyed.harps[h] == keyed.harps[g]
    {
      assert LandedAt(keyed, store, h) && LandedAt(keyed, store, g);
      var k :| 0 <= k < |keyed.harps| && keyed.harps[k] == keyed.harps[h] && Passed(keyed, store, k);
      var l :| 0 <= l < |keyed.harps| && keyed.harps[l] == keyed.harps[g] && Passed(keyed, store, l);
      assert Holds(keyed, store, k) && Holds(keyed, store, l);
    }
  }

  lemma OneHarpAddedOnce(keyed: Keyed, store: Store)
    requires OwnFirst(keyed, store) && OneHarp(keyed, store)
    ensures AddedOnce(keyed, store)
  {
    hide Replay;
    forall h, i, g, j | 0 <= h < |keyed.harps| && 0 <= g < |keyed.harps| && Caused(keyed, store, h, i)
                        && Caused(keyed, store, g, j)
      ensures keyed.harps[h] == keyed.harps[g] && i == j
    {
      assert Holds(keyed, store, h) && Holds(keyed, store, g);
      assert Opened(store, keyed.harps[h], i) && Opened(store, keyed.harps[g], j);
    }
  }

  lemma LandedBefore(keyed: Keyed, store: Store, g: nat, p: nat)
    requires p < |keyed.harps| && Passed(keyed, store, p)
    requires g < |keyed.harps| && Holds(keyed, store, g) && LandedAt(keyed, store, g)
    ensures StreamOf(store, keyed.harps[p]) != []
  {
    var h :| 0 <= h < |keyed.harps| && keyed.harps[h] == keyed.harps[g] && Passed(keyed, store, h);
    assert Holds(keyed, store, h);
  }

  /** Nothing of the key's is on any harp while one after only passed ones is empty. */
  lemma LandsFirst(keyed: Keyed, store: Store, p: nat)
    requires Landed(keyed, store) && p < |keyed.harps| && Passed(keyed, store, p)
    ensures StreamOf(store, keyed.harps[p]) == [] ==> Fresh(keyed, store)
  {
    forall g | 0 <= g < |keyed.harps| && Holds(keyed, store, g) ensures StreamOf(store, keyed.harps[p]) != [] {
      LandedBefore(keyed, store, g, p);
    }
  }

  lemma LandingKeepsUnpurged(keyed: Keyed, s: System, store': Store, a: nat, answer: Attempt)
    requires Probes(keyed) && Unpurged(keyed, s) && a < |s.attempts| && s.attempts[a].Adding?
    requires s.attempts[a].next < |keyed.harps| && Lands(keyed, s.store, store', s.attempts[a].next)
    requires answer.Answered? && answer.harp == keyed.harps[s.attempts[a].next]
    requires answer.task.harpId == Text.Trim(answer.harp) != ""
    ensures Unpurged(keyed, System(store', s.attempts[a := answer]))
  {
    var p := s.attempts[a].next;
    hide OwnFirst, Found;
    LandsFirst(keyed, s.store, p);
    LandingHolds(keyed, s.store, store', p);
    var s' := System(store', s.attempts[a := answer]);
    assert Holds(keyed, store', p);
    assert Passed(keyed, store', p);
    forall g | 0 <= g < |keyed.harps| && Holds(keyed, store', g) ensures LandedAt(keyed, store', g) {
    }
    forall b | 0 <= b < |s'.attempts| && s'.attempts[b].Adding?
      ensures Passed(keyed, store', s'.attempts[b].next)
    {
      assert s.attempts[b].Adding? && Passed(keyed, s.store, s.attempts[b].next);
      assert !(p < s.attempts[b].next);
    }
  }

  lemma GoKeepsUnpurged(keyed: Keyed, s: System, a: nat, at: Timestamp)
    requires Probes(keyed) && Unpurged(keyed, s) && a < |s.attempts|
    ensures Unpurged(keyed, Act(keyed, s, Go(a, at)))
  {
    hide Replay, Found, Probed, Landed, OwnFirst;
    AdvanceCases(keyed, s.store, s.attempts[a], at);
    var (store', next) := Advance(keyed, s.store, s.attempts[a], at);
    if store' != s.store {
      LandingKeepsUnpurged(keyed, s, store', a, next);
    } else if s.attempts[a].Seen? {
      SeenAnswers(keyed, s, a);
    }
  }

  /** An attempt that saw the key's add on a harp answers with the task there. */
  lemma SeenAnswers(keyed: Keyed, s: System, a: nat)
    requires OwnFirst(keyed, s.store) && AnswersOwn(keyed, s) && a < |s.attempts| && s.attempts[a].Seen?
    ensures var harp := s.attempts[a].harp;
            Answer(s.store, harp) == Answered(harp, Replay(StreamOf(s.store, harp)))
            && Owned(keyed, s.store, harp)
            && Replay(StreamOf(s.store, harp)).harpId == Text.Trim(harp) != ""
  {
    hide Replay;
    var harp := s.attempts[a].harp;
    assert Owned(keyed, s.store, harp);
    var h :| 0 <= h < |keyed.harps| && keyed.harps[h] == harp;
    var i :| 0 <= i < |StreamOf(s.store, harp)| && StreamOf(s.store, harp)[i].cause == keyed.id;
    assert Caused(keyed, s.store, h, i) && Opened(s.store, keyed.harps[h], i);
  }

  lemma ActKeepsUnpurged(keyed: Keyed, s: System, action: Action)
    requires Probes(keyed) && Unpurged(keyed, s) && !action.Purge?
    ensures Unpurged(keyed, Act(keyed, s, action))
  {
    hide Replay, Found, Landed, OwnFirst, Advance, Committed;
    match action
    case Go(a, at) =>
      if a < |s.attempts| {
        GoKeepsUnpurged(keyed, s, a, at);
      }
    case Other(harp, command, at, id) =>
      if id != keyed.id {
        OtherKeeps(keyed, s.store, harp, command, at, id);
        GrewKeeps(keyed, s, Committed(s.store, harp, command, at, id).0);
      }
    case _ =>
  }

  /** The attempts that answered, answered with one task. */
  predicate OneAnswer(attempts: seq<Attempt>) {
    forall a, b :: 0 <= a < |attempts| && 0 <= b < |attempts| && attempts[a].Answered? && attempts[b].Answered? ==>
      attempts[a].harp == attempts[b].harp && attempts[a].task.harpId == attempts[b].task.harpId
  }

  lemma OneHarpOneAnswer(keyed: Keyed, s: System)
    requires AnswersOwn(keyed, s) && OneHarp(keyed, s.store)
    ensures OneAnswer(s.attempts)
  {
    hide Found;
    forall a, b | 0 <= a < |s.attempts| && 0 <= b < |s.attempts| && s.attempts[a].Answered? && s.attempts[b].Answered?
      ensures s.attempts[a].harp == s.attempts[b].harp && s.attempts[a].task.harpId == s.attempts[b].task.harpId
    {
      assert Owned(keyed, s.store, s.attempts[a].harp) && Owned(keyed, s.store, s.attempts[b].harp);
      var h :| 0 <= h < |keyed.harps| && keyed.harps[h] == s.attempts[a].harp;
      var g :| 0 <= g < |keyed.harps| && keyed.harps[g] == s.attempts[b].harp;
      assert Holds(keyed, s.store, h) && Holds(keyed, s.store, g);
    }
  }

  lemma {:induction false} RunKeepsUnpurged(keyed: Keyed, s: System, actions: seq<Action>)
    requires Probes(keyed) && Unpurged(keyed, s) && NoPurge(actions)
    ensures Unpurged(keyed, Run(keyed, s, actions))
  {
    if actions != [] {
      hide Act, Unpurged;
      var last := |actions| - 1;
      RunKeepsUnpurged(keyed, s, actions[..last]);
      ActKeepsUnpurged(keyed, Run(keyed, s, actions[..last]), actions[last]);
    }
  }

  /**
   Whatever each of the key's attempts carries, however they interleave with each other
   and with everyone else's commands, and wherever they crash: with no purges its add is
   one event on one harp, and every attempt that answers answers with the task it made.
   */
  lemma UnpurgedRunAddsOnce(keyed: Keyed, store: Store, actions: seq<Action>)
    requires Probes(keyed) && Fresh(keyed, store) && NoPurge(actions)
    ensures var s := Run(keyed, System(store, []), actions);
            AddedOnce(keyed, s.store) && AnswersOwn(keyed, s) && OneAnswer(s.attempts)
  {
    assert Unpurged(keyed, System(store, [])) by { FreshIsFirst(keyed, store); }
    RunKeepsUnpurged(keyed, System(store, []), actions);
    var s := Run(keyed, System(store, []), actions);
    hide Run, OwnFirst, Found, AnswersOwn;
    LandedOnce(keyed, s.store);
    OneHarpAddedOnce(keyed, s.store);
    OneHarpOneAnswer(keyed, s);
  }

  lemma FreshIsFirst(keyed: Keyed, store: Store)
    requires Fresh(keyed, store)
    ensures OwnFirst(keyed, store)
  {
    forall h, i | 0 <= h < |keyed.harps| ensures !Caused(keyed, store, h, i) {
      assert !Holds(keyed, store, h);
    }
  }

  // ----- attempts in turn, with purges

  lemma GoKeepsOneByOne(keyed: Keyed, s: System, a: nat, at: Timestamp)
    requires Probes(keyed) && OneByOne(keyed, s) && a < |s.attempts|
    ensures OneByOne(keyed, Act(keyed, s, Go(a, at)))
  {
    hide Replay, Found, Probed, OwnFirst;
    AdvanceCases(keyed, s.store, s.attempts[a], at);
    var (store', next) := Advance(keyed, s.store, s.attempts[a], at);
    if store' != s.store {
      LandingHolds(keyed, s.store, store', s.attempts[a].next);
      assert Holds(keyed, store', s.attempts[a].next);
    } else if s.attempts[a].Seen? {
      SeenAnswers(keyed, s, a);
    }
  }

  /** What keeps every harp's hold on the key's add, or its lack of it, keeps what attempts found out. */
  lemma HeldAlikeKeeps(keyed: Keyed, s: System, store': Store)
    requires OneByOne(keyed, s) && OwnFirst(keyed, store')
    requires forall h :: 0 <= h < |keyed.harps| ==> (Holds(keyed, store', h) <==> Holds(keyed, s.store, h))
    ensures OneByOne(keyed, s.(store := store'))
  {
    hide Found, OwnFirst;
    forall harp | Owned(keyed, s.store, harp) ensures Owned(keyed, store', harp) {
      var h :| 0 <= h < |keyed.harps| && keyed.harps[h] == harp;
      assert Holds(keyed, s.store, h);
    }
    forall a | 0 <= a < |s.attempts| ensures Looked(keyed, store', s.attempts[a]) {
      assert Looked(keyed, s.store, s.attempts[a]);
    }
  }

  lemma ActKeepsOneByOne(keyed: Keyed, s: System, action: Action)
    requires Probes(keyed) && OneByOne(keyed, s) && (action.Begin? ==> NoneActive(s.attempts))
    ensures OneByOne(keyed, Act(keyed, s, action))
  {
    hide Replay, Found, OwnFirst, Advance, Committed;
    match action
    case Go(a, at) =>
      if a < |s.attempts| {
        GoKeepsOneByOne(keyed, s, a, at);
      }
    case Other(harp, command, at, id) =>
      if id != keyed.id {
        OtherKeeps(keyed, s.store, harp, command, at, id);
        var store' := Committed(s.store, harp, command, at, id).0;
        forall h | 0 <= h < |keyed.harps| ensures Holds(keyed, store', h) <==> Holds(keyed, s.store, h) {
          assert GrewAt(keyed, s.store, store', h);
        }
        HeldAlikeKeeps(keyed, s, store');
      }
    case Purge(harp) =>
      if !Found(StreamOf(s.store, harp), keyed.id) {
        PurgeKeeps(keyed, s.store, harp);
        HeldAlikeKeeps(keyed, s, s.store - {harp});
      }
    case _ =>
  }

  lemma {:induction false} RunKeepsOneByOne(keyed: Keyed, s: System, actions: seq<Action>)
    requires Probes(keyed) && OneByOne(keyed, s) && InTurns(keyed, s, actions)
    ensures OneByOne(keyed, Run(keyed, s, actions))
  {
    if actions != [] {
      hide Act, OneByOne;
      var last := |actions| - 1;
      RunKeepsOneByOne(keyed, s, actions[..last]);
      ActKeepsOneByOne(keyed, Run(keyed, s, actions[..last]), actions[last]);
    }
  }

  /**
   With other tasks purged at any time too, the same holds as long as attempts under the
   key take turns, each begun after the last answered, failed or crashed.
   */
  lemma TurnsAddOnce(keyed: Keyed, store: Store, actions: seq<Action>)
    requires Probes(keyed) && Fresh(keyed, store) && InTurns(keyed, System(store, []), actions)
    ensures var s := Run(keyed, System(store, []), actions);
            AddedOnce(keyed, s.store) && AnswersOwn(keyed, s) && OneAnswer(s.attempts)
  {
    assert OneByOne(keyed, System(store, [])) by { FreshIsFirst(keyed, store); }
    RunKeepsOneByOne(keyed, System(store, []), actions);
    var s := Run(keyed, System(store, []), actions);
    hide Run, OwnFirst, Found, AnswersOwn, OneHarp, InTurns;
    OneHarpAddedOnce(keyed, s.store);
    OneHarpOneAnswer(keyed, s);
  }

  // ----- why attempts must take turns beside purges

  function Gos(a: nat, at: Timestamp, n: nat): seq<Action> {
    if n == 0 then [] else Gos(a, at, n - 1) + [Go(a, at)]
  }

  lemma RunThen(keyed: Keyed, s: System, actions: seq<Action>, action: Action)
    requires Probes(keyed)
    ensures Run(keyed, s, actions + [action]) == Act(keyed, Run(keyed, s, actions), action)
  {
    assert (actions + [action])[..|actions|] == actions;
    hide Act;
  }

  lemma {:induction false} RunOnThrough(keyed: Keyed, s: System, actions: seq<Action>, a: nat, at: Timestamp, n: nat)
    requires Probes(keyed) && n <= |keyed.harps| + 1
    requires var looking := Run(keyed, s, actions);
             && Fresh(keyed, looking.store) && a < |looking.attempts|
             && looking.attempts[a].Looking? && looking.attempts[a].next == 0
    ensures var looking := Run(keyed, s, actions);
            Run(keyed, s, actions + Gos(a, at, n)) ==
              (var add := looking.attempts[a].add;
               looking.(attempts := looking.attempts[a := if n <= |keyed.harps| then Looking(n, add) else Adding(0, add)]))
  {
    hide Run, Probed;
    if n == 0 {
      assert actions + [] == actions;
    } else {
      RunOnThrough(keyed, s, actions, a, at, n - 1);
      assert actions + Gos(a, at, n) == (actions + Gos(a, at, n - 1)) + [Go(a, at)];
      RunThen(keyed, s, actions + Gos(a, at, n - 1), Go(a, at));
      if n <= |keyed.harps| {
        assert !Holds(keyed, Run(keyed, s, actions).store, n - 1);
      }
    }
  }

  /** Two attempts that have both looked through the harps before either adds. */
  function BothLooked(adds: (NewTask, NewTask), at: Timestamp): seq<Action> {
    [Begin(adds.0), Begin(adds.1)] + Gos(0, at, KEYED_PROBES + 1) + Gos(1, at, KEYED_PROBES + 1)
  }

  /** The first passes another's task and adds; that task is purged; the second adds where it was. */
  function PurgedBetween(keyed: Keyed, adds: (NewTask, NewTask), at: Timestamp): seq<Action>
    requires Probes(keyed)
  {
    BothLooked(adds, at) + [Go(0, at)] + [Go(0, at)] + [Purge(keyed.harps[0])] + [Go(1, at)]
  }

  function BothAdding(adds: (NewTask, NewTask), store: Store): System {
    System(store, [Adding(0, adds.0), Adding(0, adds.1)])
  }

  lemma BothLookedRuns(keyed: Keyed, adds: (NewTask, NewTask), store: Store, at: Timestamp)
    requires Probes(keyed) && Fresh(keyed, store)
    ensures Run(keyed, System(store, []), BothLooked(adds, at)) == BothAdding(adds, store)
  {
    hide Run, Probed;
    var start := System(store, []);
    assert Run(keyed, start, []) == start by { RunNone(keyed, start); }
    var (first, second) := (Begin(adds.0), Begin(adds.1));
    RunThen(keyed, start, [], first);
    RunThen(keyed, start, [first], second);
    assert [] + [first] == [first] && [first] + [second] == [first, second];
    RunOnThrough(keyed, start, [first, second], 0, at, KEYED_PROBES + 1);
    RunOnThrough(keyed, start, [first, second] + Gos(0, at, KEYED_PROBES + 1), 1, at, KEYED_PROBES + 1);
  }

  lemma RunNone(keyed: Keyed, s: System)
    requires Probes(keyed)
    ensures Run(keyed, s, []) == s
  {
  }

  /** A probe of an empty harp with an add its rules accept lands. */
  lemma ProbeLands(keyed: Keyed, add: NewTask, store: Store, p: nat, at: Timestamp)
    requires p < |keyed.harps| && StreamOf(store, keyed.harps[p]) == []
    ensures Probed(store, add, keyed.harps[p], keyed.id, at, p).0 != store <==>
              Check(add).Success? && Text.Trim(keyed.harps[p]) != ""
  {
    hide RequiredText, ResolvedStatuses, ValidStatus, Present, Replay, Apply, Normalized;
    var harp := keyed.harps[p];
    var sent := add.(harpId := harp);
    assert AddedFields(sent) == AddedFields(add);
    assert StreamOf(store, harp) == [] && Replay([]) == NoTask by {
      FoundGrown([], Recorded(TextEdited(""), at, ""), "");
    }
    var decided := Decide(NoTask, false, sent);
    if decided.Success? {
      assert StreamOf(store[harp := [Recorded(decided.value.value, at, keyed.id)]], harp) != [];
      assert [] + [Recorded(decided.value.value, at, keyed.id)] == [Recorded(decided.value.value, at, keyed.id)];
    }
  }

  lemma GoLands(keyed: Keyed, s: System, a: nat, at: Timestamp)
    requires Probes(keyed) && OwnFirst(keyed, s.store) && a < |s.attempts| && s.attempts[a].Adding?
    requires var p := s.attempts[a].next;
             && p < |keyed.harps| && StreamOf(s.store, keyed.harps[p]) == []
             && Check(s.attempts[a].add).Success? && Text.Trim(keyed.harps[p]) != ""
    ensures var (p, s') := (s.attempts[a].next, Act(keyed, s, Go(a, at)));
            && OwnFirst(keyed, s'.store) && Holds(keyed, s'.store, p) && |s'.attempts| == |s.attempts|
            && (forall b :: 0 <= b < |s.attempts| && b != a ==> s'.attempts[b] == s.attempts[b])
            && (forall h :: 0 <= h < |keyed.harps| && keyed.harps[h] != keyed.harps[p] ==>
                  (Holds(keyed, s'.store, h) <==> Holds(keyed, s.store, h)))
  {
    hide Probed, Check, Found, OwnFirst;
    var p := s.attempts[a].next;
    var add := s.attempts[a].add;
    ProbeLands(keyed, add, s.store, p, at);
    ProbeEmpty(keyed, add, s.store, p, at);
    LandingHolds(keyed, s.store, Probed(s.store, add, keyed.harps[p], keyed.id, at, p).0, p);
  }

  lemma GoPasses(keyed: Keyed, s: System, a: nat, at: Timestamp)
    requires Probes(keyed) && a < |s.attempts| && s.attempts[a].Adding? && s.attempts[a].next < |keyed.harps|
    requires StreamOf(s.store, keyed.harps[s.attempts[a].next]) != [] && !Holds(keyed, s.store, s.attempts[a].next)
    ensures Act(keyed, s, Go(a, at)) == s.(attempts := s.attempts[a := Adding(s.attempts[a].next + 1, s.attempts[a].add)])
  {
    hide Probed, Found;
    ProbeHeld(s.store, s.attempts[a].add, keyed.harps[s.attempts[a].next], keyed.id, at, s.attempts[a].next);
  }

  /** Overlapping attempts can add twice once a task between them is purged. */
  lemma PurgeBetweenAddsTwice(keyed: Keyed, adds: (NewTask, NewTask), store: Store, at: Timestamp)
    requires Probes(keyed) && Fresh(keyed, store) && keyed.harps[0] != keyed.harps[1]
    requires StreamOf(store, keyed.harps[0]) != [] && StreamOf(store, keyed.harps[1]) == []
    requires Check(adds.0).Success? && Check(adds.1).Success?
    requires Text.Trim(keyed.harps[0]) != "" && Text.Trim(keyed.harps[1]) != ""
    ensures !AddedOnce(keyed, Run(keyed, System(store, []), PurgedBetween(keyed, adds, at)).store)
  {
    hide Run, Act, Check, OwnFirst, AddedOnce;
    var start, looked := System(store, []), BothLooked(adds, at);
    BothLookedRuns(keyed, adds, store, at);
    FreshIsFirst(keyed, store);
    RunThen(keyed, start, looked, Go(0, at));
    assert !Holds(keyed, store, 0) && !Holds(keyed, store, 1);
    GoPasses(keyed, BothAdding(adds, store), 0, at);
    var passed := System(store, [Adding(1, adds.0), Adding(0, adds.1)]);
    RunThen(keyed, start, looked + [Go(0, at)], Go(0, at));
    GoLands(keyed, passed, 0, at);
    var landed := Act(keyed, passed, Go(0, at));
    RunThen(keyed, start, looked + [Go(0, at)] + [Go(0, at)], Purge(keyed.harps[0]));
    PurgeKeeps(keyed, landed.store, keyed.harps[0]);
    var purged := landed.(store := landed.store - {keyed.harps[0]});
    assert Act(keyed, landed, Purge(keyed.harps[0])) == purged by { PurgeActs(keyed, landed); }
    RunThen(keyed, start, looked + [Go(0, at)] + [Go(0, at)] + [Purge(keyed.harps[0])], Go(1, at));
    GoLands(keyed, purged, 1, at);
    assert Holds(keyed, landed.store, 1) && Holds(keyed, purged.store, 1);
    HeldTwice(keyed, Act(keyed, purged, Go(1, at)).store);
    var both := BothAdding(adds, store);
    assert both.(attempts := both.attempts[0 := Adding(1, adds.0)]) == passed;
    assert PurgedBetween(keyed, adds, at) ==
           looked + [Go(0, at)] + [Go(0, at)] + [Purge(keyed.harps[0])] + [Go(1, at)];
  }

  lemma PurgeActs(keyed: Keyed, s: System)
    requires Probes(keyed) && !Holds(keyed, s.store, 0)
    ensures Act(keyed, s, Purge(keyed.harps[0])) == s.(store := s.store - {keyed.harps[0]})
  {
    hide Found;
  }

  lemma HeldTwice(keyed: Keyed, store: Store)
    requires Probes(keyed) && keyed.harps[0] != keyed.harps[1] && Holds(keyed, store, 0) && Holds(keyed, store, 1)
    ensures !AddedOnce(keyed, store)
  {
    var zero, one := StreamOf(store, keyed.harps[0]), StreamOf(store, keyed.harps[1]);
    var i :| 0 <= i < |zero| && zero[i].cause == keyed.id;
    var j :| 0 <= j < |one| && one[j].cause == keyed.id;
    assert Caused(keyed, store, 0, i) && Caused(keyed, store, 1, j);
  }

  // ----- one call, alone

  function StepsLeft(attempt: Attempt): nat {
    match attempt
    case Looking(i, _) => 2 * KEYED_PROBES + if i < KEYED_PROBES then KEYED_PROBES - i else 0
    case Adding(i, _) => 2 + if i < KEYED_PROBES then KEYED_PROBES - i else 0
    case Seen(_) => 1
    case _ => 0
  }

  /** An attempt run to its end with nothing between its steps. */
  function Alone(keyed: Keyed, store: Store, attempt: Attempt, at: Timestamp): (Store, Attempt)
    requires Probes(keyed)
    decreases StepsLeft(attempt)
  {
    if !Active(attempt) then (store, attempt) else
    var (store', next) := Advance(keyed, store, attempt, at);
    AdvanceGoesOn(keyed, store, attempt, at);
    Alone(keyed, store', next, at)
  }

  lemma AdvanceGoesOn(keyed: Keyed, store: Store, attempt: Attempt, at: Timestamp)
    requires Probes(keyed) && Active(attempt)
    ensures StepsLeft(Advance(keyed, store, attempt, at).1) < StepsLeft(attempt)
  {
    hide Decide, Replay, Found;
  }

  /** The first harp from `p` on that holds the key's add; past the last when none does. */
  function FirstOwn(keyed: Keyed, store: Store, p: nat): (h: nat)
    requires p <= |keyed.harps|
    ensures p <= h <= |keyed.harps| && (h < |keyed.harps| ==> Holds(keyed, store, h))
    ensures forall j :: p <= j < h ==> !Holds(keyed, store, j)
    decreases |keyed.harps| - p
  {
    if p == |keyed.harps| || Holds(keyed, store, p) then p else FirstOwn(keyed, store, p + 1)
  }

  /** A harp an add may land on, under a command id. */
  datatype Probe = Probe(harp: string, id: string)

  /** The first probe from `p` on whose stream is empty, or holds its command's event already. */
  function FirstOpen(probes: seq<Probe>, store: Store, p: nat): (h: nat)
    requires p <= |probes|
    ensures p <= h <= |probes| && (h < |probes| ==> Open(store, probes[h]))
    ensures forall j :: p <= j < h ==> !Open(store, probes[j])
    decreases |probes| - p
  {
    if p == |probes| || Open(store, probes[p]) then p else FirstOpen(probes, store, p + 1)
  }

  predicate Open(store: Store, probe: Probe) {
    StreamOf(store, probe.harp) == [] || Found(StreamOf(store, probe.harp), probe.id)
  }

  /** The add on the first open probe: every task before it is passed, none merged into. */
  function Placed(store: Store, add: NewTask, probes: seq<Probe>, at: Timestamp, exhausted: Refusal)
    : (Store, Attempt)
  {
    var p := FirstOpen(probes, store, 0);
    if p == |probes| then (store, Failed(exhausted)) else
    var (store', attempt) := Probed(store, add, probes[p].harp, probes[p].id, at, p);
    (store', if attempt.Seen? then Answer(store', attempt.harp) else attempt)
  }

  function ProbesOf(keyed: Keyed): (probes: seq<Probe>)
    ensures |probes| == |keyed.harps|
    ensures forall j :: 0 <= j < |probes| ==> probes[j] == Probe(keyed.harps[j], keyed.id)
  {
    seq(|keyed.harps|, j requires 0 <= j < |keyed.harps| => Probe(keyed.harps[j], keyed.id))
  }

  /** The adds of a project's store. */
  class TaskAdds {
    var store: Store

    /** The task on the first of the key's harps whose stream holds the add it sent. */
    method OwnAdd(keyed: Keyed) returns (own: Option<Attempt>)
      requires Probes(keyed)
      ensures var h := FirstOwn(keyed, store, 0);
              own == if h == |keyed.harps| then None else Some(Answer(store, keyed.harps[h]))
    {
      for i := 0 to |keyed.harps|
        invariant FirstOwn(keyed, store, 0) == FirstOwn(keyed, store, i)
      {
        if Found(StreamOf(store, keyed.harps[i]), keyed.id) {
          return Some(Answer(store, keyed.harps[i]));
        }
      }
      return None;
    }

    /** `add` on the first of `probes` no task holds. */
    method AddOnFree(add: NewTask, probes: seq<Probe>, at: Timestamp, exhausted: Refusal)
      returns (answer: Attempt)
      modifies this
      ensures (store, answer) == Placed(old(store), add, probes, at, exhausted)
    {
      hide Probed, Found, Answer;
      for i := 0 to |probes|
        invariant store == old(store) && FirstOpen(probes, store, 0) == FirstOpen(probes, store, i)
      {
        ghost var probed := Probed(store, add, probes[i].harp, probes[i].id, at, i);
        ProbeAdvances(store, add, probes[i], at, i);
        answer := Send(add, probes[i], at, i);
        if answer.Seen? {
          return Answer(store, answer.harp);
        }
        if !answer.Adding? {
          return;
        }
      }
      return Failed(exhausted);
    }

    /** Send the add to one probe's stream. */
    method Send(add: NewTask, probe: Probe, at: Timestamp, position: nat) returns (answer: Attempt)
      modifies this
      ensures (store, answer) == Probed(old(store), add, probe.harp, probe.id, at, position)
    {
      var stream := StreamOf(store, probe.harp);
      if Found(stream, probe.id) {
        return Seen(probe.harp);
      }
      var decided := Decide(Replay(stream), stream != [], add.(harpId := probe.harp));
      match decided
      case Failure(why) => answer := if why.TaskExists? then Adding(position + 1, add) else Failed(RejectedAdd(why));
      case Success(event) =>
        if event.Some? {
          store := store[probe.harp := stream + [Recorded(event.value, at, probe.id)]];
        }
        answer := Answer(store, probe.harp);
    }

    /** Add under a request's key: its own add is answered with; else it is added on the first free harp. */
    method AddKeyed(keyed: Keyed, add: NewTask, at: Timestamp) returns (answer: Attempt)
      requires Probes(keyed)
      modifies this
      ensures (store, answer) == Alone(keyed, old(store), Looking(0, add), at)
    {
      hide Alone, Placed;
      AloneLooks(keyed, add, store, 0, at);
      var own := OwnAdd(keyed);
      if own.Some? {
        return own.value;
      }
      AloneAdds(keyed, add, store, 0, at);
      answer := AddOnFree(add, ProbesOf(keyed), at, AddRequestIdCollides);
    }

    /** Add without a key: on the first free of the harps drawn, each under its own fresh command id. */
    method AddFresh(add: NewTask, drawn: seq<Probe>, at: Timestamp) returns (answer: Attempt)
      requires |drawn| == HARP_ATTEMPTS
      modifies this
      ensures (store, answer) == Placed(old(store), add, drawn, at, HarpsExhausted)
    {
      answer := AddOnFree(add, drawn, at, HarpsExhausted);
    }
  }

  /** A probe goes on to the next exactly when its stream is not open to it. */
  lemma ProbeAdvances(store: Store, add: NewTask, probe: Probe, at: Timestamp, p: nat)
    ensures Probed(store, add, probe.harp, probe.id, at, p).1.Adding? <==> !Open(store, probe)
    ensures !Open(store, probe) ==> Probed(store, add, probe.harp, probe.id, at, p) == (store, Adding(p + 1, add))
    ensures !Probed(store, add, probe.harp, probe.id, at, p).1.Looking?
  {
    hide Decide, Apply, Replay, Text.Trim, Found;
    if StreamOf(store, probe.harp) != [] {
      ProbeHeld(store, add, probe.harp, probe.id, at, p);
    } else {
      AddDecided(add.(harpId := probe.harp), at);
      assert Replay([]) == NoTask by { FoundGrown([], Recorded(TextEdited(""), at, ""), ""); }
    }
  }

  lemma AloneEnds(keyed: Keyed, store: Store, attempt: Attempt, at: Timestamp)
    requires Probes(keyed) && !attempt.Looking? && !attempt.Adding?
    ensures Alone(keyed, store, attempt, at) == (store, if attempt.Seen? then Answer(store, attempt.harp) else attempt)
  {
    hide Replay;
  }

  lemma {:induction false} AloneLooks(keyed: Keyed, add: NewTask, store: Store, p: nat, at: Timestamp)
    requires Probes(keyed) && p <= |keyed.harps|
    ensures var h := FirstOwn(keyed, store, p);
            Alone(keyed, store, Looking(p, add), at) ==
              if h == |keyed.harps| then Alone(keyed, store, Adding(0, add), at) else (store, Answer(store, keyed.harps[h]))
    decreases |keyed.harps| - p
  {
    hide Found, Probed, Replay;
    if p < |keyed.harps| && !Holds(keyed, store, p) {
      AloneLooks(keyed, add, store, p + 1, at);
    } else if p < |keyed.harps| {
      AloneEnds(keyed, store, Seen(keyed.harps[p]), at);
    }
  }

  lemma {:induction false} AloneAdds(keyed: Keyed, add: NewTask, store: Store, p: nat, at: Timestamp)
    requires Probes(keyed) && p <= |keyed.harps| && FirstOpen(ProbesOf(keyed), store, 0) >= p
    ensures Alone(keyed, store, Adding(p, add), at) ==
            Placed(store, add, ProbesOf(keyed), at, AddRequestIdCollides)
    decreases |keyed.harps| - p
  {
    hide Found, Probed, Replay, Answer;
    var probes := ProbesOf(keyed);
    if p < |keyed.harps| {
      ProbeAdvances(store, add, probes[p], at, p);
      if Open(store, probes[p]) {
        assert FirstOpen(probes, store, 0) == p;
        var (store', next) := Probed(store, add, probes[p].harp, probes[p].id, at, p);
        AloneEnds(keyed, store', next, at);
      } else {
        AloneAdds(keyed, add, store, p + 1, at);
      }
    }
  }

  /** The first of the harps holding no task; past the last when each holds one. */
  function FirstEmpty(keyed: Keyed, store: Store, p: nat): (h: nat)
    requires p <= |keyed.harps|
    ensures p <= h <= |keyed.harps| && (h < |keyed.harps| ==> StreamOf(store, keyed.harps[h]) == [])
    ensures forall j :: p <= j < h ==> StreamOf(store, keyed.harps[j]) != []
    decreases |keyed.harps| - p
  {
    if p == |keyed.harps| || StreamOf(store, keyed.harps[p]) == [] then p else FirstEmpty(keyed, store, p + 1)
  }

  lemma FreshOpensEmpty(keyed: Keyed, store: Store)
    requires Fresh(keyed, store)
    ensures FirstOpen(ProbesOf(keyed), store, 0) == FirstEmpty(keyed, store, 0)
  {
    hide Found;
    var probes := ProbesOf(keyed);
    var open, empty := FirstOpen(probes, store, 0), FirstEmpty(keyed, store, 0);
    forall j | 0 <= j < |keyed.harps| ensures Open(store, probes[j]) <==> StreamOf(store, keyed.harps[j]) == [] {
      assert !Holds(keyed, store, j);
    }
    assert open < |probes| ==> Open(store, probes[open]);
    assert empty < |probes| ==> Open(store, probes[empty]);
  }

  /**
   One call alone. The key's add already there is answered with and nothing recorded,
   whatever became of the task. Else it lands on the first harp no task holds, alone on
   its stream; refused when every harp holds one, or for what it carries.
   */
  lemma AloneMeans(keyed: Keyed, add: NewTask, store: Store, at: Timestamp)
    requires Probes(keyed) && OwnFirst(keyed, store)
    ensures var (store', answer) := Alone(keyed, store, Looking(0, add), at);
            var p := FirstEmpty(keyed, store, 0);
            if !Fresh(keyed, store) then
              && store' == store && answer.Answered? && Owned(keyed, store, answer.harp)
              && answer.task == Replay(StreamOf(store, answer.harp))
            else if p == |keyed.harps| then store' == store && answer == Failed(AddRequestIdCollides)
            else if Check(add).Success? && Text.Trim(keyed.harps[p]) != "" then
              && Lands(keyed, store, store', p) && answer.Answered? && answer.harp == keyed.harps[p]
              && answer.task == Replay(StreamOf(store', answer.harp))
            else store' == store && answer.Failed? && answer.error.RejectedAdd?
  {
    hide Alone, Probed, Check, Found, Replay, Apply;
    AloneLooks(keyed, add, store, 0, at);
    var h := FirstOwn(keyed, store, 0);
    if h < |keyed.harps| {
      var s := System(store, [Seen(keyed.harps[h])]);
      SeenAnswers(keyed, s, 0);
    } else {
      AloneAdds(keyed, add, store, 0, at);
      FreshOpensEmpty(keyed, store);
      var p := FirstEmpty(keyed, store, 0);
      if p < |keyed.harps| {
        ProbeLands(keyed, add, store, p, at);
        ProbeEmpty(keyed, add, store, p, at);
      }
    }
  }

  /**
   A retry, whatever others did since and whatever it was called to add itself, answers
   with the task the first call added, and adds nothing.
   */
  lemma RetryAnswers(keyed: Keyed, add: NewTask, store: Store, at: Timestamp, since: seq<Action>, add': NewTask,
                     later: Timestamp)
    requires Probes(keyed) && Fresh(keyed, store) && Alone(keyed, store, Looking(0, add), at).1.Answered?
    requires forall i :: 0 <= i < |since| ==> since[i].Other? || since[i].Purge?
    ensures var (added, answer) := Alone(keyed, store, Looking(0, add), at);
            var now := Run(keyed, System(added, [answer]), since).store;
            var (again, answer') := Alone(keyed, now, Looking(0, add'), later);
            again == now && answer'.Answered? && answer'.harp == answer.harp && answer'.task.harpId == answer.task.harpId
  {
    hide Alone, Check, Found, Replay, Run;
    FreshIsFirst(keyed, store);
    AloneMeans(keyed, add, store, at);
    var (added, answer) := Alone(keyed, store, Looking(0, add), at);
    var p := FirstEmpty(keyed, store, 0);
    LandingHolds(keyed, store, added, p);
    assert Holds(keyed, added, p);
    var start := System(added, [answer]);
    LandedOneByOne(keyed, store, added, answer, p);
    OthersTakeTurns(keyed, start, since);
    RunKeepsOneByOne(keyed, start, since);
    OthersLeaveAttempts(keyed, start, since);
    var now := Run(keyed, start, since);
    assert now.attempts == [answer];
    AnswerStays(keyed, now, answer);
    AloneMeans(keyed, add', now.store, later);
    var answer' := Alone(keyed, now.store, Looking(0, add'), later).1;
    AnswersAlike(keyed, now, answer, answer');
  }

  lemma LandedOneByOne(keyed: Keyed, store: Store, added: Store, answer: Attempt, p: nat)
    requires p < |keyed.harps| && Fresh(keyed, store) && Lands(keyed, store, added, p)
    requires answer.Answered? && answer.harp == keyed.harps[p] && answer.task == Replay(StreamOf(added, answer.harp))
    ensures OneByOne(keyed, System(added, [answer]))
  {
    hide Found, Replay;
    FreshIsFirst(keyed, store);
    LandingHolds(keyed, store, added, p);
    assert Holds(keyed, added, p);
  }

  lemma {:induction false} OthersTakeTurns(keyed: Keyed, s: System, since: seq<Action>)
    requires Probes(keyed) && forall i :: 0 <= i < |since| ==> since[i].Other? || since[i].Purge?
    ensures InTurns(keyed, s, since)
  {
    if since != [] {
      OthersTakeTurns(keyed, s, since[..|since| - 1]);
    }
  }

  lemma {:induction false} OthersLeaveAttempts(keyed: Keyed, s: System, since: seq<Action>)
    requires Probes(keyed) && forall i :: 0 <= i < |since| ==> since[i].Other? || since[i].Purge?
    ensures Run(keyed, s, since).attempts == s.attempts
  {
    hide Committed, Found;
    if since != [] {
      OthersLeaveAttempts(keyed, s, since[..|since| - 1]);
    }
  }

  lemma AnswerStays(keyed: Keyed, s: System, answer: Attempt)
    requires OneByOne(keyed, s) && s.attempts == [answer] && answer.Answered?
    ensures Owned(keyed, s.store, answer.harp) && !Fresh(keyed, s.store)
    ensures answer.task.harpId == Text.Trim(answer.harp)
  {
    hide Found, OwnFirst;
    assert s.attempts[0] == answer;
    var h :| 0 <= h < |keyed.harps| && keyed.harps[h] == answer.harp;
    assert Holds(keyed, s.store, h);
  }

  lemma AnswersAlike(keyed: Keyed, s: System, answer: Attempt, again: Attempt)
    requires OneByOne(keyed, s) && answer.Answered? && again.Answered?
    requires Owned(keyed, s.store, answer.harp) && Owned(keyed, s.store, again.harp)
    requires again.task == Replay(StreamOf(s.store, again.harp)) && answer.task.harpId == Text.Trim(answer.harp)
    ensures again.harp == answer.harp && again.task.harpId == answer.task.harpId
  {
    hide Found, Replay;
    var h :| 0 <= h < |keyed.harps| && keyed.harps[h] == answer.harp;
    var g :| 0 <= g < |keyed.harps| && keyed.harps[g] == again.harp;
    assert Holds(keyed, s.store, h) && Holds(keyed, s.store, g);
    SeenAnswers(keyed, System(s.store, [Seen(again.harp)]), 0);
  }

  /**
   An add without a key: on the first drawn harp no task holds, alone on its stream; given
   up exactly when each drawn harp holds a task, and refused for what it carries. Every
   other stream stays as it was.
   */
  lemma FreshAddMeans(store: Store, add: NewTask, drawn: seq<Probe>, at: Timestamp)
    requires forall j :: 0 <= j < |drawn| ==> !Found(StreamOf(store, drawn[j].harp), drawn[j].id)
    ensures var (store', answer) := Placed(store, add, drawn, at, HarpsExhausted);
            if forall j :: 0 <= j < |drawn| ==> StreamOf(store, drawn[j].harp) != [] then
              store' == store && answer == Failed(HarpsExhausted)
            else
              exists j :: 0 <= j < |drawn| && FirstFree(store, drawn, j)
                          && PlacedAt(store, store', answer, add, drawn, j)
  {
    hide Probed, Check, Replay, Apply, Text.Trim;
    var p := FirstOpen(drawn, store, 0);
    forall j | 0 <= j < |drawn| ensures Open(store, drawn[j]) <==> StreamOf(store, drawn[j].harp) == [] {
    }
    if p < |drawn| {
      assert Open(store, drawn[p]);
      assert FirstFree(store, drawn, p);
      var keyed := Keyed([drawn[p].harp], drawn[p].id);
      ProbeLands(keyed, add, store, 0, at);
      ProbeEmpty(keyed, add, store, 0, at);
      AnyPosition(store, add, drawn[p].harp, drawn[p].id, at, 0, p);
    }
  }

  /** What becomes of an add whose first free harp is the one drawn at `j`. */
  predicate PlacedAt(store: Store, store': Store, answer: Attempt, add: NewTask, drawn: seq<Probe>, j: nat)
    requires j < |drawn|
  {
    if Check(add).Success? && Text.Trim(drawn[j].harp) != "" then
      answer.Answered? && answer.harp == drawn[j].harp && LandsFirstOf(store, store', drawn, j)
    else store' == store && answer.Failed? && answer.error.RejectedAdd?
  }

  /** No task holds the harp drawn at `j`, and one holds each drawn before it. */
  predicate FirstFree(store: Store, drawn: seq<Probe>, j: nat)
    requires j < |drawn|
  {
    StreamOf(store, drawn[j].harp) == [] && forall i :: 0 <= i < j ==> StreamOf(store, drawn[i].harp) != []
  }

  /** The position of a probe tells only where an attempt that passes it goes on. */
  lemma AnyPosition(store: Store, add: NewTask, harp: string, id: string, at: Timestamp, p: nat, q: nat)
    requires StreamOf(store, harp) == []
    ensures Probed(store, add, harp, id, at, p) == Probed(store, add, harp, id, at, q)
  {
    AddDecided(add.(harpId := harp), at);
    assert Replay([]) == NoTask by { FoundGrown([], Recorded(TextEdited(""), at, ""), ""); }
    hide Decide, Apply, Replay;
  }

  /** The store gained one event, on the harp at `j`, the first of those drawn that no task held. */
  predicate LandsFirstOf(store: Store, store': Store, drawn: seq<Probe>, j: nat)
    requires j < |drawn|
  {
    var harp := drawn[j].harp;
    && FirstFree(store, drawn, j) && |StreamOf(store', harp)| == 1
    && store' == store[harp := StreamOf(store', harp)]
  }

  // ----- what is added

  /** One event on `harp`, recorded at `at` under `id`, makes the task asked for, and the answer is that task. */
  ghost predicate Makes(store: Store, answer: Attempt, add: NewTask, harp: string, id: string, at: Timestamp) {
    var stream := StreamOf(store, harp);
    && |stream| == 1 && stream[0].at == at && stream[0].cause == id
    && answer == Answered(harp, Replay(stream)) && MadeBy(answer.task, add, harp, at)
  }

  lemma ProbeMakes(store: Store, add: NewTask, harp: string, id: string, at: Timestamp, p: nat)
    requires Sendable(add) && StreamOf(store, harp) == []
    ensures var (store', answer) := Probed(store, add, harp, id, at, p);
            answer.Answered? ==> Makes(store', answer, add, harp, id, at)
  {
    hide Decide, Apply, Replay, Found, Text.Trim, MadeBy;
    var sent := add.(harpId := harp);
    AddDecided(sent, at);
    assert StreamOf(store, harp) == [] && Replay([]) == NoTask by {
      FoundGrown([], Recorded(TextEdited(""), at, ""), "");
    }
    if Decide(NoTask, false, sent).Success? {
      AddMeans(sent, at);
      MadeAlike(sent, add, harp, at);
      hide Sendable;
      var own := Recorded(Decide(NoTask, false, sent).value.value, at, id);
      FoundGrown([], own, id);
      assert [] + [own] == [own];
      assert StreamOf(store[harp := [own]], harp) == [own];
    }
  }

  /** What is made is told by what is asked for, whichever harp the command names. */
  lemma MadeAlike(sent: NewTask, add: NewTask, harp: string, at: Timestamp)
    requires sent == add.(harpId := harp)
    ensures forall task :: MadeBy(task, sent, harp, at) <==> MadeBy(task, add, harp, at)
  {
    hide Text.Trim, Text.Sorted;
  }

  /** A call under a key that adds, adds the task it was asked to, under the key's command id. */
  lemma KeyedAddMakes(keyed: Keyed, add: NewTask, store: Store, at: Timestamp)
    requires Probes(keyed) && Fresh(keyed, store) && Sendable(add)
    requires Alone(keyed, store, Looking(0, add), at).1.Answered?
    ensures var (store', answer) := Alone(keyed, store, Looking(0, add), at);
            Makes(store', answer, add, answer.harp, keyed.id, at)
  {
    hide Alone, Probed, Found, Makes, Replay;
    AloneLooks(keyed, add, store, 0, at);
    AloneAdds(keyed, add, store, 0, at);
    FreshOpensEmpty(keyed, store);
    var p := FirstEmpty(keyed, store, 0);
    if p < |keyed.harps| {
      ProbeMakes(store, add, keyed.harps[p], keyed.id, at, p);
      ProbeEmpty(keyed, add, store, p, at);
    }
  }

  /** So does a call without one, under the id drawn with the harp. */
  lemma FreshAddMakes(store: Store, add: NewTask, drawn: seq<Probe>, at: Timestamp)
    requires forall j :: 0 <= j < |drawn| ==> !Found(StreamOf(store, drawn[j].harp), drawn[j].id)
    requires Sendable(add) && Placed(store, add, drawn, at, HarpsExhausted).1.Answered?
    ensures var (store', answer) := Placed(store, add, drawn, at, HarpsExhausted);
            exists j :: 0 <= j < |drawn| && FirstFree(store, drawn, j)
                        && Makes(store', answer, add, drawn[j].harp, drawn[j].id, at)
  {
    hide Probed, Makes, Replay;
    var p := FirstOpen(drawn, store, 0);
    forall j | 0 <= j < |drawn| ensures Open(store, drawn[j]) <==> StreamOf(store, drawn[j].harp) == [] {
    }
    assert Open(store, drawn[p]) && FirstFree(store, drawn, p);
    ProbeMakes(store, add, drawn[p].harp, drawn[p].id, at, p);
    var keyed := Keyed([drawn[p].harp], drawn[p].id);
    ProbeEmpty(keyed, add, store, 0, at);
    AnyPosition(store, add, drawn[p].harp, drawn[p].id, at, 0, p);
  }
}
