/**
 The plan list: a read model folded from a project's plan streams, one book at a
 time, with the reverse of `governs` kept beside the rows.
 */
module PlanLists {
  import opened Wrappers
  import opened Plans
  import opened Streams
  import Graphs
  import Text

  /** One plan as the list holds it: its links as sorted vectors. */
  datatype PlanRow = PlanRow(
    harpId: string,
    title: string,
    status: PlanStatus,
    path: string,
    contentHash: string,
    originSession: string,
    governs: seq<string>,
    supersedes: seq<string>,
    supersededBy: string)

  /** One event of a book; `None` for a payload the plans domain cannot read. */
  datatype Page = Page(sequence: nat, payload: Option<PlanEvent>)

  /** One stream's events after the last handed of it. */
  datatype Book = Book(root: Root, pages: seq<Page>, nextSequence: nat) {
    predicate Readable() {
      forall page :: page in pages ==> page.payload.Some?
    }

    function Events(): (events: seq<PlanEvent>)
      requires Readable()
      ensures |events| == |pages|
    {
      seq(|pages|, i requires 0 <= i < |pages| => assert pages[i] in pages; pages[i].payload.value)
    }

    /** The sequence it starts at: an empty book's, the one its stream would go on from. */
    function Start(): nat {
      if pages == [] then nextSequence else pages[0].sequence
    }
  }

  /** The row a plan's folded stream makes. */
  ghost function RowOf(plan: PlanState): PlanRow {
    PlanRow(plan.harpId, plan.title, plan.status, plan.path, plan.contentHash, plan.originSession,
            Text.InOrder(plan.governs), Text.InOrder(plan.supersedes), plan.supersededBy)
  }

  function NewRow(harp: string, add: AddPlan): PlanRow {
    PlanRow(harp, add.title, add.status, add.path, add.contentHash, add.originSession, [], [], "")
  }

  /** A row after an event of its plan other than its add. */
  function RowAfter(row: PlanRow, event: PlanEvent): PlanRow {
    match event
    case PlanAdded(_) => row
    case StatusChanged(_, to) => row.(status := to)
    case Governed(task) => row.(governs := Text.Insert(row.governs, task))
    case Ungoverned(task) => row.(governs := Text.Without(row.governs, task))
    case HasSuperseded(plan) => row.(supersedes := Text.Insert(row.supersedes, plan))
    case Unsuperseded(plan) => row.(supersedes := Text.Without(row.supersedes, plan))
    case MarkedSuperseded(superseder, _) => row.(status := Superseded, supersededBy := superseder)
    case Reinstated => row.(status := Active, supersededBy := "")
    case Rehashed(hash) => row.(contentHash := hash)
  }

  // ----- what the streams handed so far hold

  /** Every plan stream the list is to show, whole. */
  type Held = map<Root, seq<PlanEvent>>

  /** `held` with `root`'s stream now `events`, which hold none when it is gone. */
  function Holding(held: Held, root: Root, events: seq<PlanEvent>): Held {
    if events == [] then held - {root} else held[root := events]
  }

  /** What the list has of the stream `book` goes on from: nothing, when it starts afresh. */
  function Before(held: Held, book: Book): seq<PlanEvent> {
    if book.Start() == 0 || book.root !in held then [] else held[book.root]
  }

  /** The streams once `book` is handed: restarted, gone, or continued. */
  function After(held: Held, book: Book): Held
    requires book.Readable()
  {
    Holding(held, book.root, Before(held, book) + book.Events())
  }

  /** A stream the aggregate wrote, in the stream its add's harp id roots. */
  ghost predicate Rooted(root: Root, events: seq<PlanEvent>) {
    events != [] && History(events) && events[0].PlanAdded? && events[0].add.harpId == root.harp
  }

  /** The streams are the aggregate's, each under its root. */
  ghost predicate AllRooted(held: Held) {
    forall root :: root in held ==> Rooted(root, held[root])
  }

  /** The port's contract: a book continues a stream handed before, or starts it afresh. */
  ghost predicate Handed(held: Held, book: Book) {
    && book.Readable()
    && (book.Start() != 0 && book.pages != [] ==> book.root in held)
    && AllRooted(held) && AllRooted(After(held, book))
  }

  // ----- rows and replay

  /** Folding an event into a plan's row gives the row of the plan after it. */
  lemma RowFollowsReplay(plan: PlanState, event: PlanEvent)
    requires !event.PlanAdded?
    ensures RowAfter(RowOf(plan), event) == RowOf(Apply(plan, event))
  {
    var governs, supersedes := Text.InOrder(plan.governs), Text.InOrder(plan.supersedes);
    var after := Apply(plan, event);
    match event {
      case Governed(task) =>
        Text.InsertKeepsOrder(governs, task);
        Text.SortedUnique(Text.Insert(governs, task), Text.InOrder(after.governs));
      case Ungoverned(task) =>
        Text.WithoutKeepsOrder(governs, task);
        Text.SortedUnique(Text.Without(governs, task), Text.InOrder(after.governs));
      case HasSuperseded(other) =>
        Text.InsertKeepsOrder(supersedes, other);
        Text.SortedUnique(Text.Insert(supersedes, other), Text.InOrder(after.supersedes));
      case Unsuperseded(other) =>
        Text.WithoutKeepsOrder(supersedes, other);
        Text.SortedUnique(Text.Without(supersedes, other), Text.InOrder(after.supersedes));
      case _ =>
    }
  }

  // ----- the list

  predicate GovernedBy(governing: map<string, set<string>>, task: string, plan: string) {
    task in governing && plan in governing[task]
  }

  /** `governing` is exactly the reverse of the rows' `governs`, with no empty entry. */
  ghost predicate Inverse(rows: map<string, PlanRow>, governing: map<string, set<string>>) {
    && (forall task, plan :: GovernedBy(governing, task, plan) <==> (plan in rows && task in rows[plan].governs))
    && NoneEmpty(governing)
  }

  predicate NoneEmpty(governing: map<string, set<string>>) {
    forall task :: task in governing ==> governing[task] != {}
  }

  /** The rows' links are sorted, each once. */
  ghost predicate RowsSorted(rows: map<string, PlanRow>) {
    forall plan :: plan in rows ==> Text.Sorted(rows[plan].governs) && Text.Sorted(rows[plan].supersedes)
  }

  /** The supersede graph the rows draw. */
  function SupersedeGraph(rows: map<string, PlanRow>): Graphs.Graph {
    map plan | plan in rows :: Text.Elements(rows[plan].supersedes)
  }

  function Linked(governing: map<string, set<string>>, task: string, plan: string): map<string, set<string>> {
    governing[task := (if task in governing then governing[task] else {}) + {plan}]
  }

  function Unlinked(governing: map<string, set<string>>, task: string, plan: string): map<string, set<string>> {
    if task !in governing then governing
    else if governing[task] - {plan} == {} then governing - {task}
    else governing[task := governing[task] - {plan}]
  }

  function RowsAfter(rows: map<string, PlanRow>, harp: string, event: PlanEvent): map<string, PlanRow> {
    if event.PlanAdded? then rows[harp := NewRow(harp, event.add)]
    else if harp in rows then rows[harp := RowAfter(rows[harp], event)]
    else rows
  }

  function GoverningAfter(rows: map<string, PlanRow>, governing: map<string, set<string>>, harp: string,
                          event: PlanEvent): map<string, set<string>>
  {
    if harp !in rows then governing
    else match event
      case Governed(task) => Linked(governing, task, harp)
      case Ungoverned(task) => Unlinked(governing, task, harp)
      case _ => governing
  }

  lemma RowsAfterSorted(rows: map<string, PlanRow>, harp: string, event: PlanEvent)
    requires RowsSorted(rows)
    ensures RowsSorted(RowsAfter(rows, harp, event))
  {
    if harp in rows {
      var row := rows[harp];
      match event {
        case Governed(task) => Text.InsertKeepsOrder(row.governs, task);
        case Ungoverned(task) => Text.WithoutKeepsOrder(row.governs, task);
        case HasSuperseded(plan) => Text.InsertKeepsOrder(row.supersedes, plan);
        case Unsuperseded(plan) => Text.WithoutKeepsOrder(row.supersedes, plan);
        case _ =>
      }
    }
  }

  /** Whatever the event, the reverse index stays the exact reverse (an add being of a new plan). */
  lemma InverseKept(rows: map<string, PlanRow>, governing: map<string, set<string>>, harp: string, event: PlanEvent)
    requires RowsSorted(rows) && Inverse(rows, governing)
    requires event.PlanAdded? ==> harp !in rows
    ensures Inverse(RowsAfter(rows, harp, event), GoverningAfter(rows, governing, harp, event))
  {
    if harp in rows {
      var row, row' := rows[harp], RowAfter(rows[harp], event);
      hide Text.Insert, Text.Without, Linked, Unlinked, GovernedBy, NoneEmpty;
      match event {
        case Governed(task) =>
          Text.InsertKeepsOrder(row.governs, task);
          assert forall x :: x in row'.governs <==> x in Text.Elements(row.governs) + {task};
          LinkedIs(governing, task, harp);
        case Ungoverned(task) =>
          Text.WithoutElements(row.governs, task);
          UnlinkedIs(governing, task, harp);
        case _ =>
      }
    }
  }

  lemma LinkedIs(governing: map<string, set<string>>, task: string, plan: string)
    ensures forall t, p :: GovernedBy(Linked(governing, task, plan), t, p) <==>
                             GovernedBy(governing, t, p) || (t == task && p == plan)
    ensures NoneEmpty(governing) ==> NoneEmpty(Linked(governing, task, plan))
  {
  }

  lemma UnlinkedIs(governing: map<string, set<string>>, task: string, plan: string)
    ensures forall t, p :: GovernedBy(Unlinked(governing, task, plan), t, p) <==>
                             GovernedBy(governing, t, p) && !(t == task && p == plan)
    ensures NoneEmpty(governing) ==> NoneEmpty(Unlinked(governing, task, plan))
  {
    if task in governing {
      assert forall p :: p in governing[task] - {plan} <==> p in governing[task] && p != plan;
    }
  }

  /** The next event of a rooted stream, folded, shows the longer stream beside the others. */
  lemma NextShown(rows: map<string, PlanRow>, governing: map<string, set<string>>, streams: map<Root, string>,
                  held: Held, root: Root, handed: seq<PlanEvent>, event: PlanEvent)
    requires RowsSorted(rows) && Inverse(rows, governing) && Rooted(root, handed + [event])
    requires StreamsShown(streams, Holding(held, root, handed)) && RowsShown(rows, Holding(held, root, handed))
    ensures event.PlanAdded? ==> event.add.harpId == root.harp
    ensures !event.PlanAdded? ==> root in streams && streams[root] == root.harp
    ensures Inverse(RowsAfter(rows, root.harp, event), GoverningAfter(rows, governing, root.harp, event))
    ensures RowsShown(RowsAfter(rows, root.harp, event), Holding(held, root, handed + [event]))
    ensures StreamsShown(streams[root := root.harp], Holding(held, root, handed + [event]))
    ensures root in streams ==> streams[root := root.harp] == streams
  {
    hide Inverse, RowsAfter, GoverningAfter, RowsShown, Rooted, Replay, RowsSorted;
    NextEvent(root, handed, event);
    NextRows(rows, held, root, handed, event);
    RowListed(rows, Holding(held, root, handed), root);
    InverseKept(rows, governing, root.harp, event);
  }

  /** What forgetting a plan that governs `tasks` leaves of the reverse index. */
  function UnlinkedAll(governing: map<string, set<string>>, tasks: seq<string>, plan: string): map<string, set<string>>
    decreases |tasks|
  {
    if tasks == [] then governing
    else Unlinked(UnlinkedAll(governing, tasks[..|tasks| - 1], plan), tasks[|tasks| - 1], plan)
  }

  lemma {:induction false} UnlinkedAllIs(governing: map<string, set<string>>, tasks: seq<string>, plan: string)
    requires NoneEmpty(governing)
    ensures var left := UnlinkedAll(governing, tasks, plan);
            && (forall t, p :: GovernedBy(left, t, p) <==> GovernedBy(governing, t, p) && !(t in tasks && p == plan))
            && NoneEmpty(left)
    decreases |tasks|
  {
    if tasks != [] {
      var last := |tasks| - 1;
      UnlinkedAllIs(governing, tasks[..last], plan);
      UnlinkedIs(UnlinkedAll(governing, tasks[..last], plan), tasks[last], plan);
      assert forall t :: t in tasks <==> t in tasks[..last] || t == tasks[last];
    }
  }

  ghost predicate RowsShown(rows: map<string, PlanRow>, held: Held) {
    && (forall harp :: harp in rows <==> Root(harp) in held)
    && (forall harp :: harp in rows ==> rows[harp] == RowOf(Replay(held[Root(harp)])))
  }

  predicate StreamsShown(streams: map<Root, string>, held: Held) {
    && streams.Keys == held.Keys
    && (forall root :: root in streams ==> streams[root] == root.harp)
  }

  lemma InverseForgotten(rows: map<string, PlanRow>, governing: map<string, set<string>>, harp: string)
    requires Inverse(rows, governing) && harp in rows
    ensures Inverse(rows - {harp}, UnlinkedAll(governing, rows[harp].governs, harp))
  {
    hide UnlinkedAll;
    UnlinkedAllIs(governing, rows[harp].governs, harp);
  }

  lemma RowsSortedWithout(rows: map<string, PlanRow>, harp: string)
    requires RowsSorted(rows)
    ensures RowsSorted(rows - {harp})
  {
  }

  lemma StreamsForgotten(streams: map<Root, string>, held: Held, root: Root)
    requires StreamsShown(streams, held)
    ensures StreamsShown(streams - {root}, Holding(held, root, []))
    ensures root in streams <==> root in held
    ensures root in streams ==> streams[root] == root.harp
  {
  }

  lemma RowListed(rows: map<string, PlanRow>, held: Held, root: Root)
    requires RowsShown(rows, held)
    ensures root.harp in rows <==> root in held
  {
    assert Root(root.harp) == root;
  }

  lemma RowsForgotten(rows: map<string, PlanRow>, held: Held, root: Root)
    requires RowsShown(rows, held)
    ensures RowsShown(rows - {root.harp}, Holding(held, root, []))
  {
    assert Root(root.harp) == root;
  }

  /** The next event of a rooted stream is its add exactly when it is its first. */
  lemma NextEvent(root: Root, events: seq<PlanEvent>, event: PlanEvent)
    requires Rooted(root, events + [event])
    ensures event.PlanAdded? <==> events == []
    ensures event.PlanAdded? ==> event.add.harpId == root.harp
    ensures Replay(events + [event]) == Apply(Replay(events), event)
  {
    var longer := events + [event];
    assert longer[..|longer| - 1] == events && longer[|longer| - 1] == event;
    HistorySound(longer);
    assert longer[|events|].PlanAdded? <==> |events| == 0;
  }

  /** The row of a rooted stream's next event is the row of the plan the longer stream folds to. */
  lemma NextRow(rows: map<string, PlanRow>, root: Root, events: seq<PlanEvent>, event: PlanEvent)
    requires Rooted(root, events + [event])
    requires root.harp in rows <==> events != []
    requires root.harp in rows ==> rows[root.harp] == RowOf(Replay(events))
    ensures root.harp in RowsAfter(rows, root.harp, event)
    ensures RowsAfter(rows, root.harp, event)[root.harp] == RowOf(Replay(events + [event]))
  {
    NextEvent(root, events, event);
    if events == [] {
      assert Text.InOrder({}) == [];
    } else {
      RowFollowsReplay(Replay(events), event);
    }
  }

  lemma NextRows(rows: map<string, PlanRow>, held: Held, root: Root, events: seq<PlanEvent>, event: PlanEvent)
    requires RowsShown(rows, Holding(held, root, events))
    requires Rooted(root, events + [event])
    ensures RowsShown(RowsAfter(rows, root.harp, event), Holding(held, root, events + [event]))
  {
    assert Root(root.harp) == root;
    NextRow(rows, root, events, event);
    var after, rows' := Holding(held, root, events + [event]), RowsAfter(rows, root.harp, event);
    forall harp | harp in rows'
      ensures Root(harp) in after && rows'[harp] == RowOf(Replay(after[Root(harp)]))
    {
      if harp != root.harp {
        assert harp in rows && Holding(held, root, events)[Root(harp)] == after[Root(harp)];
      }
    }
    forall harp | Root(harp) in after
      ensures harp in rows'
    {
      assert harp != root.harp ==> Root(harp) in Holding(held, root, events);
    }
  }

  lemma {:induction false} HistoryPrefix(events: seq<PlanEvent>, k: nat)
    requires History(events) && k <= |events|
    ensures History(events[..k])
    decreases |events| - k
  {
    if k < |events| {
      HistoryPrefix(events, k + 1);
      assert events[..k + 1][..k] == events[..k];
    } else {
      assert events[..k] == events;
    }
  }

  class PlanList {
    /** Every plan, by harp id. */
    var rows: map<string, PlanRow>
    /** `governs` turned round: under each task, its plans. */
    var governing: map<string, set<string>>
    /** The plan on each stream projected, by root. */
    var streams: map<Root, string>

    ghost predicate Valid()
      reads this
    {
      RowsSorted(rows)
    }

    /** The list is the replay of `held`: its rows, their reverse index, its streams. */
    ghost predicate Shows(held: Held)
      reads this
    {
      Inverse(rows, governing) && StreamsShown(streams, held) && RowsShown(rows, held)
    }

    constructor ()
      ensures Valid() && Shows(map[])
    {
      rows, governing, streams := map[], map[], map[];
    }

    /** Fold `event` from plan `harp`'s stream; one whose add was not seen changes nothing. */
    method Fold(harp: string, event: PlanEvent)
      requires Valid()
      modifies this
      ensures Valid() && streams == old(streams)
      ensures rows == RowsAfter(old(rows), harp, event)
      ensures governing == GoverningAfter(old(rows), old(governing), harp, event)
    {
      RowsAfterSorted(rows, harp, event);
      if event.PlanAdded? {
        rows := rows[harp := NewRow(harp, event.add)];
        return;
      }
      if harp !in rows {
        return;
      }
      var row := rows[harp];
      match event
      case Governed(task) =>
        var governs := InsertSorted(row.governs, task);
        rows := rows[harp := row.(governs := governs)];
        governing := Linked(governing, task, harp);
      case Ungoverned(task) =>
        rows := rows[harp := row.(governs := Text.Without(row.governs, task))];
        governing := Unlinked(governing, task, harp);
      case HasSuperseded(plan) =>
        var supersedes := InsertSorted(row.supersedes, plan);
        rows := rows[harp := row.(supersedes := supersedes)];
      case Unsuperseded(plan) =>
        rows := rows[harp := row.(supersedes := Text.Without(row.supersedes, plan))];
      case StatusChanged(_, to) =>
        rows := rows[harp := row.(status := to)];
      case MarkedSuperseded(superseder, _) =>
        rows := rows[harp := row.(status := Superseded, supersededBy := superseder)];
      case Reinstated =>
        rows := rows[harp := row.(status := Active, supersededBy := "")];
      case Rehashed(hash) =>
        rows := rows[harp := row.(contentHash := hash)];
    }

    /** A purged stream's plan is listed no more, under itself or under any task it governed. */
    method Forget(root: Root, ghost held: Held)
      requires Valid()
      modifies this
      ensures Valid()
      ensures streams == old(streams) - {root}
      ensures rows == if root in old(streams) then old(rows) - {old(streams)[root]} else old(rows)
      ensures governing == if root in old(streams) && old(streams)[root] in old(rows)
                           then UnlinkedAll(old(governing), old(rows[streams[root]].governs), old(streams[root]))
                           else old(governing)
      ensures old(Shows(held)) ==> Shows(Holding(held, root, []))
    {
      hide Inverse, RowsShown, RowsSorted, StreamsShown;
      RowsSortedWithout(rows, if root in streams then streams[root] else "");
      if Shows(held) {
        RowsForgotten(rows, held, root);
        RowListed(rows, held, root);
        StreamsForgotten(streams, held, root);
        if root in held {
          InverseForgotten(rows, governing, root.harp);
        } else {
          assert held - {root} == held;
        }
      }
      if root !in streams {
        return;
      }
      var harp := streams[root];
      streams := streams - {root};
      if harp !in rows {
        return;
      }
      var row := rows[harp];
      rows := rows - {harp};
      for i := 0 to |row.governs|
        invariant governing == UnlinkedAll(old(governing), row.governs[..i], harp)
        invariant rows == old(rows) - {harp} && streams == old(streams) - {root}
      {
        governing := Unlinked(governing, row.governs[i], harp);
        assert row.governs[..i + 1][..i] == row.governs[..i];
      }
      assert row.governs[..|row.governs|] == row.governs;
    }

    /** Take the next event of the stream rooted at `root`, of which `handed` was taken before. */
    method Take(root: Root, event: PlanEvent, ghost held: Held, ghost handed: seq<PlanEvent>)
      requires Valid()
      modifies this
      ensures Valid()
      ensures streams == if event.PlanAdded? then old(streams)[root := event.add.harpId] else old(streams)
      ensures root in streams ==> rows == RowsAfter(old(rows), streams[root], event)
      ensures root in streams ==> governing == GoverningAfter(old(rows), old(governing), streams[root], event)
      ensures root !in streams ==> rows == old(rows) && governing == old(governing)
      ensures old(Shows(Holding(held, root, handed))) && Rooted(root, handed + [event]) ==>
                Shows(Holding(held, root, handed + [event]))
    {
      hide Inverse, RowsShown, Rooted, RowsAfter, GoverningAfter;
      if Shows(Holding(held, root, handed)) && Rooted(root, handed + [event]) {
        NextShown(rows, governing, streams, held, root, handed, event);
      }
      if event.PlanAdded? {
        streams := streams[root := event.add.harpId];
      }
      if root in streams {
        Fold(streams[root], event);
      }
    }

    /**
     Fold one stream's book. Unreadable, it changes nothing. Handed as the port hands
     books to a list showing `held`, it leaves the list showing what the streams then hold.
     */
    method Project(book: Book, ghost held: Held) returns (projected: bool)
      requires Valid()
      modifies this
      ensures Valid() && projected == book.Readable()
      ensures !projected ==> rows == old(rows) && governing == old(governing) && streams == old(streams)
      ensures old(Shows(held)) && Handed(held, book) ==> Shows(After(held, book))
    {
      if !book.Readable() {
        return false;
      }
      hide Inverse, StreamsShown, RowsShown, Rooted;
      var events := book.Events();
      ghost var before := Before(held, book);
      if Shows(held) && Handed(held, book) {
        HandedIsRooted(held, book);
        BeforeHeld(held, book);
      }
      if book.Start() == 0 {
        Forget(book.root, held);
      }
      TakeAll(book.root, events, held, before);
      return true;
    }

    /** Take a book's events, of whose stream `before` was taken before. */
    method TakeAll(root: Root, events: seq<PlanEvent>, ghost held: Held, ghost before: seq<PlanEvent>)
      requires Valid()
      modifies this
      ensures Valid()
      ensures old(Shows(Holding(held, root, before))) && (before + events != [] ==> Rooted(root, before + events)) ==>
                Shows(Holding(held, root, before + events))
    {
      hide Inverse, StreamsShown, RowsShown, Rooted, Holding;
      ghost var honored := Shows(Holding(held, root, before)) && (before + events != [] ==> Rooted(root, before + events));
      assert before + events[..0] == before;
      for i := 0 to |events|
        invariant Valid()
        invariant honored ==> Shows(Holding(held, root, before + events[..i]))
      {
        NextOf(before, events, i);
        if honored {
          RootedPrefix(root, before + events, |before| + i + 1);
        }
        Take(root, events[i], held, before + events[..i]);
      }
      assert events[..|events|] == events;
    }

    /**
     A catch-up: every book handed in turn, up to one it cannot read, which it stops at.
     Whatever the books restarted, ended or went on with, the list is then the replay
     of the streams as handed.
     */
    method CatchUp(books: seq<Book>, ghost held: Held) returns (done: nat)
      requires Valid() && Shows(held)
      requires AllHanded(held, books)
      modifies this
      ensures Valid() && done <= |books|
      ensures done < |books| ==> !books[done].Readable()
      ensures AllReadable(books[..done])
      ensures Shows(AfterAll(held, books[..done]))
    {
      hide Inverse, StreamsShown, RowsShown, Handed, After;
      done := 0;
      while done < |books|
        invariant Valid() && done <= |books|
        invariant AllReadable(books[..done])
        invariant Shows(AfterAll(held, books[..done]))
      {
        ghost var now := AfterAll(held, books[..done]);
        assert books[..done + 1][..done] == books[..done];
        var projected := Project(books[done], now);
        if !projected {
          return;
        }
        done := done + 1;
      }
    }

    /** Whether following `supersedes` from `start` reaches `to`, on any graph the rows draw. */
    method SupersedesReaches(start: string, to: string) returns (reaches: bool)
      ensures reaches <==> Graphs.Reaches(SupersedeGraph(rows), start, to)
    {
      ghost var g := SupersedeGraph(rows);
      ghost var names := {start} + Targets(g);
      var seen, next := {}, [start];
      Graphs.ReachesSelf(g, start);
      while next != []
        invariant seen <= names && forall plan :: plan in next ==> plan in names
        invariant forall plan :: plan in seen || plan in next ==> Graphs.Reaches(g, start, plan)
        invariant start in seen || start in next
        invariant forall a, b :: a in seen && Graphs.Edge(g, a, b) ==> b in seen || b in next
        invariant to !in seen
        decreases names - seen, |next|
      {
        var plan := next[|next| - 1];
        ghost var was := next;
        next := next[..|next| - 1];
        assert forall x :: x in was <==> x in next || x == plan;
        if plan == to {
          return true;
        }
        if plan in seen {
          continue;
        }
        seen := seen + {plan};
        if plan in rows {
          next := next + rows[plan].supersedes;
          forall x | x in rows[plan].supersedes
            ensures Graphs.Reaches(g, start, x) && x in names
          {
            assert Graphs.Edge(g, plan, x);
            Graphs.EdgeReaches(g, plan, x);
            Graphs.ReachesTransitive(g, start, plan, x);
          }
        }
      }
      if Graphs.Reaches(g, start, to) {
        var p :| Graphs.PathFrom(g, p, start, to);
        Graphs.PathStaysInside(g, seen, p);
        assert false;
      }
      return false;
    }
  }

  /** Every name some edge of the graph leads to. */
  ghost function Targets(g: Graphs.Graph): set<string> {
    set a, b | a in g && b in g[a] :: b
  }

  /** Both directions of `governs`, and the supersede graph, are the replayed plans'. */
  lemma ListAnswersReplay(list: PlanList, held: Held)
    requires list.Shows(held)
    ensures forall task, plan :: GovernedBy(list.governing, task, plan) <==>
              (Root(plan) in held && task in Replay(held[Root(plan)]).governs)
    ensures SupersedeGraph(list.rows) == GraphOf(held)
  {
    forall plan | plan in list.rows
      ensures list.rows[plan] == RowOf(Replay(held[Root(plan)]))
      ensures forall task :: task in list.rows[plan].governs <==> task in Replay(held[Root(plan)]).governs
    {
      var governs := Replay(held[Root(plan)]).governs;
      assert forall task :: task in Text.InOrder(governs) <==> task in Text.Elements(Text.InOrder(governs));
    }
    forall root | root in held ensures Root(root.harp) == root && root.harp in list.rows {
      assert Root(root.harp) == root;
    }
  }

  /** A list showing the streams has a row for each plan, every field of it the plan's, its sets in order. */
  lemma RowsSay(list: PlanList, held: Held, root: Root)
    requires list.Shows(held)
    ensures root.harp in list.rows <==> root in held
    ensures root in held ==>
              var (row, plan) := (list.rows[root.harp], Replay(held[root]));
              && row.harpId == plan.harpId && row.title == plan.title && row.status == plan.status
              && row.path == plan.path && row.contentHash == plan.contentHash
              && row.originSession == plan.originSession && row.supersededBy == plan.supersededBy
              && Text.Sorted(row.governs) && Text.Elements(row.governs) == plan.governs
              && Text.Sorted(row.supersedes) && Text.Elements(row.supersedes) == plan.supersedes
  {
    assert Root(root.harp) == root;
    hide Replay;
  }

  /** The supersede graph of a project's plans, as their streams replay. */
  function GraphOf(held: Held): Graphs.Graph {
    map root | root in held :: root.harp := Replay(held[root]).supersedes
  }

  // ----- runs of books

  predicate AllReadable(books: seq<Book>) {
    forall i :: 0 <= i < |books| ==> books[i].Readable()
  }

  /** Every stream once `books` are handed in turn, each continuing what those before left. */
  function AfterAll(held: Held, books: seq<Book>): Held
    requires AllReadable(books)
  {
    if books == [] then held else After(AfterAll(held, books[..|books| - 1]), books[|books| - 1])
  }

  /** The port's contract over a run: each readable book continues what those before it left. */
  ghost predicate AllHanded(held: Held, books: seq<Book>) {
    forall i :: 0 <= i < |books| && AllReadable(books[..i + 1]) ==>
      Handed(AfterAll(held, books[..i]), books[i])
  }

  lemma HandedIsRooted(held: Held, book: Book)
    requires Handed(held, book)
    ensures Before(held, book) + book.Events() != [] ==> Rooted(book.root, Before(held, book) + book.Events())
  {
    var all := Before(held, book) + book.Events();
    if all != [] {
      assert book.root in After(held, book) && After(held, book)[book.root] == all;
    }
  }

  /** A book that continues its stream goes on from what is held as it is. */
  lemma BeforeHeld(held: Held, book: Book)
    requires Handed(held, book)
    ensures Holding(held, book.root, Before(held, book))
         == if book.Start() == 0 then Holding(held, book.root, []) else held
  {
    assert book.root in held ==> Rooted(book.root, held[book.root]);
  }

  lemma NextOf(before: seq<PlanEvent>, events: seq<PlanEvent>, i: nat)
    requires i < |events|
    ensures before + events[..i + 1] == before + events[..i] + [events[i]] == (before + events)[..|before| + i + 1]
  {
  }

  lemma RootedPrefix(root: Root, events: seq<PlanEvent>, k: nat)
    requires Rooted(root, events) && 0 < k <= |events|
    ensures Rooted(root, events[..k])
  {
    HistoryPrefix(events, k);
  }

  /** `value` into the sorted `list`, once, where a binary search places it. */
  method InsertSorted(list: seq<string>, value: string) returns (inserted: seq<string>)
    requires Text.Sorted(list)
    ensures inserted == Text.Insert(list, value)
    ensures Text.Sorted(inserted) && Text.Elements(inserted) == Text.Elements(list) + {value}
  {
    var lo, hi := 0, |list|;
    Text.InsertKeepsOrder(list, value);
    while lo < hi
      invariant 0 <= lo <= hi <= |list|
      invariant lo <= Text.Rank(list, value) <= hi
    {
      var mid := (lo + hi) / 2;
      RankSplits(list, value, mid);
      if Text.Less(list[mid], value) {
        lo := mid + 1;
      } else if list[mid] == value {
        Text.LessIrreflexive(value);
        RankFound(list, value, mid);
        return list;
      } else {
        hi := mid;
      }
    }
    if lo < |list| && list[lo] == value {
      return list;
    }
    return list[..lo] + [value] + list[lo..];
  }

  /** Which side of `mid` a value's place in a sorted list is on. */
  lemma RankSplits(list: seq<string>, value: string, mid: nat)
    requires Text.Sorted(list) && mid < |list|
    ensures Text.Less(list[mid], value) <==> mid < Text.Rank(list, value)
  {
    var at := Text.Rank(list, value);
    if at <= mid && Text.Less(list[mid], value) {
      if at < mid {
        Text.LessTransitive(list[at], list[mid], value);
      }
    }
  }

  lemma RankFound(list: seq<string>, value: string, mid: nat)
    requires Text.Sorted(list) && mid < |list| && list[mid] == value
    ensures Text.Rank(list, value) == mid
  {
    Text.LessIrreflexive(value);
    assert forall i :: 0 <= i < mid ==> Text.Less(list[i], list[mid]);
    RankSplits(list, value, mid);
  }
}
