/**
 The task list: a read model of a project's live tasks, folded one stream's book at a
 time, across streams purged and minted again.
 */
module TaskLists {
  import opened Wrappers
  import opened Streams
  import opened Tasks

  /** One event of a book, as recorded; `None` for a payload the tasks domain cannot read. */
  datatype Page = Page(sequence: nat, payload: Option<Recorded>)

  /** One stream's events after the last handed of it. */
  datatype Book = Book(root: Root, pages: seq<Page>, nextSequence: nat) {
    predicate Readable() {
      forall page :: page in pages ==> page.payload.Some?
    }

    function Events(): (events: Stream)
      requires Readable()
      ensures |events| == |pages|
      ensures forall i :: 0 <= i < |pages| ==> events[i] == pages[i].payload.value
    {
      seq(|pages|, i requires 0 <= i < |pages| => assert pages[i] in pages; pages[i].payload.value)
    }

    /** The sequence it starts at: an empty book's, the one its stream would go on from. */
    function Start(): nat {
      if pages == [] then nextSequence else pages[0].sequence
    }
  }

  // ----- what the streams handed so far hold

  type Held = map<Root, Stream>

  /** What the list has of the stream `book` goes on from: nothing, when it starts afresh. */
  function Before(held: Held, book: Book): Stream {
    if book.Start() == 0 || book.root !in held then [] else held[book.root]
  }

  /** `held` with `root`'s stream now `stream`, which holds none when it is gone. */
  function Holding(held: Held, root: Root, stream: Stream): Held {
    if stream == [] then held - {root} else held[root := stream]
  }

  /** The streams once `book` is handed: minted again, gone, or continued. */
  function After(held: Held, book: Book): Held
    requires book.Readable()
  {
    Holding(held, book.root, Before(held, book) + book.Events())
  }

  /** A stream the aggregate wrote, in the stream its add's harp id roots. */
  ghost predicate Rooted(root: Root, stream: Stream) {
    stream != [] && History(stream) && stream[0].event.TaskAdded? && stream[0].event.harpId == root.harp
  }

  ghost predicate AllRooted(held: Held) {
    forall root :: root in held ==> Rooted(root, held[root])
  }

  /** The port's contract: a book continues a stream handed before, or starts it afresh. */
  ghost predicate Handed(held: Held, book: Book) {
    && book.Readable()
    && (book.Start() != 0 && book.pages != [] ==> book.root in held)
    && AllRooted(held) && AllRooted(After(held, book))
  }

  /** The stream's last event is a prune's removal: removed, and not yet purged. */
  predicate EndsPruned(stream: Stream) {
    stream != [] && stream[|stream| - 1].event == TaskRemoved(Pruned)
  }

  // ----- the list as replay

  /** What is listed is what `held` replays to: the live tasks, and those removed but not purged. */
  ghost predicate ListedBy(entries: map<string, TaskState>, unpurged: map<string, TaskState>, held: Held) {
    forall harp :: ListedAs(entries, unpurged, harp, Of(held, harp))
  }

  /** The list's parts show `held`: every stream's task, and what is listed of them. */
  ghost predicate ShownBy(streams: map<Root, TaskState>, entries: map<string, TaskState>,
                          unpurged: map<string, TaskState>, held: Held)
  {
    && streams.Keys == held.Keys
    && (forall root :: root in streams ==> streams[root] == Replay(held[root]))
    && ListedBy(entries, unpurged, held)
  }

  lemma RootedHarp(root: Root, stream: Stream)
    requires Rooted(root, stream)
    ensures Replay(stream).harpId == root.harp
  {
    HistorySound(stream);
  }

  /** Whether and how a harp is listed, by its own stream alone. */
  ghost predicate ListedAs(entries: map<string, TaskState>, unpurged: map<string, TaskState>, harp: string,
                           stream: Stream)
  {
    && (harp in entries <==> stream != [] && !Replay(stream).removed)
    && (harp in entries ==> entries[harp] == Replay(stream))
    && (harp in unpurged <==> EndsPruned(stream))
    && (harp in unpurged ==> unpurged[harp] == Replay(stream))
  }

  function Of(held: Held, harp: string): Stream {
    if Root(harp) in held then held[Root(harp)] else []
  }

  /** Listing a task as its stream's last event leaves it lists that stream beside the others. */
  lemma ListingShows(entries: map<string, TaskState>, unpurged: map<string, TaskState>, held: Held, root: Root,
                     stream: Stream)
    requires ListedBy(entries, unpurged, held) && stream != []
    ensures var task := Replay(stream);
            ListedBy(if task.removed then entries - {root.harp} else entries[root.harp := task],
                     if EndsPruned(stream) then unpurged[root.harp := task] else unpurged - {root.harp},
                     held[root := stream])
  {
    hide Replay, EndsPruned;
    var task := Replay(stream);
    var entries' := if task.removed then entries - {root.harp} else entries[root.harp := task];
    var unpurged' := if EndsPruned(stream) then unpurged[root.harp := task] else unpurged - {root.harp};
    var held' := held[root := stream];
    forall harp: string
      ensures ListedAs(entries', unpurged', harp, Of(held', harp))
    {
      assert ListedAs(entries, unpurged, harp, Of(held, harp));
      if harp == root.harp {
        assert Root(harp) == root;
      } else {
        assert Of(held', harp) == Of(held, harp);
      }
    }
  }

  lemma ForgettingShows(entries: map<string, TaskState>, unpurged: map<string, TaskState>, held: Held, root: Root)
    requires ListedBy(entries, unpurged, held)
    ensures ListedBy(entries - {root.harp}, unpurged - {root.harp}, held - {root})
  {
    hide Replay;
    forall harp
      ensures ListedAs(entries - {root.harp}, unpurged - {root.harp}, harp, Of(held - {root}, harp))
    {
      assert ListedAs(entries, unpurged, harp, Of(held, harp));
      if harp == root.harp {
        assert Root(harp) == root;
      } else {
        assert Of(held - {root}, harp) == Of(held, harp);
      }
    }
  }

  /**
   What a list showing the streams holds of each, by the stream's last event: its task is
   listed unless that removed it, and is among the unpurged exactly where a prune did.
   */
  lemma ListedMeans(entries: map<string, TaskState>, unpurged: map<string, TaskState>, held: Held, harp: string)
    requires ListedBy(entries, unpurged, held) && AllRooted(held)
    ensures var stream := Of(held, harp);
            && (harp in entries <==> stream != [] && !stream[|stream| - 1].event.TaskRemoved?)
            && (harp in unpurged <==> stream != [] && stream[|stream| - 1].event == TaskRemoved(Pruned))
            && (harp in entries ==> entries[harp] == Replay(stream))
            && (harp in unpurged ==> unpurged[harp] == Replay(stream))
  {
    assert ListedAs(entries, unpurged, harp, Of(held, harp));
    if Of(held, harp) != [] {
      assert Rooted(Root(harp), held[Root(harp)]);
      HistorySound(Of(held, harp));
    }
    hide Replay, History;
  }

  /** A book of no events says its stream is gone, or that nothing was written on it. */
  lemma EmptyBook(held: Held, book: Book)
    requires Handed(held, book) && book.pages == []
    ensures After(held, book) == if book.nextSequence == 0 then held - {book.root} else held
  {
    hide Replay, History;
    assert book.Events() == [];
    assert book.root in held ==> Rooted(book.root, held[book.root]);
    hide AllRooted, Rooted;
    assert Before(held, book) + [] == Before(held, book);
  }

  /** `task` after more events of its stream. */
  function Continued(task: TaskState, events: Stream): TaskState {
    if events == [] then task
    else var last := |events| - 1; Apply(Continued(task, events[..last]), events[last].event, events[last].at)
  }

  /** Replaying a stream goes on from where a replay of its start left. */
  lemma {:induction false} ReplayContinues(before: Stream, events: Stream)
    ensures Replay(before + events) == Continued(Replay(before), events)
  {
    if events == [] {
      assert before + events == before;
    } else {
      var last := |events| - 1;
      ReplayContinues(before, events[..last]);
      assert (before + events)[..|before + events| - 1] == before + events[..last];
    }
  }

  lemma HandedIsRooted(held: Held, book: Book)
    requires Handed(held, book) && book.pages != []
    ensures Rooted(book.root, Before(held, book) + book.Events())
    ensures After(held, book) == held[book.root := Before(held, book) + book.Events()]
  {
    var all := Before(held, book) + book.Events();
    assert |all| > 0;
    assert book.root in After(held, book) && After(held, book)[book.root] == all;
  }

  /** A handed book's events, folded on from the task the list holds, show the streams after it. */
  lemma ProjectedShows(streams: map<Root, TaskState>, entries: map<string, TaskState>, unpurged: map<string, TaskState>,
                       held: Held, book: Book)
    requires ShownBy(streams, entries, unpurged, held) && Handed(held, book) && book.pages != []
    ensures var start := if book.Start() != 0 && book.root in streams then streams[book.root] else NoTask;
            var task := Continued(start, book.Events());
            && task.harpId == book.root.harp
            && ShownBy(streams[book.root := task],
                       if task.removed then entries - {task.harpId} else entries[task.harpId := task],
                       if EndsPruned(book.Events()) then unpurged[task.harpId := task] else unpurged - {task.harpId},
                       After(held, book))
  {
    hide ListedBy, Sound, History, Rooted, Apply, Replay, Continued, EndsPruned, After;
    var before, stream := Before(held, book), Before(held, book) + book.Events();
    HandedIsRooted(held, book);
    ReplayContinues(before, book.Events());
    NothingReplayed();
    EndsAlike(before, book.Events());
    ListingShows(entries, unpurged, held, book.root, stream);
    RootedHarp(book.root, stream);
  }

  lemma NothingReplayed()
    ensures Replay([]) == NoTask
  {
  }

  lemma EndsAlike(before: Stream, events: Stream)
    requires events != []
    ensures EndsPruned(before + events) <==> EndsPruned(events)
  {
  }

  class TaskList {
    /** Under each stream's root, the task the events read so far fold to. */
    var streams: map<Root, TaskState>
    /** The listed tasks, by harp id. */
    var entries: map<string, TaskState>
    /** Tasks a prune has removed, whose streams are still held. */
    var unpurged: map<string, TaskState>

    ghost predicate Shows(held: Held)
      reads this
    {
      ShownBy(streams, entries, unpurged, held)
    }

    constructor ()
      ensures Shows(map[])
    {
      streams, entries, unpurged := map[], map[], map[];
    }

    /** Put `task` on the list or take it off, whichever its last event asks. */
    method List(task: TaskState, pruned: bool)
      modifies this
      ensures streams == old(streams)
      ensures unpurged == if pruned then old(unpurged)[task.harpId := task] else old(unpurged) - {task.harpId}
      ensures entries == if task.removed then old(entries) - {task.harpId} else old(entries)[task.harpId := task]
    {
      if pruned {
        unpurged := unpurged[task.harpId := task];
      } else {
        unpurged := unpurged - {task.harpId};
      }
      if task.removed {
        entries := entries - {task.harpId};
      } else {
        entries := entries[task.harpId := task];
      }
    }

    /** Drop all that is held of a stream that was purged. */
    method Forget(root: Root)
      modifies this
      ensures streams == old(streams) - {root}
      ensures root in old(streams) ==> entries == old(entries) - {old(streams)[root].harpId}
      ensures root in old(streams) ==> unpurged == old(unpurged) - {old(streams)[root].harpId}
      ensures root !in old(streams) ==> entries == old(entries) && unpurged == old(unpurged)
    {
      if root in streams {
        var harp := streams[root].harpId;
        streams := streams - {root};
        entries := entries - {harp};
        unpurged := unpurged - {harp};
      }
    }

    /** `task` after the book's events, and whether the last is a prune's removal, if all can be read. */
    static method FoldPages(start: TaskState, book: Book) returns (task: TaskState, pruned: bool, readable: bool)
      ensures readable == book.Readable()
      ensures readable ==> task == Continued(start, book.Events()) && pruned == EndsPruned(book.Events())
    {
      task, pruned := start, false;
      for i := 0 to |book.pages|
        invariant forall j :: 0 <= j < i ==> book.pages[j].payload.Some?
        invariant book.Readable() ==> task == Continued(start, book.Events()[..i])
        invariant book.Readable() ==> pruned == EndsPruned(book.Events()[..i])
      {
        if book.pages[i].payload.None? {
          assert book.pages[i] in book.pages;
          return task, pruned, false;
        }
        var recorded := book.pages[i].payload.value;
        assert book.Readable() ==> book.Events()[..i + 1][..i] == book.Events()[..i];
        task := Apply(task, recorded.event, recorded.at);
        pruned := recorded.event == TaskRemoved(Pruned);
      }
      assert book.Readable() ==> book.Events()[..|book.pages|] == book.Events();
      return task, pruned, true;
    }

    /**
     Fold one stream's book. Handed as the port hands books to a list showing `held`, it
     leaves the list showing what the streams then hold. Unreadable, it leaves what is
     listed alone, but has let go of the task of a stream it was to continue.
     */
    method Project(book: Book, ghost held: Held) returns (projected: bool)
      modifies this
      ensures projected == book.Readable()
      ensures !projected ==> entries == old(entries) && unpurged == old(unpurged)
      ensures !projected ==> streams == if book.Start() == 0 then old(streams) else old(streams) - {book.root}
      ensures old(Shows(held)) && Handed(held, book) ==> Shows(After(held, book))
    {
      hide ListedBy, Sound, History, Rooted, Apply, After, Continued, EndsPruned;
      ghost var honored := Shows(held) && Handed(held, book);
      if book.pages == [] {
        if honored {
          EmptyBook(held, book);
          ForgettingShows(entries, unpurged, held, book.root);
          if book.root in held {
            RootedHarp(book.root, held[book.root]);
          } else {
            assert held - {book.root} == held;
          }
        }
        if book.nextSequence == 0 {
          Forget(book.root);
        }
        return true;
      }
      var task := NoTask;
      if book.pages[0].sequence != 0 {
        if book.root in streams {
          task := streams[book.root];
        }
        streams := streams - {book.root};
      }
      var pruned, readable;
      task, pruned, readable := FoldPages(task, book);
      if !readable {
        return false;
      }
      if honored {
        ProjectedShows(old(streams), entries, unpurged, held, book);
        assert (old(streams) - {book.root})[book.root := task] == old(streams)[book.root := task];
      }
      List(task, pruned);
      streams := streams[book.root := task];
      return true;
    }

    /**
     A catch-up: every book handed in turn, up to one it cannot read, which it stops at.
     Whatever the books minted again, ended or went on with, what is listed is then the
     replay of the streams as handed: the live tasks, and those removed but not purged.
     */
    method CatchUp(books: seq<Book>, ghost held: Held) returns (done: nat)
      requires Shows(held) && AllHanded(held, books)
      modifies this
      ensures done <= |books| && (done < |books| ==> !books[done].Readable())
      ensures AllReadable(books[..done])
      ensures done == |books| ==> Shows(AfterAll(held, books))
      ensures ListedBy(entries, unpurged, AfterAll(held, books[..done]))
    {
      hide ListedBy, Handed, After, Replay, Book.Readable;
      done := 0;
      while done < |books|
        invariant done <= |books| && AllReadable(books[..done])
        invariant Shows(AfterAll(held, books[..done]))
      {
        ghost var now := AfterAll(held, books[..done]);
        assert books[..done + 1][..done] == books[..done];
        var projected := Project(books[done], now);
        if !projected {
          return;
        }
        done := done + 1;
      }
      assert books[..done] == books;
    }
  }

  // ----- runs of books

  predicate AllReadable(books: seq<Book>) {
    forall i :: 0 <= i < |books| ==> books[i].Readable()
  }

  /** Every stream once `books` are handed in turn, each continuing what those before left. */
  function AfterAll(held: Held, books: seq<Book>): Held
    requires AllReadable(books)
  {
    if books == [] then held else After(AfterAll(held, books[..|books| - 1]), books[|books| - 1])
  }

  /** The port's contract over a run: each readable book continues what those before it left. */
  ghost predicate AllHanded(held: Held, books: seq<Book>) {
    forall i :: 0 <= i < |books| && AllReadable(books[..i + 1]) ==>
      Handed(AfterAll(held, books[..i]), books[i])
  }
}
