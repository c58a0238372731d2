/**
 Which project a directory is: its marker, else its older marker, else the registry's
 first entry for it. `Bound` reads them; a write that finds none mints an id and binds it
 under the registry's lock.
 */
module Registry {
  import opened Wrappers
  import Text

  const MINT_ATTEMPTS := 100

  datatype Entry = Entry(id: string, path: string)

  /** What identity rests on: each root's markers as text, the registry, and the ids with a database. */
  datatype Home = Home(
    markers: map<string, string>,
    legacy: map<string, string>,
    index: seq<Entry>,
    databases: set<string>)

  datatype RegistryError =
    | InvalidId(id: string)
    | Exhausted
    | SurveyChanged
    | NotADatabase(id: string)

  /** A path as identities are compared: symlinks resolved, else cleaned lexically. */
  type Canonical = string -> string

  // ----- ids and markers

  predicate IdChar(c: char) {
    'a' <= c <= 'z' || 'A' <= c <= 'Z' || '0' <= c <= '9' || c in {'-', '_', '.'}
  }

  /** The characters of an id, listed. */
  lemma IdCharsAre(c: char)
    ensures IdChar(c) <==>
              c in "abcdefghijklmnopqrstuvwxyz" || c in "ABCDEFGHIJKLMNOPQRSTUVWXYZ" || c in "0123456789-_."
  {
  }

  /** One clean path segment, since an id names a directory under the home. */
  predicate ValidId(id: string) {
    && 1 <= |id| <= 255
    && (forall i :: 0 <= i < |id| ==> IdChar(id[i]))
    && id[0] != '.'
    && forall i :: 0 <= i < |id| - 1 ==> !(id[i] == '.' && id[i + 1] == '.')
  }

  /** The id a marker's text holds; none when it is absent or blank. */
  function ReadMarker(markers: map<string, string>, root: string): Result<Option<string>, RegistryError> {
    if root !in markers || Text.Trim(markers[root]) == "" then Success(None)
    else if ValidId(Text.Trim(markers[root])) then Success(Some(Text.Trim(markers[root])))
    else Failure(InvalidId(Text.Trim(markers[root])))
  }

  function Marking(home: Home, root: string, id: string): Home {
    home.(markers := home.markers[root := id + "\n"])
  }

  /** A marker written is read back as its id, and no other root's is changed. */
  lemma MarkerReadsBack(home: Home, root: string, id: string)
    requires ValidId(id)
    ensures ReadMarker(Marking(home, root, id).markers, root) == Success(Some(id))
    ensures forall other :: other != root ==>
              ReadMarker(Marking(home, root, id).markers, other) == ReadMarker(home.markers, other)
  {
    var text := id + "\n";
    assert IdChar(id[0]) && IdChar(id[|id| - 1]);
    assert text[..|text| - 1] == id;
    assert Text.TrimStart(text) == text;
    assert Text.TrimEnd(text) == Text.TrimEnd(id) == id;
  }

  // ----- the registry

  /** The position of the first entry whose canonical path is `root`; the end when none is. */
  function FirstFor(canonical: Canonical, index: seq<Entry>, root: string): (i: nat)
    ensures i <= |index| && (i < |index| ==> canonical(index[i].path) == root)
    ensures forall j :: 0 <= j < i ==> canonical(index[j].path) != root
  {
    if index == [] || canonical(index[0].path) == root then 0
    else
      assert forall j :: 0 < j < |index| ==> index[j] == index[1..][j - 1];
      1 + FirstFor(canonical, index[1..], root)
  }

  /** The id registered for a canonical path: the first, if several are. */
  function IdFor(canonical: Canonical, index: seq<Entry>, root: string): Option<string> {
    var i := FirstFor(canonical, index, root);
    if i < |index| then Some(index[i].id) else None
  }

  predicate Registered(index: seq<Entry>, id: string) {
    exists i :: 0 <= i < |index| && index[i].id == id
  }

  /** What identity there is without the marker. */
  function Unmarked(canonical: Canonical, home: Home, root: string): Result<Option<string>, RegistryError> {
    var legacy :- ReadMarker(home.legacy, root);
    if legacy.Some? then Success(legacy) else Success(IdFor(canonical, home.index, root))
  }

  /** The id `root` is bound to, if any: the marker, the older marker, the registry. */
  function Bound(canonical: Canonical, home: Home, root: string): Result<Option<string>, RegistryError> {
    var marked :- ReadMarker(home.markers, root);
    if marked.Some? then Success(marked) else Unmarked(canonical, home, root)
  }

  predicate Free(id: string, index: seq<Entry>, databases: set<string>) {
    !Registered(index, id) && id !in databases
  }

  predicate FirstFreeDraw(draws: seq<string>, index: seq<Entry>, databases: set<string>, j: nat) {
    j < |draws| && Free(draws[j], index, databases) && forall i :: 0 <= i < j ==> !Free(draws[i], index, databases)
  }

  /** The first id drawn that neither the registry nor a database holds. */
  function Minted(draws: seq<string>, index: seq<Entry>, databases: set<string>): (id: Option<string>)
    ensures id.Some? ==> exists j :: 0 <= j < |draws| && id.value == draws[j] && FirstFreeDraw(draws, index, databases, j)
    ensures id.None? ==> forall j :: 0 <= j < |draws| ==> !Free(draws[j], index, databases)
  {
    if draws == [] then None
    else if Free(draws[0], index, databases) then
      assert FirstFreeDraw(draws, index, databases, 0);
      Some(draws[0])
    else
      MintedLater(draws, index, databases);
      Minted(draws[1..], index, databases)
  }

  lemma MintedLater(draws: seq<string>, index: seq<Entry>, databases: set<string>)
    requires draws != [] && !Free(draws[0], index, databases)
    ensures forall j :: 0 < j < |draws| ==> draws[j] == draws[1..][j - 1]
    ensures forall j: nat :: FirstFreeDraw(draws[1..], index, databases, j) ==>
              FirstFreeDraw(draws, index, databases, j + 1)
  {
    hide Free;
    assert forall j :: 0 <= j < |draws| - 1 ==> draws[1..][j] == draws[j + 1];
    forall j: nat | FirstFreeDraw(draws[1..], index, databases, j)
      ensures FirstFreeDraw(draws, index, databases, j + 1)
    {
      forall i | 0 <= i < j + 1 ensures !Free(draws[i], index, databases) {
        if i > 0 {
          assert draws[i] == draws[1..][i - 1];
        }
      }
    }
  }

  // ----- what the files say

  /** A marker file's text, trimmed; empty without a file. */
  function MarkerText(markers: map<string, string>, root: string): string {
    if root in markers then Text.Trim(markers[root]) else ""
  }

  /** The id a text is, or the refusal of one that is none. */
  function AsId(text: string): Result<Option<string>, RegistryError> {
    if ValidId(text) then Success(Some(text)) else Failure(InvalidId(text))
  }

  /** What the marker's text decides, where there is any; else the older marker's; else the first entry. */
  lemma BoundMeans(canonical: Canonical, home: Home, root: string)
    ensures var (marker, older, i) :=
              (MarkerText(home.markers, root), MarkerText(home.legacy, root), FirstFor(canonical, home.index, root));
            Bound(canonical, home, root) ==
              if marker != "" then AsId(marker)
              else if older != "" then AsId(older)
              else if i < |home.index| then Success(Some(home.index[i].id))
              else Success(None)
  {
    hide ValidId, Text.Trim, FirstFor;
  }

  /** A root whose marker, or whose older marker where it has none, holds a text that is no id. */
  predicate Damaged(home: Home, root: string) {
    var (marker, older) := (MarkerText(home.markers, root), MarkerText(home.legacy, root));
    if marker != "" then !ValidId(marker) else older != "" && !ValidId(older)
  }

  /** An id is one path segment: nothing that separates paths, names a parent, or would be trimmed away. */
  lemma IdIsOneSegment(id: string)
    requires ValidId(id)
    ensures '/' !in id && '\\' !in id && '\0' !in id && id != "" && id[0] != '.' && Text.Trim(id) == id
    ensures |id| <= 255 && forall i :: 0 < i < |id| && id[i] == '.' ==> id[i - 1] != '.'
  {
    assert IdChar(id[0]) && IdChar(id[|id| - 1]);
    assert Text.TrimStart(id) == id && Text.TrimEnd(id) == id;
  }

  // ----- processes resolving for write

  /**
   Where a process stands in resolving its root; `locked` when it does so under the lock.
   One that mints has `left` ids still to draw.
   */
  datatype Pc =
    | ReadingMarker(locked: bool)
    | ReadingLegacy(locked: bool)
    | Adopting(locked: bool, id: string)
    | LookingUp(locked: bool)
    | Waiting
    | Loading
    | Minting(index: seq<Entry>, left: nat)
    | Saving(index: seq<Entry>, id: string)
    | WritingMarker(id: string)
    | Returned(id: string)
    | Failed(error: RegistryError)
    | Crashed

  datatype Process = Process(root: string, pc: Pc)

  predicate Holding(pc: Pc) {
    match pc
    case ReadingMarker(locked) => locked
    case ReadingLegacy(locked) => locked
    case Adopting(locked, _) => locked
    case LookingUp(locked) => locked
    case Loading => true
    case Minting(_, _) => true
    case Saving(_, _) => true
    case WritingMarker(_) => true
    case _ => false
  }

  predicate Ended(pc: Pc) {
    pc.Returned? || pc.Failed? || pc.Crashed?
  }

  function Found(id: Result<Option<string>, RegistryError>, none: Pc): Pc {
    match id
    case Failure(error) => Failed(error)
    case Success(None) => none
    case Success(Some(id)) => Returned(id)
  }

  /** One read or one write of a process that is not waiting for the lock; `draw` is the id drawn, if it draws one. */
  function Advance(canonical: Canonical, home: Home, process: Process, draw: string): (Home, Pc) {
    var root := process.root;
    match process.pc
    case ReadingMarker(locked) => (home, Found(ReadMarker(home.markers, root), ReadingLegacy(locked)))
    case ReadingLegacy(locked) =>
      (home, match ReadMarker(home.legacy, root)
             case Success(Some(id)) => Adopting(locked, id)
             case other => Found(other, LookingUp(locked)))
    case Adopting(_, id) => (Marking(home, root, id), Returned(id))
    case LookingUp(locked) =>
      (home, Found(Success(IdFor(canonical, home.index, root)), if locked then Loading else Waiting))
    case Loading => (home, Minting(home.index, MINT_ATTEMPTS))
    case Minting(index, left) =>
      (home, if left == 0 then Failed(Exhausted)
             else if Free(draw, index, home.databases) then Saving(index, draw)
             else Minting(index, left - 1))
    case Saving(index, id) => (home.(index := index + [Entry(id, root)]), WritingMarker(id))
    case WritingMarker(id) => (Marking(home, root, id), Returned(id))
    case _ => (home, process.pc)
  }

  /** Every process, and which one holds the registry's lock. */
  datatype System = System(home: Home, lock: Option<nat>, processes: seq<Process>)

  datatype Action =
    | Begin(root: string)
    | Go(process: nat, draw: string)
    | Crash(process: nat)
    | OpenStore(process: nat)

  function Moved(s: System, p: nat, home: Home, pc: Pc): System
    requires p < |s.processes|
  {
    System(home, if Holding(s.processes[p].pc) && !Holding(pc) then None else s.lock,
           s.processes[p := s.processes[p].(pc := pc)])
  }

  /** A crash lets go of the lock; a store is opened only by a process that resolved its project. */
  function Act(canonical: Canonical, s: System, action: Action): System {
    match action
    case Begin(root) => s.(processes := s.processes + [Process(root, ReadingMarker(false))])
    case Go(p, draw) =>
      if p >= |s.processes| then s
      else if s.processes[p].pc.Waiting? then
        if s.lock.Some? then s
        else System(s.home, Some(p), s.processes[p := s.processes[p].(pc := ReadingMarker(true))])
      else
        var (home, pc) := Advance(canonical, s.home, s.processes[p], draw);
        Moved(s, p, home, pc)
    case Crash(p) =>
      if p >= |s.processes| || Ended(s.processes[p].pc) then s else Moved(s, p, s.home, Crashed)
    case OpenStore(p) =>
      if p < |s.processes| && s.processes[p].pc.Returned?
      then s.(home := s.home.(databases := s.home.databases + {s.processes[p].pc.id})) else s
  }

  function Run(canonical: Canonical, s: System, actions: seq<Action>): System {
    if actions == [] then s else
      var last := |actions| - 1;
      Act(canonical, Run(canonical, s, actions[..last]), actions[last])
  }

  /** Roots are canonical, as work roots that exist are; ids drawn are valid, as minted ones are. */
  predicate Proper(canonical: Canonical, action: Action) {
    match action
    case Begin(root) => canonical(root) == root
    case Go(_, draw) => ValidId(draw)
    case _ => true
  }

  predicate AllProper(canonical: Canonical, actions: seq<Action>) {
    forall i :: 0 <= i < |actions| ==> Proper(canonical, actions[i])
  }

  // ----- what every run keeps

  predicate HoldsId(bound: Result<Option<string>, RegistryError>, id: string) {
    bound == Success(Some(id))
  }

  /** No entry for the process's root, and it is under the lock: nobody else can bind it. */
  predicate Unbound(canonical: Canonical, home: Home, root: string) {
    Bound(canonical, home, root) == Success(None) && Unmarked(canonical, home, root) == Success(None)
  }

  /** What a process relies on of what it has read so far. */
  predicate Fits(canonical: Canonical, start: Home, home: Home, process: Process) {
    var root := process.root;
    var unmarked := Unmarked(canonical, home, root);
    var same := Bound(canonical, home, root) == unmarked;
    && canonical(root) == root
    && match process.pc
       case ReadingLegacy(_) => same
       case Adopting(_, id) => same && HoldsId(ReadMarker(home.legacy, root), id)
       case LookingUp(_) => same && ReadMarker(home.legacy, root) == Success(None)
       case Loading => Unbound(canonical, home, root)
       case Minting(index, _) => Unbound(canonical, home, root) && index == home.index
       case Saving(index, id) => Unbound(canonical, home, root) && index == home.index && Mintable(start, home, id)
       case WritingMarker(id) => same && HoldsId(unmarked, id) && ValidId(id)
       case Returned(id) => HoldsId(Bound(canonical, home, root), id)
       case _ => true
  }

  /** An id nothing held, at the start or now. */
  predicate Mintable(start: Home, home: Home, id: string) {
    ValidId(id) && !Registered(home.index, id) && id !in start.databases
  }

  /** The entries the run added name ids of their own, none held at the start. */
  predicate Grown(start: Home, home: Home) {
    && |start.index| <= |home.index| && home.index[..|start.index|] == start.index
    && start.databases <= home.databases
    && forall i :: |start.index| <= i < |home.index| ==> MintedAt(start, home, i)
  }

  predicate MintedAt(start: Home, home: Home, i: nat)
    requires i < |home.index|
  {
    && home.index[i].id !in start.databases
    && forall j :: 0 <= j < |home.index| && j != i ==> home.index[j].id != home.index[i].id
  }

  /** A root once bound stays so; one unbound at the start is bound by an entry, marked alike. */
  predicate Keeps(canonical: Canonical, start: Home, home: Home, root: string) {
    var was, now := Bound(canonical, start, root), Bound(canonical, home, root);
    && (was != Success(None) ==> now == was)
    && (was == Success(None) ==>
          now == Success(IdFor(canonical, home.index, root)) && Unmarked(canonical, home, root) == now)
  }

  ghost predicate Invariant(canonical: Canonical, start: Home, s: System) {
    && (forall p :: 0 <= p < |s.processes| ==> Fits(canonical, start, s.home, s.processes[p]))
    && (forall p :: 0 <= p < |s.processes| && Holding(s.processes[p].pc) ==> s.lock == Some(p))
    && (forall root :: Keeps(canonical, start, s.home, root))
    && Grown(start, s.home)
  }

  // ----- what a write does to identity

  /** A marker naming what its root is bound to anyway changes no root's identity. */
  lemma MarkKeeps(canonical: Canonical, home: Home, root: string, id: string)
    requires HoldsId(Bound(canonical, home, root), id) && ValidId(id)
    requires HoldsId(Unmarked(canonical, home, root), id)
    ensures var home' := Marking(home, root, id);
            forall other ::
              && Bound(canonical, home', other) == Bound(canonical, home, other)
              && Unmarked(canonical, home', other) == Unmarked(canonical, home, other)
  {
    hide ReadMarker, ValidId;
    MarkerReadsBack(home, root, id);
  }

  lemma FirstForGrown(canonical: Canonical, index: seq<Entry>, entry: Entry, root: string)
    ensures IdFor(canonical, index + [entry], root) ==
              if IdFor(canonical, index, root).Some? then IdFor(canonical, index, root)
              else if canonical(entry.path) == root then Some(entry.id) else None
  {
    var grown := index + [entry];
    assert grown[|index|] == entry && forall j :: 0 <= j < |index| ==> grown[j] == index[j];
    var i := FirstFor(canonical, grown, root);
    assert i < |index| ==> canonical(index[i].path) == root;
  }

  /** An entry saved binds its own root and no other. */
  lemma SaveBinds(canonical: Canonical, home: Home, root: string, id: string)
    requires canonical(root) == root && Unbound(canonical, home, root)
    ensures var home' := home.(index := home.index + [Entry(id, root)]);
            && HoldsId(Bound(canonical, home', root), id) && HoldsId(Unmarked(canonical, home', root), id)
            && IdFor(canonical, home'.index, root) == Some(id)
            && forall other :: other != root ==>
                 && Bound(canonical, home', other) == Bound(canonical, home, other)
                 && Unmarked(canonical, home', other) == Unmarked(canonical, home, other)
                 && IdFor(canonical, home'.index, other) == IdFor(canonical, home.index, other)
  {
    hide ReadMarker, IdFor;
    forall other { FirstForGrown(canonical, home.index, Entry(id, root), other); }
  }

  /** What a process does that changes the home: nothing, a marker, an entry, or a store's directory. */
  lemma MarkingFits(canonical: Canonical, start: Home, home: Home, root: string, id: string, process: Process)
    requires HoldsId(Bound(canonical, home, root), id) && HoldsId(Unmarked(canonical, home, root), id) && ValidId(id)
    requires Fits(canonical, start, home, process)
    ensures Fits(canonical, start, Marking(home, root, id), process)
  {
    hide Bound, Unmarked, ReadMarker, ValidId;
    MarkKeeps(canonical, home, root, id);
  }

  lemma SavingFits(canonical: Canonical, start: Home, home: Home, root: string, id: string, process: Process)
    requires canonical(root) == root && Unbound(canonical, home, root)
    requires Fits(canonical, start, home, process) && !Holding(process.pc)
    ensures Fits(canonical, start, home.(index := home.index + [Entry(id, root)]), process)
  {
    SaveBinds(canonical, home, root, id);
    assert process.pc.Adopting? ==> HoldsId(Unmarked(canonical, home, process.root), process.pc.id);
    hide Bound, Unmarked, ReadMarker, ValidId, IdFor;
  }

  lemma MarkingKeeps(canonical: Canonical, start: Home, home: Home, root: string, id: string)
    requires HoldsId(Bound(canonical, home, root), id) && HoldsId(Unmarked(canonical, home, root), id) && ValidId(id)
    requires Grown(start, home) && forall other :: Keeps(canonical, start, home, other)
    ensures Grown(start, Marking(home, root, id))
    ensures forall other :: Keeps(canonical, start, Marking(home, root, id), other)
  {
    hide Bound, Unmarked, ReadMarker, ValidId, IdFor;
    MarkKeeps(canonical, home, root, id);
    forall other ensures Keeps(canonical, start, Marking(home, root, id), other) {
      assert Keeps(canonical, start, home, other);
    }
    var home' := Marking(home, root, id);
    forall i | |start.index| <= i < |home'.index| ensures MintedAt(start, home', i) {
      assert MintedAt(start, home, i);
    }
  }

  lemma SavingKeeps(canonical: Canonical, start: Home, home: Home, root: string, id: string)
    requires canonical(root) == root && Unbound(canonical, home, root) && Mintable(start, home, id)
    requires Grown(start, home) && forall other :: Keeps(canonical, start, home, other)
    ensures var home' := home.(index := home.index + [Entry(id, root)]);
            Grown(start, home') && forall other :: Keeps(canonical, start, home', other)
  {
    hide Bound, Unmarked, ReadMarker, ValidId, IdFor;
    SaveBinds(canonical, home, root, id);
    var home' := home.(index := home.index + [Entry(id, root)]);
    forall other ensures Keeps(canonical, start, home', other) {
      assert Keeps(canonical, start, home, other);
    }
    forall i | |start.index| <= i < |home'.index| ensures MintedAt(start, home', i) {
      if i < |home.index| {
        assert MintedAt(start, home, i) && home.index[i] == home'.index[i];
      }
      assert forall j :: 0 <= j < |home.index| ==> home'.index[j] == home.index[j] && home.index[j].id != id;
    }
  }

  /** A process's own step leaves it fit to go on. */
  lemma AdvanceFits(canonical: Canonical, start: Home, home: Home, process: Process, draw: string)
    requires Fits(canonical, start, home, process) && start.databases <= home.databases
    requires ValidId(draw)
    ensures var (home', pc) := Advance(canonical, home, process, draw);
            Fits(canonical, start, home', process.(pc := pc))
  {
    hide IdFor, ValidId, ReadMarker, Bound, Unmarked;
    if process.pc.Adopting? || process.pc.WritingMarker? {
      FitToMark(canonical, start, home, process);
      MarkKeeps(canonical, home, process.root, process.pc.id);
    } else if process.pc.Saving? {
      SaveBinds(canonical, home, process.root, process.pc.id);
    } else {
      ReadFits(canonical, start, home, process, draw);
    }
  }

  /** A step that only reads leaves its process fit to go on. */
  lemma ReadFits(canonical: Canonical, start: Home, home: Home, process: Process, draw: string)
    requires Fits(canonical, start, home, process) && start.databases <= home.databases && ValidId(draw)
    requires !process.pc.Adopting? && !process.pc.WritingMarker? && !process.pc.Saving?
    ensures var (home', pc) := Advance(canonical, home, process, draw);
            home' == home && Fits(canonical, start, home, process.(pc := pc))
  {
    hide IdFor, ValidId, ReadMarker;
  }

  // ----- every run

  /** A step that writes a marker. */
  lemma GoMarks(canonical: Canonical, start: Home, s: System, p: nat, draw: string)
    requires Invariant(canonical, start, s) && p < |s.processes|
    requires s.processes[p].pc.Adopting? || s.processes[p].pc.WritingMarker?
    requires ValidId(draw)
    ensures Invariant(canonical, start, Act(canonical, s, Go(p, draw)))
  {
    hide Bound, Unmarked, ReadMarker, ValidId, IdFor, Keeps, Grown, Fits;
    var process := s.processes[p];
    assert Fits(canonical, start, s.home, process);
    FitToMark(canonical, start, s.home, process);
    AdvanceFits(canonical, start, s.home, process, draw) by { GrownDatabases(start, s.home); }
    MarkingKeeps(canonical, start, s.home, process.root, process.pc.id);
    forall q | 0 <= q < |s.processes| && q != p
      ensures Fits(canonical, start, Marking(s.home, process.root, process.pc.id), s.processes[q])
    {
      MarkingFits(canonical, start, s.home, process.root, process.pc.id, s.processes[q]);
    }
  }

  lemma GrownDatabases(start: Home, home: Home)
    requires Grown(start, home)
    ensures start.databases <= home.databases
  {
  }

  lemma FitToMark(canonical: Canonical, start: Home, home: Home, process: Process)
    requires Fits(canonical, start, home, process) && (process.pc.Adopting? || process.pc.WritingMarker?)
    ensures HoldsId(Bound(canonical, home, process.root), process.pc.id) && ValidId(process.pc.id)
    ensures HoldsId(Unmarked(canonical, home, process.root), process.pc.id)
  {
    hide IdFor, ValidId;
  }

  /** The step that saves an entry. */
  lemma GoSaves(canonical: Canonical, start: Home, s: System, p: nat, draw: string)
    requires Invariant(canonical, start, s) && p < |s.processes| && s.processes[p].pc.Saving?
    requires ValidId(draw)
    ensures Invariant(canonical, start, Act(canonical, s, Go(p, draw)))
  {
    hide Bound, Unmarked, ReadMarker, ValidId, IdFor, Keeps, Grown;
    var process := s.processes[p];
    assert Fits(canonical, start, s.home, process);
    AdvanceFits(canonical, start, s.home, process, draw) by { GrownDatabases(start, s.home); }
    SavingKeeps(canonical, start, s.home, process.root, process.pc.id);
    forall q | 0 <= q < |s.processes| && q != p
      ensures Fits(canonical, start, Advance(canonical, s.home, process, draw).0, s.processes[q])
    {
      SavingFits(canonical, start, s.home, process.root, process.pc.id, s.processes[q]);
    }
  }

  /** A step that only reads, or ends. */
  lemma GoReads(canonical: Canonical, start: Home, s: System, p: nat, draw: string)
    requires Invariant(canonical, start, s) && p < |s.processes|
    requires !s.processes[p].pc.Adopting? && !s.processes[p].pc.WritingMarker? && !s.processes[p].pc.Saving?
    requires ValidId(draw)
    ensures Invariant(canonical, start, Act(canonical, s, Go(p, draw)))
  {
    hide Bound, Unmarked, ReadMarker, ValidId, IdFor, Keeps, Grown, Fits;
    var process := s.processes[p];
    assert Fits(canonical, start, s.home, process);
    AdvanceFits(canonical, start, s.home, process, draw) by { GrownDatabases(start, s.home); }
    if process.pc.Waiting? {
      RereadFits(canonical, start, s.home, process);
    }
  }

  lemma RereadFits(canonical: Canonical, start: Home, home: Home, process: Process)
    requires Fits(canonical, start, home, process)
    ensures Fits(canonical, start, home, process.(pc := ReadingMarker(true)))
    ensures Fits(canonical, start, home, process.(pc := Crashed))
  {
  }

  lemma OpeningBinds(canonical: Canonical, home: Home, databases: set<string>, root: string)
    ensures var home' := home.(databases := databases);
            && Bound(canonical, home', root) == Bound(canonical, home, root)
            && Unmarked(canonical, home', root) == Unmarked(canonical, home, root)
  {
    hide ReadMarker, IdFor;
  }

  lemma OpeningKeeps(canonical: Canonical, start: Home, home: Home, id: string)
    requires Grown(start, home)
    ensures var home' := home.(databases := home.databases + {id});
            && Grown(start, home')
            && (forall root :: Keeps(canonical, start, home', root) <==> Keeps(canonical, start, home, root))
            && (forall process :: Fits(canonical, start, home', process) <==> Fits(canonical, start, home, process))
  {
    hide Bound, Unmarked, ReadMarker, IdFor, ValidId, Registered;
    var home' := home.(databases := home.databases + {id});
    forall i | |start.index| <= i < |home'.index| ensures MintedAt(start, home', i) {
      assert MintedAt(start, home, i);
    }
    forall root
      ensures Bound(canonical, home', root) == Bound(canonical, home, root)
      ensures Unmarked(canonical, home', root) == Unmarked(canonical, home, root)
    {
      OpeningBinds(canonical, home, home'.databases, root);
    }
  }

  lemma ActKeeps(canonical: Canonical, start: Home, s: System, action: Action)
    requires Invariant(canonical, start, s) && Proper(canonical, action)
    ensures Invariant(canonical, start, Act(canonical, s, action))
  {
    hide Bound, Unmarked, ReadMarker, ValidId, IdFor, Keeps, Grown, Advance;
    match action
    case Go(p, draw) =>
      if p < |s.processes| {
        hide Fits, Act;
        if s.processes[p].pc.Adopting? || s.processes[p].pc.WritingMarker? {
          GoMarks(canonical, start, s, p, draw);
        } else if s.processes[p].pc.Saving? {
          GoSaves(canonical, start, s, p, draw);
        } else {
          GoReads(canonical, start, s, p, draw);
        }
      }
    case Crash(p) =>
      if p < |s.processes| {
        hide Fits;
        RereadFits(canonical, start, s.home, s.processes[p]);
      }
    case OpenStore(p) =>
      if p < |s.processes| && s.processes[p].pc.Returned? {
        hide Fits;
        OpeningKeeps(canonical, start, s.home, s.processes[p].pc.id);
      }
    case Begin(root) =>
  }

  lemma {:induction false} RunKeeps(canonical: Canonical, start: Home, actions: seq<Action>)
    requires AllProper(canonical, actions)
    ensures Invariant(canonical, start, Run(canonical, System(start, None, []), actions))
  {
    if actions == [] {
      hide ReadMarker, IdFor;
    } else {
      hide Invariant, Act;
      var last := |actions| - 1;
      RunKeeps(canonical, start, actions[..last]);
      ActKeeps(canonical, start, Run(canonical, System(start, None, []), actions[..last]), actions[last]);
    }
  }

  /** The process returned an id for `root`. */
  predicate Returns(s: System, p: nat, root: string) {
    p < |s.processes| && s.processes[p].root == root && s.processes[p].pc.Returned?
  }

  /** A call that returns, returns the id its root is bound to; a root bound at the start keeps the id it had. */
  lemma ReturnsBound(canonical: Canonical, start: Home, actions: seq<Action>, p: nat, root: string)
    requires AllProper(canonical, actions) && Returns(Run(canonical, System(start, None, []), actions), p, root)
    ensures var s := Run(canonical, System(start, None, []), actions);
            && HoldsId(Bound(canonical, s.home, root), s.processes[p].pc.id)
            && (Bound(canonical, start, root) == Success(None)
                || HoldsId(Bound(canonical, start, root), s.processes[p].pc.id))
  {
    RunKeeps(canonical, start, actions);
    var s := Run(canonical, System(start, None, []), actions);
    hide Run, Bound, Unmarked, Grown;
    assert Fits(canonical, start, s.home, s.processes[p]) && Keeps(canonical, start, s.home, root);
  }

  /** In any interleaving, with crashes anywhere, the calls that return for a root return one id. */
  lemma EveryoneAgrees(canonical: Canonical, start: Home, actions: seq<Action>, p: nat, q: nat, root: string)
    requires AllProper(canonical, actions)
    requires var s := Run(canonical, System(start, None, []), actions); Returns(s, p, root) && Returns(s, q, root)
    ensures var s := Run(canonical, System(start, None, []), actions);
            s.processes[p].pc.id == s.processes[q].pc.id
  {
    hide Run, Bound;
    ReturnsBound(canonical, start, actions, p, root);
    ReturnsBound(canonical, start, actions, q, root);
  }

  /** An id the registry or a database held: what a mint is careful of. */
  predicate Held(home: Home, id: string) {
    Registered(home.index, id) || id in home.databases
  }

  /** A root bound by no marker and no entry at the start is bound by an entry of its own, its id new. */
  lemma BoundAnew(canonical: Canonical, start: Home, home: Home, root: string) returns (i: nat)
    requires Grown(start, home) && Keeps(canonical, start, home, root) && Bound(canonical, start, root) == Success(None)
    requires Bound(canonical, home, root).value.Some?
    ensures |start.index| <= i < |home.index| && canonical(home.index[i].path) == root
    ensures HoldsId(Bound(canonical, home, root), home.index[i].id)
    ensures MintedAt(start, home, i) && !Held(start, home.index[i].id)
  {
    i := FirstFor(canonical, home.index, root);
    var first := FirstFor(canonical, start.index, root);
    assert ReadMarker(start.legacy, root) == Success(None) && IdFor(canonical, start.index, root) == None;
    assert forall j :: 0 <= j < |start.index| ==> start.index[j] == home.index[j];
    assert i >= |start.index|;
    assert MintedAt(start, home, i);
  }

  /**
   Distinct roots get distinct ids, where one was bound to nothing at the start, and the
   other to nothing, or to an id the registry or a database held.
   */
  lemma RootsDiffer(canonical: Canonical, start: Home, actions: seq<Action>, p: nat, q: nat, root: string, other: string)
    requires AllProper(canonical, actions) && root != other
    requires var s := Run(canonical, System(start, None, []), actions);
             && Returns(s, p, root) && Returns(s, q, other)
             && Bound(canonical, start, root) == Success(None)
             && (Bound(canonical, start, other) == Success(None) || Held(start, s.processes[q].pc.id))
    ensures var s := Run(canonical, System(start, None, []), actions);
            s.processes[p].pc.id != s.processes[q].pc.id
  {
    RunKeeps(canonical, start, actions);
    var s := Run(canonical, System(start, None, []), actions);
    hide Run, Bound, Unmarked, ReadMarker, Held, Registered;
    assert Fits(canonical, start, s.home, s.processes[p]) && Fits(canonical, start, s.home, s.processes[q]);
    assert Keeps(canonical, start, s.home, root) && Keeps(canonical, start, s.home, other);
    var i := BoundAnew(canonical, start, s.home, root);
    if Bound(canonical, start, other) == Success(None) {
      var j := BoundAnew(canonical, start, s.home, other);
    }
  }

  // ----- one call, alone

  /** The older marker taken over into the marker, where there is no marker. */
  function Adopted(home: Home, root: string): Home {
    var legacy := ReadMarker(home.legacy, root);
    if ReadMarker(home.markers, root) == Success(None) && legacy.Success? && legacy.value.Some?
    then Marking(home, root, legacy.value.value) else home
  }

  /** What resolving `root` alone comes to: the id, and what identity rests on after. */
  function Resolved(canonical: Canonical, home: Home, root: string, write: bool, draws: seq<string>)
    : (Home, Result<Option<string>, RegistryError>)
  {
    var bound := Bound(canonical, home, root);
    if bound != Success(None) then (if write then Adopted(home, root) else home, bound)
    else if !write then (home, bound)
    else
      match Minted(draws, home.index, home.databases)
      case None => (home, Failure(Exhausted))
      case Some(id) => (Marking(home.(index := home.index + [Entry(id, root)]), root, id), Success(Some(id)))
  }

  /** The registry and the markers behind project identity. */
  class ProjectRegistry {
    var markers: map<string, string>
    var legacy: map<string, string>
    var index: seq<Entry>
    var databases: set<string>

    function State(): Home
      reads this
    {
      Home(markers, legacy, index, databases)
    }

    method WriteMarker(root: string, id: string)
      modifies this`markers
      ensures State() == Marking(old(State()), root, id)
    {
      markers := markers[root := id + "\n"];
    }

    /** The id `root` is bound to, adopting the older marker when `adopt`. */
    method BoundTo(canonical: Canonical, root: string, adopt: bool)
      returns (id: Result<Option<string>, RegistryError>)
      modifies this`markers
      ensures id == Bound(canonical, old(State()), root)
      ensures State() == if adopt then Adopted(old(State()), root) else old(State())
    {
      hide IdFor;
      id := ReadMarker(markers, root);
      if id != Success(None) {
        return;
      }
      id := ReadMarker(legacy, root);
      if id != Success(None) {
        if id.Success? && adopt {
          WriteMarker(root, id.value.value);
        }
        return;
      }
      id := Success(IdFor(canonical, index, root));
    }

    /** The first id drawn that neither the registry nor a database holds. */
    method Mint(draws: seq<string>) returns (id: Option<string>)
      ensures id == Minted(draws, index, databases)
    {
      for i := 0 to |draws|
        invariant Minted(draws, index, databases) == Minted(draws[i..], index, databases)
      {
        if Free(draws[i], index, databases) {
          return Some(draws[i]);
        }
        assert draws[i..][1..] == draws[i + 1..];
      }
      return None;
    }

    /** Bind `root` under the lock: as another process did while this one waited, else to a new id. */
    method Bind(canonical: Canonical, root: string, draws: seq<string>)
      returns (id: Result<Option<string>, RegistryError>)
      modifies this
      ensures (State(), id) == Resolved(canonical, old(State()), root, true, draws)
    {
      hide ReadMarker, IdFor;
      id := BoundTo(canonical, root, true);
      if id != Success(None) {
        return;
      }
      var minted := Mint(draws);
      if minted.None? {
        return Failure(Exhausted);
      }
      index := index + [Entry(minted.value, root)];
      WriteMarker(root, minted.value);
      id := Success(minted);
    }

    /** The id of an unpinned call at `root`: bound to a new one on a write that finds none. */
    method Resolve(canonical: Canonical, root: string, write: bool, draws: seq<string>)
      returns (id: Result<Option<string>, RegistryError>)
      modifies this
      ensures (State(), id) == Resolved(canonical, old(State()), root, write, draws)
    {
      hide ReadMarker, IdFor, Minted;
      id := BoundTo(canonical, root, write);
      if id == Success(None) && write {
        id := Bind(canonical, root, draws);
      }
    }
  }

  /**
   What a call comes to, case by case. A marker is followed, or refused when it is no id;
   so is an older one where there is none, which a write then copies into a marker; then
   the first entry. Where there is none of them a read finds nothing, and a write registers
   the first free draw and marks the root with it.
   */
  lemma ResolvedMeans(canonical: Canonical, home: Home, root: string, write: bool, draws: seq<string>)
    ensures var (home', id) := Resolved(canonical, home, root, write, draws);
            var (marker, older, i) :=
              (MarkerText(home.markers, root), MarkerText(home.legacy, root), FirstFor(canonical, home.index, root));
            if marker != "" then (home', id) == (home, AsId(marker))
            else if older != "" then
              && id == AsId(older)
              && home' == if write && ValidId(older) then home.(markers := home.markers[root := older + "\n"]) else home
            else if i < |home.index| then (home', id) == (home, Success(Some(home.index[i].id)))
            else if !write then (home', id) == (home, Success(None))
            else if forall j :: 0 <= j < |draws| ==> !Free(draws[j], home.index, home.databases) then
              (home', id) == (home, Failure(Exhausted))
            else exists j :: 0 <= j < |draws| && FirstFreeDraw(draws, home.index, home.databases, j)
                             && id == Success(Some(draws[j])) && Binds(home, home', root, draws[j])
  {
    hide ValidId, Text.Trim, FirstFor, Free, Bound, Minted;
    BoundMeans(canonical, home, root);
    AdoptedMeans(home, root);
    var minted := Minted(draws, home.index, home.databases);
    if minted.Some? {
      var j :| 0 <= j < |draws| && minted.value == draws[j]
               && FirstFreeDraw(draws, home.index, home.databases, j);
      assert Binds(home, Marking(home.(index := home.index + [Entry(draws[j], root)]), root, draws[j]), root, draws[j]);
    }
  }

  /** What a write adopts: the older marker's id, where there is no marker's text. */
  lemma AdoptedMeans(home: Home, root: string)
    ensures var (marker, older) := (MarkerText(home.markers, root), MarkerText(home.legacy, root));
            Adopted(home, root) ==
              if marker == "" && older != "" && ValidId(older) then Marking(home, root, older) else home
  {
    hide ValidId, Text.Trim;
  }

  /** The home with `root` registered and marked as `id`, and nothing else changed. */
  predicate Binds(home: Home, home': Home, root: string, id: string) {
    home' == home.(index := home.index + [Entry(id, root)], markers := home.markers[root := id + "\n"])
  }

  /** A damaged marker is refused by every call, whatever it draws, and nothing is written. */
  lemma DamagedRefused(canonical: Canonical, home: Home, root: string, write: bool, draws: seq<string>)
    requires Damaged(home, root)
    ensures var marker := MarkerText(home.markers, root);
            Resolved(canonical, home, root, write, draws) ==
              (home, Failure(InvalidId(if marker != "" then marker else MarkerText(home.legacy, root))))
  {
    hide Resolved, ValidId, FirstFor, MarkerText;
    ResolvedMeans(canonical, home, root, write, draws);
  }

  /** In no run does a process return for a root whose marker was damaged at its start. */
  lemma DamagedNeverReturns(canonical: Canonical, start: Home, actions: seq<Action>, p: nat, root: string)
    requires AllProper(canonical, actions) && Damaged(start, root)
    ensures !Returns(Run(canonical, System(start, None, []), actions), p, root)
  {
    hide Run, Bound, ValidId, FirstFor, MarkerText;
    BoundMeans(canonical, start, root);
    if Returns(Run(canonical, System(start, None, []), actions), p, root) {
      ReturnsBound(canonical, start, actions, p, root);
    }
  }

  /** A marker that is blank is as good as none: every call comes to the same id and writes the same. */
  lemma BlankIsAbsent(canonical: Canonical, home: Home, root: string, write: bool, draws: seq<string>)
    requires MarkerText(home.markers, root) == ""
    ensures var bare := home.(markers := home.markers - {root});
            var (home', id) := Resolved(canonical, home, root, write, draws);
            var (bare', same) := Resolved(canonical, bare, root, write, draws);
            && id == same && (bare' == home' || (bare' == bare && home' == home))
  {
    hide ValidId, Text.Trim, FirstFor, Minted;
    var bare := home.(markers := home.markers - {root});
    assert ReadMarker(home.markers, root) == ReadMarker(bare.markers, root) == Success(None);
    Remarked(home.markers, root, MarkerText(home.legacy, root) + "\n");
    var minted := Minted(draws, home.index, home.databases);
    if minted.Some? {
      Remarked(home.markers, root, minted.value + "\n");
    }
  }

  lemma Remarked(markers: map<string, string>, root: string, text: string)
    ensures (markers - {root})[root := text] == markers[root := text]
  {
  }

  /** What a write resolves stays resolved: bound, found again by any call whatever it draws, and by a read. */
  lemma ResolvedStays(canonical: Canonical, home: Home, root: string, draws: seq<string>, write: bool, later: seq<string>)
    requires canonical(root) == root && forall i :: 0 <= i < |draws| ==> ValidId(draws[i])
    requires var (_, id) := Resolved(canonical, home, root, true, draws); id.Success?
    ensures var (home', id) := Resolved(canonical, home, root, true, draws);
            && id.value.Some? && HoldsId(Bound(canonical, home', root), id.value.value)
            && Resolved(canonical, home', root, write, later) == (home', id)
            && forall other :: other != root ==> Bound(canonical, home', other) == Bound(canonical, home, other)
  {
    hide ValidId, IdFor;
    var bound := Bound(canonical, home, root);
    var (home', id) := Resolved(canonical, home, root, true, draws);
    if bound == Success(None) {
      SaveBinds(canonical, home, root, id.value.value);
      MarkKeeps(canonical, home.(index := home.index + [Entry(id.value.value, root)]), root, id.value.value);
      MarkerReadsBack(home, root, id.value.value);
    } else if home' != home {
      MarkKeeps(canonical, home, root, id.value.value);
      MarkerReadsBack(home, root, id.value.value);
    }
  }

  /** A marker's id neither registered nor with a database is one a mint may draw for another root. */
  lemma UnheldMarkerCollides(canonical: Canonical, home: Home, root: string, other: string, draws: seq<string>)
    requires Bound(canonical, home, root) == Success(None) && |draws| > 0
    requires HoldsId(Bound(canonical, home, other), draws[0])
    ensures Resolved(canonical, home, root, true, draws).1 == Bound(canonical, home, other) <==>
              !Held(home, draws[0])
  {
    hide ReadMarker, IdFor;
  }

  /** Paths that are compared as they are spelled. */
  function AsSpelled(): Canonical {
    path => path
  }

  /** One root marked `id`, and nothing else held. */
  function MarkedOnly(id: string): Home {
    Home(map["/b" := id], map[], [], {})
  }

  /** There, a write at another root that draws `id` first binds that root to it too. */
  lemma MarkedOnlyCollides(id: string, draws: seq<string>, later: seq<string>)
    requires ValidId(id) && |draws| > 0 && draws[0] == id
    ensures Bound(AsSpelled(), MarkedOnly(id), "/a") == Success(None)
    ensures var (home, bound) := Resolved(AsSpelled(), MarkedOnly(id), "/a", true, draws);
            bound == Success(Some(id)) && bound == Resolved(AsSpelled(), home, "/b", true, later).1
  {
    ReadsItself(id);
    hide IdFor, ValidId, ReadMarker;
    UnheldMarkerCollides(AsSpelled(), MarkedOnly(id), "/a", "/b", draws);
  }

  lemma ReadsItself(id: string)
    requires ValidId(id)
    ensures ReadMarker(MarkedOnly(id).markers, "/b") == Success(Some(id))
    ensures ReadMarker(MarkedOnly(id).markers, "/a") == Success(None)
    ensures forall root :: ReadMarker(map[], root) == Success(None)
  {
    assert IdChar(id[0]) && IdChar(id[|id| - 1]);
    assert Text.TrimStart(id) == id && Text.TrimEnd(id) == id;
  }

  // ----- a process no other comes between

  /** The draw a process with `left` to go makes next. */
  function DrawOf(pc: Pc, draws: seq<string>): string {
    if pc.Minting? && 0 < pc.left <= |draws| then draws[|draws| - pc.left] else ""
  }

  function StepsLeft(pc: Pc): nat {
    match pc
    case ReadingMarker(locked) => MINT_ATTEMPTS + if locked then 7 else 11
    case ReadingLegacy(locked) => MINT_ATTEMPTS + if locked then 6 else 10
    case LookingUp(locked) => MINT_ATTEMPTS + if locked then 5 else 9
    case Waiting => MINT_ATTEMPTS + 8
    case Loading => MINT_ATTEMPTS + 4
    case Minting(_, left) => left + 3
    case Saving(_, _) => 2
    case WritingMarker(_) => 1
    case Adopting(_, _) => 1
    case _ => 0
  }

  /** The process run to its end, drawing `draws` in order. */
  function Alone(canonical: Canonical, home: Home, process: Process, draws: seq<string>): (Home, Pc)
    requires |draws| == MINT_ATTEMPTS
    decreases StepsLeft(process.pc)
  {
    if Ended(process.pc) then (home, process.pc)
    else if process.pc.Waiting? then Alone(canonical, home, process.(pc := ReadingMarker(true)), draws)
    else
      var (home', pc) := Advance(canonical, home, process, DrawOf(process.pc, draws));
      Alone(canonical, home', process.(pc := pc), draws)
  }

  lemma AloneMarks(canonical: Canonical, home: Home, process: Process, draws: seq<string>)
    requires |draws| == MINT_ATTEMPTS && (process.pc.Adopting? || process.pc.WritingMarker?)
    ensures Alone(canonical, home, process, draws) ==
            (Marking(home, process.root, process.pc.id), Returned(process.pc.id))
  {
    var marked := Marking(home, process.root, process.pc.id);
    assert Alone(canonical, home, process, draws) ==
           Alone(canonical, marked, process.(pc := Returned(process.pc.id)), draws);
  }

  lemma AloneSaves(canonical: Canonical, home: Home, root: string, id: string, draws: seq<string>)
    requires |draws| == MINT_ATTEMPTS
    ensures Alone(canonical, home, Process(root, Saving(home.index, id)), draws) ==
            (Marking(home.(index := home.index + [Entry(id, root)]), root, id), Returned(id))
  {
    var saved, writing := home.(index := home.index + [Entry(id, root)]), Process(root, WritingMarker(id));
    assert Alone(canonical, home, Process(root, Saving(home.index, id)), draws) ==
           Alone(canonical, saved, writing, draws);
    AloneMarks(canonical, saved, writing, draws);
  }

  /** The draws made one at a time come to the first of them that nothing holds. */
  lemma {:induction false} AloneMints(canonical: Canonical, home: Home, root: string, draws: seq<string>, left: nat)
    requires |draws| == MINT_ATTEMPTS && left <= |draws|
    ensures Alone(canonical, home, Process(root, Minting(home.index, left)), draws) ==
              match Minted(draws[|draws| - left..], home.index, home.databases)
              case None => (home, Failed(Exhausted))
              case Some(id) => (Marking(home.(index := home.index + [Entry(id, root)]), root, id), Returned(id))
  {
    hide Registered;
    var minting := Process(root, Minting(home.index, left));
    var (home', pc) := Advance(canonical, home, minting, DrawOf(minting.pc, draws));
    assert Alone(canonical, home, minting, draws) == Alone(canonical, home, Process(root, pc), draws);
    if left > 0 {
      var rest := draws[|draws| - left..];
      assert rest[0] == draws[|draws| - left] && rest[1..] == draws[|draws| - (left - 1)..];
      if pc.Saving? {
        AloneSaves(canonical, home, root, rest[0], draws);
      } else {
        AloneMints(canonical, home, root, draws, left - 1);
      }
    }
  }

  lemma AloneFromLock(canonical: Canonical, home: Home, root: string, draws: seq<string>)
    requires |draws| == MINT_ATTEMPTS
    ensures Alone(canonical, home, Process(root, Loading), draws) ==
              match Minted(draws, home.index, home.databases)
              case None => (home, Failed(Exhausted))
              case Some(id) => (Marking(home.(index := home.index + [Entry(id, root)]), root, id), Returned(id))
  {
    hide Minted, Registered, Alone;
    AloneMints(canonical, home, root, draws, MINT_ATTEMPTS);
    assert draws[|draws| - MINT_ATTEMPTS..] == draws;
    AloneLoads(canonical, home, root, draws);
  }

  lemma AloneLoads(canonical: Canonical, home: Home, root: string, draws: seq<string>)
    requires |draws| == MINT_ATTEMPTS
    ensures Alone(canonical, home, Process(root, Loading), draws) ==
            Alone(canonical, home, Process(root, Minting(home.index, MINT_ATTEMPTS)), draws)
  {
    hide Registered, ReadMarker, IdFor;
    var loading := Process(root, Loading);
    assert Advance(canonical, home, loading, DrawOf(Loading, draws)) == (home, Minting(home.index, MINT_ATTEMPTS));
  }

  /** Read to the end of what `Bound` reads, from the marker on, under the lock or before it. */
  lemma AloneReads(canonical: Canonical, home: Home, root: string, draws: seq<string>, locked: bool)
    requires |draws| == MINT_ATTEMPTS
    ensures Alone(canonical, home, Process(root, ReadingMarker(locked)), draws) ==
              var bound := Bound(canonical, home, root);
              if bound.Failure? then (home, Failed(bound.error))
              else if bound.value.Some? then (Adopted(home, root), Returned(bound.value.value))
              else Alone(canonical, home, Process(root, if locked then Loading else Waiting), draws)
  {
    hide ReadMarker, IdFor, Minted;
    if ReadMarker(home.markers, root) == Success(None) {
      var reading := Process(root, ReadingLegacy(locked));
      assert Alone(canonical, home, Process(root, ReadingMarker(locked)), draws) ==
             Alone(canonical, home, reading, draws);
      var legacy := ReadMarker(home.legacy, root);
      if legacy == Success(None) {
        var looking := Process(root, LookingUp(locked));
        assert Alone(canonical, home, reading, draws) == Alone(canonical, home, looking, draws);
        assert Alone(canonical, home, looking, draws) ==
               Alone(canonical, home, Process(root, Advance(canonical, home, looking, "").1), draws);
      } else if legacy.Success? {
        var adopting := Process(root, Adopting(locked, legacy.value.value));
        assert Alone(canonical, home, reading, draws) == Alone(canonical, home, adopting, draws);
        AloneMarks(canonical, home, adopting, draws);
      } else {
        assert Alone(canonical, home, reading, draws) ==
               Alone(canonical, home, Process(root, Failed(legacy.error)), draws);
      }
    }
  }

  /** A process alone resolves as the call does: the steps others may come between are its own. */
  lemma AloneResolves(canonical: Canonical, home: Home, root: string, draws: seq<string>)
    requires |draws| == MINT_ATTEMPTS
    ensures Alone(canonical, home, Process(root, ReadingMarker(false)), draws) ==
              var (home', id) := Resolved(canonical, home, root, true, draws);
              (home', match id case Failure(error) => Failed(error) case Success(Some(id)) => Returned(id)
                               case Success(None) => Waiting)
  {
    AloneReads(canonical, home, root, draws, false);
    AloneReads(canonical, home, root, draws, true);
    if Bound(canonical, home, root) == Success(None) {
      AloneFromLock(canonical, home, root, draws);
    }
    hide ReadMarker, IdFor, Minted, Advance;
  }
}
