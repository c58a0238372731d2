/**
 Repairing what a directory's identity rests on: a plan computed from a survey of the
 markers, the registry and the databases, made only while the survey still holds.
 */
module Heal {
  import opened Wrappers
  import opened Registry
  import Text

  /** The filesystem, which a heal does not change: how paths compare, and which are directories now. */
  datatype Fs = Fs(canonical: Canonical, isDir: string -> bool)

  /** An entry as surveyed: its path compared, and whether a directory is there. */
  datatype Listed = Listed(id: string, path: string, canonical: string, live: bool)

  datatype Survey = Survey(
    root: string,
    resolved: Option<string>,
    marker: Option<string>,
    legacyMarker: Option<string>,
    registry: seq<Listed>,
    databases: set<string>)

  datatype Change =
    | WriteMarker(root: string, id: string)
    | Register(id: string, path: string)
    | Unregister(id: string, path: string)
    | RemoveDatabase(id: string)

  datatype Problem =
    | TwoIds(root: string, ids: seq<string>)
    | MissingMarker(root: string, id: string)
    | LegacyMarkerOnly(root: string, id: string)
    | Unregistered(root: string, id: string)
    | Damaged(id: string)

  /** What checking a project's database found; a check may not run. */
  datatype Checked = Absent | Intact | Broken | CannotRun

  datatype HealError = Port(error: RegistryError) | CheckFailed

  datatype Plan = Plan(changes: seq<Change>, applied: bool, unresolved: seq<Problem>)

  // ----- the survey

  function ListedAs(fs: Fs, entry: Entry): Listed {
    Listed(entry.id, entry.path, fs.canonical(entry.path), fs.isDir(entry.path))
  }

  function Listing(fs: Fs, index: seq<Entry>): (registry: seq<Listed>)
    ensures |registry| == |index| && forall i :: 0 <= i < |index| ==> registry[i] == ListedAs(fs, index[i])
  {
    seq(|index|, i requires 0 <= i < |index| => ListedAs(fs, index[i]))
  }

  /** What the identity of `root` rests on; `pin` is the id the environment names, if it names one. */
  function SurveyOf(fs: Fs, home: Home, root: string, pin: Option<string>): Result<Survey, RegistryError> {
    if pin.Some? && !ValidId(pin.value) then Failure(InvalidId(pin.value)) else
    var bound :- if pin.Some? then Success(pin) else Bound(fs.canonical, home, root);
    var marker :- ReadMarker(home.markers, root);
    var legacyMarker :- ReadMarker(home.legacy, root);
    Success(Survey(root, bound, marker, legacyMarker, Listing(fs, home.index), home.databases))
  }

  /** The marker, else the older marker: what binds the root. */
  function Marked(survey: Survey): Option<string> {
    if survey.marker.Some? then survey.marker else survey.legacyMarker
  }

  // ----- problems

  /** Each id some entry gives `root`, without repeats, those of earlier entries first. */
  function IdsAt(registry: seq<Listed>, root: string): seq<string> {
    if registry == [] then [] else
      var last := registry[|registry| - 1];
      var ids := IdsAt(registry[..|registry| - 1], root);
      if last.canonical == root && last.id !in ids then ids + [last.id] else ids
  }

  predicate ListedAt(registry: seq<Listed>, root: string, id: string) {
    exists i :: 0 <= i < |registry| && registry[i].canonical == root && registry[i].id == id
  }

  /** An entry of `id` spelled so that it comes to `path`, though no directory is where it is spelled. */
  predicate GoneAt(registry: seq<Listed>, id: string, path: string) {
    exists i :: 0 <= i < |registry| && registry[i].id == id && registry[i].canonical == path && !registry[i].live
  }

  /** Every inconsistency at the survey's root. */
  function RootProblems(survey: Survey): seq<Problem> {
    var root := survey.root;
    var at, marked := IdsAt(survey.registry, root), Marked(survey);
    var ids := if marked.Some? && marked.value !in at && at != [] then at + [marked.value] else at;
    (if |ids| > 1 then [TwoIds(root, ids)]
     else if marked.Some? && marked.value !in ids then [Unregistered(root, marked.value)] else []) +
    (if survey.marker.None? && survey.legacyMarker.None? && |ids| == 1 then [MissingMarker(root, ids[0])]
     else if survey.marker.None? && survey.legacyMarker.Some? then [LegacyMarkerOnly(root, survey.legacyMarker.value)]
     else [])
  }

  // ----- planning

  /** `changes`, and the ids other than `id` that `ids` names unregistered from `root`. */
  function OthersDropped(changes: seq<Change>, ids: seq<string>, root: string, id: string): seq<Change> {
    if ids == [] then changes else
      var before := OthersDropped(changes, ids[..|ids| - 1], root, id);
      var other := ids[|ids| - 1];
      if other != id then before + [Unregister(other, root)] else before
  }

  /** `changes`, and each of `id`'s entries whose paths are gone dropped. */
  function GoneDropped(changes: seq<Change>, registry: seq<Listed>, id: string): seq<Change> {
    if registry == [] then changes else
      var before := GoneDropped(changes, registry[..|registry| - 1], id);
      var last := registry[|registry| - 1];
      if last.id == id && !last.live && Unregister(id, last.canonical) !in before
      then before + [Unregister(id, last.canonical)] else before
  }

  /** What must change in the registry for `root` to be listed under `id` only. */
  function Binding(survey: Survey, root: string, id: string): seq<Change> {
    var registered := if ListedAt(survey.registry, root, id) then [] else [Register(id, root)];
    GoneDropped(OthersDropped(registered, IdsAt(survey.registry, root), root, id), survey.registry, id)
  }

  /** What a heal changes, and the two ids or more it cannot choose between. */
  function Planned(survey: Survey): (seq<Change>, seq<Problem>) {
    var root := survey.root;
    match Marked(survey)
    case Some(id) =>
      ((if survey.marker.None? then [WriteMarker(root, id)] else []) + Binding(survey, root, id), [])
    case None =>
      var at := IdsAt(survey.registry, root);
      if |at| == 0 then ([], [])
      else if |at| == 1 then ([WriteMarker(root, at[0])], [])
      else ([], [TwoIds(root, at)])
  }

  // ----- applying

  /** The registry without its entries for `id` whose path is `path`. */
  function Dropped(canonical: Canonical, index: seq<Entry>, id: string, path: string): seq<Entry> {
    if index == [] then [] else
      var last := index[|index| - 1];
      Dropped(canonical, index[..|index| - 1], id, path) +
      (if last.id == id && canonical(last.path) == path then [] else [last])
  }

  /** The registry after `changes`, made in order; refused at an id that is none. */
  function Reindexed(canonical: Canonical, index: seq<Entry>, changes: seq<Change>)
    : Result<seq<Entry>, RegistryError>
  {
    if changes == [] then Success(index) else
    var before :- Reindexed(canonical, index, changes[..|changes| - 1]);
    match changes[|changes| - 1]
    case Register(id, path) => if ValidId(id) then Success(before + [Entry(id, path)]) else Failure(InvalidId(id))
    case Unregister(id, path) => Success(Dropped(canonical, before, id, path))
    case _ => Success(before)
  }

  /** The markers and databases after `changes`, made in order up to the first that fails. */
  function Filed(home: Home, changes: seq<Change>): (Home, Result<(), RegistryError>) {
    if changes == [] then (home, Success(())) else
    var (before, made) := Filed(home, changes[..|changes| - 1]);
    if made.Failure? then (before, made) else
    match changes[|changes| - 1]
    case WriteMarker(root, id) =>
      if ValidId(id) then (Marking(before, root, id), made) else (before, Failure(InvalidId(id)))
    case RemoveDatabase(id) =>
      if !ValidId(id) then (before, Failure(InvalidId(id)))
      else if id !in before.databases then (before, Failure(NotADatabase(id)))
      else (before.(databases := before.databases - {id}), made)
    case _ => (before, made)
  }

  /** `changes` made under the lock, if the survey they were planned from still holds. */
  function Made(fs: Fs, home: Home, pin: Option<string>, seen: Survey, changes: seq<Change>)
    : (Home, Result<(), RegistryError>)
  {
    var now := SurveyOf(fs, home, seen.root, pin);
    if now.Failure? then (home, Failure(now.error))
    else if now.value != seen then (home, Failure(SurveyChanged))
    else
      match Reindexed(fs.canonical, home.index, changes)
      case Failure(error) => (home, Failure(error))
      case Success(index) => Filed(home.(index := index), changes)
  }

  /** One heal: the home after, and the plan, or why there is none. */
  function Healed(fs: Fs, home: Home, root: string, pin: Option<string>, checks: string -> Checked, apply: bool)
    : (Home, Result<Plan, HealError>)
  {
    var survey := SurveyOf(fs, home, root, pin);
    if survey.Failure? then (home, Failure(Port(survey.error))) else
    var resolved := survey.value.resolved;
    if resolved.Some? && checks(resolved.value).CannotRun? then (home, Failure(CheckFailed)) else
    var (changes, twoIds) := Planned(survey.value);
    var damaged := if resolved.Some? && checks(resolved.value).Broken? then [Damaged(resolved.value)] else [];
    if !apply || changes == [] then (home, Success(Plan(changes, false, twoIds + damaged))) else
    var (home', made) := Made(fs, home, pin, survey.value, changes);
    (home', if made.Failure? then Failure(Port(made.error)) else Success(Plan(changes, true, twoIds + damaged)))
  }

  // ----- the calls

  /** The project use cases, over the home they survey and change. */
  class Projects {
    var home: Home

    method IdsRegistered(registry: seq<Listed>, root: string) returns (ids: seq<string>)
      ensures ids == IdsAt(registry, root)
    {
      ids := [];
      for i := 0 to |registry|
        invariant ids == IdsAt(registry[..i], root)
      {
        assert registry[..i + 1][..i] == registry[..i];
        if registry[i].canonical == root && registry[i].id !in ids {
          ids := ids + [registry[i].id];
        }
      }
      assert registry[..|registry|] == registry;
    }

    /** `Binding`, its changes pushed one after another. */
    method Bind(survey: Survey, root: string, id: string) returns (changes: seq<Change>)
      ensures changes == Binding(survey, root, id)
    {
      var registry := survey.registry;
      changes := if ListedAt(registry, root, id) then [] else [Register(id, root)];
      ghost var registered := changes;
      var ids := IdsRegistered(registry, root);
      for i := 0 to |ids|
        invariant changes == OthersDropped(registered, ids[..i], root, id)
      {
        assert ids[..i + 1][..i] == ids[..i];
        if ids[i] != id {
          changes := changes + [Unregister(ids[i], root)];
        }
      }
      assert ids[..|ids|] == ids;
      ghost var others := changes;
      for i := 0 to |registry|
        invariant changes == GoneDropped(others, registry[..i], id)
      {
        assert registry[..i + 1][..i] == registry[..i];
        if registry[i].id == id && !registry[i].live {
          var change := Unregister(id, registry[i].canonical);
          if change !in changes {
            changes := changes + [change];
          }
        }
      }
      assert registry[..|registry|] == registry;
    }

    /** Make `changes`: the registry's first, saved whole; then the markers and databases, in order. */
    method Apply(fs: Fs, pin: Option<string>, seen: Survey, changes: seq<Change>)
      returns (made: Result<(), RegistryError>)
      modifies this
      ensures (home, made) == Made(fs, old(home), pin, seen, changes)
    {
      hide SurveyOf, ValidId;
      var now := SurveyOf(fs, home, seen.root, pin);
      if now.Failure? {
        return Failure(now.error);
      }
      if now.value != seen {
        return Failure(SurveyChanged);
      }
      var index := Reindex(fs.canonical, changes);
      if index.Failure? {
        return Failure(index.error);
      }
      home := home.(index := index.value);
      made := File(changes);
    }

    method Reindex(canonical: Canonical, changes: seq<Change>) returns (index: Result<seq<Entry>, RegistryError>)
      ensures index == Reindexed(canonical, home.index, changes)
    {
      hide ValidId;
      index := Success(home.index);
      for i := 0 to |changes|
        invariant index.Success? && index == Reindexed(canonical, home.index, changes[..i])
      {
        assert changes[..i + 1][..i] == changes[..i];
        match changes[i]
        case Register(id, path) =>
          if !ValidId(id) {
            ReindexFails(canonical, home.index, changes, i + 1);
            return Failure(InvalidId(id));
          }
          index := Success(index.value + [Entry(id, path)]);
        case Unregister(id, path) =>
          index := Success(Dropped(canonical, index.value, id, path));
        case _ =>
      }
      assert changes[..|changes|] == changes;
    }

    method File(changes: seq<Change>) returns (made: Result<(), RegistryError>)
      modifies this
      ensures (home, made) == Filed(old(home), changes)
    {
      hide ValidId;
      made := Success(());
      for i := 0 to |changes|
        invariant (home, Success(())) == Filed(old(home), changes[..i])
      {
        assert changes[..i + 1][..i] == changes[..i];
        match changes[i]
        case WriteMarker(root, id) =>
          if !ValidId(id) {
            FilingFails(old(home), changes, i + 1);
            return Failure(InvalidId(id));
          }
          home := Marking(home, root, id);
        case RemoveDatabase(id) =>
          if !ValidId(id) {
            FilingFails(old(home), changes, i + 1);
            return Failure(InvalidId(id));
          }
          if id !in home.databases {
            FilingFails(old(home), changes, i + 1);
            return Failure(NotADatabase(id));
          }
          home := home.(databases := home.databases - {id});
        case _ =>
      }
      assert changes[..|changes|] == changes;
      made := Success(());
    }

    /** Survey, plan, and make the plan when asked to; the marker prevails over the registry. */
    method Heal(fs: Fs, root: string, pin: Option<string>, checks: string -> Checked, apply: bool)
      returns (plan: Result<Plan, HealError>)
      modifies this
      ensures (home, plan) == Healed(fs, old(home), root, pin, checks, apply)
    {
      hide SurveyOf, Binding, Made;
      var taken := SurveyOf(fs, home, root, pin);
      if taken.Failure? {
        return Failure(Port(taken.error));
      }
      var survey := taken.value;
      var damaged: seq<Problem> := [];
      if survey.resolved.Some? {
        match checks(survey.resolved.value)
        case CannotRun => return Failure(CheckFailed);
        case Broken => damaged := [Damaged(survey.resolved.value)];
        case _ =>
      }
      assert survey.root == root by { SurveyRooted(fs, home, root, pin); }
      var at := IdsRegistered(survey.registry, root);
      var changes: seq<Change>, unresolved: seq<Problem> := [], [];
      match Marked(survey) {
        case Some(id) =>
          if survey.marker.None? {
            changes := [WriteMarker(root, id)];
          }
          var binding := Bind(survey, root, id);
          changes := changes + binding;
        case None =>
          if |at| == 1 {
            changes := [WriteMarker(root, at[0])];
          } else if |at| > 1 {
            unresolved := [TwoIds(root, at)];
          }
      }
      assert (changes, unresolved) == Planned(survey);
      plan := Success(Plan(changes, false, unresolved + damaged));
      if apply && changes != [] {
        var made := Apply(fs, pin, survey, changes);
        plan := if made.Failure? then Failure(Port(made.error)) else Success(plan.value.(applied := true));
      }
    }
  }

  lemma SurveyRooted(fs: Fs, home: Home, root: string, pin: Option<string>)
    ensures SurveyOf(fs, home, root, pin).Success? ==> SurveyOf(fs, home, root, pin).value.root == root
  {
    hide Bound, ReadMarker, ValidId;
  }

  lemma {:induction false} ReindexFails(canonical: Canonical, index: seq<Entry>, changes: seq<Change>, i: nat)
    requires i <= |changes| && Reindexed(canonical, index, changes[..i]).Failure?
    ensures Reindexed(canonical, index, changes) == Reindexed(canonical, index, changes[..i])
    decreases |changes|
  {
    hide ValidId;
    if i < |changes| {
      var before := changes[..|changes| - 1];
      assert before[..i] == changes[..i];
      ReindexFails(canonical, index, before, i);
    } else {
      assert changes[..i] == changes;
    }
  }

  lemma {:induction false} FilingFails(home: Home, changes: seq<Change>, i: nat)
    requires i <= |changes| && Filed(home, changes[..i]).1.Failure?
    ensures Filed(home, changes) == Filed(home, changes[..i])
    decreases |changes|
  {
    hide ValidId;
    if i < |changes| {
      var before := changes[..|changes| - 1];
      assert before[..i] == changes[..i];
      FilingFails(home, before, i);
    } else {
      assert changes[..i] == changes;
    }
  }

  // ----- what a plan holds

  lemma {:induction false} IdsAtHolds(registry: seq<Listed>, root: string)
    ensures forall id :: id in IdsAt(registry, root) <==> ListedAt(registry, root, id)
    ensures forall i, j :: 0 <= i < j < |IdsAt(registry, root)| ==> IdsAt(registry, root)[i] != IdsAt(registry, root)[j]
  {
    if registry != [] {
      var last := |registry| - 1;
      IdsAtHolds(registry[..last], root);
      forall id
        ensures ListedAt(registry, root, id) <==>
                  ListedAt(registry[..last], root, id) || (registry[last].canonical == root && registry[last].id == id)
      {
        assert forall i :: 0 <= i < last ==> registry[..last][i] == registry[i];
      }
    }
  }

  lemma {:induction false} OthersDroppedHolds(changes: seq<Change>, ids: seq<string>, root: string, id: string)
    ensures forall c :: c in OthersDropped(changes, ids, root, id) <==>
              c in changes || (c.Unregister? && c.path == root && c.id != id && c.id in ids)
    ensures RegistersFirst(changes) ==> RegistersFirst(OthersDropped(changes, ids, root, id))
  {
    if ids != [] {
      var last := |ids| - 1;
      OthersDroppedHolds(changes, ids[..last], root, id);
      assert ids == ids[..last] + [ids[last]];
    }
  }

  lemma {:induction false} GoneDroppedHolds(changes: seq<Change>, registry: seq<Listed>, id: string)
    ensures forall c :: c in GoneDropped(changes, registry, id) <==>
              c in changes || (c.Unregister? && c.id == id && GoneAt(registry, id, c.path))
    ensures RegistersFirst(changes) ==> RegistersFirst(GoneDropped(changes, registry, id))
  {
    if registry != [] {
      var last := |registry| - 1;
      GoneDroppedHolds(changes, registry[..last], id);
      forall path
        ensures GoneAt(registry, id, path) <==>
                  GoneAt(registry[..last], id, path)
                  || (registry[last].id == id && registry[last].canonical == path && !registry[last].live)
      {
        assert forall i :: 0 <= i < last ==> registry[..last][i] == registry[i];
      }
    }
  }

  /** No entry is registered after one was unregistered: what it registers is dropped only where it says so. */
  predicate RegistersFirst(changes: seq<Change>) {
    forall i, j :: 0 <= i < j < |changes| && changes[i].Unregister? ==> !changes[j].Register?
  }

  /** What binding a root to an id alone asks of the registry. */
  predicate Binds(registry: seq<Listed>, root: string, id: string, c: Change) {
    match c
    case Register(id', path) => id' == id && path == root && !ListedAt(registry, root, id)
    case Unregister(id', path) =>
      (path == root && id' != id && ListedAt(registry, root, id')) || (id' == id && GoneAt(registry, id, path))
    case _ => false
  }

  lemma BindingHolds(survey: Survey, root: string, id: string)
    ensures forall c :: c in Binding(survey, root, id) <==> Binds(survey.registry, root, id, c)
    ensures RegistersFirst(Binding(survey, root, id))
  {
    hide IdsAt, OthersDropped, GoneDropped, ListedAt, GoneAt;
    var registered := if ListedAt(survey.registry, root, id) then [] else [Register(id, root)];
    IdsAtHolds(survey.registry, root);
    OthersDroppedHolds(registered, IdsAt(survey.registry, root), root, id);
    GoneDroppedHolds(OthersDropped(registered, IdsAt(survey.registry, root), root, id), survey.registry, id);
  }

  // ----- what applying it leaves

  lemma {:induction false} DroppedHolds(canonical: Canonical, index: seq<Entry>, id: string, path: string)
    ensures forall e :: e in Dropped(canonical, index, id, path) <==>
              e in index && !(e.id == id && canonical(e.path) == path)
  {
    if index != [] {
      var last := |index| - 1;
      DroppedHolds(canonical, index[..last], id, path);
      assert index == index[..last] + [index[last]];
    }
  }

  /** Each id a change registers or marks with is one. */
  predicate AllValid(changes: seq<Change>) {
    forall c :: c in changes && (c.Register? || c.WriteMarker?) ==> ValidId(c.id)
  }

  /** The registry after changes holds what it held or they register, and they do not unregister. */
  lemma {:induction false} ReindexedHolds(canonical: Canonical, index: seq<Entry>, changes: seq<Change>)
    requires RegistersFirst(changes) && AllValid(changes)
    ensures var after := Reindexed(canonical, index, changes);
            after.Success? && forall e :: e in after.value <==>
              && (e in index || Register(e.id, e.path) in changes)
              && Unregister(e.id, canonical(e.path)) !in changes
  {
    if changes != [] {
      hide ValidId;
      var last := |changes| - 1;
      var before := changes[..last];
      assert changes == before + [changes[last]];
      ReindexedHolds(canonical, index, before);
      match changes[last]
      case Unregister(id, path) =>
        DroppedHolds(canonical, Reindexed(canonical, index, before).value, id, path);
      case Register(id, path) =>
        forall c | c in changes ensures !c.Unregister? {
          var i :| 0 <= i < |changes| && changes[i] == c;
        }
      case _ =>
    }
  }

  predicate OnlyRegistry(changes: seq<Change>) {
    forall c :: c in changes ==> c.Register? || c.Unregister?
  }

  lemma {:induction false} FiledFirst(home: Home, first: seq<Change>, changes: seq<Change>)
    requires OnlyRegistry(changes)
    ensures Filed(home, first + changes) == Filed(home, first)
  {
    if changes == [] {
      assert first + changes == first;
    } else {
      hide ValidId;
      var last := |changes| - 1;
      FiledFirst(home, first, changes[..last]);
      assert (first + changes)[..|first + changes| - 1] == first + changes[..last];
      assert changes[last] in changes;
    }
  }

  // ----- one heal

  /** The entries a heal toward the marked id leaves: those it does not drop, and the root's own. */
  predicate Stays(fs: Fs, home: Home, root: string, id: string, e: Entry) {
    var registry := Listing(fs, home.index);
    && (e in home.index || (e == Entry(id, root) && !ListedAt(registry, root, id)))
    && !(fs.canonical(e.path) == root && e.id != id)
    && !(e.id == id && GoneAt(registry, id, fs.canonical(e.path)))
  }

  /** The survey a heal plans from, where it comes so far. */
  predicate Surveys(fs: Fs, home: Home, root: string, pin: Option<string>, checks: string -> Checked) {
    var survey := SurveyOf(fs, home, root, pin);
    survey.Success? && (survey.value.resolved.Some? ==> !checks(survey.value.resolved.value).CannotRun?)
  }

  lemma SurveyHolds(fs: Fs, home: Home, root: string, pin: Option<string>)
    requires SurveyOf(fs, home, root, pin).Success?
    ensures var survey := SurveyOf(fs, home, root, pin).value;
            && survey.root == root && survey.registry == Listing(fs, home.index) && survey.databases == home.databases
            && Success(survey.marker) == ReadMarker(home.markers, root)
            && Success(survey.legacyMarker) == ReadMarker(home.legacy, root)
            && (Marked(survey).Some? ==> ValidId(Marked(survey).value))
  {
    hide ValidId, Bound;
  }

  lemma ListedIn(fs: Fs, index: seq<Entry>, e: Entry)
    requires e in index
    ensures ListedAt(Listing(fs, index), fs.canonical(e.path), e.id)
    ensures !fs.isDir(e.path) ==> GoneAt(Listing(fs, index), e.id, fs.canonical(e.path))
  {
    var i :| 0 <= i < |index| && index[i] == e;
    assert Listing(fs, index)[i] == ListedAs(fs, e);
  }

  /** The binding changes of a marked root, read as what becomes of each entry. */
  lemma BindingStays(fs: Fs, home: Home, survey: Survey, id: string)
    requires survey.registry == Listing(fs, home.index) && ValidId(id)
    ensures var binding := Binding(survey, survey.root, id);
            && OnlyRegistry(binding) && Reindexed(fs.canonical, home.index, binding).Success?
            && forall e :: e in Reindexed(fs.canonical, home.index, binding).value <==>
                             Stays(fs, home, survey.root, id, e)
  {
    hide ValidId, Binding, Reindexed, ListedAt, GoneAt;
    var binding := Binding(survey, survey.root, id);
    BindingHolds(survey, survey.root, id);
    ReindexedHolds(fs.canonical, home.index, binding);
    forall e | e in home.index ensures ListedAt(survey.registry, fs.canonical(e.path), e.id) {
      ListedIn(fs, home.index, e);
    }
    forall e
      ensures e in Reindexed(fs.canonical, home.index, binding).value <==> Stays(fs, home, survey.root, id, e)
    {
      assert Register(e.id, e.path) in binding <==> Binds(survey.registry, survey.root, id, Register(e.id, e.path));
      var dropped := Unregister(e.id, fs.canonical(e.path));
      assert dropped in binding <==> Binds(survey.registry, survey.root, id, dropped);
    }
  }

  lemma {:induction false} ReindexedFirst(canonical: Canonical, index: seq<Entry>, root: string, id: string,
                                          changes: seq<Change>)
    ensures Reindexed(canonical, index, [WriteMarker(root, id)] + changes) == Reindexed(canonical, index, changes)
  {
    hide ValidId;
    var first := [WriteMarker(root, id)];
    if changes == [] {
      assert first + changes == first && first[..0] == [];
    } else {
      ReindexedFirst(canonical, index, root, id, changes[..|changes| - 1]);
      assert (first + changes)[..|first + changes| - 1] == first + changes[..|changes| - 1];
    }
  }

  /** The registry a binding plan of a marked root leaves. */
  function BoundIndex(fs: Fs, home: Home, survey: Survey, id: string): seq<Entry>
    requires survey.registry == Listing(fs, home.index) && ValidId(id)
  {
    BindingStays(fs, home, survey, id);
    Reindexed(fs.canonical, home.index, Binding(survey, survey.root, id)).value
  }

  /** A binding plan, made where the root has its marker, changes the registry alone. */
  lemma MadeBinding(fs: Fs, home: Home, pin: Option<string>, survey: Survey, id: string)
    requires SurveyOf(fs, home, survey.root, pin) == Success(survey)
    requires survey.registry == Listing(fs, home.index) && ValidId(id)
    ensures Made(fs, home, pin, survey, Binding(survey, survey.root, id)) ==
            (home.(index := BoundIndex(fs, home, survey, id)), Success(()))
  {
    hide SurveyOf, ValidId, Binding, Reindexed, Filed, Stays;
    var binding := Binding(survey, survey.root, id);
    BindingStays(fs, home, survey, id);
    var bound := home.(index := BoundIndex(fs, home, survey, id));
    FiledFirst(bound, [], binding);
    FiledNothing(bound);
    assert [] + binding == binding;
  }

  /** Made where there is no marker, the plan writes it too. */
  lemma MadeMarkedBinding(fs: Fs, home: Home, pin: Option<string>, survey: Survey, id: string)
    requires SurveyOf(fs, home, survey.root, pin) == Success(survey)
    requires survey.registry == Listing(fs, home.index) && ValidId(id)
    ensures Made(fs, home, pin, survey, [WriteMarker(survey.root, id)] + Binding(survey, survey.root, id)) ==
            (Marking(home.(index := BoundIndex(fs, home, survey, id)), survey.root, id), Success(()))
  {
    hide SurveyOf, ValidId, Binding, Reindexed, Filed, Stays;
    var binding := Binding(survey, survey.root, id);
    BindingStays(fs, home, survey, id);
    var bound := home.(index := BoundIndex(fs, home, survey, id));
    FiledFirst(bound, [WriteMarker(survey.root, id)], binding);
    ReindexedFirst(fs.canonical, home.index, survey.root, id, binding);
    FiledMarker(bound, survey.root, id);
  }

  /** A heal of a marked root makes its binding plan, writing the marker where there is none. */
  lemma HealedMakes(fs: Fs, home: Home, root: string, pin: Option<string>, checks: string -> Checked)
    requires Surveys(fs, home, root, pin, checks) && Marked(SurveyOf(fs, home, root, pin).value).Some?
    ensures var survey := SurveyOf(fs, home, root, pin).value;
            var id := Marked(survey).value;
            && survey.root == root && survey.registry == Listing(fs, home.index) && ValidId(id)
            && var bound := home.(index := BoundIndex(fs, home, survey, id));
               var (home', plan) := Healed(fs, home, root, pin, checks, true);
               && plan.Success? && plan.value.changes == Planned(survey).0
               && home' == if survey.marker.None? then Marking(bound, root, id) else bound
  {
    SurveyHolds(fs, home, root, pin);
    hide SurveyOf, ValidId, Binding, BoundIndex, Made;
    var survey := SurveyOf(fs, home, root, pin).value;
    var id := Marked(survey).value;
    if survey.marker.None? {
      MadeMarkedBinding(fs, home, pin, survey, id);
    } else {
      MadeBinding(fs, home, pin, survey, id);
      assert [] + Binding(survey, root, id) == Binding(survey, root, id);
      if Binding(survey, root, id) == [] {
        UnboundIndex(fs, home, survey, id);
      }
    }
  }

  /** A plan of nothing leaves the registry as it is. */
  lemma UnboundIndex(fs: Fs, home: Home, survey: Survey, id: string)
    requires survey.registry == Listing(fs, home.index) && ValidId(id) && Binding(survey, survey.root, id) == []
    ensures home.(index := BoundIndex(fs, home, survey, id)) == home
  {
    hide ValidId, Binding;
  }

  /**
   A heal of a marked root: the marker is the one that marks it, the registry exactly the
   entries that stay, and nothing else is changed.
   */
  lemma HealedMarked(fs: Fs, home: Home, root: string, pin: Option<string>, checks: string -> Checked)
    requires Surveys(fs, home, root, pin, checks) && Marked(SurveyOf(fs, home, root, pin).value).Some?
    ensures var survey := SurveyOf(fs, home, root, pin).value;
            var id := Marked(survey).value;
            var (home', plan) := Healed(fs, home, root, pin, checks, true);
            && plan.Success? && plan.value.changes == Planned(survey).0
            && home'.markers == (if survey.marker.None? then Marking(home, root, id).markers else home.markers)
            && home'.legacy == home.legacy && home'.databases == home.databases
            && forall e :: e in home'.index <==> Stays(fs, home, root, id, e)
  {
    hide SurveyOf, Planned, Healed, Stays, ValidId, Binding, Reindexed;
    HealedMakes(fs, home, root, pin, checks);
    var survey := SurveyOf(fs, home, root, pin).value;
    BindingStays(fs, home, survey, Marked(survey).value);
  }

  lemma FiledNothing(home: Home)
    ensures Filed(home, []) == (home, Success(()))
  {
  }

  lemma FiledMarker(home: Home, root: string, id: string)
    requires ValidId(id)
    ensures Filed(home, [WriteMarker(root, id)]) == (Marking(home, root, id), Success(()))
  {
    hide ValidId;
    var changes := [WriteMarker(root, id)];
    assert changes[..0] == [];
  }

  /** A heal of an unmarked root registered as one id writes the marker, and changes nothing else. */
  lemma HealedUnmarked(fs: Fs, home: Home, root: string, pin: Option<string>, checks: string -> Checked)
    requires Surveys(fs, home, root, pin, checks) && Marked(SurveyOf(fs, home, root, pin).value).None?
    ensures var survey := SurveyOf(fs, home, root, pin).value;
            var (home', plan) := Healed(fs, home, root, pin, checks, true);
            var at := IdsAt(survey.registry, root);
            if |at| != 1 then
              home' == home && plan.Success? && plan.value.changes == []
              && (|at| > 1 <==> exists p :: p in plan.value.unresolved && p.TwoIds?)
            else if ValidId(at[0]) then home' == Marking(home, root, at[0]) && plan.Success?
            else home' == home && plan.Failure?
  {
    SurveyHolds(fs, home, root, pin);
    hide SurveyOf, ValidId, Binding, IdsAt;
    var survey := SurveyOf(fs, home, root, pin).value;
    var at := IdsAt(survey.registry, root);
    if |at| == 1 {
      ReindexedFirst(fs.canonical, home.index, root, at[0], []);
      assert [WriteMarker(root, at[0])] + [] == [WriteMarker(root, at[0])];
      assert home.(index := home.index) == home;
      FiledOne(home, root, at[0]);
    } else if |at| > 1 {
      assert TwoIds(root, at) in Healed(fs, home, root, pin, checks, true).1.value.unresolved;
    }
  }

  lemma FiledOne(home: Home, root: string, id: string)
    ensures Filed(home, [WriteMarker(root, id)]) ==
            if ValidId(id) then (Marking(home, root, id), Success(())) else (home, Failure(InvalidId(id)))
  {
    hide ValidId;
    var changes := [WriteMarker(root, id)];
    assert changes[..0] == [];
  }

  // ----- the survey a heal leaves

  /** The registry at a root says only what its marker does, and lists none of that id's gone. */
  ghost predicate Straight(registry: seq<Listed>, root: string, id: string) {
    && (forall other :: ListedAt(registry, root, other) ==> other == id)
    && (forall path :: !GoneAt(registry, id, path))
  }

  lemma ListingHolds(fs: Fs, index: seq<Entry>, path: string, id: string)
    ensures ListedAt(Listing(fs, index), path, id) <==>
              exists e :: e in index && fs.canonical(e.path) == path && e.id == id
    ensures GoneAt(Listing(fs, index), id, path) <==>
              exists e :: e in index && fs.canonical(e.path) == path && e.id == id && !fs.isDir(e.path)
  {
    var registry := Listing(fs, index);
    if ListedAt(registry, path, id) {
      var i :| 0 <= i < |registry| && registry[i].canonical == path && registry[i].id == id;
      assert index[i] in index;
    }
    if GoneAt(registry, id, path) {
      var i :| 0 <= i < |registry| && registry[i].id == id && registry[i].canonical == path && !registry[i].live;
      assert index[i] in index;
    }
    if e :| e in index && fs.canonical(e.path) == path && e.id == id {
      ListedIn(fs, index, e);
    }
    if e :| e in index && fs.canonical(e.path) == path && e.id == id && !fs.isDir(e.path) {
      ListedIn(fs, index, e);
    }
  }

  /** What stays is straight; the marked id is listed at the root unless a gone entry is spelled there. */
  lemma StaysStraight(fs: Fs, home: Home, root: string, id: string, index: seq<Entry>)
    requires fs.canonical(root) == root && fs.isDir(root)
    requires forall e :: e in index <==> Stays(fs, home, root, id, e)
    ensures var registry := Listing(fs, index);
            && Straight(registry, root, id)
            && (ListedAt(registry, root, id) <==> !GoneAt(Listing(fs, home.index), id, root))
  {
    hide GoneAt, ListedAt;
    var was, now := Listing(fs, home.index), Listing(fs, index);
    forall other | ListedAt(now, root, other) ensures other == id {
      ListingHolds(fs, index, root, other);
    }
    forall path ensures !GoneAt(now, id, path) {
      ListingHolds(fs, index, path, id);
      ListingHolds(fs, home.index, path, id);
    }
    ListingHolds(fs, index, root, id);
    ListingHolds(fs, home.index, root, id);
    if !GoneAt(was, id, root) {
      if ListedAt(was, root, id) {
        var e :| e in home.index && fs.canonical(e.path) == root && e.id == id;
        assert Stays(fs, home, root, id, e);
      } else {
        assert Stays(fs, home, root, id, Entry(id, root));
      }
    }
  }

  lemma {:induction false} IdsAtOne(registry: seq<Listed>, root: string, id: string)
    requires forall i :: 0 <= i < |registry| && registry[i].canonical == root ==> registry[i].id == id
    ensures IdsAt(registry, root) == if ListedAt(registry, root, id) then [id] else []
  {
    if registry != [] {
      var last := |registry| - 1;
      IdsAtOne(registry[..last], root, id);
      assert forall i :: 0 <= i < last ==> registry[..last][i] == registry[i];
    }
  }

  /** What a marked, straight root comes to: nothing to change and no problem, if it is registered. */
  lemma StraightPlans(survey: Survey, id: string)
    requires survey.marker == Some(id) && Straight(survey.registry, survey.root, id)
    ensures Planned(survey).0 == [] <==> ListedAt(survey.registry, survey.root, id)
    ensures RootProblems(survey) == [] <==> ListedAt(survey.registry, survey.root, id)
  {
    hide GoneAt, Binding, IdsAt;
    var registry, root := survey.registry, survey.root;
    var binding := Binding(survey, root, id);
    BindingHolds(survey, root, id);
    forall i | 0 <= i < |registry| && registry[i].canonical == root ensures registry[i].id == id {
      assert ListedAt(registry, root, registry[i].id);
    }
    IdsAtOne(registry, root, id);
    forall c ensures c in binding <==> c == Register(id, root) && !ListedAt(registry, root, id) {
      assert c in binding <==> Binds(registry, root, id, c);
    }
    if binding != [] {
      assert binding[0] in binding;
    } else {
      assert Register(id, root) !in binding;
    }
  }

  /** The survey after a heal of a marked root. */
  lemma SurveyAfter(fs: Fs, home: Home, root: string, pin: Option<string>, checks: string -> Checked)
    requires fs.canonical(root) == root && fs.isDir(root)
    requires Surveys(fs, home, root, pin, checks) && Marked(SurveyOf(fs, home, root, pin).value).Some?
    ensures var survey := SurveyOf(fs, home, root, pin).value;
            var id := Marked(survey).value;
            var now := SurveyOf(fs, Healed(fs, home, root, pin, checks, true).0, root, pin);
            && now.Success? && now.value.root == root && now.value.marker == Some(id)
            && (pin.None? ==> now.value.resolved == Some(id)) && (pin.Some? ==> now.value.resolved == pin)
            && Straight(now.value.registry, root, id)
            && (ListedAt(now.value.registry, root, id) <==> !GoneAt(survey.registry, id, root))
  {
    SurveyHolds(fs, home, root, pin);
    HealedMarked(fs, home, root, pin, checks);
    var survey := SurveyOf(fs, home, root, pin).value;
    var id := Marked(survey).value;
    var home' := Healed(fs, home, root, pin, checks, true).0;
    MarkerReadsBack(home, root, id);
    StaysStraight(fs, home, root, id, home'.index);
    SurveyReads(fs, home, home', root, pin, id);
  }

  /** A root's survey with its marker read as `id`. */
  lemma SurveyReads(fs: Fs, home: Home, home': Home, root: string, pin: Option<string>, id: string)
    requires SurveyOf(fs, home, root, pin).Success? && home'.legacy == home.legacy
    requires ReadMarker(home'.markers, root) == Success(Some(id))
    ensures var now := SurveyOf(fs, home', root, pin);
            now == Success(Survey(root, if pin.Some? then pin else Some(id), Some(id),
                                  SurveyOf(fs, home, root, pin).value.legacyMarker, Listing(fs, home'.index),
                                  home'.databases))
  {
    SurveyHolds(fs, home, root, pin);
    hide ReadMarker, ValidId, Unmarked;
  }

  // ----- what is reported

  /** The ids that claim a registered root: those it is registered as, and the one that marks it. */
  predicate Claims(survey: Survey, id: string) {
    ListedAt(survey.registry, survey.root, id) || Marked(survey) == Some(id)
  }

  /** Two ids claim the root, one of them in the registry. */
  ghost predicate Contested(survey: Survey) {
    exists id, other :: id != other && ListedAt(survey.registry, survey.root, id) && Claims(survey, other)
  }

  /**
   Every inconsistency at the root is reported and none else: two ids that claim it, a
   marked root not registered at all, a registered one without a marker, and one marked by
   the older marker alone.
   */
  lemma RootProblemsAre(survey: Survey)
    ensures var (problems, root) := (RootProblems(survey), survey.root);
            && (forall p :: p in problems ==> !p.Damaged? && p.root == root)
            && ((exists p :: p in problems && p.TwoIds?) <==> Contested(survey))
            && (forall p :: p in problems && p.TwoIds? ==> forall id :: id in p.ids <==> Claims(survey, id))
            && (forall id :: Unregistered(root, id) in problems <==>
                  Marked(survey) == Some(id) && forall other :: !ListedAt(survey.registry, root, other))
            && (forall id :: MissingMarker(root, id) in problems <==>
                  Marked(survey).None? && forall other :: ListedAt(survey.registry, root, other) <==> other == id)
            && (forall id :: LegacyMarkerOnly(root, id) in problems <==>
                  survey.marker.None? && survey.legacyMarker == Some(id))
  {
    hide ListedAt, IdsAt;
    var (at, marked) := (IdsAt(survey.registry, survey.root), Marked(survey));
    IdsAtHolds(survey.registry, survey.root);
    var ids := if marked.Some? && marked.value !in at && at != [] then at + [marked.value] else at;
    if |ids| > 1 {
      assert ids[0] in at && ids[0] != ids[1] && ids[1] in ids;
      assert Claims(survey, ids[1]);
      assert TwoIds(survey.root, ids) in RootProblems(survey);
    } else {
      NotContested(survey, at);
    }
    assert |at| == 1 ==> at == [at[0]];
    assert |at| > 0 ==> at[0] in at;
    assert |at| > 1 ==> at[1] in at && at[1] != at[0];
    forall id
      ensures MissingMarker(survey.root, id) in RootProblems(survey) <==>
                Marked(survey).None? && forall other :: ListedAt(survey.registry, survey.root, other) <==> other == id
    {
      assert id in at <==> ListedAt(survey.registry, survey.root, id);
    }
  }

  lemma NotContested(survey: Survey, at: seq<string>)
    requires forall id :: id in at <==> ListedAt(survey.registry, survey.root, id)
    requires |at| <= 1 && (Marked(survey).Some? && at != [] ==> Marked(survey).value in at)
    ensures !Contested(survey)
  {
    hide ListedAt;
  }

  /** A survey is taken exactly where each marker there is, and the id the environment names, is an id. */
  lemma SurveyMeans(fs: Fs, home: Home, root: string, pin: Option<string>)
    ensures var (marker, older) := (MarkerText(home.markers, root), MarkerText(home.legacy, root));
            var survey := SurveyOf(fs, home, root, pin);
            && (survey.Success? <==> && (pin.Some? ==> ValidId(pin.value))
                                     && (marker != "" ==> ValidId(marker)) && (older != "" ==> ValidId(older)))
            && (survey.Success? ==>
                  && survey.value.marker == (if marker == "" then None else Some(marker))
                  && survey.value.legacyMarker == (if older == "" then None else Some(older))
                  && Success(survey.value.resolved) ==
                     (if pin.Some? then Success(pin) else Bound(fs.canonical, home, root)))
  {
    hide ValidId, Text.Trim, IdFor;
  }

  /**
   What a heal reports beside its changes: damage exactly where the check of the resolved
   project finds it. It fails where the survey or that check does, changing nothing; nor
   does one not asked to apply change anything, though it plans the same.
   */
  lemma HealReports(fs: Fs, home: Home, root: string, pin: Option<string>, checks: string -> Checked, apply: bool)
    ensures var survey := SurveyOf(fs, home, root, pin);
            var (home', plan) := Healed(fs, home, root, pin, checks, apply);
            if survey.Failure? then (home', plan) == (home, Failure(Port(survey.error)))
            else if !Surveys(fs, home, root, pin, checks) then (home', plan) == (home, Failure(CheckFailed))
            else
              && (!apply ==> home' == home && plan.Success?)
              && (plan.Success? ==>
                    && plan.value.changes == Planned(survey.value).0
                    && (plan.value.applied <==> apply && plan.value.changes != [])
                    && (forall id :: Problem.Damaged(id) in plan.value.unresolved <==>
                          survey.value.resolved == Some(id) && checks(id) == Broken))
  {
    hide SurveyOf, Binding, Made, IdsAt, ValidId;
    if Surveys(fs, home, root, pin, checks) {
      var survey := SurveyOf(fs, home, root, pin).value;
      var (changes, twoIds) := Planned(survey);
      assert forall p :: p in twoIds ==> p.TwoIds?;
    }
  }

  // ----- applying, guarded

  /** Changes are made only where the survey they were planned from still holds; else nothing is. */
  lemma StaleRefused(fs: Fs, home: Home, pin: Option<string>, seen: Survey, changes: seq<Change>)
    ensures var now := SurveyOf(fs, home, seen.root, pin);
            now != Success(seen) ==>
              Made(fs, home, pin, seen, changes) == (home, Failure(if now.Failure? then now.error else SurveyChanged))
  {
    hide SurveyOf, Reindexed, Filed;
  }

  /** Nor where one of them registers what is no id: then nothing is changed at all. */
  lemma {:induction false} BadIdRefused(canonical: Canonical, index: seq<Entry>, changes: seq<Change>)
    ensures Reindexed(canonical, index, changes).Failure? <==>
              exists c :: c in changes && c.Register? && !ValidId(c.id)
  {
    if changes != [] {
      hide ValidId;
      var last := |changes| - 1;
      BadIdRefused(canonical, index, changes[..last]);
      assert changes == changes[..last] + [changes[last]];
    }
  }

  /** A database is removed by its name, alone, and only where there is one. */
  lemma DatabaseRemoved(home: Home, id: string)
    ensures var (home', made) := Filed(home, [RemoveDatabase(id)]);
            if ValidId(id) && id in home.databases then
              home' == home.(databases := home.databases - {id}) && made.Success?
            else home' == home && made.Failure?
  {
    hide ValidId;
    var changes := [RemoveDatabase(id)];
    assert changes[..0] == [];
  }

  // ----- what heals come to

  /** An entry of the id that marks the root, whose own path is gone, is spelled so that it comes to `path`. */
  predicate GoneOfMarked(survey: Survey, path: string) {
    Marked(survey).Some? && GoneAt(survey.registry, Marked(survey).value, path)
  }

  /**
   A heal that is made and reports no two ids leaves the root with none of TwoIds,
   MissingMarker, LegacyMarkerOnly or Unregistered, unless an entry of the marked id whose
   path is gone comes to the root itself: dropping it drops the root's own entry.
   */
  lemma HealRepairsRoot(fs: Fs, home: Home, root: string, pin: Option<string>, checks: string -> Checked)
    requires fs.canonical(root) == root && fs.isDir(root)
    requires var plan := Healed(fs, home, root, pin, checks, true).1;
             plan.Success? && forall p :: p in plan.value.unresolved ==> !p.TwoIds?
    ensures var now := SurveyOf(fs, Healed(fs, home, root, pin, checks, true).0, root, pin);
            && now.Success?
            && (RootProblems(now.value) == [] <==> !GoneOfMarked(SurveyOf(fs, home, root, pin).value, root))
  {
    assert Surveys(fs, home, root, pin, checks) by { hide SurveyOf, Planned, Made; }
    var survey := SurveyOf(fs, home, root, pin).value;
    var home' := Healed(fs, home, root, pin, checks, true).0;
    if Marked(survey).Some? {
      SurveyAfter(fs, home, root, pin, checks);
      hide SurveyOf, Healed, RootProblems, Straight, GoneAt, ListedAt;
      StraightPlans(SurveyOf(fs, home', root, pin).value, Marked(survey).value);
    } else {
      HealedUnmarked(fs, home, root, pin, checks);
      SurveyHolds(fs, home, root, pin);
      hide Healed, GoneAt, ListedAt;
      if |IdsAt(survey.registry, root)| == 1 {
        UnmarkedRepaired(fs, home, root, pin);
      }
    }
  }

  /** A marker written for the one id a root is registered as leaves its survey without a problem. */
  lemma UnmarkedRepaired(fs: Fs, home: Home, root: string, pin: Option<string>)
    requires SurveyOf(fs, home, root, pin).Success? && Marked(SurveyOf(fs, home, root, pin).value).None?
    requires var at := IdsAt(Listing(fs, home.index), root); |at| == 1 && ValidId(at[0])
    ensures var at := IdsAt(Listing(fs, home.index), root);
            var now := SurveyOf(fs, Marking(home, root, at[0]), root, pin);
            && now.Success? && now.value.marker == Some(at[0]) && now.value.root == root
            && now.value.registry == Listing(fs, home.index) && RootProblems(now.value) == []
            && (pin.None? ==> now.value.resolved == Some(at[0])) && (pin.Some? ==> now.value.resolved == pin)
  {
    var at := IdsAt(Listing(fs, home.index), root);
    MarkerReadsBack(home, root, at[0]);
    SurveyReads(fs, home, Marking(home, root, at[0]), root, pin, at[0]);
    hide SurveyOf, IdsAt, ValidId;
  }

  /**
   A heal that is made drops a live tree's entry elsewhere only when it names the marked id
   and comes to the same path as one of that id's entries whose own path is gone.
   */
  lemma HealSparesLive(fs: Fs, home: Home, root: string, pin: Option<string>, checks: string -> Checked, e: Entry)
    requires Healed(fs, home, root, pin, checks, true).1.Success?
    requires e in home.index && fs.isDir(e.path) && fs.canonical(e.path) != root
    ensures var survey := SurveyOf(fs, home, root, pin).value;
            e in Healed(fs, home, root, pin, checks, true).0.index <==>
              !(Marked(survey) == Some(e.id) && GoneOfMarked(survey, fs.canonical(e.path)))
  {
    assert Surveys(fs, home, root, pin, checks) by { hide SurveyOf, Planned, Made; }
    var survey := SurveyOf(fs, home, root, pin).value;
    SurveyHolds(fs, home, root, pin);
    if Marked(survey).Some? {
      HealedMarked(fs, home, root, pin, checks);
      var id := Marked(survey).value;
      assert e in Healed(fs, home, root, pin, checks, true).0.index <==> Stays(fs, home, root, id, e);
      hide SurveyOf, Healed, GoneAt, ListedAt;
    } else {
      HealedUnmarked(fs, home, root, pin, checks);
      hide SurveyOf, Healed, GoneAt, ListedAt;
    }
  }

  function HealedTimes(fs: Fs, home: Home, root: string, pin: Option<string>, checks: string -> Checked, n: nat): Home {
    if n == 0 then home else Healed(fs, HealedTimes(fs, home, root, pin, checks, n - 1), root, pin, checks, true).0
  }

  /** Nothing is left for a heal to change. */
  predicate Rests(fs: Fs, home: Home, root: string, pin: Option<string>) {
    var survey := SurveyOf(fs, home, root, pin);
    survey.Success? && Planned(survey.value).0 == []
  }

  lemma RunsEverywhere(fs: Fs, home: Home, root: string, pin: Option<string>, checks: string -> Checked)
    requires SurveyOf(fs, home, root, pin).Success? && forall id :: !checks(id).CannotRun?
    ensures Surveys(fs, home, root, pin, checks)
  {
    hide SurveyOf;
  }

  /** A marked root needs a second heal exactly when a gone entry comes to it, and never a third. */
  lemma MarkedConverges(fs: Fs, home: Home, root: string, pin: Option<string>, checks: string -> Checked)
    requires fs.canonical(root) == root && fs.isDir(root) && forall id :: !checks(id).CannotRun?
    requires SurveyOf(fs, home, root, pin).Success? && Marked(SurveyOf(fs, home, root, pin).value).Some?
    ensures Rests(fs, HealedTimes(fs, home, root, pin, checks, 1), root, pin) <==>
              !GoneOfMarked(SurveyOf(fs, home, root, pin).value, root)
    ensures Rests(fs, HealedTimes(fs, home, root, pin, checks, 2), root, pin)
  {
    RunsEverywhere(fs, home, root, pin, checks);
    SurveyAfter(fs, home, root, pin, checks);
    var survey := SurveyOf(fs, home, root, pin).value;
    var id := Marked(survey).value;
    var once := Healed(fs, home, root, pin, checks, true).0;
    TimesOnce(fs, home, root, pin, checks);
    hide SurveyOf, Healed, HealedTimes, Straight, GoneAt, ListedAt, Planned;
    StraightPlans(SurveyOf(fs, once, root, pin).value, id);
    RunsEverywhere(fs, once, root, pin, checks);
    SurveyAfter(fs, once, root, pin, checks);
    StraightNotGone(SurveyOf(fs, once, root, pin).value.registry, root, id);
    StraightPlans(SurveyOf(fs, Healed(fs, once, root, pin, checks, true).0, root, pin).value, id);
  }

  lemma StraightNotGone(registry: seq<Listed>, root: string, id: string)
    requires Straight(registry, root, id)
    ensures !GoneAt(registry, id, root)
  {
  }

  lemma TimesOnce(fs: Fs, home: Home, root: string, pin: Option<string>, checks: string -> Checked)
    ensures HealedTimes(fs, home, root, pin, checks, 1) == Healed(fs, home, root, pin, checks, true).0
    ensures HealedTimes(fs, home, root, pin, checks, 2) ==
            Healed(fs, HealedTimes(fs, home, root, pin, checks, 1), root, pin, checks, true).0
  {
    hide Healed;
  }

  /** Healing from `home` on is healing once, and then from there. */
  lemma {:induction false} TimesAfterFirst(fs: Fs, home: Home, root: string, pin: Option<string>,
                                           checks: string -> Checked, n: nat)
    ensures HealedTimes(fs, home, root, pin, checks, n + 1) ==
            HealedTimes(fs, Healed(fs, home, root, pin, checks, true).0, root, pin, checks, n)
  {
    hide Healed;
    if n > 0 {
      TimesAfterFirst(fs, home, root, pin, checks, n - 1);
    }
  }

  /**
   Applied heals reach one with nothing to change: three always do, two exactly when it is
   not that an unmarked root is registered as one id an entry of which is gone and comes to it.
   */
  lemma HealsConverge(fs: Fs, home: Home, root: string, pin: Option<string>, checks: string -> Checked)
    requires fs.canonical(root) == root && fs.isDir(root) && forall id :: !checks(id).CannotRun?
    requires Healed(fs, home, root, pin, checks, true).1.Success?
    ensures var survey := SurveyOf(fs, home, root, pin).value;
            var at := IdsAt(survey.registry, root);
            Rests(fs, HealedTimes(fs, home, root, pin, checks, 2), root, pin) <==>
              !(Marked(survey).None? && |at| == 1 && GoneAt(survey.registry, at[0], root))
    ensures Rests(fs, HealedTimes(fs, home, root, pin, checks, 3), root, pin)
  {
    assert Surveys(fs, home, root, pin, checks) by { hide SurveyOf, Planned, Made; }
    var survey := SurveyOf(fs, home, root, pin).value;
    var once := Healed(fs, home, root, pin, checks, true).0;
    TimesAfterFirst(fs, home, root, pin, checks, 1);
    TimesAfterFirst(fs, home, root, pin, checks, 2);
    TimesOnce(fs, once, root, pin, checks);
    SurveyHolds(fs, home, root, pin);
    if Marked(survey).Some? {
      MarkedConverges(fs, home, root, pin, checks);
      TimesAfterFirst(fs, home, root, pin, checks, 0);
      SurveyAfter(fs, home, root, pin, checks);
      hide SurveyOf, Healed, Straight, GoneAt, ListedAt, Planned;
      MarkedConverges(fs, once, root, pin, checks);
    } else {
      HealedUnmarked(fs, home, root, pin, checks);
      if |IdsAt(survey.registry, root)| == 1 {
        UnmarkedRepaired(fs, home, root, pin);
        hide SurveyOf, Healed, Straight, GoneAt, ListedAt, Planned, ValidId;
        MarkedConverges(fs, once, root, pin, checks);
      } else {
        NothingToHeal(fs, home, root, pin, checks, 2);
        NothingToHeal(fs, home, root, pin, checks, 3);
        hide SurveyOf, Healed, HealedTimes, Straight, GoneAt, ListedAt;
      }
    }
  }

  lemma {:induction false} NothingToHeal(fs: Fs, home: Home, root: string, pin: Option<string>,
                                         checks: string -> Checked, n: nat)
    requires Healed(fs, home, root, pin, checks, true).0 == home
    ensures HealedTimes(fs, home, root, pin, checks, n) == home
  {
    hide Healed;
    if n > 0 {
      NothingToHeal(fs, home, root, pin, checks, n - 1);
    }
  }

  // ----- entries spelled through a directory that is gone

  /** `/r` and `/w` are directories, and are what paths spelled through the missing `/gone` come to. */
  function DetouredFs(): Fs {
    Fs(path => if path == "/gone/../r" then "/r" else if path == "/gone/../w" then "/w" else path,
       path => path == "/r" || path == "/w")
  }

  /** `/r` marked `id`, or with no marker, beside a registry. */
  function Detoured(id: Option<string>, index: seq<Entry>): Home {
    Home(if id.Some? then map["/r" := id.value] else map[], map[], index, {})
  }

  lemma DetouredSurvey(id: Option<string>, index: seq<Entry>)
    requires id.Some? ==> ValidId(id.value)
    ensures var survey := SurveyOf(DetouredFs(), Detoured(id, index), "/r", None);
            && survey.Success? && survey.value.marker == id && Marked(survey.value) == id
            && survey.value.registry == Listing(DetouredFs(), index)
            && (id.Some? ==> survey.value.resolved == id)
  {
    if id.Some? {
      assert IdChar(id.value[0]) && IdChar(id.value[|id.value| - 1]);
      assert Text.TrimStart(id.value) == id.value && Text.TrimEnd(id.value) == id.value;
    }
    hide ValidId, IdFor, Text.Trim;
  }

  lemma DetouredIsGone(id: string, index: seq<Entry>, i: nat, end: string)
    requires i < |index| && index[i] == Entry(id, "/gone/../" + end) && (end == "r" || end == "w")
    ensures GoneAt(Listing(DetouredFs(), index), id, "/" + end)
  {
    assert Listing(DetouredFs(), index)[i] == ListedAs(DetouredFs(), index[i]);
    assert "/gone/../" + "r" == "/gone/../r" && "/gone/../" + "w" == "/gone/../w";
    assert |index[i].path| == 10 && "/" + "r" == "/r" && "/" + "w" == "/w";
  }

  /** A marked root whose one entry is such a path is left with none: it is dropped as the root's own. */
  lemma DetouredUnregisters(id: string, checks: string -> Checked)
    requires ValidId(id) && !checks(id).CannotRun?
    ensures var home := Detoured(Some(id), [Entry(id, "/gone/../r")]);
            var (home', plan) := Healed(DetouredFs(), home, "/r", None, checks, true);
            && plan.Success? && (forall e :: e !in home'.index)
            && var now := SurveyOf(DetouredFs(), home', "/r", None); now.Success? && RootProblems(now.value) != []
  {
    var fs, index := DetouredFs(), [Entry(id, "/gone/../r")];
    var home := Detoured(Some(id), index);
    DetouredSurvey(Some(id), index);
    DetouredIsGone(id, index, 0, "r");
    hide SurveyOf, Healed, GoneAt, ValidId, Planned, RootProblems;
    HealedMarked(fs, home, "/r", None, checks);
    ListedIn(fs, index, index[0]);
    HealRepairsRoot(fs, home, "/r", None, checks);
  }

  /** A heal of `root` that is made drops the entry `e`, whose tree is there. */
  predicate DropsLive(fs: Fs, home: Home, root: string, checks: string -> Checked, e: Entry) {
    var (home', plan) := Healed(fs, home, root, None, checks, true);
    e in home.index && fs.isDir(e.path) && plan.Success? && e !in home'.index
  }

  /** An entry that is gone and comes to `/w`, and that of `/w`. */
  function Elsewhere(id: string): seq<Entry> {
    [Entry(id, "/gone/../w"), Entry(id, "/w")]
  }

  /** A heal can drop a live tree's entry: one of the same id that is gone comes to the same path. */
  lemma DetouredDropsLive(id: string, checks: string -> Checked)
    requires ValidId(id) && !checks(id).CannotRun?
    ensures DropsLive(DetouredFs(), Detoured(Some(id), Elsewhere(id)), "/r", checks, Entry(id, "/w"))
  {
    var fs, index := DetouredFs(), Elsewhere(id);
    var home := Detoured(Some(id), index);
    DetouredSurvey(Some(id), index);
    DetouredIsGone(id, index, 0, "w");
    hide SurveyOf, Healed, GoneAt, ValidId, Planned;
    HealedMarked(fs, home, "/r", None, checks);
    assert Entry(id, "/w") == index[1];
    HealSparesLive(fs, home, "/r", None, checks, Entry(id, "/w"));
  }

  /** An unmarked root whose one entry is such a path needs a third heal: marked, unregistered, registered. */
  lemma DetouredNeedsThree(id: string, checks: string -> Checked)
    requires ValidId(id) && forall other :: !checks(other).CannotRun?
    ensures var home := Detoured(None, [Entry(id, "/gone/../r")]);
            && !Rests(DetouredFs(), HealedTimes(DetouredFs(), home, "/r", None, checks, 2), "/r", None)
            && Rests(DetouredFs(), HealedTimes(DetouredFs(), home, "/r", None, checks, 3), "/r", None)
  {
    var fs, index := DetouredFs(), [Entry(id, "/gone/../r")];
    var home := Detoured(None, index);
    DetouredSurvey(None, index);
    DetouredIsGone(id, index, 0, "r");
    var registry := Listing(fs, index);
    ListedIn(fs, index, index[0]);
    IdsAtOne(registry, "/r", id);
    hide SurveyOf, Healed, HealedTimes, GoneAt, ListedAt, ValidId, Planned, Rests, IdsAt;
    RunsEverywhere(fs, home, "/r", None, checks);
    HealedUnmarked(fs, home, "/r", None, checks);
    HealsConverge(fs, home, "/r", None, checks);
  }
}
