/**
 The artifact store under crashes and free interleaving: creations, closes and deletions advance one
 file system call at a time, and any supervisor may die between two calls. Any supervisor may at any
 moment reclaim what its scan reports. Execution ids are not used again once their directory was made.
 */
module ArtifactProtocol {
  import opened Options
  import opened Runs
  import opened ArtifactNames
  import opened ArtifactStore

  /** Where a creation stands: directory made, marker half written, marker written, marker in place. */
  datatype CreatePhase = Empty | Writing | Written | Marked

  datatype Creator = Creator(path: Path, staging: Path, owner: string, phase: CreatePhase)

  /** Where a close stands: nothing done, marker half written, marker written, old marker removed. */
  datatype ClosePhase = Opened | Rewriting | Rewritten | Unmarked

  datatype Closer = Closer(path: Path, phase: ClosePhase)

  /**
   A recursive deletion. It unlinks entries, in any order, in the directory it has opened, which a
   rename may since have moved to `path`, and then removes the directory under the name it was given.
   It counts as having opened the directory from the moment it was chosen for deletion.
   */
  datatype Deleter = Deleter(path: Path, named: Path, owner: string)

  datatype DeleteOp = UnlinkMarker | UnlinkTemp | RemoveEmpty | GiveUp

  /**
   The directories, the calls in flight, who made what, the handles not yet used to close, and the
   history: `stripped` had its marker removed, `torn` had an entry unlinked by a deletion.
   */
  datatype State = State(
    dirs: map<Path, Dir>, creators: map<nat, Creator>, closers: map<nat, Closer>, deleters: map<nat, Deleter>,
    made: map<Path, string>, handles: set<Path>, stagings: set<string>, stripped: set<Path>, torn: set<Path>)

  datatype Action =
    | BeginCreate(call: nat, path: Path, owner: string, staging: string)
    | StepCreate(call: nat)
    | BeginClose(call: nat, path: Path)
    | StepClose(call: nat)
    | BeginReclaim(call: nat, path: Path, owner: string)
    | BeginCloseByDelete(call: nat, path: Path)
    | StepDelete(call: nat, op: DeleteOp)
    | Crash(owner: string)

  function Initial(): State {
    State(map[], map[], map[], map[], map[], {}, {}, {}, {})
  }

  predicate ValidPath(path: Path) {
    ValidComponent(path.project) && ValidComponent(path.run) && ValidComponent(path.name)
  }

  const EMPTY_DIR := Dir(None, None)

  function ActiveFile(path: Path, owner: string): Option<Content> {
    Some(Whole(ActiveMarker(path, owner)))
  }

  function ClosedFile(path: Path): Option<Content> {
    Some(Whole(ClosedMarker(path)))
  }

  /** The staging directory of a creation, by how far it has come. */
  function Staged(c: Creator): Dir {
    match c.phase
    case Empty => EMPTY_DIR
    case Writing => Dir(None, Some(Garbage))
    case Written => Dir(None, ActiveFile(c.path, c.owner))
    case Marked => Dir(ActiveFile(c.path, c.owner), None)
  }

  /** The directory under a close, by how far it has come. */
  function Closing(c: Closer, owner: string): Dir {
    match c.phase
    case Opened => Dir(ActiveFile(c.path, owner), None)
    case Rewriting => Dir(ActiveFile(c.path, owner), Some(Garbage))
    case Rewritten => Dir(ActiveFile(c.path, owner), ClosedFile(c.path))
    case Unmarked => Dir(None, ClosedFile(c.path))
  }

  function Follow(deleters: map<nat, Deleter>, from: Path, to: Path): map<nat, Deleter> {
    map c | c in deleters :: if deleters[c].path == from then deleters[c].(path := to) else deleters[c]
  }

  /** The staging directory `d` gets its final name. */
  function Placed(s: State, call: nat, k: Creator, d: Dir): State {
    s.(dirs := (s.dirs - {k.staging})[k.path := d], creators := s.creators - {call},
       deleters := Follow(s.deleters, k.staging, k.path),
       made := s.made[k.path := k.owner], handles := s.handles + {k.path},
       stripped := if d.marker.None? then s.stripped + {k.path} else s.stripped,
       torn := if k.staging in s.torn then s.torn + {k.path} else s.torn)
  }

  /** A file that a deletion has unlinked under a writer is written to, but has no name any more. */
  function Filled(d: Dir, content: Option<Content>): Dir {
    if d.temp.None? then d else d.(temp := content)
  }

  function StepCreateOf(s: State, call: nat): State
    requires call in s.creators
  {
    var c := s.creators[call];
    if c.staging !in s.dirs then s.(creators := s.creators - {call})
    else
      var d := s.dirs[c.staging];
      match c.phase
      case Empty =>
        s.(dirs := s.dirs[c.staging := d.(temp := Some(Garbage))], creators := s.creators[call := c.(phase := Writing)])
      case Writing =>
        s.(dirs := s.dirs[c.staging := Filled(d, ActiveFile(c.path, c.owner))], creators := s.creators[call := c.(phase := Written)])
      case Written =>
        if d.temp.None? then s.(creators := s.creators - {call})
        else s.(dirs := s.dirs[c.staging := Dir(d.temp, None)], creators := s.creators[call := c.(phase := Marked)])
      case Marked =>
        if c.path in s.dirs && s.dirs[c.path] != EMPTY_DIR
        then s.(creators := s.creators - {call}, deleters := s.deleters[call := Deleter(c.staging, c.staging, c.owner)])
        else if c.path in s.dirs || c.path in s.made then s
        else Placed(s, call, c, d)
  }

  function StepCloseOf(s: State, call: nat): State
    requires call in s.closers
  {
    var c := s.closers[call];
    if c.path !in s.dirs then s.(closers := s.closers - {call})
    else
      var d := s.dirs[c.path];
      match c.phase
      case Opened =>
        s.(dirs := s.dirs[c.path := d.(temp := Some(Garbage))], closers := s.closers[call := c.(phase := Rewriting)])
      case Rewriting =>
        s.(dirs := s.dirs[c.path := Filled(d, ClosedFile(c.path))], closers := s.closers[call := c.(phase := Rewritten)])
      case Rewritten =>
        s.(dirs := s.dirs[c.path := d.(marker := None)], closers := s.closers[call := c.(phase := Unmarked)],
           stripped := s.stripped + {c.path})
      case Unmarked =>
        if d.temp.None? then s.(closers := s.closers - {call})
        else s.(dirs := s.dirs[c.path := Dir(d.temp, None)], closers := s.closers - {call})
  }

  predicate HasMarker(s: State, path: Path) {
    path in s.dirs && s.dirs[path].marker.Some?
  }

  predicate HasTemp(s: State, path: Path) {
    path in s.dirs && s.dirs[path].temp.Some?
  }

  function WithoutMarker(s: State, path: Path): State
    requires path in s.dirs
  {
    s.(dirs := s.dirs[path := s.dirs[path].(marker := None)], stripped := s.stripped + {path}, torn := s.torn + {path})
  }

  function WithoutTemp(s: State, path: Path): State
    requires path in s.dirs
  {
    s.(dirs := s.dirs[path := s.dirs[path].(temp := None)], torn := s.torn + {path})
  }

  /** One call of a deletion. The last one removes the directory only if it is empty, and may fail at any point. */
  function StepDeleteOf(s: State, call: nat, op: DeleteOp): State
    requires call in s.deleters
  {
    var k := s.deleters[call];
    match op
    case UnlinkMarker => if HasMarker(s, k.path) then WithoutMarker(s, k.path) else s
    case UnlinkTemp => if HasTemp(s, k.path) then WithoutTemp(s, k.path) else s
    case RemoveEmpty =>
      if k.named in s.dirs && s.dirs[k.named] == EMPTY_DIR
      then s.(dirs := s.dirs - {k.named}, deleters := s.deleters - {call})
      else s.(deleters := s.deleters - {call})
    case GiveUp => s.(deleters := s.deleters - {call})
  }

  /** One file system call. An action that is not possible in `s` leaves `s` as it is. */
  function Next(s: State, a: Action): State {
    match a
    case BeginCreate(call, path, owner, staging) =>
      var tmp := path.(name := staging);
      if call in s.creators || call in s.deleters || !ValidPath(path) || path in s.dirs ||
         !IsStaging(staging) || staging in s.stagings then s
      else s.(dirs := s.dirs[tmp := EMPTY_DIR], stagings := s.stagings + {staging},
              creators := s.creators[call := Creator(path, tmp, owner, Empty)])
    case StepCreate(call) => if call in s.creators then StepCreateOf(s, call) else s
    case BeginClose(call, path) =>
      if call in s.closers || path !in s.handles then s
      else s.(closers := s.closers[call := Closer(path, Opened)], handles := s.handles - {path})
    case StepClose(call) => if call in s.closers then StepCloseOf(s, call) else s
    case BeginReclaim(call, path, owner) =>
      if call in s.deleters || call in s.creators || path !in s.dirs || !IsOrphan(path.name, s.dirs[path], owner) then s
      else s.(deleters := s.deleters[call := Deleter(path, path, owner)])
    case BeginCloseByDelete(call, path) =>
      if call in s.deleters || call in s.creators || path !in s.handles || path !in s.made then s
      else s.(deleters := s.deleters[call := Deleter(path, path, s.made[path])], handles := s.handles - {path})
    case StepDelete(call, op) => if call in s.deleters then StepDeleteOf(s, call, op) else s
    case Crash(owner) =>
      s.(creators := map c | c in s.creators && s.creators[c].owner != owner :: s.creators[c],
         closers := map c | c in s.closers && (s.closers[c].path in s.made ==> s.made[s.closers[c].path] != owner) :: s.closers[c],
         deleters := map c | c in s.deleters && s.deleters[c].owner != owner :: s.deleters[c],
         handles := set p | p in s.handles && (p in s.made ==> s.made[p] != owner))
  }

  ghost predicate Reachable(s: State) {
    Reaches(Next, Initial(), s)
  }

  // ----- the invariant -----

  /** What is left of `full`: all of it, unless a deletion has unlinked entries. */
  ghost predicate LeftOf(d: Dir, full: Dir, torn: bool) {
    if torn then (d.marker == full.marker || d.marker.None?) && (d.temp == full.temp || d.temp.None?) else d == full
  }

  /** A directory under its final name: active just until its marker is first removed; with a marker or the closed one in the temp file, unless torn. */
  ghost predicate FinalDir(path: Path, owner: string, d: Dir, stripped: bool, torn: bool) {
    && (d.marker == ActiveFile(path, owner) || d.marker.None? || d.marker == ClosedFile(path))
    && (d.marker == ActiveFile(path, owner) <==> !stripped)
    && (d.marker.None? && !torn ==> d.temp == ClosedFile(path))
  }

  ghost predicate DirsInv(s: State) {
    && (forall p :: p in s.dirs ==>
          (IsStaging(p.name) && p.name in s.stagings) ||
          (p in s.made && FinalDir(p, s.made[p], s.dirs[p], p in s.stripped, p in s.torn)))
    && (forall p :: p in s.made ==> !IsStaging(p.name))
    && (forall p :: p in s.stripped ==> IsStaging(p.name) || p in s.made)
  }

  ghost predicate CreatorsInv(s: State) {
    && (forall c :: c in s.creators ==>
          var k := s.creators[c];
          && !IsStaging(k.path.name) && IsStaging(k.staging.name) && k.staging.name in s.stagings
          && (k.staging in s.dirs ==> LeftOf(s.dirs[k.staging], Staged(k), k.staging in s.torn)))
    && (forall c, d :: c in s.creators && d in s.creators && c != d ==> s.creators[c].staging != s.creators[d].staging)
  }

  ghost predicate ClosersInv(s: State) {
    && (forall c :: c in s.closers ==>
          var k := s.closers[c];
          && k.path in s.made && k.path !in s.handles
          && (k.path in s.dirs ==> LeftOf(s.dirs[k.path], Closing(k, s.made[k.path]), k.path in s.torn)))
    && (forall c, d :: c in s.closers && d in s.closers && c != d ==> s.closers[c].path != s.closers[d].path)
    && (forall p :: p in s.handles ==>
          p in s.made && (p in s.dirs ==> LeftOf(s.dirs[p], Dir(ActiveFile(p, s.made[p]), None), p in s.torn)))
  }

  ghost predicate Inv(s: State) {
    DirsInv(s) && CreatorsInv(s) && ClosersInv(s)
  }

  // ----- the forms of a step: a call advances a phase, ends, or puts its directory in place -----

  function Advanced(s: State, call: nat, k: Creator, d: Dir): State {
    s.(dirs := s.dirs[k.staging := d], creators := s.creators[call := k])
  }

  ghost predicate CreateForm(s: State, call: nat, s': State)
    requires call in s.creators
  {
    var k := s.creators[call];
    || s' == s
    || s' == s.(creators := s.creators - {call})
    || s' == s.(creators := s.creators - {call}, deleters := s.deleters[call := Deleter(k.staging, k.staging, k.owner)])
    || (exists phase, d :: s' == Advanced(s, call, k.(phase := phase), d) && k.staging in s.dirs &&
                           LeftOf(d, Staged(k.(phase := phase)), k.staging in s.torn))
    || (k.staging in s.dirs && LeftOf(s.dirs[k.staging], Dir(ActiveFile(k.path, k.owner), None), k.staging in s.torn) &&
        s' == Placed(s, call, k, s.dirs[k.staging]) && k.path !in s.dirs && k.path !in s.made)
  }

  function Rewrote(s: State, call: nat, k: Closer, d: Dir): State {
    s.(dirs := s.dirs[k.path := d], closers := s.closers[call := k],
       stripped := if k.phase.Unmarked? then s.stripped + {k.path} else s.stripped)
  }

  ghost predicate CloseForm(s: State, call: nat, s': State)
    requires call in s.closers && s.closers[call].path in s.made
  {
    var k := s.closers[call];
    || s' == s.(closers := s.closers - {call})
    || (exists phase, d :: s' == Rewrote(s, call, k.(phase := phase), d) && k.path in s.dirs && (phase.Unmarked? || d.marker == s.dirs[k.path].marker) &&
                           LeftOf(d, Closing(k.(phase := phase), s.made[k.path]), k.path in s.torn))
    || (s' == s.(dirs := s.dirs[k.path := Dir(ClosedFile(k.path), None)], closers := s.closers - {call}) && k.path in s.dirs &&
        s.dirs[k.path].marker.None?)
  }

  lemma {:induction false} StepCreateHasForm(s: State, call: nat)
    requires CreatorsInv(s) && call in s.creators
    ensures CreateForm(s, call, StepCreateOf(s, call))
  {
    var k := s.creators[call];
    if k.staging in s.dirs {
      var d := s.dirs[k.staging];
      match k.phase
      case Empty =>
        assert StepCreateOf(s, call) == Advanced(s, call, k.(phase := Writing), d.(temp := Some(Garbage)));
      case Writing =>
        assert StepCreateOf(s, call) == Advanced(s, call, k.(phase := Written), Filled(d, ActiveFile(k.path, k.owner)));
      case Written =>
        if d.temp.Some? {
          assert StepCreateOf(s, call) == Advanced(s, call, k.(phase := Marked), Dir(d.temp, None));
        }
      case Marked =>
    }
  }

  lemma {:induction false} StepCloseHasForm(s: State, call: nat)
    requires ClosersInv(s) && call in s.closers
    ensures CloseForm(s, call, StepCloseOf(s, call))
  {
    var k := s.closers[call];
    if k.path in s.dirs {
      var d := s.dirs[k.path];
      match k.phase
      case Opened =>
        assert StepCloseOf(s, call) == Rewrote(s, call, k.(phase := Rewriting), d.(temp := Some(Garbage)));
      case Rewriting =>
        assert StepCloseOf(s, call) == Rewrote(s, call, k.(phase := Rewritten), Filled(d, ClosedFile(k.path)));
      case Rewritten =>
        assert StepCloseOf(s, call) == Rewrote(s, call, k.(phase := Unmarked), d.(marker := None));
      case Unmarked =>
    }
  }

  lemma {:induction false} CreatorAdvances(s: State, call: nat, k: Creator, d: Dir)
    requires Inv(s) && call in s.creators && s.creators[call].staging in s.dirs && k == s.creators[call].(phase := k.phase)
    requires LeftOf(d, Staged(k), k.staging in s.torn)
    ensures Inv(Advanced(s, call, k, d))
  {
    StagingChanges(s, k.staging, d);
    CreatorAdvancesCreators(s, call, k, d);
  }

  lemma {:induction false} CreatorAdvancesCreators(s: State, call: nat, k: Creator, d: Dir)
    requires CreatorsInv(s) && call in s.creators && k == s.creators[call].(phase := k.phase)
    requires LeftOf(d, Staged(k), k.staging in s.torn)
    ensures CreatorsInv(Advanced(s, call, k, d))
  {
  }

  lemma {:induction false} StagingChanges(s: State, staging: Path, d: Dir)
    requires DirsInv(s) && ClosersInv(s) && IsStaging(staging.name) && staging.name in s.stagings
    ensures DirsInv(s.(dirs := s.dirs[staging := d])) && ClosersInv(s.(dirs := s.dirs[staging := d]))
  {
    forall c | c in s.closers ensures s.closers[c].path != staging {
      assert s.closers[c].path in s.made;
    }
  }

  lemma {:induction false} CreatorEnds(s: State, call: nat, deleters: map<nat, Deleter>)
    requires Inv(s)
    ensures Inv(s.(creators := s.creators - {call}, deleters := deleters))
  {
  }

  lemma {:induction false} DirVanishes(s: State, path: Path)
    requires Inv(s)
    ensures Inv(s.(dirs := s.dirs - {path}))
  {
  }

  function Appeared(s: State, path: Path, owner: string, d: Dir, torn: bool): State {
    s.(dirs := s.dirs[path := d], made := s.made[path := owner], handles := s.handles + {path},
       stripped := if d.marker.None? then s.stripped + {path} else s.stripped,
       torn := if torn then s.torn + {path} else s.torn)
  }

  lemma {:induction false} DirAppears(s: State, path: Path, owner: string, d: Dir, torn: bool)
    requires Inv(s) && path !in s.made && !IsStaging(path.name)
    requires LeftOf(d, Dir(ActiveFile(path, owner), None), torn)
    ensures Inv(Appeared(s, path, owner, d, torn))
  {
    DirAppearsToDirs(s, path, owner, d, torn);
    DirAppearsToCreators(s, path, owner, d, torn);
    DirAppearsToClosers(s, path, owner, d, torn);
  }

  lemma {:induction false} DirAppearsToDirs(s: State, path: Path, owner: string, d: Dir, torn: bool)
    requires DirsInv(s) && path !in s.made && !IsStaging(path.name)
    requires LeftOf(d, Dir(ActiveFile(path, owner), None), torn)
    ensures DirsInv(Appeared(s, path, owner, d, torn))
  {
  }

  lemma {:induction false} DirAppearsToCreators(s: State, path: Path, owner: string, d: Dir, torn: bool)
    requires CreatorsInv(s) && !IsStaging(path.name)
    ensures CreatorsInv(Appeared(s, path, owner, d, torn))
  {
  }

  lemma {:induction false} DirAppearsToClosers(s: State, path: Path, owner: string, d: Dir, torn: bool)
    requires ClosersInv(s) && path !in s.made
    requires LeftOf(d, Dir(ActiveFile(path, owner), None), torn)
    ensures ClosersInv(Appeared(s, path, owner, d, torn))
  {
  }

  lemma {:induction false} PlacedKeepsInv(s: State, call: nat, k: Creator, d: Dir)
    requires Inv(s) && k.path !in s.made && !IsStaging(k.path.name)
    requires LeftOf(d, Dir(ActiveFile(k.path, k.owner), None), k.staging in s.torn)
    ensures Inv(Placed(s, call, k, d))
  {
    var deleters := Follow(s.deleters, k.staging, k.path);
    CreatorEnds(s, call, deleters);
    var ended := s.(creators := s.creators - {call}, deleters := deleters);
    DirVanishes(ended, k.staging);
    var moved := ended.(dirs := s.dirs - {k.staging});
    DirAppears(moved, k.path, k.owner, d, k.staging in s.torn);
    assert Placed(s, call, k, d) == Appeared(moved, k.path, k.owner, d, k.staging in s.torn);
  }

  lemma {:induction false} CreateFormKeepsInv(s: State, call: nat, s': State)
    requires Inv(s) && call in s.creators && CreateForm(s, call, s')
    ensures Inv(s')
  {
    var k := s.creators[call];
    if k.path !in s.made && k.staging in s.dirs && s' == Placed(s, call, k, s.dirs[k.staging]) &&
       LeftOf(s.dirs[k.staging], Dir(ActiveFile(k.path, k.owner), None), k.staging in s.torn) {
      PlacedKeepsInv(s, call, k, s.dirs[k.staging]);
    } else if phase, d :| s' == Advanced(s, call, k.(phase := phase), d) && k.staging in s.dirs &&
                          LeftOf(d, Staged(k.(phase := phase)), k.staging in s.torn) {
      CreatorAdvances(s, call, k.(phase := phase), d);
    } else {
      CreatorEnds(s, call, s.deleters);
      CreatorEnds(s, call, s.deleters[call := Deleter(k.staging, k.staging, k.owner)]);
    }
  }

  lemma {:induction false} CloserAdvances(s: State, call: nat, k: Closer, d: Dir)
    requires Inv(s) && call in s.closers && s.closers[call].path in s.dirs && k == s.closers[call].(phase := k.phase)
    requires k.phase.Unmarked? || d.marker == s.dirs[k.path].marker
    requires LeftOf(d, Closing(k, s.made[k.path]), k.path in s.torn)
    ensures Inv(Rewrote(s, call, k, d))
  {
    CloserAdvancesDirs(s, call, k, d);
    CloserAdvancesClosers(s, call, k, d);
    FinalDirIsNoStaging(s, k.path, d);
  }

  lemma {:induction false} CloserAdvancesDirs(s: State, call: nat, k: Closer, d: Dir)
    requires DirsInv(s) && k.path in s.dirs && k.path in s.made
    requires k.phase.Unmarked? || d.marker == s.dirs[k.path].marker
    requires LeftOf(d, Closing(k, s.made[k.path]), k.path in s.torn)
    ensures DirsInv(Rewrote(s, call, k, d))
  {
  }

  lemma {:induction false} CloserAdvancesClosers(s: State, call: nat, k: Closer, d: Dir)
    requires ClosersInv(s) && call in s.closers && k == s.closers[call].(phase := k.phase)
    requires LeftOf(d, Closing(k, s.made[k.path]), k.path in s.torn)
    ensures ClosersInv(Rewrote(s, call, k, d))
  {
  }

  /** What happens to a directory under its final name is nothing to a creation. */
  lemma {:induction false} FinalDirIsNoStaging(s: State, path: Path, d: Dir)
    requires CreatorsInv(s) && !IsStaging(path.name)
    ensures CreatorsInv(s.(dirs := s.dirs[path := d]))
  {
  }

  lemma {:induction false} CloserStops(s: State, call: nat)
    requires Inv(s) && call in s.closers
    ensures Inv(s.(closers := s.closers - {call}))
  {
  }

  lemma {:induction false} CloserEnds(s: State, call: nat)
    requires Inv(s) && call in s.closers && s.closers[call].path in s.dirs && s.dirs[s.closers[call].path].marker.None?
    ensures Inv(s.(dirs := s.dirs[s.closers[call].path := Dir(ClosedFile(s.closers[call].path), None)], closers := s.closers - {call}))
  {
    var path := s.closers[call].path;
    var d := Dir(ClosedFile(path), None);
    CloserEndsDirs(s, path);
    FinalDirIsNoStaging(s, path, d);
    CloserEndsClosers(s, call, d);
  }

  lemma {:induction false} CloserEndsDirs(s: State, path: Path)
    requires DirsInv(s) && path in s.dirs && path in s.made && s.dirs[path].marker.None?
    ensures DirsInv(s.(dirs := s.dirs[path := Dir(ClosedFile(path), None)]))
  {
  }

  lemma {:induction false} CloserEndsClosers(s: State, call: nat, d: Dir)
    requires ClosersInv(s) && call in s.closers
    ensures ClosersInv(s.(dirs := s.dirs[s.closers[call].path := d], closers := s.closers - {call}))
  {
  }

  lemma {:induction false} CloseFormKeepsInv(s: State, call: nat, s': State)
    requires Inv(s) && call in s.closers && CloseForm(s, call, s')
    ensures Inv(s')
  {
    var k := s.closers[call];
    CloserStops(s, call);
    if k.path in s.dirs && s.dirs[k.path].marker.None? { CloserEnds(s, call); }
    if phase, d :| s' == Rewrote(s, call, k.(phase := phase), d) && k.path in s.dirs &&
                   (phase.Unmarked? || d.marker == s.dirs[k.path].marker) &&
                   LeftOf(d, Closing(k.(phase := phase), s.made[k.path]), k.path in s.torn) {
      CloserAdvances(s, call, k.(phase := phase), d);
    }
  }

  lemma {:induction false} UnlinkKeepsDirs(s: State, path: Path)
    requires DirsInv(s) && path in s.dirs
    ensures DirsInv(WithoutMarker(s, path)) && DirsInv(WithoutTemp(s, path))
  {
  }

  lemma {:induction false} UnlinkKeepsCreators(s: State, path: Path)
    requires CreatorsInv(s) && path in s.dirs
    ensures CreatorsInv(WithoutMarker(s, path)) && CreatorsInv(WithoutTemp(s, path))
  {
  }

  lemma {:induction false} UnlinkKeepsClosers(s: State, path: Path)
    requires ClosersInv(s) && path in s.dirs
    ensures ClosersInv(WithoutMarker(s, path)) && ClosersInv(WithoutTemp(s, path))
  {
  }

  lemma {:induction false} UnlinkKeepsInv(s: State, path: Path)
    requires Inv(s) && path in s.dirs
    ensures Inv(WithoutMarker(s, path)) && Inv(WithoutTemp(s, path))
  {
    UnlinkKeepsDirs(s, path);
    UnlinkKeepsCreators(s, path);
    UnlinkKeepsClosers(s, path);
  }

  lemma {:induction false} DeletersAreFree(s: State, deleters: map<nat, Deleter>)
    requires Inv(s)
    ensures Inv(s.(deleters := deleters))
  {
  }

  lemma {:induction false} StepDeleteKeepsInv(s: State, call: nat, op: DeleteOp)
    requires Inv(s) && call in s.deleters
    ensures Inv(StepDeleteOf(s, call, op))
  {
    var k := s.deleters[call];
    if op.UnlinkMarker? || op.UnlinkTemp? {
      if k.path in s.dirs { UnlinkKeepsInv(s, k.path); }
    } else {
      DeletersAreFree(s, s.deleters - {call});
      DirVanishes(s.(deleters := s.deleters - {call}), k.named);
    }
  }

  lemma {:induction false} StagingAppears(s: State, call: nat, k: Creator)
    requires Inv(s) && call !in s.creators && k.phase.Empty?
    requires !IsStaging(k.path.name) && IsStaging(k.staging.name) && k.staging.name !in s.stagings
    ensures Inv(s.(dirs := s.dirs[k.staging := EMPTY_DIR], stagings := s.stagings + {k.staging.name},
                   creators := s.creators[call := k]))
  {
  }

  lemma {:induction false} BeginCreateKeepsInv(s: State, a: Action)
    requires Inv(s) && a.BeginCreate?
    ensures Inv(Next(s, a))
  {
    var k := Creator(a.path, a.path.(name := a.staging), a.owner, Empty);
    if a.call !in s.creators && ValidPath(a.path) && IsStaging(a.staging) && a.staging !in s.stagings {
      AdmittedNamesAreNotReserved(a.path.name);
      StagingAppears(s, a.call, k);
    }
  }

  lemma {:induction false} HandleEnds(s: State, path: Path, deleters: map<nat, Deleter>)
    requires Inv(s)
    ensures Inv(s.(handles := s.handles - {path}, deleters := deleters))
  {
  }

  lemma {:induction false} CrashKeepsInv(s: State, owner: string)
    requires Inv(s)
    ensures Inv(Next(s, Crash(owner)))
  {
  }

  lemma {:induction false} BeginCloseKeepsInv(s: State, call: nat, path: Path)
    requires Inv(s)
    ensures Inv(Next(s, BeginClose(call, path)))
  {
  }

  lemma {:induction false} NextKeepsInv(s: State, a: Action)
    requires Inv(s)
    ensures Inv(Next(s, a))
  {
    match a
    case StepCreate(call) =>
      if call in s.creators {
        StepCreateHasForm(s, call);
        CreateFormKeepsInv(s, call, StepCreateOf(s, call));
      }
    case StepClose(call) =>
      if call in s.closers {
        StepCloseHasForm(s, call);
        CloseFormKeepsInv(s, call, StepCloseOf(s, call));
      }
    case StepDelete(call, op) => if call in s.deleters { StepDeleteKeepsInv(s, call, op); }
    case BeginCreate(_, _, _, _) => BeginCreateKeepsInv(s, a);
    case BeginClose(call, path) => BeginCloseKeepsInv(s, call, path);
    case BeginReclaim(call, path, owner) => DeletersAreFree(s, s.deleters[call := Deleter(path, path, owner)]);
    case BeginCloseByDelete(call, path) =>
      if path in s.made { HandleEnds(s, path, s.deleters[call := Deleter(path, path, s.made[path])]); }
    case Crash(owner) => CrashKeepsInv(s, owner);
  }

  lemma {:induction false} RunKeepsInv(s: State, actions: seq<Action>)
    requires Inv(s)
    ensures Inv(Run(Next, s, actions))
  {
    forall t, a | Inv(t) ensures Inv(Next(t, a)) { NextKeepsInv(t, a); }
    RunKeeps(Next, Inv, s, actions);
  }

  lemma {:induction false} ReachableInv(s: State)
    requires Reachable(s)
    ensures Inv(s)
  {
    var actions :| s == Run(Next, Initial(), actions);
    RunKeepsInv(Initial(), actions);
  }

  // ----- what the scan sees -----

  /**
   In every run a directory is missed by the scan of `current` exactly if it has its final name and
   either `current` made it or a call has removed its marker: a close on its way to the closed one, or
   a deletion. Unless a deletion has touched it, an unmarked one is caught in a close, with the complete
   closed marker in the temp file. No half-written marker is ever in place.
   */
  lemma {:induction false} ScanMissesExactly(s: State, path: Path, current: string)
    requires Reachable(s) && path in s.dirs
    ensures !IsOrphan(path.name, s.dirs[path], current) <==> path in s.made && (s.made[path] == current || path in s.stripped)
    ensures path in s.made && path in s.stripped ==> s.dirs[path].marker.None? || s.dirs[path].marker == ClosedFile(path)
    ensures path in s.made && s.dirs[path].marker.None? && path !in s.torn ==> s.dirs[path].temp == ClosedFile(path)
    ensures s.dirs[path].marker != Some(Garbage) || IsStaging(path.name)
  {
    ReachableInv(s);
    assert path in s.made ==> !IsStaging(path.name);
  }

  ghost predicate KeepsHistory(s: State, s': State) {
    s.stripped <= s'.stripped && s.made.Keys <= s'.made.Keys
  }

  lemma {:induction false} HistoryStep(s: State, a: Action)
    ensures KeepsHistory(s, Next(s, a))
  {
  }

  lemma {:induction false} HistoryOnlyGrows(s: State, actions: seq<Action>)
    ensures KeepsHistory(s, Run(Next, s, actions))
  {
    forall t, a | KeepsHistory(s, t) ensures KeepsHistory(s, Next(t, a)) { HistoryStep(t, a); }
    RunKeeps(Next, t => KeepsHistory(s, t), s, actions);
  }

  /** A directory that has lost its marker is reported by no later scan of any supervisor, in any run. */
  lemma {:induction false} StrippedIsNeverReported(s: State, actions: seq<Action>, path: Path, current: string)
    requires Reachable(s) && path in s.made && path in s.stripped
    ensures var s' := Run(Next, s, actions); path in s'.dirs ==> !IsOrphan(path.name, s'.dirs[path], current)
  {
    ReachableInv(s);
    RunKeepsInv(s, actions);
    HistoryOnlyGrows(s, actions);
  }

  /** What is known of a directory that a step has added. */
  ghost predicate IsNewDir(s: State, a: Action, d: Dir, path: Path, current: string) {
    match a
    case BeginCreate(_, _, _, _) => IsStaging(path.name) && IsOrphan(path.name, d, current)
    case StepCreate(call) =>
      && call in s.creators
      && var k := s.creators[call];
        && path == k.path
        && (current != k.owner ==> (IsOrphan(path.name, d, current) <==> HasMarker(s, k.staging)))
        && (k.staging !in s.torn ==> d == Dir(ActiveFile(path, k.owner), None) && HasMarker(s, k.staging))
    case _ => false
  }

  /**
   Only a creation adds directories, and whatever it adds at any of its steps every other supervisor's
   scan reports: a staging directory, and then the final one, complete. The one exception is a
   staging directory that a reclaim has stripped before it gets its final name.
   */
  lemma {:induction false} NewDirsAreReported(s: State, a: Action, path: Path, current: string)
    requires Reachable(s) && path !in s.dirs && path in Next(s, a).dirs
    ensures IsNewDir(s, a, Next(s, a).dirs[path], path, current)
  {
    ReachableInv(s);
    match a
    case StepCreate(call) =>
      if call in s.creators {
        StepCreateHasForm(s, call);
        PlacedIsNew(s, call, StepCreateOf(s, call), path, current);
      }
    case StepClose(call) =>
      if call in s.closers { CloseAddsNothing(s, call, path); }
      assert false;
    case StepDelete(call, op) =>
      if call in s.deleters { DeleteAddsNothing(s, call, op, path); }
      assert false;
    case BeginCreate(_, _, _, _) =>
    case _ => assert false;
  }

  lemma {:induction false} CloseAddsNothing(s: State, call: nat, path: Path)
    requires path !in s.dirs && call in s.closers
    ensures path !in StepCloseOf(s, call).dirs
  {
  }

  lemma {:induction false} DeleteAddsNothing(s: State, call: nat, op: DeleteOp, path: Path)
    requires path !in s.dirs && call in s.deleters
    ensures path !in StepDeleteOf(s, call, op).dirs
  {
  }

  lemma {:induction false} AddedIsPlaced(s: State, call: nat, s': State, path: Path)
    requires call in s.creators && CreateForm(s, call, s') && path !in s.dirs && path in s'.dirs
    ensures var k := s.creators[call];
      && path == k.path && k.staging in s.dirs && s'.dirs[path] == s.dirs[k.staging]
      && LeftOf(s.dirs[k.staging], Dir(ActiveFile(path, k.owner), None), k.staging in s.torn)
  {
  }

  lemma {:induction false} LeftOfActiveIsReported(path: Path, owner: string, d: Dir, torn: bool, current: string)
    requires LeftOf(d, Dir(ActiveFile(path, owner), None), torn) && !IsStaging(path.name) && current != owner
    ensures IsOrphan(path.name, d, current) <==> d.marker.Some?
  {
  }

  lemma {:induction false} PlacedIsNew(s: State, call: nat, s': State, path: Path, current: string)
    requires CreatorsInv(s) && call in s.creators && CreateForm(s, call, s') && path !in s.dirs && path in s'.dirs
    ensures IsNewDir(s, StepCreate(call), s'.dirs[path], path, current)
  {
    var k := s.creators[call];
    AddedIsPlaced(s, call, s', path);
    if current != k.owner { LeftOfActiveIsReported(path, k.owner, s'.dirs[path], k.staging in s.torn, current); }
  }

  lemma {:induction false} RenameLeavesOthersAlone(s: State, call: nat, path: Path)
    requires path in s.dirs && call in s.creators && path != s.creators[call].staging && s.creators[call].phase.Marked?
    ensures path in StepCreateOf(s, call).dirs && StepCreateOf(s, call).dirs[path] == s.dirs[path]
  {
  }

  lemma {:induction false} WritesLeaveOthersAlone(s: State, call: nat, path: Path)
    requires path in s.dirs && call in s.creators && path != s.creators[call].staging && !s.creators[call].phase.Marked?
    ensures path in StepCreateOf(s, call).dirs && StepCreateOf(s, call).dirs[path] == s.dirs[path]
  {
  }

  /** No call of a creation changes or removes a directory other than its own staging directory. */
  lemma {:induction false} CreationLeavesOthersAlone(s: State, a: Action, path: Path)
    requires path in s.dirs
    requires
      || (a.StepCreate? && (a.call in s.creators ==> path != s.creators[a.call].staging))
      || (a.BeginCreate? && path != a.path.(name := a.staging))
    ensures path in Next(s, a).dirs && Next(s, a).dirs[path] == s.dirs[path]
  {
    if a.StepCreate? && a.call in s.creators {
      if s.creators[a.call].phase.Marked? {
        RenameLeavesOthersAlone(s, a.call, path);
      } else {
        WritesLeaveOthersAlone(s, a.call, path);
      }
    }
  }

  // ----- calls that nothing interrupts -----

  function Repeat(s: State, a: Action, n: nat): State
    decreases n
  {
    if n == 0 then s else Repeat(Next(s, a), a, n - 1)
  }

  /** The state `s` with a creation added that has come as far as `k` says. */
  function WithCreation(s: State, call: nat, k: Creator): State {
    s.(dirs := s.dirs[k.staging := Staged(k)], creators := s.creators[call := k], stagings := s.stagings + {k.staging.name})
  }

  lemma {:induction false} CreationAdvances(s: State, call: nat, k: Creator, next: CreatePhase)
    requires !k.phase.Marked? && next == match k.phase case Empty => Writing case Writing => Written case _ => Marked
    ensures Next(WithCreation(s, call, k), StepCreate(call)) == WithCreation(s, call, k.(phase := next))
  {
    assert s.dirs[k.staging := Staged(k)][k.staging := Staged(k.(phase := next))] == s.dirs[k.staging := Staged(k.(phase := next))];
  }

  lemma {:induction false} CreationEnds(s: State, call: nat, k: Creator)
    requires k.phase.Marked? && k.staging !in s.dirs && k.path !in s.dirs && k.path !in s.made && k.path != k.staging && call !in s.creators
    ensures var s' := Next(WithCreation(s, call, k), StepCreate(call));
      && s'.dirs == s.dirs[k.path := Dir(ActiveFile(k.path, k.owner), None)] && s'.creators == s.creators
      && s'.made == s.made[k.path := k.owner] && s'.handles == s.handles + {k.path}
  {
  }

  /** A creation begins exactly for three valid names and a path that is free. */
  lemma {:induction false} CreationBeginsExactly(s: State, call: nat, path: Path, owner: string, staging: string)
    requires call !in s.creators && call !in s.deleters && IsStaging(staging) && staging !in s.stagings
    ensures call in Next(s, BeginCreate(call, path, owner, staging)).creators <==>
      && ValidComponent(path.project) && ValidComponent(path.run) && ValidComponent(path.name)
      && path !in s.dirs
  {
  }

  /** A creation for valid names and an unused path leaves exactly one more directory, complete and active. */
  lemma {:induction false} UninterruptedCreate(s: State, call: nat, path: Path, owner: string, staging: string)
    requires Reachable(s) && call !in s.creators && call !in s.deleters && ValidPath(path) && path !in s.dirs && path !in s.made
    requires IsStaging(staging) && staging !in s.stagings
    ensures var s' := Repeat(Next(s, BeginCreate(call, path, owner, staging)), StepCreate(call), 4);
      && s'.dirs == s.dirs[path := Dir(Some(Whole(Marker(Active, owner, path.project, path.run, path.name))), None)]
      && s'.creators == s.creators && s'.made == s.made[path := owner] && s'.handles == s.handles + {path}
  {
    ReachableInv(s);
    AdmittedNamesAreNotReserved(path.name);
    var k := Creator(path, path.(name := staging), owner, Empty);
    assert Next(s, BeginCreate(call, path, owner, staging)) == WithCreation(s, call, k);
    CreationAdvances(s, call, k, Writing);
    CreationAdvances(s, call, k.(phase := Writing), Written);
    CreationAdvances(s, call, k.(phase := Written), Marked);
    assert k.staging !in s.dirs;
    CreationEnds(s, call, k.(phase := Marked));
    RepeatFour(WithCreation(s, call, k), StepCreate(call));
  }

  lemma {:induction false} RepeatFour(s: State, a: Action)
    ensures Repeat(s, a, 4) == Next(Next(Next(Next(s, a), a), a), a)
  {
    var s3 := Next(Next(Next(s, a), a), a);
    assert Repeat(s3, a, 1) == Repeat(Next(s3, a), a, 0);
    assert Repeat(Next(Next(s, a), a), a, 2) == Repeat(s3, a, 1);
    assert Repeat(Next(s, a), a, 3) == Repeat(Next(Next(s, a), a), a, 2);
  }

  /** The state `s` with a close added that has come as far as `k` says, and has not removed the marker yet or is about to end. */
  function WithClose(s: State, call: nat, k: Closer, owner: string): State {
    s.(dirs := s.dirs[k.path := Closing(k, owner)], closers := s.closers[call := k],
       stripped := if k.phase.Unmarked? then s.stripped + {k.path} else s.stripped)
  }

  lemma {:induction false} CloseAdvances(s: State, call: nat, k: Closer, owner: string, next: ClosePhase)
    requires !k.phase.Unmarked? && next == match k.phase case Opened => Rewriting case Rewriting => Rewritten case _ => Unmarked
    ensures Next(WithClose(s, call, k, owner), StepClose(call)) == WithClose(s, call, k.(phase := next), owner)
  {
    assert s.dirs[k.path := Closing(k, owner)][k.path := Closing(k.(phase := next), owner)] ==
      s.dirs[k.path := Closing(k.(phase := next), owner)];
  }

  lemma {:induction false} CloseEnds(s: State, call: nat, k: Closer, owner: string)
    requires k.phase.Unmarked? && call !in s.closers
    ensures var s' := Next(WithClose(s, call, k, owner), StepClose(call));
      s'.dirs == s.dirs[k.path := Dir(ClosedFile(k.path), None)] && s'.closers == s.closers
  {
  }

  /** A close of a directory that no deletion has touched puts the closed marker there, and uses the handle up. */
  lemma {:induction false} UninterruptedClose(s: State, call: nat, path: Path)
    requires Reachable(s) && call !in s.closers && path in s.handles && path in s.dirs && path !in s.torn
    ensures var s' := Repeat(Next(s, BeginClose(call, path)), StepClose(call), 4);
      && s'.dirs == s.dirs[path := Dir(Some(Whole(Marker(Closed, "", "", "", path.name))), None)]
      && s'.closers == s.closers
    ensures Next(s, BeginClose(call, path)).handles == s.handles - {path}
  {
    ReachableInv(s);
    var k, owner := Closer(path, Opened), s.made[path];
    var begun := s.(handles := s.handles - {path});
    assert begun.dirs[path := Closing(k, owner)] == s.dirs;
    assert Next(s, BeginClose(call, path)) == WithClose(begun, call, k, owner);
    CloseAdvances(begun, call, k, owner, Rewriting);
    CloseAdvances(begun, call, k.(phase := Rewriting), owner, Rewritten);
    CloseAdvances(begun, call, k.(phase := Rewritten), owner, Unmarked);
    CloseEnds(begun, call, k.(phase := Unmarked), owner);
    RepeatFour(WithClose(begun, call, k, owner), StepClose(call));
  }

  function Unlinked(s: State, call: nat): State {
    Next(Next(s, StepDelete(call, UnlinkMarker)), StepDelete(call, UnlinkTemp))
  }

  ghost predicate OnlyDirChanged(s: State, s': State, path: Path, d: Dir) {
    && s'.dirs == s.dirs[path := d] && s'.deleters == s.deleters && s'.creators == s.creators && s'.handles == s.handles
  }

  lemma {:induction false} MarkerGoes(s: State, call: nat)
    requires call in s.deleters && s.deleters[call].path in s.dirs
    ensures var path := s.deleters[call].path;
      OnlyDirChanged(s, Next(s, StepDelete(call, UnlinkMarker)), path, s.dirs[path].(marker := None))
  {
  }

  lemma {:induction false} TempGoes(s: State, call: nat)
    requires call in s.deleters && s.deleters[call].path in s.dirs
    ensures var path := s.deleters[call].path;
      OnlyDirChanged(s, Next(s, StepDelete(call, UnlinkTemp)), path, s.dirs[path].(temp := None))
  {
  }

  lemma {:induction false} UnlinkingEmpties(s: State, call: nat)
    requires call in s.deleters && s.deleters[call].path in s.dirs
    ensures OnlyDirChanged(s, Unlinked(s, call), s.deleters[call].path, EMPTY_DIR)
  {
    var path := s.deleters[call].path;
    MarkerGoes(s, call);
    var s1 := Next(s, StepDelete(call, UnlinkMarker));
    TempGoes(s1, call);
    assert s.dirs[path := s.dirs[path].(marker := None)][path := EMPTY_DIR] == s.dirs[path := EMPTY_DIR];
  }

  /** A deletion that gets to its end removes its directory, and nothing else. */
  lemma {:induction false} UninterruptedDeletion(s: State, call: nat)
    requires call in s.deleters && s.deleters[call].path == s.deleters[call].named && s.deleters[call].path in s.dirs
    ensures var s' := Next(Unlinked(s, call), StepDelete(call, RemoveEmpty));
      && s'.dirs == s.dirs - {s.deleters[call].path} && s'.deleters == s.deleters - {call}
      && s'.creators == s.creators && s'.handles == s.handles
  {
    UnlinkingEmpties(s, call);
  }

  /** So a reclaim begins exactly on what the scan reports, and removes it. */
  lemma {:induction false} UninterruptedReclaim(s: State, call: nat, path: Path, owner: string)
    requires call !in s.deleters && call !in s.creators && path in s.dirs
    ensures var begun := Next(s, BeginReclaim(call, path, owner));
      if IsOrphan(path.name, s.dirs[path], owner)
      then Next(Unlinked(begun, call), StepDelete(call, RemoveEmpty)).dirs == s.dirs - {path}
      else begun == s
  {
    var begun := Next(s, BeginReclaim(call, path, owner));
    if IsOrphan(path.name, s.dirs[path], owner) { UninterruptedDeletion(begun, call); }
  }

  /** A close that deletes removes its directory and uses the handle up. */
  lemma {:induction false} UninterruptedCloseByDelete(s: State, call: nat, path: Path)
    requires Reachable(s) && call !in s.deleters && call !in s.creators && path in s.handles && path in s.dirs
    ensures var s' := Next(Unlinked(Next(s, BeginCloseByDelete(call, path)), call), StepDelete(call, RemoveEmpty));
      s'.dirs == s.dirs - {path} && s'.handles == s.handles - {path} && s'.deleters == s.deleters
  {
    ReachableInv(s);
    UninterruptedDeletion(Next(s, BeginCloseByDelete(call, path)), call);
  }

  /** Of two creations of the same path, the one that comes second removes its staging directory and nothing else. */
  lemma {:induction false} SecondCreationCleansUp(s: State, call: nat)
    requires call in s.creators && call !in s.deleters && s.creators[call].phase.Marked?
    requires s.creators[call].staging in s.dirs && s.creators[call].path in s.dirs && s.dirs[s.creators[call].path] != EMPTY_DIR
    ensures var s' := Next(Unlinked(Next(s, StepCreate(call)), call), StepDelete(call, RemoveEmpty));
      s'.dirs == s.dirs - {s.creators[call].staging} && s'.creators == s.creators - {call} && s'.deleters == s.deleters
  {
    var begun := Next(s, StepCreate(call));
    assert begun.deleters[call] == Deleter(s.creators[call].staging, s.creators[call].staging, s.creators[call].owner);
    UninterruptedDeletion(begun, call);
  }

  lemma {:induction false} RenameMovesDeletions(s: State, call: nat, d: nat)
    requires call in s.creators && s.creators[call].phase.Marked? && s.creators[call].staging in s.dirs
    requires s.creators[call].path !in s.dirs && s.creators[call].path !in s.made && d in s.deleters
    ensures var k, placed := s.creators[call], Next(s, StepCreate(call));
      && placed.dirs == (s.dirs - {k.staging})[k.path := s.dirs[k.staging]]
      && d in placed.deleters && placed.deleters[d].named == s.deleters[d].named
      && placed.deleters[d].path == if s.deleters[d].path == k.staging then k.path else s.deleters[d].path
  {
  }

  /** A deletion that has opened a staging directory goes on in it after the rename, but cannot remove it any more. */
  lemma {:induction false} DeletionFollowsRename(s: State, call: nat, d: nat)
    requires Reachable(s) && call in s.creators && s.creators[call].phase.Marked? && d in s.deleters
    requires s.creators[call].staging in s.dirs && s.creators[call].path !in s.dirs && s.creators[call].path !in s.made
    requires s.deleters[d].path == s.deleters[d].named == s.creators[call].staging
    ensures var k, unlinked := s.creators[call], Unlinked(Next(s, StepCreate(call)), d);
      && k.path in unlinked.dirs && unlinked.dirs[k.path] == EMPTY_DIR
      && Next(unlinked, StepDelete(d, RemoveEmpty)).dirs == unlinked.dirs
  {
    assert IsStaging(s.creators[call].staging.name) && !IsStaging(s.creators[call].path.name) by { ReachableInv(s); }
    RenameMovesDeletions(s, call, d);
    UnlinkingEmpties(Next(s, StepCreate(call)), d);
  }

  // ----- after a crash -----

  /** A crash ends the calls of its supervisor, and no other; it touches no directory. */
  lemma {:induction false} CrashEndsItsCalls(s: State, owner: string)
    requires Reachable(s)
    ensures var s' := Next(s, Crash(owner));
      && s'.dirs == s.dirs && s'.made == s.made
      && (forall c :: c in s'.creators <==> c in s.creators && s.creators[c].owner != owner)
      && (forall c :: c in s'.closers <==> c in s.closers && s.closers[c].path in s.made && s.made[s.closers[c].path] != owner)
      && (forall c :: c in s'.deleters <==> c in s.deleters && s.deleters[c].owner != owner)
      && (forall p :: p in s'.handles <==> p in s.handles && p in s.made && s.made[p] != owner)
  {
    ReachableInv(s);
  }

  /** The step unlinks the marker of the directory at `path`. */
  predicate Strips(s: State, a: Action, path: Path) {
    a.StepDelete? && a.op.UnlinkMarker? && a.call in s.deleters && s.deleters[a.call].path == path && HasMarker(s, path)
  }

  predicate StripsInRun(s: State, actions: seq<Action>, path: Path)
    decreases actions
  {
    actions != [] && (Strips(s, actions[0], path) || StripsInRun(Next(s, actions[0]), actions[1..], path))
  }

  ghost predicate Abandoned(s: State, path: Path) {
    && path in s.made && path !in s.handles
    && (forall c :: c in s.closers ==> s.closers[c].path != path)
  }

  ghost predicate StaysAbandoned(s: State, s': State, path: Path)
    requires path in s.made
  {
    Abandoned(s', path) && s'.made[path] == s.made[path] && (path in s'.stripped <==> path in s.stripped)
  }

  lemma {:induction false} AbandonedUnderCreate(s: State, call: nat, s': State, path: Path)
    requires Abandoned(s, path) && call in s.creators && CreateForm(s, call, s')
    ensures StaysAbandoned(s, s', path)
  {
  }

  lemma {:induction false} AbandonedUnderClose(s: State, call: nat, s': State, path: Path)
    requires ClosersInv(s) && Abandoned(s, path) && call in s.closers && CloseForm(s, call, s')
    ensures StaysAbandoned(s, s', path)
  {
  }

  lemma {:induction false} AbandonedUnderDelete(s: State, a: Action, path: Path)
    requires Abandoned(s, path) && a.StepDelete?
    ensures Abandoned(Next(s, a), path) && Next(s, a).made[path] == s.made[path]
    ensures path in Next(s, a).stripped <==> path in s.stripped || Strips(s, a, path)
  {
  }

  lemma {:induction false} AbandonedUnderRest(s: State, a: Action, path: Path)
    requires Abandoned(s, path) && !a.StepCreate? && !a.StepClose? && !a.StepDelete?
    ensures StaysAbandoned(s, Next(s, a), path)
  {
  }

  lemma {:induction false} AbandonedStep(s: State, a: Action, path: Path)
    requires Inv(s) && Abandoned(s, path)
    ensures Abandoned(Next(s, a), path) && Next(s, a).made[path] == s.made[path]
    ensures path in Next(s, a).stripped <==> path in s.stripped || Strips(s, a, path)
  {
    match a
    case StepCreate(call) =>
      if call in s.creators {
        StepCreateHasForm(s, call);
        AbandonedUnderCreate(s, call, StepCreateOf(s, call), path);
      }
    case StepClose(call) =>
      if call in s.closers {
        StepCloseHasForm(s, call);
        AbandonedUnderClose(s, call, StepCloseOf(s, call), path);
      }
    case StepDelete(_, _) => AbandonedUnderDelete(s, a, path);
    case _ => AbandonedUnderRest(s, a, path);
  }

  lemma {:induction false} AbandonedStays(s: State, actions: seq<Action>, path: Path)
    requires Inv(s) && Abandoned(s, path)
    ensures path in Run(Next, s, actions).made && Run(Next, s, actions).made[path] == s.made[path]
    ensures path in Run(Next, s, actions).stripped <==> path in s.stripped || StripsInRun(s, actions, path)
    decreases actions
  {
    if actions != [] {
      NextKeepsInv(s, actions[0]);
      AbandonedStep(s, actions[0], path);
      AbandonedStays(Next(s, actions[0]), actions[1..], path);
    }
  }

  lemma {:induction false} CrashAbandons(s: State, owner: string, path: Path)
    requires path in s.made && s.made[path] == owner
    ensures var crashed := Next(s, Crash(owner));
      Abandoned(crashed, path) && crashed.made == s.made && crashed.stripped == s.stripped
  {
  }

  lemma {:induction false} OrphanUnlessStripped(s: State, path: Path, current: string)
    requires Inv(s) && path in s.dirs && path in s.made && s.made[path] != current
    ensures IsOrphan(path.name, s.dirs[path], current) <==> path !in s.stripped
    ensures s.dirs[path].marker == ActiveFile(path, s.made[path]) <==> path !in s.stripped
  {
  }

  /**
   After a supervisor has died, each of its directories that was active then, and each staging
   directory, is reported to every other supervisor in all later states in which it exists, unless
   and only unless a deletion has meanwhile unlinked its marker.
   */
  lemma {:induction false} CrashLeavesOrphans(s: State, owner: string, actions: seq<Action>, path: Path, current: string)
    requires Reachable(s) && path in s.dirs && current != owner
    requires IsStaging(path.name) || (path in s.made && s.made[path] == owner && s.dirs[path].marker == ActiveFile(path, owner))
    ensures var crashed := Next(s, Crash(owner)); var s' := Run(Next, crashed, actions);
      path in s'.dirs ==>
        (IsOrphan(path.name, s'.dirs[path], current) <==> IsStaging(path.name) || !StripsInRun(crashed, actions, path))
  {
    if !IsStaging(path.name) {
      ReachableInv(s);
      OrphanUnlessStripped(s, path, current);
      CrashAbandons(s, owner, path);
      CrashKeepsInv(s, owner);
      var crashed := Next(s, Crash(owner));
      RunKeepsInv(crashed, actions);
      AbandonedStays(crashed, actions, path);
      var s' := Run(Next, crashed, actions);
      if path in s'.dirs { OrphanUnlessStripped(s', path, current); }
    }
  }

  /** A crash between the removal of the old marker and the rename of the new one leaves a directory no scan reports. */
  lemma {:induction false} InterruptedCloseIsMissed(s: State, call: nat, path: Path, current: string)
    requires Reachable(s) && call in s.closers && s.closers[call] == Closer(path, Rewritten) && path in s.dirs
    ensures path in s.made
    ensures var s' := Next(Next(s, StepClose(call)), Crash(s.made[path]));
      && path in s'.dirs && s'.dirs[path].marker.None? && (path !in s.torn ==> s'.dirs[path].temp == ClosedFile(path))
      && (forall c :: c in s'.closers ==> s'.closers[c].path != path)
      && !IsOrphan(path.name, s'.dirs[path], current)
  {
    ReachableInv(s);
  }

  /** So does a crash of a deletion, of any owner, that has unlinked the marker. */
  lemma {:induction false} InterruptedDeletionIsMissed(s: State, call: nat, path: Path, current: string)
    requires Reachable(s) && path in s.made && Strips(s, StepDelete(call, UnlinkMarker), path)
    ensures var s' := Next(Next(s, StepDelete(call, UnlinkMarker)), Crash(s.deleters[call].owner));
      && path in s'.dirs && s'.dirs[path] == Dir(None, s.dirs[path].temp)
      && call !in s'.deleters && !IsOrphan(path.name, s'.dirs[path], current)
  {
    ReachableInv(s);
  }

  // ----- such runs exist, for all admitted names and any two supervisors -----

  predicate AreNames(path: Path, staging: string) {
    ValidPath(path) && IsStaging(staging) && !IsStaging(path.name)
  }

  function Staging(path: Path, staging: string): Path {
    path.(name := staging)
  }

  /** Supervisor `a` has got as far as `phase` in the creation of its first directory. */
  function Creating(path: Path, a: string, staging: string, phase: CreatePhase): State {
    var k := Creator(path, Staging(path, staging), a, phase);
    State(map[Staging(path, staging) := Staged(k)], map[1 := k], map[], map[], map[], {}, {staging}, {}, {})
  }

  /** It has made the directory, and got as far as `dir`, `closers` and so on with it. */
  function Made(path: Path, a: string, staging: string, dir: Dir, closers: map<nat, Closer>,
                deleters: map<nat, Deleter>, handles: set<Path>, stripped: set<Path>, torn: set<Path>): State
  {
    State(map[path := dir], map[], closers, deleters, map[path := a], handles, {staging}, stripped, torn)
  }

  function ActiveDir(path: Path, a: string): Dir {
    Dir(ActiveFile(path, a), None)
  }

  lemma {:induction false} CreatingIsReachable(path: Path, a: string, staging: string)
    requires AreNames(path, staging)
    ensures Reachable(Creating(path, a, staging, Marked))
  {
    assert Initial() == Run(Next, Initial(), []);
    ReachesNext(Next, Initial(), Initial(), BeginCreate(1, path, a, staging));
    FirstStep(path, a, staging);
    OneCreateStep(path, a, staging, Empty, Writing);
    OneCreateStep(path, a, staging, Writing, Written);
    OneCreateStep(path, a, staging, Written, Marked);
  }

  lemma {:induction false} FirstStep(path: Path, a: string, staging: string)
    requires AreNames(path, staging)
    ensures Next(Initial(), BeginCreate(1, path, a, staging)) == Creating(path, a, staging, Empty)
  {
  }

  lemma {:induction false} OneCreateStep(path: Path, a: string, staging: string, phase: CreatePhase, next: CreatePhase)
    requires Reachable(Creating(path, a, staging, phase)) && !phase.Marked?
    requires next == match phase case Empty => Writing case Writing => Written case _ => Marked
    ensures Reachable(Creating(path, a, staging, next))
  {
    ReachesNext(Next, Initial(), Creating(path, a, staging, phase), StepCreate(1));
    assert Next(Creating(path, a, staging, phase), StepCreate(1)) == Creating(path, a, staging, next);
  }

  lemma {:induction false} MadeIsReachable(path: Path, a: string, staging: string)
    requires AreNames(path, staging)
    ensures Reachable(Made(path, a, staging, ActiveDir(path, a), map[], map[], {path}, {}, {}))
  {
    CreatingIsReachable(path, a, staging);
    ReachesNext(Next, Initial(), Creating(path, a, staging, Marked), StepCreate(1));
    LastStep(path, a, staging);
  }

  lemma {:induction false} LastStep(path: Path, a: string, staging: string)
    requires AreNames(path, staging)
    ensures Next(Creating(path, a, staging, Marked), StepCreate(1)) ==
            Made(path, a, staging, ActiveDir(path, a), map[], map[], {path}, {}, {})
  {
  }

  function InClose(path: Path, a: string, staging: string, phase: ClosePhase): State {
    var k := Closer(path, phase);
    Made(path, a, staging, Closing(k, a), map[1 := k], map[], {}, if phase.Unmarked? then {path} else {}, {})
  }

  lemma {:induction false} OneCloseStep(path: Path, a: string, staging: string, phase: ClosePhase, next: ClosePhase)
    requires Reachable(InClose(path, a, staging, phase)) && !phase.Unmarked?
    requires next == match phase case Opened => Rewriting case Rewriting => Rewritten case _ => Unmarked
    ensures Reachable(InClose(path, a, staging, next))
  {
    ReachesNext(Next, Initial(), InClose(path, a, staging, phase), StepClose(1));
    assert Next(InClose(path, a, staging, phase), StepClose(1)) == InClose(path, a, staging, next);
  }

  lemma {:induction false} ClosingIsReachable(path: Path, a: string, staging: string)
    requires AreNames(path, staging)
    ensures Reachable(InClose(path, a, staging, Unmarked))
  {
    MadeIsReachable(path, a, staging);
    var made := Made(path, a, staging, ActiveDir(path, a), map[], map[], {path}, {}, {});
    ReachesNext(Next, Initial(), made, BeginClose(1, path));
    assert Next(made, BeginClose(1, path)) == InClose(path, a, staging, Opened);
    OneCloseStep(path, a, staging, Opened, Rewriting);
    OneCloseStep(path, a, staging, Rewriting, Rewritten);
    OneCloseStep(path, a, staging, Rewritten, Unmarked);
  }

  /** No call is in flight, and the one directory is `d`, which no supervisor's scan reports. */
  ghost predicate OnlyUnseen(s: State, path: Path, d: Dir) {
    && s.creators == map[] && s.closers == map[] && s.deleters == map[]
    && s.dirs == map[path := d]
    && forall current :: !IsOrphan(path.name, d, current)
  }

  /** `a` dies in the close. */
  lemma {:induction false} InterruptedClose(path: Path, a: string, staging: string) returns (s: State)
    requires AreNames(path, staging)
    ensures Reachable(s) && OnlyUnseen(s, path, Dir(None, ClosedFile(path)))
  {
    ClosingIsReachable(path, a, staging);
    ReachesNext(Next, Initial(), InClose(path, a, staging, Unmarked), Crash(a));
    s := Next(InClose(path, a, staging, Unmarked), Crash(a));
    assert s == InClose(path, a, staging, Unmarked).(closers := map[]);
  }

  lemma {:induction false} MakerDied(path: Path, a: string, staging: string)
    requires AreNames(path, staging)
    ensures Reachable(Made(path, a, staging, ActiveDir(path, a), map[], map[], {}, {}, {}))
  {
    MadeIsReachable(path, a, staging);
    var made := Made(path, a, staging, ActiveDir(path, a), map[], map[], {path}, {}, {});
    ReachesNext(Next, Initial(), made, Crash(a));
    assert Next(made, Crash(a)) == made.(handles := {});
  }

  lemma {:induction false} ReclaimBegun(path: Path, a: string, staging: string, b: string)
    requires AreNames(path, staging) && a != b
    ensures Reachable(Made(path, a, staging, ActiveDir(path, a), map[], map[1 := Deleter(path, path, b)], {}, {}, {}))
  {
    MakerDied(path, a, staging);
    var dead := Made(path, a, staging, ActiveDir(path, a), map[], map[], {}, {}, {});
    ReachesNext(Next, Initial(), dead, BeginReclaim(1, path, b));
    assert Next(dead, BeginReclaim(1, path, b)) == dead.(deleters := map[1 := Deleter(path, path, b)]);
  }

  lemma {:induction false} HalfReclaimed(path: Path, a: string, staging: string, b: string)
    requires AreNames(path, staging) && a != b
    ensures Reachable(Made(path, a, staging, EMPTY_DIR, map[], map[1 := Deleter(path, path, b)], {}, {path}, {path}))
  {
    ReclaimBegun(path, a, staging, b);
    var begun := Made(path, a, staging, ActiveDir(path, a), map[], map[1 := Deleter(path, path, b)], {}, {}, {});
    ReachesNext(Next, Initial(), begun, StepDelete(1, UnlinkMarker));
    assert Next(begun, StepDelete(1, UnlinkMarker)) == begun.(dirs := map[path := EMPTY_DIR], stripped := {path}, torn := {path});
  }

  /** `a` dies, `b` reclaims its directory and dies in turn after it has unlinked the marker. */
  lemma {:induction false} InterruptedReclaim(path: Path, a: string, staging: string, b: string) returns (s: State)
    requires AreNames(path, staging) && a != b
    ensures Reachable(s) && OnlyUnseen(s, path, EMPTY_DIR)
  {
    HalfReclaimed(path, a, staging, b);
    s := Made(path, a, staging, EMPTY_DIR, map[], map[1 := Deleter(path, path, b)], {}, {path}, {path});
    ReachesNext(Next, Initial(), s, Crash(b));
    s := Next(s, Crash(b));
    assert s == Made(path, a, staging, EMPTY_DIR, map[], map[], {}, {path}, {path});
  }

  lemma {:induction false} StagingReclaimBegun(path: Path, a: string, staging: string, b: string)
    requires AreNames(path, staging)
    ensures var tmp := Staging(path, staging);
      Reachable(Creating(path, a, staging, Marked).(deleters := map[2 := Deleter(tmp, tmp, b)]))
  {
    var tmp := Staging(path, staging);
    CreatingIsReachable(path, a, staging);
    ReachesNext(Next, Initial(), Creating(path, a, staging, Marked), BeginReclaim(2, tmp, b));
    assert Next(Creating(path, a, staging, Marked), BeginReclaim(2, tmp, b)) ==
      Creating(path, a, staging, Marked).(deleters := map[2 := Deleter(tmp, tmp, b)]);
  }

  lemma {:induction false} StagingStripped(path: Path, a: string, staging: string, b: string) returns (s: State)
    requires AreNames(path, staging)
    ensures Reachable(s)
    ensures var tmp := Staging(path, staging);
      s == Creating(path, a, staging, Marked).(dirs := map[tmp := EMPTY_DIR], deleters := map[2 := Deleter(tmp, tmp, b)],
                                               stripped := {tmp}, torn := {tmp})
  {
    var tmp := Staging(path, staging);
    StagingReclaimBegun(path, a, staging, b);
    s := Creating(path, a, staging, Marked).(deleters := map[2 := Deleter(tmp, tmp, b)]);
    ReachesNext(Next, Initial(), s, StepDelete(2, UnlinkMarker));
    s := Next(s, StepDelete(2, UnlinkMarker));
  }

  /** `b` strips the staging directory of a creation that is still going on, which then gets its final name. */
  lemma {:induction false} StrippedWhileCreated(path: Path, a: string, staging: string, b: string) returns (s: State)
    requires AreNames(path, staging)
    ensures Reachable(s) && s.creators == map[] && path in s.handles && s.dirs == map[path := EMPTY_DIR]
  {
    s := StagingStripped(path, a, staging, b);
    ReachesNext(Next, Initial(), s, StepCreate(1));
    s := Next(s, StepCreate(1));
  }

  const E := Path("p", "r", "e")

  lemma {:induction false} LetterIsValid(name: string)
    requires |name| == 1 && IsNameChar(name[0]) && name[0] != '.'
    ensures ValidComponent(name)
  {
    assert name[1..] == "" && Base(name) == [name[0]];
    assert Base(name)[1..] == "" && |Upper(Base(name))| == 1;
    assert forall n :: n in RESERVED ==> |n| >= 3;
  }

  lemma {:induction false} NamesAreValid()
    ensures AreNames(E, ".tmp-1")
  {
    LetterIsValid("p");
    LetterIsValid("r");
    LetterIsValid("e");
    AdmittedNamesAreNotReserved("e");
    assert ".tmp-1"[..5] == TMP_PREFIX;
  }

  /** An interrupted close, or an interrupted reclaim, can leave a directory behind that no scan ever reports. */
  lemma {:induction false} UnseenDirectoryCanRemain() returns (closing: State, reclaiming: State)
    ensures Reachable(closing) && OnlyUnseen(closing, E, Dir(None, ClosedFile(E)))
    ensures Reachable(reclaiming) && OnlyUnseen(reclaiming, E, EMPTY_DIR)
  {
    NamesAreValid();
    closing := InterruptedClose(E, "a", ".tmp-1");
    reclaiming := InterruptedReclaim(E, "a", ".tmp-1", "b");
  }

  /** A creation can end with a directory in use that has no marker and that no scan reports. */
  lemma {:induction false} StrippedStagingCanBePlaced() returns (s: State)
    ensures Reachable(s) && E in s.handles && s.creators == map[] && s.dirs == map[E := EMPTY_DIR]
    ensures forall current :: !IsOrphan(E.name, EMPTY_DIR, current)
  {
    NamesAreValid();
    s := StrippedWhileCreated(E, "a", ".tmp-1", "b");
  }
}
