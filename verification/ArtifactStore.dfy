/**
 The artifact store on disk, `<root>/<project>/<run>/<execution>/`: creation, close, the scan for
 orphans and their reclaim, as a single process runs them.
 */
module ArtifactStore {
  import opened Options
  import opened ArtifactNames

  datatype Path = Path(project: string, run: string, name: string)

  /** The `state` field: "active", "closed", or other text, which includes a missing field. */
  datatype MarkerState = Active | Closed | OtherState(text: string)

  /** The marker fields the scan reads; a field that is missing reads as the empty string. */
  datatype Marker = Marker(state: MarkerState, owner: string, project: string, run: string, execution: string)

  const NO_MARKER := Marker(OtherState(""), "", "", "", "")

  /** What a file holds: a marker, or text that is not JSON. */
  datatype Content = Whole(marker: Marker) | Garbage

  /** An execution-level directory: its marker file and the marker's temp file. */
  datatype Dir = Dir(marker: Option<Content>, temp: Option<Content>)

  function ActiveMarker(path: Path, owner: string): Marker {
    Marker(Active, owner, path.project, path.run, path.name)
  }

  function ClosedMarker(path: Path): Marker {
    Marker(Closed, "", "", "", path.name)
  }

  predicate IsStaging(name: string) {
    TMP_PREFIX <= name
  }

  predicate HasActiveMarker(dir: Dir) {
    dir.marker.Some? && dir.marker.value.Whole? && dir.marker.value.marker.state.Active?
  }

  /** What the scan of supervisor `current` reports: staging remnants, and active directories of others. */
  predicate IsOrphan(name: string, dir: Dir, current: string) {
    IsStaging(name) || (HasActiveMarker(dir) && dir.marker.value.marker.owner != current)
  }

  datatype Orphan = Orphan(path: Path, marker: Marker)

  function Report(path: Path, dir: Dir): Orphan {
    if IsStaging(path.name) || !HasActiveMarker(dir) then Orphan(path, NO_MARKER)
    else Orphan(path, dir.marker.value.marker)
  }

  type Execs = map<string, Dir>
  type Runs = map<string, Execs>
  type Tree = map<string, Runs>

  function At(tree: Tree, path: Path): Option<Dir> {
    if path.project in tree && path.run in tree[path.project] && path.name in tree[path.project][path.run]
    then Some(tree[path.project][path.run][path.name]) else None
  }

  function Put(tree: Tree, path: Path, dir: Dir): Tree {
    var runs := if path.project in tree then tree[path.project] else map[];
    var execs := if path.run in runs then runs[path.run] else map[];
    tree[path.project := runs[path.run := execs[path.name := dir]]]
  }

  function Remove(tree: Tree, path: Path): Tree {
    if At(tree, path).None? then tree
    else tree[path.project := tree[path.project][path.run := tree[path.project][path.run] - {path.name}]]
  }

  predicate OrphanAt(tree: Tree, path: Path, current: string) {
    At(tree, path).Some? && IsOrphan(path.name, At(tree, path).value, current)
  }

  ghost predicate Distinct(orphans: seq<Orphan>) {
    forall i, j :: 0 <= i < j < |orphans| ==> orphans[i].path != orphans[j].path
  }

  function PathsOf(orphans: seq<Orphan>): set<Path> {
    set i | 0 <= i < |orphans| :: orphans[i].path
  }

  lemma {:induction false} PathsOfExtends(orphans: seq<Orphan>, o: Orphan)
    ensures PathsOf(orphans + [o]) == PathsOf(orphans) + {o.path}
  {
    forall p | p in PathsOf(orphans) ensures p in PathsOf(orphans + [o]) {
      var i :| 0 <= i < |orphans| && orphans[i].path == p;
      assert (orphans + [o])[i].path == p;
    }
    assert (orphans + [o])[|orphans|].path == o.path;
  }

  /** How far the scan has come: what is left of the root, of the project in hand and of the run in hand. */
  datatype Pending = Pending(projects: set<string>, project: string, runs: set<string>, run: string, execs: set<string>)

  ghost predicate IsScanned(left: Pending, p: Path) {
    && p.project !in left.projects
    && (p.project == left.project ==> p.run !in left.runs && (p.run == left.run ==> p.name !in left.execs))
  }

  /** `found` reports the orphans among the paths already scanned, each once. */
  ghost predicate Reports(found: seq<Orphan>, tree: Tree, current: string, left: Pending) {
    && Distinct(found)
    && (forall p :: p in PathsOf(found) <==> OrphanAt(tree, p, current) && IsScanned(left, p))
    && (forall i :: 0 <= i < |found| ==> OrphanAt(tree, found[i].path, current) &&
                                         found[i] == Report(found[i].path, At(tree, found[i].path).value))
  }

  lemma {:induction false} ReportsOneMore(found: seq<Orphan>, tree: Tree, current: string, left: Pending, path: Path)
    requires Reports(found, tree, current, left) && At(tree, path).Some?
    requires path.project !in left.projects && path.project == left.project
    requires path.run !in left.runs && path.run == left.run && path.name in left.execs
    ensures var o := Report(path, At(tree, path).value);
      Reports(if OrphanAt(tree, path, current) then found + [o] else found, tree, current, left.(execs := left.execs - {path.name}))
  {
    if OrphanAt(tree, path, current) {
      var o := Report(path, At(tree, path).value);
      PathsOfExtends(found, o);
      forall i | 0 <= i < |found| ensures found[i].path != path {
        assert found[i].path in PathsOf(found);
      }
    }
  }

  lemma {:induction false} ReportsRestated(found: seq<Orphan>, tree: Tree, current: string, left: Pending, left': Pending)
    requires Reports(found, tree, current, left)
    requires forall p :: At(tree, p).Some? ==> (IsScanned(left, p) <==> IsScanned(left', p))
    ensures Reports(found, tree, current, left')
  {
  }

  /** As a successful creation leaves it. */
  predicate IsNewlyMade(tree: Tree, path: Path, owner: string) {
    !IsStaging(path.name) &&
    At(tree, path) == Some(Dir(Some(Whole(Marker(Active, owner, path.project, path.run, path.name))), None))
  }

  /** What a supervisor has just made, the scan of every other one reports under its ids and owner. */
  lemma {:induction false} NewlyMadeIsReported(found: seq<Orphan>, tree: Tree, current: string)
    requires forall p :: p in PathsOf(found) <==> OrphanAt(tree, p, current)
    requires forall i :: 0 <= i < |found| ==>
      OrphanAt(tree, found[i].path, current) && found[i] == Report(found[i].path, At(tree, found[i].path).value)
    ensures forall p, owner :: IsNewlyMade(tree, p, owner) && owner != current ==>
      Orphan(p, Marker(Active, owner, p.project, p.run, p.name)) in found
  {
    forall p, owner | IsNewlyMade(tree, p, owner) && owner != current
      ensures Orphan(p, Marker(Active, owner, p.project, p.run, p.name)) in found
    {
      assert OrphanAt(tree, p, current);
      var i :| 0 <= i < |found| && found[i].path == p;
    }
  }

  /** What a recursive deletion had unlinked when it failed. */
  datatype Damage = Damage(marker: bool, temp: bool)

  function Damaged(dir: Dir, damage: Damage): Dir {
    Dir(if damage.marker then None else dir.marker, if damage.temp then None else dir.temp)
  }

  /** What a deletion leaves: nothing, or what it had not unlinked when it failed. */
  function Remains(tree: Tree, path: Path, faults: map<Path, Damage>): Option<Dir> {
    if path in faults && At(tree, path).Some? then Some(Damaged(At(tree, path).value, faults[path])) else None
  }

  /** What is done with a directory when its execution ends. */
  datatype RetentionPolicy = KeepAll | KeepOnFailureOnly | DeleteAll

  datatype ArtifactOutcome = Success | Failure | Cancelled

  datatype CloseAction = Kept | Deleted

  class ArtifactRoot {
    var tree: Tree

    constructor ()
      ensures tree == map[]
    {
      tree := map[];
    }

    // ----- file system calls -----

    method SetDir(path: Path, dir: Dir)
      modifies this
      ensures forall p :: At(tree, p) == if p == path then Some(dir) else At(old(tree), p)
    {
      tree := Put(tree, path, dir);
    }

    method RemoveDir(path: Path)
      modifies this
      ensures forall p :: At(tree, p) == if p == path then None else At(old(tree), p)
    {
      tree := Remove(tree, path);
    }

    /** `remove_dir_all`: unlinks the entries and then removes the directory, unless one of these calls fails. */
    method RemoveDirAll(path: Path, faults: map<Path, Damage>) returns (ok: bool)
      requires At(tree, path).Some?
      modifies this
      ensures ok <==> path !in faults
      ensures Cleared(old(tree), tree, {path}, faults)
    {
      var dir := At(tree, path).value;
      if path !in faults || faults[path].marker { dir := dir.(marker := None); }
      if path !in faults || faults[path].temp { dir := dir.(temp := None); }
      SetDir(path, dir);
      if path in faults { return false; }
      RemoveDir(path);
      return true;
    }

    method RenameDir(from: Path, to: Path)
      requires At(tree, from).Some? && from != to
      modifies this
      ensures forall p :: At(tree, p) == if p == to then At(old(tree), from) else if p == from then None else At(old(tree), p)
    {
      var dir := At(tree, from).value;
      RemoveDir(from);
      SetDir(to, dir);
    }

    /** `write_marker`: temp file, removal of an old marker, rename. */
    method WriteMarker(path: Path, marker: Marker)
      requires At(tree, path).Some?
      modifies this
      ensures forall p :: At(tree, p) == if p == path then Some(Dir(Some(Whole(marker)), None)) else At(old(tree), p)
    {
      var dir := At(tree, path).value;
      dir := dir.(temp := Some(Whole(marker)));
      if dir.marker.Some? { dir := dir.(marker := None); }
      dir := Dir(dir.temp, None);
      SetDir(path, dir);
    }

    // ----- the store -----

    /** Creation without a crash. `staging` is the fresh name the directory is built under. */
    method CreateExecutionDir(path: Path, owner: string, staging: string) returns (ok: bool)
      requires IsStaging(staging) && At(tree, path.(name := staging)).None?
      modifies this
      ensures ok <==> ValidComponent(path.project) && ValidComponent(path.run) && ValidComponent(path.name) && At(old(tree), path).None?
      ensures ok ==>
        At(tree, path) == Some(Dir(Some(Whole(Marker(Active, owner, path.project, path.run, path.name))), None))
      ensures ok ==> IsNewlyMade(tree, path, owner)
      ensures forall p :: p != path || !ok ==> At(tree, p) == At(old(tree), p)
    {
      if !ValidComponent(path.project) || !ValidComponent(path.run) || !ValidComponent(path.name) { return false; }
      AdmittedNamesAreNotReserved(path.name);
      if At(tree, path).Some? { return false; }
      var tmp := path.(name := staging);
      SetDir(tmp, Dir(None, None));
      WriteMarker(tmp, ActiveMarker(path, owner));
      RenameDir(tmp, path);
      return true;
    }

    method Close(path: Path, policy: RetentionPolicy, outcome: ArtifactOutcome) returns (action: CloseAction)
      requires At(tree, path).Some?
      modifies this
      ensures action.Deleted? <==> policy.DeleteAll? || (policy.KeepOnFailureOnly? && outcome.Success?)
      ensures At(tree, path) == if action.Deleted? then None else Some(Dir(Some(Whole(Marker(Closed, "", "", "", path.name))), None))
      ensures forall p :: p != path ==> At(tree, p) == At(old(tree), p)
    {
      if policy.DeleteAll? || (policy.KeepOnFailureOnly? && outcome.Success?) {
        var ok := RemoveDirAll(path, map[]);
        return Deleted;
      }
      WriteMarker(path, ClosedMarker(path));
      return Kept;
    }

    /** The scan: every directory of every run of every project, in whatever order the file system lists them. */
    method FindOrphans(current: string) returns (orphans: seq<Orphan>)
      ensures Distinct(orphans)
      ensures forall p :: p in PathsOf(orphans) <==> OrphanAt(tree, p, current)
      ensures forall i :: 0 <= i < |orphans| ==> OrphanAt(tree, orphans[i].path, current) &&
                                                 orphans[i] == Report(orphans[i].path, At(tree, orphans[i].path).value)
      ensures forall p :: p in PathsOf(orphans) <==>
        At(tree, p).Some? &&
        (".tmp-" <= p.name || (exists m :: At(tree, p).value.marker == Some(Whole(m)) && m.state.Active? && m.owner != current))
      ensures forall p, owner :: IsNewlyMade(tree, p, owner) && owner != current ==>
        Orphan(p, Marker(Active, owner, p.project, p.run, p.name)) in orphans
    {
      orphans := [];
      var projects := tree.Keys;
      while projects != {}
        invariant projects <= tree.Keys && Reports(orphans, tree, current, Pending(projects, "", {}, "", {}))
        decreases |projects|
      {
        var project :| project in projects;
        var runs := tree[project].Keys;
        ReportsRestated(orphans, tree, current, Pending(projects, "", {}, "", {}),
                        Pending(projects - {project}, project, runs, "", {}));
        projects := projects - {project};
        while runs != {}
          invariant runs <= tree[project].Keys
          invariant Reports(orphans, tree, current, Pending(projects, project, runs, "", {}))
          decreases |runs|
        {
          var run :| run in runs;
          var execs := tree[project][run].Keys;
          ReportsRestated(orphans, tree, current, Pending(projects, project, runs, "", {}),
                          Pending(projects, project, runs - {run}, run, execs));
          runs := runs - {run};
          while execs != {}
            invariant execs <= tree[project][run].Keys
            invariant Reports(orphans, tree, current, Pending(projects, project, runs, run, execs))
            decreases |execs|
          {
            var exec :| exec in execs;
            var path, dir := Path(project, run, exec), tree[project][run][exec];
            ReportsOneMore(orphans, tree, current, Pending(projects, project, runs, run, execs), path);
            execs := execs - {exec};
            if IsStaging(exec) {
              orphans := orphans + [Orphan(path, NO_MARKER)];
              continue;
            }
            if HasActiveMarker(dir) && dir.marker.value.marker.owner != current {
              orphans := orphans + [Orphan(path, dir.marker.value.marker)];
            }
          }
          ReportsRestated(orphans, tree, current, Pending(projects, project, runs, run, {}),
                          Pending(projects, project, runs, "", {}));
        }
        ReportsRestated(orphans, tree, current, Pending(projects, project, {}, "", {}), Pending(projects, "", {}, "", {}));
      }
      NewlyMadeIsReported(orphans, tree, current);
    }

    /**
     Deletes what the scan reports. A deletion that fails does not stop the pass, and leaves behind
     what it had not unlinked; a second scan sees that just if the marker was not gone yet.
     */
    method ReclaimOrphans(current: string, faults: map<Path, Damage>) returns (reclaimed: nat, ghost found: set<Path>)
      modifies this
      ensures forall p :: p in found <==> OrphanAt(old(tree), p, current)
      ensures Cleared(old(tree), tree, found, faults)
      ensures reclaimed == |found - faults.Keys|
      ensures forall p :: OrphanAt(tree, p, current) <==>
        p in found && p in faults && (IsStaging(p.name) || !faults[p].marker)
    {
      var orphans := FindOrphans(current);
      reclaimed := DeleteEach(orphans, faults);
      found := PathsOf(orphans);
      SecondScan(old(tree), tree, found, faults, current);
    }

    method DeleteEach(orphans: seq<Orphan>, faults: map<Path, Damage>) returns (deleted: nat)
      requires Distinct(orphans) && forall i :: 0 <= i < |orphans| ==> At(tree, orphans[i].path).Some?
      modifies this
      ensures Cleared(old(tree), tree, PathsOf(orphans), faults)
      ensures deleted == |PathsOf(orphans) - faults.Keys|
    {
      deleted := 0;
      var i := 0;
      while i < |orphans|
        invariant i <= |orphans|
        invariant Cleared(old(tree), tree, PathsOf(orphans[..i]), faults)
        invariant deleted == |PathsOf(orphans[..i]) - faults.Keys|
      {
        ghost var done, before := PathsOf(orphans[..i]), tree;
        NextPath(orphans, i);
        CountOneMore(done, faults.Keys, orphans[i].path);
        var ok := RemoveDirAll(orphans[i].path, faults);
        deleted := deleted + if ok then 1 else 0;
        ClearedOneMore(old(tree), before, tree, done, faults, orphans[i].path);
        i := i + 1;
      }
      assert orphans[..i] == orphans;
    }
  }

  /** Exactly the directories at `paths` are gone, or, where the deletion failed, in part. */
  ghost predicate Cleared(before: Tree, after: Tree, paths: set<Path>, faults: map<Path, Damage>) {
    forall p :: At(after, p) == if p in paths then Remains(before, p, faults) else At(before, p)
  }

  lemma {:induction false} ClearedOneMore(before: Tree, between: Tree, after: Tree, done: set<Path>, faults: map<Path, Damage>, path: Path)
    requires Cleared(before, between, done, faults) && path !in done
    requires Cleared(between, after, {path}, faults)
    ensures Cleared(before, after, done + {path}, faults)
  {
    assert At(between, path) == At(before, path);
  }

  lemma {:induction false} SecondScan(before: Tree, after: Tree, found: set<Path>, faults: map<Path, Damage>, current: string)
    requires Cleared(before, after, found, faults)
    requires forall p :: p in found <==> OrphanAt(before, p, current)
    ensures forall p :: OrphanAt(after, p, current) <==> p in found && p in faults && (IsStaging(p.name) || !faults[p].marker)
  {
    forall p ensures OrphanAt(after, p, current) <==> p in found && p in faults && (IsStaging(p.name) || !faults[p].marker) {
      assert At(after, p) == if p in found then Remains(before, p, faults) else At(before, p);
    }
  }

  lemma {:induction false} NextPath(orphans: seq<Orphan>, i: nat)
    requires i < |orphans| && Distinct(orphans)
    ensures PathsOf(orphans[..i + 1]) == PathsOf(orphans[..i]) + {orphans[i].path}
    ensures orphans[i].path !in PathsOf(orphans[..i])
  {
  }

  lemma {:induction false} CountOneMore(found: set<Path>, undeletable: set<Path>, path: Path)
    requires path !in found
    ensures |found + {path} - undeletable| == |found - undeletable| + (if path in undeletable then 0 else 1)
  {
    if path in undeletable {
      assert found + {path} - undeletable == found - undeletable;
    } else {
      assert found + {path} - undeletable == (found - undeletable) + {path};
    }
  }
}
