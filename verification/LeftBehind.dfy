/** What a deletion leaves in storage of what it deletes: the objects of the runs that its listing
    of the newest leaves out (server/emi/api_user.go). */
module LeftBehind {
  import opened Runs
  import opened Stores
  import opened Boards
  import opened Keys
  import opened Blobs
  import opened Protocol
  import opened Lifecycle
  import opened Deletion
  import opened Listings
  import opened Crowds
  import KeptVersions

  // ---------- exactly what one deletion leaves ----------

  /** Some version of the project names the key, and none of another project was uploaded under it. */
  ghost predicate ProjectOrphan(t: Tables, project: string, key: string) {
    exists b :: HasBoard(t, project, b) && OrphanOf(t.boards, project, b, key)
  }

  /** An orphaned key names the object of its own key, and of no other clean key. */
  lemma OrphanNames(w: World, s: State, project: string, b: string, orphan: string, key: string)
    requires KeysOk(s) && HasBoard(s.t, project, b) && OrphanOf(s.t.boards, project, b, orphan) && CleanKey(key)
    ensures ObjectName(w.storage, orphan) == ObjectName(w.storage, key) <==> orphan == key
  {
    NamedIsClean(s, b, orphan);
    hide CleanKey, ObjectName, KeysOk;
    if orphan != key {
      DifferentObjects(w.storage, orphan, key);
    }
  }

  lemma ProjectKeysName(w: World, s: State, project: string, keys: seq<string>, key: string)
    requires KeysOk(s) && IsOrphans(s.t, project, keys) && CleanKey(key)
    ensures NamedBy(w.storage, keys, ObjectName(w.storage, key)) <==> ProjectOrphan(s.t, project, key)
  {
    hide KeysOk, CleanKey, ObjectName, OrphanOf, HasBoard;
    if orphan :| orphan in keys && ObjectName(w.storage, key) == ObjectName(w.storage, orphan) {
      var b :| HasBoard(s.t, project, b) && OrphanOf(s.t.boards, project, b, orphan);
      OrphanNames(w, s, project, b, orphan, key);
    }
  }

  lemma VersionKeysName(w: World, s: State, project: string, board: string, keys: seq<string>, key: string)
    requires KeysOk(s) && HasBoard(s.t, project, board) && IsVersionOrphans(s.t, project, board, keys) && CleanKey(key)
    ensures NamedBy(w.storage, keys, ObjectName(w.storage, key)) <==> VersionOrphan(s.t.boards, project, board, key)
  {
    hide KeysOk, CleanKey, ObjectName, OrphanOf;
    if orphan :| orphan in keys && ObjectName(w.storage, key) == ObjectName(w.storage, orphan) {
      OrphanNames(w, s, project, board, orphan, key);
    }
  }

  /** Clearing the prefixes of some runs takes a run's object exactly when the run is one of them. */
  lemma SweptIfAmong(w: World, s: State, runs: seq<string>, r: string, key: string)
    requires RowsOk(s) && StorageOk(w.storage) && (forall q :: q in runs ==> q in s.t.runs)
    requires ValidId(r) && RunKeyAllowed(key, r)
    ensures Swept(w.storage, runs, ObjectName(w.storage, key)) <==> r in runs
  {
    hide RowOk, ValidId, RunKeyAllowed, Covers, ObjectName, RunPrefix;
    forall q | q in runs ensures Covers(w.storage, RunPrefix(q), ObjectName(w.storage, key)) <==> q == r {
      PrefixCoversOwnRun(w.storage, q, r, key);
    }
  }

  lemma NoUploadSwept(w: World, s: State, runs: seq<string>, org: string, key: string)
    requires RowsOk(s) && StorageOk(w.storage) && (forall q :: q in runs ==> q in s.t.runs) && UploadKeyAllowed(key, org)
    ensures !Swept(w.storage, runs, ObjectName(w.storage, key))
  {
    hide RowOk, ValidId, UploadKeyAllowed, Covers, ObjectName, RunPrefix;
    forall q | q in runs ensures !Covers(w.storage, RunPrefix(q), ObjectName(w.storage, key)) {
      PrefixSparesUploads(w.storage, q, org, key);
    }
  }

  /** Deleting a project leaves, of any run's objects and any uploads, exactly those whose run was not
      listed and whose key is not orphaned. */
  lemma ProjectLeaves(w: World, s: State, project: string, listed: seq<string>, keys: seq<string>, id: string, key: string)
    requires RowsOk(s) && KeysOk(s) && StorageOk(w.storage) && project in s.t.projects
    requires Legal(w, s, DropProject(project, listed, keys))
    requires (ValidId(id) && RunKeyAllowed(key, id)) || UploadKeyAllowed(key, id)
    ensures var o := ObjectName(w.storage, key);
      o in ObjectsAfter(w, s, DropProject(project, listed, keys)) <==>
        o in s.objects && !(RunKeyAllowed(key, id) && id in listed) && !ProjectOrphan(s.t, project, key)
  {
    hide Legal, ObjectsAfter, RowsOk, KeysOk, StorageOk, ValidId, ObjectName, RunKeyAllowed, UploadKeyAllowed, ProjectOrphan, HasBoard,
      IsOrphans, Swept, NamedBy, CleanKey, IsListing;
    DropsProjectFacts(w, s, project, listed, keys, ObjectName(w.storage, key));
    AllowedIsClean(key, id);
    ProjectKeysName(w, s, project, keys, key);
    if RunKeyAllowed(key, id) {
      SweptIfAmong(w, s, listed, id, key);
    } else {
      NoUploadSwept(w, s, listed, id, key);
    }
  }

  lemma DropsProjectFacts(w: World, s: State, project: string, listed: seq<string>, keys: seq<string>, o: string)
    requires project in s.t.projects && Legal(w, s, DropProject(project, listed, keys))
    ensures IsListing(s.t, project, LIST_LIMIT, listed) && IsOrphans(s.t, project, keys)
    ensures forall r :: r in listed ==> r in s.t.runs && s.t.runs[r].project == project
    ensures o in ObjectsAfter(w, s, DropProject(project, listed, keys)) <==>
      o in s.objects && !Swept(w.storage, listed, o) && !NamedBy(w.storage, keys, o)
  {
    hide Swept, NamedBy, IsOrphans;
  }

  lemma DropsBoardFacts(w: World, s: State, project: string, board: string, listed: seq<string>, runs: seq<string>, keys: seq<string>, o: string)
    requires DropsBoard(s.t, project, board, listed) && Legal(w, s, DropBoard(project, board, listed, runs, keys))
    ensures OfVersion(s.t, board, listed, runs) && IsVersionOrphans(s.t, project, board, keys) && HasBoard(s.t, project, board)
    ensures o in ObjectsAfter(w, s, DropBoard(project, board, listed, runs, keys)) <==>
      o in s.objects && !Swept(w.storage, runs, o) && !NamedBy(w.storage, keys, o)
  {
    hide Swept, NamedBy, IsVersionOrphans, StillGoing, OnlyVersion, IsListing;
  }

  lemma AllowedIsClean(key: string, id: string)
    requires RunKeyAllowed(key, id) || UploadKeyAllowed(key, id)
    ensures CleanKey(key) && !(RunKeyAllowed(key, id) && UploadKeyAllowed(key, id))
  {
    if RunKeyAllowed(key, id) {
      RunKeyIsNoUpload(key, id, id);
    }
    hide CleanKey, HasPrefix;
  }

  /** So does deleting a version, of the objects of its own listed runs and its own unshared keys. */
  lemma VersionLeaves(w: World, s: State, project: string, board: string, listed: seq<string>, runs: seq<string>, keys: seq<string>,
                      id: string, key: string)
    requires RowsOk(s) && KeysOk(s) && StorageOk(w.storage) && DropsBoard(s.t, project, board, listed)
    requires Legal(w, s, DropBoard(project, board, listed, runs, keys))
    requires (ValidId(id) && RunKeyAllowed(key, id)) || UploadKeyAllowed(key, id)
    ensures var o := ObjectName(w.storage, key);
      o in ObjectsAfter(w, s, DropBoard(project, board, listed, runs, keys)) <==>
        && o in s.objects && !VersionOrphan(s.t.boards, project, board, key)
        && !(RunKeyAllowed(key, id) && id in listed && id in s.t.runs && s.t.runs[id].board == board)
  {
    hide Legal, ObjectsAfter, DropsBoard, RowsOk, KeysOk, StorageOk, ValidId, ObjectName, RunKeyAllowed, UploadKeyAllowed, VersionOrphan,
      HasBoard, IsVersionOrphans, Swept, NamedBy, CleanKey;
    DropsBoardFacts(w, s, project, board, listed, runs, keys, ObjectName(w.storage, key));
    AllowedIsClean(key, id);
    VersionKeysName(w, s, project, board, keys, key);
    if RunKeyAllowed(key, id) {
      SweptIfAmong(w, s, runs, id, key);
    } else {
      NoUploadSwept(w, s, runs, id, key);
    }
  }

  // ---------- when a deletion takes everything of its runs ----------

  /** The run has an object that no key the project alone uses names. */
  ghost predicate RunHolds(w: World, s: State, project: string, r: string) {
    exists key :: RunKeyAllowed(key, r) && ObjectName(w.storage, key) in s.objects && !ProjectOrphan(s.t, project, key)
  }

  /** The run has an object that no key the version alone uses names. */
  ghost predicate VersionRunHolds(w: World, s: State, project: string, board: string, r: string) {
    exists key :: RunKeyAllowed(key, r) && ObjectName(w.storage, key) in s.objects && !VersionOrphan(s.t.boards, project, board, key)
  }

  function VersionRuns(t: Tables, project: string, board: string): (ids: set<string>) {
    set r | r in RunsOf(t, project) && t.runs[r].board == board
  }

  /** Whatever a deletion of the project lists, no object under a key allowed for one of its runs is
      in storage afterwards. */
  ghost predicate ProjectCleared(w: World, s: State, project: string) {
    forall listed, keys, r, key :: Legal(w, s, DropProject(project, listed, keys)) && r in RunsOf(s.t, project) && RunKeyAllowed(key, r) ==>
      ObjectName(w.storage, key) !in ObjectsAfter(w, s, DropProject(project, listed, keys))
  }

  /** Whatever a deletion of the version lists, if the version goes then so do its runs' objects. */
  ghost predicate VersionCleared(w: World, s: State, project: string, board: string) {
    forall listed, runs, keys, r, key ::
      (Legal(w, s, DropBoard(project, board, listed, runs, keys)) && DropsBoard(s.t, project, board, listed)
       && r in VersionRuns(s.t, project, board) && RunKeyAllowed(key, r)) ==>
      ObjectName(w.storage, key) !in ObjectsAfter(w, s, DropBoard(project, board, listed, runs, keys))
  }

  lemma {:induction false} SomeOrphans(t: Tables, project: string, boards: set<string>) returns (keys: seq<string>)
    requires boards <= t.boards.Keys
    ensures forall key :: key in keys <==> exists b :: b in boards && HasBoard(t, project, b) && OrphanOf(t.boards, project, b, key)
    decreases |boards|
  {
    keys := [];
    if boards != {} {
      var b :| b in boards;
      var rest := SomeOrphans(t, project, boards - {b});
      var mine := Sublist([t.boards[b].inputKey, t.boards[b].boardKey], key => HasBoard(t, project, b) && OrphanOf(t.boards, project, b, key));
      keys := rest + mine;
      forall key ensures key in keys <==> exists c :: c in boards && HasBoard(t, project, c) && OrphanOf(t.boards, project, c, key) {
        if c :| c in boards && HasBoard(t, project, c) && OrphanOf(t.boards, project, c, key) {
          assert c == b ==> key in mine;
        }
      }
    }
  }

  lemma RunIsValid(s: State, r: string)
    requires RowsOk(s) && r in s.t.runs
    ensures ValidId(r)
  {
  }

  /** A deletion of the project can leave something of one of its runs exactly when a run that holds
      an object can be left out of the listing: as many others as it holds were created no earlier. */
  lemma ProjectClearedExactly(w: World, s: State, project: string)
    requires RowsOk(s) && KeysOk(s) && StorageOk(w.storage) && project in s.t.projects
    ensures ProjectCleared(w, s, project) <==>
      forall r :: r in RunsOf(s.t, project) && RunHolds(w, s, project, r) ==> |NoOlder(s.t, project, {r})| < 1000
  {
    hide RowsOk, KeysOk, StorageOk, RunKeyAllowed, ObjectName, NoOlder, IsListing, ProjectOrphan, ObjectsAfter;
    forall r | r in RunsOf(s.t, project) && RunHolds(w, s, project, r) && ProjectCleared(w, s, project)
      ensures |NoOlder(s.t, project, {r})| < LIST_LIMIT
    {
      if |NoOlder(s.t, project, {r})| >= LIST_LIMIT {
        LeftOutExactly(s.t, project, {r});
        var listed :| IsListing(s.t, project, LIST_LIMIT, listed) && LeavesOut(listed, {r});
        var keys := SomeOrphans(s.t, project, s.t.boards.Keys);
        assert Legal(w, s, DropProject(project, listed, keys));
        var key :| RunKeyAllowed(key, r) && ObjectName(w.storage, key) in s.objects && !ProjectOrphan(s.t, project, key);
        RunIsValid(s, r);
        ProjectLeaves(w, s, project, listed, keys, r, key);
      }
    }
    forall listed, keys, r, key | Legal(w, s, DropProject(project, listed, keys)) && r in RunsOf(s.t, project) && RunKeyAllowed(key, r)
        && (RunHolds(w, s, project, r) ==> |NoOlder(s.t, project, {r})| < LIST_LIMIT)
      ensures ObjectName(w.storage, key) !in ObjectsAfter(w, s, DropProject(project, listed, keys))
    {
      RunIsValid(s, r);
      ProjectLeaves(w, s, project, listed, keys, r, key);
      if r !in listed {
        assert LeavesOut(listed, {r});
        LeftOutExactly(s.t, project, {r});
      }
    }
  }

  /** A deletion of the version can leave something of one of its runs exactly when the version is not
      the last, and a run of it that holds an object can be left out of the listing along with all
      that are unfinished. */
  lemma VersionClearedExactly(w: World, s: State, project: string, board: string)
    requires RowsOk(s) && KeysOk(s) && StorageOk(w.storage) && project in s.t.projects && HasBoard(s.t, project, board)
    ensures VersionCleared(w, s, project, board) <==>
      (OnlyVersion(s.t, project, board)
       || forall r :: r in VersionRuns(s.t, project, board) && VersionRunHolds(w, s, project, board, r) ==>
            |NoOlder(s.t, project, Unfinished(s.t, project, board) + {r})| < 1000)
  {
    hide RowsOk, KeysOk, StorageOk, RunKeyAllowed, ObjectName, NoOlder, IsListing, VersionOrphan, ObjectsAfter, StillGoing, OnlyVersion;
    var t, mine := s.t, Unfinished(s.t, project, board);
    forall r | r in VersionRuns(t, project, board) && VersionRunHolds(w, s, project, board, r)
        && VersionCleared(w, s, project, board) && !OnlyVersion(t, project, board)
      ensures |NoOlder(t, project, mine + {r})| < LIST_LIMIT
    {
      if |NoOlder(t, project, mine + {r})| >= LIST_LIMIT {
        VersionLeftBehind(w, s, project, board, r);
      }
    }
    forall listed, runs, keys, r, key | Legal(w, s, DropBoard(project, board, listed, runs, keys))
        && DropsBoard(t, project, board, listed) && r in VersionRuns(t, project, board) && RunKeyAllowed(key, r)
        && (VersionRunHolds(w, s, project, board, r) ==> |NoOlder(t, project, mine + {r})| < LIST_LIMIT)
      ensures ObjectName(w.storage, key) !in ObjectsAfter(w, s, DropBoard(project, board, listed, runs, keys))
    {
      RunIsValid(s, r);
      VersionLeaves(w, s, project, board, listed, runs, keys, r, key);
      if r !in listed {
        KeptVersions.GoingIfListed(t, project, board, listed);
        assert LeavesOut(listed, mine + {r});
        LeftOutExactly(t, project, mine + {r});
      }
    }
  }

  lemma VersionLeftBehind(w: World, s: State, project: string, board: string, r: string)
    requires RowsOk(s) && KeysOk(s) && StorageOk(w.storage) && project in s.t.projects && HasBoard(s.t, project, board)
    requires !OnlyVersion(s.t, project, board) && r in VersionRuns(s.t, project, board) && VersionRunHolds(w, s, project, board, r)
    requires |NoOlder(s.t, project, Unfinished(s.t, project, board) + {r})| >= LIST_LIMIT
    ensures !VersionCleared(w, s, project, board)
  {
    hide RowsOk, KeysOk, StorageOk, RunKeyAllowed, ObjectName, NoOlder, IsListing, VersionOrphan, ObjectsAfter, StillGoing, OnlyVersion;
    var t, mine := s.t, Unfinished(s.t, project, board);
    LeftOutExactly(t, project, mine + {r});
    var listed :| IsListing(t, project, LIST_LIMIT, listed) && LeavesOut(listed, mine + {r});
    KeptVersions.GoingIfListed(t, project, board, listed);
    var runs, keys := SomeClearing(t, project, board, listed);
    assert Legal(w, s, DropBoard(project, board, listed, runs, keys));
    var key :| RunKeyAllowed(key, r) && ObjectName(w.storage, key) in s.objects && !VersionOrphan(t.boards, project, board, key);
    RunIsValid(s, r);
    VersionLeaves(w, s, project, board, listed, runs, keys, r, key);
  }

  // ---------- how many runs are too many ----------

  ghost predicate ClearedWithin(w: World, s: State, n: nat, project: string) {
    project in s.t.projects && |RunsOf(s.t, project)| <= n ==> ProjectCleared(w, s, project)
  }

  ghost predicate VersionClearedWithin(w: World, s: State, n: nat, project: string, board: string) {
    project in s.t.projects && HasBoard(s.t, project, board) && |RunsOf(s.t, project)| <= n ==> VersionCleared(w, s, project, board)
  }

  /** In every reachable state, deleting a project of at most n runs leaves no object under a key
      allowed for one of them. */
  ghost predicate ClearedUpTo(n: nat) {
    forall w: World, now, path, project :: StorageOk(w.storage) && LegalPath(w, Start(now), path) ==>
      ClearedWithin(w, After(w, Start(now), path), n, project)
  }

  /** The same of one version of such a project and its own runs. */
  ghost predicate VersionClearedUpTo(n: nat) {
    forall w: World, now, path, project, board :: StorageOk(w.storage) && LegalPath(w, Start(now), path) ==>
      VersionClearedWithin(w, After(w, Start(now), path), n, project, board)
  }

  /** The state reached, and what every reachable state keeps. */
  lemma ReachedIsOk(w: World, now: Time, path: seq<Action>)
    requires StorageOk(w.storage) && LegalPath(w, Start(now), path)
    ensures RowsOk(After(w, Start(now), path)) && KeysOk(After(w, Start(now), path))
  {
    hide LegalPath, After;
    KeysAlong(w, Start(now), path);
    hide KeysOk, InputsStored;
    InvHasRows(After(w, Start(now), path));
  }

  lemma OneRunFits(t: Tables, project: string, mine: set<string>)
    requires mine != {} && mine <= RunsOf(t, project) && |RunsOf(t, project)| <= LIST_LIMIT
    ensures |NoOlder(t, project, mine)| < LIST_LIMIT
  {
    FewerThanAll(t, project, mine);
  }

  lemma SmallProjectCleared(w: World, s: State, project: string)
    requires RowsOk(s) && KeysOk(s) && StorageOk(w.storage) && project in s.t.projects && |RunsOf(s.t, project)| <= LIST_LIMIT
    ensures ProjectCleared(w, s, project)
    ensures forall board :: HasBoard(s.t, project, board) ==> VersionCleared(w, s, project, board)
  {
    hide RowsOk, KeysOk, StorageOk, ProjectCleared, VersionCleared, RunHolds, VersionRunHolds, OnlyVersion, NoOlder, HasBoard;
    forall r | r in RunsOf(s.t, project) ensures |NoOlder(s.t, project, {r})| < LIST_LIMIT {
      OneRunFits(s.t, project, {r});
    }
    ProjectClearedExactly(w, s, project);
    forall board | HasBoard(s.t, project, board) ensures VersionCleared(w, s, project, board) {
      forall r | r in VersionRuns(s.t, project, board)
        ensures |NoOlder(s.t, project, Unfinished(s.t, project, board) + {r})| < LIST_LIMIT
      {
        OneRunFits(s.t, project, Unfinished(s.t, project, board) + {r});
      }
      VersionClearedExactly(w, s, project, board);
    }
  }

  // ---------- a project with one run too many ----------

  function RunKey(): (key: string) {
    ArtifactKey(Id(3), "x")
  }

  /** The crowded project, with an object of its oldest run put into storage. */
  lemma CrowdWithObject(k: nat) returns (path: seq<Action>)
    requires k < 9000
    ensures LegalPath(WORLD, Start(0), path) && After(WORLD, Start(0), path) == Next(WORLD, Crowd(k), Put(RunKey()))
  {
    path := CrowdIsReached(k);
    hide LegalPath, After, Crowd, Next, RunKey;
    OneMore(WORLD, Start(0), path, Put(RunKey()));
    path := path + [Put(RunKey())];
  }

  lemma NoneNames(t: Tables, project: string, board: string, key: string)
    requires forall b :: b in t.boards ==> key != t.boards[b].inputKey && key != t.boards[b].boardKey
    ensures !ProjectOrphan(t, project, key) && !VersionOrphan(t.boards, project, board, key)
  {
  }

  /** No version names the run's object. */
  lemma RunKeyIsNoKey()
    ensures RunKeyAllowed(RunKey(), Id(3)) && RunKey() != Key() && RunKey() != ""
  {
    OwnKeysAllowed(Id(3));
    KeyIsAllowed();
    hide Id, CleanKey;
    RunKeyIsNoUpload(RunKey(), Id(3), Id(0));
  }

  lemma CrowdKeys(k: nat)
    requires k < 9000
    ensures forall b :: b in Crowd(k).t.boards ==> Crowd(k).t.boards[b].inputKey == Key() && Crowd(k).t.boards[b].boardKey == ""
  {
    hide Id, Key, Later;
  }

  lemma OldestHolds(k: nat)
    requires k + 1 < 9000
    ensures var s := Next(WORLD, Crowd(k), Put(RunKey()));
      s.t == Crowd(k).t && RunHolds(WORLD, s, Id(0), Id(3)) && VersionRunHolds(WORLD, s, Id(0), Id(1), Id(3))
  {
    hide RunKeyAllowed, ObjectName, Id, Key, RunKey, Crowd, ProjectOrphan, VersionOrphan;
    RunKeyIsNoKey();
    CrowdKeys(k);
    NoneNames(Crowd(k).t, Id(0), Id(1), RunKey());
    var s := Next(WORLD, Crowd(k), Put(RunKey()));
    assert s.t == Crowd(k).t && ObjectName(WORLD.storage, RunKey()) in s.objects;
  }

  lemma OldestIsVersionRun(k: nat)
    requires k + 1 < 9000
    ensures Id(3) in VersionRuns(Crowd(k).t, Id(0), Id(1))
  {
    CrowdRuns(k);
    hide Id, Key, Later, Crowd;
    assert Id(3) in Unfinished(Crowd(k).t, Id(0), Id(1));
  }

  lemma CrowdedOutIsLeft(w: World, s: State, project: string, board: string, r: string)
    requires RowsOk(s) && KeysOk(s) && StorageOk(w.storage) && project in s.t.projects && HasBoard(s.t, project, board)
    requires r in VersionRuns(s.t, project, board) && Unfinished(s.t, project, board) == {r} && !OnlyVersion(s.t, project, board)
    requires RunHolds(w, s, project, r) && VersionRunHolds(w, s, project, board, r) && |NoOlder(s.t, project, {r})| >= LIST_LIMIT
    ensures !ProjectCleared(w, s, project) && !VersionCleared(w, s, project, board)
  {
    hide RowsOk, KeysOk, StorageOk, ProjectCleared, VersionCleared, RunHolds, VersionRunHolds, OnlyVersion, NoOlder;
    ProjectClearedExactly(w, s, project);
    VersionClearedExactly(w, s, project, board);
    assert Unfinished(s.t, project, board) + {r} == {r};
  }

  lemma CrowdIsNotCleared(k: nat, s: State)
    requires LIST_LIMIT <= k + 1 < 9000 && s == Next(WORLD, Crowd(k), Put(RunKey())) && RowsOk(s) && KeysOk(s)
    ensures !ProjectCleared(WORLD, s, Id(0)) && !VersionCleared(WORLD, s, Id(0), Id(1))
    ensures Id(0) in s.t.projects && HasBoard(s.t, Id(0), Id(1)) && |RunsOf(s.t, Id(0))| == k + 2
  {
    hide RowsOk, KeysOk, ProjectCleared, VersionCleared, RunHolds, VersionRunHolds, Crowd, Id, RunKey, NoOlder, OnlyVersion, Later,
      StorageOk, RunsOf, Unfinished, VersionRuns, HasBoard, Next;
    OldestHolds(k);
    WorldIsOk();
    CrowdRuns(k);
    CrowdVersions(k);
    OldestIsVersionRun(k);
    CrowdedOutIsLeft(WORLD, s, Id(0), Id(1), Id(3));
  }

  lemma AllClearedWithin(w: World, now: Time, path: seq<Action>, n: nat, project: string, board: string)
    requires StorageOk(w.storage) && LegalPath(w, Start(now), path) && n <= LIST_LIMIT
    ensures ClearedWithin(w, After(w, Start(now), path), n, project)
    ensures VersionClearedWithin(w, After(w, Start(now), path), n, project, board)
  {
    hide LegalPath, After, ProjectCleared, VersionCleared, RunsOf, HasBoard, RowsOk, KeysOk, StorageOk;
    var s := After(w, Start(now), path);
    ReachedIsOk(w, now, path);
    if project in s.t.projects && |RunsOf(s.t, project)| <= n {
      SmallProjectCleared(w, s, project);
    }
  }

  /** Deleting a project leaves nothing of its runs, and deleting a version nothing of the version's,
      in every reachable state, exactly as long as the project has no more runs than a listing holds. */
  lemma ClearedUpToExactly(n: nat)
    ensures ClearedUpTo(n) <==> n <= 1000
    ensures VersionClearedUpTo(n) <==> n <= 1000
  {
    hide LegalPath, After, Crowd, Next, Id, ProjectCleared, VersionCleared, RunsOf, HasBoard, RowsOk, KeysOk, RunKey, StorageOk;
    if n <= LIST_LIMIT {
      forall w: World, now, path, project | StorageOk(w.storage) && LegalPath(w, Start(now), path)
        ensures ClearedWithin(w, After(w, Start(now), path), n, project)
      {
        AllClearedWithin(w, now, path, n, project, "");
      }
      forall w: World, now, path, project, board | StorageOk(w.storage) && LegalPath(w, Start(now), path)
        ensures VersionClearedWithin(w, After(w, Start(now), path), n, project, board)
      {
        AllClearedWithin(w, now, path, n, project, board);
      }
    } else {
      var k := LIST_LIMIT - 1;
      var path := CrowdWithObject(k);
      WorldIsOk();
      ReachedIsOk(WORLD, 0, path);
      CrowdIsNotCleared(k, After(WORLD, Start(0), path));
      assert !ClearedWithin(WORLD, After(WORLD, Start(0), path), n, Id(0));
      assert !VersionClearedWithin(WORLD, After(WORLD, Start(0), path), n, Id(0), Id(1));
    }
  }

  lemma WorldIsOk()
    ensures StorageOk(WORLD.storage)
  {
  }
}
