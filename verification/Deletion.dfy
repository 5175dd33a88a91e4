/** Deleting a project or a version never takes away an object that a remaining version names
    (server/emi/api_user.go, server/emi/objectkeys.go, server/emi/pgstore.go). */
module Deletion {
  import opened Runs
  import opened Stores
  import opened Service
  import opened Boards
  import opened Blobs
  import opened Keys
  import opened Protocol
  import opened Lifecycle

  /** The version's input is an upload of its project's organization, and what was parsed from it is
      kept under one of its own runs. */
  ghost predicate BoardOk(t: Tables, b: string)
    requires b in t.boards
  {
    && t.boards[b].project in t.projects
    && UploadKeyAllowed(t.boards[b].inputKey, t.projects[t.boards[b].project].org)
    && (t.boards[b].boardKey == "" || exists r :: ParsedUnder(t, b, r))
  }

  ghost predicate ParsedUnder(t: Tables, b: string, r: string)
    requires b in t.boards
  {
    r in t.runs && t.runs[r].board == b && RunKeyAllowed(t.boards[b].boardKey, r)
  }

  ghost predicate KeysOk(s: State) {
    && (forall p :: p in s.t.projects ==> p in s.used)
    && (forall b :: b in s.t.boards ==> b in s.used && BoardOk(s.t, b))
    && (forall r :: r in s.t.runs ==> HasBoard(s.t, s.t.runs[r].project, s.t.runs[r].board))
  }

  // ---------- storage keeps what is still named ----------

  ghost predicate Names(b: Board, key: string) {
    key != "" && (key == b.inputKey || key == b.boardKey)
  }

  /** A key some version names is clean, so it is its own object's name. */
  lemma NamedIsClean(s: State, b: string, key: string)
    requires KeysOk(s) && b in s.t.boards && Names(s.t.boards[b], key)
    ensures CleanKey(key)
  {
  }

  lemma SameObject(storage: Storage, key: string, other: string)
    requires CleanKey(key) && CleanKey(other) && ObjectName(storage, key) == ObjectName(storage, other)
    ensures key == other
  {
    CleanKeyIsItsObject(key);
    CleanKeyIsItsObject(other);
    hide CleanKey, BlobKey;
    if storage.Bucket? {
      assert (storage.prefix + key)[|storage.prefix|..] == key;
      assert (storage.prefix + other)[|storage.prefix|..] == other;
    }
  }

  /** What one version's parsed board is kept under, no other version names at all. */
  lemma ParsedKeyIsOwn(s: State, b: string, other: string, key: string)
    requires RowsOk(s) && KeysOk(s) && b in s.t.boards && other in s.t.boards && b != other
    requires Names(s.t.boards[other], key)
    ensures key != s.t.boards[b].boardKey
  {
    hide CleanKey, RunKeyAllowed, UploadKeyAllowed, RowOk, ValidId;
    assert BoardOk(s.t, b) && BoardOk(s.t, other);
    var parsed := s.t.boards[b].boardKey;
    if parsed != "" {
      var r :| ParsedUnder(s.t, b, r);
      if key == s.t.boards[other].inputKey {
        RunKeyIsNoUpload(parsed, r, s.t.projects[s.t.boards[other].project].org);
      } else {
        var r' :| ParsedUnder(s.t, other, r');
        IdIsPlain(r);
        IdIsPlain(r');
        AllowedKeysAreDisjoint(parsed, r, r');
      }
    }
  }

  /** Clearing the prefix of another version's run leaves the objects of this one. */
  lemma PrefixSpares(w: World, s: State, r: string, b: string, key: string)
    requires RowsOk(s) && KeysOk(s) && StorageOk(w.storage)
    requires r in s.t.runs && b in s.t.boards && s.t.runs[r].board != b && Names(s.t.boards[b], key)
    ensures !Covers(w.storage, RunPrefix(r), ObjectName(w.storage, key))
  {
    hide CleanKey, RunKeyAllowed, UploadKeyAllowed, RowOk, ValidId, Covers;
    assert BoardOk(s.t, b);
    if key == s.t.boards[b].inputKey {
      PrefixSparesUploads(w.storage, r, s.t.projects[s.t.boards[b].project].org, key);
    } else {
      var own :| ParsedUnder(s.t, b, own);
      PrefixCoversOwnRun(w.storage, r, own, key);
    }
  }

  /** No orphaned key names an object that a remaining version names. */
  lemma OrphansSpare(w: World, s: State, project: string, gone: string, b: string, key: string, orphan: string)
    requires RowsOk(s) && KeysOk(s)
    requires HasBoard(s.t, project, gone) && OrphanOf(s.t.boards, project, gone, orphan)
    requires b in s.t.boards && Names(s.t.boards[b], key)
    requires s.t.boards[b].project != project || (s.t.boards[b].inputKey != orphan && s.t.boards[b].boardKey != orphan)
    ensures ObjectName(w.storage, orphan) != ObjectName(w.storage, key)
  {
    hide CleanKey, RowOk, ValidId, BoardOk, ObjectName;
    NamedIsClean(s, b, key);
    NamedIsClean(s, gone, orphan);
    if s.t.boards[b].project != project {
      ParsedKeyIsOwn(s, b, gone, orphan);
      assert b !in Sharing(s.t.boards, orphan, project);
    }
    assert orphan != key;
    DifferentObjects(w.storage, orphan, key);
  }

  lemma DifferentObjects(storage: Storage, key: string, other: string)
    requires CleanKey(key) && CleanKey(other) && key != other
    ensures ObjectName(storage, key) != ObjectName(storage, other)
  {
    if ObjectName(storage, key) == ObjectName(storage, other) {
      SameObject(storage, key, other);
    }
  }

  lemma ProjectSpares(w: World, s: State, project: string, listed: seq<string>, keys: seq<string>, b: string, key: string)
    requires RowsOk(s) && KeysOk(s) && StorageOk(w.storage)
    requires IsListing(s.t, project, LIST_LIMIT, listed) && IsOrphans(s.t, project, keys)
    requires b in s.t.boards && s.t.boards[b].project != project && Names(s.t.boards[b], key)
    requires ObjectName(w.storage, key) in s.objects
    ensures ObjectName(w.storage, key) in Cleared(w.storage, s.objects, listed, keys)
  {
    var o := ObjectName(w.storage, key);
    hide ObjectName, Covers, RowOk, ValidId, BoardOk, OrphanOf;
    forall r | r in listed ensures !Covers(w.storage, RunPrefix(r), o) {
      assert HasBoard(s.t, s.t.runs[r].project, s.t.runs[r].board);
      PrefixSpares(w, s, r, b, key);
    }
    forall orphan | orphan in keys ensures o != ObjectName(w.storage, orphan) {
      var gone :| HasBoard(s.t, project, gone) && OrphanOf(s.t.boards, project, gone, orphan);
      OrphansSpare(w, s, project, gone, b, key, orphan);
    }
  }

  lemma VersionSpares(w: World, s: State, project: string, board: string, listed: seq<string>, runs: seq<string>, keys: seq<string>,
                      b: string, key: string)
    requires RowsOk(s) && KeysOk(s) && StorageOk(w.storage) && HasBoard(s.t, project, board)
    requires OfVersion(s.t, board, listed, runs) && IsVersionOrphans(s.t, project, board, keys)
    requires b in s.t.boards && b != board && Names(s.t.boards[b], key)
    requires ObjectName(w.storage, key) in s.objects
    ensures ObjectName(w.storage, key) in Cleared(w.storage, s.objects, runs, keys)
  {
    var o := ObjectName(w.storage, key);
    hide ObjectName, Covers, RowOk, ValidId, BoardOk, OrphanOf;
    forall r | r in runs ensures !Covers(w.storage, RunPrefix(r), o) {
      PrefixSpares(w, s, r, b, key);
    }
    forall orphan | orphan in keys ensures o != ObjectName(w.storage, orphan) {
      assert VersionOrphan(s.t.boards, project, board, orphan);
      OrphansSpare(w, s, project, board, b, key, orphan);
    }
  }

  /** Whatever step is taken, an object that a version names, as its input or its parsed board, is
      still in storage afterwards if the version is. */
  lemma StepSpares(w: World, s: State, a: Action, b: string, key: string)
    requires RowsOk(s) && KeysOk(s) && StorageOk(w.storage) && Legal(w, s, a)
    requires b in s.t.boards && b in TablesAfter(w, s, a).boards && Names(s.t.boards[b], key)
    requires ObjectName(w.storage, key) in s.objects
    ensures ObjectName(w.storage, key) in ObjectsAfter(w, s, a)
  {
    hide RowsOk, KeysOk, ObjectName, Cleared, IsListing, IsOrphans, OfVersion, IsVersionOrphans, Names, StillGoing, OnlyVersion;
    match a
    case DropProject(project, listed, keys) =>
      if project in s.t.projects {
        ProjectSpares(w, s, project, listed, keys, b, key);
      }
    case DropBoard(project, board, listed, runs, keys) =>
      if DropsBoard(s.t, project, board, listed) {
        VersionSpares(w, s, project, board, listed, runs, keys, b, key);
      }
    case _ =>
  }

  // ---------- the invariant ----------

  /** Rows other than a deletion's stay, in their project and of their version. */
  lemma RunsStayPut(w: World, s: State, a: Action, r: string)
    requires RowsOk(s) && Legal(w, s, a) && r in s.t.runs
    ensures var u := TablesAfter(w, s, a);
      && (r in u.runs ==> u.runs[r].project == s.t.runs[r].project && u.runs[r].board == s.t.runs[r].board)
      && (!a.DropProject? && !a.DropBoard? ==> r in u.runs)
  {
    hide RowOk, ValidId, Prepare, IsListing, IsOrphans, OfVersion, IsVersionOrphans, UploadKeyAllowed;
    RowMoves(w, s, a, r);
    MovedStaysPut(s.t.runs[r], MoveOf(w, s, a, r), s.now);
    hide MoveOf, Moved, Allows, Legal, RowsOk;
  }

  lemma MovedStaysPut(r: Run, m: Move, at: Time)
    ensures Moved(r, m, at).project == r.project && Moved(r, m, at).board == r.board
  {
  }

  /** A version's row after a step: its input and project as before, and what was parsed either as
      before or put there under one of its own runs. */
  ghost predicate SameVersion(t: Tables, was: Board, b: string, row: Board) {
    && row.project == was.project && row.inputKey == was.inputKey
    && (row.boardKey == was.boardKey || exists r :: r in t.runs && t.runs[r].board == b && RunKeyAllowed(row.boardKey, r))
  }

  lemma FinishKeepsVersions(t: Tables, now: Time, tok: Token, path: string, body: Body, stat: Stat, limit: int, b: string)
    requires b in t.boards
    ensures var u := CompleteStep(t, now, tok, path, body, stat, limit).0;
      b in u.boards && SameVersion(t, t.boards[b], b, u.boards[b]) && u.boards.Keys == t.boards.Keys && u.projects == t.projects
  {
    PreparedIsOwn(t, path, body, stat, limit);
    hide Prepare, RunKeyAllowed;
  }

  lemma FinishAddsNone(t: Tables, now: Time, tok: Token, path: string, body: Body, stat: Stat, limit: int)
    ensures var u := CompleteStep(t, now, tok, path, body, stat, limit).0;
      u.boards.Keys == t.boards.Keys && u.projects == t.projects
  {
  }

  lemma SameIsSame(t: Tables, b: string)
    requires b in t.boards
    ensures SameVersion(t, t.boards[b], b, t.boards[b])
  {
  }

  /** The versions after a step: those before it, and one created with an upload of its project's
      organization that is in storage. */
  lemma VersionsAfter(w: World, s: State, a: Action, b: string)
    requires Legal(w, s, a) && b in TablesAfter(w, s, a).boards && (b in s.t.boards ==> b in s.used)
    ensures var u := TablesAfter(w, s, a);
      if b in s.t.boards then SameVersion(s.t, s.t.boards[b], b, u.boards[b])
      else
        && a.NewBoard? && b == a.board && a.project in s.t.projects
        && u.boards[b] == Board(a.project, a.key, "", 0, 0, "") && UploadKeyAllowed(a.key, s.t.projects[a.project].org)
        && ObjectName(w.storage, a.key) in s.objects
  {
    hide Prepare, CompleteStep, MintStep, StopStep, RetryStep, ProgressStep, IsListing, IsOrphans, OfVersion, IsVersionOrphans,
      UploadKeyAllowed, ValidId, ObjectName, StillGoing, OnlyVersion, SameVersion;
    if b in s.t.boards {
      SameIsSame(s.t, b);
    }
    match a
    case Finish(tok, path, body, stat) =>
      FinishAddsNone(s.t, s.now, tok, path, body, stat, w.limit);
      FinishKeepsVersions(s.t, s.now, tok, path, body, stat, w.limit, b);
    case Mint(kid, keyOrg, allowed, run, jti) => OtherTables(s.t, s.now, kid, keyOrg, allowed, run, jti, Token("", "", "", 0), "", "", "");
    case Progress(tok, path, stage, text) => OtherTables(s.t, s.now, "", "", false, "", "", tok, path, stage, text);
    case StopIt(run) => OtherTables(s.t, s.now, "", "", false, run, "", Token("", "", "", 0), "", "", "");
    case RetryIt(allowed, run) => OtherTables(s.t, s.now, "", "", allowed, run, "", Token("", "", "", 0), "", "", "");
    case _ =>
  }

  /** Claims, progress, stops and retries change runs alone. */
  lemma OtherTables(t: Tables, now: Time, kid: string, keyOrg: string, allowed: bool, run: string, jti: string, tok: Token, path: string,
                    stage: string, text: string)
    ensures OnlyRunsDiffer(t, MintStep(t, now, kid, keyOrg, allowed, run, jti).0)
    ensures OnlyRunsDiffer(t, ProgressStep(t, now, tok, path, stage, text).0)
    ensures OnlyRunsDiffer(t, StopStep(t, now, run).0) && OnlyRunsDiffer(t, RetryStep(t, now, allowed, run).0)
  {
  }

  ghost predicate OnlyRunsDiffer(t: Tables, u: Tables) {
    u.boards == t.boards && u.projects == t.projects && u.artifacts == t.artifacts
  }

  /** A project that versions are left of is left, as it was. */
  lemma ProjectsAfter(w: World, s: State, a: Action, p: string)
    requires Legal(w, s, a) && p in s.t.projects && !(a.DropProject? && a.project == p) && p in s.used
    ensures var u := TablesAfter(w, s, a); p in u.projects && u.projects[p] == s.t.projects[p]
  {
    hide Prepare, CompleteStep, MintStep, StopStep, RetryStep, ProgressStep, IsListing, IsOrphans, OfVersion, IsVersionOrphans,
      UploadKeyAllowed, ValidId, StillGoing, OnlyVersion;
    match a
    case Finish(tok, path, body, stat) => FinishAddsNone(s.t, s.now, tok, path, body, stat, w.limit);
    case Mint(kid, keyOrg, allowed, run, jti) => OtherTables(s.t, s.now, kid, keyOrg, allowed, run, jti, Token("", "", "", 0), "", "", "");
    case Progress(tok, path, stage, text) => OtherTables(s.t, s.now, "", "", false, "", "", tok, path, stage, text);
    case StopIt(run) => OtherTables(s.t, s.now, "", "", false, run, "", Token("", "", "", 0), "", "", "");
    case RetryIt(allowed, run) => OtherTables(s.t, s.now, "", "", allowed, run, "", Token("", "", "", 0), "", "", "");
    case _ =>
  }

  lemma DropsTogether(t: Tables, project: string, board: string, r: string)
    requires r in t.runs && HasBoard(t, t.runs[r].project, t.runs[r].board)
    ensures r in WithoutProject(t, project).runs <==> t.runs[r].board in WithoutProject(t, project).boards
    ensures HasBoard(t, project, board) ==>
      (r in WithoutBoard(t, project, board).runs <==> t.runs[r].board in WithoutBoard(t, project, board).boards)
  {
  }

  /** Runs stay exactly as long as their version. */
  lemma RunsGoWithVersion(w: World, s: State, a: Action, r: string)
    requires RowsOk(s) && KeysOk(s) && Legal(w, s, a) && r in s.t.runs
    ensures var u := TablesAfter(w, s, a);
      && (r in u.runs <==> s.t.runs[r].board in u.boards)
      && (r in u.runs ==> u.runs[r].project == s.t.runs[r].project && u.runs[r].board == s.t.runs[r].board)
  {
    RunsStayPut(w, s, a, r);
    assert HasBoard(s.t, s.t.runs[r].project, s.t.runs[r].board);
    DropTables(w, s, a);
    hide RowsOk, KeysOk, Legal, TablesAfter, WithoutProject, WithoutBoard, StillGoing, OnlyVersion;
    if a.DropProject? {
      DropsTogether(s.t, a.project, "", r);
    } else if a.DropBoard? {
      DropsTogether(s.t, a.project, a.board, r);
    } else {
      VersionsLeft(w, s, a, s.t.runs[r].board);
    }
  }

  lemma DropTables(w: World, s: State, a: Action)
    ensures a.DropProject? ==>
      TablesAfter(w, s, a) == if a.project in s.t.projects then WithoutProject(s.t, a.project) else s.t
    ensures a.DropBoard? ==>
      TablesAfter(w, s, a) == if DropsBoard(s.t, a.project, a.board, a.listed) then WithoutBoard(s.t, a.project, a.board) else s.t
  {
  }

  lemma VersionsLeft(w: World, s: State, a: Action, b: string)
    requires b in s.t.boards && !a.DropProject? && !a.DropBoard?
    ensures b in TablesAfter(w, s, a).boards
  {
    hide Prepare, CompleteStep, MintStep, StopStep, RetryStep, ProgressStep, UploadKeyAllowed, ValidId;
    match a
    case Finish(tok, path, body, stat) => FinishAddsNone(s.t, s.now, tok, path, body, stat, w.limit);
    case Mint(kid, keyOrg, allowed, run, jti) => OtherTables(s.t, s.now, kid, keyOrg, allowed, run, jti, Token("", "", "", 0), "", "", "");
    case Progress(tok, path, stage, text) => OtherTables(s.t, s.now, "", "", false, "", "", tok, path, stage, text);
    case StopIt(run) => OtherTables(s.t, s.now, "", "", false, run, "", Token("", "", "", 0), "", "", "");
    case RetryIt(allowed, run) => OtherTables(s.t, s.now, "", "", allowed, run, "", Token("", "", "", 0), "", "", "");
    case _ =>
  }

  lemma ProjectsKnown(w: World, s: State, a: Action, p: string)
    requires p in TablesAfter(w, s, a).projects
    ensures p in s.t.projects || p in Drawn(a)
  {
    hide Prepare, CompleteStep, MintStep, StopStep, RetryStep, ProgressStep, UploadKeyAllowed, ValidId;
    match a
    case Finish(tok, path, body, stat) => FinishAddsNone(s.t, s.now, tok, path, body, stat, w.limit);
    case Mint(kid, keyOrg, allowed, run, jti) => OtherTables(s.t, s.now, kid, keyOrg, allowed, run, jti, Token("", "", "", 0), "", "", "");
    case Progress(tok, path, stage, text) => OtherTables(s.t, s.now, "", "", false, "", "", tok, path, stage, text);
    case StopIt(run) => OtherTables(s.t, s.now, "", "", false, run, "", Token("", "", "", 0), "", "", "");
    case RetryIt(allowed, run) => OtherTables(s.t, s.now, "", "", allowed, run, "", Token("", "", "", 0), "", "", "");
    case _ =>
  }

  /** A version that is left is not of a project that was dropped. */
  lemma VersionsOfDropped(w: World, s: State, a: Action, b: string)
    requires a.DropProject? && b in TablesAfter(w, s, a).boards && a.project in s.t.projects
    ensures TablesAfter(w, s, a).boards[b].project != a.project
  {
  }

  lemma BoardStaysOk(w: World, s: State, a: Action, b: string)
    requires RowsOk(s) && KeysOk(s) && Legal(w, s, a) && b in TablesAfter(w, s, a).boards
    ensures b in s.used + Drawn(a) && BoardOk(TablesAfter(w, s, a), b)
  {
    var u := TablesAfter(w, s, a);
    hide TablesAfter, Legal, RowsOk, UploadKeyAllowed, RunKeyAllowed, CleanKey;
    VersionsAfter(w, s, a, b);
    var p := u.boards[b].project;
    if b in s.t.boards {
      assert BoardOk(s.t, b);
      if a.DropProject? && a.project in s.t.projects {
        VersionsOfDropped(w, s, a, b);
      }
      ProjectsAfter(w, s, a, p);
      if u.boards[b].boardKey != "" {
        var r := if u.boards[b].boardKey == s.t.boards[b].boardKey then (var r :| ParsedUnder(s.t, b, r); r)
                 else (var r :| r in s.t.runs && s.t.runs[r].board == b && RunKeyAllowed(u.boards[b].boardKey, r); r);
        RunsGoWithVersion(w, s, a, r);
        assert ParsedUnder(u, b, r);
      }
    } else {
      ProjectsAfter(w, s, a, p);
    }
  }

  lemma RunStaysOk(w: World, s: State, a: Action, r: string)
    requires RowsOk(s) && KeysOk(s) && Legal(w, s, a) && r in TablesAfter(w, s, a).runs
    ensures var u := TablesAfter(w, s, a); HasBoard(u, u.runs[r].project, u.runs[r].board)
  {
    hide TablesAfter, Legal, RowsOk, KeysOk;
    if r in s.t.runs {
      RunsGoWithVersion(w, s, a, r);
      SameProject(w, s, a, r);
    } else {
      NewRows(w, s, a, r);
    }
  }

  lemma KeysStay(w: World, s: State, a: Action)
    requires RowsOk(s) && KeysOk(s) && Legal(w, s, a)
    ensures KeysOk(Next(w, s, a))
  {
    hide TablesAfter, Legal, BoardOk, Drawn, EventsOf, IssuedBy, ObjectsAfter, RowsOk, HasBoard;
    var u := TablesAfter(w, s, a);
    forall p | p in u.projects ensures p in s.used + Drawn(a) {
      ProjectsKnown(w, s, a, p);
    }
    forall b | b in u.boards ensures b in s.used + Drawn(a) && BoardOk(u, b) {
      BoardStaysOk(w, s, a, b);
    }
    forall r | r in u.runs ensures HasBoard(u, u.runs[r].project, u.runs[r].board) {
      RunStaysOk(w, s, a, r);
    }
  }

  lemma SameProject(w: World, s: State, a: Action, r: string)
    requires KeysOk(s) && Legal(w, s, a) && r in s.t.runs && s.t.runs[r].board in TablesAfter(w, s, a).boards
    ensures TablesAfter(w, s, a).boards[s.t.runs[r].board].project == s.t.runs[r].project
  {
    hide Legal, TablesAfter, BoardOk;
    assert HasBoard(s.t, s.t.runs[r].project, s.t.runs[r].board);
    VersionsAfter(w, s, a, s.t.runs[r].board);
  }

  /** Every version's input is in storage. */
  ghost predicate InputsStored(w: World, s: State) {
    forall b :: b in s.t.boards ==> ObjectName(w.storage, s.t.boards[b].inputKey) in s.objects
  }

  lemma InputsStay(w: World, s: State, a: Action)
    requires RowsOk(s) && KeysOk(s) && StorageOk(w.storage) && InputsStored(w, s) && Legal(w, s, a)
    ensures InputsStored(w, Next(w, s, a))
  {
    var u := TablesAfter(w, s, a);
    hide TablesAfter, Legal, RowsOk, EventsOf, IssuedBy, UploadKeyAllowed, RunKeyAllowed, CleanKey, Drawn, ObjectName;
    forall b | b in u.boards ensures ObjectName(w.storage, u.boards[b].inputKey) in ObjectsAfter(w, s, a) {
      VersionsAfter(w, s, a, b);
      if b in s.t.boards {
        assert BoardOk(s.t, b);
        InputNotEmpty(s.t.boards[b].inputKey, s.t.projects[s.t.boards[b].project].org);
        StepSpares(w, s, a, b, s.t.boards[b].inputKey);
      }
    }
  }

  lemma InputNotEmpty(key: string, org: string)
    requires UploadKeyAllowed(key, org)
    ensures key != ""
  {
  }

  lemma {:induction false} KeysAlong(w: World, s: State, path: seq<Action>)
    requires Inv(s) && KeysOk(s) && InputsStored(w, s) && StorageOk(w.storage) && LegalPath(w, s, path)
    ensures Inv(After(w, s, path)) && KeysOk(After(w, s, path)) && InputsStored(w, After(w, s, path))
  {
    hide KeysOk, InputsStored, Next, Inv, Legal;
    if path != [] {
      LegalPrefix(w, s, path);
      var front := path[..|path| - 1];
      KeysAlong(w, s, front);
      var t := After(w, s, front);
      InvStays(w, t, path[|path| - 1]);
      InvHasRows(t);
      KeysStay(w, t, path[|path| - 1]);
      InputsStay(w, t, path[|path| - 1]);
    }
  }

  lemma InvHasRows(s: State)
    requires Inv(s)
    ensures RowsOk(s)
  {
  }

  /** In every reachable state every version's input object is in storage: no deletion of a project
      or of another version ever took it. */
  lemma InputsAreNeverLost(w: World, now: Time, path: seq<Action>, b: string)
    requires StorageOk(w.storage) && LegalPath(w, Start(now), path)
    requires b in After(w, Start(now), path).t.boards
    ensures var s := After(w, Start(now), path);
      ObjectName(w.storage, s.t.boards[b].inputKey) in s.objects && BoardOk(s.t, b)
  {
    hide LegalPath, After;
    KeysAlong(w, Start(now), path);
  }

  /** In every reachable state no step takes away an object that a version left after it names. */
  lemma NoStepTakesNamed(w: World, now: Time, path: seq<Action>, a: Action, b: string, key: string)
    requires StorageOk(w.storage) && LegalPath(w, Start(now), path)
    requires var s := After(w, Start(now), path);
      && Legal(w, s, a) && b in s.t.boards && b in TablesAfter(w, s, a).boards && Names(s.t.boards[b], key)
      && ObjectName(w.storage, key) in s.objects
    ensures ObjectName(w.storage, key) in ObjectsAfter(w, After(w, Start(now), path), a)
  {
    var s := After(w, Start(now), path);
    hide LegalPath, After, Legal, TablesAfter, ObjectsAfter;
    KeysAlong(w, Start(now), path);
    hide KeysOk, InputsStored, Names;
    StepSpares(w, s, a, b, key);
  }
}
