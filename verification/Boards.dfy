/** Versions of a board: creating them, and deleting one or a whole project with the objects that
    nothing else refers to (server/emi/api_user.go). */
module Boards {
  import opened Runs
  import opened Stores
  import opened Service
  import opened Keys
  import opened Blobs

  // ---------- creating ----------

  /** A project of the user's organization; refusal is what checking its name and kind gave, 0 for
      nothing wrong. */
  function CreateProjectStep(t: Tables, org: string, refusal: int, project: string): (r: (Tables, Reply)) {
    if refusal != 0 then (t, Code(refusal)) else (t.(projects := t.projects[project := Project(org)]), Code(201))
  }

  method CreateProject(s: Store, org: string, refusal: int, project: string) returns (r: Reply)
    modifies s
    ensures (s.Now(), r) == CreateProjectStep(old(s.Now()), org, refusal, project)
  {
    if refusal != 0 {
      return Code(refusal);
    }
    s.CreateProject(project, Project(org));
    return Code(201);
  }

  ghost function CreateBoardStep(t: Tables, now: Time, project: string, inputKey: string, digestOk: bool, stat: Stat, limit: int,
                                 board: string, run: string): (r: (Tables, Reply)) {
    if project !in t.projects then (t, Code(404))
    else if !UploadKeyAllowed(inputKey, t.projects[project].org) || stat(inputKey).None? then (t, Code(400))
    else if stat(inputKey).value.0 > limit then (t, Code(413))
    else if !digestOk then (t, Code(400))
    else
      (t.(boards := t.boards[board := Board(project, inputKey, "", 0, 0, "")], runs := t.runs[run := Created(project, board, now)]),
       Code(201))
  }

  /** handleCreateBoard: a version, and the run that will parse it. */
  method CreateBoard(s: Store, now: Time, project: string, inputKey: string, digestOk: bool, stat: Stat, limit: int,
                     board: string, run: string)
    returns (r: Reply)
    modifies s
    ensures (s.Now(), r) == CreateBoardStep(old(s.Now()), now, project, inputKey, digestOk, stat, limit, board, run)
  {
    hide CleanKey;
    var p := s.GetProject(project);
    if p.Err? {
      return Code(CodeOf(p.error));
    }
    var clean := IsCleanKey(inputKey);
    if !(p.value.org != "" && clean && HasPrefix(inputKey, UploadKeyPrefix(p.value.org))) {
      return Code(400);
    }
    var found := stat(inputKey);
    if found.None? {
      return Code(400);
    }
    if found.value.0 > limit {
      return Code(413);
    }
    if !digestOk {
      return Code(400);
    }
    s.CreateBoard(board, Board(project, inputKey, "", 0, 0, ""));
    s.CreateRun(run, Created(project, board, now));
    return Code(201);
  }

  /** A further run of a version; refusal is what checking its parameters gave, 0 for nothing wrong. */
  function CreateRunStep(t: Tables, now: Time, project: string, board: string, refusal: int, run: string): (r: (Tables, Reply)) {
    if project !in t.projects then (t, Code(404))
    else if refusal != 0 then (t, Code(refusal))
    else if board == "" then (t, Code(400))
    else if !HasBoard(t, project, board) then (t, Code(404))
    else (t.(runs := t.runs[run := Created(project, board, now)]), Code(201))
  }

  method CreateRun(s: Store, now: Time, project: string, board: string, refusal: int, run: string) returns (r: Reply)
    modifies s
    ensures (s.Now(), r) == CreateRunStep(old(s.Now()), now, project, board, refusal, run)
  {
    var p := s.GetProject(project);
    if p.Err? {
      return Code(CodeOf(p.error));
    }
    if refusal != 0 {
      return Code(refusal);
    }
    if board == "" {
      return Code(400);
    }
    var b := s.GetBoard(board);
    if b.Err? {
      return Code(CodeOf(b.error));
    }
    if b.value.project != project {
      return Code(404);
    }
    s.CreateRun(run, Created(project, board, now));
    return Code(201);
  }

  // ---------- what a deletion removes from storage ----------

  /** The objects left after the prefixes of the runs and the keys are deleted. */
  function Cleared(storage: Storage, objects: set<string>, runs: seq<string>, keys: seq<string>): (left: set<string>) {
    set o | o in objects && !Swept(storage, runs, o) && !NamedBy(storage, keys, o)
  }

  predicate Swept(storage: Storage, runs: seq<string>, o: string) {
    exists r :: r in runs && Covers(storage, RunPrefix(r), o)
  }

  predicate NamedBy(storage: Storage, keys: seq<string>, o: string) {
    exists key :: key in keys && o == ObjectName(storage, key)
  }

  method ClearStorage(blobs: BlobStore, runs: seq<string>, keys: seq<string>)
    modifies blobs
    ensures blobs.objects == Cleared(blobs.storage, old(blobs.objects), runs, keys)
  {
    hide Covers, ObjectName, RunPrefix;
    var i := 0;
    while i < |runs|
      invariant 0 <= i <= |runs|
      invariant blobs.objects == set o | o in old(blobs.objects) && !Swept(blobs.storage, runs[..i], o)
    {
      SweptOneMore(blobs.storage, runs, i);
      blobs.DeletePrefix(RunPrefix(runs[i]));
      i := i + 1;
    }
    assert runs[..i] == runs;
    var k := 0;
    while k < |keys|
      invariant 0 <= k <= |keys|
      invariant blobs.objects == Cleared(blobs.storage, old(blobs.objects), runs, keys[..k])
    {
      NamedOneMore(blobs.storage, keys, k);
      blobs.Delete(keys[k]);
      k := k + 1;
    }
    assert keys[..k] == keys;
  }

  lemma SweptOneMore(storage: Storage, runs: seq<string>, i: nat)
    requires i < |runs|
    ensures forall o :: Swept(storage, runs[..i + 1], o) <==> Swept(storage, runs[..i], o) || Covers(storage, RunPrefix(runs[i]), o)
  {
  }

  lemma NamedOneMore(storage: Storage, keys: seq<string>, i: nat)
    requires i < |keys|
    ensures forall o :: NamedBy(storage, keys[..i + 1], o) <==> NamedBy(storage, keys[..i], o) || o == ObjectName(storage, keys[i])
  {
    hide ObjectName;
    var more := keys[..i + 1];
    assert forall key :: key in more <==> key in keys[..i] || key == keys[i];
    assert keys[i] in more;
    forall o ensures NamedBy(storage, more, o) <==> NamedBy(storage, keys[..i], o) || o == ObjectName(storage, keys[i]) {
      if key :| key in keys[..i] && o == ObjectName(storage, key) {
        assert key in more;
      }
    }
  }

  // ---------- deleting a project ----------

  const LIST_LIMIT: nat := 1000

  /** The key is one of the board's, and no board of another project was uploaded under it. */
  predicate OrphanOf(boards: BoardRows, project: string, board: string, key: string) {
    && board in boards && key != "" && (key == boards[board].inputKey || key == boards[board].boardKey)
    && Sharing(boards, key, project) == {}
  }

  ghost predicate IsOrphans(t: Tables, project: string, keys: seq<string>) {
    forall key :: key in keys <==> exists b :: HasBoard(t, project, b) && OrphanOf(t.boards, project, b, key)
  }

  /** What DELETE of a project does, given the listing of its runs and its orphaned keys. */
  ghost predicate ProjectDeleted(t: Tables, storage: Storage, objects: set<string>, project: string, listed: seq<string>, keys: seq<string>,
                                 u: Tables, left: set<string>, r: Reply) {
    if project !in t.projects then u == t && left == objects && r == Code(404)
    else
      && IsListing(t, project, LIST_LIMIT, listed) && IsOrphans(t, project, keys)
      && u == WithoutProject(t, project) && left == Cleared(storage, objects, listed, keys) && r == Code(204)
  }

  /** The orphaned keys of a list of the project's boards. */
  ghost predicate OrphansAmong(t: Tables, project: string, boards: seq<string>, n: nat, keys: seq<string>)
    requires n <= |boards|
  {
    forall key :: key in keys <==> exists k :: 0 <= k < n && OrphanOf(t.boards, project, boards[k], key)
  }

  method CollectOrphans(s: Store, project: string, boards: seq<string>) returns (keys: seq<string>)
    requires forall b :: b in boards ==> b in s.boards
    ensures OrphansAmong(s.Now(), project, boards, |boards|, keys)
  {
    keys := [];
    var i := 0;
    while i < |boards|
      invariant 0 <= i <= |boards| && OrphansAmong(s.Now(), project, boards, i, keys)
    {
      var b := s.boards[boards[i]];
      var pair := [b.inputKey, b.boardKey];
      ghost var before := keys;
      var j := 0;
      while j < |pair|
        invariant 0 <= j <= |pair|
        invariant forall key ::
          key in keys <==> (key in before || (key != "" && Sharing(s.boards, key, project) == {} && key in pair[..j]))
      {
        var key := pair[j];
        assert pair[..j + 1] == pair[..j] + [key];
        if key != "" {
          var n := s.CountBoardsSharingInput(key, project);
          if n == 0 {
            keys := keys + [key];
          }
        }
        j := j + 1;
      }
      assert pair[..j] == pair;
      assert forall key :: key in pair <==> key == b.inputKey || key == b.boardKey;
      assert forall key :: key in keys <==> key in before || OrphanOf(s.boards, project, boards[i], key);
      hide OrphanOf;
      i := i + 1;
    }
  }

  lemma AllOrphans(t: Tables, project: string, boards: seq<string>, keys: seq<string>)
    requires forall b :: b in boards <==> HasBoard(t, project, b)
    requires OrphansAmong(t, project, boards, |boards|, keys)
    ensures IsOrphans(t, project, keys)
  {
  }

  method DeleteProject(s: Store, blobs: BlobStore, project: string) returns (r: Reply, ghost listed: seq<string>, ghost orphaned: seq<string>)
    modifies s, blobs
    ensures ProjectDeleted(old(s.Now()), blobs.storage, old(blobs.objects), project, listed, orphaned, s.Now(), blobs.objects, r)
  {
    hide Cleared, IsListing, IsOrphans, OrphansAmong;
    listed, orphaned := [], [];
    var p := s.GetProject(project);
    if p.Err? {
      return Code(404), [], [];
    }
    var runs := s.ListRuns(project, LIST_LIMIT);
    var boards := s.ListBoards(project);
    var keys := CollectOrphans(s, project, boards);
    AllOrphans(s.Now(), project, boards, keys);
    var ok := s.DeleteProject(project);
    if ok.Err? {
      return Code(404), [], [];
    }
    ClearStorage(blobs, runs, keys);
    return Code(204), runs, keys;
  }

  // ---------- deleting one version ----------

  /** No other board of the project names the key, and no board of another was uploaded under it. */
  ghost predicate VersionOrphan(boards: BoardRows, project: string, board: string, key: string) {
    && OrphanOf(boards, project, board, key)
    && forall b :: b in boards && boards[b].project == project && b != board ==> boards[b].inputKey != key && boards[b].boardKey != key
  }

  ghost predicate IsVersionOrphans(t: Tables, project: string, board: string, keys: seq<string>) {
    forall key :: key in keys <==> VersionOrphan(t.boards, project, board, key)
  }

  ghost predicate OnlyVersion(t: Tables, project: string, board: string) {
    forall b :: HasBoard(t, project, b) ==> b == board
  }

  /** Some listed run of the version has not finished. */
  ghost predicate StillGoing(t: Tables, board: string, listed: seq<string>) {
    exists r :: r in listed && r in t.runs && t.runs[r].board == board && !Terminal(t.runs[r].status)
  }

  ghost predicate OfVersion(t: Tables, board: string, listed: seq<string>, runs: seq<string>) {
    forall r :: r in runs <==> r in listed && r in t.runs && t.runs[r].board == board
  }

  /** What DELETE of a version does: refused for the last one and for one still being worked on. */
  ghost predicate VersionDeleted(t: Tables, storage: Storage, objects: set<string>, project: string, board: string, listed: seq<string>,
                                 runs: seq<string>, keys: seq<string>, u: Tables, left: set<string>, r: Reply) {
    if project !in t.projects || !HasBoard(t, project, board) then u == t && left == objects && r == Code(404)
    else if OnlyVersion(t, project, board) || StillGoing(t, board, listed) then
      u == t && left == objects && r == Code(409) && (OnlyVersion(t, project, board) || IsListing(t, project, LIST_LIMIT, listed))
    else
      && IsListing(t, project, LIST_LIMIT, listed) && OfVersion(t, board, listed, runs) && IsVersionOrphans(t, project, board, keys)
      && u == WithoutBoard(t, project, board) && left == Cleared(storage, objects, runs, keys) && r == Code(204)
  }

  /** The finished runs of the version among those listed, or the news that one is still going. */
  method RunsOfVersion(s: Store, board: string, listed: seq<string>) returns (going: bool, runs: seq<string>)
    requires forall r :: r in listed ==> r in s.runs
    ensures going == StillGoing(s.Now(), board, listed)
    ensures !going ==> OfVersion(s.Now(), board, listed, runs)
  {
    runs := [];
    var i := 0;
    while i < |listed|
      invariant 0 <= i <= |listed|
      invariant forall r :: r in runs <==> r in listed[..i] && s.runs[r].board == board
      invariant forall r :: r in listed[..i] && s.runs[r].board == board ==> Terminal(s.runs[r].status)
    {
      var r := listed[i];
      assert listed[..i + 1] == listed[..i] + [r];
      if s.runs[r].board == board {
        if !Terminal(s.runs[r].status) {
          return true, [];
        }
        runs := runs + [r];
      }
      i := i + 1;
    }
    assert listed[..i] == listed;
    return false, runs;
  }

  /** Whether another of the project's boards names the key. */
  method NamedByOther(s: Store, boards: seq<string>, board: string, key: string) returns (shared: bool)
    requires forall b :: b in boards ==> b in s.boards
    ensures shared <==> exists b :: b in boards && b != board && (s.boards[b].inputKey == key || s.boards[b].boardKey == key)
  {
    shared := false;
    var i := 0;
    while i < |boards|
      invariant 0 <= i <= |boards|
      invariant shared <==> exists b :: b in boards[..i] && b != board && (s.boards[b].inputKey == key || s.boards[b].boardKey == key)
    {
      var b := boards[i];
      assert boards[..i + 1] == boards[..i] + [b];
      if b != board && (s.boards[b].inputKey == key || s.boards[b].boardKey == key) {
        shared := true;
      }
      i := i + 1;
    }
    assert boards[..i] == boards;
  }

  method CollectVersionOrphans(s: Store, project: string, boards: seq<string>, board: string) returns (keys: seq<string>)
    requires (forall b :: b in boards <==> HasBoard(s.Now(), project, b)) && board in boards
    ensures IsVersionOrphans(s.Now(), project, board, keys)
  {
    keys := [];
    var row := s.boards[board];
    var pair := [row.inputKey, row.boardKey];
    var j := 0;
    while j < |pair|
      invariant 0 <= j <= |pair|
      invariant forall key :: key in keys <==> key in pair[..j] && VersionOrphan(s.boards, project, board, key)
    {
      var key := pair[j];
      assert pair[..j + 1] == pair[..j] + [key];
      if key != "" {
        var shared := NamedByOther(s, boards, board, key);
        var n := s.CountBoardsSharingInput(key, project);
        if n > 0 {
          shared := true;
        }
        if !shared {
          keys := keys + [key];
        }
      }
      j := j + 1;
    }
    assert pair[..j] == pair;
  }

  method DeleteBoard(s: Store, blobs: BlobStore, project: string, board: string)
    returns (r: Reply, ghost listed: seq<string>, ghost runs: seq<string>, ghost orphaned: seq<string>)
    modifies s, blobs
    ensures VersionDeleted(old(s.Now()), blobs.storage, old(blobs.objects), project, board, listed, runs, orphaned, s.Now(), blobs.objects, r)
  {
    hide Cleared, IsListing, IsVersionOrphans, OfVersion, StillGoing;
    var p := s.GetProject(project);
    if p.Err? {
      return Code(404), [], [], [];
    }
    var boards := s.ListBoards(project);
    if board !in boards {
      return Code(404), [], [], [];
    }
    if |boards| == 1 {
      assert boards == [board];
      return Code(409), [], [], [];
    }
    TwoBoards(boards, board);
    var all := s.ListRuns(project, LIST_LIMIT);
    ListedExist(s.Now(), project, all);
    var going, mine := RunsOfVersion(s, board, all);
    if going {
      return Code(409), all, [], [];
    }
    var keys := CollectVersionOrphans(s, project, boards, board);
    var ok := s.DeleteBoard(project, board);
    if ok.Err? {
      return Code(404), [], [], [];
    }
    ClearStorage(blobs, mine, keys);
    return Code(204), all, mine, keys;
  }

  lemma TwoBoards(boards: seq<string>, board: string)
    requires |boards| > 1 && forall i, j :: 0 <= i < j < |boards| ==> boards[i] != boards[j]
    ensures exists b :: b in boards && b != board
  {
    assert boards[0] in boards && boards[1] in boards;
  }

  lemma ListedExist(t: Tables, project: string, ids: seq<string>)
    requires IsListing(t, project, LIST_LIMIT, ids)
    ensures forall r :: r in ids ==> r in t.runs
  {
  }
}
