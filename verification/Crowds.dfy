/** A project with any number of runs, created one after the other, as the requests make it
    (server/emi/api_user.go). */
module Crowds {
  import opened Numbers
  import opened Options
  import opened Runs
  import opened Stores
  import opened Boards
  import opened Blobs
  import opened Keys
  import opened Protocol
  import opened Lifecycle
  import opened Listings

  function Pair(n: nat): (s: string)
    requires n < 100
    ensures |s| == 2 && HexDigit(s[0]) && HexDigit(s[1])
  {
    [Digit(n / 10), Digit(n % 10)]
  }

  lemma PairsDiffer(n: nat, m: nat)
    requires n < 100 && m < 100 && Pair(n) == Pair(m)
    ensures n == m
  {
    assert Pair(n)[0] == Pair(m)[0] && Pair(n)[1] == Pair(m)[1];
  }

  /** Ids for the example: a number in four digits, and zeros. */
  function Id(i: nat): (id: string)
    requires i < 10_000
    ensures ValidId(id)
  {
    Pair(i / 100) + Pair(i % 100) + seq(28, _ => '0')
  }

  lemma IdsDiffer(i: nat, j: nat)
    requires i < 10_000 && j < 10_000 && Id(i) == Id(j)
    ensures i == j
  {
    assert Id(i)[..2] == Pair(i / 100) && Id(j)[..2] == Pair(j / 100);
    assert Id(i)[2..4] == Pair(i % 100) && Id(j)[2..4] == Pair(j % 100);
    PairsDiffer(i / 100, j / 100);
    PairsDiffer(i % 100, j % 100);
  }

  function Key(): (key: string) {
    UploadKeyPrefix(Id(0)) + "x"
  }

  lemma KeyIsAllowed()
    ensures UploadKeyAllowed(Key(), Id(0))
  {
    OwnKeysAllowed(Id(0));
  }

  lemma KeyShapes(id: string)
    ensures UploadKeyPrefix(id) + "x" == "uploads" + "/" + id + "/x" && ArtifactKey(id, "x") == "runs" + "/" + id + "/x"
  {
    assert UploadKeyPrefix(id) + "x" == "uploads/" + id + ("/" + "x");
    assert ArtifactKey(id, "x") == "runs/" + id + ("/" + "x");
  }

  /** Keys of an id of its own. */
  lemma OwnKeysAllowed(id: string)
    requires ValidId(id)
    ensures UploadKeyAllowed(UploadKeyPrefix(id) + "x", id) && RunKeyAllowed(ArtifactKey(id, "x"), id)
  {
    hide ValidId, CleanKey, Under, UploadKeyAllowed, RunKeyAllowed, UploadKeyPrefix, ArtifactKey, SlashFree;
    IdIsPlain(id);
    HeadsAreClean();
    SomeKeyUnder("uploads", id, id);
    SomeKeyUnder("runs", id, id);
    AllowedIsUnder("uploads" + "/" + id + "/x", id);
    AllowedIsUnder("runs" + "/" + id + "/x", id);
    KeyShapes(id);
  }

  const WORLD := World(Directory, 0, 0)

  function Found(key: string): (r: Option<(int, string)>) {
    if ObjectName(WORLD.storage, key) == ObjectName(WORLD.storage, Key()) then Some((0, "")) else None
  }

  /** A project of two versions: the first with one run, created before the second version and the
      k + 1 runs that has. */
  ghost function Crowd(k: nat): (s: State)
    requires k < 9000
  {
    State(Tables(map[Id(0) := Project(Id(0))],
                 map[Id(1) := Board(Id(0), Key(), "", 0, 0, ""), Id(2) := Board(Id(0), Key(), "", 0, 0, "")],
                 map r | r in {Id(3)} + Later(k) :: if r == Id(3) then Created(Id(0), Id(1), 0) else Created(Id(0), Id(2), 1),
                 map[]),
          {ObjectName(WORLD.storage, Key())}, {}, 1, {Id(0), Id(1), Id(2), Id(3)} + Later(k), [])
  }

  function Later(k: nat): (ids: set<string>)
    requires k < 9000
  {
    set i | 4 <= i < 5 + k :: Id(i)
  }

  /** How the first of these comes about. */
  ghost function Opening(): (path: seq<Action>)
    ensures |path| == 5
  {
    [NewProject(Id(0), Id(0)), Put(Key()), NewBoard(Id(0), Key(), true, Found, Id(1), Id(3)), Tick(1),
     NewBoard(Id(0), Key(), true, Found, Id(2), Id(4))]
  }

  ghost function Opened(n: nat): (s: State) {
    var objects := {ObjectName(WORLD.storage, Key())};
    var projects := map[Id(0) := Project(Id(0))];
    var one := Tables(projects, map[Id(1) := Board(Id(0), Key(), "", 0, 0, "")], map[Id(3) := Created(Id(0), Id(1), 0)], map[]);
    if n == 0 then Start(0)
    else if n == 1 then State(Tables(projects, map[], map[], map[]), {}, {}, 0, {Id(0)}, [])
    else if n == 2 then State(Tables(projects, map[], map[], map[]), objects, {}, 0, {Id(0)}, [])
    else if n == 3 then State(one, objects, {}, 0, {Id(0), Id(1), Id(3)}, [])
    else if n == 4 then State(one, objects, {}, 1, {Id(0), Id(1), Id(3)}, [])
    else Crowd(0)
  }

  /** A step of a run of the system, and the run with it. */
  lemma OneMore(w: World, s: State, path: seq<Action>, a: Action)
    requires LegalPath(w, s, path) && Legal(w, After(w, s, path), a)
    ensures LegalPath(w, s, path + [a]) && After(w, s, path + [a]) == Next(w, After(w, s, path), a)
  {
    hide Legal, Next;
    var more := path + [a];
    assert more[..|path|] == path;
    forall i | 0 <= i < |more| ensures Legal(w, After(w, s, more[..i]), more[i]) {
      if i < |path| {
        assert more[..i] == path[..i];
      }
    }
  }

  lemma BoardStep(s: State, board: string, run: string)
    requires Id(0) in s.t.projects && s.t.projects[Id(0)].org == Id(0)
    ensures Next(WORLD, s, NewBoard(Id(0), Key(), true, Found, board, run)) ==
      State(s.t.(boards := s.t.boards[board := Board(Id(0), Key(), "", 0, 0, "")], runs := s.t.runs[run := Created(Id(0), board, s.now)]),
            s.objects, s.issued, s.now, s.used + {board, run}, s.log)
  {
    KeyIsAllowed();
    hide Id, Key, UploadKeyAllowed;
  }

  lemma RunStep(s: State, run: string)
    requires Id(0) in s.t.projects && HasBoard(s.t, Id(0), Id(2)) && Id(2) != ""
    ensures Next(WORLD, s, NewRun(Id(0), Id(2), 0, run)) ==
      State(s.t.(runs := s.t.runs[run := Created(Id(0), Id(2), s.now)]), s.objects, s.issued, s.now, s.used + {run}, s.log)
  {
    hide Id, Key;
  }

  lemma AllDiffer(i: nat, j: nat)
    requires i < 10_000 && j < 10_000
    ensures Id(i) == Id(j) <==> i == j
    ensures Id(i) != "" && ValidId(Id(i))
  {
    if Id(i) == Id(j) {
      IdsDiffer(i, j);
    }
  }

  lemma LaterNext(k: nat)
    requires k + 1 < 9000
    ensures Later(k + 1) == Later(k) + {Id(5 + k)}
    ensures Id(0) !in Later(k) && Id(1) !in Later(k) && Id(2) !in Later(k) && Id(3) !in Later(k) && Id(5 + k) !in Later(k)
  {
    hide Id;
    forall i | 4 <= i < 5 + k ensures Id(i) != Id(5 + k) && Id(i) !in {Id(0), Id(1), Id(2), Id(3)} {
      AllDiffer(i, 5 + k);
      AllDiffer(i, 0);
      AllDiffer(i, 1);
      AllDiffer(i, 2);
      AllDiffer(i, 3);
    }
  }

  lemma NextIsFresh(k: nat)
    requires k + 1 < 9000
    ensures Legal(WORLD, Crowd(k), NewRun(Id(0), Id(2), 0, Id(5 + k)))
  {
    hide Id, Key, Later;
    LaterNext(k);
    AllDiffer(5 + k, 0);
    AllDiffer(5 + k, 1);
    AllDiffer(5 + k, 2);
    AllDiffer(5 + k, 3);
    hide ValidId;
  }

  lemma CrowdNext(k: nat)
    requires k + 1 < 9000
    ensures Legal(WORLD, Crowd(k), NewRun(Id(0), Id(2), 0, Id(5 + k)))
    ensures Next(WORLD, Crowd(k), NewRun(Id(0), Id(2), 0, Id(5 + k))) == Crowd(k + 1)
  {
    hide Id, Key, Later, Next, Legal, ValidId;
    NextIsFresh(k);
    LaterNext(k);
    AllDiffer(5 + k, 3);
    AllDiffer(2, 1);
    RunStep(Crowd(k), Id(5 + k));
    assert Crowd(k).t.runs[Id(5 + k) := Created(Id(0), Id(2), 1)] == Crowd(k + 1).t.runs;
  }

  lemma {:induction false} CrowdIsReached(k: nat) returns (path: seq<Action>)
    requires k < 9000
    ensures LegalPath(WORLD, Start(0), path) && After(WORLD, Start(0), path) == Crowd(k)
  {
    if k == 0 {
      path := OpeningIsLegal();
    } else {
      path := CrowdIsReached(k - 1);
      CrowdNext(k - 1);
      hide LegalPath, After, Crowd, Next, Legal, Id;
      OneMore(WORLD, Start(0), path, NewRun(Id(0), Id(2), 0, Id(4 + k)));
      path := path + [NewRun(Id(0), Id(2), 0, Id(4 + k))];
    }
  }

  lemma OpeningIsLegal() returns (path: seq<Action>)
    ensures LegalPath(WORLD, Start(0), path) && After(WORLD, Start(0), path) == Crowd(0)
  {
    hide Id, Key, Next, Legal, LegalPath, After, Opening, Opened, Start, Crowd;
    path := [];
    NoStep();
    var n := 0;
    while n < 5
      invariant 0 <= n <= 5 && LegalPath(WORLD, Start(0), path) && After(WORLD, Start(0), path) == Opened(n)
    {
      OpeningStep(n);
      OneMore(WORLD, Start(0), path, Opening()[n]);
      path := path + [Opening()[n]];
      n := n + 1;
    }
    LastOpened();
  }

  lemma NoStep()
    ensures LegalPath(WORLD, Start(0), []) && After(WORLD, Start(0), []) == Opened(0)
  {
  }

  lemma LastOpened()
    ensures Opened(5) == Crowd(0)
  {
  }

  lemma OpeningStep(n: nat)
    requires n < 5
    ensures Legal(WORLD, Opened(n), Opening()[n]) && Next(WORLD, Opened(n), Opening()[n]) == Opened(n + 1)
  {
    hide Id, Key, ValidId, Legal, Next;
    if n == 2 {
      FirstVersion();
    } else if n == 4 {
      SecondVersion();
    } else {
      PlainSteps();
    }
  }

  lemma PlainSteps()
    ensures Legal(WORLD, Opened(0), Opening()[0]) && Next(WORLD, Opened(0), Opening()[0]) == Opened(1)
    ensures Legal(WORLD, Opened(1), Opening()[1]) && Next(WORLD, Opened(1), Opening()[1]) == Opened(2)
    ensures Legal(WORLD, Opened(3), Opening()[3]) && Next(WORLD, Opened(3), Opening()[3]) == Opened(4)
  {
    hide Id, Key, ValidId;
  }

  lemma FirstVersion()
    ensures Legal(WORLD, Opened(2), Opening()[2]) && Next(WORLD, Opened(2), Opening()[2]) == Opened(3)
  {
    hide Id, Key, ValidId, Next;
    AllDiffer(1, 3);
    AllDiffer(0, 1);
    AllDiffer(0, 3);
    BoardStep(Opened(2), Id(1), Id(3));
  }

  lemma SecondVersion()
    ensures Legal(WORLD, Opened(4), Opening()[4]) && Next(WORLD, Opened(4), Opening()[4]) == Opened(5)
  {
    hide Id, Key, ValidId, Next, Legal;
    AllDiffer(1, 2);
    AllDiffer(3, 4);
    BoardStep(Opened(4), Id(2), Id(4));
    assert Later(0) == {Id(4)};
    SecondIsLegal();
  }

  lemma SecondIsLegal()
    ensures Legal(WORLD, Opened(4), Opening()[4])
  {
    hide Id, Key, ValidId;
    AllDiffer(0, 2);
    AllDiffer(0, 4);
    AllDiffer(1, 2);
    AllDiffer(1, 4);
    AllDiffer(3, 2);
    AllDiffer(3, 4);
    AllDiffer(2, 4);
  }

  lemma {:induction false} LaterCount(k: nat)
    requires k < 9000
    ensures |Later(k)| == k + 1
  {
    if k == 0 {
      assert Later(0) == {Id(4)};
    } else {
      LaterCount(k - 1);
      LaterNext(k - 1);
      hide Later, Id;
    }
  }

  lemma CrowdRows(k: nat)
    requires k + 1 < 9000
    ensures var t := Crowd(k).t;
      && Id(3) !in Later(k) && RunsOf(t, Id(0)) == Later(k) + {Id(3)} && Unfinished(t, Id(0), Id(1)) == {Id(3)}
      && t.runs[Id(3)].createdAt == 0 && forall r :: r in Later(k) ==> t.runs[r].createdAt == 1
  {
    hide Id, Key, Later;
    LaterNext(k);
    AllDiffer(1, 2);
  }

  lemma CrowdVersions(k: nat)
    requires k < 9000
    ensures var t := Crowd(k).t; Id(0) in t.projects && HasBoard(t, Id(0), Id(1)) && !OnlyVersion(t, Id(0), Id(1))
  {
    hide Id, Key, Later;
    AllDiffer(1, 2);
    assert HasBoard(Crowd(k).t, Id(0), Id(2));
  }

  /** The first version's run is the oldest, and the project's others are all newer. */
  lemma CrowdRuns(k: nat)
    requires k + 1 < 9000
    ensures var t := Crowd(k).t;
      && Unfinished(t, Id(0), Id(1)) == {Id(3)} && NoOlder(t, Id(0), {Id(3)}) == Later(k)
      && |Later(k)| == k + 1 && |RunsOf(t, Id(0))| == k + 2
  {
    CrowdRows(k);
    LaterCount(k);
    hide Id, Key, Later, Crowd, RunsOf, Unfinished;
  }
}
