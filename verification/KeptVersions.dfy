/** Which versions a deletion keeps because they are still being worked on: the request looks at
    the newest runs of the project alone (server/emi/api_user.go, server/emi/pgstore.go). */
module KeptVersions {
  import opened Stores
  import opened Boards
  import opened Protocol
  import opened Lifecycle
  import opened Listings
  import opened Crowds

  /** Whatever the request lists, the version is there afterwards. */
  ghost predicate AlwaysKept(w: World, s: State, project: string, board: string) {
    forall listed, runs, keys :: Legal(w, s, DropBoard(project, board, listed, runs, keys)) ==>
      board in TablesAfter(w, s, DropBoard(project, board, listed, runs, keys)).boards
  }

  lemma GoingIfListed(t: Tables, project: string, board: string, listed: seq<string>)
    requires IsListing(t, project, LIST_LIMIT, listed)
    ensures StillGoing(t, board, listed) <==> !LeavesOut(listed, Unfinished(t, project, board))
  {
  }

  /** Every legal deletion leaves the version exactly when it is the project's last, or a run of it is
      unfinished and fewer runs than a listing holds were created no earlier than all of those. */
  lemma {:induction false} VersionKeptExactly(w: World, s: State, project: string, board: string)
    requires project in s.t.projects && HasBoard(s.t, project, board)
    ensures AlwaysKept(w, s, project, board) <==>
      (OnlyVersion(s.t, project, board)
       || (Unfinished(s.t, project, board) != {} && |NoOlder(s.t, project, Unfinished(s.t, project, board))| < 1000))
  {
    var t, mine := s.t, Unfinished(s.t, project, board);
    LeftOutExactly(t, project, mine);
    hide IsListing, OfVersion, IsVersionOrphans, StillGoing, OnlyVersion, Unfinished, NoOlder, RunsOf, LeavesOut;
    if mine != {} && |NoOlder(t, project, mine)| < LIST_LIMIT {
      forall listed, runs, keys | Legal(w, s, DropBoard(project, board, listed, runs, keys))
        ensures board in TablesAfter(w, s, DropBoard(project, board, listed, runs, keys)).boards
      {
        GoingIfListed(t, project, board, listed);
      }
    } else if !OnlyVersion(t, project, board) {
      var listed :| IsListing(t, project, LIST_LIMIT, listed) && LeavesOut(listed, mine);
      GoingIfListed(t, project, board, listed);
      var runs, keys := SomeClearing(t, project, board, listed);
      assert Legal(w, s, DropBoard(project, board, listed, runs, keys));
    }
  }

  /** In every reachable state with at most n runs in the project, a version that a run is still
      working on is kept. */
  ghost predicate KeptUpTo(n: nat) {
    forall w, now, path, project, board :: LegalPath(w, Start(now), path) ==> KeptWithin(w, After(w, Start(now), path), n, project, board)
  }

  ghost predicate KeptWithin(w: World, s: State, n: nat, project: string, board: string) {
    project in s.t.projects && HasBoard(s.t, project, board) && |RunsOf(s.t, project)| <= n && Unfinished(s.t, project, board) != {} ==>
      AlwaysKept(w, s, project, board)
  }

  lemma UnfinishedAreRuns(t: Tables, project: string, board: string)
    ensures Unfinished(t, project, board) <= RunsOf(t, project)
  {
  }

  /** A version that is being worked on is kept, in every reachable state, exactly as long as the
      project has no more runs than a listing holds. */
  lemma KeptUpToExactly(n: nat)
    ensures KeptUpTo(n) <==> n <= 1000
  {
    hide LegalPath, After, Crowd, Id, AlwaysKept, Unfinished, NoOlder, RunsOf, OnlyVersion, HasBoard;
    if n <= LIST_LIMIT {
      forall w, now, path, project, board | LegalPath(w, Start(now), path)
        ensures KeptWithin(w, After(w, Start(now), path), n, project, board)
      {
        var s := After(w, Start(now), path);
        UnfinishedAreRuns(s.t, project, board);
        FewerThanAll(s.t, project, Unfinished(s.t, project, board));
        if project in s.t.projects && HasBoard(s.t, project, board) {
          VersionKeptExactly(w, s, project, board);
        }
      }
    } else {
      var k := LIST_LIMIT - 1;
      var path := CrowdIsReached(k);
      CrowdRuns(k);
      CrowdVersions(k);
      VersionKeptExactly(WORLD, Crowd(k), Id(0), Id(1));
      assert !KeptWithin(WORLD, After(WORLD, Start(0), path), n, Id(0), Id(1));
    }
  }
}
