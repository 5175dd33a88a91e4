/** Which runs a listing of the newest leaves out (server/emi/pgstore.go,
    server/local/sqlitestore.go). */
module Listings {
  import opened Runs
  import opened Stores
  import opened Boards
  import opened Sets

  /** The version's runs that have not finished. */
  function Unfinished(t: Tables, project: string, board: string): (ids: set<string>) {
    set r | r in RunsOf(t, project) && t.runs[r].board == board && !Terminal(t.runs[r].status)
  }

  /** The project's other runs created no earlier than any of these. */
  ghost function NoOlder(t: Tables, project: string, mine: set<string>): (ids: set<string>)
    requires mine <= RunsOf(t, project)
  {
    set q | q in RunsOf(t, project) && q !in mine && forall r :: r in mine ==> t.runs[r].createdAt <= t.runs[q].createdAt
  }

  ghost predicate LeavesOut(listed: seq<string>, mine: set<string>) {
    forall r :: r in mine ==> r !in listed
  }

  /** A listing that leaves some runs out is full of others created no earlier. */
  lemma LeftOutIsCrowdedOut(t: Tables, project: string, mine: set<string>, listed: seq<string>)
    requires IsListing(t, project, LIST_LIMIT, listed) && mine != {} && mine <= RunsOf(t, project) && LeavesOut(listed, mine)
    ensures |NoOlder(t, project, mine)| >= LIST_LIMIT
  {
    var all := RunsOf(t, project);
    var r :| r in mine;
    var here := Members(listed);
    ListSize(listed);
    assert r !in here && here <= all;
    Fits(here, all);
    forall q | q in listed ensures q in NoOlder(t, project, mine) {
      assert q in all && q !in mine;
      forall m | m in mine ensures t.runs[m].createdAt <= t.runs[q].createdAt {
        assert m !in listed;
      }
    }
    Fits(here, NoOlder(t, project, mine));
  }

  /** There is a listing, of any runs. */
  lemma SomeListing(runs: RunRows, among: set<string>, limit: nat) returns (ids: seq<string>)
    requires among <= runs.Keys
    ensures IsNewest(runs, among, limit, ids)
    decreases limit
  {
    ids := [];
    if limit > 0 && among != {} {
      var r := SomeNewest(runs, among);
      var rest := SomeListing(runs, among - {r}, limit - 1);
      ids := [r] + rest;
    }
  }

  /** The newest of the runs created no earlier are the newest of all, if they fill the listing. */
  lemma CrowdIsListing(t: Tables, project: string, mine: set<string>, ids: seq<string>)
    requires mine <= RunsOf(t, project) && IsNewest(t.runs, NoOlder(t, project, mine), LIST_LIMIT, ids)
    requires mine == {} || |NoOlder(t, project, mine)| >= LIST_LIMIT
    ensures IsListing(t, project, LIST_LIMIT, ids) && LeavesOut(ids, mine)
  {
    var others, all := NoOlder(t, project, mine), RunsOf(t, project);
    Fits(others, all);
    if mine == {} {
      assert others == all;
    }
    forall q, r | q in ids && r in all && r !in ids ensures t.runs[r].createdAt <= t.runs[q].createdAt {
      assert q in others;
      if r !in others && r !in mine {
        var m :| m in mine && t.runs[r].createdAt < t.runs[m].createdAt;
      }
    }
  }

  /** Some listing of the project's newest runs leaves all of these out exactly when there are none,
      or as many others as a listing holds were created no earlier. */
  lemma LeftOutExactly(t: Tables, project: string, mine: set<string>)
    requires mine <= RunsOf(t, project)
    ensures (exists listed :: IsListing(t, project, LIST_LIMIT, listed) && LeavesOut(listed, mine))
       <==> mine == {} || |NoOlder(t, project, mine)| >= LIST_LIMIT
  {
    hide IsListing, NoOlder, LeavesOut, IsNewest;
    if listed :| IsListing(t, project, LIST_LIMIT, listed) && LeavesOut(listed, mine) {
      if mine != {} {
        LeftOutIsCrowdedOut(t, project, mine, listed);
      }
    }
    if mine == {} || |NoOlder(t, project, mine)| >= LIST_LIMIT {
      FewerThanAll(t, project, mine);
      var listed := SomeListing(t.runs, NoOlder(t, project, mine), LIST_LIMIT);
      CrowdIsListing(t, project, mine, listed);
    }
  }

  lemma FewerThanAll(t: Tables, project: string, mine: set<string>)
    requires mine <= RunsOf(t, project)
    ensures NoOlder(t, project, mine) <= t.runs.Keys
    ensures mine != {} ==> |NoOlder(t, project, mine)| < |RunsOf(t, project)|
  {
    Fits(NoOlder(t, project, mine), RunsOf(t, project));
  }

  // ---------- what a deletion lists ----------

  lemma Sublist(s: seq<string>, keep: string -> bool) returns (r: seq<string>)
    ensures forall x :: x in r <==> x in s && keep(x)
  {
    r := [];
    if s != [] {
      var n := |s| - 1;
      var front := Sublist(s[..n], keep);
      r := if keep(s[n]) then front + [s[n]] else front;
    }
  }

  /** What a version's deletion clears can be listed. */
  lemma SomeClearing(t: Tables, project: string, board: string, listed: seq<string>) returns (runs: seq<string>, keys: seq<string>)
    requires HasBoard(t, project, board)
    ensures OfVersion(t, board, listed, runs) && IsVersionOrphans(t, project, board, keys)
  {
    runs := Sublist(listed, r => r in t.runs && t.runs[r].board == board);
    keys := Sublist([t.boards[board].inputKey, t.boards[board].boardKey], key => VersionOrphan(t.boards, project, board, key));
  }
}
