/** The worker's queue: runs are announced by a push and by a poll, and several threads work them
    off (worker/emi_worker/runner.py). The steps are those between two of which another thread can
    run. */
module WorkerQueue {

  /** Where each announced run is: noted by a thread that has yet to queue it, queued, or executing
      in a thread; and the set of runs noted. */
  datatype Pool = Pool(seen: set<string>, noted: map<nat, string>, queue: seq<string>, executing: map<nat, string>)

  /** One thread's step: note an announced run, queue the one noted, take the next, let one go. */
  datatype Step = Note(thread: nat, run: string) | Enqueue(thread: nat) | Take(thread: nat) | Release(thread: nat)

  /** A thread notes or executes one run at a time, queues what it noted, and takes when there is one. */
  predicate CanStep(p: Pool, s: Step) {
    match s
    case Note(t, _) => t !in p.noted
    case Enqueue(t) => t in p.noted
    case Take(t) => t !in p.executing && p.queue != []
    case Release(t) => t in p.executing
  }

  function AfterStep(p: Pool, s: Step): (q: Pool)
    requires CanStep(p, s)
  {
    match s
    case Note(t, run) => if run in p.seen then p else p.(seen := p.seen + {run}, noted := p.noted[t := run])
    case Enqueue(t) => p.(noted := p.noted - {t}, queue := p.queue + [p.noted[t]])
    case Take(t) => p.(queue := p.queue[1..], executing := p.executing[t := p.queue[0]])
    case Release(t) => p.(seen := p.seen - {p.executing[t]}, executing := p.executing - {t})
  }

  /** What each step does, place by place: a run announced again while it is seen is not noted; runs
      are queued behind the others and taken from the front. */
  lemma StepMoves(p: Pool, s: Step)
    requires CanStep(p, s)
    ensures var q := AfterStep(p, s);
      match s
      case Note(t, run) =>
        && q.queue == p.queue && q.executing == p.executing
        && (if run in p.seen then q == p else q.seen == p.seen + {run} && t in q.noted && q.noted[t] == run)
        && forall u :: u != t ==> (u in q.noted <==> u in p.noted) && (u in p.noted ==> q.noted[u] == p.noted[u])
      case Enqueue(t) =>
        && q.seen == p.seen && q.executing == p.executing && t !in q.noted && q.queue == p.queue + [p.noted[t]]
        && forall u :: u != t ==> (u in q.noted <==> u in p.noted) && (u in p.noted ==> q.noted[u] == p.noted[u])
      case Take(t) =>
        && q.seen == p.seen && q.noted == p.noted && t in q.executing && p.queue == [q.executing[t]] + q.queue
        && forall u :: u != t ==> (u in q.executing <==> u in p.executing) && (u in p.executing ==> q.executing[u] == p.executing[u])
      case Release(t) =>
        && q.noted == p.noted && q.queue == p.queue && t !in q.executing
        && (forall r :: r in q.seen <==> r in p.seen && r != p.executing[t])
        && forall u :: u != t ==> (u in q.executing <==> u in p.executing) && (u in p.executing ==> q.executing[u] == p.executing[u])
  {
  }

  // ---------- each run in one place ----------

  ghost predicate EachOnce(m: map<nat, string>) {
    forall t, u :: t in m && u in m && t != u ==> m[t] != m[u]
  }

  ghost predicate QueuedOnce(queue: seq<string>) {
    forall i, j :: 0 <= i < j < |queue| ==> queue[i] != queue[j]
  }

  /** Noted, queued and executing runs are all different, and are the ones seen. */
  ghost predicate Sound(p: Pool) {
    && EachOnce(p.noted) && EachOnce(p.executing) && QueuedOnce(p.queue)
    && (forall t :: t in p.noted ==> p.noted[t] in p.seen && p.noted[t] !in p.queue)
    && (forall t :: t in p.executing ==> p.executing[t] in p.seen && p.executing[t] !in p.queue)
    && (forall t, u :: t in p.noted && u in p.executing ==> p.noted[t] != p.executing[u])
    && (forall r :: r in p.queue ==> r in p.seen)
    && (forall r :: r in p.seen ==> Held(p, r))
  }

  ghost predicate Held(p: Pool, r: string) {
    (exists t :: t in p.noted && p.noted[t] == r) || r in p.queue || (exists t :: t in p.executing && p.executing[t] == r)
  }

  lemma NoteKeepsSound(p: Pool, t: nat, run: string)
    requires Sound(p) && CanStep(p, Note(t, run))
    ensures Sound(AfterStep(p, Note(t, run)))
  {
    var q := AfterStep(p, Note(t, run));
    if run !in p.seen {
      forall r | r in q.seen ensures Held(q, r) {
        if r == run {
          assert q.noted[t] == r;
        } else {
          assert Held(p, r);
          if u :| u in p.noted && p.noted[u] == r {
            assert q.noted[u] == r;
          }
        }
      }
    }
  }

  lemma EnqueueKeepsSound(p: Pool, t: nat)
    requires Sound(p) && CanStep(p, Enqueue(t))
    ensures Sound(AfterStep(p, Enqueue(t)))
  {
    var q := AfterStep(p, Enqueue(t));
    forall r | r in q.seen ensures Held(q, r) {
      assert Held(p, r);
      assert q.queue[|p.queue|] == p.noted[t];
      if u :| u in p.noted && p.noted[u] == r {
        assert u == t || q.noted[u] == r;
      }
    }
  }

  lemma TakeKeepsSound(p: Pool, t: nat)
    requires Sound(p) && CanStep(p, Take(t))
    ensures Sound(AfterStep(p, Take(t)))
  {
    var q := AfterStep(p, Take(t));
    assert forall r :: r in p.queue <==> r == p.queue[0] || r in q.queue;
    assert p.queue[0] !in q.queue;
    forall r | r in q.seen ensures Held(q, r) {
      assert Held(p, r);
      assert q.executing[t] == p.queue[0];
      if u :| u in p.executing && p.executing[u] == r {
        assert q.executing[u] == r;
      }
    }
  }

  lemma ReleaseKeepsSound(p: Pool, t: nat)
    requires Sound(p) && CanStep(p, Release(t))
    ensures Sound(AfterStep(p, Release(t)))
  {
    var q := AfterStep(p, Release(t));
    forall r | r in q.seen ensures Held(q, r) {
      assert Held(p, r);
      if u :| u in p.executing && p.executing[u] == r {
        assert q.executing[u] == r;
      }
    }
  }

  lemma StepKeepsSound(p: Pool, s: Step)
    requires Sound(p) && CanStep(p, s)
    ensures Sound(AfterStep(p, s))
  {
    hide Sound, AfterStep;
    match s
    case Note(t, run) => NoteKeepsSound(p, t, run);
    case Enqueue(t) => EnqueueKeepsSound(p, t);
    case Take(t) => TakeKeepsSound(p, t);
    case Release(t) => ReleaseKeepsSound(p, t);
  }

  // ---------- all interleavings ----------

  ghost predicate CanRun(p: Pool, steps: seq<Step>)
    decreases |steps|
  {
    steps != [] ==> CanStep(p, steps[0]) && CanRun(AfterStep(p, steps[0]), steps[1..])
  }

  ghost function AfterAll(p: Pool, steps: seq<Step>): (q: Pool)
    requires CanRun(p, steps)
    decreases |steps|
  {
    if steps == [] then p else AfterAll(AfterStep(p, steps[0]), steps[1..])
  }

  lemma {:induction false} SoundThroughout(p: Pool, steps: seq<Step>)
    requires Sound(p) && CanRun(p, steps)
    ensures Sound(AfterAll(p, steps))
    decreases |steps|
  {
    hide Sound, CanStep, AfterStep;
    if steps != [] {
      StepKeepsSound(p, steps[0]);
      SoundThroughout(AfterStep(p, steps[0]), steps[1..]);
    }
  }

  /** How many places a run has in the queue or in execution. */
  ghost function Holdings(p: Pool, run: string): (n: nat) {
    multiset(p.queue)[run] + |set t | t in p.executing && p.executing[t] == run|
  }

  lemma {:induction false} CountedOnce(queue: seq<string>, run: string)
    requires QueuedOnce(queue)
    ensures multiset(queue)[run] == if run in queue then 1 else 0
  {
    if queue != [] {
      var front, last := queue[..|queue| - 1], queue[|queue| - 1];
      assert queue == front + [last];
      CountedOnce(front, run);
      assert last !in front;
    }
  }

  /** Over every interleaving of announcing, queueing, taking and finishing, a run is in the queue or
      in execution at most once in all: no two threads ever execute one run together. */
  lemma NeverTwice(steps: seq<Step>, run: string)
    requires CanRun(Pool({}, map[], [], map[]), steps)
    ensures var p := AfterAll(Pool({}, map[], [], map[]), steps);
      && Holdings(p, run) <= 1
      && forall t, u :: t in p.executing && u in p.executing && p.executing[t] == p.executing[u] ==> t == u
  {
    SoundThroughout(Pool({}, map[], [], map[]), steps);
    var p := AfterAll(Pool({}, map[], [], map[]), steps);
    hide AfterAll, CanRun;
    CountedOnce(p.queue, run);
    var holders := set t | t in p.executing && p.executing[t] == run;
    if t :| t in holders {
      assert holders == {t};
    }
  }

  // ---------- the runner's own fields ----------

  class Runner {
    var seen: set<string>
    var queue: seq<string>
    ghost var noted: map<nat, string>
    ghost var executing: map<nat, string>

    ghost function Now(): (p: Pool)
      reads this
    {
      Pool(seen, noted, queue, executing)
    }

    constructor ()
      ensures Now() == Pool({}, map[], [], map[]) && Sound(Now())
    {
      seen, queue, noted, executing := {}, [], map[], map[];
    }

    /** The part of _enqueue under the lock: whether the run is new. */
    method NoteRun(ghost thread: nat, run: string) returns (unseen: bool)
      requires Sound(Now()) && CanStep(Now(), Note(thread, run))
      modifies this
      ensures Now() == AfterStep(old(Now()), Note(thread, run)) && Sound(Now())
      ensures unseen <==> run !in old(seen)
    {
      StepKeepsSound(Now(), Note(thread, run));
      if run in seen {
        return false;
      }
      seen := seen + {run};
      noted := noted[thread := run];
      return true;
    }

    /** queue.put of the run just noted. */
    method PutRun(ghost thread: nat, run: string)
      requires Sound(Now()) && CanStep(Now(), Enqueue(thread)) && noted[thread] == run
      modifies this
      ensures Now() == AfterStep(old(Now()), Enqueue(thread)) && Sound(Now())
    {
      StepKeepsSound(Now(), Enqueue(thread));
      queue := queue + [run];
      noted := noted - {thread};
    }

    /** queue.get, when there is something to get. */
    method TakeRun(ghost thread: nat) returns (run: string)
      requires Sound(Now()) && CanStep(Now(), Take(thread))
      modifies this
      ensures Now() == AfterStep(old(Now()), Take(thread)) && Sound(Now())
      ensures run == old(queue[0]) && executing[thread] == run
    {
      StepKeepsSound(Now(), Take(thread));
      run := queue[0];
      queue := queue[1..];
      executing := executing[thread := run];
    }

    /** The run is done with, however it went, and may be announced again. */
    method ReleaseRun(ghost thread: nat, run: string)
      requires Sound(Now()) && CanStep(Now(), Release(thread)) && executing[thread] == run
      modifies this
      ensures Now() == AfterStep(old(Now()), Release(thread)) && Sound(Now()) && run !in seen
    {
      StepKeepsSound(Now(), Release(thread));
      seen := seen - {run};
      executing := executing - {thread};
    }
  }
}
