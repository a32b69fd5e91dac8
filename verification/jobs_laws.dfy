/** What each step of the scheduler does, told by its outcome for readers and tasks. */
module JobsLaws {
  import opened Common
  import opened Rotation
  import opened Jobs
  import opened JobsRun

  // ----- registering

  predicate Shared(r: Run, id: JobId) { exists x :: x in r.seats && x.place == Sharing(id) }

  predicate IsRunning(r: Run, id: JobId) { exists t :: t in r.tasks && r.tasks[t].id == id && r.tasks[t].ending.Alive? }

  /** A reader gets the refresh result that is set, shares a refresh that still runs for
      somebody, and waits otherwise. Nobody else is moved. */
  lemma ArrivesExactly(r: Run, id: JobId, application: Application, token: nat)
    requires Valid(r)
    ensures var q := Do(r, Register(id, application, token));
      && |q.seats| == |r.seats| + 1 && q.seats[..|r.seats|] == r.seats && q.tasks == r.tasks
      && var x := q.seats[|r.seats|];
      && x.reader == Reader(|r.seats|, token)
      && (x.place.Replied? <==> id.Refresh? && id.cell in r.jobs.cells)
      && (x.place.Replied? ==> x.place.id == id && x.place.outcome == r.jobs.cells[id.cell])
      && (x.place == Sharing(id) <==> id.Refresh? && IsRunning(r, id) && Shared(r, id))
      && (x.place.Replied? || x.place == Sharing(id) || x.place == Waiting(id))
      && (forall o :: o in q.jobs.queued ==>
            q.jobs.queued[o].application == if o in r.jobs.queued then r.jobs.queued[o].application else application)
  {
    if id in r.jobs.active && r.jobs.active[id].job.readers != [] {
      var x := r.jobs.active[id].job.readers[0];
      assert x in r.jobs.active[id].job.readers;
      assert Held(r.seats, r.jobs.active[id].job.readers, Sharing(id));
      assert r.seats[x.id] in r.seats;
    }
    if id in r.jobs.active { assert r.jobs.active[id].task in r.tasks; }
  }

  // ----- the order of the queue

  ghost predicate Keeps(s: State, q: State, a: JobId, b: JobId) {
    a in s.queued && a in q.queued && b in q.queued && (b in s.queued ==> Before(s.order, a, b)) ==> Before(q.order, a, b)
  }

  lemma PushOrder(s: State, id: JobId, application: Application, reader: Reader, finished: bool, a: JobId, b: JobId)
    requires Orderly(s) && a != b
    ensures Keeps(s, Pushed(s, id, application, reader, finished), a, b)
  {
    var q := Pushed(s, id, application, reader, finished);
    if q.order != s.order && (Before(s.order, a, b) || (a in s.order && b == id)) { AppendBefore(s.order, id, a, b); }
  }

  lemma LaunchOrder(s: State, i: nat, tokens: seq<nat>, task: nat, a: JobId, b: JobId)
    requires i < |s.order| && s.order[i] in s.queued
    ensures Keeps(s, TakenAt(s, i, tokens, task), a, b)
  {
    if Before(s.order, a, b) && a != s.order[i] && b != s.order[i] { WithoutBefore(s.order, i, a, b); }
  }

  lemma PruneOrder(s: State, live: set<Reader>, a: JobId, b: JobId)
    ensures Keeps(s, Pruned(s, live), a, b)
  {
    var kept := PrunedQueue(s.queued, live).Keys;
    if Before(s.order, a, b) && a in kept && b in kept { KeepBefore(s.order, kept, a, b); }
  }

  lemma JoinOrder(r: Run, task: nat, a: JobId, b: JobId)
    requires task in r.tasks
    ensures Keeps(r.jobs, Collected(r, task).jobs, a, b)
  {
  }

  /** Which of two queued jobs is in front: the one queued first, from then on. */
  lemma StepOrder(r: Run, step: Step, a: JobId, b: JobId)
    requires Valid(r) && Enabled(r, step) && a != b
    ensures Keeps(r.jobs, Do(r, step).jobs, a, b)
  {
    hide Keeps, Pushed, Pruned, Collected, TakenAt, Orderly, Capped, Matched, Placed, Fresh, Answered, Chosen;
    match step
    case Register(id, application, token) =>
      PushOrder(r.jobs, id, application, Reader(|r.seats|, token), IsFinished(r, id), a, b);
    case Prune(live) => PruneOrder(r.jobs, live, a, b);
    case Join(task) => JoinOrder(r, task, a, b);
    case Launch =>
      SameOrder(r.jobs, r.jobs, a, b);
      SameOrder(r.jobs, Do(r, step).jobs, a, b);
      if Covered(r.jobs) && Listed(r.jobs) && Chosen(r.jobs).Some? {
        LaunchOrder(r.jobs, Chosen(r.jobs).value, Turned(r.jobs), r.spawned, a, b);
      }
    case End(_, _) => SameOrder(r.jobs, r.jobs, a, b);
  }

  lemma SameOrder(s: State, q: State, a: JobId, b: JobId)
    ensures q == s ==> Keeps(s, q, a, b)
  {
  }

  /** `id` is queued in every state of the run. */
  ghost predicate StaysQueued(r: Run, steps: seq<Step>, id: JobId)
    requires Possible(r, steps)
    decreases |steps|
  {
    id in r.jobs.queued && (steps != [] ==> StaysQueued(Do(r, steps[0]), steps[1..], id))
  }

  /** First come, first in the order: over any run, a job queued when another is not yet, or
      in front of it, is in front of it at the end. */
  lemma {:induction false} QueuedFirst(r: Run, steps: seq<Step>, a: JobId, b: JobId)
    requires Valid(r) && Possible(r, steps) && StaysQueued(r, steps, a) && a != b
    requires b in r.jobs.queued ==> Before(r.jobs.order, a, b)
    ensures b in After(r, steps).jobs.queued ==> Before(After(r, steps).jobs.order, a, b)
    decreases |steps|
  {
    hide Do, Enabled, Valid;
    if steps != [] {
      StepKeeps(r, steps[0]);
      StepOrder(r, steps[0], a, b);
      QueuedFirst(Do(r, steps[0]), steps[1..], a, b);
    }
  }

  // ----- pruning

  lemma {:induction false} KeepNone<T(!new)>(s: seq<T>, kept: set<T>)
    ensures Keep(s, kept) == [] <==> forall x :: x in s ==> x !in kept
  {
    if s != [] { KeepNone(s[1..], kept); }
    if Keep(s, kept) != [] { assert Keep(s, kept)[0] in Keep(s, kept); }
  }

  /** A prune drops the unsettled readers that are gone and no others, and stops exactly the
      tasks nobody shares any more. */
  lemma PrunesExactly(r: Run, live: set<Reader>)
    requires Valid(r)
    ensures var q := Do(r, Prune(live));
      && |q.seats| == |r.seats| && q.tasks == r.tasks
      && (forall n :: 0 <= n < |r.seats| ==>
            q.seats[n] == if !Final(r.seats[n].place) && r.seats[n].reader !in live then Seat(r.seats[n].reader, Dropped) else r.seats[n])
      && (forall t :: t in q.jobs.aborted <==> t in r.jobs.aborted || (t in r.tasks && !Shared(q, r.tasks[t].id)))
      && (forall o :: o in q.jobs.queued ==> o in r.jobs.queued && q.jobs.queued[o].application == r.jobs.queued[o].application)
  {
    var q := Do(r, Prune(live));
    forall t | t in r.tasks
      ensures (Keep(r.jobs.active[r.tasks[t].id].job.readers, live) == []) <==> !Shared(q, r.tasks[t].id)
    {
      SharedAfter(r, live, r.tasks[t].id);
    }
    forall t ensures t in q.jobs.aborted <==> t in r.jobs.aborted || (t in r.tasks && !Shared(q, r.tasks[t].id)) {
      if t in Abandoned(r.jobs.active, live) {
        var id :| id in r.jobs.active && Keep(r.jobs.active[id].job.readers, live) == [] && r.jobs.active[id].task == t;
        assert r.tasks[t].id == id;
      }
    }
  }

  lemma SharedAfter(r: Run, live: set<Reader>, id: JobId)
    requires Valid(r) && id in r.jobs.active
    ensures (Keep(r.jobs.active[id].job.readers, live) == []) <==> !Shared(Do(r, Prune(live)), id)
  {
    hide Capped, Matched, Fresh, Answered, Orderly, Pruned, Final;
    var q := Do(r, Prune(live));
    var readers := r.jobs.active[id].job.readers;
    KeepNone(readers, live);
    assert Held(r.seats, readers, Sharing(id));
    if Shared(q, id) {
      var x :| x in q.seats && x.place == Sharing(id);
      var n :| 0 <= n < |q.seats| && q.seats[n] == x;
      assert r.seats[n] in r.seats && r.seats[n].place == Sharing(id);
      assert x.reader in readers && x.reader in live;
    }
    if x :| x in readers && x in live {
      assert q.seats[x.id] in q.seats && q.seats[x.id].place == Sharing(id);
    }
  }

  // ----- joining

  /** A completed task answers the readers that share it, and of a refresh those waiting
      too; a failed one drops the readers that share it. Nobody else is moved. */
  lemma JoinsExactly(r: Run, task: nat)
    requires Valid(r) && task in r.tasks && !r.tasks[task].ending.Alive?
    ensures var q, t := Do(r, Join(task)), r.tasks[task];
      && |q.seats| == |r.seats| && q.tasks == r.tasks - {task}
      && (forall n :: 0 <= n < |r.seats| ==>
            && q.seats[n].reader == r.seats[n].reader
            && q.seats[n].place ==
               (if t.ending.Completed? && (r.seats[n].place == Sharing(t.id) || (t.id.Refresh? && r.seats[n].place == Waiting(t.id)))
                then Replied(t.id, t.ending.outcome, t.born)
                else if t.ending.Failed? && r.seats[n].place == Sharing(t.id) then Dropped
                else r.seats[n].place))
      && q.jobs.cells == if t.ending.Completed? && t.id.Refresh? then r.jobs.cells[t.id.cell := t.ending.outcome] else r.jobs.cells
  {
    assert r.tasks[task].id in r.jobs.active;
  }

  // ----- starting

  /** What may start, counted over the tasks. */
  predicate MayStart(r: Run, id: JobId)
    requires id in r.jobs.queued
  {
    && (forall t :: t in r.tasks ==> r.tasks[t].id != id)
    && |TasksOfKind(r, id)| < (if id.Scan? then 8 else 4)
    && |TasksOfApplication(r, id, r.jobs.queued[id].application)| < (if id.Scan? then 2 else 1)
  }

  lemma {:induction false} OnePerTask(ids: set<JobId>, tasks: set<nat>, r: Run)
    requires Matched(r)
    requires forall id :: id in ids ==> id in r.jobs.active && r.jobs.active[id].task in tasks
    ensures |ids| <= |tasks|
  {
    if ids != {} {
      var id :| id in ids;
      OnePerTask(ids - {id}, tasks - {r.jobs.active[id].task}, r);
    }
  }

  lemma MayStartIs(r: Run, id: JobId)
    requires Valid(r) && id in r.jobs.queued
    ensures MayStart(r, id) <==> Startable(r.jobs, id)
  {
    var a := r.jobs.queued[id].application;
    OnePerId(TasksOfKind(r, id), OfKind(r.jobs.active, id), r);
    OnePerTask(OfKind(r.jobs.active, id), TasksOfKind(r, id), r);
    OnePerId(TasksOfApplication(r, id, a), OfApplication(r.jobs.active, id, a), r);
    OnePerTask(OfApplication(r.jobs.active, id, a), TasksOfApplication(r, id, a), r);
    if id in r.jobs.active { assert r.jobs.active[id].task in r.tasks; }
  }

  /** A reader of `token` waits for `id`, which may start. */
  ghost predicate Servable(r: Run, id: JobId, token: nat) {
    && id in r.jobs.queued && MayStart(r, id)
    && exists x :: x in r.seats && x.place == Waiting(id) && x.reader.token == token
  }

  lemma ServableIs(r: Run, id: JobId, token: nat)
    requires Valid(r) && id in r.jobs.queued
    ensures Servable(r, id, token) <==> Serves(r.jobs, id, token)
  {
    MayStartIs(r, id);
    assert Held(r.seats, r.jobs.queued[id].readers, Waiting(id));
    if Serves(r.jobs, id, token) {
      var x :| x in r.jobs.queued[id].readers && x.token == token;
      assert r.seats[x.id] in r.seats;
    }
  }

  lemma EligibleIs(r: Run, token: nat)
    requires Valid(r)
    ensures token in Eligible(r.jobs) <==> exists id :: id in r.jobs.queued && Servable(r, id, token)
  {
    var s := r.jobs;
    forall id | id in s.queued ensures Servable(r, id, token) <==> Serves(s, id, token) { ServableIs(r, id, token); }
    if token in Eligible(s) {
      var id, x :| id in s.queued && Startable(s, id) && x in s.queued[id].readers && x.token == token;
      assert Serves(s, id, token);
    }
    if id :| id in s.queued && Serves(s, id, token) {
      var x :| x in s.queued[id].readers && x.token == token;
      assert x.token in Eligible(s);
    }
  }

  /** The first token in the rotation that a start can serve, and its first job that may start. */
  ghost predicate IsNext(r: Run, k: nat, i: nat) {
    && k < |r.jobs.tokens| && i < |r.jobs.order|
    && Servable(r, r.jobs.order[i], r.jobs.tokens[k])
    && (forall j, id :: 0 <= j < k && id in r.jobs.queued ==> !Servable(r, id, r.jobs.tokens[j]))
    && (forall j :: 0 <= j < i ==> !Servable(r, r.jobs.order[j], r.jobs.tokens[k]))
  }

  lemma FirstIs(s: State, token: nat, i: nat)
    requires Covered(s) && i < |s.order| && Serves(s, s.order[i], token)
    requires forall j :: 0 <= j < i ==> !Serves(s, s.order[j], token)
    ensures First(s, token, 0) == i
  {
    var f := First(s, token, 0);
    assert f < |s.order|;
  }

  lemma ChosenIs(r: Run, k: nat, i: nat)
    requires Valid(r) && r.pruned && IsNext(r, k, i)
    ensures Covered(r.jobs) && Listed(r.jobs) && r.jobs.order[i] in r.jobs.queued && Chosen(r.jobs) == Some(i)
    ensures Turned(r.jobs) == r.jobs.tokens[k + 1..] + r.jobs.tokens[..k + 1]
  {
    hide Servable, Serves, MayStart, Startable, Capped, Matched, Placed, Fresh, Answered;
    var s := r.jobs;
    forall id, token | id in s.queued ensures Servable(r, id, token) <==> Serves(s, id, token) { ServableIs(r, id, token); }
    forall j | 0 <= j <= k ensures s.tokens[j] in Eligible(s) <==> j == k { EligibleIs(r, s.tokens[j]); }
    TurnIs(s.tokens, Eligible(s), k);
    FirstIs(s, s.tokens[k], i);
    assert s.tokens[..k] + [s.tokens[k]] == s.tokens[..k + 1];
  }

  lemma StartsAt(r: Run, i: nat)
    requires r.pruned && Covered(r.jobs) && Listed(r.jobs) && i < |r.jobs.order| && r.jobs.order[i] in r.jobs.queued
    requires Chosen(r.jobs) == Some(i)
    ensures var q, id := Do(r, Launch), r.jobs.order[i];
      && q.tasks == r.tasks[r.spawned := Task(id, |r.seats|, Alive)] && q.spawned == r.spawned + 1
      && q.jobs.queued == r.jobs.queued - {id}
      && q.jobs.active == r.jobs.active[id := Running(r.jobs.queued[id], r.spawned)]
      && q.jobs.order == r.jobs.order[..i] + r.jobs.order[i + 1..]
      && q.jobs.tokens == Turned(r.jobs)
      && |q.seats| == |r.seats|
      && (forall n :: 0 <= n < |r.seats| ==>
            q.seats[n] == if r.seats[n].place == Waiting(id) then Seat(r.seats[n].reader, Sharing(id)) else r.seats[n])
  {
    hide Covered, Listed, Chosen, Turned;
    var id := r.jobs.order[i];
    assert Launched(r) == LaunchedAt(r, i, Turned(r.jobs));
    assert forall n :: 0 <= n < |r.seats| ==> Moved(r.seats, Seize(id))[n] == r.seats[n].(place := Seize(id)(r.seats[n]));
  }

  /** A start takes the first token that it can serve, and that token's first job; the token
      goes behind the others, its readers share the new task, everything else stays. */
  lemma LaunchesNext(r: Run, k: nat, i: nat)
    requires Valid(r) && r.pruned && IsNext(r, k, i)
    ensures var q, id := Do(r, Launch), r.jobs.order[i];
      && q.tasks == r.tasks[r.spawned := Task(id, |r.seats|, Alive)] && q.spawned == r.spawned + 1
      && q.jobs.queued == r.jobs.queued - {id}
      && q.jobs.active == r.jobs.active[id := Running(r.jobs.queued[id], r.spawned)]
      && q.jobs.order == r.jobs.order[..i] + r.jobs.order[i + 1..]
      && q.jobs.tokens == r.jobs.tokens[k + 1..] + r.jobs.tokens[..k + 1]
      && |q.seats| == |r.seats|
      && (forall n :: 0 <= n < |r.seats| ==>
            q.seats[n] == if r.seats[n].place == Waiting(id) then Seat(r.seats[n].reader, Sharing(id)) else r.seats[n])
  {
    hide *;
    ChosenIs(r, k, i);
    StartsAt(r, i);
  }

  /** Whenever a queued job may start there is such a first one. */
  lemma NextExists(r: Run, id: JobId)
    requires Valid(r) && r.pruned && id in r.jobs.queued && MayStart(r, id)
    ensures exists k, i :: IsNext(r, k, i)
  {
    hide Servable, Serves, MayStart, Startable, Capped, Matched, Placed, Fresh, Answered;
    var s := r.jobs;
    forall o, token | o in s.queued ensures Servable(r, o, token) <==> Serves(s, o, token) { ServableIs(r, o, token); }
    MayStartIs(r, id);
    NothingLeft(s);
    var k, i := Turn(s.tokens, Eligible(s)), Chosen(s).value;
    forall j, o | 0 <= j < k && o in s.queued ensures !Servable(r, o, s.tokens[j]) { EligibleIs(r, s.tokens[j]); }
    assert IsNext(r, k, i);
  }

  lemma MayNot(r: Run)
    requires Valid(r) && r.pruned && Launched(r) == r
    ensures forall id :: id in r.jobs.queued ==> !MayStart(r, id)
  {
    LaunchIsMaximal(r);
    forall id | id in r.jobs.queued ensures !MayStart(r, id) { MayStartIs(r, id); }
  }

  /** From every state the loop can prune and then start jobs until none may start: what is
      queued then has a task already, or 8 scans or 4 refreshes run, or 2 or 1 of its
      application. */
  lemma RoundFills(r: Run, live: set<Reader>)
    requires Valid(r)
    ensures exists n: nat :: Possible(r, Round(live, n)) && Full(After(r, Round(live, n)))
  {
    var p := Do(r, Prune(live));
    StepKeeps(r, Prune(live));
    StartedByLaunches(p);
    var n: nat :| Possible(p, Launches(n)) && FilledBy(p, After(p, Launches(n)), n);
    var q := After(p, Launches(n));
    AlwaysValid(p, Launches(n));
    StaysPruned(p, Launches(n));
    MayNot(q);
    RoundIs(r, live, n);
    assert Possible(r, Round(live, n)) && Full(After(r, Round(live, n)));
  }

  function Round(live: set<Reader>, n: nat): seq<Step> { [Prune(live)] + Launches(n) }

  ghost predicate Full(r: Run) { forall id :: id in r.jobs.queued ==> !MayStart(r, id) }

  lemma RoundIs(r: Run, live: set<Reader>, n: nat)
    requires Possible(Do(r, Prune(live)), Launches(n))
    ensures Possible(r, Round(live, n))
    ensures After(r, Round(live, n)) == After(Do(r, Prune(live)), Launches(n))
  {
    assert Round(live, n)[1..] == Launches(n);
  }

  lemma {:induction false} StaysPruned(r: Run, steps: seq<Step>)
    requires Possible(r, steps) && r.pruned && forall step :: step in steps ==> step == Launch
    ensures After(r, steps).pruned
    decreases |steps|
  {
    if steps != [] {
      assert steps[0] in steps && forall step :: step in steps[1..] ==> step in steps;
      StaysPruned(Do(r, steps[0]), steps[1..]);
    }
  }

  // ----- no reader is stuck

  lemma {:induction false} RunsOn(r: Run, a: seq<Step>, b: seq<Step>)
    requires Possible(r, a) && Possible(After(r, a), b)
    ensures Possible(r, a + b) && After(r, a + b) == After(After(r, a), b)
    decreases |a|
  {
    hide Do, Enabled;
    if a == [] {
      assert a + b == b;
    } else {
      assert (a + b)[1..] == a[1..] + b;
      RunsOn(Do(r, a[0]), a[1..], b);
    }
  }

  predicate NoneFailed(r: Run) { forall t :: t in r.tasks ==> !r.tasks[t].ending.Failed? }

  /** Reader `n` is where it was or further on, and not dropped if no task had failed. */
  ghost predicate Onward(r: Run, q: Run, n: nat) {
    && n < |r.seats| == |q.seats|
    && (Final(r.seats[n].place) ==> q.seats[n] == r.seats[n])
    && (NoneFailed(r) ==> NoneFailed(q) && (!r.seats[n].place.Dropped? ==> !q.seats[n].place.Dropped?))
  }

  lemma OneJoins(r: Run, task: nat, n: nat)
    requires Valid(r) && task in r.tasks && !r.tasks[task].ending.Alive? && n < |r.seats|
    ensures Enabled(r, Join(task)) && Valid(Do(r, Join(task))) && Onward(r, Do(r, Join(task)), n)
    ensures Do(r, Join(task)).tasks == r.tasks - {task}
    ensures Do(r, Join(task)).jobs.queued.Keys <= r.jobs.queued.Keys
  {
    StepKeeps(r, Join(task));
    JoinsExactly(r, task);
  }

  lemma OneEnds(r: Run, task: nat, n: nat)
    requires Valid(r) && task in r.tasks && r.tasks[task].ending.Alive? && n < |r.seats|
    ensures var q := Do(r, End(task, Completed(Ok(0))));
      && Valid(q) && Onward(r, q, n) && q.jobs == r.jobs && q.tasks.Keys == r.tasks.Keys && !q.tasks[task].ending.Alive?
  {
    StepKeeps(r, End(task, Completed(Ok(0))));
  }

  lemma OneStep(r: Run, a: Step)
    requires Enabled(r, a)
    ensures Possible(r, [a]) && After(r, [a]) == Do(r, a)
  {
    assert [a][1..] == [];
  }

  lemma OneFinishes(r: Run, task: nat, n: nat) returns (steps: seq<Step>)
    requires Valid(r) && task in r.tasks && n < |r.seats|
    ensures Possible(r, steps) && Valid(After(r, steps)) && Onward(r, After(r, steps), n)
    ensures After(r, steps).tasks.Keys == r.tasks.Keys - {task}
    ensures After(r, steps).jobs.queued.Keys <= r.jobs.queued.Keys
  {
    hide Valid, Onward, Collected;
    var p, ending := r, [];
    if r.tasks[task].ending.Alive? {
      ending := [End(task, Completed(Ok(0)))];
      OneEnds(r, task, n);
      p := Do(r, ending[0]);
      OneStep(r, ending[0]);
    }
    OneJoins(p, task, n);
    OneStep(p, Join(task));
    RunsOn(r, ending, [Join(task)]);
    steps := ending + [Join(task)];
    OnwardOn(r, p, Do(p, Join(task)), n);
  }

  lemma OnwardOn(r: Run, p: Run, q: Run, n: nat)
    ensures n < |r.seats| ==> Onward(r, r, n)
    ensures Onward(r, p, n) ==> |r.seats| == |p.seats|
    ensures Onward(r, p, n) && Onward(p, q, n) ==> Onward(r, q, n)
  {
  }

  lemma NoTasks(r: Run, id: JobId)
    requires r.tasks == map[] && id in r.jobs.queued
    ensures MayStart(r, id)
  {
    assert TasksOfKind(r, id) == {} && TasksOfApplication(r, id, r.jobs.queued[id].application) == {};
  }

  lemma TwoSteps(r: Run, a: Step, b: Step)
    requires Enabled(r, a) && Enabled(Do(r, a), b)
    ensures Possible(r, [a, b]) && After(r, [a, b]) == Do(Do(r, a), b)
  {
    OneStep(Do(r, a), b);
    assert [a, b][1..] == [b];
  }

  /** A prune with every reader live. */
  lemma AllStay(r: Run, n: nat)
    requires Valid(r) && r.tasks == map[] && n < |r.seats| && r.seats[n].place.Waiting?
    ensures var p := Do(r, Prune(Everyone(r)));
      && Valid(p) && p.pruned && p.tasks == map[] && Onward(r, p, n)
      && p.jobs.queued.Keys <= r.jobs.queued.Keys && p.seats[n].place == r.seats[n].place
      && p.seats[n].place.id in p.jobs.queued
  {
    var p := Do(r, Prune(Everyone(r)));
    StepKeeps(r, Prune(Everyone(r)));
    PrunesExactly(r, Everyone(r));
    assert r.seats[n] in r.seats && p.seats[n] in p.seats;
  }

  function Everyone(r: Run): set<Reader> { set x | x in r.seats :: x.reader }

  lemma OneLaunches(r: Run, k: nat, i: nat, n: nat)
    requires Valid(r) && r.pruned && IsNext(r, k, i) && r.tasks == map[] && n < |r.seats|
    ensures Enabled(r, Launch) && Valid(Do(r, Launch)) && Onward(r, Do(r, Launch), n)
    ensures Do(r, Launch).jobs.queued.Keys < r.jobs.queued.Keys
  {
    StepKeeps(r, Launch);
    LaunchesNext(r, k, i);
  }

  lemma OneStarts(r: Run, n: nat) returns (steps: seq<Step>)
    requires Valid(r) && r.tasks == map[] && n < |r.seats| && r.seats[n].place.Waiting?
    ensures Possible(r, steps) && Valid(After(r, steps)) && Onward(r, After(r, steps), n)
    ensures After(r, steps).jobs.queued.Keys < r.jobs.queued.Keys
  {
    hide Do, Onward, Valid, MayStart, IsNext, Everyone;
    var p := Do(r, Prune(Everyone(r)));
    AllStay(r, n);
    var id := p.seats[n].place.id;
    NoTasks(p, id);
    NextExists(p, id);
    var k, i :| IsNext(p, k, i);
    OneLaunches(p, k, i, n);
    OnwardOn(r, p, Do(p, Launch), n);
    steps := [Prune(Everyone(r)), Launch];
    TwoSteps(r, steps[0], steps[1]);
  }

  /** From every reachable state each reader's fate can be reached, and unless a task has
      failed that is a reply for every reader that was not dropped before. */
  lemma {:induction false} CanSettle(r: Run, n: nat) returns (steps: seq<Step>)
    requires Valid(r) && n < |r.seats|
    ensures Possible(r, steps) && Onward(r, After(r, steps), n)
    ensures n < |After(r, steps).seats| && Final(After(r, steps).seats[n].place)
    decreases r.jobs.queued.Keys, r.tasks.Keys
  {
    hide Do, Enabled, Onward;
    OnwardOn(r, r, r, n);
    if Final(r.seats[n].place) {
      steps := [];
    } else {
      var first: seq<Step>;
      if r.tasks.Keys != {} {
        var task :| task in r.tasks.Keys;
        first := OneFinishes(r, task, n);
      } else {
        assert r.seats[n] in r.seats;
        first := OneStarts(r, n);
      }
      var p := After(r, first);
      OnwardOn(r, p, p, n);
      var rest := CanSettle(p, n);
      RunsOn(r, first, rest);
      OnwardOn(r, p, After(p, rest), n);
      steps := first + rest;
    }
  }
}
