/** The thumbnail loop of one row: a rate limit, one job at a time, and pictures that are
    never of a state that was given up. */
module Thumbnails {
  import opened Common

  const INTERVAL := 3000

  datatype Row = Row(revision: nat, sizing: nat, eligible: bool)

  /** What a picture is of. */
  datatype Key = Key(revision: nat, sizing: nat)

  function KeyOf(row: Row): Key { Key(row.revision, row.sizing) }

  /** A job waits in the shared queue, captures, or is over but not yet settled. `spoiled`
      notes that the row was resized, made ineligible or disposed since the capture began;
      the code keeps no such note. */
  datatype Job =
    | Queued
    | Capturing(key: Key, epoch: nat, aborted: bool, spoiled: bool)
    | Over

  datatype Loop = Loop(
    allowed: bool, current: Option<Row>, captured: Option<Key>, pending: bool, disposed: bool, timer: bool,
    lastStart: Option<int>, failures: nat, generation: nat, jobs: seq<Job>,
    clock: int, starts: seq<int>, published: seq<(Key, bool)>)

  function Start(allowed: bool, clock: int): Loop {
    Loop(allowed, None, None, false, false, false, None, 0, 0, [], clock, [], [])
  }

  predicate Needed(l: Loop) {
    && !l.disposed && l.current.Some? && l.current.value.eligible
    && l.captured != Some(KeyOf(l.current.value)) && l.failures < 2 && l.allowed
  }

  function Remaining(l: Loop): int {
    if l.lastStart.None? then 0 else l.lastStart.value + INTERVAL - l.clock
  }

  function Pumped(l: Loop): Loop {
    if !Needed(l) || l.pending || l.timer then l
    else if Remaining(l) > 0 then l.(timer := true)
    else l.(pending := true, jobs := l.jobs + [Queued])
  }

  /** `update`: a new size or an ineligible row aborts what runs and gives up its picture. */
  function Updated(l: Loop, next: Row): Loop {
    if l.disposed then l
    else
      var anew := l.current.None? || KeyOf(next) != KeyOf(l.current.value) || (!l.current.value.eligible && next.eligible);
      var drops := !next.eligible || (l.current.Some? && next.sizing != l.current.value.sizing);
      var q := if anew then l.(failures := 0) else l;
      var r := if drops then q.(generation := l.generation + 1, jobs := Spoiled(l.jobs), timer := false) else q;
      Pumped(r.(current := Some(next)))
  }

  function Spoiled(jobs: seq<Job>): (r: seq<Job>)
    ensures |r| == |jobs|
  {
    seq(|jobs|, i requires 0 <= i < |jobs| => if jobs[i].Capturing? then jobs[i].(aborted := true, spoiled := true) else jobs[i])
  }

  function Disposed(l: Loop): Loop {
    l.(disposed := true, generation := l.generation + 1, timer := false, jobs := Spoiled(l.jobs))
  }

  /** The job's turn: every condition is checked again. */
  function Run(l: Loop, i: nat): Loop
    requires i < |l.jobs|
  {
    if !Needed(l) || Remaining(l) > 0 then l.(jobs := l.jobs[i := Over])
    else
      l.(lastStart := Some(l.clock), starts := l.starts + [l.clock],
         jobs := l.jobs[i := Capturing(KeyOf(l.current.value), l.generation, false, false)])
  }

  predicate Stale(l: Loop, job: Job) {
    job.Capturing? && (l.disposed || job.epoch != l.generation || l.current.None? || !l.current.value.eligible)
  }

  /** Why a capture counts as failed. */
  function Failing(l: Loop, job: Job): Loop
    requires job.Capturing?
  {
    if !l.disposed && job.epoch == l.generation && l.current.Some? && job.key == KeyOf(l.current.value)
    then l.(failures := l.failures + 1) else l
  }

  function Captured(l: Loop, i: nat, throws: bool): Loop
    requires i < |l.jobs| && l.jobs[i].Capturing?
  {
    var job := l.jobs[i];
    var q := if Stale(l, job) then l
             else
               var shown := l.(captured := Some(job.key), failures := 0, published := l.published + [(job.key, job.spoiled)]);
               if throws then Failing(shown, job) else shown;
    q.(jobs := l.jobs[i := Over])
  }

  function Broken(l: Loop, i: nat): Loop
    requires i < |l.jobs| && l.jobs[i].Capturing?
  {
    Failing(l, l.jobs[i]).(jobs := l.jobs[i := Over])
  }

  function Settled(l: Loop, i: nat): Loop
    requires i < |l.jobs|
  {
    Pumped(l.(pending := false, jobs := l.jobs[..i] + l.jobs[i + 1..]))
  }

  datatype Step =
    | Update(next: Row) | Dispose | Due
    | Turn(i: nat) | Success(i: nat, throws: bool) | Failure(i: nat) | Finish(i: nat)
    | Pass(now: int)

  predicate Enabled(l: Loop, step: Step) {
    match step
    case Due => l.timer
    case Turn(i) => i < |l.jobs| && l.jobs[i].Queued?
    case Success(i, _) => i < |l.jobs| && l.jobs[i].Capturing?
    case Failure(i) => i < |l.jobs| && l.jobs[i].Capturing?
    case Finish(i) => i < |l.jobs| && l.jobs[i].Over?
    case Pass(now) => now >= l.clock
    case _ => true
  }

  function Do(l: Loop, step: Step): Loop
    requires Enabled(l, step)
  {
    match step
    case Update(next) => Updated(l, next)
    case Dispose => Disposed(l)
    case Due => Pumped(l.(timer := false))
    case Turn(i) => Run(l, i)
    case Success(i, throws) => Captured(l, i, throws)
    case Failure(i) => Broken(l, i)
    case Finish(i) => Settled(l, i)
    case Pass(now) => l.(clock := now)
  }

  // ----- what every step keeps

  ghost predicate Spaced(starts: seq<int>) {
    forall i :: 0 < i < |starts| ==> starts[i - 1] + INTERVAL <= starts[i]
  }

  ghost predicate Honest(l: Loop, job: Job) {
    job.Capturing? ==>
      && job.epoch <= l.generation && (job.spoiled <==> job.epoch < l.generation) && (job.spoiled ==> job.aborted)
      && (job.epoch == l.generation ==> l.current.Some? && l.current.value.eligible && job.key.sizing == l.current.value.sizing)
      && (l.disposed ==> job.spoiled)
  }

  ghost predicate Valid(l: Loop) { Almost(l) && (Needed(l) ==> l.pending || l.timer) }

  /** All but that something is on its way: what a pump starts from. */
  ghost predicate Almost(l: Loop) {
    && |l.jobs| <= 1 && (l.pending <==> l.jobs != [])
    && !(l.timer && l.pending) && (l.disposed ==> !l.timer)
    && l.failures <= 2
    && (l.jobs != [] && l.jobs[0].Capturing? && l.jobs[0].key == KeyOf0(l) && l.jobs[0].epoch == l.generation ==> l.failures < 2)
    && (forall i :: 0 <= i < |l.jobs| ==> Honest(l, l.jobs[i]))
    && Spaced(l.starts)
    && (if l.lastStart.Some? then l.starts != [] && l.starts[|l.starts| - 1] == l.lastStart.value else l.starts == [])
    && (forall p :: p in l.published ==> !p.1)
    && (l.captured.Some? ==> l.published != [] && l.published[|l.published| - 1].0 == l.captured.value)
  }

  /** The key of the row, whatever it is when there is none. */
  function KeyOf0(l: Loop): Key { if l.current.Some? then KeyOf(l.current.value) else Key(0, 0) }

  lemma PumpKeeps(l: Loop)
    requires Almost(l)
    ensures Valid(Pumped(l))
  {
  }

  lemma UpdateKeeps(l: Loop, next: Row)
    requires Valid(l)
    ensures Valid(Updated(l, next))
  {
    assert l.failures <= 2;
    hide Valid, Almost, Pumped, Spoiled;
    if !l.disposed {
      var anew := l.current.None? || KeyOf(next) != KeyOf(l.current.value) || (!l.current.value.eligible && next.eligible);
      var failures := if anew then 0 else l.failures;
      if !next.eligible || (l.current.Some? && next.sizing != l.current.value.sizing) {
        var q := l.(failures := failures, generation := l.generation + 1, jobs := Spoiled(l.jobs), timer := false, current := Some(next));
        DropKeeps(l, next, failures);
        PumpKeeps(q);
        assert Updated(l, next) == Pumped(q);
      } else {
        var q := l.(failures := failures, current := Some(next));
        StayKeeps(l, next, failures);
        PumpKeeps(q);
        assert Updated(l, next) == Pumped(q);
      }
    }
  }

  lemma DropKeeps(l: Loop, next: Row, failures: nat)
    requires Valid(l) && !l.disposed && failures <= 2
    ensures Almost(l.(failures := failures, generation := l.generation + 1, jobs := Spoiled(l.jobs), timer := false, current := Some(next)))
  {
  }

  lemma StayKeeps(l: Loop, next: Row, failures: nat)
    requires Valid(l) && !l.disposed && next.eligible && (l.current.Some? ==> next.sizing == l.current.value.sizing)
    requires failures == 0 || (failures == l.failures && l.current.Some? && KeyOf(next) == KeyOf(l.current.value))
    ensures Almost(l.(failures := failures, current := Some(next)))
  {
  }

  lemma RunKeeps(l: Loop, i: nat)
    requires Valid(l) && i < |l.jobs|
    ensures Valid(Run(l, i))
  {
  }

  lemma CaptureKeeps(l: Loop, i: nat, throws: bool)
    requires Valid(l) && i < |l.jobs| && l.jobs[i].Capturing?
    ensures Valid(Captured(l, i, throws)) && Valid(Broken(l, i))
  {
    assert Honest(l, l.jobs[i]);
  }

  lemma SettleKeeps(l: Loop, i: nat)
    requires Valid(l) && i < |l.jobs|
    ensures Valid(Settled(l, i))
  {
    PumpKeeps(l.(pending := false, jobs := l.jobs[..i] + l.jobs[i + 1..]));
  }

  lemma StepKeeps(l: Loop, step: Step)
    requires Valid(l) && Enabled(l, step)
    ensures Valid(Do(l, step))
  {
    match step
    case Update(next) => UpdateKeeps(l, next);
    case Dispose => DisposeKeeps(l);
    case Due => PumpKeeps(l.(timer := false));
    case Turn(i) => RunKeeps(l, i);
    case Success(i, throws) => CaptureKeeps(l, i, throws);
    case Failure(i) => CaptureKeeps(l, i, false);
    case Finish(i) => SettleKeeps(l, i);
    case Pass(now) =>
  }

  lemma DisposeKeeps(l: Loop)
    requires Valid(l)
    ensures Valid(Disposed(l))
  {
  }

  // ----- runs

  ghost predicate Possible(l: Loop, steps: seq<Step>)
    decreases |steps|
  {
    steps != [] ==> Enabled(l, steps[0]) && Possible(Do(l, steps[0]), steps[1..])
  }

  ghost function After(l: Loop, steps: seq<Step>): Loop
    requires Possible(l, steps)
    decreases |steps|
  {
    if steps == [] then l else After(Do(l, steps[0]), steps[1..])
  }

  lemma {:induction false} AlwaysValid(l: Loop, steps: seq<Step>)
    requires Valid(l) && Possible(l, steps)
    ensures Valid(After(l, steps))
    decreases |steps|
  {
    if steps != [] {
      StepKeeps(l, steps[0]);
      AlwaysValid(Do(l, steps[0]), steps[1..]);
    }
  }

  /** In every run at most one job is queued or running. No update is lost: while a picture is
      needed a job or the timer is there, so a loop at rest last published its current row. */
  lemma NoLostUpdate(allowed: bool, clock: int, steps: seq<Step>)
    requires Possible(Start(allowed, clock), steps)
    ensures var l := After(Start(allowed, clock), steps);
      && |l.jobs| <= 1
      && (Needed(l) ==> l.jobs != [] || l.timer)
      && (l.jobs == [] && !l.timer && !l.disposed && l.current.Some? && l.current.value.eligible && l.allowed && l.failures < 2
          ==> l.published != [] && l.published[|l.published| - 1].0 == KeyOf(l.current.value))
  {
    AlwaysValid(Start(allowed, clock), steps);
  }

  lemma {:induction false} SpacedApart(starts: seq<int>, i: nat, j: nat)
    requires Spaced(starts) && i < j < |starts|
    ensures starts[i] + INTERVAL * (j - i) <= starts[j]
    decreases j
  {
    if i + 1 < j { SpacedApart(starts, i, j - 1); }
  }

  /** Captures start at least three seconds apart. */
  lemma CapturesSpaced(allowed: bool, clock: int, steps: seq<Step>, i: nat, j: nat)
    requires Possible(Start(allowed, clock), steps) && i < j < |After(Start(allowed, clock), steps).starts|
    ensures After(Start(allowed, clock), steps).starts[i] + 3000 * (j - i) <= After(Start(allowed, clock), steps).starts[j]
  {
    AlwaysValid(Start(allowed, clock), steps);
    SpacedApart(After(Start(allowed, clock), steps).starts, i, j);
  }

  /** No picture is published of a row that was resized, made ineligible or disposed since its
      capture began, and such a capture has been aborted. */
  lemma NothingStale(allowed: bool, clock: int, steps: seq<Step>, i: nat)
    requires Possible(Start(allowed, clock), steps)
    ensures var l := After(Start(allowed, clock), steps);
      && (i < |l.published| ==> !l.published[i].1)
      && (i < |l.jobs| && l.jobs[i].Capturing? && l.jobs[i].spoiled ==> l.jobs[i].aborted)
  {
    AlwaysValid(Start(allowed, clock), steps);
  }

  /** After dispose nothing more is published, started or armed. */
  lemma {:induction false} DisposedIsFinal(l: Loop, steps: seq<Step>)
    requires Valid(l) && l.disposed && Possible(l, steps)
    ensures var q := After(l, steps);
      q.disposed && q.published == l.published && q.starts == l.starts && !q.timer && |q.jobs| <= |l.jobs|
    decreases |steps|
  {
    if steps != [] {
      StepKeeps(l, steps[0]);
      DisposedIsFinal(Do(l, steps[0]), steps[1..]);
    }
  }

  // ----- what each step does

  /** Nothing started in the last three seconds. */
  ghost predicate Rested(l: Loop) { forall t :: t in l.starts ==> t + 3000 <= l.clock }

  lemma RestedIs(l: Loop)
    requires Valid(l)
    ensures Rested(l) <==> Remaining(l) <= 0
  {
    if l.lastStart.Some? {
      var n := |l.starts| - 1;
      forall t | t in l.starts ensures t <= l.starts[n] {
        var i :| 0 <= i < |l.starts| && l.starts[i] == t;
        if i < n { SpacedApart(l.starts, i, n); }
      }
      assert l.starts[n] in l.starts;
    }
  }

  /** A job's turn captures the row as it is now, exactly when its picture is still needed and
      nothing started in the last three seconds. */
  lemma TurnsExactly(l: Loop, i: nat)
    requires Valid(l) && i < |l.jobs| && l.jobs[i].Queued?
    ensures Enabled(l, Turn(i))
    ensures var q := Do(l, Turn(i));
      var starts := !l.disposed && l.allowed && l.current.Some? && l.current.value.eligible && l.failures < 2
        && l.captured != Some(KeyOf(l.current.value)) && Rested(l);
      && q.published == l.published && q.failures == l.failures && |q.jobs| == |l.jobs|
      && q.starts == (if starts then l.starts + [l.clock] else l.starts)
      && q.jobs[i] == (if starts then Capturing(KeyOf(l.current.value), l.generation, false, false) else Over)
  {
    RestedIs(l);
  }

  /** A capture's picture is published exactly when nothing gave it up; it fails otherwise only
      if the row still wants it, and then counts. */
  lemma CapturesExactly(l: Loop, i: nat, throws: bool)
    requires Valid(l) && i < |l.jobs| && l.jobs[i].Capturing?
    ensures Enabled(l, Success(i, throws)) && Enabled(l, Failure(i))
    ensures var job, shown, broken := l.jobs[i], Do(l, Success(i, throws)), Do(l, Failure(i));
      var current := !job.spoiled && job.key == KeyOf0(l);
      && shown.published == l.published + (if job.spoiled then [] else [(job.key, false)])
      && (!job.spoiled ==> shown.captured == Some(job.key) && shown.failures == if throws && current then 1 else 0)
      && (job.spoiled ==> shown.captured == l.captured && shown.failures == l.failures)
      && broken.published == l.published && broken.captured == l.captured
      && broken.failures == l.failures + (if current then 1 else 0)
      && shown.jobs[i] == Over && broken.jobs[i] == Over
  {
    assert Honest(l, l.jobs[i]);
  }

  /** An update gives up a running capture exactly when the row may not be shown or has
      another size, and forgets the failures exactly when the picture wanted is another one. */
  lemma UpdatesExactly(l: Loop, next: Row)
    requires Valid(l) && !l.disposed
    ensures var q := Do(l, Update(next));
      var resized := l.current.Some? && next.sizing != l.current.value.sizing;
      && q.current == Some(next) && q.published == l.published && q.captured == l.captured && q.starts == l.starts
      && |l.jobs| <= |q.jobs|
      && (forall i :: 0 <= i < |l.jobs| ==>
            var gone := l.jobs[i].Capturing? && (!next.eligible || resized);
            q.jobs[i] == if gone then l.jobs[i].(aborted := true, spoiled := true) else l.jobs[i])
      && q.failures ==
        (if l.current.Some? && KeyOf(next) == KeyOf(l.current.value) && (next.eligible ==> l.current.value.eligible)
         then l.failures else 0)
  {
  }

  lemma OneMore(l: Loop, step: Step, steps: seq<Step>)
    requires Enabled(l, step) && Possible(Do(l, step), steps)
    ensures Possible(l, [step] + steps) && After(l, [step] + steps) == After(Do(l, step), steps)
  {
    assert ([step] + steps)[1..] == steps;
  }

  ghost predicate Shows(l: Loop, key: Key) { l.published != [] && l.published[|l.published| - 1].0 == key }

  predicate Wanted(l: Loop, job: Job) { job.Capturing? && !job.spoiled && job.key == KeyOf0(l) }

  /** How many steps the picture is away. */
  function Rank(l: Loop): (r: nat)
    ensures r >= 1
  {
    if l.jobs == [] then (if Remaining(l) > 0 then 4 else 3)
    else if l.jobs[0].Queued? then (if Remaining(l) > 0 then 3 else 2)
    else if l.jobs[0].Over? then 5
    else if Wanted(l, l.jobs[0]) then 1 else 6
  }

  /** The next one of them. */
  function Towards(l: Loop): Step {
    if (l.jobs == [] || l.jobs[0].Queued?) && Remaining(l) > 0 then Pass(l.clock + Remaining(l))
    else if l.jobs == [] then Due
    else if l.jobs[0].Queued? then Turn(0)
    else if l.jobs[0].Over? then Finish(0)
    else Success(0, false)
  }

  lemma StepsTowards(l: Loop)
    requires Valid(l) && Needed(l)
    ensures Enabled(l, Towards(l))
    ensures var q := Do(l, Towards(l));
      && q.current == l.current
      && (Rank(l) == 1 ==> Shows(q, KeyOf(l.current.value)))
      && (Rank(l) > 1 ==> Needed(q) && Rank(q) < Rank(l))
  {
    if l.jobs != [] { assert Honest(l, l.jobs[0]); }
  }

  /** A picture that is needed can always be had. */
  lemma {:induction false} CanPublish(l: Loop) returns (steps: seq<Step>)
    requires Valid(l) && Needed(l)
    ensures Possible(l, steps) && Shows(After(l, steps), KeyOf(l.current.value))
    decreases Rank(l)
  {
    hide Do, Enabled, Rank, Towards;
    var step := Towards(l);
    StepsTowards(l);
    StepKeeps(l, step);
    var rest := [];
    if Rank(l) > 1 { rest := CanPublish(Do(l, step)); }
    OneMore(l, step, rest);
    steps := [step] + rest;
  }

  /** So the first picture of a row that may be shown can be had. */
  lemma FirstPicture(clock: int, row: Row) returns (steps: seq<Step>)
    requires row.eligible
    ensures Possible(Start(true, clock), [Update(row)] + steps)
    ensures Shows(After(Start(true, clock), [Update(row)] + steps), KeyOf(row))
  {
    var l := Start(true, clock);
    StepKeeps(l, Update(row));
    steps := CanPublish(Do(l, Update(row)));
    OneMore(l, Update(row), steps);
  }

  // ----- the scheduler in place

  class Scheduler {
    const allowed: bool
    var current: Option<Row>
    var captured: Option<Key>
    var pending: bool
    var disposed: bool
    var timer: bool
    var lastStart: Option<int>
    var failures: nat
    var generation: nat
    var jobs: seq<Job>
    var clock: int
    ghost var starts: seq<int>
    ghost var published: seq<(Key, bool)>

    ghost function Model(): Loop
      reads this
    {
      Loop(allowed, current, captured, pending, disposed, timer, lastStart, failures, generation, jobs, clock, starts, published)
    }

    constructor (allowed: bool, clock: int)
      ensures Model() == Start(allowed, clock)
    {
      this.allowed, this.clock := allowed, clock;
      current, captured, pending, disposed, timer, lastStart, failures, generation := None, None, false, false, false, None, 0, 0;
      jobs, starts, published := [], [], [];
    }

    method IsNeeded() returns (r: bool)
      ensures r <==> Needed(Model())
    {
      r := !disposed && current.Some? && current.value.eligible && captured != Some(KeyOf(current.value)) && failures < 2 && allowed;
    }

    method Pump()
      modifies `timer, `pending, `jobs
      ensures Model() == Pumped(old(Model()))
    {
      var needed := IsNeeded();
      if !needed || pending || timer { return; }
      if lastStart.Some? && lastStart.value + INTERVAL - clock > 0 {
        timer := true;
        return;
      }
      pending := true;
      jobs := jobs + [Queued];
    }

    method Update(next: Row)
      modifies `failures, `generation, `jobs, `timer, `current, `pending
      ensures Model() == Updated(old(Model()), next)
    {
      hide Pumped, Spoiled;
      if disposed { return; }
      if current.None? || KeyOf(next) != KeyOf(current.value) || (!current.value.eligible && next.eligible) { failures := 0; }
      if !next.eligible || (current.Some? && next.sizing != current.value.sizing) {
        generation := generation + 1;
        jobs := Spoiled(jobs);
        timer := false;
      }
      current := Some(next);
      Pump();
    }

    method Dispose()
      modifies this
      ensures Model() == Disposed(old(Model()))
    {
      disposed := true;
      generation := generation + 1;
      timer := false;
      jobs := Spoiled(jobs);
    }

    /** The job's turn in the shared queue; whether it captures. */
    method Begin(i: nat) returns (captures: bool)
      requires i < |jobs|
      modifies this
      ensures Model() == Run(old(Model()), i)
      ensures captures ==> Needed(old(Model()))
    {
      var needed := IsNeeded();
      if !needed || (lastStart.Some? && clock < lastStart.value + INTERVAL) {
        jobs := jobs[i := Over];
        return false;
      }
      jobs := jobs[i := Capturing(KeyOf(current.value), generation, false, false)];
      lastStart := Some(clock);
      starts := starts + [clock];
      captures := true;
    }

    method Succeed(i: nat, throws: bool) returns (shown: bool)
      requires i < |jobs| && jobs[i].Capturing?
      modifies this
      ensures Model() == Captured(old(Model()), i, throws)
    {
      var job := jobs[i];
      jobs := jobs[i := Over];
      shown := !(disposed || job.epoch != generation || current.None? || !current.value.eligible);
      if shown {
        captured := Some(job.key);
        failures := 0;
        published := published + [(job.key, job.spoiled)];
        if throws && job.key == KeyOf(current.value) { failures := failures + 1; }
      }
    }

    method Settle(i: nat)
      requires i < |jobs|
      modifies this
      ensures Model() == Settled(old(Model()), i)
    {
      jobs := jobs[..i] + jobs[i + 1..];
      pending := false;
      Pump();
    }
  }
}
