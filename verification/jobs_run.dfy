/** The scheduler loop over jobs: every interleaving of registrations, task endings,
    joins, prunes and starts, and what each of them keeps. */
module JobsRun {
  import opened Common
  import opened Rotation
  import opened Jobs

  datatype Ending = Alive | Completed(outcome: Outcome) | Failed
  /** `born` is how many readers had registered when the task started. */
  datatype Task = Task(id: JobId, born: nat, ending: Ending)

  /** Where a registered reader is. The last two are final. */
  datatype Place =
    | Waiting(id: JobId)
    | Sharing(id: JobId)
    | Replied(id: JobId, outcome: Outcome, born: nat)
    | Dropped

  datatype Seat = Seat(reader: Reader, place: Place)

  /** `seats[n]` is the n-th registered reader and its place. `pruned` is set between a
      prune and the next registration or join; `broken` if a pick found an id without a job. */
  datatype Run = Run(
    jobs: State, tasks: map<nat, Task>, spawned: nat, seats: seq<Seat>, pruned: bool, broken: bool)

  const START := Run(EMPTY, map[], 0, [], true, false)

  datatype Step =
    | Register(id: JobId, application: Application, token: nat)
    | End(task: nat, ending: Ending)
    | Join(task: nat)
    | Prune(live: set<Reader>)
    | Launch

  predicate Enabled(r: Run, step: Step) {
    match step
    case Register(_, _, _) => true
    case End(task, ending) => task in r.tasks && r.tasks[task].ending.Alive? && !ending.Alive?
    case Join(task) => task in r.tasks && !r.tasks[task].ending.Alive?
    case Prune(_) => true
    case Launch => r.pruned
  }

  predicate IsFinished(r: Run, id: JobId) {
    && id in r.jobs.active && r.jobs.active[id].task in r.tasks
    && !r.tasks[r.jobs.active[id].task].ending.Alive?
  }

  /** Where a reader registering now goes. */
  function Arrival(r: Run, id: JobId): Place {
    if id.Refresh? && id.cell in r.jobs.cells then Replied(id, r.jobs.cells[id.cell], |r.seats|)
    else if Joins(r.jobs, id, IsFinished(r, id)) then Sharing(id)
    else Waiting(id)
  }

  function Registered(r: Run, id: JobId, application: Application, token: nat): Run {
    var reader := Reader(|r.seats|, token);
    r.(jobs := Pushed(r.jobs, id, application, reader, IsFinished(r, id)),
       seats := r.seats + [Seat(reader, Arrival(r, id))], pruned := false)
  }

  function Moved(seats: seq<Seat>, to: Seat -> Place): (moved: seq<Seat>)
    ensures |moved| == |seats|
    ensures forall n :: 0 <= n < |seats| ==> moved[n] == seats[n].(place := to(seats[n]))
  {
    seq(|seats|, n requires 0 <= n < |seats| => seats[n].(place := to(seats[n])))
  }

  function Answer(id: JobId, outcome: Outcome, born: nat): Seat -> Place {
    (x: Seat) => if x.place == Sharing(id) || (id.Refresh? && x.place == Waiting(id)) then Replied(id, outcome, born) else x.place
  }

  function Close(id: JobId): Seat -> Place {
    (x: Seat) => if x.place == Sharing(id) then Dropped else x.place
  }

  function Sweep(live: set<Reader>): Seat -> Place {
    (x: Seat) => if (x.place.Waiting? || x.place.Sharing?) && x.reader !in live then Dropped else x.place
  }

  function Seize(id: JobId): Seat -> Place {
    (x: Seat) => if x.place == Waiting(id) then Sharing(id) else x.place
  }

  function Collected(r: Run, task: nat): Run
    requires task in r.tasks
  {
    var t := r.tasks[task];
    var rest := r.(tasks := r.tasks - {task}, pruned := false);
    if t.ending.Completed? then
      if t.id in r.jobs.active then
        rest.(jobs := Finished(r.jobs, t.id, t.ending.outcome),
              seats := Moved(r.seats, Answer(t.id, t.ending.outcome, t.born)))
      else rest
    else rest.(jobs := Lost(r.jobs, task), seats := Moved(r.seats, Close(t.id)))
  }

  function Swept(r: Run, live: set<Reader>): Run {
    r.(jobs := Pruned(r.jobs, live), pruned := true, seats := Moved(r.seats, Sweep(live)))
  }

  function Launched(r: Run): Run {
    if !(Covered(r.jobs) && Listed(r.jobs)) then r.(broken := true)
    else if Chosen(r.jobs).None? then r
    else
      LaunchedAt(r, Chosen(r.jobs).value, Turned(r.jobs))
  }

  /** The job at `i` of the order starts in a new task. */
  function LaunchedAt(r: Run, i: nat, tokens: seq<nat>): Run
    requires i < |r.jobs.order| && r.jobs.order[i] in r.jobs.queued
  {
    var id := r.jobs.order[i];
    r.(jobs := TakenAt(r.jobs, i, tokens, r.spawned), spawned := r.spawned + 1,
       tasks := r.tasks[r.spawned := Task(id, |r.seats|, Alive)],
       seats := Moved(r.seats, Seize(id)))
  }

  function Do(r: Run, step: Step): Run
    requires Enabled(r, step)
  {
    match step
    case Register(id, application, token) => Registered(r, id, application, token)
    case End(task, ending) => r.(tasks := r.tasks[task := r.tasks[task].(ending := ending)])
    case Join(task) => Collected(r, task)
    case Prune(live) => Swept(r, live)
    case Launch => Launched(r)
  }

  // ----- what every step keeps

  /** `order` lists the queued jobs once each; an extra id is a refresh already answered. */
  ghost predicate Orderly(s: State) {
    && Distinct(s.order) && Distinct(s.tokens)
    && Listed(s)
    && (forall id :: id in s.order && id !in s.queued ==> id.Refresh? && id.cell in s.cells)
    && (forall id :: id in s.queued ==> s.queued[id].readers != [])
    && (forall c :: c in s.cells ==> Refresh(c) !in s.queued && Refresh(c) !in s.active)
  }

  ghost predicate Capped(active: map<JobId, Running>) {
    forall id :: |OfKind(active, id)| <= KindCap(id)
      && forall a :: |OfApplication(active, id, a)| <= ApplicationCap(id)
  }

  /** One task per active job, and the other way round. */
  ghost predicate Matched(r: Run) {
    && (forall id :: id in r.jobs.active ==>
          r.jobs.active[id].task in r.tasks && r.tasks[r.jobs.active[id].task].id == id)
    && (forall t :: t in r.tasks ==>
          t < r.spawned && r.tasks[t].id in r.jobs.active && r.jobs.active[r.tasks[t].id].task == t)
  }

  ghost predicate Held(seats: seq<Seat>, readers: seq<Reader>, place: Place) {
    && Distinct(readers)
    && forall x :: x in readers ==> x.id < |seats| && seats[x.id] == Seat(x, place)
  }

  /** A reader is in the one job its place names, and nowhere else. */
  ghost predicate Placed(s: State, seats: seq<Seat>) {
    && (forall n :: 0 <= n < |seats| ==> seats[n].reader.id == n)
    && (forall id :: id in s.queued ==> Held(seats, s.queued[id].readers, Waiting(id)))
    && (forall id :: id in s.active ==> Held(seats, s.active[id].job.readers, Sharing(id)))
    && Seated(s, seats)
  }

  ghost predicate Seated(s: State, seats: seq<Seat>) {
    && (forall x :: x in seats && x.place.Waiting? ==> x.place.id in s.queued && x.reader in s.queued[x.place.id].readers)
    && (forall x :: x in seats && x.place.Sharing? ==> x.place.id in s.active && x.reader in s.active[x.place.id].job.readers)
  }

  /** Scans only answer readers older than themselves, and refreshes what their cell holds. */
  ghost predicate Fresh(r: Run) {
    && (forall id, x :: id in r.jobs.active && id.Scan? && x in r.jobs.active[id].job.readers ==>
          r.jobs.active[id].task in r.tasks && x.id < r.tasks[r.jobs.active[id].task].born)
    && (forall x :: x in r.seats && x.place.Replied? ==>
          if x.place.id.Scan? then x.reader.id < x.place.born
          else x.place.id.cell in r.jobs.cells && r.jobs.cells[x.place.id.cell] == x.place.outcome)
  }

  /** The replies sent are those of the places, one for each replied reader. */
  ghost predicate Answered(replies: seq<Reply>, seats: seq<Seat>) {
    && (forall i, j :: 0 <= i < j < |replies| ==> replies[i].reader != replies[j].reader)
    && (forall y :: y in replies ==> Told(y, seats))
    && (forall x :: x in seats && x.place.Replied? ==> Reply(x.reader, x.place.id, x.place.outcome) in replies)
  }

  ghost predicate Told(y: Reply, seats: seq<Seat>) {
    && y.reader.id < |seats|
    && seats[y.reader.id].reader == y.reader
    && seats[y.reader.id].place.Replied?
    && seats[y.reader.id].place.id == y.job && seats[y.reader.id].place.outcome == y.outcome
  }

  ghost predicate Valid(r: Run) {
    && !r.broken
    && (r.pruned ==> Covered(r.jobs))
    && Orderly(r.jobs) && Capped(r.jobs.active) && Matched(r)
    && Placed(r.jobs, r.seats) && Fresh(r) && Answered(r.jobs.replies, r.seats)
  }

  // ----- caps

  lemma SameLoad(a: map<JobId, Running>, b: map<JobId, Running>)
    requires a.Keys == b.Keys
    requires forall id :: id in a ==> a[id].job.application == b[id].job.application
    requires Capped(a)
    ensures Capped(b)
  {
    forall id ensures OfKind(a, id) == OfKind(b, id) {}
    forall id, p ensures OfApplication(a, id, p) == OfApplication(b, id, p) {}
  }

  lemma LessLoad(a: map<JobId, Running>, b: map<JobId, Running>)
    requires forall id :: id in b ==> id in a && a[id] == b[id]
    requires Capped(a)
    ensures Capped(b)
  {
    forall id ensures |OfKind(b, id)| <= KindCap(id) { Fewer(OfKind(b, id), OfKind(a, id)); }
    forall id, p ensures |OfApplication(b, id, p)| <= ApplicationCap(id) {
      Fewer(OfApplication(b, id, p), OfApplication(a, id, p));
    }
  }

  lemma KindGrows(a: map<JobId, Running>, id: JobId, started: Running, o: JobId)
    ensures OfKind(a[id := started], o) == if SameKind(o, id) then OfKind(a, id) + {id} else OfKind(a, o)
  {
  }

  lemma ApplicationGrows(a: map<JobId, Running>, id: JobId, started: Running, o: JobId, p: Application)
    requires id !in a
    ensures OfApplication(a[id := started], o, p) ==
      if SameKind(o, id) && p == started.job.application then OfApplication(a, id, p) + {id} else OfApplication(a, o, p)
  {
  }

  lemma KindLoad(a: map<JobId, Running>, id: JobId, started: Running, o: JobId)
    requires Capped(a) && |OfKind(a, id)| < KindCap(id)
    ensures |OfKind(a[id := started], o)| <= KindCap(o)
  {
    hide OfKind;
    KindGrows(a, id, started, o);
  }

  lemma ApplicationLoad(a: map<JobId, Running>, id: JobId, started: Running, o: JobId, p: Application)
    requires Capped(a) && id !in a
    requires |OfApplication(a, id, started.job.application)| < ApplicationCap(id)
    ensures |OfApplication(a[id := started], o, p)| <= ApplicationCap(o)
  {
    hide OfApplication;
    ApplicationGrows(a, id, started, o, p);
  }

  lemma MoreLoad(a: map<JobId, Running>, id: JobId, started: Running)
    requires Capped(a) && id !in a
    requires |OfKind(a, id)| < KindCap(id)
    requires |OfApplication(a, id, started.job.application)| < ApplicationCap(id)
    ensures Capped(a[id := started])
  {
    var b := a[id := started];
    forall o ensures |OfKind(b, o)| <= KindCap(o) { KindLoad(a, id, started, o); }
    forall o, p ensures |OfApplication(b, o, p)| <= ApplicationCap(o) { ApplicationLoad(a, id, started, o, p); }
  }

  // ----- one step at a time

  lemma PushedListed(s: State, id: JobId, application: Application, reader: Reader, finished: bool)
    requires Listed(s)
    ensures Listed(Pushed(s, id, application, reader, finished))
  {
    var q := Pushed(s, id, application, reader, finished);
    forall o, x | o in q.queued && x in q.queued[o].readers ensures x.token in q.tokens {
      if x != reader { assert o in s.queued && x in s.queued[o].readers; }
    }
  }

  lemma PushedOrder(s: State, id: JobId, application: Application, reader: Reader, finished: bool)
    requires Orderly(s)
    ensures var q := Pushed(s, id, application, reader, finished);
      Distinct(q.order) && forall o :: o in q.order && o !in q.queued ==> o.Refresh? && o.cell in q.cells
  {
    hide Listed, Apply;
    if id !in s.queued && !(id.Refresh? && id.cell in s.cells) { assert Distinct(s.order + [id]); }
  }

  lemma PushedOrderly(s: State, id: JobId, application: Application, reader: Reader, finished: bool)
    requires Orderly(s)
    ensures Orderly(Pushed(s, id, application, reader, finished))
  {
    hide Listed, Apply, Distinct;
    PushedListed(s, id, application, reader, finished);
    DistinctApply(s.tokens, Arrive(reader.token));
    PushedOrder(s, id, application, reader, finished);
  }

  lemma PushedLoad(s: State, id: JobId, application: Application, reader: Reader, finished: bool)
    requires Capped(s.active)
    ensures Capped(Pushed(s, id, application, reader, finished).active)
  {
    hide Capped;
    SameLoad(s.active, Pushed(s, id, application, reader, finished).active);
  }

  lemma RegisterMatched(r: Run, id: JobId, application: Application, token: nat)
    requires Matched(r)
    ensures Matched(Registered(r, id, application, token))
  {
  }

  /** A new last seat changes no other; a list that gains its reader is still held. */
  lemma HeldMore(seats: seq<Seat>, readers: seq<Reader>, place: Place, x: Seat)
    requires Held(seats, readers, place)
    ensures Held(seats + [x], readers, place)
    ensures x.reader.id == |seats| && x.place == place ==> Held(seats + [x], readers + [x.reader], place)
  {
  }

  lemma RegisterHeld(r: Run, q: Run, id: JobId, application: Application, token: nat, seat: Seat)
    requires Placed(r.jobs, r.seats) && q == Registered(r, id, application, token) && seat == Seat(Reader(|r.seats|, token), Arrival(r, id))
    ensures forall o :: o in q.jobs.queued ==> Held(q.seats, q.jobs.queued[o].readers, Waiting(o))
    ensures forall o :: o in q.jobs.active ==> Held(q.seats, q.jobs.active[o].job.readers, Sharing(o))
  {
    hide Seated, Held;
    assert q.seats == r.seats + [seat];
    forall o | o in q.jobs.queued ensures Held(q.seats, q.jobs.queued[o].readers, Waiting(o)) {
      if o !in r.jobs.queued { NoneHeld(r.seats, Waiting(o)); }
      HeldMore(r.seats, if o in r.jobs.queued then r.jobs.queued[o].readers else [], Waiting(o), seat);
    }
    forall o | o in q.jobs.active ensures Held(q.seats, q.jobs.active[o].job.readers, Sharing(o)) {
      HeldMore(r.seats, r.jobs.active[o].job.readers, Sharing(o), seat);
    }
  }

  lemma NoneHeld(seats: seq<Seat>, place: Place)
    ensures Held(seats, [], place)
  {
  }

  lemma RegisterSeated(r: Run, q: Run, id: JobId, application: Application, token: nat)
    requires Seated(r.jobs, r.seats) && q == Registered(r, id, application, token)
    ensures Seated(q.jobs, q.seats)
  {
    var seat := Seat(Reader(|r.seats|, token), Arrival(r, id));
    assert forall x :: x in q.seats <==> x in r.seats || x == seat;
  }

  lemma RegisterPlaced(r: Run, id: JobId, application: Application, token: nat)
    requires Placed(r.jobs, r.seats)
    ensures Placed(Registered(r, id, application, token).jobs, Registered(r, id, application, token).seats)
  {
    hide Seated, Held;
    var q := Registered(r, id, application, token);
    RegisterHeld(r, q, id, application, token, Seat(Reader(|r.seats|, token), Arrival(r, id)));
    RegisterSeated(r, q, id, application, token);
  }

  lemma RegisterAnswered(r: Run, id: JobId, application: Application, token: nat)
    requires Valid(r)
    ensures Fresh(Registered(r, id, application, token))
    ensures Answered(Registered(r, id, application, token).jobs.replies, Registered(r, id, application, token).seats)
  {
    var q := Registered(r, id, application, token);
    var seat := Seat(Reader(|r.seats|, token), Arrival(r, id));
    assert forall x :: x in q.seats <==> x in r.seats || x == seat;
    forall y | y in q.jobs.replies ensures Told(y, q.seats) {
      if y in r.jobs.replies { assert Told(y, r.seats); }
    }
    forall i, j | 0 <= i < j < |q.jobs.replies| ensures q.jobs.replies[i].reader != q.jobs.replies[j].reader {
      assert r.jobs.replies[i] in r.jobs.replies;
    }
  }

  lemma RegisterKeeps(r: Run, id: JobId, application: Application, token: nat)
    requires Valid(r)
    ensures Valid(Registered(r, id, application, token))
  {
    PushedOrderly(r.jobs, id, application, Reader(|r.seats|, token), IsFinished(r, id));
    PushedLoad(r.jobs, id, application, Reader(|r.seats|, token), IsFinished(r, id));
    RegisterMatched(r, id, application, token);
    RegisterPlaced(r, id, application, token);
    RegisterAnswered(r, id, application, token);
  }

  lemma SweepOrderly(r: Run, live: set<Reader>)
    requires Valid(r)
    ensures Covered(Pruned(r.jobs, live)) && Orderly(Pruned(r.jobs, live))
    ensures Capped(Pruned(r.jobs, live).active) && Matched(Swept(r, live))
  {
    var s, q := r.jobs, Pruned(r.jobs, live);
    SameLoad(s.active, q.active);
    DistinctApply(s.tokens, Retain(Wanted(q.queued)));
    KeepDistinct(s.order, q.queued.Keys);
    forall id, x | id in q.queued && x in q.queued[id].readers ensures x.token in q.tokens {
      assert id in s.queued && x in s.queued[id].readers;
      assert x.token in Wanted(q.queued);
    }
  }

  lemma HeldSwept(seats: seq<Seat>, readers: seq<Reader>, place: Place, live: set<Reader>)
    requires Held(seats, readers, place)
    ensures Held(Moved(seats, Sweep(live)), Keep(readers, live), place)
  {
    KeepDistinct(readers, live);
  }

  lemma SweepPlaced(r: Run, live: set<Reader>)
    requires Valid(r)
    ensures Placed(Pruned(r.jobs, live), Swept(r, live).seats)
  {
    var s, q, seats := r.jobs, Pruned(r.jobs, live), Swept(r, live).seats;
    forall o | o in q.queued ensures Held(seats, q.queued[o].readers, Waiting(o)) {
      HeldSwept(r.seats, s.queued[o].readers, Waiting(o), live);
    }
    forall o | o in q.active ensures Held(seats, q.active[o].job.readers, Sharing(o)) {
      HeldSwept(r.seats, s.active[o].job.readers, Sharing(o), live);
    }
    forall x | x in seats && x.place.Waiting?
      ensures x.place.id in q.queued && x.reader in q.queued[x.place.id].readers
    {
      assert x in r.seats;
      assert x.reader in Keep(s.queued[x.place.id].readers, live);
    }
    forall x | x in seats && x.place.Sharing?
      ensures x.place.id in q.active && x.reader in q.active[x.place.id].job.readers
    {
      assert x in r.seats;
    }
  }

  /** Replies survive a move that leaves replied seats alone. */
  lemma AnsweredMoved(replies: seq<Reply>, seats: seq<Seat>, to: Seat -> Place)
    requires Answered(replies, seats)
    requires forall x: Seat :: x.place.Replied? ==> to(x) == x.place
    requires forall x: Seat :: to(x).Replied? ==> x.place.Replied?
    ensures Answered(replies, Moved(seats, to))
  {
    var q := Moved(seats, to);
    forall y | y in replies ensures Told(y, q) { assert Told(y, seats); }
    forall x | x in q && x.place.Replied? ensures Reply(x.reader, x.place.id, x.place.outcome) in replies {
      var n :| 0 <= n < |q| && q[n] == x;
      assert seats[n] in seats && seats[n] == x;
    }
  }

  lemma SweepKeeps(r: Run, live: set<Reader>)
    requires Valid(r)
    ensures Valid(Swept(r, live))
  {
    SweepOrderly(r, live);
    SweepPlaced(r, live);
    AnsweredMoved(r.jobs.replies, r.seats, Sweep(live));
    var q := Swept(r, live);
    forall x | x in q.seats && x.place.Replied? ensures x in r.seats {}
    assert Fresh(q);
  }

  lemma LostOrderly(r: Run, task: nat)
    requires Valid(r) && task in r.tasks
    ensures Lost(r.jobs, task).active == r.jobs.active - {r.tasks[task].id}
    ensures Orderly(Lost(r.jobs, task)) && Capped(Lost(r.jobs, task).active)
    ensures Matched(r.(tasks := r.tasks - {task}, jobs := Lost(r.jobs, task)))
  {
    LessLoad(r.jobs.active, Lost(r.jobs, task).active);
  }

  lemma HeldMoved(seats: seq<Seat>, readers: seq<Reader>, place: Place, to: Seat -> Place)
    requires Held(seats, readers, place)
    requires forall x: Seat :: x.place == place ==> to(x) == place
    ensures Held(Moved(seats, to), readers, place)
  {
  }

  lemma LostKeeps(r: Run, task: nat)
    requires Valid(r) && task in r.tasks && !r.tasks[task].ending.Completed?
    ensures Valid(Collected(r, task))
  {
    LostOrderly(r, task);
    var q, id := Collected(r, task), r.tasks[task].id;
    AnsweredMoved(r.jobs.replies, r.seats, Close(id));
    forall o | o in q.jobs.queued ensures Held(q.seats, q.jobs.queued[o].readers, Waiting(o)) {
      HeldMoved(r.seats, q.jobs.queued[o].readers, Waiting(o), Close(id));
    }
    forall o | o in q.jobs.active ensures Held(q.seats, q.jobs.active[o].job.readers, Sharing(o)) {
      HeldMoved(r.seats, q.jobs.active[o].job.readers, Sharing(o), Close(id));
    }
    forall x | x in q.seats && !x.place.Dropped? ensures x in r.seats {}
  }

  lemma FinishOrderly(r: Run, task: nat)
    requires Valid(r) && task in r.tasks && r.tasks[task].ending.Completed?
    ensures Orderly(Collected(r, task).jobs) && Capped(Collected(r, task).jobs.active) && Matched(Collected(r, task))
  {
    LessLoad(r.jobs.active, Collected(r, task).jobs.active);
  }

  lemma FinishHeld(r: Run, q: Run, task: nat)
    requires Valid(r) && task in r.tasks && r.tasks[task].ending.Completed? && q == Collected(r, task)
    ensures forall n :: 0 <= n < |q.seats| ==> q.seats[n].reader.id == n
    ensures forall o :: o in q.jobs.queued ==> Held(q.seats, q.jobs.queued[o].readers, Waiting(o))
    ensures forall o :: o in q.jobs.active ==> Held(q.seats, q.jobs.active[o].job.readers, Sharing(o))
  {
    hide Held, Seated, Fresh, Answered, Orderly, Capped;
    var t := r.tasks[task];
    var to := Answer(t.id, t.ending.outcome, t.born);
    forall o | o in q.jobs.queued ensures Held(q.seats, q.jobs.queued[o].readers, Waiting(o)) {
      HeldMoved(r.seats, q.jobs.queued[o].readers, Waiting(o), to);
    }
    forall o | o in q.jobs.active ensures Held(q.seats, q.jobs.active[o].job.readers, Sharing(o)) {
      HeldMoved(r.seats, q.jobs.active[o].job.readers, Sharing(o), to);
    }
  }

  lemma FinishSeated(r: Run, q: Run, task: nat)
    requires Matched(r) && Seated(r.jobs, r.seats) && task in r.tasks && r.tasks[task].ending.Completed? && q == Collected(r, task)
    ensures Seated(q.jobs, q.seats)
  {
    forall x | x in q.seats && !x.place.Replied? ensures x in r.seats {}
  }

  lemma FinishFresh(r: Run, q: Run, task: nat)
    requires Matched(r) && Seated(r.jobs, r.seats) && Fresh(r) && task in r.tasks && r.tasks[task].ending.Completed? && q == Collected(r, task)
    requires r.tasks[task].id.Refresh? ==> r.tasks[task].id.cell !in r.jobs.cells
    ensures Fresh(q)
  {
    var t := r.tasks[task];
    forall x | x in q.seats && x.place.Replied? && x !in r.seats
      ensures x.place == Replied(t.id, t.ending.outcome, t.born) && (t.id.Scan? ==> x.reader.id < t.born)
    {
      var n :| 0 <= n < |q.seats| && q.seats[n] == x;
      assert r.seats[n] in r.seats;
    }
  }

  /** Every reader answered by a completed task, in the order in which it is answered. */
  function Reached(s: State, id: JobId): seq<Reader>
    requires id in s.active
  {
    LateReaders(s, id) + s.active[id].job.readers
  }

  lemma ReachedSeats(r: Run, id: JobId)
    requires Valid(r) && id in r.jobs.active
    ensures Distinct(Reached(r.jobs, id))
    ensures forall x :: x in r.seats ==>
      (x.reader in Reached(r.jobs, id) <==> x.place == Sharing(id) || (id.Refresh? && x.place == Waiting(id)))
    ensures forall y :: y in Reached(r.jobs, id) ==> y.id < |r.seats| && r.seats[y.id].reader == y
  {
    assert Held(r.seats, r.jobs.active[id].job.readers, Sharing(id));
    if id in r.jobs.queued { assert Held(r.seats, r.jobs.queued[id].readers, Waiting(id)); }
    var late, own := LateReaders(r.jobs, id), r.jobs.active[id].job.readers;
    assert forall y :: y in late ==> y !in own;
    forall x | x in r.seats && x.reader in Reached(r.jobs, id)
      ensures x.place == Sharing(id) || (id.Refresh? && x.place == Waiting(id))
    {
      var n :| 0 <= n < |r.seats| && r.seats[n] == x;
      assert r.seats[x.reader.id] == x;
    }
  }

  lemma AnsweredMore(replies: seq<Reply>, seats: seq<Seat>, readers: seq<Reader>, id: JobId, outcome: Outcome, born: nat)
    requires Answered(replies, seats)
    requires forall n :: 0 <= n < |seats| ==> seats[n].reader.id == n
    requires Distinct(readers)
    requires forall y :: y in readers ==> y.id < |seats| && seats[y.id].reader == y
    requires forall x :: x in seats ==>
      (x.reader in readers <==> x.place == Sharing(id) || (id.Refresh? && x.place == Waiting(id)))
    ensures Answered(replies + Replies(readers, id, outcome), Moved(seats, Answer(id, outcome, born)))
  {
    var more, q := Replies(readers, id, outcome), Moved(seats, Answer(id, outcome, born));
    var all := replies + more;
    forall y | y in all ensures Told(y, q) {
      if y in replies {
        assert Told(y, seats);
      } else {
        var i :| 0 <= i < |more| && more[i] == y;
        assert readers[i] in readers && seats[y.reader.id] in seats;
      }
    }
    forall i, j | 0 <= i < j < |all| ensures all[i].reader != all[j].reader {
      if i < |replies| <= j {
        assert all[i] in replies && Told(all[i], seats);
        assert readers[j - |replies|] in readers && seats[readers[j - |replies|].id] in seats;
      }
    }
    forall x | x in q && x.place.Replied? ensures Reply(x.reader, x.place.id, x.place.outcome) in all {
      var n :| 0 <= n < |q| && q[n] == x;
      var was := seats[n];
      assert was in seats;
      if was.place.Replied? {
        assert Reply(was.reader, was.place.id, was.place.outcome) in replies;
      } else {
        var i :| 0 <= i < |readers| && readers[i] == was.reader;
        assert more[i] == Reply(x.reader, x.place.id, x.place.outcome);
      }
    }
  }

  lemma FinishAnswered(r: Run, q: Run, task: nat)
    requires Valid(r) && task in r.tasks && r.tasks[task].ending.Completed? && q == Collected(r, task)
    ensures Answered(q.jobs.replies, q.seats)
  {
    var t := r.tasks[task];
    ReachedSeats(r, t.id);
    hide Orderly, Capped, Held, Seated, Fresh, Answered;
    var readers, outcome := Reached(r.jobs, t.id), t.ending.outcome;
    AnsweredMore(r.jobs.replies, r.seats, readers, t.id, outcome, t.born);
    var late, own := LateReaders(r.jobs, t.id), r.jobs.active[t.id].job.readers;
    assert Replies(readers, t.id, outcome) == Replies(late, t.id, outcome) + Replies(own, t.id, outcome);
    assert q.jobs.replies == r.jobs.replies + Replies(readers, t.id, outcome);
  }

  lemma FinishKeeps(r: Run, task: nat)
    requires Valid(r) && task in r.tasks && r.tasks[task].ending.Completed?
    ensures Valid(Collected(r, task))
  {
    hide Capped, Held, Seated, Fresh, Answered;
    FinishFresh(r, Collected(r, task), task);
    hide Orderly;
    FinishOrderly(r, task);
    FinishHeld(r, Collected(r, task), task);
    FinishSeated(r, Collected(r, task), task);
    FinishAnswered(r, Collected(r, task), task);
  }

  lemma TakenOrderly(s: State, i: nat, tokens: seq<nat>, task: nat)
    requires Orderly(s) && Capped(s.active) && i < |s.order| && s.order[i] in s.queued && Startable(s, s.order[i])
    requires Distinct(tokens) && forall t :: t in s.tokens ==> t in tokens
    ensures Orderly(TakenAt(s, i, tokens, task)) && Capped(TakenAt(s, i, tokens, task).active)
    ensures Covered(s) ==> Covered(TakenAt(s, i, tokens, task))
  {
    var id := s.order[i];
    MoreLoad(s.active, id, Running(s.queued[id], task));
    Without(s.order, i);
  }

  lemma TakenHeld(r: Run, i: nat, tokens: seq<nat>, task: nat, q: State, seats: seq<Seat>)
    requires Placed(r.jobs, r.seats) && i < |r.jobs.order| && r.jobs.order[i] in r.jobs.queued && r.jobs.order[i] !in r.jobs.active
    requires q == TakenAt(r.jobs, i, tokens, task) && seats == Moved(r.seats, Seize(r.jobs.order[i]))
    ensures forall o :: o in q.queued ==> Held(seats, q.queued[o].readers, Waiting(o))
    ensures forall o :: o in q.active ==> Held(seats, q.active[o].job.readers, Sharing(o))
  {
    hide Seated;
    var s, id := r.jobs, r.jobs.order[i];
    assert Held(r.seats, s.queued[id].readers, Waiting(id));
    assert Held(seats, s.queued[id].readers, Sharing(id));
    hide Held;
    forall o | o in q.queued ensures Held(seats, q.queued[o].readers, Waiting(o)) {
      HeldMoved(r.seats, s.queued[o].readers, Waiting(o), Seize(id));
    }
    forall o | o in q.active ensures Held(seats, q.active[o].job.readers, Sharing(o)) {
      if o != id { HeldMoved(r.seats, s.active[o].job.readers, Sharing(o), Seize(id)); }
    }
  }

  lemma TakenPlaced(r: Run, i: nat, tokens: seq<nat>, task: nat)
    requires Placed(r.jobs, r.seats) && i < |r.jobs.order| && r.jobs.order[i] in r.jobs.queued && r.jobs.order[i] !in r.jobs.active
    ensures Placed(TakenAt(r.jobs, i, tokens, task), Moved(r.seats, Seize(r.jobs.order[i])))
  {
    var s, id := r.jobs, r.jobs.order[i];
    var q, seats := TakenAt(s, i, tokens, task), Moved(r.seats, Seize(id));
    TakenHeld(r, i, tokens, task, q, seats);
    hide Held;
    forall x | x in seats ensures x in r.seats || (x.place == Sharing(id) && Seat(x.reader, Waiting(id)) in r.seats) {
      var n :| 0 <= n < |seats| && seats[n] == x;
      assert r.seats[n] in r.seats;
    }
  }

  lemma TakenFresh(r: Run, i: nat, tokens: seq<nat>)
    requires Valid(r) && i < |r.jobs.order| && r.jobs.order[i] in r.jobs.queued
    requires r.jobs.order[i] !in r.jobs.active
    ensures Fresh(LaunchedAt(r, i, tokens)) && Matched(LaunchedAt(r, i, tokens))
  {
    var id := r.jobs.order[i];
    assert Held(r.seats, r.jobs.queued[id].readers, Waiting(id));
    forall x | x in Moved(r.seats, Seize(id)) && x.place.Replied? ensures x in r.seats {}
  }

  lemma LaunchAtKeeps(r: Run, i: nat, tokens: seq<nat>)
    requires Valid(r) && i < |r.jobs.order| && r.jobs.order[i] in r.jobs.queued && Startable(r.jobs, r.jobs.order[i])
    requires Distinct(tokens) && forall t :: t in r.jobs.tokens ==> t in tokens
    ensures Valid(LaunchedAt(r, i, tokens))
  {
    hide Orderly, Capped, Held, Seated, Fresh, Answered;
    TakenOrderly(r.jobs, i, tokens, r.spawned);
    TakenPlaced(r, i, tokens, r.spawned);
    TakenFresh(r, i, tokens);
    AnsweredMoved(r.jobs.replies, r.seats, Seize(r.jobs.order[i]));
  }

  lemma LaunchKeeps(r: Run)
    requires Valid(r) && r.pruned
    ensures Valid(Launched(r))
  {
    hide Capped, Matched, Placed, Fresh, Answered;
    var next := Chosen(r.jobs);
    if next.Some? {
      GrantKeeps(r.jobs.tokens, Eligible(r.jobs));
      LaunchAtKeeps(r, next.value, Turned(r.jobs));
    }
  }

  lemma StepKeeps(r: Run, step: Step)
    requires Valid(r) && Enabled(r, step)
    ensures Valid(Do(r, step))
  {
    match step
    case Register(id, application, token) => RegisterKeeps(r, id, application, token);
    case End(task, ending) =>
    case Join(task) => if r.tasks[task].ending.Completed? { FinishKeeps(r, task); } else { LostKeeps(r, task); }
    case Prune(live) => SweepKeeps(r, live);
    case Launch => LaunchKeeps(r);
  }

  // ----- whole runs

  ghost predicate Possible(r: Run, steps: seq<Step>)
    decreases |steps|
  {
    steps != [] ==> Enabled(r, steps[0]) && Possible(Do(r, steps[0]), steps[1..])
  }

  ghost function After(r: Run, steps: seq<Step>): Run
    requires Possible(r, steps)
    decreases |steps|
  {
    if steps == [] then r else After(Do(r, steps[0]), steps[1..])
  }

  lemma {:induction false} AlwaysValid(r: Run, steps: seq<Step>)
    requires Valid(r) && Possible(r, steps)
    ensures Valid(After(r, steps))
    decreases |steps|
  {
    if steps != [] {
      StepKeeps(r, steps[0]);
      AlwaysValid(Do(r, steps[0]), steps[1..]);
    }
  }

  /** The tasks running jobs of the kind of `id`. */
  function TasksOfKind(r: Run, id: JobId): set<nat> {
    set t | t in r.tasks && SameKind(r.tasks[t].id, id)
  }

  function TasksOfApplication(r: Run, id: JobId, application: Application): set<nat> {
    set t | t in r.tasks && SameKind(r.tasks[t].id, id)
      && r.tasks[t].id in r.jobs.active && r.jobs.active[r.tasks[t].id].job.application == application
  }

  lemma {:induction false} OnePerId(tasks: set<nat>, ids: set<JobId>, r: Run)
    requires Matched(r)
    requires forall t :: t in tasks ==> t in r.tasks && r.tasks[t].id in ids
    ensures |tasks| <= |ids|
  {
    if tasks != {} {
      var t :| t in tasks;
      OnePerId(tasks - {t}, ids - {r.tasks[t].id}, r);
    }
  }

  /** In every run: at most 8 scans and 4 refreshes have a task, at most 2 and 1 of them for
      one application, no two tasks share an id, and no pick met an id without a job. */
  lemma CapsHold(steps: seq<Step>, id: JobId, application: Application)
    requires Possible(START, steps)
    ensures var r := After(START, steps);
      && |TasksOfKind(r, id)| <= (if id.Scan? then 8 else 4)
      && |TasksOfApplication(r, id, application)| <= (if id.Scan? then 2 else 1)
      && (forall t, u :: t in r.tasks && u in r.tasks && r.tasks[t].id == r.tasks[u].id ==> t == u)
      && !r.broken && (r.pruned ==> forall o :: o in r.jobs.order ==> o in r.jobs.queued)
  {
    StartValid();
    AlwaysValid(START, steps);
    var r := After(START, steps);
    OnePerId(TasksOfKind(r, id), OfKind(r.jobs.active, id), r);
    OnePerId(TasksOfApplication(r, id, application), OfApplication(r.jobs.active, id, application), r);
  }

  lemma StartValid()
    ensures Valid(START)
  {
    forall id ensures OfKind(EMPTY.active, id) == {} {}
    forall id, a ensures OfApplication(EMPTY.active, id, a) == {} {}
  }

  // ----- applications

  /** What the steps of a run registered an id for. */
  ghost predicate Named(steps: seq<Step>, id: JobId, application: Application) {
    exists i :: 0 <= i < |steps| && steps[i].Register? && steps[i].id == id && steps[i].application == application
  }

  function Given(step: Step): set<(JobId, Application)> {
    if step.Register? then {(step.id, step.application)} else {}
  }

  ghost predicate Stored(s: State, given: set<(JobId, Application)>) {
    && (forall id :: id in s.queued ==> (id, s.queued[id].application) in given)
    && (forall id :: id in s.active ==> (id, s.active[id].job.application) in given)
  }

  lemma PushStores(s: State, id: JobId, application: Application, reader: Reader, finished: bool, given: set<(JobId, Application)>)
    requires Stored(s, given)
    ensures Stored(Pushed(s, id, application, reader, finished), given + {(id, application)})
  {
  }

  lemma LaunchStores(r: Run, given: set<(JobId, Application)>)
    requires Stored(r.jobs, given)
    ensures Stored(Launched(r).jobs, given)
  {
    if Covered(r.jobs) && Listed(r.jobs) && Chosen(r.jobs).Some? {
      var i := Chosen(r.jobs).value;
      assert r.jobs.order[i] in r.jobs.queued;
    }
  }

  lemma StepStores(r: Run, step: Step, given: set<(JobId, Application)>)
    requires Enabled(r, step) && Stored(r.jobs, given)
    ensures Stored(Do(r, step).jobs, given + Given(step))
  {
    hide Pushed, Launched;
    match step
    case Register(id, application, token) =>
      PushStores(r.jobs, id, application, Reader(|r.seats|, token), IsFinished(r, id), given);
    case Launch =>
      LaunchStores(r, given);
    case _ =>
  }

  ghost predicate AllNamed(steps: seq<Step>, given: set<(JobId, Application)>) {
    forall id, a :: (id, a) in given ==> Named(steps, id, a)
  }

  lemma NamedMore(steps: seq<Step>, given: set<(JobId, Application)>, step: Step)
    requires AllNamed(steps, given) && step in steps
    ensures AllNamed(steps, given + Given(step))
  {
    if step.Register? {
      var i :| 0 <= i < |steps| && steps[i] == step;
      assert Named(steps, step.id, step.application);
    }
  }

  lemma {:induction false} RunStores(r: Run, steps: seq<Step>, given: set<(JobId, Application)>, all: seq<Step>) returns (g: set<(JobId, Application)>)
    requires Possible(r, steps) && Stored(r.jobs, given) && AllNamed(all, given)
    requires forall step :: step in steps ==> step in all
    ensures Stored(After(r, steps).jobs, g) && AllNamed(all, g)
    decreases |steps|
  {
    hide Do, Enabled, Stored, AllNamed;
    if steps == [] {
      g := given;
    } else {
      StepStores(r, steps[0], given);
      assert steps[0] in steps;
      NamedMore(all, given, steps[0]);
      g := RunStores(Do(r, steps[0]), steps[1..], given + Given(steps[0]), all);
    }
  }

  /** In every run a job is stored for an application its id was registered for. */
  lemma ApplicationsKept(steps: seq<Step>)
    requires Possible(START, steps)
    ensures var s := After(START, steps).jobs;
      && (forall id :: id in s.queued ==> Named(steps, id, s.queued[id].application))
      && (forall id :: id in s.active ==> Named(steps, id, s.active[id].job.application))
  {
    var given := RunStores(START, steps, {}, steps);
  }

  /** The tasks whose ids were registered for an application. */
  ghost function TasksFor(r: Run, steps: seq<Step>, id: JobId, application: Application): set<nat> {
    set t | t in r.tasks && SameKind(r.tasks[t].id, id) && Named(steps, r.tasks[t].id, application)
  }

  /** The cap per application, said of the registrations: with one application to each id, at
      most 2 scans and 1 refresh registered for one application have a task. */
  lemma RegistrationsCapped(steps: seq<Step>, id: JobId, application: Application)
    requires Possible(START, steps)
    requires forall o, a, b :: Named(steps, o, a) && Named(steps, o, b) ==> a == b
    ensures |TasksFor(After(START, steps), steps, id, application)| <= (if id.Scan? then 2 else 1)
  {
    StartValid();
    AlwaysValid(START, steps);
    ApplicationsKept(steps);
    CapsHold(steps, id, application);
    var r := After(START, steps);
    forall t | t in TasksFor(r, steps, id, application) ensures t in TasksOfApplication(r, id, application) {
      assert r.tasks[t].id in r.jobs.active;
    }
    Fewer(TasksFor(r, steps, id, application), TasksOfApplication(r, id, application));
  }

  ghost predicate IsQueued(s: State, x: Reader) { exists id :: id in s.queued && x in s.queued[id].readers }
  ghost predicate IsActive(s: State, x: Reader) { exists id :: id in s.active && x in s.active[id].job.readers }
  ghost predicate IsReplied(s: State, x: Reader) { exists y :: y in s.replies && y.reader == x }

  /** Every registered reader is in exactly one of: the queue, a running job, the replies,
      or dropped. No reader is replied to twice. */
  lemma ReadersConserved(steps: seq<Step>, x: Seat)
    requires Possible(START, steps) && x in After(START, steps).seats
    ensures var s := After(START, steps).jobs;
      && (IsQueued(s, x.reader) <==> x.place.Waiting?)
      && (IsActive(s, x.reader) <==> x.place.Sharing?)
      && (IsReplied(s, x.reader) <==> x.place.Replied?)
      && (forall i, j :: 0 <= i < j < |s.replies| ==> s.replies[i].reader != s.replies[j].reader)
  {
    StartValid();
    AlwaysValid(START, steps);
    var r := After(START, steps);
    assert r.seats[x.reader.id] == x by {
      var n :| 0 <= n < |r.seats| && r.seats[n] == x;
    }
    if IsQueued(r.jobs, x.reader) {
      var id :| id in r.jobs.queued && x.reader in r.jobs.queued[id].readers;
      assert Held(r.seats, r.jobs.queued[id].readers, Waiting(id));
    }
    if IsActive(r.jobs, x.reader) {
      var id :| id in r.jobs.active && x.reader in r.jobs.active[id].job.readers;
      assert Held(r.seats, r.jobs.active[id].job.readers, Sharing(id));
    }
    if IsReplied(r.jobs, x.reader) {
      var y :| y in r.jobs.replies && y.reader == x.reader;
      assert Told(y, r.seats);
    }
    if x.place.Replied? {
      assert Reply(x.reader, x.place.id, x.place.outcome) in r.jobs.replies;
    }
  }

  /** What a reply says: a scan's goes to a reader that registered before the scan's task
      started (`born` counts the readers before it), a refresh's is what the cell holds. */
  lemma RepliesAreFresh(steps: seq<Step>, y: Reply)
    requires Possible(START, steps) && y in After(START, steps).jobs.replies
    ensures var r := After(START, steps);
      && y.reader.id < |r.seats| && r.seats[y.reader.id].place.Replied?
      && (y.job.Scan? ==> y.reader.id < r.seats[y.reader.id].place.born)
      && (y.job.Refresh? ==> y.job.cell in r.jobs.cells && r.jobs.cells[y.job.cell] == y.outcome)
  {
    StartValid();
    AlwaysValid(START, steps);
    assert Told(y, After(START, steps).seats);
  }

  ghost predicate Final(place: Place) { place.Replied? || place.Dropped? }

  /** Later steps take nothing back: seats, final places, sent replies, set cells. */
  ghost predicate Extends(r: Run, q: Run) {
    && |r.seats| <= |q.seats|
    && (forall n :: 0 <= n < |r.seats| ==>
          q.seats[n].reader == r.seats[n].reader && (Final(r.seats[n].place) ==> q.seats[n] == r.seats[n]))
    && r.jobs.replies <= q.jobs.replies
    && (forall c :: c in r.jobs.cells ==> c in q.jobs.cells && q.jobs.cells[c] == r.jobs.cells[c])
  }

  lemma CollectExtends(r: Run, task: nat)
    requires task in r.tasks
    ensures Extends(r, Collected(r, task))
  {
  }

  lemma LaunchExtends(r: Run)
    ensures Extends(r, Launched(r))
  {
  }

  lemma StepExtends(r: Run, step: Step)
    requires Enabled(r, step)
    ensures Extends(r, Do(r, step))
  {
    hide Collected, Launched;
    match step
    case Join(task) => CollectExtends(r, task);
    case Launch => LaunchExtends(r);
    case _ =>
  }

  lemma {:induction false} NothingTakenBack(r: Run, steps: seq<Step>)
    requires Possible(r, steps)
    ensures Extends(r, After(r, steps))
    decreases |steps|
  {
    if steps != [] {
      StepExtends(r, steps[0]);
      NothingTakenBack(Do(r, steps[0]), steps[1..]);
    }
  }

  /** After a prune, a pick that changes nothing means nothing queued may start. */
  lemma LaunchIsMaximal(r: Run)
    requires Valid(r) && r.pruned
    ensures Launched(r) == r <==> forall id :: id in r.jobs.queued ==> !Startable(r.jobs, id)
  {
    NothingLeft(r.jobs);
    if Chosen(r.jobs).Some? { assert Launched(r).spawned != r.spawned; }
  }

  function Launches(n: nat): (steps: seq<Step>)
    ensures |steps| == n && forall i :: 0 <= i < n ==> steps[i] == Launch
  {
    seq(n, _ => Launch)
  }

  ghost function AfterLaunches(r: Run, n: nat): Run
    decreases n
  {
    if n == 0 then r else AfterLaunches(Launched(r), n - 1)
  }

  lemma {:induction false} LaunchesRun(r: Run, n: nat)
    requires r.pruned
    ensures Possible(r, Launches(n)) && After(r, Launches(n)) == AfterLaunches(r, n)
    decreases n
  {
    if n > 0 {
      assert Launches(n)[0] == Launch && Launches(n)[1..] == Launches(n - 1);
      LaunchesRun(Launched(r), n - 1);
    }
  }

  lemma PrunedReady(r: Run)
    requires Valid(r) && r.pruned
    ensures Ready(r.jobs)
  {
  }

  lemma LaunchedAs(r: Run)
    requires Ready(r.jobs)
    ensures Chosen(r.jobs).None? ==> Launched(r) == r
    ensures Chosen(r.jobs).Some? ==>
      && Launched(r).spawned == r.spawned + 1
      && Launched(r).jobs == TakenAt(r.jobs, Chosen(r.jobs).value, Turned(r.jobs), r.spawned)
  {
  }

  lemma LaunchedFirst(r: Run, next: Run, n: nat)
    requires next == Launched(r)
    ensures AfterLaunches(r, n + 1) == AfterLaunches(next, n)
  {
  }

  lemma StartedFirst(s: State, task: nat, next: State)
    requires Ready(s) && Chosen(s).Some? && next == TakenAt(s, Chosen(s).value, Turned(s), task)
    ensures Ready(next) && |next.queued| < |s.queued|
    ensures Started(s, task) == Started(next, task + 1) && Starts(s, task) == Starts(next, task + 1) + 1
  {
    StartedReady(s, task);
    StartedFewer(s, task);
  }

  lemma StartsSome(s: State, task: nat)
    requires Ready(s)
    ensures Starts(s, task) > 0 <==> Chosen(s).Some?
  {
  }

  lemma OneLaunch(r: Run, next: Run, n: nat)
    requires Ready(r.jobs) && n > 0 && n == Starts(r.jobs, r.spawned) && next == Launched(r)
    ensures Ready(next.jobs) && next.spawned == r.spawned + 1 && n - 1 == Starts(next.jobs, next.spawned)
    ensures AfterLaunches(r, n) == AfterLaunches(next, n - 1) && Started(r.jobs, r.spawned) == Started(next.jobs, next.spawned)
  {
    hide *;
    StartsSome(r.jobs, r.spawned);
    LaunchedAs(r);
    StartedFirst(r.jobs, r.spawned, next.jobs);
    LaunchedFirst(r, next, n - 1);
  }

  lemma NoLaunch(r: Run, n: nat)
    requires Ready(r.jobs) && n == Starts(r.jobs, r.spawned)
    ensures n == 0 ==> AfterLaunches(r, n) == r && Started(r.jobs, r.spawned) == r.jobs
  {
  }

  lemma {:induction false} StartedAfter(r: Run, n: nat, q: Run, end: State)
    requires Ready(r.jobs) && n == Starts(r.jobs, r.spawned) && q == AfterLaunches(r, n) && end == Started(r.jobs, r.spawned)
    ensures q.jobs == end && q.spawned == r.spawned + n
    decreases n
  {
    hide *;
    NoLaunch(r, n);
    if n > 0 {
      OneLaunch(r, Launched(r), n);
      StartedAfter(Launched(r), n - 1, q, end);
    }
  }

  /** The loop's starts are launches of this model, as many as it takes until one changes
      nothing. */
  lemma StartedByLaunches(r: Run)
    requires Valid(r) && r.pruned
    ensures exists n: nat :: Possible(r, Launches(n)) && FilledBy(r, After(r, Launches(n)), n)
  {
    PrunedReady(r);
    var n := Starts(r.jobs, r.spawned);
    StartedAfter(r, n, AfterLaunches(r, n), Started(r.jobs, r.spawned));
    StartedEnds(r.jobs, r.spawned);
    LaunchedAs(AfterLaunches(r, n));
    LaunchesRun(r, n);
    assert FilledBy(r, After(r, Launches(n)), n);
  }

  ghost predicate FilledBy(r: Run, q: Run, n: nat)
    requires Ready(r.jobs)
  {
    q.jobs == Started(r.jobs, r.spawned) && q.spawned == r.spawned + n && Launched(q) == q
  }

  // ----- bounded overtaking

  function TokenChange(r: Run, step: Step): Change<nat> {
    match step
    case Register(id, _, token) => if Arrival(r, id).Waiting? then Arrive(token) else Retain(set t | t in r.jobs.tokens)
    case Prune(live) => Retain(Wanted(PrunedQueue(r.jobs.queued, live)))
    case Launch => Grant(Eligible(r.jobs), false)
    case _ => Retain(set t | t in r.jobs.tokens)
  }

  lemma TokensFollow(r: Run, step: Step)
    requires Valid(r) && Enabled(r, step)
    ensures Do(r, step).jobs.tokens == Apply(r.jobs.tokens, TokenChange(r, step))
  {
    hide Capped, Matched, Placed, Fresh, Answered;
    KeepAll(r.jobs.tokens, set t | t in r.jobs.tokens);
  }

  function TurnTaken(r: Run, step: Step): seq<nat> {
    if step.Launch? && NextToken(r.jobs).Some? then [NextToken(r.jobs).value] else []
  }

  /** The tokens served by the launches of a run, in order. */
  ghost function Turns(r: Run, steps: seq<Step>): seq<nat>
    requires Possible(r, steps)
    decreases |steps|
  {
    if steps == [] then [] else TurnTaken(r, steps[0]) + Turns(Do(r, steps[0]), steps[1..])
  }

  ghost function Changes(r: Run, steps: seq<Step>): seq<Change<nat>>
    requires Possible(r, steps)
    decreases |steps|
  {
    if steps == [] then [] else [TokenChange(r, steps[0])] + Changes(Do(r, steps[0]), steps[1..])
  }

  /** `token` always has a queued reader, and a job that may start whenever one is picked. */
  ghost predicate Contending(r: Run, steps: seq<Step>, token: nat)
    requires Possible(r, steps)
    decreases |steps|
  {
    && token in r.jobs.tokens
    && (steps != [] ==>
          && (steps[0].Launch? ==> token in Eligible(r.jobs))
          && Contending(Do(r, steps[0]), steps[1..], token))
  }

  lemma {:induction false} ChangesFollow(r: Run, steps: seq<Step>, token: nat)
    requires Valid(r) && Possible(r, steps) && Contending(r, steps, token)
    ensures AlwaysReady(r.jobs.tokens, Changes(r, steps), token)
    ensures Grants(r.jobs.tokens, Changes(r, steps)) == Turns(r, steps)
    decreases |steps|
  {
    if steps != [] {
      StepKeeps(r, steps[0]);
      TokensFollow(r, steps[0]);
      ChangesFollow(Do(r, steps[0]), steps[1..], token);
      var change := TokenChange(r, steps[0]);
      assert Changes(r, steps)[1..] == Changes(Do(r, steps[0]), steps[1..]);
      assert Served(r.jobs.tokens, change) == TurnTaken(r, steps[0]);
    }
  }

  /** A contending token waits for no more launches than there are tokens in front of it,
      and no other token is served twice before it. */
  lemma JobOvertaking(r: Run, steps: seq<Step>, token: nat)
    requires Valid(r) && Possible(r, steps) && Contending(r, steps, token)
    requires token !in Turns(r, steps)
    ensures Distinct(Turns(r, steps))
    ensures forall u :: u in Turns(r, steps) ==> u in Ahead(r.jobs.tokens, token)
    ensures |Turns(r, steps)| <= |Ahead(r.jobs.tokens, token)|
  {
    ChangesFollow(r, steps, token);
    BoundedOvertaking(r.jobs.tokens, Changes(r, steps), token);
  }
}
