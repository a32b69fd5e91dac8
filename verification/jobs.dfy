/** Shared accessibility observations: readers coalesce onto scans and refreshes, which
    start under caps per kind and per application, by round robin over tokens. */
module Jobs {
  import opened Common
  import opened Rotation

  const SCANS := 8
  const REFRESHES := 4
  const SCANS_PER_APPLICATION := 2
  const REFRESHES_PER_APPLICATION := 1

  datatype Application = Process(pid: nat) | Window(window: nat)
  datatype JobId = Scan(window: nat) | Refresh(cell: nat)
  datatype Outcome = Ok(value: nat) | Err(error: nat)
  datatype Reader = Reader(id: nat, token: nat)
  datatype Job = Job(application: Application, readers: seq<Reader>)
  datatype Running = Running(job: Job, task: nat)
  datatype Reply = Reply(reader: Reader, job: JobId, outcome: Outcome)

  /** `cells` holds the refresh results that are set, `replies` what was sent on the
      readers' channels, `aborted` the tasks told to stop. */
  datatype State = State(
    queued: map<JobId, Job>, order: seq<JobId>, tokens: seq<nat>, active: map<JobId, Running>,
    cells: map<nat, Outcome>, replies: seq<Reply>, aborted: set<nat>)

  const EMPTY := State(map[], [], [], map[], map[], [], {})

  // ----- registering a reader

  function Joined(job: Job, reader: Reader): Job { job.(readers := job.readers + [reader]) }

  /** A refresh under way takes further readers; a scan never does. */
  predicate Joins(s: State, id: JobId, finished: bool) {
    id.Refresh? && id in s.active && !finished && s.active[id].job.readers != []
  }

  function Pushed(s: State, id: JobId, application: Application, reader: Reader, finished: bool): State {
    if id.Refresh? && id.cell in s.cells then
      s.(replies := s.replies + [Reply(reader, id, s.cells[id.cell])])
    else if Joins(s, id, finished) then
      s.(active := s.active[id := s.active[id].(job := Joined(s.active[id].job, reader))])
    else
      s.(tokens := Apply(s.tokens, Arrive(reader.token)),
         order := if id in s.queued then s.order else s.order + [id],
         queued := s.queued[id := Joined(if id in s.queued then s.queued[id] else Job(application, []), reader)])
  }

  // ----- dropping readers that are gone

  function PrunedJob(job: Job, live: set<Reader>): Job { job.(readers := Keep(job.readers, live)) }

  function PrunedQueue(queued: map<JobId, Job>, live: set<Reader>): map<JobId, Job> {
    map id | id in queued && Keep(queued[id].readers, live) != [] :: PrunedJob(queued[id], live)
  }

  function PrunedActive(active: map<JobId, Running>, live: set<Reader>): map<JobId, Running> {
    map id | id in active :: active[id].(job := PrunedJob(active[id].job, live))
  }

  function Abandoned(active: map<JobId, Running>, live: set<Reader>): set<nat> {
    set id | id in active && Keep(active[id].job.readers, live) == [] :: active[id].task
  }

  function Wanted(queued: map<JobId, Job>): set<nat> {
    set id, r | id in queued && r in queued[id].readers :: r.token
  }

  function Pruned(s: State, live: set<Reader>): State {
    var queued := PrunedQueue(s.queued, live);
    s.(queued := queued, active := PrunedActive(s.active, live),
       aborted := s.aborted + Abandoned(s.active, live),
       order := Keep(s.order, queued.Keys),
       tokens := Apply(s.tokens, Retain(Wanted(queued))))
  }

  // ----- choosing the next job

  predicate SameKind(a: JobId, b: JobId) { a.Scan? == b.Scan? }

  function OfKind(active: map<JobId, Running>, id: JobId): set<JobId> {
    set o | o in active && SameKind(o, id)
  }

  function OfApplication(active: map<JobId, Running>, id: JobId, application: Application): set<JobId> {
    set o | o in active && SameKind(o, id) && active[o].job.application == application
  }

  function KindCap(id: JobId): nat { if id.Scan? then SCANS else REFRESHES }

  function ApplicationCap(id: JobId): nat { if id.Scan? then SCANS_PER_APPLICATION else REFRESHES_PER_APPLICATION }

  predicate Startable(s: State, id: JobId)
    requires id in s.queued
  {
    && id !in s.active
    && |OfKind(s.active, id)| < KindCap(id)
    && |OfApplication(s.active, id, s.queued[id].application)| < ApplicationCap(id)
  }

  predicate Wants(job: Job, token: nat) { exists r :: r in job.readers && r.token == token }

  predicate Serves(s: State, id: JobId, token: nat)
    requires id in s.queued
  {
    Startable(s, id) && Wants(s.queued[id], token)
  }

  /** The tokens one of whose readers waits for a job that may start. */
  function Eligible(s: State): set<nat> {
    set id, r | id in s.queued && Startable(s, id) && r in s.queued[id].readers :: r.token
  }

  predicate Covered(s: State) { forall id :: id in s.order ==> id in s.queued }

  function First(s: State, token: nat, from: nat): (i: nat)
    requires Covered(s) && from <= |s.order|
    ensures from <= i <= |s.order|
    ensures i < |s.order| ==> Serves(s, s.order[i], token)
    ensures forall j :: from <= j < i ==> !Serves(s, s.order[j], token)
    decreases |s.order| - from
  {
    if from == |s.order| || Serves(s, s.order[from], token) then from else First(s, token, from + 1)
  }

  /** Every queued job is in the order, and every queued reader's token in the rotation. */
  predicate Listed(s: State) {
    && (forall id :: id in s.queued ==> id in s.order)
    && (forall id, r :: id in s.queued && r in s.queued[id].readers ==> r.token in s.tokens)
  }

  lemma EligibleServed(s: State, token: nat)
    requires Covered(s) && Listed(s)
    ensures token in Eligible(s) <==> First(s, token, 0) < |s.order|
  {
    if token in Eligible(s) {
      var id, r :| id in s.queued && Startable(s, id) && r in s.queued[id].readers && r.token == token;
      assert Wants(s.queued[id], token);
      var j :| 0 <= j < |s.order| && s.order[j] == id;
      assert Serves(s, s.order[j], token);
    }
    var i := First(s, token, 0);
    if i < |s.order| {
      var id := s.order[i];
      var r :| r in s.queued[id].readers && r.token == token;
      assert Startable(s, id);
    }
  }

  /** The token whose turn it is: None when no token can start anything. */
  function NextToken(s: State): Option<nat> {
    var k := Turn(s.tokens, Eligible(s));
    if k == |s.tokens| then None else Some(s.tokens[k])
  }

  function Chosen(s: State): (i: Option<nat>)
    requires Covered(s) && Listed(s)
    ensures i.Some? ==> i.value < |s.order|
    ensures i.Some? <==> NextToken(s).Some?
    ensures i.Some? ==> Serves(s, s.order[i.value], NextToken(s).value)
  {
    if NextToken(s).None? then None
    else
      assert NextToken(s).value in Eligible(s);
      EligibleServed(s, NextToken(s).value);
      Some(First(s, NextToken(s).value, 0))
  }

  /** The job at `i` of the order leaves the queue. */
  function Taken(s: State, i: nat, tokens: seq<nat>): State
    requires i < |s.order|
  {
    s.(order := s.order[..i] + s.order[i + 1..], queued := s.queued - {s.order[i]}, tokens := tokens)
  }

  function TakenAt(s: State, i: nat, tokens: seq<nat>, task: nat): State
    requires i < |s.order| && s.order[i] in s.queued
  {
    Taken(s, i, tokens).(active := s.active[s.order[i] := Running(s.queued[s.order[i]], task)])
  }

  /** The tokens after a pick: what was skipped or served goes to the back. */
  function Turned(s: State): seq<nat> { Apply(s.tokens, Grant(Eligible(s), false)) }

  /** A pick leaves nothing startable behind exactly when it comes back empty. */
  lemma NothingLeft(s: State)
    requires Covered(s) && Listed(s)
    requires forall id :: id in s.queued ==> s.queued[id].readers != []
    ensures Chosen(s).None? <==> forall id :: id in s.queued ==> !Startable(s, id)
  {
    if id :| id in s.queued && Startable(s, id) {
      var r := s.queued[id].readers[0];
      assert r in s.queued[id].readers;
      assert r.token in Eligible(s) && r.token in s.tokens;
    }
    if Chosen(s).Some? { assert Startable(s, s.order[Chosen(s).value]); }
  }

  /** What the loop prunes into, and what each start leaves. */
  ghost predicate Ready(s: State) {
    && Covered(s) && Listed(s) && Distinct(s.order) && Distinct(s.tokens)
    && forall id :: id in s.queued ==> s.queued[id].readers != []
  }

  /** Starting the chosen job leaves the rest fit for the next pick. */
  lemma StartedReady(s: State, task: nat)
    requires Ready(s) && Chosen(s).Some?
    ensures Ready(TakenAt(s, Chosen(s).value, Turned(s), task))
  {
    var i := Chosen(s).value;
    var q := TakenAt(s, i, Turned(s), task);
    Without(s.order, i);
    GrantKeeps(s.tokens, Eligible(s));
  }

  lemma StartedFewer(s: State, task: nat)
    requires Ready(s) && Chosen(s).Some?
    ensures |TakenAt(s, Chosen(s).value, Turned(s), task).queued| < |s.queued|
  {
    var i := Chosen(s).value;
    assert TakenAt(s, i, Turned(s), task).queued.Keys == s.queued.Keys - {s.order[i]};
  }

  /** Picks and starts, one after the other, until a pick comes back empty. */
  ghost function Started(s: State, task: nat): State
    requires Ready(s)
    decreases |s.queued|
  {
    if Chosen(s).None? then s
    else
      StartedReady(s, task);
      StartedFewer(s, task);
      Started(TakenAt(s, Chosen(s).value, Turned(s), task), task + 1)
  }

  /** How many those are. */
  ghost function Starts(s: State, task: nat): nat
    requires Ready(s)
    decreases |s.queued|
  {
    if Chosen(s).None? then 0
    else
      StartedReady(s, task);
      StartedFewer(s, task);
      1 + Starts(TakenAt(s, Chosen(s).value, Turned(s), task), task + 1)
  }

  lemma {:induction false} StartedEnds(s: State, task: nat)
    requires Ready(s)
    ensures Ready(Started(s, task)) && Chosen(Started(s, task)).None?
    decreases |s.queued|
  {
    if Chosen(s).Some? {
      StartedReady(s, task);
      StartedFewer(s, task);
      StartedEnds(TakenAt(s, Chosen(s).value, Turned(s), task), task + 1);
    }
  }

  // ----- completing a job

  function Replies(readers: seq<Reader>, id: JobId, outcome: Outcome): (r: seq<Reply>)
    ensures |r| == |readers|
    ensures forall i :: 0 <= i < |r| ==> r[i] == Reply(readers[i], id, outcome)
  {
    seq(|readers|, i requires 0 <= i < |readers| => Reply(readers[i], id, outcome))
  }

  function LateReaders(s: State, id: JobId): seq<Reader> {
    if id.Refresh? && id in s.queued then s.queued[id].readers else []
  }

  /** A refresh sets its cell and also answers the readers queued while it ended; its id
      stays in `order` until the next prune. */
  function Finished(s: State, id: JobId, outcome: Outcome): State {
    if id !in s.active then s
    else
      s.(active := s.active - {id},
         cells := if id.Refresh? && id.cell !in s.cells then s.cells[id.cell := outcome] else s.cells,
         queued := if id.Refresh? then s.queued - {id} else s.queued,
         replies := s.replies + Replies(LateReaders(s, id), id, outcome) + Replies(s.active[id].job.readers, id, outcome))
  }

  /** A task that panicked or was aborted: its readers' channels close. */
  function Lost(s: State, task: nat): State {
    s.(active := map id | id in s.active && s.active[id].task != task :: s.active[id])
  }
}
