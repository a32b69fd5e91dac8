/** The life of an access token: admitted actions and dispatches, revocation, the expiry
    sweep and late authentication, as atomic steps that interleave freely. */
module Access {
  import opened Common

  /** The run-once cleanup of a record: nobody's, one process's, or over. */
  datatype Cleanup = Idle | Draining(owner: nat) | Cleaning(owner: nat) | Clean

  /** `gate` and `dispatch` hold the processes with a read guard, `acting` and `admitted`
      those of them that also found the token live. `dead`: the last key is gone. */
  datatype Record = Record(
    token: nat, cancelled: bool, cleanup: Cleanup, cleanups: nat,
    gate: set<nat>, acting: set<nat>, dispatch: set<nat>, admitted: set<nat>, dead: bool)

  datatype Process =
    | Authenticating(token: nat)
    | Revoking(token: nat)                          // committed to the database
    | Purged(token: nat, found: Option<nat>)        // the cache entry is taken out
    | Revoked(token: nat, found: Option<nat>)       // cancelled, in `finish`
    | Returned(token: nat, found: Option<nat>)
    | Expiring(record: nat)                         // the sweep's task, in `finish`
    | Swept(record: nat)                            // past `finish`

  /** `active` is the cache of weak references. The sweep first cancels all of `cancelling`,
      then spawns a task for each of `spawning`. */
  datatype State = State(
    records: seq<Record>, active: map<nat, nat>, revoked: set<nat>, purged: set<nat>, expired: set<nat>,
    serial: Option<nat>, processes: map<nat, Process>, cancelling: set<nat>, spawning: set<nat>)

  const START := State([], map[], {}, {}, {}, None, map[], {}, {})

  datatype Step =
    | Expire(token: nat)
    | Enter(r: nat, p: nat) | Check(r: nat, p: nat) | Leave(r: nat, p: nat)
    | Acquire(r: nat, p: nat) | Admit(r: nat, p: nat) | Release(r: nat, p: nat)
    | Die(r: nat)
    | Authenticate(p: nat, token: nat) | Cache(p: nat)
    | Commit(p: nat, token: nat) | Purge(p: nat) | Cancel(p: nat)
    | Begin(p: nat) | Drain(p: nat) | Complete(p: nat) | Observe(p: nat) | Crash(p: nat)
    | Collect | CancelExpired(r: nat) | Spawn(p: nat, r: nat) | Remove(p: nat)

  predicate Live(s: State, r: nat)
    requires r < |s.records|
  {
    !s.records[r].cancelled && s.records[r].token !in s.expired
  }

  /** The record on which a process is in `finish`. */
  function Finishing(s: State, p: nat): Option<nat> {
    if p !in s.processes then None
    else match s.processes[p]
      case Revoked(_, found) => found
      case Expiring(r) => Some(r)
      case _ => None
  }

  /** The record a process keeps alive. */
  function Keeps(process: Process): Option<nat> {
    match process
    case Purged(_, found) => found
    case Revoked(_, found) => found
    case Expiring(r) => Some(r)
    case Swept(r) => Some(r)
    case _ => None
  }

  predicate Held(s: State, r: nat) {
    || r in s.cancelling || r in s.spawning
    || exists p :: p in s.processes && Keeps(s.processes[p]) == Some(r)
  }

  predicate Cached(s: State, token: nat) {
    token in s.active && s.active[token] < |s.records| && !s.records[s.active[token]].dead
  }

  predicate Enabled(s: State, step: Step) {
    match step
    case Expire(_) => true
    case Enter(r, p) => r < |s.records| && !s.records[r].dead && p !in s.records[r].gate
    case Check(r, p) => r < |s.records| && p in s.records[r].gate && p !in s.records[r].acting
    case Leave(r, p) => r < |s.records| && p in s.records[r].acting
    case Acquire(r, p) => r < |s.records| && !s.records[r].dead && p !in s.records[r].dispatch
    case Admit(r, p) => r < |s.records| && p in s.records[r].dispatch && p !in s.records[r].admitted
    case Release(r, p) => r < |s.records| && p in s.records[r].admitted
    case Die(r) => r < |s.records| && s.records[r].gate == {} && s.records[r].dispatch == {} && !Held(s, r)
    case Authenticate(p, token) => s.serial.None? && p !in s.processes && token !in s.revoked && token !in s.expired
    case Cache(p) => p in s.processes && s.processes[p].Authenticating?
    case Commit(p, token) => s.serial.None? && p !in s.processes && token !in s.revoked
    case Purge(p) => p in s.processes && s.processes[p].Revoking?
    case Cancel(p) => p in s.processes && s.processes[p].Purged?
      && (s.processes[p].found.Some? ==> s.processes[p].found.value < |s.records| && s.records[s.processes[p].found.value].gate == {})
    case Begin(p) => Finishing(s, p).Some? && Finishing(s, p).value < |s.records| && s.records[Finishing(s, p).value].cleanup.Idle?
    case Drain(p) => Finishing(s, p).Some? && Finishing(s, p).value < |s.records|
      && s.records[Finishing(s, p).value].cleanup == Draining(p) && s.records[Finishing(s, p).value].dispatch == {}
    case Complete(p) => Finishing(s, p).Some? && Finishing(s, p).value < |s.records|
      && s.records[Finishing(s, p).value].cleanup == Cleaning(p)
    case Observe(p) => p in s.processes
      && ((s.processes[p].Revoked? && s.processes[p].found.None?)
          || (Finishing(s, p).Some? && Finishing(s, p).value < |s.records| && s.records[Finishing(s, p).value].cleanup.Clean?))
    case Crash(p) => Finishing(s, p).Some? && Finishing(s, p).value < |s.records|
      && s.records[Finishing(s, p).value].cleanup in {Draining(p), Cleaning(p)}
    case Collect => s.cancelling == {} && s.spawning == {}
    case CancelExpired(r) => r in s.cancelling && r < |s.records| && s.records[r].gate == {}
    case Spawn(p, r) => s.cancelling == {} && r in s.spawning && p !in s.processes
    case Remove(p) => p in s.processes && s.processes[p].Swept? && s.processes[p].record < |s.records|
  }

  function With(s: State, r: nat, record: Record): State
    requires r < |s.records|
  {
    s.(records := s.records[r := record])
  }

  function Becomes(s: State, p: nat, process: Process): State { s.(processes := s.processes[p := process]) }

  /** The cached record if its key is still held, else a new one. */
  function Resolved(s: State, token: nat): State {
    var kept := map t | t in s.active && Cached(s, t) :: s.active[t];
    if token in kept then s.(active := kept)
    else
      s.(active := kept[token := |s.records|],
         records := s.records + [Record(token, false, Idle, 0, {}, {}, {}, {}, false)])
  }

  function Do(s: State, step: Step): State
    requires Enabled(s, step)
  {
    match step
    case Expire(token) => s.(expired := s.expired + {token})
    case Enter(r, p) => With(s, r, s.records[r].(gate := s.records[r].gate + {p}))
    case Check(r, p) =>
      if Live(s, r) then With(s, r, s.records[r].(acting := s.records[r].acting + {p}))
      else With(s, r, s.records[r].(gate := s.records[r].gate - {p}))
    case Leave(r, p) => With(s, r, s.records[r].(acting := s.records[r].acting - {p}, gate := s.records[r].gate - {p}))
    case Acquire(r, p) => With(s, r, s.records[r].(dispatch := s.records[r].dispatch + {p}))
    case Admit(r, p) =>
      if Live(s, r) then With(s, r, s.records[r].(admitted := s.records[r].admitted + {p}))
      else With(s, r, s.records[r].(dispatch := s.records[r].dispatch - {p}))
    case Release(r, p) =>
      With(s, r, s.records[r].(admitted := s.records[r].admitted - {p}, dispatch := s.records[r].dispatch - {p}))
    case Die(r) => With(s, r, s.records[r].(dead := true))
    case Authenticate(p, token) => Becomes(s, p, Authenticating(token)).(serial := Some(p))
    case Cache(p) => Resolved(s, s.processes[p].token).(serial := None, processes := s.processes - {p})
    case Commit(p, token) => Becomes(s, p, Revoking(token)).(serial := Some(p), revoked := s.revoked + {token})
    case Purge(p) =>
      var token := s.processes[p].token;
      Becomes(s, p, Purged(token, if Cached(s, token) then Some(s.active[token]) else None))
        .(active := s.active - {token}, purged := s.purged + {token})
    case Cancel(p) =>
      var Purged(token, found) := s.processes[p];
      var q := Becomes(s, p, Revoked(token, found)).(serial := None);
      if found.None? then q else With(q, found.value, q.records[found.value].(cancelled := true))
    case Begin(p) =>
      var r := Finishing(s, p).value;
      With(s, r, s.records[r].(cleanup := Draining(p)))
    case Drain(p) =>
      var r := Finishing(s, p).value;
      With(s, r, s.records[r].(cleanup := Cleaning(p)))
    case Complete(p) =>
      var r := Finishing(s, p).value;
      With(s, r, s.records[r].(cleanup := Clean, cleanups := s.records[r].cleanups + 1))
    case Observe(p) =>
      (match s.processes[p]
       case Revoked(token, found) => Becomes(s, p, Returned(token, found))
       case Expiring(r) => Becomes(s, p, Swept(r))
       case _ => s)
    case Crash(p) =>
      var r := Finishing(s, p).value;
      With(s, r, s.records[r].(cleanup := Idle)).(processes := s.processes - {p})
    case Collect =>
      s.(cancelling := set t | t in s.active && Cached(s, t) && t in s.expired && !s.records[s.active[t]].cancelled :: s.active[t])
    case CancelExpired(r) =>
      With(s, r, s.records[r].(cancelled := true)).(cancelling := s.cancelling - {r}, spawning := s.spawning + {r})
    case Spawn(p, r) => Becomes(s, p, Expiring(r)).(spawning := s.spawning - {r})
    case Remove(p) =>
      s.(active := s.active - {s.records[s.processes[p].record].token}, processes := s.processes - {p})
  }

  // ----- what every step keeps

  ghost predicate RecordOk(record: Record) {
    && record.acting <= record.gate && record.admitted <= record.dispatch
    && (record.cancelled ==> record.acting == {})
    && (!record.cleanup.Idle? ==> record.cancelled)
    && (record.cleanup.Cleaning? || record.cleanup.Clean? ==> record.admitted == {})
    && record.cleanups == (if record.cleanup.Clean? then 1 else 0)
    && (record.dead ==> record.gate == {} && record.dispatch == {})
  }

  ghost predicate Known(s: State, r: nat, token: nat) { r < |s.records| && s.records[r].token == token }

  ghost predicate Caches(s: State, r: nat)
    requires r < |s.records|
  {
    s.records[r].token !in s.purged ==> s.records[r].token in s.active && s.active[s.records[r].token] == r
  }

  /** Still in need of its cleanup. */
  predicate Open(record: Record) { !record.dead && !record.cleanup.Clean? }

  ghost predicate FoundOk(s: State, token: nat, found: Option<nat>) {
    && token in s.purged
    && (found.Some? ==> Known(s, found.value, token))
    && forall r :: 0 <= r < |s.records| && Open(s.records[r]) && s.records[r].token == token ==> found == Some(r)
  }

  ghost predicate ProcessOk(s: State, process: Process) {
    match process
    case Authenticating(token) => token !in s.revoked
    case Revoking(token) => token in s.revoked && token !in s.purged
    case Purged(token, found) => FoundOk(s, token, found) && (found.Some? ==> !s.records[found.value].dead)
    case Revoked(token, found) => FoundOk(s, token, found)
      && (found.Some? ==> s.records[found.value].cancelled && !s.records[found.value].dead)
    case Returned(token, found) => FoundOk(s, token, found) && (found.Some? ==> s.records[found.value].cleanup.Clean?)
    case Expiring(r) => r < |s.records| && s.records[r].cancelled && !s.records[r].dead && Caches(s, r)
    case Swept(r) => r < |s.records| && s.records[r].cleanup.Clean? && !s.records[r].dead && Caches(s, r)
  }

  predicate Serial(process: Process) { process.Authenticating? || process.Revoking? || process.Purged? }

  function SweepOf(process: Process): Option<nat> {
    if process.Expiring? || process.Swept? then Some(process.record) else None
  }

  ghost predicate ProcessesOk(s: State) {
    && (forall p :: p in s.processes ==> ProcessOk(s, s.processes[p]))
    && (forall p :: p in s.processes ==> (Serial(s.processes[p]) <==> s.serial == Some(p)))
    && (s.serial.Some? ==> s.serial.value in s.processes)
    && (forall p, q ::
          p in s.processes && q in s.processes && SweepOf(s.processes[p]).Some?
          && SweepOf(s.processes[p]) == SweepOf(s.processes[q])
          ==> p == q)
  }

  ghost predicate SweepOk(s: State) {
    && s.cancelling !! s.spawning
    && (forall r :: r in s.cancelling || r in s.spawning ==> r < |s.records| && !s.records[r].dead && Caches(s, r))
    && (forall r :: r in s.spawning ==> s.records[r].cancelled)
    && (forall p :: p in s.processes && SweepOf(s.processes[p]).Some? ==>
          SweepOf(s.processes[p]).value !in s.cancelling && SweepOf(s.processes[p]).value !in s.spawning)
  }

  ghost predicate RecordsOk(s: State) {
    forall r :: 0 <= r < |s.records| ==> RecordOk(s.records[r]) && Owned(s, r)
  }

  /** A cleanup under way belongs to a process that is in `finish` on the record. */
  ghost predicate Owned(s: State, r: nat)
    requires r < |s.records|
  {
    s.records[r].cleanup.Draining? || s.records[r].cleanup.Cleaning? ==> Finishing(s, s.records[r].cleanup.owner) == Some(r)
  }

  /** Only the cached record of a token can still need its cleanup. */
  ghost predicate OpenOk(s: State) {
    && (forall r :: 0 <= r < |s.records| && Open(s.records[r]) ==> Caches(s, r))
    && (forall r, q ::
          0 <= r < |s.records| && 0 <= q < |s.records| && Open(s.records[r]) && Open(s.records[q])
          && s.records[r].token == s.records[q].token
          ==> r == q)
  }

  ghost predicate CacheOk(s: State) {
    && (forall t :: t in s.active ==> Known(s, s.active[t], t) && t !in s.purged)
    && s.purged <= s.revoked
  }

  ghost predicate Valid(s: State) { CacheOk(s) && RecordsOk(s) && OpenOk(s) && ProcessesOk(s) && SweepOk(s) }

  /** `q` differs from `s` in no token, and takes back no death, cancellation or cleanup. */
  ghost predicate Onward(s: State, q: State) {
    && |q.records| == |s.records|
    && forall r :: 0 <= r < |s.records| ==>
         && q.records[r].token == s.records[r].token && q.records[r].dead == s.records[r].dead
         && (s.records[r].cancelled ==> q.records[r].cancelled)
         && (s.records[r].cleanup.Clean? ==> q.records[r].cleanup.Clean?)
  }

  lemma ProcessFrame(s: State, q: State, process: Process)
    requires ProcessOk(s, process) && Onward(s, q)
    requires q.active == s.active && q.purged == s.purged && q.revoked == s.revoked
    ensures ProcessOk(q, process)
  {
  }

  lemma Frame(s: State, q: State)
    requires CacheOk(s) && OpenOk(s) && ProcessesOk(s) && SweepOk(s) && Onward(s, q)
    requires q.active == s.active && q.purged == s.purged && q.revoked == s.revoked
    requires q.processes == s.processes && q.serial == s.serial
    requires q.cancelling == s.cancelling && q.spawning == s.spawning
    ensures CacheOk(q) && OpenOk(q) && ProcessesOk(q) && SweepOk(q)
  {
    forall t | t in q.active ensures Known(q, q.active[t], t) { assert Known(s, s.active[t], t); }
    forall r | 0 <= r < |q.records| && Open(q.records[r]) ensures Caches(q, r) { assert Caches(s, r); }
    forall p | p in q.processes ensures ProcessOk(q, q.processes[p]) { ProcessFrame(s, q, s.processes[p]); }
    forall r | r in q.cancelling || r in q.spawning ensures Caches(q, r) { assert Caches(s, r); }
  }

  /** The steps on one record: guards taken, checked and let go, and the cleanup's own. */
  lemma RecordKeeps(s: State, r: nat, record: Record)
    requires Valid(s) && r < |s.records| && RecordOk(record)
    requires record.token == s.records[r].token && record.dead == s.records[r].dead
    requires s.records[r].cancelled ==> record.cancelled
    requires s.records[r].cleanup.Clean? ==> record.cleanup.Clean?
    requires record.cleanup.Draining? || record.cleanup.Cleaning? ==> Finishing(s, record.cleanup.owner) == Some(r)
    ensures Valid(With(s, r, record))
  {
    Frame(s, With(s, r, record));
  }

  lemma GuardKeeps(s: State, step: Step, r: nat, p: nat)
    requires Valid(s) && Enabled(s, step)
    requires step in {Enter(r, p), Check(r, p), Leave(r, p), Acquire(r, p), Admit(r, p), Release(r, p)}
    ensures Valid(Do(s, step))
  {
    assert RecordOk(s.records[r]);
    RecordKeeps(s, r, Do(s, step).records[r]);
  }

  lemma CleanupKeeps(s: State, step: Step, p: nat)
    requires Valid(s) && Enabled(s, step) && step in {Begin(p), Drain(p), Complete(p)}
    ensures Valid(Do(s, step))
  {
    var r := Finishing(s, p).value;
    assert RecordOk(s.records[r]) && ProcessOk(s, s.processes[p]);
    RecordKeeps(s, r, Do(s, step).records[r]);
  }

  lemma DieProcess(s: State, r: nat, p: nat)
    requires Valid(s) && Enabled(s, Die(r)) && p in s.processes
    ensures ProcessOk(Do(s, Die(r)), s.processes[p])
  {
    assert ProcessOk(s, s.processes[p]);
    assert Keeps(s.processes[p]) != Some(r);
  }

  lemma DieKeeps(s: State, r: nat)
    requires Valid(s) && Enabled(s, Die(r))
    ensures Valid(Do(s, Die(r)))
  {
    hide ProcessOk;
    var q := Do(s, Die(r));
    assert RecordOk(s.records[r]) && RecordOk(q.records[r]);
    forall t | t in q.active ensures Known(q, q.active[t], t) { assert Known(s, s.active[t], t); }
    forall o | 0 <= o < |s.records| && Caches(s, o) ensures Caches(q, o) {}
    forall o | 0 <= o < |s.records| && Owned(s, o) ensures Owned(q, o) {}
    forall p | p in q.processes ensures ProcessOk(q, q.processes[p]) { DieProcess(s, r, p); }
  }

  /** A process enters the map without touching records or the cache. */
  ghost predicate Enters(s: State, q: State, p: nat) {
    && p !in s.processes && p in q.processes && q.processes - {p} == s.processes
    && q.records == s.records && q.active == s.active && q.purged == s.purged
    && s.revoked <= q.revoked
    && q.cancelling == s.cancelling && q.spawning == s.spawning
    && (forall o :: o in s.processes && s.processes[o].Authenticating? ==> s.processes[o].token !in q.revoked)
    && ProcessOk(q, q.processes[p]) && SweepOf(q.processes[p]).None? && Keeps(q.processes[p]).None?
    && s.serial.None? && Serial(q.processes[p]) && q.serial == Some(p)
  }

  lemma OtherProcess(s: State, q: State, p: nat, o: nat)
    requires Enters(s, q, p) && o != p
    ensures o in q.processes <==> o in s.processes
    ensures o in s.processes ==> q.processes[o] == s.processes[o]
    ensures o in s.processes && ProcessOk(s, s.processes[o]) ==> ProcessOk(q, q.processes[o])
  {
    assert o in q.processes - {p} <==> o in s.processes;
  }

  lemma EnterProcesses(s: State, q: State, p: nat)
    requires ProcessesOk(s) && Enters(s, q, p)
    ensures ProcessesOk(q)
  {
    forall o | o != p
      ensures o in q.processes <==> o in s.processes
      ensures o in s.processes ==> q.processes[o] == s.processes[o] && ProcessOk(q, q.processes[o])
    {
      OtherProcess(s, q, p, o);
    }
    hide ProcessOk;
  }

  lemma EnterSweep(s: State, q: State, p: nat)
    requires SweepOk(s) && Enters(s, q, p)
    ensures SweepOk(q)
  {
    hide ProcessOk;
    forall o | o != p ensures o in q.processes ==> o in s.processes && q.processes[o] == s.processes[o] { OtherProcess(s, q, p, o); }
    forall o | o in q.cancelling || o in q.spawning ensures Caches(q, o) { assert Caches(s, o); }
  }

  lemma EnterOwned(s: State, q: State, p: nat)
    requires Enters(s, q, p)
    ensures forall r :: 0 <= r < |s.records| && Owned(s, r) ==> Owned(q, r)
  {
    hide ProcessOk;
    forall o | o != p ensures o in s.processes ==> o in q.processes && q.processes[o] == s.processes[o] { OtherProcess(s, q, p, o); }
  }

  lemma NewProcess(s: State, q: State, p: nat)
    requires Valid(s) && Enters(s, q, p)
    ensures Valid(q)
  {
    hide RecordsOk, CacheOk, OpenOk, ProcessesOk, SweepOk;
    EnterOwned(s, q, p);
    SameRecords(s, q);
    EnterProcesses(s, q, p);
    EnterSweep(s, q, p);
  }

  lemma AuthenticateKeeps(s: State, p: nat, token: nat)
    requires Valid(s) && Enabled(s, Authenticate(p, token))
    ensures Valid(Do(s, Authenticate(p, token)))
  {
    assert forall o :: o in s.processes && s.processes[o].Authenticating? ==> ProcessOk(s, s.processes[o]);
    NewProcess(s, Do(s, Authenticate(p, token)), p);
  }

  lemma CommitKeeps(s: State, p: nat, token: nat)
    requires Valid(s) && Enabled(s, Commit(p, token))
    ensures Valid(Do(s, Commit(p, token)))
  {
    assert forall o :: o in s.processes ==> !Serial(s.processes[o]);
    NewProcess(s, Do(s, Commit(p, token)), p);
  }

  lemma CacheEntries(s: State, q: State, p: nat)
    requires CacheOk(s) && Enabled(s, Cache(p)) && ProcessOk(s, s.processes[p]) && q == Do(s, Cache(p))
    ensures CacheOk(q)
  {
    var token := s.processes[p].token;
    forall t | t in q.active ensures Known(q, q.active[t], t) && t !in q.purged {
      if t != token { assert Known(s, s.active[t], t); }
    }
  }

  lemma CacheRecords(s: State, q: State, p: nat)
    requires RecordsOk(s) && Enabled(s, Cache(p)) && q == Do(s, Cache(p))
    ensures RecordsOk(q)
  {
    forall r | 0 <= r < |q.records| ensures RecordOk(q.records[r]) { assert r < |s.records| ==> RecordOk(s.records[r]); }
    forall r | 0 <= r < |q.records| ensures Owned(q, r) { assert r < |s.records| ==> Owned(s, r); }
  }

  lemma CacheOpen(s: State, q: State, p: nat)
    requires CacheOk(s) && OpenOk(s) && Enabled(s, Cache(p)) && ProcessOk(s, s.processes[p]) && q == Do(s, Cache(p))
    ensures OpenOk(q)
  {
    forall r | 0 <= r < |s.records| && Caches(s, r) && !s.records[r].dead ensures Caches(q, r) {}
  }

  /** What caching leaves alone. */
  lemma CacheFrame(s: State, q: State, p: nat)
    requires Valid(s) && Enabled(s, Cache(p)) && q == Do(s, Cache(p))
    ensures q.processes == s.processes - {p} && q.serial.None? && s.serial == Some(p)
    ensures q.cancelling == s.cancelling && q.spawning == s.spawning && q.purged == s.purged && q.revoked == s.revoked
    ensures |s.records| <= |q.records| && forall r :: 0 <= r < |s.records| ==> q.records[r] == s.records[r]
    ensures forall r :: 0 <= r < |s.records| && !s.records[r].dead && Caches(s, r) ==> Caches(q, r)
    ensures forall r :: |s.records| <= r < |q.records| ==> q.records[r].token !in q.purged
  {
    hide RecordsOk, OpenOk, SweepOk;
    assert ProcessOk(s, s.processes[p]);
  }

  lemma CacheProcess(s: State, q: State, process: Process)
    requires ProcessOk(s, process)
    requires q.purged == s.purged && q.revoked == s.revoked
    requires |s.records| <= |q.records| && forall r :: 0 <= r < |s.records| ==> q.records[r] == s.records[r]
    requires forall r :: 0 <= r < |s.records| && !s.records[r].dead && Caches(s, r) ==> Caches(q, r)
    requires forall r :: |s.records| <= r < |q.records| ==> q.records[r].token !in q.purged
    ensures ProcessOk(q, process)
  {
  }

  lemma CacheKeeps(s: State, p: nat)
    requires Valid(s) && Enabled(s, Cache(p))
    ensures Valid(Do(s, Cache(p)))
  {
    var q := Do(s, Cache(p));
    CacheFrame(s, q, p);
    assert ProcessOk(s, s.processes[p]);
    CacheEntries(s, q, p);
    CacheRecords(s, q, p);
    CacheOpen(s, q, p);
    hide Do, Enabled, CacheOk, RecordsOk, OpenOk, ProcessOk;
    forall o | o in q.processes ensures ProcessOk(q, q.processes[o]) { CacheProcess(s, q, s.processes[o]); }
    forall r | r in q.cancelling || r in q.spawning ensures Caches(q, r) { assert Caches(s, r); }
    assert ProcessesOk(q);
  }

  lemma PurgeProcess(s: State, p: nat, process: Process)
    requires Valid(s) && Enabled(s, Purge(p)) && ProcessOk(s, process) && !Serial(process)
    ensures ProcessOk(Do(s, Purge(p)), process)
  {
  }

  lemma PurgeFinds(s: State, p: nat)
    requires Valid(s) && Enabled(s, Purge(p))
    ensures ProcessOk(Do(s, Purge(p)), Do(s, Purge(p)).processes[p])
  {
    var token := s.processes[p].token;
    assert ProcessOk(s, s.processes[p]);
    assert token in s.active ==> Known(s, s.active[token], token);
    forall r | 0 <= r < |s.records| && Open(s.records[r]) && s.records[r].token == token
      ensures Cached(s, token) && s.active[token] == r
    {
      assert Caches(s, r);
    }
  }

  lemma PurgeRecords(s: State, p: nat)
    requires Valid(s) && Enabled(s, Purge(p))
    ensures CacheOk(Do(s, Purge(p))) && RecordsOk(Do(s, Purge(p))) && OpenOk(Do(s, Purge(p))) && SweepOk(Do(s, Purge(p)))
  {
    var q := Do(s, Purge(p));
    assert ProcessOk(s, s.processes[p]);
    forall r | 0 <= r < |s.records| && Caches(s, r) ensures Caches(q, r) {}
    forall t | t in q.active ensures Known(q, q.active[t], t) { assert Known(s, s.active[t], t); }
  }

  lemma PurgeKeeps(s: State, p: nat)
    requires Valid(s) && Enabled(s, Purge(p))
    ensures Valid(Do(s, Purge(p)))
  {
    var q := Do(s, Purge(p));
    PurgeRecords(s, p);
    PurgeFinds(s, p);
    forall o | o in q.processes ensures ProcessOk(q, q.processes[o]) {
      if o != p { PurgeProcess(s, p, s.processes[o]); }
    }
    assert ProcessesOk(q);
  }

  /** What a process is depends on the records and the cache alone. */
  lemma SameProcess(s: State, q: State, process: Process)
    requires ProcessOk(s, process) && q.records == s.records
    requires q.active == s.active && q.purged == s.purged && q.revoked == s.revoked
    ensures ProcessOk(q, process)
  {
  }

  /** Nothing but the processes changed: records and cache still hold together. */
  lemma SameRecords(s: State, q: State)
    requires CacheOk(s) && RecordsOk(s) && OpenOk(s)
    requires q.records == s.records && q.active == s.active && q.purged == s.purged && s.revoked <= q.revoked
    requires forall r :: 0 <= r < |s.records| && Owned(s, r) ==> Owned(q, r)
    ensures CacheOk(q) && RecordsOk(q) && OpenOk(q)
  {
    forall r | 0 <= r < |s.records| && Caches(s, r) ensures Caches(q, r) {}
    forall t | t in q.active ensures Known(q, q.active[t], t) { assert Known(s, s.active[t], t); }
  }

  /** A process moves on; records and cache stay. */
  ghost predicate MovesOn(s: State, q: State, p: nat, process: Process) {
    && p in s.processes
    && q == s.(processes := s.processes[p := process], serial := if Serial(s.processes[p]) then None else s.serial)
    && ProcessOk(s, process)
    && SweepOf(process) == SweepOf(s.processes[p]) && !Serial(process)
  }

  lemma OwnedStill(s: State, q: State, p: nat, process: Process)
    requires MovesOn(s, q, p, process) && RecordsOk(s)
    requires Finishing(s, p).Some? ==> Finishing(s, p).value < |s.records|
    requires Finishing(s, p).Some? ==> Finishing(q, p) == Finishing(s, p) || s.records[Finishing(s, p).value].cleanup.Clean?
    ensures forall r :: 0 <= r < |s.records| && Owned(s, r) ==> Owned(q, r)
  {
    hide RecordOk, ProcessOk;
  }

  lemma OthersStay(s: State, q: State, p: nat, process: Process)
    requires MovesOn(s, q, p, process) && ProcessesOk(s)
    ensures ProcessesOk(q)
  {
    hide ProcessOk;
    SameProcess(s, q, process);
    forall o | o in q.processes ensures ProcessOk(q, q.processes[o]) {
      if o != p { SameProcess(s, q, s.processes[o]); }
    }
  }

  lemma ProcessKeeps(s: State, q: State, p: nat, process: Process)
    requires Valid(s) && MovesOn(s, q, p, process)
    requires Finishing(s, p).Some? ==> Finishing(s, p).value < |s.records|
    requires Finishing(s, p).Some? ==> Finishing(q, p) == Finishing(s, p) || s.records[Finishing(s, p).value].cleanup.Clean?
    ensures Valid(q)
  {
    hide RecordsOk, CacheOk, OpenOk, ProcessesOk, SweepOk, Finishing, ProcessOk;
    OwnedStill(s, q, p, process);
    SameRecords(s, q);
    OthersStay(s, q, p, process);
    SameSweep(s, q, p);
  }

  lemma SameSweep(s: State, q: State, p: nat)
    requires SweepOk(s) && p in s.processes && p in q.processes
    requires q == s.(processes := s.processes[p := q.processes[p]], serial := q.serial)
    requires SweepOf(q.processes[p]) == SweepOf(s.processes[p])
    ensures SweepOk(q)
  {
    forall r | 0 <= r < |s.records| && Caches(s, r) ensures Caches(q, r) {}
  }

  lemma CancelKeeps(s: State, p: nat)
    requires Valid(s) && Enabled(s, Cancel(p))
    ensures Valid(Do(s, Cancel(p)))
  {
    var Purged(token, found) := s.processes[p];
    assert ProcessOk(s, s.processes[p]);
    hide RecordsOk, CacheOk, OpenOk, SweepOk;
    if found.Some? {
      assert RecordOk(s.records[found.value]);
      var m := With(s, found.value, s.records[found.value].(cancelled := true));
      RecordKeeps(s, found.value, m.records[found.value]);
      ProcessFrame(s, m, s.processes[p]);
      ProcessKeeps(m, Do(s, Cancel(p)), p, Revoked(token, found));
    } else {
      ProcessKeeps(s, Do(s, Cancel(p)), p, Revoked(token, found));
    }
  }

  lemma ObserveKeeps(s: State, p: nat)
    requires Valid(s) && Enabled(s, Observe(p))
    ensures Valid(Do(s, Observe(p)))
  {
    assert ProcessOk(s, s.processes[p]);
    ProcessKeeps(s, Do(s, Observe(p)), p, Do(s, Observe(p)).processes[p]);
  }

  /** A process that holds nothing of others' leaves the map. */
  lemma LeaveKeeps(s: State, q: State, p: nat)
    requires Valid(s) && p in s.processes && !Serial(s.processes[p]) && q == s.(processes := s.processes - {p})
    requires Finishing(s, p).Some? ==> s.records[Finishing(s, p).value].cleanup !in {Draining(p), Cleaning(p)}
    ensures Valid(q)
  {
    hide ProcessOk;
    forall o | o in q.processes ensures ProcessOk(q, q.processes[o]) { SameProcess(s, q, s.processes[o]); }
    SameRecords(s, q);
    hide CacheOk, RecordsOk, OpenOk;
    forall r | 0 <= r < |q.records| && Caches(s, r) ensures Caches(q, r) {}
  }

  lemma CrashKeeps(s: State, p: nat)
    requires Valid(s) && Enabled(s, Crash(p))
    ensures Valid(Do(s, Crash(p)))
  {
    var r := Finishing(s, p).value;
    assert RecordOk(s.records[r]);
    var m := With(s, r, s.records[r].(cleanup := Idle));
    RecordKeeps(s, r, m.records[r]);
    LeaveKeeps(m, Do(s, Crash(p)), p);
  }

  /** Only the sweep's sets change. */
  lemma SetsKeep(s: State, q: State)
    requires Valid(s) && q == s.(cancelling := q.cancelling, spawning := q.spawning)
    requires SweepOk(q)
    ensures Valid(q)
  {
    forall o | o in q.processes ensures ProcessOk(q, q.processes[o]) { assert ProcessOk(s, s.processes[o]); }
    forall r | 0 <= r < |q.records| ensures Owned(q, r) { assert r < |s.records| ==> Owned(s, r); }
    forall r | 0 <= r < |q.records| && Caches(s, r) ensures Caches(q, r) {}
  }

  lemma CollectKeeps(s: State)
    requires Valid(s) && Enabled(s, Collect)
    ensures Valid(Do(s, Collect))
  {
    var q := Do(s, Collect);
    forall r | r in q.cancelling ensures r < |q.records| && !q.records[r].dead && !q.records[r].cancelled && Caches(q, r) {
      var t :| t in s.active && Cached(s, t) && s.active[t] == r && !s.records[r].cancelled;
      assert Known(s, s.active[t], t);
    }
    forall p | p in q.processes && SweepOf(q.processes[p]).Some? ensures SweepOf(q.processes[p]).value !in q.cancelling {
      assert ProcessOk(s, s.processes[p]);
      assert RecordOk(s.records[SweepOf(s.processes[p]).value]);
    }
    SetsKeep(s, q);
  }

  lemma CancelExpiredKeeps(s: State, r: nat)
    requires Valid(s) && Enabled(s, CancelExpired(r))
    ensures Valid(Do(s, CancelExpired(r)))
  {
    assert RecordOk(s.records[r]);
    var m := With(s, r, s.records[r].(cancelled := true));
    RecordKeeps(s, r, m.records[r]);
    var q := Do(s, CancelExpired(r));
    forall o | o in q.cancelling || o in q.spawning ensures Caches(q, o) { assert Caches(m, o); }
    SetsKeep(m, q);
  }

  lemma SpawnProcesses(s: State, q: State, p: nat, r: nat)
    requires ProcessesOk(s) && SweepOk(s) && p !in s.processes && r in s.spawning
    requires q == s.(processes := s.processes[p := Expiring(r)], spawning := s.spawning - {r})
    ensures ProcessesOk(q)
  {
    assert Caches(s, r) && Caches(q, r) && ProcessOk(q, Expiring(r));
    hide ProcessOk;
    forall o | o in q.processes ensures ProcessOk(q, q.processes[o]) {
      if o != p { SameProcess(s, q, s.processes[o]); }
    }
  }

  lemma SpawnSweep(s: State, q: State, p: nat, r: nat)
    requires ProcessesOk(s) && SweepOk(s) && p !in s.processes && r in s.spawning
    requires q == s.(processes := s.processes[p := Expiring(r)], spawning := s.spawning - {r})
    ensures SweepOk(q)
  {
    hide ProcessOk;
    forall o | 0 <= o < |q.records| && Caches(s, o) ensures Caches(q, o) {}
  }

  lemma SpawnKeeps(s: State, p: nat, r: nat)
    requires Valid(s) && Enabled(s, Spawn(p, r))
    ensures Valid(Do(s, Spawn(p, r)))
  {
    var q := Do(s, Spawn(p, r));
    SameRecords(s, q);
    SpawnProcesses(s, q, p, r);
    SpawnSweep(s, q, p, r);
    hide CacheOk, RecordsOk, OpenOk, ProcessesOk, SweepOk;
  }

  lemma EntryGone(s: State, q: State, token: nat, r: nat)
    requires Valid(s) && r < |s.records| && s.records[r].cleanup.Clean?
    requires token in s.active ==> s.active[token] == r
    requires q == s.(active := s.active - {token})
    requires r !in s.cancelling && r !in s.spawning
    requires forall p :: p in s.processes ==> SweepOf(s.processes[p]) != Some(r)
    ensures Valid(q)
  {
    forall o | 0 <= o < |q.records| && Caches(s, o) && o != r ensures Caches(q, o) {}
    forall p | p in q.processes ensures ProcessOk(q, q.processes[p]) {
      assert ProcessOk(s, s.processes[p]);
    }
    forall o | 0 <= o < |q.records| ensures Owned(q, o) { assert Owned(s, o); }
    forall t | t in q.active ensures Known(q, q.active[t], t) { assert Known(s, s.active[t], t); }
  }

  /** The entry taken out is the swept record's own, or the token's revocation took it. */
  lemma RemoveKeeps(s: State, p: nat)
    requires Valid(s) && Enabled(s, Remove(p))
    ensures Valid(Do(s, Remove(p)))
  {
    var r := s.processes[p].record;
    assert ProcessOk(s, s.processes[p]);
    var m := s.(processes := s.processes - {p});
    LeaveKeeps(s, m, p);
    assert SweepOf(s.processes[p]) == Some(r);
    EntryGone(m, Do(s, Remove(p)), s.records[r].token, r);
  }

  lemma ExpireKeeps(s: State, token: nat)
    requires Valid(s)
    ensures Valid(Do(s, Expire(token)))
  {
    var q := Do(s, Expire(token));
    Frame(s, q);
    forall r | 0 <= r < |q.records| ensures Owned(q, r) { assert r < |s.records| ==> Owned(s, r); }
  }

  lemma StepKeeps(s: State, step: Step)
    requires Valid(s) && Enabled(s, step)
    ensures Valid(Do(s, step))
  {
    hide Valid, Do;
    match step
    case Expire(token) => ExpireKeeps(s, token);
    case Enter(r, p) => GuardKeeps(s, step, r, p);
    case Check(r, p) => GuardKeeps(s, step, r, p);
    case Leave(r, p) => GuardKeeps(s, step, r, p);
    case Acquire(r, p) => GuardKeeps(s, step, r, p);
    case Admit(r, p) => GuardKeeps(s, step, r, p);
    case Release(r, p) => GuardKeeps(s, step, r, p);
    case Die(r) => DieKeeps(s, r);
    case Authenticate(p, token) => AuthenticateKeeps(s, p, token);
    case Cache(p) => CacheKeeps(s, p);
    case Commit(p, token) => CommitKeeps(s, p, token);
    case Purge(p) => PurgeKeeps(s, p);
    case Cancel(p) => CancelKeeps(s, p);
    case Begin(p) => CleanupKeeps(s, step, p);
    case Drain(p) => CleanupKeeps(s, step, p);
    case Complete(p) => CleanupKeeps(s, step, p);
    case Observe(p) => ObserveKeeps(s, p);
    case Crash(p) => CrashKeeps(s, p);
    case Collect => CollectKeeps(s);
    case CancelExpired(r) => CancelExpiredKeeps(s, r);
    case Spawn(p, r) => SpawnKeeps(s, p, r);
    case Remove(p) => RemoveKeeps(s, p);
  }

  // ----- every interleaving

  ghost predicate Possible(s: State, steps: seq<Step>)
    decreases |steps|
  {
    steps != [] ==> Enabled(s, steps[0]) && Possible(Do(s, steps[0]), steps[1..])
  }

  ghost function After(s: State, steps: seq<Step>): State
    requires Possible(s, steps)
    decreases |steps|
  {
    if steps == [] then s else After(Do(s, steps[0]), steps[1..])
  }

  lemma {:induction false} AlwaysValid(s: State, steps: seq<Step>)
    requires Valid(s) && Possible(s, steps)
    ensures Valid(After(s, steps))
    decreases |steps|
  {
    if steps != [] {
      StepKeeps(s, steps[0]);
      AlwaysValid(Do(s, steps[0]), steps[1..]);
    }
  }

  /** Cancellation is final, and a cancelled record never has an action running again. */
  lemma {:induction false} NoActionAfterCancel(s: State, steps: seq<Step>, r: nat)
    requires Valid(s) && Possible(s, steps) && r < |s.records| && s.records[r].cancelled
    ensures var q := After(s, steps);
      r < |q.records| && q.records[r].cancelled && q.records[r].acting == {} && q.records[r].admitted <= s.records[r].admitted
    decreases |steps|
  {
    assert RecordOk(s.records[r]);
    if steps != [] {
      StepKeeps(s, steps[0]);
      CancelledStays(s, steps[0], r);
      NoActionAfterCancel(Do(s, steps[0]), steps[1..], r);
    }
  }

  lemma CancelledStays(s: State, step: Step, r: nat)
    requires Enabled(s, step) && r < |s.records| && s.records[r].cancelled
    ensures var q := Do(s, step);
      r < |q.records| && q.records[r].cancelled && q.records[r].admitted <= s.records[r].admitted
  {
  }

  // ----- what is cancelled

  ghost predicate Over(s: State, token: nat) { token in s.revoked || token in s.expired }

  /** Only tokens that are over are cancelled, or about to be. */
  ghost predicate Deserved(s: State) {
    && (forall r :: 0 <= r < |s.records| && s.records[r].cancelled ==> Over(s, s.records[r].token))
    && (forall r :: r in s.cancelling ==> r < |s.records| && s.records[r].token in s.expired)
  }

  lemma CancelDeserved(s: State, p: nat)
    requires Valid(s) && Enabled(s, Cancel(p)) && Deserved(s)
    ensures Deserved(Do(s, Cancel(p)))
  {
    assert ProcessOk(s, s.processes[p]);
  }

  lemma CollectDeserved(s: State)
    requires CacheOk(s) && Enabled(s, Collect) && Deserved(s)
    ensures Deserved(Do(s, Collect))
  {
    forall r | r in Do(s, Collect).cancelling ensures r < |s.records| && s.records[r].token in s.expired {
      var t :| t in s.active && Cached(s, t) && s.active[t] == r && t in s.expired;
      assert Known(s, s.active[t], t);
    }
  }

  lemma CancelExpiredDeserved(s: State, r: nat)
    requires Enabled(s, CancelExpired(r)) && Deserved(s)
    ensures Deserved(Do(s, CancelExpired(r)))
  {
  }

  /** Nothing more is cancelled, or about to be, and nothing less is over. */
  ghost predicate Milder(s: State, q: State) {
    && |s.records| <= |q.records| && s.revoked <= q.revoked && s.expired <= q.expired && q.cancelling <= s.cancelling
    && (forall r :: 0 <= r < |s.records| ==> q.records[r].token == s.records[r].token)
    && (forall r :: 0 <= r < |q.records| && q.records[r].cancelled ==> r < |s.records| && s.records[r].cancelled)
  }

  lemma MilderDeserved(s: State, q: State)
    requires Deserved(s) && Milder(s, q)
    ensures Deserved(q)
  {
  }

  predicate OnRecord(step: Step) {
    step.Enter? || step.Check? || step.Leave? || step.Acquire? || step.Admit? || step.Release? || step.Die?
    || step.Begin? || step.Drain? || step.Complete? || step.Crash?
  }

  lemma RecordMilder(s: State, step: Step)
    requires Enabled(s, step) && OnRecord(step)
    ensures Milder(s, Do(s, step))
  {
    hide Finishing, Live, Held;
  }

  lemma OtherMilder(s: State, step: Step)
    requires Enabled(s, step) && !OnRecord(step) && !step.Cancel? && !step.Collect? && !step.CancelExpired?
    ensures Milder(s, Do(s, step))
  {
    hide Finishing, Live, Held, Cached;
  }

  lemma StepDeserved(s: State, step: Step)
    requires Valid(s) && Enabled(s, step) && Deserved(s)
    ensures Deserved(Do(s, step))
  {
    if step.Cancel? {
      CancelDeserved(s, step.p);
    } else if step.Collect? {
      CollectDeserved(s);
    } else if step.CancelExpired? {
      CancelExpiredDeserved(s, step.r);
    } else {
      if OnRecord(step) { RecordMilder(s, step); } else { OtherMilder(s, step); }
      hide Do, Enabled;
      MilderDeserved(s, Do(s, step));
    }
  }

  lemma {:induction false} RunDeserved(s: State, steps: seq<Step>)
    requires Valid(s) && Deserved(s) && Possible(s, steps)
    ensures Deserved(After(s, steps))
    decreases |steps|
  {
    if steps != [] {
      hide Valid, Deserved;
      StepKeeps(s, steps[0]);
      StepDeserved(s, steps[0]);
      RunDeserved(Do(s, steps[0]), steps[1..]);
    }
  }

  /** In every interleaving only records of revoked or expired tokens are cancelled. */
  lemma OnlyOverCancelled(steps: seq<Step>, r: nat)
    requires Possible(START, steps) && r < |After(START, steps).records| && After(START, steps).records[r].cancelled
    ensures var s := After(START, steps); s.records[r].token in s.revoked || s.records[r].token in s.expired
  {
    RunDeserved(START, steps);
  }

  /** The sweep collects a record if and only if it is live but for its expiry and no revoke
      has it: still referred to, not cancelled, not taken out of the cache. */
  lemma SweepCollects(s: State, r: nat)
    requires Valid(s) && s.cancelling == {} && s.spawning == {} && r < |s.records|
    ensures Enabled(s, Collect)
    ensures r in Do(s, Collect).cancelling <==>
      !s.records[r].dead && !s.records[r].cancelled && s.records[r].token in s.expired && s.records[r].token !in s.purged
  {
    var t := s.records[r].token;
    assert RecordOk(s.records[r]);
    if !s.records[r].dead && !s.records[r].cancelled && t in s.expired && t !in s.purged {
      assert Open(s.records[r]) && Caches(s, r);
      assert Cached(s, t) && s.active[t] == r;
    }
    if r in Do(s, Collect).cancelling {
      var u :| u in s.active && Cached(s, u) && s.active[u] == r && u in s.expired && !s.records[r].cancelled;
      assert Known(s, s.active[u], u);
    }
  }

  /** In every interleaving: a record is cleaned up at most once, and while that runs the
      token is cancelled and none of its dispatches is admitted. */
  lemma CleanupOnce(steps: seq<Step>, r: nat)
    requires Possible(START, steps) && r < |After(START, steps).records|
    ensures var record := After(START, steps).records[r];
      && record.cleanups <= 1
      && (record.cleanup.Cleaning? || record.cleanup.Clean? ==> record.cancelled && record.acting == {} && record.admitted == {})
  {
    AlwaysValid(START, steps);
    assert RecordOk(After(START, steps).records[r]);
  }

  /** When a revoke returns, whether or not it found a record, no record of the token that a
      key still refers to is left without its cleanup. */
  lemma RevokeWaits(steps: seq<Step>, p: nat, r: nat)
    requires Possible(START, steps)
    requires var s := After(START, steps);
      p in s.processes && s.processes[p].Returned? && r < |s.records| && s.records[r].token == s.processes[p].token
    ensures var s := After(START, steps);
      && (s.records[r].dead || s.records[r].cleanup.Clean?)
      && (s.processes[p].found == Some(r) ==> s.records[r].cleanup.Clean? && s.records[r].cleanups == 1)
      && s.processes[p].token !in s.active
  {
    AlwaysValid(START, steps);
    var s := After(START, steps);
    assert ProcessOk(s, s.processes[p]);
    assert RecordOk(s.records[r]);
  }

  /** At most one record of a token is live, or has an admitted dispatch: authentication that
      completes late never puts a second one beside it. */
  lemma OneRecordPerToken(steps: seq<Step>, r: nat, q: nat)
    requires Possible(START, steps) && r < |After(START, steps).records| && q < |After(START, steps).records|
    requires var s := After(START, steps); s.records[r].token == s.records[q].token
    requires forall x :: x in {r, q} ==>
      var record := After(START, steps).records[x]; (!record.cancelled && !record.dead) || record.admitted != {}
    ensures r == q
  {
    AlwaysValid(START, steps);
    var s := After(START, steps);
    assert RecordOk(s.records[r]) && RecordOk(s.records[q]);
    assert r in {r, q} && q in {r, q};
  }
}
