/** What one step does for a token's guards, cache entry and records, and that a revoke and
    the expiry sweep can always come to their end. */
module AccessLaws {
  import opened Common
  import opened Access

  // ----- admission

  /** An action or a dispatch that holds its guard goes on exactly when the token is neither
      cancelled nor expired then, and gives the guard back otherwise. */
  lemma AdmittedExactly(s: State, r: nat, p: nat)
    requires r < |s.records|
    ensures var live := !s.records[r].cancelled && s.records[r].token !in s.expired;
      && (p in s.records[r].gate && p !in s.records[r].acting ==>
            && Enabled(s, Check(r, p))
            && var was, now := s.records[r], Do(s, Check(r, p)).records[r];
            && now == was.(gate := if live then was.gate else was.gate - {p}, acting := if live then was.acting + {p} else was.acting))
      && (p in s.records[r].dispatch && p !in s.records[r].admitted ==>
            && Enabled(s, Admit(r, p))
            && var was, now := s.records[r], Do(s, Admit(r, p)).records[r];
            && now == was.(dispatch := if live then was.dispatch else was.dispatch - {p}, admitted := if live then was.admitted + {p} else was.admitted))
  {
  }

  /** A key that is still held takes any number of guards, whatever the token's state, and
      a record dies exactly when no guard, sweep or process holds it. */
  lemma GuardsTaken(s: State, r: nat, p: nat)
    requires r < |s.records|
    ensures !s.records[r].dead && p !in s.records[r].gate ==>
      Enabled(s, Enter(r, p)) && Do(s, Enter(r, p)) == With(s, r, s.records[r].(gate := s.records[r].gate + {p}))
    ensures !s.records[r].dead && p !in s.records[r].dispatch ==>
      Enabled(s, Acquire(r, p)) && Do(s, Acquire(r, p)) == With(s, r, s.records[r].(dispatch := s.records[r].dispatch + {p}))
    ensures Enabled(s, Die(r)) <==>
      && s.records[r].gate == {} && s.records[r].dispatch == {} && r !in s.cancelling && r !in s.spawning
      && forall o :: o in s.processes ==> Keeps(s.processes[o]) != Some(r)
  {
  }

  /** Expiry comes to any token at any time, and a revoke to any not revoked before. */
  lemma EndsAnyTime(s: State, p: nat, token: nat)
    ensures Enabled(s, Expire(token)) && Over(Do(s, Expire(token)), token)
    ensures s.serial.None? && p !in s.processes && token !in s.revoked ==>
      && Enabled(s, Commit(p, token)) && Over(Do(s, Commit(p, token)), token)
      && Do(s, Commit(p, token)).processes == s.processes[p := Revoking(token)]
  {
  }

  /** `q` is `s` with a live key of `token` in the cache: the open record of the token if there
      is one, else a new one. The other tokens' live entries are still there. */
  ghost predicate Admits(s: State, q: State, token: nat) {
    && token in q.active && q.active[token] < |q.records| && q.records[q.active[token]].token == token
    && Live(q, q.active[token]) && !q.records[q.active[token]].dead
    && (forall r :: 0 <= r < |s.records| && Open(s.records[r]) && s.records[r].token == token ==> q.active[token] == r)
    && s.records <= q.records
    && (forall u :: u != token ==> (u in q.active <==> u in s.active && Cached(s, u)) && (u in q.active ==> q.active[u] == s.active[u]))
  }

  lemma ResolvesLive(s: State, token: nat)
    requires CacheOk(s) && OpenOk(s) && Deserved(s) && !Over(s, token)
    ensures Admits(s, Resolved(s, token), token)
  {
    assert token !in s.purged;
    if token in s.active { assert Known(s, s.active[token], token); }
    forall r | 0 <= r < |s.records| && Open(s.records[r]) && s.records[r].token == token
      ensures token in s.active && s.active[token] == r && Cached(s, token)
    {
      assert Caches(s, r);
    }
  }

  /** A token that is not over can be authenticated, and the key it gets is live. */
  lemma AuthenticatedIsLive(s: State, p: nat, token: nat)
    requires Valid(s) && Deserved(s) && s.serial.None? && p !in s.processes && !Over(s, token)
    ensures Possible(s, [Authenticate(p, token), Cache(p)])
    ensures var q := After(s, [Authenticate(p, token), Cache(p)]);
      Admits(s, q, token) && q.serial.None? && q.processes == s.processes
  {
    hide Do, Enabled, Live, Resolved, Cached, Over, ProcessesOk, SweepOk, RecordsOk;
    Authenticates(s, p, token);
    var m := Do(s, Authenticate(p, token));
    ResolvesLive(s, token);
    SameResolved(s, m, token);
    OneMore(s, Authenticate(p, token), [Cache(p)]);
    OneMore(m, Cache(p), []);
    SameAdmits(s, Resolved(s, token), Do(m, Cache(p)), token);
  }

  lemma Authenticates(s: State, p: nat, token: nat)
    requires s.serial.None? && p !in s.processes && !Over(s, token)
    ensures Enabled(s, Authenticate(p, token)) && Enabled(Do(s, Authenticate(p, token)), Cache(p))
    ensures var m := Do(s, Authenticate(p, token));
      && m.records == s.records && m.active == s.active && m.expired == s.expired
      && Do(m, Cache(p)) == Resolved(m, token).(serial := None, processes := s.processes)
  {
    hide Resolved, Live, Cached;
    assert s.processes[p := Authenticating(token)] - {p} == s.processes;
  }

  lemma SameAdmits(s: State, r: State, q: State, token: nat)
    requires Admits(s, r, token) && q.records == r.records && q.active == r.active && q.expired == r.expired
    ensures Admits(s, q, token)
  {
  }

  lemma SameResolved(s: State, m: State, token: nat)
    requires m.records == s.records && m.active == s.active && m.expired == s.expired
    ensures Resolved(m, token).records == Resolved(s, token).records && Resolved(m, token).active == Resolved(s, token).active
    ensures Resolved(m, token).expired == Resolved(s, token).expired
  {
    assert forall t :: Cached(m, t) == Cached(s, t);
  }

  /** A step before a run. */
  lemma OneMore(s: State, step: Step, steps: seq<Step>)
    requires Enabled(s, step) && Possible(Do(s, step), steps)
    ensures Possible(s, [step] + steps) && After(s, [step] + steps) == After(Do(s, step), steps)
  {
    assert ([step] + steps)[1..] == steps;
  }

  lemma {:induction false} RunsOn(s: State, a: seq<Step>, b: seq<Step>)
    requires Possible(s, a) && Possible(After(s, a), b)
    ensures Possible(s, a + b) && After(s, a + b) == After(After(s, a), b)
    decreases |a|
  {
    hide Do, Enabled;
    if a == [] {
      assert a + b == b;
    } else {
      RunsOn(Do(s, a[0]), a[1..], b);
      assert a + b == [a[0]] + (a[1..] + b);
      OneMore(s, a[0], a[1..] + b);
    }
  }

  // ----- letting go of the guards

  lemma LeavesGate(s: State, r: nat, p: nat) returns (steps: seq<Step>)
    requires r < |s.records| && p in s.records[r].gate
    ensures Possible(s, steps)
    ensures After(s, steps) == With(s, r, s.records[r].(gate := s.records[r].gate - {p}, acting := s.records[r].acting - {p}))
  {
    if p in s.records[r].acting {
      steps := [Leave(r, p)];
      OneMore(s, Leave(r, p), []);
    } else if Live(s, r) {
      var m := Do(s, Check(r, p));
      steps := [Check(r, p), Leave(r, p)];
      OneMore(m, Leave(r, p), []);
      OneMore(s, Check(r, p), [Leave(r, p)]);
      assert s.records[r].acting + {p} - {p} == s.records[r].acting - {p};
    } else {
      steps := [Check(r, p)];
      OneMore(s, Check(r, p), []);
      assert s.records[r].acting - {p} == s.records[r].acting;
    }
  }

  /** Every action under way can end, and the gate is free then. */
  lemma {:induction false} EmptiesGate(s: State, r: nat) returns (steps: seq<Step>)
    requires r < |s.records|
    ensures Possible(s, steps)
    ensures After(s, steps) == With(s, r, s.records[r].(gate := {}, acting := s.records[r].acting - s.records[r].gate))
    decreases if r < |s.records| then s.records[r].gate else {}
  {
    if s.records[r].gate == {} {
      steps := [];
      assert s.records[r].acting - {} == s.records[r].acting;
    } else {
      var p :| p in s.records[r].gate;
      var first := LeavesGate(s, r, p);
      var rest := EmptiesGate(After(s, first), r);
      RunsOn(s, first, rest);
      steps := first + rest;
      assert s.records[r].acting - {p} - (s.records[r].gate - {p}) == s.records[r].acting - s.records[r].gate;
    }
  }

  lemma LeavesDispatch(s: State, r: nat, p: nat) returns (steps: seq<Step>)
    requires r < |s.records| && p in s.records[r].dispatch
    ensures Possible(s, steps)
    ensures After(s, steps) == With(s, r, s.records[r].(dispatch := s.records[r].dispatch - {p}, admitted := s.records[r].admitted - {p}))
  {
    if p in s.records[r].admitted {
      steps := [Release(r, p)];
      OneMore(s, Release(r, p), []);
    } else if Live(s, r) {
      var m := Do(s, Admit(r, p));
      steps := [Admit(r, p), Release(r, p)];
      OneMore(m, Release(r, p), []);
      OneMore(s, Admit(r, p), [Release(r, p)]);
      assert s.records[r].admitted + {p} - {p} == s.records[r].admitted - {p};
    } else {
      steps := [Admit(r, p)];
      OneMore(s, Admit(r, p), []);
      assert s.records[r].admitted - {p} == s.records[r].admitted;
    }
  }

  lemma {:induction false} EmptiesDispatch(s: State, r: nat) returns (steps: seq<Step>)
    requires r < |s.records|
    ensures Possible(s, steps)
    ensures After(s, steps) == With(s, r, s.records[r].(dispatch := {}, admitted := s.records[r].admitted - s.records[r].dispatch))
    decreases if r < |s.records| then s.records[r].dispatch else {}
  {
    if s.records[r].dispatch == {} {
      steps := [];
      assert s.records[r].admitted - {} == s.records[r].admitted;
    } else {
      var p :| p in s.records[r].dispatch;
      var first := LeavesDispatch(s, r, p);
      var rest := EmptiesDispatch(After(s, first), r);
      RunsOn(s, first, rest);
      steps := first + rest;
      assert s.records[r].admitted - {p} - (s.records[r].dispatch - {p}) == s.records[r].admitted - s.records[r].dispatch;
    }
  }

  // ----- coming to an end

  /** `q` differs from `s` in record `r` alone, which is cleaned up. */
  ghost predicate Cleaned(s: State, q: State, r: nat) {
    && r < |s.records| == |q.records| && q == With(s, r, q.records[r])
    && q.records[r].token == s.records[r].token && q.records[r].cleanup.Clean?
  }

  lemma Completes(s: State, o: nat, r: nat) returns (steps: seq<Step>)
    requires r < |s.records| && Finishing(s, o) == Some(r) && s.records[r].cleanup == Cleaning(o)
    ensures Possible(s, steps) && Cleaned(s, After(s, steps), r)
  {
    steps := [Complete(o)];
    OneMore(s, Complete(o), []);
  }

  lemma Drains(s: State, o: nat, r: nat) returns (steps: seq<Step>)
    requires r < |s.records| && Finishing(s, o) == Some(r) && s.records[r].cleanup == Draining(o) && s.records[r].dispatch == {}
    ensures Possible(s, steps) && Cleaned(s, After(s, steps), r)
  {
    var m := Do(s, Drain(o));
    var rest := Completes(m, o, r);
    OneMore(s, Drain(o), rest);
    steps := [Drain(o)] + rest;
  }

  lemma Begins(s: State, o: nat, r: nat) returns (steps: seq<Step>)
    requires r < |s.records| && Finishing(s, o) == Some(r) && s.records[r].cleanup == Idle && s.records[r].dispatch == {}
    ensures Possible(s, steps) && Cleaned(s, After(s, steps), r)
  {
    var m := Do(s, Begin(o));
    var rest := Drains(m, o, r);
    OneMore(s, Begin(o), rest);
    steps := [Begin(o)] + rest;
  }

  /** Whoever runs the cleanup, it can run to its end. */
  lemma CleansUp(s: State, p: nat, r: nat) returns (steps: seq<Step>)
    requires Valid(s) && r < |s.records| && Finishing(s, p) == Some(r)
    ensures Possible(s, steps) && Cleaned(s, After(s, steps), r)
  {
    hide Do, Enabled;
    assert Owned(s, r);
    var first := EmptiesDispatch(s, r);
    var m := After(s, first);
    assert m.processes == s.processes && m.records[r].cleanup == s.records[r].cleanup;
    assert forall o :: Finishing(m, o) == Finishing(s, o);
    var rest := [];
    match m.records[r].cleanup {
      case Idle => rest := Begins(m, p, r);
      case Draining(o) => rest := Drains(m, o, r);
      case Cleaning(o) => rest := Completes(m, o, r);
      case Clean => assert After(m, []) == m;
    }
    RunsOn(s, first, rest);
    steps := first + rest;
  }

  /** A process in `finish` can get past it, and the record is cleaned up then. */
  lemma Finishes(s: State, p: nat, r: nat) returns (steps: seq<Step>)
    requires Valid(s) && r < |s.records| && Finishing(s, p) == Some(r)
    ensures Possible(s, steps)
    ensures var q := After(s, steps);
      && Cleaned(s, q.(processes := s.processes), r)
      && q.processes == s.processes[p := if s.processes[p].Revoked? then Returned(s.processes[p].token, s.processes[p].found) else Swept(r)]
  {
    hide Valid;
    var first := CleansUp(s, p, r);
    var m := After(s, first);
    OneMore(m, Observe(p), []);
    RunsOn(s, first, [Observe(p)]);
    steps := first + [Observe(p)];
    assert Do(m, Observe(p)).(processes := s.processes) == m;
  }

  /** Every revoke that has committed can return, and its token's records are cleaned up or
      without a key then. */
  lemma RevokeReturns(s: State, p: nat) returns (steps: seq<Step>)
    requires Valid(s) && p in s.processes
    requires s.processes[p].Revoking? || s.processes[p].Purged? || s.processes[p].Revoked?
    ensures Possible(s, steps)
    ensures var q := After(s, steps);
      && p in q.processes && q.processes[p].Returned? && q.processes[p].token == s.processes[p].token
      && forall r :: 0 <= r < |q.records| && q.records[r].token == s.processes[p].token ==> !Open(q.records[r])
    decreases if p !in s.processes || s.processes[p].Revoked? then 0 else if s.processes[p].Purged? then 1 else 2
  {
    hide Valid, Do, Enabled;
    var first := [];
    if s.processes[p].Revoking? {
      first := Purges(s, p);
    } else if s.processes[p].Purged? {
      first := Cancels(s, p);
    } else {
      steps := LastOfRevoke(s, p);
      return;
    }
    AlwaysValid(s, first);
    var rest := RevokeReturns(After(s, first), p);
    RunsOn(s, first, rest);
    steps := first + rest;
  }

  lemma Purges(s: State, p: nat) returns (steps: seq<Step>)
    requires p in s.processes && s.processes[p].Revoking?
    ensures Possible(s, steps)
    ensures var q := After(s, steps); p in q.processes && q.processes[p].Purged? && q.processes[p].token == s.processes[p].token
  {
    steps := [Purge(p)];
    OneMore(s, Purge(p), []);
  }

  lemma Cancels(s: State, p: nat) returns (steps: seq<Step>)
    requires Valid(s) && p in s.processes && s.processes[p].Purged?
    ensures Possible(s, steps)
    ensures var q := After(s, steps); p in q.processes && q.processes[p].Revoked? && q.processes[p].token == s.processes[p].token
  {
    assert ProcessOk(s, s.processes[p]);
    var found := s.processes[p].found;
    var first := [];
    if found.Some? { first := EmptiesGate(s, found.value); }
    var m := After(s, first);
    OneMore(m, Cancel(p), []);
    RunsOn(s, first, [Cancel(p)]);
    steps := first + [Cancel(p)];
  }

  lemma LastOfRevoke(s: State, p: nat) returns (steps: seq<Step>)
    requires Valid(s) && p in s.processes && s.processes[p].Revoked?
    ensures Possible(s, steps)
    ensures var q := After(s, steps);
      && p in q.processes && q.processes[p].Returned? && q.processes[p].token == s.processes[p].token
      && forall r :: 0 <= r < |q.records| && q.records[r].token == s.processes[p].token ==> !Open(q.records[r])
  {
    assert ProcessOk(s, s.processes[p]);
    if s.processes[p].found.Some? {
      steps := Finishes(s, p, s.processes[p].found.value);
    } else {
      steps := [Observe(p)];
      OneMore(s, Observe(p), []);
    }
    AlwaysValid(s, steps);
    assert ProcessOk(After(s, steps), After(s, steps).processes[p]);
  }

  // ----- the sweep

  /** A cleanup that panics is anybody's again, and its process is gone. */
  lemma CrashesExactly(s: State, p: nat, r: nat)
    requires Finishing(s, p) == Some(r) && r < |s.records| && s.records[r].cleanup in {Draining(p), Cleaning(p)}
    ensures Enabled(s, Crash(p))
    ensures Do(s, Crash(p)) == s.(records := s.records[r := s.records[r].(cleanup := Cleanup.Idle)], processes := s.processes - {p})
  {
  }

  lemma FreshProcess(s: set<nat>) returns (p: nat)
    ensures p !in s
  {
    p := 0;
    var below: set<nat> := {};
    while p in s
      invariant below <= s && forall x :: x in below <==> 0 <= x < p
      invariant |below| == p
      decreases |s - below|
    {
      assert s - below - {p} == s - (below + {p});
      below := below + {p};
      p := p + 1;
    }
  }

  ghost predicate InSweep(s: State, r: nat) {
    || r in s.cancelling || (r in s.spawning && r < |s.records| && s.records[r].cancelled)
    || exists p :: Sweeps(s, p, r)
  }

  ghost predicate Sweeps(s: State, p: nat, r: nat) { p in s.processes && SweepOf(s.processes[p]) == Some(r) }

  lemma SweeperStays(s: State, step: Step, p: nat, r: nat)
    requires Enabled(s, step) && Sweeps(s, p, r) && ProcessOk(s, s.processes[p])
    ensures Sweeps(Do(s, step), p, r) || step.Crash? || (step.Remove? && r < |s.records| && s.records[r].cleanup.Clean?)
  {
    hide Live, Held, Cached, Resolved;
  }

  lemma CollectedStays(s: State, step: Step, r: nat)
    requires Enabled(s, step) && (r in s.cancelling || (r in s.spawning && r < |s.records| && s.records[r].cancelled))
    ensures var q := Do(s, step);
      || r in q.cancelling || (r in q.spawning && r < |q.records| && q.records[r].cancelled)
      || (step.Spawn? && Sweeps(q, step.p, r))
  {
    hide Live, Held;
  }

  /** What the sweep has collected stays in it until it is cleaned up, or its cleanup panics. */
  lemma StaysInSweep(s: State, step: Step, r: nat)
    requires Valid(s) && Enabled(s, step) && InSweep(s, r)
    ensures InSweep(Do(s, step), r) || step.Crash? || (step.Remove? && r < |s.records| && s.records[r].cleanup.Clean?)
  {
    hide Do, Enabled, ProcessOk;
    if p :| Sweeps(s, p, r) {
      SweeperStays(s, step, p, r);
    } else {
      CollectedStays(s, step, r);
    }
  }

  /** All records the sweep has collected can be cancelled. */
  lemma {:induction false} CancelsAll(s: State) returns (steps: seq<Step>)
    requires Valid(s)
    ensures Possible(s, steps)
    ensures var q := After(s, steps);
      && q.cancelling == {} && q.spawning == s.cancelling + s.spawning && q.processes == s.processes
      && |q.records| == |s.records| && forall r :: 0 <= r < |s.records| ==> q.records[r].token == s.records[r].token
    decreases s.cancelling
  {
    hide Do, Enabled, RecordsOk, OpenOk, CacheOk, ProcessesOk;
    if s.cancelling == {} {
      steps := [];
    } else {
      var r :| r in s.cancelling;
      var first := CancelsOne(s, r);
      AlwaysValid(s, first);
      var m := After(s, first);
      var rest := CancelsAll(m);
      RunsOn(s, first, rest);
      steps := first + rest;
      assert s.cancelling - {r} + (s.spawning + {r}) == s.cancelling + s.spawning;
    }
  }

  lemma CancelsOne(s: State, r: nat) returns (steps: seq<Step>)
    requires r in s.cancelling && r < |s.records|
    ensures Possible(s, steps)
    ensures var q := After(s, steps);
      && q.cancelling == s.cancelling - {r} && q.spawning == s.spawning + {r} && q.processes == s.processes
      && |q.records| == |s.records| && forall o :: 0 <= o < |s.records| ==> q.records[o].token == s.records[o].token
  {
    var first := EmptiesGate(s, r);
    var m := After(s, first);
    OneMore(m, CancelExpired(r), []);
    RunsOn(s, first, [CancelExpired(r)]);
    steps := first + [CancelExpired(r)];
  }

  /** Every record the sweep has collected can be cleaned up and taken out of the cache. */
  lemma SweepEnds(s: State, r: nat) returns (steps: seq<Step>)
    requires Valid(s) && (r in s.cancelling || r in s.spawning) && r < |s.records|
    ensures Possible(s, steps)
    ensures var q := After(s, steps);
      && r < |q.records| && q.records[r].token == s.records[r].token && q.records[r].cancelled && q.records[r].cleanup.Clean?
      && q.records[r].token !in q.active
  {
    hide Do, Enabled, Valid;
    var first := CancelsAll(s);
    AlwaysValid(s, first);
    var m := After(s, first);
    var p := FreshProcess(m.processes.Keys);
    var second := Spawns(m, p, r);
    AlwaysValid(m, second);
    var n := After(m, second);
    var third := Finishes(n, p, r);
    AlwaysValid(n, third);
    var o := After(n, third);
    var last := Removes(o, p, r);
    RunsOn(n, third, last);
    RunsOn(m, second, third + last);
    RunsOn(s, first, second + (third + last));
    steps := first + (second + (third + last));
  }

  lemma Spawns(s: State, p: nat, r: nat) returns (steps: seq<Step>)
    requires s.cancelling == {} && r in s.spawning && p !in s.processes
    ensures Possible(s, steps)
    ensures After(s, steps) == Becomes(s, p, Expiring(r)).(spawning := s.spawning - {r})
  {
    steps := [Spawn(p, r)];
    OneMore(s, Spawn(p, r), []);
  }

  lemma Removes(s: State, p: nat, r: nat) returns (steps: seq<Step>)
    requires Valid(s) && p in s.processes && s.processes[p] == Swept(r)
    ensures Possible(s, steps)
    ensures var q := After(s, steps);
      && q.records == s.records && r < |q.records| && q.records[r].cancelled && q.records[r].cleanup.Clean?
      && q.active == s.active - {q.records[r].token} && q.processes == s.processes - {p}
  {
    assert ProcessOk(s, s.processes[p]);
    assert RecordOk(s.records[r]);
    steps := [Remove(p)];
    OneMore(s, Remove(p), []);
  }
}
