/** When an attempt at the WebRTC channel begins, when it ends and what follows, told for
    every event from outside. */
module RecoveryLaws {
  import opened Common
  import opened Recovery

  /** The lossy seconds among the last nine and this one. */
  function Losses(c: Channel): nat { Trues(if |c.lossy| == 10 then c.lossy[1..] else c.lossy) }

  /** What ends attempt `a`. */
  predicate EndedBy(c: Channel, a: Attempt, step: Step) {
    match step
    case SocketCloses => true
    case ServerCloses(g, _) => g == a.g
    case Reconfigured(socket, _, _) => socket && c.webrtc
    case TimedOut(of, _) => of == a && c.phase == Open
    case PeerCloses(of, _) => of == a && c.phase == Open
    case Tick(loss, _) => c.webrtc && loss && Losses(c) == 2
    case Choose(webrtc, _, _) => !webrtc
    case Dispose => true
    case _ => false
  }

  /** The ways an attempt ends that are failures of the channel. */
  predicate Fails(step: Step) { !step.SocketCloses? && !step.Choose? && !step.Dispose? }

  lemma TickEnds(c: Channel, a: Attempt, loss: bool, jitter: real)
    requires Valid(c) && c.attempt == Some(a) && Jitter(jitter)
    ensures var q := Ticked(c, loss, jitter);
      var last := if |c.lossy| == 10 then c.lossy[1..] else c.lossy;
      && (c.webrtc && loss && Losses(c) == 2 ==> q == Failed(c.(lossy := [], healthy := c.attempt), jitter))
      && (!(c.webrtc && loss && Losses(c) == 2) ==>
            q == c.(lossy := last + [c.webrtc && loss], healthy := if c.webrtc && loss then c.attempt else c.healthy))
  {
    var bad := c.webrtc && loss;
    var last := if |c.lossy| == 10 then c.lossy[1..] else c.lossy;
    TruesShift(c.lossy, false);
    TruesShift(last, bad);
    var all := c.lossy + [bad];
    assert (if |all| > 10 then all[1..] else all) == last + [bad];
  }

  /** An attempt goes on through every other event, and where one ends it: the server is told
      if the viewer ended it on an open socket, and after a failure there a retry is armed. */
  lemma EndsExactly(c: Channel, a: Attempt, step: Step)
    requires Valid(c) && Enabled(c, step) && c.attempt == Some(a)
    ensures var q := Do(c, step);
      && (q.attempt != Some(a) <==> EndedBy(c, a, step))
      && (EndedBy(c, a, step) ==> q.attempt.None? && !q.webrtc && q.limit.None? && q.healthy.None?)
      && q.closes == c.closes + (if EndedBy(c, a, step) && c.phase == Open && !step.SocketCloses? && !step.Dispose? then [a.g] else [])
      && (EndedBy(c, a, step) && Fails(step) && c.phase == Open ==>
            q.retry.Some? && q.retry.value.socket == c.socket && q.failures == c.failures + 1 && q.status == Waiting)
      && (EndedBy(c, a, step) && !(Fails(step) && c.phase == Open) ==> q.retry.None? && q.failures == c.failures)
      && (step.Choose? && !step.webrtc ==> q.status == Status.Idle)
      && (step.SocketCloses? || step.Dispose? ==> q.status == Unavailable)
  {
    if step.Tick? {
      TickEnds(c, a, step.loss, step.jitter);
      hide Ticked;
    }
  }

  /** What begins an attempt: the configuration of the server, the viewer's choice, or a retry
      that is due or hurried. */
  predicate Begins(c: Channel, step: Step) {
    && c.phase == Open && !c.disposed && c.supported
    && match step
       case ServerReady(_, _) => c.chosen && c.retry.None?
       case Choose(webrtc, _, _) => webrtc && c.available && c.retry.None?
       case RetryDue(_, _) => c.chosen
       case RetryNow(_, _) => c.status == Waiting && c.chosen && c.available
       case _ => false
  }

  predicate Makes(step: Step) {
    (step.ServerReady? || step.Choose? || step.RetryDue? || step.RetryNow?) && step.peer
  }

  predicate IsRetry(step: Step) { step.RetryDue? || step.RetryNow? }

  /** Without an attempt, exactly those begin one, on the current socket and with its limit
      armed; if no peer can be made it has failed at once and the next retry is armed. */
  lemma BeginsExactly(c: Channel, step: Step)
    requires Valid(c) && Enabled(c, step) && c.attempt.None?
    ensures var q, a := Do(c, step), Attempt(c.socket, c.gen + 1);
      && (q.attempt.Some? <==> Begins(c, step) && Makes(step))
      && (q.attempt.Some? ==> q.attempt == Some(a) && q.limit == Some(a) && q.retry.None? && q.failures == c.failures && q.closes == c.closes)
      && (q.attempt.Some? ==> q.status == if IsRetry(step) then Retrying else Starting)
      && q.gen == c.gen + (if Begins(c, step) then 1 else 0)
      && q.retries == c.retries + (if Begins(c, step) && IsRetry(step) then 1 else 0)
      && (Begins(c, step) && !Makes(step) ==>
            && q.retry.Some? && q.retry.value.socket == c.socket && q.failures == c.failures + 1 && q.status == Waiting
            && q.closes == c.closes + [a.g])
  {
    hide Trues, Backoff, Delay;
    if step.Tick? { NoFailure(c, step.loss, step.jitter); }
  }

  lemma NoFailure(c: Channel, loss: bool, jitter: real)
    requires c.attempt.None?
    ensures var q := Ticked(c, loss, jitter);
      && q.attempt.None? && q.gen == c.gen && q.retries == c.retries && q.closes == c.closes && q.failures == c.failures && q.retry == c.retry
  {
  }

  /** Whoever wants the channel on an open socket and has neither an attempt nor a retry is
      told that it is not to be had. */
  lemma TellsUnavailable(c: Channel, step: Step)
    requires Valid(c) && Enabled(c, step) && c.attempt.None? && c.retry.None? && c.phase == Open && !c.disposed
    requires (step.Reconfigured? && c.chosen) || (step.ServerReady? && c.chosen) || (step.Choose? && step.webrtc)
    requires !Begins(c, step)
    ensures Do(c, step).status == Unavailable && Do(c, step).attempt.None? && Do(c, step).retry.None?
  {
    hide Trues, Backoff, Delay;
  }

  lemma StartsFresh(supported: bool, chosen: bool)
    ensures var c := Start(supported, chosen);
      Valid(c) && !c.disposed && c.phase == Gone && c.chosen == chosen && c.supported == supported && c.failures == 0
  {
    assert Trues([]) == 0;
  }

  lemma PeerOpened(c: Channel, of: Attempt)
    requires Valid(c) && c.attempt == Some(of) && c.phase == Open
    ensures var q := Do(c, PeerOpens(of));
      q.webrtc && q.phase == Open && q.attempt == Some(of) && q.healthy == Some(of) && q.limit.None? && q.failures == c.failures && q.status == Active
  {
  }

  /** What can come at any time, on an open socket, and from a timer that is armed. */
  lemma ComesAnyTime(c: Channel, of: Attempt, g: nat, flag: bool, jitter: real)
    requires Jitter(jitter)
    ensures Enabled(c, PeerOpens(of)) && Enabled(c, PeerCloses(of, jitter)) && Enabled(c, Tick(flag, jitter))
    ensures Enabled(c, RetryNow(flag, jitter)) && Enabled(c, Choose(flag, flag, jitter)) && Enabled(c, Dispose)
    ensures c.phase == Open && !c.disposed ==>
      Enabled(c, ServerReady(flag, jitter)) && Enabled(c, ServerCloses(g, jitter)) && Enabled(c, Reconfigured(flag, flag, jitter))
    ensures c.limit.Some? ==> Enabled(c, TimedOut(c.limit.value, jitter))
    ensures c.retry.Some? ==> Enabled(c, RetryDue(flag, jitter))
  {
  }

  /** The socket's own events. */
  lemma SocketExactly(c: Channel)
    requires Valid(c)
    ensures c.phase == Gone && !c.disposed ==>
      Enabled(c, Connect) && Do(c, Connect) == c.(phase := Connecting, socket := c.socket + 1)
    ensures c.phase == Connecting && !c.disposed ==> Enabled(c, Opened) && Do(c, Opened) == c.(phase := Open)
    ensures c.phase == Connecting || c.phase == Open ==> Enabled(c, SocketFails) && Do(c, SocketFails) == c.(phase := Failing)
    ensures c.phase != Gone && !c.disposed ==>
      && Enabled(c, SocketCloses)
      && var q := Do(c, SocketCloses); q.phase == Gone && !q.available && q.attempt.None? && q.retry.None? && q.chosen == c.chosen && q.status == Unavailable
    ensures var q := Do(c, Dispose);
      && q.disposed && q.attempt.None? && q.retry.None? && (c.disposed ==> q == c)
      && (!c.disposed ==> q.status == Unavailable && (q.phase.Gone? || q.phase.Failing?) && (q.phase.Gone? <==> c.phase.Gone?))
  {
  }

  /** An event before a run. */
  lemma OneMore(c: Channel, step: Step, steps: seq<Step>)
    requires Enabled(c, step) && Possible(Do(c, step), steps)
    ensures Possible(c, [step] + steps) && After(c, [step] + steps) == After(Do(c, step), steps)
  {
    assert ([step] + steps)[1..] == steps;
  }

  /** An attempt takes the video over when its peer opens, and ten healthy seconds from then
      forget the failures; one that has not opened ends with its limit. */
  lemma OpensOrEnds(c: Channel, of: Attempt, jitter: real)
    requires Valid(c) && c.attempt == Some(of) && c.phase == Open && Jitter(jitter)
    ensures Possible(c, [PeerOpens(of), Healthy])
    ensures var q := After(c, [PeerOpens(of), Healthy]); q.webrtc && q.attempt == Some(of) && q.status == Active && q.failures == 0
    ensures !c.webrtc ==> Enabled(c, TimedOut(of, jitter))
    ensures !c.webrtc ==> var q := Do(c, TimedOut(of, jitter)); q.attempt.None? && q.retry.Some? && q.failures == c.failures + 1
  {
    var q := Do(c, PeerOpens(of));
    StepKeeps(c, PeerOpens(of));
    PeerOpened(c, of);
    OneMore(q, Healthy, []);
    OneMore(c, PeerOpens(of), [Healthy]);
    if !c.webrtc { EndsExactly(c, of, TimedOut(of, jitter)); }
  }

  /** On an open socket the server's configuration, and then the peer, can come. */
  lemma TakesOver(c: Channel) returns (steps: seq<Step>)
    requires Valid(c) && c.phase == Open && !c.disposed && c.chosen && c.supported && c.attempt.None? && c.retry.None?
    ensures Possible(c, steps) && After(c, steps).webrtc && After(c, steps).phase == Open
  {
    var ready := Do(c, ServerReady(true, 0.0));
    BeginsExactly(c, ServerReady(true, 0.0));
    StepKeeps(c, ServerReady(true, 0.0));
    var of := Attempt(c.socket, c.gen + 1);
    PeerOpened(ready, of);
    assert ready.phase == Open;
    hide Do, Valid;
    OneMore(ready, PeerOpens(of), []);
    OneMore(c, ServerReady(true, 0.0), [PeerOpens(of)]);
    steps := [ServerReady(true, 0.0)] + [PeerOpens(of)];
  }

  lemma Connects(c: Channel) returns (steps: seq<Step>)
    requires Valid(c) && c.phase == Gone && !c.disposed && c.chosen && c.supported
    ensures Possible(c, steps) && After(c, steps).webrtc && After(c, steps).phase == Open
  {
    SocketExactly(c);
    StepKeeps(c, Connect);
    var dialed := Do(c, Connect);
    SocketExactly(dialed);
    StepKeeps(dialed, Opened);
    var rest := TakesOver(Do(dialed, Opened));
    OneMore(dialed, Opened, rest);
    OneMore(c, Connect, [Opened] + rest);
    steps := [Connect] + ([Opened] + rest);
  }

  /** Whatever happened before, a viewer that is not disposed of and wants the channel can get
      its video over it on a new socket. */
  lemma CanRecover(c: Channel) returns (steps: seq<Step>)
    requires Valid(c) && !c.disposed && c.chosen && c.supported
    ensures Possible(c, steps) && After(c, steps).webrtc && After(c, steps).phase == Open
  {
    if c.phase == Gone {
      steps := Connects(c);
    } else {
      SocketExactly(c);
      StepKeeps(c, SocketCloses);
      StepSupport(c, SocketCloses);
      var gone := Do(c, SocketCloses);
      var rest := Connects(gone);
      OneMore(c, SocketCloses, rest);
      steps := [SocketCloses] + rest;
    }
  }
}
