/** The viewer's WebRTC channel: attempts, failures and retries beside a socket that
    comes and goes. */
module Recovery {
  import opened Common

  /** One attempt belongs to one socket; `g` tells attempts apart. */
  datatype Attempt = Attempt(socket: nat, g: nat)

  /** The socket: done with, being connected, open, or lost but not yet told so. */
  datatype Phase = Gone | Connecting | Open | Failing

  datatype Status = Idle | Unavailable | Starting | Retrying | Active | Waiting

  datatype Retry = Retry(socket: nat, delay: real)

  /** `limit`, `healthy` and `retry` are the armed timers, with what their callbacks captured.
      `closes` are the attempts the server was told are closed. */
  datatype Channel = Channel(
    phase: Phase, socket: nat, disposed: bool, chosen: bool, available: bool, supported: bool,
    attempt: Option<Attempt>, gen: nat, webrtc: bool,
    limit: Option<Attempt>, healthy: Option<Attempt>, retry: Option<Retry>,
    failures: nat, retries: nat, status: Status, lossy: seq<bool>, closes: seq<nat>)

  function Start(supported: bool, chosen: bool): Channel {
    Channel(Gone, 0, false, chosen, false, supported, None, 0, false, None, None, None, 0, 0, Idle, [], [])
  }

  datatype Step =
    | Connect | Opened | SocketFails | SocketCloses
    | ServerReady(peer: bool, jitter: real)
    | ServerCloses(g: nat, jitter: real)
    | Reconfigured(socket: bool, peer: bool, jitter: real)
    | TimedOut(of: Attempt, jitter: real)
    | PeerOpens(of: Attempt)
    | PeerCloses(of: Attempt, jitter: real)
    | Healthy
    | Tick(loss: bool, jitter: real)
    | RetryDue(peer: bool, jitter: real)
    | RetryNow(peer: bool, jitter: real)
    | Choose(webrtc: bool, peer: bool, jitter: real)
    | Dispose

  // ----- the delay

  const RETRY := 1000.0
  const RETRY_MAX := 30000.0

  function Power2(n: nat): (r: nat)
    ensures r > 0
  {
    if n == 0 then 1 else 2 * Power2(n - 1)
  }

  function Backoff(failures: nat): real {
    var d := RETRY * Power2(if failures < 5 then failures else 5) as real;
    if d < RETRY_MAX then d else RETRY_MAX
  }

  /** `jitter` is the random number, at least 0 and less than 1. */
  function Delay(failures: nat, jitter: real): real { Backoff(failures) * (0.8 + jitter * 0.2) }

  predicate Jitter(x: real) { 0.0 <= x < 1.0 }

  /** The delay is at least 0.8 of the backoff and less than all of it; the backoff doubles
      from one second and stops at thirty. */
  lemma DelayBounds(failures: nat, jitter: real)
    requires Jitter(jitter)
    ensures 0.8 * Backoff(failures) <= Delay(failures, jitter) < Backoff(failures)
    ensures 1000.0 <= Backoff(failures) <= 30000.0
    ensures failures <= 4 ==> Backoff(failures) == [1000.0, 2000.0, 4000.0, 8000.0, 16000.0][failures]
    ensures failures >= 5 ==> Backoff(failures) == 30000.0
  {
    assert Power2(1) == 2 && Power2(2) == 4 && Power2(3) == 8;
    assert Power2(4) == 16 && Power2(5) == 32;
    var b, f := Backoff(failures), 0.8 + jitter * 0.2;
    assert RETRY <= b;
    Times(b, 0.8, f);
    TimesLess(b, f);
  }

  lemma Times(b: real, x: real, y: real)
    requires b >= 0.0 && x <= y
    ensures b * x <= b * y
  {
  }

  lemma TimesLess(b: real, y: real)
    requires b > 0.0 && y < 1.0
    ensures b * y < b
  {
    assert b * y < b * 1.0;
  }

  // ----- handlers

  predicate Current(c: Channel, of: Attempt) {
    !c.disposed && c.attempt == Some(of) && c.socket == of.socket && c.phase == Open
  }

  function Closed(c: Channel, notify: bool): (q: Channel)
    ensures q.supported == c.supported
  {
    var told := notify && c.attempt.Some? && c.attempt.value.socket == c.socket && c.phase == Open;
    c.(limit := None, retry := None, healthy := None, attempt := None, webrtc := false,
       closes := if told then c.closes + [c.attempt.value.g] else c.closes,
       lossy := if c.webrtc then [] else c.lossy)
  }

  function Failed(c: Channel, jitter: real): (q: Channel)
    ensures q.supported == c.supported
  {
    if c.attempt.None? then c
    else
      var q := Closed(c, true);
      if q.disposed || !q.chosen || q.phase != Open then q
      else q.(retry := Some(Retry(q.socket, Delay(q.failures, jitter))), failures := q.failures + 1, status := Waiting)
  }

  /** `peer`: whether the peer connection can be made at all. */
  function Tried(c: Channel, retrying: bool, peer: bool, jitter: real): (q: Channel)
    ensures q.supported == c.supported
  {
    if (!retrying && c.retry.Some?) || c.disposed || c.attempt.Some? || !c.chosen || c.phase != Open then c
    else if !c.available || !c.supported then c.(status := Unavailable)
    else
      var q := Begun(c, retrying);
      if peer then q else Failed(q, jitter)
  }

  function Begun(c: Channel, retrying: bool): Channel {
    var attempt := Attempt(c.socket, c.gen + 1);
    c.(retry := None, attempt := Some(attempt), gen := c.gen + 1, limit := Some(attempt),
       retries := if retrying then c.retries + 1 else c.retries, status := if retrying then Retrying else Starting)
  }

  function Qualified(c: Channel): Channel { c.(healthy := c.attempt) }

  function Trues(lossy: seq<bool>): nat {
    if lossy == [] then 0 else (if lossy[0] then 1 else 0) + Trues(lossy[1..])
  }

  /** Three lossy seconds of the last ten give the video back to the socket. */
  function Ticked(c: Channel, loss: bool, jitter: real): (q: Channel)
    ensures q.supported == c.supported
  {
    var bad := c.webrtc && loss;
    var all := c.lossy + [bad];
    var q := (if bad then Qualified(c) else c).(lossy := if |all| > 10 then all[1..] else all);
    if Trues(q.lossy) >= 3 then Failed(q, jitter) else q
  }

  lemma Choosing(c: Channel, webrtc: bool, peer: bool, jitter: real)
    ensures Do(c, Choose(webrtc, peer, jitter)) ==
      if webrtc then Tried(c.(chosen := true), false, peer, jitter) else Closed(c.(chosen := false), true).(status := Idle)
  {
  }

  predicate Enabled(c: Channel, step: Step) {
    match step
    case Connect => c.phase == Gone && !c.disposed
    case Opened => c.phase == Connecting && !c.disposed
    case SocketFails => c.phase == Connecting || c.phase == Open
    case SocketCloses => c.phase != Gone && !c.disposed
    case ServerReady(_, jitter) => c.phase == Open && !c.disposed && Jitter(jitter)
    case ServerCloses(_, jitter) => c.phase == Open && !c.disposed && Jitter(jitter)
    case Reconfigured(_, _, jitter) => c.phase == Open && !c.disposed && Jitter(jitter)
    case TimedOut(of, jitter) => c.limit == Some(of) && Jitter(jitter)
    case PeerCloses(_, jitter) => Jitter(jitter)
    case Healthy => c.healthy.Some?
    case Tick(_, jitter) => Jitter(jitter)
    case RetryDue(_, jitter) => c.retry.Some? && Jitter(jitter)
    case RetryNow(_, jitter) => Jitter(jitter)
    case Choose(_, _, jitter) => Jitter(jitter)
    case _ => true
  }

  function Do(c: Channel, step: Step): Channel {
    match step
    case Connect => c.(phase := Connecting, socket := c.socket + 1)
    case Opened => c.(phase := Open)
    case SocketFails => c.(phase := Failing)
    case SocketCloses =>
      Closed(c.(phase := if c.phase == Open then Failing else c.phase), false).(phase := Gone, available := false, status := Unavailable)
    case ServerReady(peer, jitter) => Tried(c.(available := true), false, peer, jitter)
    case ServerCloses(g, jitter) => if c.attempt.Some? && g == c.gen then Failed(c, jitter) else c
    case Reconfigured(socket, peer, jitter) =>
      var q := if socket && c.webrtc then Failed(c, jitter) else c;
      if q.chosen then Tried(q, false, peer, jitter) else q
    case TimedOut(of, jitter) => if Current(c, of) then Failed(c.(limit := None), jitter) else c.(limit := None)
    case PeerOpens(of) =>
      if Current(c, of) then Qualified(c.(limit := None, webrtc := true, status := Active, lossy := [])) else c
    case PeerCloses(of, jitter) => if Current(c, of) then Failed(c, jitter) else c
    case Healthy =>
      c.(healthy := None,
         failures := if c.healthy.Some? && c.attempt == c.healthy && c.healthy.value.socket == c.socket && c.webrtc then 0 else c.failures)
    case Tick(loss, jitter) => Ticked(c, loss, jitter)
    case RetryDue(peer, jitter) =>
      if c.retry.Some? && c.retry.value.socket == c.socket then Tried(c.(retry := None), true, peer, jitter) else c.(retry := None)
    case RetryNow(peer, jitter) =>
      if c.status != Waiting then c else if c.phase != Open then c else Tried(c, true, peer, jitter)
    case Choose(webrtc, peer, jitter) =>
      if webrtc then Tried(c.(chosen := true), false, peer, jitter)
      else Closed(c.(chosen := false), true).(status := Idle)
    case Dispose => if c.disposed then c else Closed(c.(disposed := true), false).(phase := if c.phase == Gone then Gone else Failing, status := Unavailable)
  }

  // ----- what every step keeps

  ghost predicate Settled(c: Channel) {
    && !(c.attempt.Some? && c.retry.Some?) && (c.disposed ==> c.retry.None?)
    && (c.attempt.Some? ==> c.attempt.value == Attempt(c.socket, c.gen) && c.chosen && c.available && c.supported && !c.disposed)
    && (c.webrtc ==> c.attempt.Some?)
    && (c.available ==> c.phase == Open || c.phase == Failing)
    && (c.chosen && c.available && c.supported && c.phase == Open && !c.disposed ==> c.attempt.Some? || c.retry.Some?)
  }

  /** The delay of a pending retry is the one its failure count asks for. */
  ghost predicate Paced(retry: Retry, failures: nat) {
    failures > 0 && 0.8 * Backoff(failures - 1) <= retry.delay < Backoff(failures - 1)
  }

  ghost predicate Timers(c: Channel) {
    && (c.limit.Some? ==> c.limit == c.attempt && !c.webrtc)
    && (c.attempt.Some? && !c.webrtc && c.phase == Open ==> c.limit == c.attempt)
    && (c.healthy.Some? ==> c.healthy == c.attempt && c.webrtc)
    && (c.retry.Some? ==> c.retry.value.socket == c.socket && c.available && c.supported && c.status == Waiting && Paced(c.retry.value, c.failures))
  }

  ghost predicate Counts(c: Channel) {
    && |c.lossy| <= 10 && Trues(c.lossy) < 3 && (Trues(c.lossy) > 0 ==> c.webrtc)
    && (forall i :: 0 <= i < |c.closes| ==> c.closes[i] <= c.gen && (c.attempt.Some? ==> c.closes[i] < c.gen))
    && (forall i, j :: 0 <= i < j < |c.closes| ==> c.closes[i] < c.closes[j])
  }

  ghost predicate Valid(c: Channel) { Settled(c) && Timers(c) && Counts(c) }

  lemma CloseKeeps(c: Channel, notify: bool)
    requires Counts(c) && (c.attempt.Some? ==> c.attempt.value.g == c.gen) && (c.webrtc ==> c.attempt.Some?)
    ensures Counts(Closed(c, notify)) && Timers(Closed(c, notify))
  {
  }

  lemma FailKeeps(c: Channel, jitter: real)
    requires Counts(c.(lossy := [])) && |c.lossy| <= 10 && (Trues(c.lossy) > 0 ==> c.webrtc) && (Trues(c.lossy) < 3 || c.attempt.Some?)
    requires Settled(c) && Jitter(jitter) && (c.attempt.None? ==> Timers(c))
    ensures Valid(Failed(c, jitter))
  {
    if c.attempt.Some? {
      CloseKeeps(c.(lossy := []), true);
      DelayBounds(c.failures, jitter);
      NoTrues(c.lossy);
    }
  }

  lemma NoTrues(lossy: seq<bool>)
    ensures Trues(lossy) == 0 ==> Trues(lossy) < 3
    ensures Trues([]) == 0
  {
  }

  lemma TryKeeps(c: Channel, retrying: bool, peer: bool, jitter: real)
    requires Counts(c) && Timers(c) && Jitter(jitter)
    requires !(c.attempt.Some? && c.retry.Some?) && (c.disposed ==> c.retry.None?) && (c.webrtc ==> c.attempt.Some?)
    requires c.attempt.Some? ==> c.attempt.value == Attempt(c.socket, c.gen) && c.chosen && c.available && c.supported && !c.disposed
    requires c.available ==> c.phase == Open || c.phase == Failing
    ensures Valid(Tried(c, retrying, peer, jitter))
  {
    if (!retrying && c.retry.Some?) || c.disposed || c.attempt.Some? || !c.chosen || c.phase != Open {
    } else if !c.available || !c.supported {
      assert c.retry.None?;
    } else {
      var q := Begun(c, retrying);
      assert Valid(q);
      if !peer { FailKeeps(q, jitter); }
    }
  }

  lemma {:induction false} TruesShift(lossy: seq<bool>, bad: bool)
    ensures Trues(lossy + [bad]) == Trues(lossy) + if bad then 1 else 0
    ensures lossy != [] ==> Trues(lossy[1..]) <= Trues(lossy)
  {
    if lossy == [] {
      assert lossy + [bad] == [bad] && [bad][1..] == [];
    } else {
      assert (lossy + [bad])[1..] == lossy[1..] + [bad];
      TruesShift(lossy[1..], bad);
    }
  }

  lemma TickKeeps(c: Channel, loss: bool, jitter: real)
    requires Valid(c) && Jitter(jitter)
    ensures Valid(Ticked(c, loss, jitter))
    ensures !c.webrtc ==> Ticked(c, loss, jitter).attempt == c.attempt
  {
    var bad := c.webrtc && loss;
    var all := c.lossy + [bad];
    TruesShift(c.lossy, bad);
    TruesShift(all, false);
    var q := (if bad then Qualified(c) else c).(lossy := if |all| > 10 then all[1..] else all);
    if Trues(q.lossy) >= 3 { FailKeeps(q, jitter); }
  }

  lemma CloseSocketKeeps(c: Channel)
    requires Valid(c) && c.phase != Gone
    ensures Valid(Do(c, SocketCloses))
  {
    CloseKeeps(c.(phase := if c.phase == Open then Failing else c.phase), false);
  }

  lemma ReconfigureKeeps(c: Channel, socket: bool, peer: bool, jitter: real)
    requires Valid(c) && Jitter(jitter)
    ensures Valid(Do(c, Reconfigured(socket, peer, jitter)))
  {
    FailKeeps(c, jitter);
    TryKeeps(if socket && c.webrtc then Failed(c, jitter) else c, false, peer, jitter);
  }

  lemma TimeoutKeeps(c: Channel, of: Attempt, jitter: real)
    requires Valid(c) && c.limit == Some(of) && Jitter(jitter)
    ensures Valid(Do(c, TimedOut(of, jitter)))
  {
    if Current(c, of) { FailKeeps(c.(limit := None), jitter); }
  }

  lemma OffKeeps(c: Channel)
    requires Valid(c)
    ensures Valid(Closed(c.(chosen := false), true).(status := Idle))
  {
    hide Paced, Trues;
    CloseKeeps(c.(chosen := false), true);
  }

  lemma ChooseKeeps(c: Channel, webrtc: bool, peer: bool, jitter: real)
    requires Valid(c) && Jitter(jitter)
    ensures Valid(Do(c, Choose(webrtc, peer, jitter)))
  {
    Choosing(c, webrtc, peer, jitter);
    hide Do, Closed, Paced, Tried, Trues;
    if webrtc { TryKeeps(c.(chosen := true), false, peer, jitter); } else { OffKeeps(c); }
  }

  lemma DisposeKeeps(c: Channel)
    requires Valid(c)
    ensures Valid(Do(c, Dispose))
  {
    if !c.disposed { CloseKeeps(c.(disposed := true), false); }
  }

  lemma OpenKeeps(c: Channel, of: Attempt)
    requires Valid(c)
    ensures Valid(Do(c, PeerOpens(of)))
  {
  }

  lemma RetryKeeps(c: Channel, peer: bool, jitter: real)
    requires Valid(c) && Jitter(jitter)
    ensures c.retry.Some? ==> Valid(Do(c, RetryDue(peer, jitter)))
    ensures Valid(Do(c, RetryNow(peer, jitter)))
  {
    if c.retry.Some? { TryKeeps(c.(retry := None), true, peer, jitter); }
    TryKeeps(c, true, peer, jitter);
  }

  lemma SocketKeeps(c: Channel)
    requires Valid(c)
    ensures c.phase == Gone ==> Valid(Do(c, Connect))
    ensures c.phase == Connecting ==> Valid(Do(c, Opened))
    ensures c.phase == Connecting || c.phase == Open ==> Valid(Do(c, SocketFails))
    ensures Valid(Do(c, Healthy))
  {
    hide Trues, Backoff;
  }

  lemma StepKeeps(c: Channel, step: Step)
    requires Valid(c) && Enabled(c, step)
    ensures Valid(Do(c, step))
  {
    match step
    case SocketCloses => CloseSocketKeeps(c);
    case ServerReady(peer, jitter) => TryKeeps(c.(available := true), false, peer, jitter);
    case ServerCloses(g, jitter) => FailKeeps(c, jitter);
    case Reconfigured(socket, peer, jitter) => ReconfigureKeeps(c, socket, peer, jitter);
    case TimedOut(of, jitter) => TimeoutKeeps(c, of, jitter);
    case PeerOpens(of) => OpenKeeps(c, of);
    case PeerCloses(of, jitter) => FailKeeps(c, jitter);
    case Tick(loss, jitter) => TickKeeps(c, loss, jitter);
    case RetryDue(peer, jitter) => RetryKeeps(c, peer, jitter);
    case RetryNow(peer, jitter) => RetryKeeps(c, peer, jitter);
    case Choose(webrtc, peer, jitter) => ChooseKeeps(c, webrtc, peer, jitter);
    case Dispose => DisposeKeeps(c);
    case _ => SocketKeeps(c);
  }

  // ----- runs

  ghost predicate Possible(c: Channel, steps: seq<Step>)
    decreases |steps|
  {
    steps != [] ==> Enabled(c, steps[0]) && Possible(Do(c, steps[0]), steps[1..])
  }

  ghost function After(c: Channel, steps: seq<Step>): Channel
    requires Possible(c, steps)
    decreases |steps|
  {
    if steps == [] then c else After(Do(c, steps[0]), steps[1..])
  }

  lemma {:induction false} AlwaysValid(c: Channel, steps: seq<Step>)
    requires Valid(c) && Possible(c, steps)
    ensures Valid(After(c, steps))
    decreases |steps|
  {
    if steps != [] {
      StepKeeps(c, steps[0]);
      AlwaysValid(Do(c, steps[0]), steps[1..]);
    }
  }

  /** In every run: never both an attempt and a retry timer; video over the channel means an
      attempt made on the current socket; while the channel is wanted, possible and the socket
      open, one of attempt and timer is there; an attempt is open or has its limit armed. */
  lemma RecoveryHolds(supported: bool, chosen: bool, steps: seq<Step>)
    requires Possible(Start(supported, chosen), steps)
    ensures var c := After(Start(supported, chosen), steps);
      && !(c.attempt.Some? && c.retry.Some?)
      && (c.webrtc ==> c.attempt.Some? && c.attempt.value.socket == c.socket)
      && (c.chosen && c.available && supported && c.phase == Open && !c.disposed ==> c.attempt.Some? || c.retry.Some?)
      && (c.attempt.Some? && c.phase == Open ==> c.webrtc || c.limit == c.attempt)
      && (c.disposed ==> c.attempt.None? && c.retry.None?)
  {
    AlwaysValid(Start(supported, chosen), steps);
    KeepsSupport(Start(supported, chosen), steps);
  }

  lemma StepSupport(c: Channel, step: Step)
    ensures Do(c, step).supported == c.supported
  {
    hide Closed, Failed, Tried, Ticked;
  }

  lemma {:induction false} KeepsSupport(c: Channel, steps: seq<Step>)
    requires Possible(c, steps)
    ensures After(c, steps).supported == c.supported
    decreases |steps|
  {
    if steps != [] {
      StepSupport(c, steps[0]);
      KeepsSupport(Do(c, steps[0]), steps[1..]);
    }
  }

  /** A pending retry is for the current socket, can be hurried by the user, and waits between
      0.8 and 1 times the backoff of the failures before the one that armed it. */
  lemma RetriesPaced(supported: bool, chosen: bool, steps: seq<Step>)
    requires Possible(Start(supported, chosen), steps) && After(Start(supported, chosen), steps).retry.Some?
    ensures var c := After(Start(supported, chosen), steps);
      && c.retry.value.socket == c.socket && c.status == Waiting && c.failures > 0
      && 0.8 * Backoff(c.failures - 1) <= c.retry.value.delay < Backoff(c.failures - 1)
      && 800.0 <= c.retry.value.delay < 30000.0
  {
    AlwaysValid(Start(supported, chosen), steps);
    DelayBounds(After(Start(supported, chosen), steps).failures - 1, 0.0);
  }

  /** The server is told of the end of an attempt at most once, and only of one that is over. */
  lemma ClosesOnce(supported: bool, chosen: bool, steps: seq<Step>, i: nat, j: nat)
    requires Possible(Start(supported, chosen), steps)
    requires i < j < |After(Start(supported, chosen), steps).closes|
    ensures var c := After(Start(supported, chosen), steps);
      && c.closes[i] != c.closes[j]
      && (c.attempt.Some? ==> c.attempt.value.g != c.closes[i] && c.attempt.value.g != c.closes[j])
  {
    AlwaysValid(Start(supported, chosen), steps);
  }

  /** Whatever an attempt that is over still reports changes nothing, and no timer of its own
      is left to fire. */
  lemma StaleIgnored(supported: bool, chosen: bool, steps: seq<Step>, of: Attempt, jitter: real)
    requires Possible(Start(supported, chosen), steps) && Jitter(jitter)
    requires After(Start(supported, chosen), steps).attempt != Some(of)
    ensures var c := After(Start(supported, chosen), steps);
      && Do(c, PeerOpens(of)) == c && Do(c, PeerCloses(of, jitter)) == c
      && c.limit != Some(of) && c.healthy != Some(of)
      && (of.g != c.gen ==> Do(c, ServerCloses(of.g, jitter)) == c)
  {
    AlwaysValid(Start(supported, chosen), steps);
  }

  /** One event adds at most one failure, and only ten healthy seconds of video over the
      channel take them back. */
  lemma FailuresMove(c: Channel, step: Step)
    requires Valid(c) && Enabled(c, step)
    ensures var q := Do(c, step);
      q.failures == c.failures || q.failures == c.failures + 1 || (step.Healthy? && c.webrtc && q.failures == 0)
    ensures Do(c, step).failures > c.failures ==> Do(c, step).retry.Some?
  {
    match step
    case Reconfigured(socket, peer, jitter) => var q := if socket && c.webrtc then Failed(c, jitter) else c;
    case _ =>
  }

  // ----- the channel in place

  class Peer {
    var phase: Phase
    var socket: nat
    var disposed: bool
    var chosen: bool
    var available: bool
    var supported: bool
    var attempt: Option<Attempt>
    var gen: nat
    var webrtc: bool
    var limit: Option<Attempt>
    var healthy: Option<Attempt>
    var retry: Option<Retry>
    var failures: nat
    var retries: nat
    var status: Status
    var lossy: seq<bool>
    var closes: seq<nat>

    function Model(): Channel
      reads this
    {
      Channel(phase, socket, disposed, chosen, available, supported, attempt, gen, webrtc, limit, healthy, retry,
              failures, retries, status, lossy, closes)
    }

    constructor (supported: bool, chosen: bool)
      ensures Model() == Start(supported, chosen)
    {
      phase, socket, disposed, available, attempt, gen, webrtc := Gone, 0, false, false, None, 0, false;
      limit, healthy, retry, failures, retries, status, lossy, closes := None, None, None, 0, 0, Idle, [], [];
      this.supported, this.chosen := supported, chosen;
    }

    method Disarm()
      modifies `limit, `retry, `healthy
      ensures Model() == old(Model()).(limit := None, retry := None, healthy := None)
    {
      limit, retry, healthy := None, None, None;
    }

    method CloseRtc(notify: bool)
      modifies `limit, `retry, `healthy, `attempt, `webrtc, `closes, `lossy
      ensures Model() == Closed(old(Model()), notify)
    {
      Disarm();
      var was, changedPath := attempt, webrtc;
      attempt := None;
      if notify && was.Some? && was.value.socket == socket && phase == Open { closes := closes + [was.value.g]; }
      webrtc := false;
      if changedPath { lossy := []; }
    }

    method FailRtc(jitter: real)
      modifies `limit, `retry, `healthy, `attempt, `webrtc, `closes, `lossy, `failures, `status
      ensures Model() == Failed(old(Model()), jitter)
    {
      hide Closed, Delay;
      if attempt.None? { return; }
      CloseRtc(true);
      if disposed || !chosen || phase != Open { return; }
      var delay := Delay(failures, jitter);
      failures := failures + 1;
      status := Waiting;
      retry := Some(Retry(socket, delay));
    }

    method MaybeRtc(retrying: bool, peer: bool, jitter: real)
      modifies `limit, `retry, `healthy, `attempt, `webrtc, `closes, `lossy, `failures, `status, `gen, `retries
      ensures Model() == Tried(old(Model()), retrying, peer, jitter)
    {
      hide Failed, Begun;
      if (!retrying && retry.Some?) || disposed || attempt.Some? || !chosen || phase != Open { return; }
      if !available || !supported {
        status := Unavailable;
        return;
      }
      StartRtc(retrying);
      if !peer { FailRtc(jitter); }
    }

    method StartRtc(retrying: bool)
      modifies `limit, `retry, `attempt, `status, `gen, `retries
      ensures Model() == Begun(old(Model()), retrying)
    {
      retry := None;
      gen := gen + 1;
      attempt := Some(Attempt(socket, gen));
      if retrying { retries := retries + 1; }
      status := if retrying then Retrying else Starting;
      limit := attempt;
    }

    method QualifyHealthyRtc()
      modifies `healthy
      ensures Model() == Qualified(old(Model()))
    {
      healthy := attempt;
    }

    method OnOpen(of: Attempt)
      modifies `limit, `lossy, `webrtc, `status, `healthy
      ensures Model() == Do(old(Model()), PeerOpens(of))
    {
      if disposed || attempt != Some(of) || socket != of.socket || phase != Open { return; }
      TakeOver();
      QualifyHealthyRtc();
    }

    method TakeOver()
      modifies `limit, `lossy, `webrtc, `status
      ensures Model() == old(Model()).(limit := None, lossy := [], webrtc := true, status := Active)
    {
      limit := None;
      lossy := [];
      webrtc := true;
      status := Active;
    }

    /** Once a second. */
    method OnTick(loss: bool, jitter: real)
      modifies `limit, `retry, `healthy, `attempt, `webrtc, `closes, `lossy, `failures, `status
      ensures Model() == Ticked(old(Model()), loss, jitter)
    {
      var bad := webrtc && loss;
      lossy := lossy + [bad];
      if bad { QualifyHealthyRtc(); }
      if |lossy| > 10 { lossy := lossy[1..]; }
      if Trues(lossy) >= 3 { FailRtc(jitter); }
    }

    method SetTransport(wanted: bool, peer: bool, jitter: real)
      modifies `limit, `retry, `healthy, `attempt, `webrtc, `closes, `lossy, `failures, `status, `gen, `retries, `chosen
      ensures Model() == Do(old(Model()), Choose(wanted, peer, jitter))
    {
      Choosing(Model(), wanted, peer, jitter);
      hide Do, Tried, Closed;
      chosen := wanted;
      if wanted {
        MaybeRtc(false, peer, jitter);
      } else {
        CloseRtc(true);
        status := Idle;
      }
    }

    method RetryRtc(peer: bool, jitter: real)
      modifies `limit, `retry, `healthy, `attempt, `webrtc, `closes, `lossy, `failures, `status, `gen, `retries
      ensures Model() == Do(old(Model()), RetryNow(peer, jitter))
    {
      if status != Waiting { return; }
      if phase != Open { return; }
      MaybeRtc(true, peer, jitter);
    }
  }
}
