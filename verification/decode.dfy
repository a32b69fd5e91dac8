/** Video admission in the viewer: 16-bit sequence numbers, key frames, decoder changes. */
module Decode {
  import opened Common

  const WRAP := 0x10000
  const HALF := 0x8000
  const QUEUE := 4

  // ----- sequence numbers

  type Stamp = n: nat | n < WRAP
  type Last = n: int | -1 <= n < WRAP witness -1

  /** `x & 0xffff` of a difference of two 16-bit numbers, or one less. */
  function Mask(x: int): Stamp
    requires -WRAP <= x < WRAP
  {
    if x < 0 then x + WRAP else x
  }

  /** The low 16 bits of a frame's true number: what its header holds. */
  function Low(number: nat): Stamp {
    if number < WRAP then number else Low(number - WRAP)
  }

  function Successor(stamp: Stamp): Stamp { if stamp + 1 == WRAP then 0 else stamp + 1 }

  /** Late and duplicate frames fail this test. */
  predicate Newer(last: Last, stamp: Stamp) { last < 0 || Mask(last - stamp) >= HALF }

  function Gap(last: Last, stamp: Stamp): nat { if last < 0 then 0 else Mask(stamp - last - 1) }

  lemma ModOf(q: int, r: nat)
    requires r < WRAP
    ensures (q * WRAP + r) % WRAP == r
  {
  }

  lemma MaskIsMod(x: int)
    requires -WRAP <= x < WRAP
    ensures Mask(x) == x % WRAP
  {
    ModOf(if x < 0 then -1 else 0, Mask(x));
  }

  /** A number is its low bits and a multiple of 2^16. */
  lemma {:induction false} LowIs(number: nat) returns (q: int)
    ensures number == q * WRAP + Low(number)
    ensures Low(number) == number % WRAP && Low(number + 1) == Successor(Low(number))
    decreases number
  {
    if number < WRAP {
      q := 0;
      assert number + 1 == WRAP ==> Low(number + 1) == Low(0);
    } else {
      var p := LowIs(number - WRAP);
      q := p + 1;
      ModOf(q, Low(number));
    }
  }

  /** For all frame numbers: accepted are those one to 2^15 ahead, counted round the wrap. */
  lemma AcceptsAhead(last: nat, number: nat)
    ensures Newer(Low(last), Low(number)) <==> 1 <= (number - last) % WRAP <= HALF
  {
    var p := LowIs(last);
    var q := LowIs(number);
    Circling(number - last, Low(number) as int - Low(last) as int, q - p);
    AheadOf(Low(last), Low(number));
  }

  lemma Circling(ahead: int, x: int, turns: int)
    requires ahead == turns * WRAP + x && -WRAP < x < WRAP
    ensures ahead % WRAP == Mask(x)
  {
    ModOf(if x < 0 then turns - 1 else turns, Mask(x));
  }

  lemma AheadOf(last: Stamp, stamp: Stamp)
    ensures Newer(last, stamp) <==> 1 <= Mask(stamp - last) <= HALF
  {
  }

  lemma NearCases(last: Stamp, stamp: Stamp, ahead: int, turns: int)
    requires ahead == turns * WRAP + (stamp - last) && -HALF < ahead < HALF
    ensures Newer(last, stamp) <==> ahead > 0
    ensures ahead > 0 ==> Gap(last, stamp) == ahead - 1
  {
    assert -1 <= turns <= 1;
  }

  /** While frames arrive less than 2^15 numbers apart the tests are exact: a frame is taken
      if and only if it is newer, and the gap is the number of frames skipped. */
  lemma NearIsExact(last: nat, number: nat)
    requires -HALF < number - last < HALF
    ensures Newer(Low(last), Low(number)) <==> number > last
    ensures number > last ==> Gap(Low(last), Low(number)) == number - last - 1
  {
    var p := LowIs(last);
    var q := LowIs(number);
    NearCases(Low(last), Low(number), number - last, q - p);
  }

  // ----- the player

  datatype Given = Given(decoder: nat, key: bool, stamp: Stamp, number: nat)

  /** `open`: the socket is open; `configured`: the stream's CONFIG came on it. `number` is the
      true number of the last frame taken, `due` whether a key frame was asked for or announced
      since the last one was given, and `given` what the decoders got; the code keeps none of
      the three. */
  datatype Player = Player(
    open: bool, configured: bool, webrtc: bool, videoSeq: Last, awaitingKey: bool,
    decoder: Option<nat>, closed: bool, decoders: nat, dropNext: bool, lost: nat, dropped: nat,
    requests: nat, number: nat, due: bool, given: seq<Given>)

  const START := Player(false, false, false, -1, true, None, false, 0, false, 0, 0, 0, 0, false, [])

  /** A frame's `number` is its true one; its header has the low 16 bits of it, the `stamp`. */
  datatype Frame = Frame(socket: bool, key: bool, number: nat, stamp: Stamp, stale: bool, queue: nat)

  predicate Stamped(frame: Frame) { frame.stamp == Low(frame.number) }

  datatype Step =
    | Connected
    | Config(socket: bool, initial: bool, configures: bool)
    | Video(frame: Frame, throws: bool, configures: bool)
    | DecoderFails(configures: bool)
    | PictureFails
    | Announced
    | RtcOpens
    | RtcCloses
    | DropNext
    | SocketFails
    | Retired

  predicate Active(p: Player) { p.open && p.configured }

  function Asked(p: Player): Player { p.(requests := p.requests + 1, due := true) }

  /** `newDecoder`: the old one is closed before the new one is configured, which can fail. */
  function Renewed(p: Player, configures: bool): Player {
    if !Active(p) then p
    else if !configures then p.(closed := true)
    else p.(decoder := Some(p.decoders), closed := false, decoders := p.decoders + 1, awaitingKey := true, due := false)
  }

  function Resynced(p: Player, configures: bool): Player {
    if Active(p) && configures then Asked(Renewed(p, configures)) else Renewed(p, configures)
  }

  function Configured(p: Player, socket: bool, initial: bool, configures: bool): Player {
    var q := p.(configured := true, videoSeq := -1, webrtc := p.webrtc && !socket);
    if !initial then Resynced(q, configures)
    else if configures then Renewed(q, configures).(due := true)
    else Renewed(q, configures)
  }

  /** What a frame that passes the sequence test does to the counters. */
  function Counted(p: Player, frame: Frame): Player {
    p.(videoSeq := frame.stamp, number := frame.number,
       lost := if p.awaitingKey then p.lost else p.lost + Gap(p.videoSeq, frame.stamp))
  }

  predicate Skips(p: Player, frame: Frame) {
    !frame.key && (Gap(p.videoSeq, frame.stamp) > 0 || p.awaitingKey || frame.queue > QUEUE)
  }

  function Skipped(p: Player): Player {
    if p.awaitingKey then p else Asked(p.(dropped := p.dropped + 1, awaitingKey := true))
  }

  function Decoded(p: Player, frame: Frame, throws: bool, configures: bool): Player
    requires p.decoder.Some?
  {
    if throws || p.closed then Resynced(p, configures)
    else p.(awaitingKey := false, due := p.due && !frame.key,
            given := p.given + [Given(p.decoder.value, frame.key, frame.stamp, frame.number)])
  }

  function Received(p: Player, frame: Frame, throws: bool, configures: bool): Player {
    if frame.socket && p.webrtc then p
    else if p.dropNext then p.(dropNext := false)
    else if p.decoder.None? || frame.stale then p
    else if !Newer(p.videoSeq, frame.stamp) then p
    else if Skips(p, frame) then Skipped(Counted(p, frame))
    else Decoded(Counted(p, frame), frame, throws, configures)
  }

  predicate Enabled(p: Player, step: Step) {
    match step
    case Connected => !p.open && !p.configured
    case Config(_, _, _) => p.open
    case Video(frame, _, _) => p.open && Stamped(frame)
    case DecoderFails(_) => p.decoder.Some?
    case PictureFails => Active(p) && p.decoder.Some?
    case RtcOpens => p.open
    case _ => true
  }

  function Do(p: Player, step: Step): Player {
    match step
    case Connected => p.(open := true)
    case Config(socket, initial, configures) => Configured(p, socket, initial, configures)
    case Video(frame, throws, configures) => Received(p, frame, throws, configures)
    case DecoderFails(configures) => Resynced(p.(closed := true), configures)
    case PictureFails => p.(decoder := None)
    case Announced => p.(awaitingKey := true, due := true)
    case RtcOpens => Asked(p.(webrtc := true, awaitingKey := true))
    case RtcCloses => p.(webrtc := false)
    case DropNext => p.(dropNext := true)
    case SocketFails => p.(open := false)
    case Retired => p.(open := false, configured := false, decoder := None, webrtc := false)
  }

  // ----- what every step keeps

  /** A delta goes to the decoder that got the frame just before it. */
  ghost predicate Chained(given: seq<Given>) {
    forall i :: 0 <= i < |given| && !given[i].key ==>
      i > 0 && given[i - 1].decoder == given[i].decoder && given[i].stamp == Successor(given[i - 1].stamp)
  }

  /** Decoders are used one after the other. */
  ghost predicate Ordered(given: seq<Given>) {
    forall i, j :: 0 <= i < j < |given| ==> given[i].decoder <= given[j].decoder
  }

  ghost predicate Valid(p: Player) {
    && (p.videoSeq == -1 || p.videoSeq == Low(p.number))
    && (p.decoder.Some? ==> p.configured && p.decoder.value < p.decoders)
    && (forall i :: 0 <= i < |p.given| ==> p.given[i].decoder < p.decoders)
    && (p.decoder.Some? ==> forall i :: 0 <= i < |p.given| ==> p.given[i].decoder <= p.decoder.value)
    && Chained(p.given) && Ordered(p.given)
    && (p.decoder.Some? && !p.closed && !p.awaitingKey ==>
          && p.given != [] && p.videoSeq >= 0
          && var last := p.given[|p.given| - 1]; last.decoder == p.decoder.value && last.stamp == p.videoSeq && last.number == p.number)
    && (p.decoder.Some? && !p.closed && p.awaitingKey ==> p.due)
  }

  lemma RenewKeeps(p: Player, configures: bool)
    requires Valid(p) && Active(p)
    ensures Valid(Resynced(p, configures))
    ensures configures ==> Valid(Renewed(p, configures).(due := true))
    ensures !configures ==> Valid(Renewed(p, configures))
  {
  }

  lemma GapZero(last: Last, stamp: Stamp)
    requires 0 <= last && Gap(last, stamp) == 0
    ensures stamp == Successor(last)
  {
  }

  lemma GiveKeeps(given: seq<Given>, next: Given)
    requires Chained(given) && Ordered(given)
    requires forall i :: 0 <= i < |given| ==> given[i].decoder <= next.decoder
    requires !next.key ==> given != [] && given[|given| - 1].decoder == next.decoder && next.stamp == Successor(given[|given| - 1].stamp)
    ensures Chained(given + [next]) && Ordered(given + [next])
  {
  }

  lemma ResyncKeeps(p: Player, frame: Frame, configures: bool)
    requires Valid(p) && p.open && Stamped(frame) && p.decoder.Some?
    ensures Valid(Resynced(Counted(p, frame), configures))
  {
    RenewKeeps(Counted(p, frame).(closed := true), configures);
  }

  lemma DecodeKeeps(p: Player, frame: Frame)
    requires Valid(p) && p.open && Stamped(frame) && p.decoder.Some? && !p.closed && !Skips(p, frame)
    ensures Valid(Decoded(Counted(p, frame), frame, false, true))
  {
    if !frame.key { GapZero(p.videoSeq, frame.stamp); }
    GiveKeeps(p.given, Given(p.decoder.value, frame.key, frame.stamp, frame.number));
  }

  lemma VideoKeeps(p: Player, frame: Frame, throws: bool, configures: bool)
    requires Valid(p) && p.open && Stamped(frame)
    ensures Valid(Received(p, frame, throws, configures))
  {
    if !(frame.socket && p.webrtc) && !p.dropNext && p.decoder.Some? && !frame.stale && Newer(p.videoSeq, frame.stamp) {
      if !Skips(p, frame) {
        if throws || p.closed { ResyncKeeps(p, frame, configures); } else { DecodeKeeps(p, frame); }
      }
    }
  }

  lemma ConfigKeeps(p: Player, socket: bool, initial: bool, configures: bool)
    requires Valid(p) && p.open
    ensures Valid(Configured(p, socket, initial, configures))
  {
    var q := p.(configured := true, videoSeq := -1, webrtc := p.webrtc && !socket);
    var r := q.(closed := true);
    RenewKeeps(r, configures);
    assert Renewed(q, configures) == Renewed(r, configures);
  }

  lemma FailureKeeps(p: Player, configures: bool)
    requires Valid(p) && p.decoder.Some?
    ensures Valid(Resynced(p.(closed := true), configures))
  {
    if Active(p) { RenewKeeps(p.(closed := true), configures); }
  }

  /** No decoder works, or it waits for a key frame that is due. */
  lemma KeyKeeps(p: Player)
    requires Valid(p)
    ensures Valid(p.(awaitingKey := true, due := true)) && Valid(Asked(p.(webrtc := true, awaitingKey := true)))
    ensures Valid(p.(decoder := None))
  {
  }

  lemma FlagsKeep(p: Player, open: bool, webrtc: bool, dropNext: bool)
    requires Valid(p)
    ensures Valid(p.(open := open, webrtc := webrtc, dropNext := dropNext))
    ensures Valid(p.(open := false, configured := false, decoder := None, webrtc := false))
  {
  }

  lemma QuietKeeps(p: Player, step: Step)
    requires Valid(p) && Enabled(p, step) && !step.Config? && !step.Video? && !step.DecoderFails?
    ensures Valid(Do(p, step))
  {
    hide Valid;
    match step
    case Connected => FlagsKeep(p, true, p.webrtc, p.dropNext);
    case RtcCloses => FlagsKeep(p, p.open, false, p.dropNext);
    case DropNext => FlagsKeep(p, p.open, p.webrtc, true);
    case SocketFails => FlagsKeep(p, false, p.webrtc, p.dropNext);
    case Retired => FlagsKeep(p, p.open, p.webrtc, p.dropNext);
    case _ => KeyKeeps(p);
  }

  lemma StepKeeps(p: Player, step: Step)
    requires Valid(p) && Enabled(p, step)
    ensures Valid(Do(p, step))
  {
    match step
    case Config(socket, initial, configures) => ConfigKeeps(p, socket, initial, configures);
    case Video(frame, throws, configures) => VideoKeeps(p, frame, throws, configures);
    case DecoderFails(configures) => FailureKeeps(p, configures);
    case _ => QuietKeeps(p, step);
  }

  // ----- runs

  ghost predicate Possible(p: Player, steps: seq<Step>)
    decreases |steps|
  {
    steps != [] ==> Enabled(p, steps[0]) && Possible(Do(p, steps[0]), steps[1..])
  }

  ghost function After(p: Player, steps: seq<Step>): Player
    requires Possible(p, steps)
    decreases |steps|
  {
    if steps == [] then p else After(Do(p, steps[0]), steps[1..])
  }

  lemma {:induction false} AlwaysValid(p: Player, steps: seq<Step>)
    requires Valid(p) && Possible(p, steps)
    ensures Valid(After(p, steps))
    decreases |steps|
  {
    if steps != [] {
      StepKeeps(p, steps[0]);
      AlwaysValid(Do(p, steps[0]), steps[1..]);
    }
  }

  /** In every run: a decoder's first frame is a key, and every delta directly follows the
      frame that decoder got before; a decoder once replaced gets nothing more. */
  lemma DecodeChain(steps: seq<Step>, i: nat)
    requires Possible(START, steps) && i < |After(START, steps).given|
    ensures var given := After(START, steps).given;
      && ((forall j :: 0 <= j < i ==> given[j].decoder != given[i].decoder) ==> given[i].key)
      && (!given[i].key ==> i > 0 && given[i - 1].decoder == given[i].decoder && given[i].stamp == Successor(given[i - 1].stamp))
      && (forall j :: 0 <= j < i && given[j].decoder == given[i].decoder ==>
            forall k :: j <= k <= i ==> given[k].decoder == given[i].decoder)
  {
    AlwaysValid(START, steps);
    assert i > 0 ==> After(START, steps).given[i - 1].decoder <= After(START, steps).given[i].decoder;
  }

  /** A working decoder that waits for a key frame has one coming: it was asked for or announced. */
  lemma NeverWaitsUnasked(steps: seq<Step>)
    requires Possible(START, steps)
    ensures var p := After(START, steps); p.decoder.Some? && !p.closed && p.awaitingKey ==> p.due
  {
    AlwaysValid(START, steps);
  }

  // ----- runs whose frames arrive less than 2^15 numbers apart

  predicate Near(p: Player, step: Step) {
    step.Video? && p.videoSeq >= 0 ==> -HALF < step.frame.number - p.number < HALF
  }

  ghost predicate NearRun(p: Player, steps: seq<Step>)
    requires Possible(p, steps)
    decreases |steps|
  {
    steps != [] ==> Near(p, steps[0]) && NearRun(Do(p, steps[0]), steps[1..])
  }

  /** The true numbers of deltas follow too, not just their 16 bits. */
  ghost predicate Followed(given: seq<Given>) {
    forall i :: 0 < i < |given| && !given[i].key ==> given[i].number == given[i - 1].number + 1
  }

  lemma DeltaFollows(p: Player, frame: Frame)
    requires Valid(p) && Stamped(frame) && p.decoder.Some? && !p.closed && !frame.key && !Skips(p, frame)
    requires Newer(p.videoSeq, frame.stamp) && (p.videoSeq >= 0 ==> -HALF < frame.number - p.number < HALF)
    ensures p.given != [] && frame.number == p.given[|p.given| - 1].number + 1
  {
    NearIsExact(p.number, frame.number);
  }

  /** Whether a frame comes as far as the sequence test. */
  predicate Looked(p: Player, frame: Frame) {
    !(frame.socket && p.webrtc) && !p.dropNext && p.decoder.Some? && !frame.stale
  }

  /** A frame that is given is given next. */
  predicate Gives(p: Player, frame: Frame, throws: bool) {
    Looked(p, frame) && Newer(p.videoSeq, frame.stamp) && !Skips(p, frame) && !throws && !p.closed
  }

  lemma GivenOr(p: Player, frame: Frame, throws: bool, configures: bool)
    ensures Received(p, frame, throws, configures).given ==
      if Gives(p, frame, throws) then p.given + [Given(p.decoder.value, frame.key, frame.stamp, frame.number)] else p.given
  {
  }

  lemma StepFollows(p: Player, step: Step)
    requires Valid(p) && Enabled(p, step) && Near(p, step) && Followed(p.given)
    ensures Followed(Do(p, step).given)
  {
    hide Valid, Received;
    if step.Video? {
      GivenOr(p, step.frame, step.throws, step.configures);
      if Gives(p, step.frame, step.throws) && !step.frame.key { DeltaFollows(p, step.frame); }
    }
  }

  lemma {:induction false} RunFollows(p: Player, steps: seq<Step>)
    requires Valid(p) && Possible(p, steps) && NearRun(p, steps) && Followed(p.given)
    ensures Followed(After(p, steps).given)
    decreases |steps|
  {
    if steps != [] {
      StepKeeps(p, steps[0]);
      StepFollows(p, steps[0]);
      RunFollows(Do(p, steps[0]), steps[1..]);
    }
  }

  /** With frames near each other, no delta is given to a decoder that missed a frame. */
  lemma NoFrameMissed(steps: seq<Step>, i: nat)
    requires Possible(START, steps) && NearRun(START, steps)
    requires 0 < i < |After(START, steps).given| && !After(START, steps).given[i].key
    ensures var given := After(START, steps).given;
      given[i].decoder == given[i - 1].decoder && given[i].number == given[i - 1].number + 1
  {
    AlwaysValid(START, steps);
    RunFollows(START, steps);
  }

  /** The lost counter grows by exactly the frames skipped, and never for a frame not taken. */
  lemma LostIsSkipped(p: Player, frame: Frame, throws: bool, configures: bool)
    requires Valid(p) && p.open && Stamped(frame) && Near(p, Video(frame, throws, configures)) && p.videoSeq >= 0 && !p.awaitingKey
    ensures Received(p, frame, throws, configures).lost ==
      if Looked(p, frame) && frame.number > p.number then p.lost + (frame.number - p.number - 1) else p.lost
  {
    NearIsExact(p.number, frame.number);
  }

  // ----- what is decoded, and what is asked for

  /** A frame is decoded if and only if it comes as far as a working decoder, is newer, and is
      a key or follows the last frame while no key is awaited and the queue is short. */
  lemma DecodesExactly(p: Player, frame: Frame, throws: bool, configures: bool)
    requires Valid(p)
    ensures var q := Received(p, frame, throws, configures);
      var follows := !p.awaitingKey && p.videoSeq >= 0 && frame.stamp == Successor(p.videoSeq) && frame.queue <= 4;
      if !(frame.socket && p.webrtc) && !p.dropNext && p.decoder.Some? && !frame.stale && !p.closed && !throws
        && Newer(p.videoSeq, frame.stamp) && (frame.key || follows)
      then q.given == p.given + [Given(p.decoder.value, frame.key, frame.stamp, frame.number)] && !q.awaitingKey && q.decoder == p.decoder
      else q.given == p.given
  {
    if p.videoSeq >= 0 && Gap(p.videoSeq, frame.stamp) == 0 { GapZero(p.videoSeq, frame.stamp); }
  }

  /** A key frame is asked for exactly when a delta that cannot be decoded ends a run of frames
      that could, or when a decoder had to be replaced; each time once. */
  lemma AsksExactly(p: Player, frame: Frame, throws: bool, configures: bool)
    requires Valid(p)
    ensures var q := Received(p, frame, throws, configures);
      var taken := Looked(p, frame) && Newer(p.videoSeq, frame.stamp);
      var follows := p.videoSeq >= 0 && frame.stamp == Successor(p.videoSeq) && frame.queue <= 4;
      var breaks := taken && !frame.key && !p.awaitingKey && !p.closed && !follows;
      && (!p.closed ==> q.dropped == p.dropped + (if breaks then 1 else 0))
      && (!p.closed && !throws ==> q.requests == p.requests + (if breaks then 1 else 0) && q.decoder == p.decoder && !q.closed)
      && (breaks ==> q.awaitingKey)
      && q.videoSeq == (if taken then frame.stamp else p.videoSeq)
      && (p.awaitingKey || !taken ==> q.lost == p.lost)
      && (q.dropNext <==> p.dropNext && frame.socket && p.webrtc)
      && (taken && frame.key && (throws || p.closed) && p.open && p.configured && configures ==>
            q.requests == p.requests + 1 && q.decoder == Some(p.decoders) && q.decoders == p.decoders + 1 && !q.closed && q.awaitingKey)
  {
    if p.videoSeq >= 0 && Gap(p.videoSeq, frame.stamp) == 0 { GapZero(p.videoSeq, frame.stamp); }
  }

  /** Frames `n`, `n + 1` and so on, the first one a key, over the path in use. */
  ghost predicate Unbroken(p: Player, frames: seq<Frame>) {
    forall i :: 0 <= i < |frames| ==>
      && Stamped(frames[i]) && frames[i].number == frames[0].number + i && (i == 0 ==> frames[i].key)
      && !(frames[i].socket && p.webrtc) && !frames[i].stale && frames[i].queue <= 4
  }

  ghost function ReceivedAll(p: Player, frames: seq<Frame>): Player {
    if frames == [] then p
    else Received(ReceivedAll(p, frames[..|frames| - 1]), frames[|frames| - 1], false, true)
  }

  /** The decoder of `p` works on and has the frame of this number last. */
  ghost predicate Going(p: Player, q: Player, number: nat) {
    && Valid(q) && q.open && q.decoder == p.decoder && !q.closed && !q.dropNext && q.webrtc == p.webrtc
    && !q.awaitingKey && q.videoSeq == Low(number) && q.requests == p.requests
  }

  function Outputs(decoder: nat, frames: seq<Frame>): (r: seq<Given>)
    ensures |r| == |frames|
    ensures forall i :: 0 <= i < |frames| ==> r[i] == Given(decoder, frames[i].key, frames[i].stamp, frames[i].number)
  {
    seq(|frames|, i requires 0 <= i < |frames| => Given(decoder, frames[i].key, frames[i].stamp, frames[i].number))
  }

  lemma NextDecoded(p: Player, q: Player, frame: Frame)
    requires Valid(q) && q.open && q.decoder.Some? && q.decoder == p.decoder && !q.closed && !q.dropNext && q.webrtc == p.webrtc && q.requests == p.requests
    requires Stamped(frame) && !(frame.socket && p.webrtc) && !frame.stale && frame.queue <= 4
    requires Newer(q.videoSeq, frame.stamp)
    requires frame.key || (!q.awaitingKey && q.videoSeq >= 0 && frame.stamp == Successor(q.videoSeq))
    ensures Going(p, Received(q, frame, false, true), frame.number)
    ensures Received(q, frame, false, true).given == q.given + [Given(p.decoder.value, frame.key, frame.stamp, frame.number)]
  {
    DecodesExactly(q, frame, false, true);
    AsksExactly(q, frame, false, true);
    VideoKeeps(q, frame, false, true);
    hide Valid;
  }

  /** A working decoder gets an unbroken stream whole, whatever was lost before it. */
  lemma {:induction false} StreamDecoded(p: Player, frames: seq<Frame>)
    requires Valid(p) && p.open && p.decoder.Some? && !p.closed && !p.dropNext && Unbroken(p, frames)
    requires frames != [] && Newer(p.videoSeq, frames[0].stamp)
    ensures Going(p, ReceivedAll(p, frames), frames[0].number + |frames| - 1)
    ensures ReceivedAll(p, frames).given == p.given + Outputs(p.decoder.value, frames)
    decreases |frames|
  {
    hide Valid, Received, Low;
    var n := |frames| - 1;
    var last, before := frames[n], frames[..n];
    assert Outputs(p.decoder.value, frames) == Outputs(p.decoder.value, before) + [Given(p.decoder.value, last.key, last.stamp, last.number)];
    if n == 0 {
      assert ReceivedAll(p, before) == p;
      NextDecoded(p, p, last);
    } else {
      assert Unbroken(p, before);
      StreamDecoded(p, before);
      NextFollows(frames[0].number + n - 1);
      NextDecoded(p, ReceivedAll(p, before), last);
    }
  }

  lemma NextFollows(number: nat)
    ensures Low(number + 1) == Successor(Low(number)) && Newer(Low(number), Low(number + 1))
  {
    var q := LowIs(number);
  }

  /** A CONFIG starts the count anew; the stream gets a decoder of its own that waits for a
      key, which is asked for unless the CONFIG announces it. */
  lemma ConfigRestarts(p: Player, socket: bool, initial: bool, configures: bool)
    requires p.open
    ensures var q := Configured(p, socket, initial, configures);
      && q.configured && q.videoSeq == -1 && q.webrtc == (p.webrtc && !socket)
      && q.given == p.given && q.lost == p.lost && q.dropped == p.dropped
      && (if configures then q.decoder == Some(p.decoders) && q.decoders == p.decoders + 1 && !q.closed && q.awaitingKey && q.due
          else q.decoder == p.decoder && q.closed && q.decoders == p.decoders)
      && q.requests == p.requests + (if configures && !initial then 1 else 0)
  {
  }

  lemma OneMore(p: Player, step: Step, steps: seq<Step>)
    requires Enabled(p, step) && Possible(Do(p, step), steps)
    ensures Possible(p, [step] + steps) && After(p, [step] + steps) == After(Do(p, step), steps)
  {
    assert ([step] + steps)[1..] == steps;
  }

  /** A viewer without a connection can get one, and shows the stream from its first key on,
      asking for that one unless the stream says it begins with it. */
  lemma CanStart(p: Player, initial: bool, frame: Frame) returns (steps: seq<Step>)
    requires Valid(p) && !p.open && !p.configured && !p.dropNext && Stamped(frame) && frame.key && !frame.stale
    ensures steps == [Connected, Config(true, initial, true), Video(frame, false, true)] && Possible(p, steps)
    ensures var q := After(p, steps);
      && q.given == p.given + [Given(p.decoders, true, frame.stamp, frame.number)] && !q.awaitingKey
      && q.requests == p.requests + if initial then 0 else 1
  {
    hide Valid;
    var a := Do(p, Connected);
    var b := Do(a, Config(true, initial, true));
    StepKeeps(p, Connected);
    StepKeeps(a, Config(true, initial, true));
    ConfigRestarts(a, true, initial, true);
    DecodesExactly(b, frame, false, true);
    AsksExactly(b, frame, false, true);
    OneMore(b, Video(frame, false, true), []);
    OneMore(a, Config(true, initial, true), [Video(frame, false, true)]);
    steps := [Config(true, initial, true)] + [Video(frame, false, true)];
    OneMore(p, Connected, steps);
    steps := [Connected] + steps;
  }

  /** A decoder that fails is replaced, and the new one asks for a key and gets the stream
      from it on whole. */
  lemma FailureRecovered(p: Player, frames: seq<Frame>)
    requires Valid(p) && Active(p) && p.decoder.Some? && !p.dropNext && Unbroken(p, frames)
    requires frames != [] && Newer(p.videoSeq, frames[0].stamp)
    ensures var q := Do(p, DecoderFails(true));
      && q.requests == p.requests + 1 && q.awaitingKey
      && ReceivedAll(q, frames).given == p.given + Outputs(p.decoders, frames) && ReceivedAll(q, frames).requests == q.requests
  {
    FailureKeeps(p, true);
    StreamDecoded(Do(p, DecoderFails(true)), frames);
  }

  /** A key is due from when it is asked for or promised until it is decoded, or a new decoder
      waits for one of its own. */
  ghost predicate DueRight(p: Player, q: Player, promised: bool) {
    var decoded := |q.given| > |p.given| && q.given[|q.given| - 1].key;
    q.due <==> q.requests > p.requests || promised || (p.due && !decoded && q.decoders == p.decoders)
  }

  lemma ResyncDue(p: Player, configures: bool)
    ensures DueRight(p, Resynced(p, configures), false)
    ensures DueRight(p, Resynced(p.(closed := true), configures), false)
  {
  }

  lemma ConfigDue(p: Player, socket: bool, initial: bool, configures: bool)
    requires p.open
    ensures DueRight(p, Configured(p, socket, initial, configures), initial && configures)
  {
  }

  lemma VideoDue(p: Player, frame: Frame, throws: bool, configures: bool)
    ensures DueRight(p, Received(p, frame, throws, configures), false)
  {
    hide Gap, Newer;
    ResyncDue(Counted(p, frame), configures);
  }

  lemma DueExactly(p: Player, step: Step)
    requires Enabled(p, step)
    ensures DueRight(p, Do(p, step), step.Announced? || (step.Config? && step.initial && step.configures))
  {
    hide Received, Configured, Resynced;
    match step
    case Config(socket, initial, configures) => ConfigDue(p, socket, initial, configures);
    case Video(frame, throws, configures) => VideoDue(p, frame, throws, configures);
    case DecoderFails(configures) => ResyncDue(p, configures);
    case _ =>
  }

  /** Video over another path, or a change of it that the server announces, starts with a key;
      only the first is asked for. Without a picture or a socket nothing is decoded. */
  lemma EventsExactly(p: Player)
    ensures var q := Do(p, RtcOpens); q.webrtc && q.awaitingKey && q.due && q.requests == p.requests + 1 && q.decoder == p.decoder
    ensures var q := Do(p, Announced); q.awaitingKey && q.due && q.requests == p.requests && q.decoder == p.decoder
    ensures !Do(p, RtcCloses).webrtc && Do(p, DropNext).dropNext && !Do(p, SocketFails).open
    ensures forall step: Step :: step.Announced? || step.RtcCloses? || step.DropNext? || step.SocketFails? || step.Retired? ==> Enabled(p, step)
    ensures Do(p, PictureFails).decoder.None? && Do(p, Retired).decoder.None? && !Do(p, Retired).open && !Do(p, Retired).configured
  {
  }

  /** A decoder that fails while no stream is on, or whose successor does too, stays closed. */
  lemma FailureStays(p: Player, configures: bool)
    requires !(Active(p) && configures)
    ensures Do(p, DecoderFails(configures)) == p.(closed := true)
  {
  }

  // ----- the player in place

  class Viewer {
    var open: bool
    var configured: bool
    var webrtc: bool
    var videoSeq: Last
    var awaitingKey: bool
    var decoder: Option<nat>
    var closed: bool
    var decoders: nat
    var dropNext: bool
    var lost: nat
    var dropped: nat
    var requests: nat
    ghost var number: nat
    ghost var due: bool
    ghost var given: seq<Given>

    ghost function Model(): Player
      reads this
    {
      Player(open, configured, webrtc, videoSeq, awaitingKey, decoder, closed, decoders, dropNext, lost, dropped, requests, number, due, given)
    }

    constructor ()
      ensures Model() == START
    {
      open, configured, webrtc, videoSeq, awaitingKey := false, false, false, -1, true;
      decoder, closed, decoders, dropNext, lost, dropped, requests := None, false, 0, false, 0, 0, 0;
      number, due, given := 0, false, [];
    }

    method RequestKeyframe()
      modifies `requests, `due
      ensures Model() == Asked(old(Model()))
    {
      requests := requests + 1;
      due := true;
    }

    method NewDecoder(configures: bool) returns (made: bool)
      modifies `decoder, `closed, `decoders, `awaitingKey, `due
      ensures Model() == Renewed(old(Model()), configures)
      ensures made <==> Active(old(Model())) && configures
    {
      if !(open && configured) { return false; }
      closed := true;
      if !configures { return false; }
      decoder, closed, decoders := Some(decoders), false, decoders + 1;
      awaitingKey := true;
      due := false;
      made := true;
    }

    method Resync(configures: bool)
      modifies `decoder, `closed, `decoders, `awaitingKey, `due, `requests
      ensures Model() == Resynced(old(Model()), configures)
    {
      var made := NewDecoder(configures);
      if made { RequestKeyframe(); }
    }

    method Configure(socket: bool, initial: bool, configures: bool)
      requires open
      modifies this
      ensures Model() == Configured(old(Model()), socket, initial, configures)
    {
      if socket && webrtc { webrtc := false; }
      configured := true;
      videoSeq := -1;
      if initial {
        var made := NewDecoder(configures);
        if made { due := true; }
      } else {
        Resync(configures);
      }
    }

    /** A VIDEO message with its 16-bit stamp. */
    method Receive(frame: Frame, throws: bool, configures: bool)
      modifies this
      ensures Model() == Received(old(Model()), frame, throws, configures)
    {
      if frame.socket && webrtc { return; }
      if dropNext {
        dropNext := false;
        return;
      }
      if decoder.None? || frame.stale { return; }
      if videoSeq >= 0 && Mask(videoSeq - frame.stamp) < HALF { return; }
      Take(frame, throws, configures);
    }

    method Take(frame: Frame, throws: bool, configures: bool)
      requires decoder.Some?
      modifies this
      ensures Model() == if Skips(old(Model()), frame) then Skipped(Counted(old(Model()), frame))
        else Decoded(Counted(old(Model()), frame), frame, throws, configures)
    {
      var gap := Count(frame);
      if !frame.key && (gap > 0 || awaitingKey || frame.queue > QUEUE) {
        if !awaitingKey { dropped := dropped + 1; }
        if !awaitingKey {
          awaitingKey := true;
          RequestKeyframe();
        }
      } else {
        Decode(frame, throws, configures);
      }
    }

    method Count(frame: Frame) returns (gap: nat)
      modifies `videoSeq, `number, `lost
      ensures Model() == Counted(old(Model()), frame) && gap == Gap(old(videoSeq), frame.stamp)
    {
      gap := if videoSeq >= 0 then Mask(frame.stamp - videoSeq - 1) else 0;
      videoSeq := frame.stamp;
      number := frame.number;
      if !awaitingKey { lost := lost + gap; }
    }

    /** The chunk goes to the decoder, or a fresh one is needed. */
    method Decode(frame: Frame, throws: bool, configures: bool)
      requires decoder.Some?
      modifies this
      ensures Model() == Decoded(old(Model()), frame, throws, configures)
    {
      if throws || closed {
        Resync(configures);
      } else {
        given := given + [Given(decoder.value, frame.key, frame.stamp, frame.number)];
        due := due && !frame.key;
        awaitingKey := false;
      }
    }

    method Retire()
      modifies this
      ensures Model() == Do(old(Model()), Retired)
    {
      open, configured, webrtc := false, false, false;
      decoder := None;
    }
  }
}
