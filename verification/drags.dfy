/** Dragging the browser's files over the desktop: each drop is reported once. */
module Drags {
  import opened Common

  const SETTLE := 1500

  /** What the grab says of its end: dropped somewhere, cancelled, or nothing (it was gone). */
  datatype Outcome =
    | Dropped(validated: bool, x11: bool, target: Option<string>)
    | Cancelled
    | Nothing

  datatype Ended = Ended(taken: bool, target: Option<string>, batch: string)

  /** `drag` counts the starts: a source of an earlier one has flags of its own. `drops` and
      `overlaps` note the drops asked for, and those that came while one was settling. */
  datatype Board = Board(
    drag: nat, active: bool, accepted: bool, chosen: bool, dropping: Option<int>, batch: string,
    taken: bool, target: Option<string>, timers: nat, pressed: bool, ended: seq<Ended>,
    drops: seq<string>, overlaps: nat)

  const START := Board(0, false, false, false, None, "", false, None, 0, false, [], [], 0)

  predicate Ready(b: Board) { b.accepted && b.chosen }

  /** The grab's own callback, which counts only while the drag is ours. */
  function Told(b: Board, outcome: Outcome): Board {
    if !b.active then b
    else match outcome
      case Dropped(validated, x11, target) => b.(taken := validated && (x11 || Ready(b)), target := target)
      case Cancelled => b.(taken := false, target := None)
      case Nothing => b
  }

  /** The button goes up: a settling drop is over, and reported. */
  function Released(b: Board, outcome: Outcome): Board {
    var q := Told(b.(dropping := None), outcome).(active := false, pressed := false);
    if b.dropping.None? then q
    else q.(ended := q.ended + [Ended(q.taken, q.target, q.batch)], target := None, batch := "")
  }

  function Started(b: Board, outcome: Outcome): Board {
    var q := if b.dropping.Some? then Released(b, outcome) else b;
    q.(drag := q.drag + 1, active := true, accepted := false, chosen := false, pressed := true)
  }

  function DropAsked(b: Board, batch: string, now: int): Board {
    var q := b.(drops := b.drops + [batch]);
    if !b.active then q.(ended := q.ended + [Ended(false, None, batch)])
    else
      q.(batch := batch, dropping := Some(now + SETTLE), accepted := false, chosen := false, timers := b.timers + 1,
         overlaps := b.overlaps + if b.dropping.Some? then 1 else 0)
  }

  /** Every 100 ms: the deadline passed, or the target looks again. */
  function TimerFired(b: Board, now: int, outcome: Outcome): Board {
    if b.dropping.None? then b.(timers := if b.timers > 0 then b.timers - 1 else 0)
    else if now >= b.dropping.value then Released(b.(timers := if b.timers > 0 then b.timers - 1 else 0), outcome)
    else b
  }

  datatype Step =
    | Start(outcome: Outcome)
    | Drop(batch: string, now: int)
    | Cancel(outcome: Outcome)
    | ReleaseAll(outcome: Outcome)
    | Ping(outcome: Outcome)
    | Timer(now: int, outcome: Outcome)
    | Accepts(drag: nat, yes: bool)
    | Chooses(drag: nat, yes: bool)
    | GrabEnds(outcome: Outcome)

  predicate Enabled(b: Board, step: Step) { step.Timer? ==> b.timers > 0 }

  function Do(b: Board, step: Step): Board {
    match step
    case Start(outcome) => Started(b, outcome)
    case Drop(batch, now) => DropAsked(b, batch, now)
    case Cancel(outcome) => Released(b, outcome)
    case ReleaseAll(outcome) => if b.active then Released(b, outcome) else b
    case Ping(outcome) => if b.dropping.Some? && Ready(b) then Released(b, outcome) else b
    case Timer(now, outcome) => TimerFired(b, now, outcome)
    case Accepts(drag, yes) => if drag == b.drag then b.(accepted := yes) else b
    case Chooses(drag, yes) => if drag == b.drag then b.(chosen := yes) else b
    case GrabEnds(outcome) => Told(b, outcome)
  }

  // ----- what every step keeps

  function Batches(ended: seq<Ended>): (r: seq<string>)
    ensures |r| == |ended|
  {
    seq(|ended|, i requires 0 <= i < |ended| => ended[i].batch)
  }

  /** The drop still settling. */
  function Settling(b: Board): seq<string> { if b.dropping.Some? then [b.batch] else [] }

  ghost predicate Valid(b: Board) {
    && (b.dropping.Some? ==> b.active && b.timers > 0)
    && |b.ended| + |Settling(b)| + b.overlaps == |b.drops|
    && (b.overlaps == 0 ==> Batches(b.ended) + Settling(b) == b.drops)
  }

  lemma BatchesMore(ended: seq<Ended>, e: Ended)
    ensures Batches(ended + [e]) == Batches(ended) + [e.batch]
  {
  }

  lemma ReleaseKeeps(b: Board, outcome: Outcome)
    requires Valid(b.(timers := b.timers + 1))
    ensures Valid(Released(b, outcome)) && Released(b, outcome).dropping.None? && Released(b, outcome).overlaps == b.overlaps
  {
    var q := Released(b, outcome);
    if b.dropping.Some? {
      BatchesMore(b.ended, Ended(q.taken, Told(b.(dropping := None), outcome).target, b.batch));
    }
    assert Batches(q.ended) + [] == Batches(q.ended);
  }

  lemma DropKeeps(b: Board, batch: string, now: int)
    requires Valid(b)
    ensures Valid(DropAsked(b, batch, now))
  {
    if b.active {
      assert b.dropping.None? ==> Settling(b) == [] && Batches(b.ended) + [] == Batches(b.ended);
    } else {
      BatchesMore(b.ended, Ended(false, None, batch));
      assert Batches(b.ended) + [] == Batches(b.ended);
      assert Batches(b.ended) + [batch] + [] == Batches(b.ended) + [batch];
    }
  }

  /** Only what was asked for, what settles and what was reported counts. */
  lemma AlikeKeeps(b: Board, q: Board)
    requires Valid(b) && q.dropping == b.dropping && q.batch == b.batch
    requires q.ended == b.ended && q.drops == b.drops && q.overlaps == b.overlaps
    requires q.dropping.Some? ==> q.active && q.timers > 0
    ensures Valid(q)
  {
  }

  lemma StartKeeps(b: Board, outcome: Outcome)
    requires Valid(b)
    ensures Valid(Started(b, outcome))
  {
    ReleaseKeeps(b, outcome);
    hide Released;
    AlikeKeeps(if b.dropping.Some? then Released(b, outcome) else b, Started(b, outcome));
  }

  lemma TimerKeeps(b: Board, now: int, outcome: Outcome)
    requires Valid(b) && b.timers > 0
    ensures Valid(TimerFired(b, now, outcome))
  {
    hide Released;
    ReleaseKeeps(b.(timers := b.timers - 1), outcome);
  }

  lemma ToldKeeps(b: Board, step: Step)
    requires Valid(b) && (step.Accepts? || step.Chooses? || step.GrabEnds?)
    ensures Valid(Do(b, step))
  {
    AlikeKeeps(b, Do(b, step));
  }

  lemma StepKeeps(b: Board, step: Step)
    requires Valid(b) && Enabled(b, step)
    ensures Valid(Do(b, step))
  {
    AlikeKeeps(b, b.(timers := b.timers + 1));
    hide Valid, Started, DropAsked, Released, TimerFired, Told;
    match step
    case Start(outcome) => StartKeeps(b, outcome);
    case Drop(batch, now) => DropKeeps(b, batch, now);
    case Cancel(outcome) => ReleaseKeeps(b, outcome);
    case ReleaseAll(outcome) => ReleaseKeeps(b, outcome);
    case Ping(outcome) => ReleaseKeeps(b, outcome);
    case Timer(now, outcome) => TimerKeeps(b, now, outcome);
    case _ => ToldKeeps(b, step);
  }

  // ----- runs

  ghost predicate Possible(b: Board, steps: seq<Step>)
    decreases |steps|
  {
    steps != [] ==> Enabled(b, steps[0]) && Possible(Do(b, steps[0]), steps[1..])
  }

  ghost function After(b: Board, steps: seq<Step>): Board
    requires Possible(b, steps)
    decreases |steps|
  {
    if steps == [] then b else After(Do(b, steps[0]), steps[1..])
  }

  lemma {:induction false} AlwaysValid(b: Board, steps: seq<Step>)
    requires Valid(b) && Possible(b, steps)
    ensures Valid(After(b, steps))
    decreases |steps|
  {
    if steps != [] {
      StepKeeps(b, steps[0]);
      AlwaysValid(Do(b, steps[0]), steps[1..]);
    }
  }

  /** In every run: the drops reported, and the one settling, are the drops asked for, each
      once and in order, if and only if none was asked for while another was settling. */
  lemma DropsReported(steps: seq<Step>)
    requires Possible(START, steps)
    ensures var b := After(START, steps);
      && (Batches(b.ended) + Settling(b) == b.drops <==> b.overlaps == 0)
      && |b.ended| + |Settling(b)| == |b.drops| - b.overlaps
      && (b.dropping.Some? ==> b.active && b.timers > 0)
  {
    AlwaysValid(START, steps);
  }

  /** Two drops while one settles: the first batch is never reported. */
  lemma OverlapLoses()
    ensures var steps := [Start(Nothing), Drop("a", 0), Drop("b", 0), Cancel(Cancelled)];
      Possible(START, steps) && Batches(After(START, steps).ended) == ["b"] && After(START, steps).drops == ["a", "b"]
  {
    var s := [Start(Nothing), Drop("a", 0), Drop("b", 0), Cancel(Cancelled)];
    var b1 := Do(START, s[0]);
    var b2 := Do(b1, s[1]);
    var b3 := Do(b2, s[2]);
    var b4 := Do(b3, s[3]);
    assert s[1..][1..][1..][1..] == [];
    assert After(b4, s[1..][1..][1..][1..]) == b4;
    assert After(b3, s[1..][1..][1..]) == b4;
    assert After(b2, s[1..][1..]) == b4;
    assert After(b1, s[1..]) == b4;
  }

  // ----- at most one drop per start

  /** Whether a drop was asked for since the last start. */
  function Dropping(step: Step, dropped: bool): bool {
    match step
    case Start(_) => false
    case Drop(_, _) => true
    case _ => dropped
  }

  predicate OncePerStart(steps: seq<Step>, dropped: bool)
    decreases |steps|
  {
    steps == [] || (!(steps[0].Drop? && dropped) && OncePerStart(steps[1..], Dropping(steps[0], dropped)))
  }

  lemma ReleaseOverlaps(b: Board, outcome: Outcome)
    ensures Released(b, outcome).overlaps == b.overlaps && Released(b, outcome).dropping.None?
  {
  }

  lemma StepOverlaps(b: Board, step: Step, dropped: bool)
    requires b.dropping.Some? ==> dropped
    requires step.Drop? ==> !dropped
    ensures Do(b, step).overlaps == b.overlaps && (Do(b, step).dropping.Some? ==> Dropping(step, dropped))
  {
    hide Released;
    match step
    case Start(outcome) => ReleaseOverlaps(b, outcome);
    case Cancel(outcome) => ReleaseOverlaps(b, outcome);
    case ReleaseAll(outcome) => ReleaseOverlaps(b, outcome);
    case Ping(outcome) => ReleaseOverlaps(b, outcome);
    case Timer(_, outcome) => ReleaseOverlaps(b.(timers := if b.timers > 0 then b.timers - 1 else 0), outcome);
    case _ =>
  }

  lemma {:induction false} NoOverlap(b: Board, steps: seq<Step>, dropped: bool)
    requires Possible(b, steps) && OncePerStart(steps, dropped) && (b.dropping.Some? ==> dropped)
    ensures After(b, steps).overlaps == b.overlaps
    decreases |steps|
  {
    if steps != [] {
      StepOverlaps(b, steps[0], dropped);
      NoOverlap(Do(b, steps[0]), steps[1..], Dropping(steps[0], dropped));
    }
  }

  /** So with at most one drop per start every batch is reported exactly once, whatever ends
      the drag, as soon as nothing is settling. */
  lemma OneDropOneEnd(steps: seq<Step>)
    requires Possible(START, steps) && OncePerStart(steps, false)
    ensures var b := After(START, steps); Batches(b.ended) + Settling(b) == b.drops
    ensures After(START, steps).dropping.None? ==> Batches(After(START, steps).ended) == After(START, steps).drops
  {
    AlwaysValid(START, steps);
    NoOverlap(START, steps, false);
    var b := After(START, steps);
    assert Batches(b.ended) + [] == Batches(b.ended);
  }

  // ----- what each step does

  /** What is reported of a drop: that its target took it, if the grab says it was dropped on
      one that is an X11 window or has accepted it and chosen an action. */
  function Report(b: Board, outcome: Outcome): Ended {
    match outcome
    case Dropped(validated, x11, target) => Ended(validated && (x11 || (b.accepted && b.chosen)), target, b.batch)
    case Cancelled => Ended(false, None, b.batch)
    case Nothing => Ended(b.taken, b.target, b.batch)
  }

  /** The target's acceptance, the first timer at the deadline or after it, a cancel, a release
      of all input, a new drag. */
  predicate Ends(b: Board, step: Step)
    requires b.dropping.Some?
  {
    step.Start? || step.Cancel? || step.ReleaseAll?
    || (step.Ping? && b.accepted && b.chosen) || (step.Timer? && step.now >= b.dropping.value)
  }

  lemma ReleaseReports(b: Board, timers: nat, outcome: Outcome)
    requires b.dropping.Some? && b.active
    ensures var q := Released(b.(timers := timers), outcome);
      q.dropping.None? && !q.active && q.target.None? && q.batch == "" && q.ended == b.ended + [Report(b, outcome)]
  {
  }

  /** A settling drop ends exactly with those and is reported at once; nothing else reports it,
      and only another drop puts its deadline off. The timer runs until then. */
  lemma SettlesExactly(b: Board, step: Step)
    requires Valid(b) && b.dropping.Some?
    ensures Enabled(b, step)
    ensures var q := Do(b, step);
      if Ends(b, step) then
        q.ended == b.ended + [Report(b, step.outcome)] && q.dropping.None? && q.target.None? && q.batch == "" && (q.active <==> step.Start?)
      else q.ended == b.ended && q.active && q.dropping == if step.Drop? then Some(step.now + 1500) else b.dropping
  {
    hide Released, Report;
    match step
    case Start(outcome) => ReleaseReports(b, b.timers, outcome);
    case Cancel(outcome) => ReleaseReports(b, b.timers, outcome);
    case ReleaseAll(outcome) => ReleaseReports(b, b.timers, outcome);
    case Ping(outcome) => ReleaseReports(b, b.timers, outcome);
    case Timer(_, outcome) => ReleaseReports(b, b.timers - 1, outcome);
    case _ =>
  }

  /** With nothing settling, a drop settles for a second and a half if a drag is on, and is
      reported as not taken if none is; nothing else is reported. */
  lemma QuietExactly(b: Board, step: Step)
    requires b.dropping.None? && Enabled(b, step)
    ensures var q := Do(b, step);
      && q.dropping == (if step.Drop? && b.active then Some(step.now + 1500) else None)
      && q.ended == b.ended + (if step.Drop? && !b.active then [Ended(false, None, step.batch)] else [])
      && (q.active <==> step.Start? || (b.active && !step.Cancel? && !step.ReleaseAll?))
      && (step.Drop? && b.active ==> q.batch == step.batch && !q.accepted && !q.chosen)
  {
    hide Released, Told;
    match step
    case Start(outcome) => ReleaseQuiet(b, outcome);
    case Cancel(outcome) => ReleaseQuiet(b, outcome);
    case ReleaseAll(outcome) => ReleaseQuiet(b, outcome);
    case GrabEnds(outcome) => ToldQuiet(b, outcome);
    case _ =>
  }

  lemma ReleaseQuiet(b: Board, outcome: Outcome)
    requires b.dropping.None?
    ensures var q := Released(b, outcome); q.dropping.None? && q.ended == b.ended && !q.active
  {
  }

  lemma ToldQuiet(b: Board, outcome: Outcome)
    ensures Told(b, outcome).dropping == b.dropping && Told(b, outcome).ended == b.ended && Told(b, outcome).active == b.active
  {
  }

  /** The button is down exactly while a drag is on, and each drop that settles arms a timer
      that stops once the drop is over. */
  lemma ButtonAndTimers(b: Board, step: Step)
    requires Enabled(b, step) && b.pressed == b.active
    ensures var q := Do(b, step);
      && q.pressed == q.active
      && q.timers == b.timers + (if step.Drop? && b.active then 1 else 0)
         - (if step.Timer? && (b.dropping.None? || step.now >= b.dropping.value) then 1 else 0)
  {
    hide Told, Ready;
    match step
    case Start(outcome) => ToldPressed(b.(dropping := None), outcome);
    case Cancel(outcome) => ToldPressed(b.(dropping := None), outcome);
    case ReleaseAll(outcome) => ToldPressed(b.(dropping := None), outcome);
    case Ping(outcome) => ToldPressed(b.(dropping := None), outcome);
    case Timer(_, outcome) => ToldPressed(b.(dropping := None, timers := b.timers - 1), outcome);
    case GrabEnds(outcome) => ToldPressed(b, outcome);
    case _ =>
  }

  lemma ToldPressed(b: Board, outcome: Outcome)
    ensures var q := Told(b, outcome); q.pressed == b.pressed && q.active == b.active && q.timers == b.timers
  {
  }

  lemma ReleaseForgets(b: Board, outcome: Outcome)
    ensures var q := Released(b, outcome); q.accepted == b.accepted && q.chosen == b.chosen && q.drag == b.drag
  {
  }

  lemma ToldForgets(b: Board, outcome: Outcome)
    ensures var q := Told(b, outcome); q.accepted == b.accepted && q.chosen == b.chosen && q.drag == b.drag
  {
  }

  /** Only the target of this drag answers, and what it said before the drop is forgotten. */
  lemma AnswersExactly(b: Board, step: Step)
    ensures var q, anew := Do(b, step), step.Start? || (step.Drop? && b.active);
      && q.accepted == (if step.Accepts? && step.drag == b.drag then step.yes else if anew then false else b.accepted)
      && q.chosen == (if step.Chooses? && step.drag == b.drag then step.yes else if anew then false else b.chosen)
      && q.drag == b.drag + (if step.Start? then 1 else 0)
  {
    hide Released, Told, Ready;
    match step
    case Start(outcome) => ReleaseForgets(b, outcome);
    case Cancel(outcome) => ReleaseForgets(b, outcome);
    case ReleaseAll(outcome) => ReleaseForgets(b, outcome);
    case Ping(outcome) => ReleaseForgets(b, outcome);
    case Timer(_, outcome) => ReleaseForgets(b.(timers := if b.timers > 0 then b.timers - 1 else 0), outcome);
    case GrabEnds(outcome) => ToldForgets(b, outcome);
    case _ =>
  }

  /** What the grab says before the end counts while the drag is on. */
  lemma GrabsExactly(b: Board, outcome: Outcome)
    ensures var q := Do(b, GrabEnds(outcome));
      Ended(q.taken, q.target, q.batch) == if b.active then Report(b, outcome) else Ended(b.taken, b.target, b.batch)
  {
  }

  // ----- the state in place

  class State {
    var drag: nat
    var active: bool
    var accepted: bool
    var chosen: bool
    var dropping: Option<int>
    var batch: string
    var taken: bool
    var target: Option<string>
    var timers: nat
    var pressed: bool
    ghost var ended: seq<Ended>
    ghost var drops: seq<string>
    ghost var overlaps: nat

    ghost function Model(): Board
      reads this
    {
      Board(drag, active, accepted, chosen, dropping, batch, taken, target, timers, pressed, ended, drops, overlaps)
    }

    constructor ()
      ensures Model() == START
    {
      drag, active, accepted, chosen, dropping, batch := 0, false, false, false, None, "";
      taken, target, timers, pressed, ended, drops, overlaps := false, None, 0, false, [], [], 0;
    }

    /** The grab's callback: it runs inside the release, while the drag still counts. */
    method OnGrabEnd(outcome: Outcome)
      modifies `taken, `target
      ensures Model() == Told(old(Model()), outcome)
    {
      if active {
        match outcome
        case Dropped(validated, x11, where) =>
          taken := validated && (x11 || (accepted && chosen));
          target := where;
        case Cancelled =>
          taken := false;
          target := None;
        case Nothing =>
      }
    }

    method Release(outcome: Outcome)
      modifies `dropping, `taken, `target, `active, `pressed, `ended, `batch
      ensures Model() == Released(old(Model()), outcome)
    {
      hide Told;
      var settles := dropping.Some?;
      dropping := None;
      OnGrabEnd(outcome);
      active := false;
      pressed := false;
      if settles { Report(); }
    }

    method Report()
      modifies `ended, `target, `batch
      ensures Model() == old(Model()).(ended := old(ended) + [Ended(taken, old(target), old(batch))], target := None, batch := "")
    {
      ended := ended + [Ended(taken, target, batch)];
      target := None;
      batch := "";
    }

    method Begin(outcome: Outcome)
      modifies this
      ensures Model() == Started(old(Model()), outcome)
    {
      if dropping.Some? { Release(outcome); }
      drag := drag + 1;
      active := true;
      accepted, chosen := false, false;
      pressed := true;
    }

    method LetGo(list: string, now: int)
      modifies `drops, `ended, `overlaps, `batch, `dropping, `accepted, `chosen, `timers
      ensures Model() == DropAsked(old(Model()), list, now)
    {
      drops := drops + [list];
      if !active {
        ended := ended + [Ended(false, None, list)];
        return;
      }
      overlaps := overlaps + if dropping.Some? then 1 else 0;
      batch := list;
      dropping := Some(now + SETTLE);
      accepted, chosen := false, false;
      timers := timers + 1;
    }

    method OnTimer(now: int, outcome: Outcome)
      requires timers > 0
      modifies `timers, `dropping, `taken, `target, `active, `pressed, `ended, `batch
      ensures Model() == TimerFired(old(Model()), now, outcome)
    {
      hide Released;
      if dropping.None? {
        timers := timers - 1;
      } else if now >= dropping.value {
        timers := timers - 1;
        Release(outcome);
      }
    }

    method Settle(outcome: Outcome)
      modifies this
      ensures Model() == Do(old(Model()), Ping(outcome))
    {
      if dropping.Some? && accepted && chosen { Release(outcome); }
    }
  }
}
