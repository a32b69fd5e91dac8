/** Who holds input: whatever one session pressed is released before another's input. */
module Ownership {
  import opened Common

  /** A session of an access token. */
  datatype Owner = Owner(token: nat, session: nat)

  datatype Command = Input(who: Owner, what: nat) | ReleaseAll

  /** `open`: the compositor still takes commands; a send fails once it does not. */
  datatype Desk = Desk(owner: Option<Owner>, open: bool, sent: seq<Command>)

  const START := Desk(None, true, [])

  function Sent(d: Desk, command: Command): Desk { if d.open then d.(sent := d.sent + [command]) else d }

  /** One lock over all routes: a new owner's first input comes after a release of all. */
  function InputSent(d: Desk, who: Owner, what: nat): Desk {
    var q := if d.owner.Some? && d.owner.value != who then Sent(d, ReleaseAll) else d;
    if d.open then Sent(q, Input(who, what)).(owner := Some(who)) else q
  }

  function Released(d: Desk, who: Owner): Desk {
    if d.owner == Some(who) then Sent(d.(owner := None), ReleaseAll) else d
  }

  /** Part of the cleanup of a revoked token. */
  function Revoked(d: Desk, token: nat): Desk {
    if d.owner.Some? && d.owner.value.token == token then Sent(d.(owner := None), ReleaseAll) else d
  }

  datatype Step = Send(who: Owner, what: nat) | Release(who: Owner) | Revoke(token: nat) | Close

  function Do(d: Desk, step: Step): Desk {
    match step
    case Send(who, what) => InputSent(d, who, what)
    case Release(who) => Released(d, who)
    case Revoke(token) => Revoked(d, token)
    case Close => d.(open := false)
  }

  function After(d: Desk, steps: seq<Step>): Desk
    decreases |steps|
  {
    if steps == [] then d else After(Do(d, steps[0]), steps[1..])
  }

  /** Whose input is held since the last release of all. */
  function Holders(sent: seq<Command>): set<Owner> {
    if sent == [] then {}
    else
      match sent[|sent| - 1]
      case ReleaseAll => {}
      case Input(who, _) => Holders(sent[..|sent| - 1]) + {who}
  }

  ghost predicate Apart(sent: seq<Command>) {
    forall i :: 0 <= i <= |sent| ==> |Holders(sent[..i])| <= 1
  }

  ghost predicate Valid(d: Desk) {
    Apart(d.sent) && (d.open ==> Holders(d.sent) == if d.owner.Some? then {d.owner.value} else {})
  }

  lemma SentApart(d: Desk, command: Command)
    requires Apart(d.sent) && |Holders(Sent(d, command).sent)| <= 1
    ensures Apart(Sent(d, command).sent)
  {
    var q := Sent(d, command).sent;
    forall i | 0 <= i <= |q| ensures |Holders(q[..i])| <= 1 {
      if i <= |d.sent| { assert q[..i] == d.sent[..i]; } else { assert q[..i] == q; }
    }
  }

  lemma HoldersMore(sent: seq<Command>, command: Command)
    ensures Holders(sent + [command]) == if command.ReleaseAll? then {} else Holders(sent) + {command.who}
  {
    assert (sent + [command])[..|sent|] == sent;
  }

  lemma SendKeeps(d: Desk, who: Owner, what: nat)
    requires Valid(d) && d.open
    ensures Valid(InputSent(d, who, what))
  {
    HoldersMore(d.sent, ReleaseAll);
    SentApart(d, ReleaseAll);
    var q := if d.owner.Some? && d.owner.value != who then Sent(d, ReleaseAll) else d;
    HoldersMore(q.sent, Input(who, what));
    assert Holders(q.sent) + {who} == {who};
    SentApart(q, Input(who, what));
  }

  lemma StepKeeps(d: Desk, step: Step)
    requires Valid(d)
    ensures Valid(Do(d, step))
  {
    HoldersMore(d.sent, ReleaseAll);
    if d.open {
      SentApart(d, ReleaseAll);
      if step.Send? { SendKeeps(d, step.who, step.what); }
    }
  }

  lemma {:induction false} AlwaysValid(d: Desk, steps: seq<Step>)
    requires Valid(d)
    ensures Valid(After(d, steps))
    decreases |steps|
  {
    if steps != [] {
      StepKeeps(d, steps[0]);
      AlwaysValid(Do(d, steps[0]), steps[1..]);
    }
  }

  lemma {:induction false} HeldBetween(sent: seq<Command>, i: nat)
    requires i < |sent| && sent[i].Input? && forall k :: i < k < |sent| ==> !sent[k].ReleaseAll?
    ensures sent[i].who in Holders(sent)
    decreases |sent|
  {
    var last := |sent| - 1;
    if i < last { HeldBetween(sent[..last], i); }
  }

  /** In every run, between the inputs of two different owners all input was released. */
  lemma ReleasedBetween(steps: seq<Step>, i: nat, j: nat)
    requires var sent := After(START, steps).sent;
      i < j < |sent| && sent[i].Input? && sent[j].Input? && sent[i].who != sent[j].who
    ensures exists k :: i < k < j && After(START, steps).sent[k].ReleaseAll?
  {
    assert Apart(START.sent);
    AlwaysValid(START, steps);
    var sent := After(START, steps).sent;
    if forall k :: i < k < j ==> !sent[k].ReleaseAll? {
      var part := sent[..j + 1];
      HeldBetween(part, i);
      HeldBetween(part, j);
      TwoHeld(Holders(part), sent[i].who, sent[j].who);
    }
  }

  lemma TwoHeld(holders: set<Owner>, a: Owner, b: Owner)
    requires a in holders && b in holders && a != b
    ensures |holders| >= 2
  {
    assert holders == (holders - {a, b}) + {a, b};
  }

  /** The inputs since the last release of all. */
  function Held(sent: seq<Command>): (r: seq<Command>)
    ensures forall i :: 0 <= i < |r| ==> r[i].Input? && r[i].who in Holders(sent)
    ensures r == [] <==> Holders(sent) == {}
  {
    if sent == [] || sent[|sent| - 1].ReleaseAll? then [] else Held(sent[..|sent| - 1]) + [sent[|sent| - 1]]
  }

  lemma HeldMore(sent: seq<Command>, command: Command)
    ensures Held(sent + [command]) == if command.ReleaseAll? then [] else Held(sent) + [command]
  {
    assert (sent + [command])[..|sent|] == sent;
  }

  /** What is held is the owner's. */
  lemma HeldIs(d: Desk)
    requires Valid(d) && d.open
    ensures Held(d.sent) == [] <==> d.owner.None?
    ensures forall i :: 0 <= i < |Held(d.sent)| ==> Held(d.sent)[i].Input? && d.owner == Some(Held(d.sent)[i].who)
  {
  }

  /** What is held after a step: a session adds to its own input and replaces another's, and
      its release or its token's revoke lets go of it. */
  lemma HeldExactly(d: Desk, step: Step)
    requires Valid(d) && d.open
    ensures var held := Held(d.sent);
      && (forall i, j :: 0 <= i < j < |held| ==> held[i].Input? && held[j].Input? && held[i].who == held[j].who)
      && (step.Send? ==>
            var before := if held != [] && held[0].who != step.who then [] else held;
            Held(Do(d, step).sent) == before + [Input(step.who, step.what)])
      && (step.Release? ==> Held(Do(d, step).sent) == if held != [] && held[0].who == step.who then [] else held)
      && (step.Revoke? ==> Held(Do(d, step).sent) == if held != [] && held[0].who.token == step.token then [] else held)
  {
    HeldIs(d);
    HeldMore(d.sent, ReleaseAll);
    HeldMore(d.sent, if step.Send? then Input(step.who, step.what) else ReleaseAll);
    if step.Send? { HeldMore(d.sent + [ReleaseAll], Input(step.who, step.what)); }
    hide Held, Holders, Valid;
  }

  /** Once the compositor takes no more commands nothing is sent. */
  lemma {:induction false} ClosedIsFinal(d: Desk, steps: seq<Step>)
    requires !d.open
    ensures After(d, steps).sent == d.sent && !After(d, steps).open
    decreases |steps|
  {
    if steps != [] { ClosedIsFinal(Do(d, steps[0]), steps[1..]); }
  }

  /** The inputs among what was sent. */
  function Inputs(sent: seq<Command>): seq<Command> {
    if sent == [] then []
    else Inputs(sent[..|sent| - 1]) + if sent[|sent| - 1].Input? then [sent[|sent| - 1]] else []
  }

  lemma InputsMore(sent: seq<Command>, command: Command)
    ensures Inputs(sent + [command]) == Inputs(sent) + if command.Input? then [command] else []
  {
    assert (sent + [command])[..|sent|] == sent;
  }

  /** The input a step asks for while the compositor takes commands. */
  function Asks(step: Step, open: bool): seq<Command> {
    if open && step.Send? then [Input(step.who, step.what)] else []
  }

  function Asked(steps: seq<Step>, open: bool): seq<Command> {
    if steps == [] then [] else Asks(steps[0], open) + Asked(steps[1..], open && !steps[0].Close?)
  }

  lemma StepInputs(d: Desk, step: Step)
    ensures Inputs(Do(d, step).sent) == Inputs(d.sent) + Asks(step, d.open)
    ensures Do(d, step).open == (d.open && !step.Close?)
  {
    InputsMore(d.sent, ReleaseAll);
    if step.Send? {
      var q := if d.owner.Some? && d.owner.value != step.who then Sent(d, ReleaseAll) else d;
      InputsMore(q.sent, Input(step.who, step.what));
    }
  }

  /** Every input asked for while the compositor takes commands is sent, once and in order. */
  lemma {:induction false} InputsSent(d: Desk, steps: seq<Step>)
    ensures Inputs(After(d, steps).sent) == Inputs(d.sent) + Asked(steps, d.open)
    decreases |steps|
  {
    hide Do, Asks, Inputs;
    if steps != [] {
      StepInputs(d, steps[0]);
      InputsSent(Do(d, steps[0]), steps[1..]);
    }
  }

  /** Each release of all follows input that was held. */
  ghost predicate Needed(sent: seq<Command>) {
    forall k :: 0 <= k < |sent| && sent[k].ReleaseAll? ==> Holders(sent[..k]) != {}
  }

  lemma NeededMore(sent: seq<Command>, command: Command)
    requires Needed(sent) && (command.ReleaseAll? ==> Holders(sent) != {})
    ensures Needed(sent + [command])
  {
    var q := sent + [command];
    forall k | 0 <= k < |q| && q[k].ReleaseAll? ensures Holders(q[..k]) != {} {
      if k < |sent| { assert q[..k] == sent[..k]; } else { assert q[..k] == sent; }
    }
  }

  /** In every run nothing is released that nobody held. */
  lemma {:induction false} ReleasesNeeded(d: Desk, steps: seq<Step>)
    requires Valid(d) && Needed(d.sent)
    ensures Needed(After(d, steps).sent)
    decreases |steps|
  {
    if steps != [] {
      StepKeeps(d, steps[0]);
      if d.open && d.owner.Some? { NeededMore(d.sent, ReleaseAll); }
      var step := steps[0];
      if step.Send? && d.open {
        var q := if d.owner.Some? && d.owner.value != step.who then Sent(d, ReleaseAll) else d;
        NeededMore(q.sent, Input(step.who, step.what));
      }
      ReleasesNeeded(Do(d, step), steps[1..]);
    }
  }

  // ----- in place

  class App {
    var owner: Option<Owner>
    var open: bool
    ghost var sent: seq<Command>

    ghost function Model(): Desk
      reads this
    {
      Desk(owner, open, sent)
    }

    constructor ()
      ensures Model() == START
    {
      owner, open, sent := None, true, [];
    }

    method SendCommand(command: Command) returns (ok: bool)
      modifies `sent
      ensures Model() == Sent(old(Model()), command) && ok == open
    {
      ok := open;
      if ok { sent := sent + [command]; }
    }

    method SendInput(who: Owner, what: nat) returns (ok: bool)
      modifies `owner, `sent
      ensures Model() == InputSent(old(Model()), who, what) && ok == open
    {
      if owner.Some? && owner.value != who {
        ok := SendCommand(ReleaseAll);
        if !ok { return; }
      }
      ok := SendCommand(Input(who, what));
      if ok { owner := Some(who); }
    }

    method ReleaseInput(who: Owner)
      modifies `owner, `sent
      ensures Model() == Released(old(Model()), who)
    {
      if owner == Some(who) {
        owner := None;
        var _ := SendCommand(ReleaseAll);
      }
    }

    method CancelToken(token: nat)
      modifies `owner, `sent
      ensures Model() == Revoked(old(Model()), token)
    {
      if owner.Some? && owner.value.token == token {
        owner := None;
        var _ := SendCommand(ReleaseAll);
      }
    }
  }
}
