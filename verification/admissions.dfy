/** Mutation permits: one application at a time, four in all, handed out by round robin
    over the tokens that wait for one. */
module Admissions {
  import opened Common
  import opened Rotation
  import Jobs

  type Application = Jobs.Application

  const MUTATIONS := 4

  datatype Admission = Admission(id: nat, token: nat, application: Application)

  /** `active` names the lease each application was last admitted under; `leases` the
      leases not yet dropped, with the application they were handed out for. */
  datatype Desk = Desk(
    active: map<Application, nat>, tokens: seq<nat>, pending: map<nat, seq<Admission>>,
    leases: map<nat, Application>, handed: nat)

  const IDLE := Desk(map[], [], map[], map[], 0)

  function Pushed(d: Desk, request: Admission): Desk {
    var queue := if request.token in d.pending then d.pending[request.token] else [];
    d.(tokens := if request.token in d.pending then d.tokens else d.tokens + [request.token],
       pending := d.pending[request.token := queue + [request]])
  }

  function Released(d: Desk, lease: nat): Desk { d.(leases := d.leases - {lease}) }

  function Swept(pending: map<nat, seq<Admission>>, live: set<Admission>): map<nat, seq<Admission>> {
    map t | t in pending && Keep(pending[t], live) != [] :: Keep(pending[t], live)
  }

  /** The first lines of a dispatch: dropped leases, dead requests and idle tokens go. */
  function Cleaned(d: Desk, live: set<Admission>): Desk {
    var pending := Swept(d.pending, live);
    d.(active := map a | a in d.active && d.active[a] in d.leases :: d.active[a],
       pending := pending, tokens := Keep(d.tokens, pending.Keys))
  }

  /** The first request of a queue whose application is free. */
  function FirstFree(queue: seq<Admission>, active: map<Application, nat>): (i: nat)
    ensures i <= |queue|
    ensures i < |queue| ==> queue[i].application !in active
    ensures forall j :: 0 <= j < i ==> queue[j].application in active
  {
    if queue == [] || queue[0].application !in active then 0 else 1 + FirstFree(queue[1..], active)
  }

  function Ready(d: Desk): set<nat> {
    set t | t in d.pending && FirstFree(d.pending[t], d.active) < |d.pending[t]|
  }

  function Removed<T>(s: seq<T>, i: nat): seq<T>
    requires i < |s|
  {
    s[..i] + s[i + 1..]
  }

  /** The request admitted next: none when every pending one's application is busy. */
  function Next(d: Desk): (next: Option<Admission>)
    ensures next.Some? ==> next.value.application !in d.active
    ensures next.Some? ==> Turn(d.tokens, Ready(d)) < |d.tokens|
  {
    var k := Turn(d.tokens, Ready(d));
    if k == |d.tokens| then None
    else Some(d.pending[d.tokens[k]][FirstFree(d.pending[d.tokens[k]], d.active)])
  }

  /** Served with its last request, a token leaves the rotation. */
  function Leaves(d: Desk): bool {
    var k := Turn(d.tokens, Ready(d));
    k < |d.tokens| && |d.pending[d.tokens[k]]| == 1
  }

  /** Request `i` of a token's queue gets its permit; a token without further requests
      leaves. A permit whose receiver is gone (`closed`) is dropped as it is sent. */
  function Handed(d: Desk, token: nat, i: nat, closed: set<Admission>): Desk
    requires token in d.pending && i < |d.pending[token]|
  {
    var request, queue := d.pending[token][i], Removed(d.pending[token], i);
    d.(active := d.active[request.application := d.handed], handed := d.handed + 1,
       tokens := if queue == [] then Keep(d.tokens, (set t | t in d.tokens) - {token}) else d.tokens,
       pending := if queue == [] then d.pending - {token} else d.pending[token := queue],
       leases := if request in closed then d.leases else d.leases[d.handed := request.application])
  }

  function Granted(d: Desk, closed: set<Admission>): Desk {
    var k := Turn(d.tokens, Ready(d));
    if k == |d.tokens| then d
    else
      var token := d.tokens[k];
      Handed(d.(tokens := Apply(d.tokens, Grant(Ready(d), false))), token, FirstFree(d.pending[token], d.active), closed)
  }

  function Filled(d: Desk, closed: set<Admission>): Desk
    decreases if |d.active| < MUTATIONS then MUTATIONS - |d.active| else 0
  {
    if |d.active| < MUTATIONS && Next(d).Some? then
      assert |Granted(d, closed).active| == |d.active| + 1 by { OneMore(d, closed); }
      Filled(Granted(d, closed), closed)
    else d
  }

  /** Rotating and then dropping the served token is a grant that leaves. */
  lemma TurnedTokens(tokens: seq<nat>, ready: set<nat>)
    requires Distinct(tokens) && Turn(tokens, ready) < |tokens|
    ensures var turned := Apply(tokens, Grant(ready, false));
      Apply(tokens, Grant(ready, true)) == Keep(turned, (set t | t in turned) - {tokens[Turn(tokens, ready)]})
  {
    var k := Turn(tokens, ready);
    var front := tokens[k + 1..] + tokens[..k];
    var others := (set t | t in front + [tokens[k]]) - {tokens[k]};
    KeepAppend(front, tokens[k], others);
    KeepAll(front, others);
  }

  lemma GrantTurns(d: Desk, closed: set<Admission>)
    requires Valid(d)
    ensures Granted(d, closed).tokens == Apply(d.tokens, Grant(Ready(d), Leaves(d)))
  {
    var k := Turn(d.tokens, Ready(d));
    if k < |d.tokens| {
      TurnedTokens(d.tokens, Ready(d));
      var queue := d.pending[d.tokens[k]];
      assert Removed(queue, FirstFree(queue, d.active)) == [] <==> |queue| == 1;
    }
  }

  lemma OneMore(d: Desk, closed: set<Admission>)
    requires Next(d).Some?
    ensures |Granted(d, closed).active| == |d.active| + 1
  {
    hide Ready, FirstFree, Keep, Removed;
    assert Granted(d, closed).active.Keys == d.active.Keys + {Next(d).value.application};
  }

  function Dispatched(d: Desk, live: set<Admission>, closed: set<Admission>): Desk {
    Filled(Cleaned(d, live), closed)
  }

  // ----- what every step keeps

  ghost predicate Valid(d: Desk) {
    && Distinct(d.tokens)
    && (forall t :: t in d.tokens <==> t in d.pending)
    && (forall t :: t in d.pending ==> d.pending[t] != [])
    && |d.active| <= MUTATIONS
    && (forall a :: a in d.active ==> d.active[a] < d.handed)
    && (forall a, b :: a in d.active && b in d.active && d.active[a] == d.active[b] ==> a == b)
    && (forall l :: l in d.leases ==> d.leases[l] in d.active && d.active[d.leases[l]] == l)
  }

  datatype Step =
    | Request(request: Admission)
    | Release(lease: nat)
    | Clean(live: set<Admission>)
    | Admit(closed: set<Admission>)

  predicate Enabled(d: Desk, step: Step) { step.Admit? ==> |d.active| < MUTATIONS }

  function Do(d: Desk, step: Step): Desk {
    match step
    case Request(request) => Pushed(d, request)
    case Release(lease) => Released(d, lease)
    case Clean(live) => Cleaned(d, live)
    case Admit(closed) => Granted(d, closed)
  }

  lemma CleanKeeps(d: Desk, live: set<Admission>)
    requires Valid(d)
    ensures Valid(Cleaned(d, live))
  {
    var q := Cleaned(d, live);
    KeepDistinct(d.tokens, q.pending.Keys);
    Fewer(q.active.Keys, d.active.Keys);
  }

  lemma GrantedTokens(tokens: seq<nat>, ready: set<nat>, leaves: bool, t: nat)
    requires Distinct(tokens) && Turn(tokens, ready) < |tokens|
    ensures t in Apply(tokens, Grant(ready, leaves)) <==> t in tokens && !(leaves && t == tokens[Turn(tokens, ready)])
  {
    Without(tokens, Turn(tokens, ready));
    var k := Turn(tokens, ready);
    assert t in tokens[..k] + tokens[k + 1..] <==> t in tokens[k + 1..] + tokens[..k];
  }

  lemma AdmitTokens(d: Desk, closed: set<Admission>)
    requires Valid(d) && Next(d).Some?
    ensures var q := Granted(d, closed);
      Distinct(q.tokens) && (forall t :: t in q.tokens <==> t in q.pending) && forall t :: t in q.pending ==> q.pending[t] != []
  {
    hide Keep;
    var q := Granted(d, closed);
    GrantTurns(d, closed);
    DistinctApply(d.tokens, Grant(Ready(d), Leaves(d)));
    forall t ensures t in q.tokens <==> t in q.pending { GrantedTokens(d.tokens, Ready(d), Leaves(d), t); }
  }

  lemma AdmitLeases(d: Desk, closed: set<Admission>)
    requires Valid(d) && Next(d).Some?
    ensures var q := Granted(d, closed);
      && (forall a :: a in q.active ==> q.active[a] < q.handed)
      && (forall a, b :: a in q.active && b in q.active && q.active[a] == q.active[b] ==> a == b)
      && (forall l :: l in q.leases ==> q.leases[l] in q.active && q.active[q.leases[l]] == l)
  {
    hide Keep, Removed;
  }

  lemma AdmitKeeps(d: Desk, closed: set<Admission>)
    requires Valid(d) && |d.active| < MUTATIONS
    ensures Valid(Granted(d, closed))
  {
    if Next(d).Some? {
      OneMore(d, closed);
      AdmitTokens(d, closed);
      AdmitLeases(d, closed);
      hide Granted;
    }
  }

  lemma StepKeeps(d: Desk, step: Step)
    requires Valid(d) && Enabled(d, step)
    ensures Valid(Do(d, step))
  {
    match step
    case Clean(live) => CleanKeeps(d, live);
    case Admit(closed) => AdmitKeeps(d, closed);
    case Request(request) =>
    case Release(lease) =>
  }

  ghost predicate Possible(d: Desk, steps: seq<Step>)
    decreases |steps|
  {
    steps != [] ==> Enabled(d, steps[0]) && Possible(Do(d, steps[0]), steps[1..])
  }

  ghost function After(d: Desk, steps: seq<Step>): Desk
    requires Possible(d, steps)
    decreases |steps|
  {
    if steps == [] then d else After(Do(d, steps[0]), steps[1..])
  }

  lemma {:induction false} AlwaysValid(d: Desk, steps: seq<Step>)
    requires Valid(d) && Possible(d, steps)
    ensures Valid(After(d, steps))
    decreases |steps|
  {
    if steps != [] {
      StepKeeps(d, steps[0]);
      AlwaysValid(Do(d, steps[0]), steps[1..]);
    }
  }

  /** In every run no two live permits are for one application, and at most four are live. */
  lemma PermitsExclusive(steps: seq<Step>)
    requires Possible(IDLE, steps)
    ensures var d := After(IDLE, steps);
      && (forall l, m :: l in d.leases && m in d.leases && d.leases[l] == d.leases[m] ==> l == m)
      && |d.leases| <= 4
  {
    AlwaysValid(IDLE, steps);
    var d := After(IDLE, steps);
    LeasesFit(d, d.leases.Keys, d.active.Keys);
  }

  lemma {:induction false} LeasesFit(d: Desk, leases: set<nat>, applications: set<Application>)
    requires Valid(d) && leases <= d.leases.Keys
    requires forall l :: l in leases ==> d.leases[l] in applications
    ensures |leases| <= |applications|
  {
    if leases != {} {
      var l :| l in leases;
      LeasesFit(d, leases - {l}, applications - {d.leases[l]});
    }
  }

  /** A dispatch stops only at the cap or when every waiting request's application is busy. */
  lemma {:induction false} DispatchIsMaximal(d: Desk, closed: set<Admission>)
    requires Valid(d)
    ensures var q := Filled(d, closed);
      && Valid(q)
      && (|q.active| == 4 || forall t, r :: t in q.pending && r in q.pending[t] ==> r.application in q.active)
    decreases MUTATIONS - |d.active|
  {
    if |d.active| < MUTATIONS && Next(d).Some? {
      AdmitKeeps(d, closed);
      OneMore(d, closed);
      DispatchIsMaximal(Granted(d, closed), closed);
    } else if |d.active| < MUTATIONS {
      forall t, r | t in d.pending && r in d.pending[t] ensures r.application in d.active {
        assert t in d.tokens && t !in Ready(d);
      }
    }
  }

  // ----- what each step does

  /** Until the next cleaning the applications of permits stay taken, whatever is dropped. */
  lemma {:induction false} TakenUntilCleaned(d: Desk, steps: seq<Step>)
    requires Possible(d, steps) && forall step :: step in steps ==> step.Request? || step.Release?
    ensures After(d, steps).active == d.active
    decreases |steps|
  {
    if steps != [] {
      assert steps[0] in steps && forall step :: step in steps[1..] ==> step in steps;
      TakenUntilCleaned(Do(d, steps[0]), steps[1..]);
    }
  }

  ghost predicate IsPending(d: Desk, r: Admission) { exists t :: t in d.pending && r in d.pending[t] }

  /** A request waits behind those of its token, and a token without any behind the others. */
  lemma WaitsLast(d: Desk, request: Admission, r: Admission)
    requires Valid(d) && request != r
    ensures var q, t := Do(d, Request(request)), request.token;
      && t in q.pending && request in q.pending[t]
      && (t in d.pending && r in d.pending[t] ==> Before(q.pending[t], r, request))
      && (r.token in d.tokens && t !in d.pending ==> Before(q.tokens, r.token, t))
      && (forall u :: u != t ==> (u in q.pending <==> u in d.pending) && (u in d.pending ==> q.pending[u] == d.pending[u]))
      && |q.pending[t]| == (if t in d.pending then |d.pending[t]| else 0) + 1
      && q.active == d.active && q.leases == d.leases
  {
    var q, t := Do(d, Request(request)), request.token;
    assert q.pending[t][|q.pending[t]| - 1] == request;
    if t in d.pending && r in d.pending[t] { AppendBefore(d.pending[t], request, r, request); }
    if r.token in d.tokens && t !in d.pending { AppendBefore(d.tokens, t, r.token, t); }
  }

  /** A cleaning frees the applications without a permit and drops the dead requests, and
      no others. */
  lemma CleansExactly(d: Desk, live: set<Admission>)
    requires Valid(d)
    ensures var q := Do(d, Clean(live));
      && q.leases == d.leases
      && (forall a :: a in q.active <==> exists l :: l in d.leases && d.leases[l] == a)
      && (forall a :: a in q.active ==> q.active[a] == d.active[a])
      && (forall t, r :: t in q.pending && r in q.pending[t] <==> t in d.pending && r in d.pending[t] && r in live)
      && (forall t, r, o :: t in q.pending && r in live && o in live && Before(d.pending[t], r, o) ==> Before(q.pending[t], r, o))
  {
    var q := Do(d, Clean(live));
    forall a ensures a in q.active <==> exists l :: l in d.leases && d.leases[l] == a {
      if a in q.active { assert d.leases[d.active[a]] == a; }
    }
    forall t, r | t in d.pending && r in d.pending[t] && r in live ensures t in q.pending && r in q.pending[t] {
      assert r in Keep(d.pending[t], live);
    }
    forall t, r, o | t in q.pending && r in live && o in live && Before(d.pending[t], r, o) ensures Before(q.pending[t], r, o) {
      KeepBefore(d.pending[t], live, r, o);
    }
  }

  /** The first token in the rotation with a request whose application is free, and its
      first such request. */
  ghost predicate IsNext(d: Desk, k: nat, i: nat) {
    && k < |d.tokens| && d.tokens[k] in d.pending && i < |d.pending[d.tokens[k]]|
    && d.pending[d.tokens[k]][i].application !in d.active
    && (forall j :: 0 <= j < i ==> d.pending[d.tokens[k]][j].application in d.active)
    && (forall j, r :: 0 <= j < k && d.tokens[j] in d.pending && r in d.pending[d.tokens[j]] ==> r.application in d.active)
  }

  lemma NextExists(d: Desk, t: nat, r: Admission)
    requires Valid(d) && t in d.pending && r in d.pending[t] && r.application !in d.active
    ensures exists k, i :: IsNext(d, k, i)
  {
    assert t in Ready(d) && t in d.tokens;
    var k := Turn(d.tokens, Ready(d));
    assert IsNext(d, k, FirstFree(d.pending[d.tokens[k]], d.active));
  }

  /** A grant goes to that request, takes its application, and hands out a lease if its
      receiver still listens; the token goes behind the others while it has requests left. */
  lemma GrantsNext(d: Desk, k: nat, i: nat, closed: set<Admission>)
    requires Valid(d) && |d.active| < 4 && IsNext(d, k, i)
    ensures Enabled(d, Admit(closed))
    ensures var q, token := Do(d, Admit(closed)), d.tokens[k];
      var request := d.pending[token][i];
      var left := d.pending[token][..i] + d.pending[token][i + 1..];
      && q.active == d.active[request.application := d.handed] && q.handed == d.handed + 1
      && q.leases == (if request in closed then d.leases else d.leases[d.handed := request.application])
      && q.pending == (if left == [] then d.pending - {token} else d.pending[token := left])
      && q.tokens == d.tokens[k + 1..] + d.tokens[..k] + if left == [] then [] else [token]
  {
    hide FirstFree, Handed, Valid;
    var token := d.tokens[k];
    FirstFreeIs(d.pending[token], d.active, i);
    NoneBefore(d, k, i);
    GrantedAt(d, k, closed);
    HandsExactly(d, k, i, closed);
  }

  lemma NoneBefore(d: Desk, k: nat, i: nat)
    requires IsNext(d, k, i)
    ensures d.tokens[k] in Ready(d) && forall j :: 0 <= j < k ==> d.tokens[j] !in Ready(d)
  {
    FirstFreeIs(d.pending[d.tokens[k]], d.active, i);
  }

  lemma HandsExactly(d: Desk, k: nat, i: nat, closed: set<Admission>)
    requires Valid(d) && k < |d.tokens| && d.tokens[k] in d.pending && i < |d.pending[d.tokens[k]]|
    ensures var token, turned := d.tokens[k], d.tokens[k + 1..] + d.tokens[..k + 1];
      var left := d.pending[token][..i] + d.pending[token][i + 1..];
      var q, request := Handed(d.(tokens := turned), token, i, closed), d.pending[token][i];
      && q.active == d.active[request.application := d.handed] && q.handed == d.handed + 1
      && q.leases == (if request in closed then d.leases else d.leases[d.handed := request.application])
      && q.pending == (if left == [] then d.pending - {token} else d.pending[token := left])
      && q.tokens == d.tokens[k + 1..] + d.tokens[..k] + if left == [] then [] else [token]
  {
    var token, front := d.tokens[k], d.tokens[k + 1..] + d.tokens[..k];
    assert d.tokens[k + 1..] + d.tokens[..k + 1] == front + [token];
    DistinctTurned(d.tokens, k);
    var others := (set t | t in front + [token]) - {token};
    KeepAppend(front, token, others);
    KeepAll(front, others);
  }

  // ----- bounded overtaking

  function TokenChange(d: Desk, step: Step): Change<nat> {
    match step
    case Request(request) => Arrive(request.token)
    case Release(_) => Retain(set t | t in d.tokens)
    case Clean(live) => Retain(Swept(d.pending, live).Keys)
    case Admit(_) => Grant(Ready(d), Leaves(d))
  }

  function TurnTaken(d: Desk, step: Step): seq<nat> {
    if step.Admit? && Next(d).Some? then [d.tokens[Turn(d.tokens, Ready(d))]] else []
  }

  ghost function Turns(d: Desk, steps: seq<Step>): seq<nat>
    requires Possible(d, steps)
    decreases |steps|
  {
    if steps == [] then [] else TurnTaken(d, steps[0]) + Turns(Do(d, steps[0]), steps[1..])
  }

  ghost function Changes(d: Desk, steps: seq<Step>): seq<Change<nat>>
    requires Possible(d, steps)
    decreases |steps|
  {
    if steps == [] then [] else [TokenChange(d, steps[0])] + Changes(Do(d, steps[0]), steps[1..])
  }

  ghost predicate Contending(d: Desk, steps: seq<Step>, token: nat)
    requires Possible(d, steps)
    decreases |steps|
  {
    && token in d.tokens
    && (steps != [] ==>
          && (steps[0].Admit? ==> token in Ready(d))
          && Contending(Do(d, steps[0]), steps[1..], token))
  }

  lemma TokensFollow(d: Desk, step: Step)
    requires Valid(d)
    ensures Do(d, step).tokens == Apply(d.tokens, TokenChange(d, step))
  {
    hide Granted, Swept, Leaves, Ready, Keep;
    KeepAll(d.tokens, set t | t in d.tokens);
    if step.Admit? { GrantTurns(d, step.closed); }
  }

  lemma {:induction false} ChangesFollow(d: Desk, steps: seq<Step>, token: nat)
    requires Valid(d) && Possible(d, steps) && Contending(d, steps, token)
    ensures AlwaysReady(d.tokens, Changes(d, steps), token)
    ensures Grants(d.tokens, Changes(d, steps)) == Turns(d, steps)
    decreases |steps|
  {
    if steps != [] {
      StepKeeps(d, steps[0]);
      TokensFollow(d, steps[0]);
      ChangesFollow(Do(d, steps[0]), steps[1..], token);
      assert Changes(d, steps)[1..] == Changes(Do(d, steps[0]), steps[1..]);
      assert Served(d.tokens, TokenChange(d, steps[0])) == TurnTaken(d, steps[0]);
    }
  }

  /** A contending token waits for no more permits to others than there are tokens in
      front of it, and none of them gets two. */
  lemma AdmissionOvertaking(d: Desk, steps: seq<Step>, token: nat)
    requires Valid(d) && Possible(d, steps) && Contending(d, steps, token)
    requires token !in Turns(d, steps)
    ensures Distinct(Turns(d, steps))
    ensures forall u :: u in Turns(d, steps) ==> u in Ahead(d.tokens, token)
    ensures |Turns(d, steps)| <= |Ahead(d.tokens, token)|
  {
    ChangesFollow(d, steps, token);
    BoundedOvertaking(d.tokens, Changes(d, steps), token);
  }

  // ----- the queue in place

  class Counter {
    var active: map<Application, nat>
    var tokens: seq<nat>
    var pending: map<nat, seq<Admission>>
    var leases: map<nat, Application>
    var handed: nat

    function Model(): Desk
      reads this
    {
      Desk(active, tokens, pending, leases, handed)
    }

    constructor ()
      ensures Model() == IDLE
    {
      active, tokens, pending, leases, handed := map[], [], map[], map[], 0;
    }

    method Push(request: Admission)
      modifies this
      ensures Model() == Pushed(old(Model()), request)
    {
      if request.token !in pending {
        tokens := tokens + [request.token];
        pending := pending[request.token := []];
      }
      pending := pending[request.token := pending[request.token] + [request]];
    }

    /** Dropping a permit. */
    method Drop(lease: nat)
      modifies this
      ensures Model() == Released(old(Model()), lease)
    {
      leases := leases - {lease};
    }

    method Dispatch(live: set<Admission>, closed: set<Admission>)
      requires Valid(Model())
      modifies this
      ensures Model() == Dispatched(old(Model()), live, closed)
      ensures Valid(Model())
    {
      hide Valid, Granted, Next;
      CleanKeeps(Model(), live);
      active := map a | a in active && active[a] in leases :: active[a];
      pending := Swept(pending, live);
      tokens := Keep(tokens, pending.Keys);
      assert Model() == Cleaned(old(Model()), live);
      var more := true;
      while more && |active| < MUTATIONS
        invariant Valid(Model())
        invariant Dispatched(old(Model()), live, closed) == Filled(Model(), closed)
        invariant !more ==> Next(Model()).None?
        decreases MUTATIONS - |active|, more
      {
        AdmitKeeps(Model(), closed);
        ghost var d := Model();
        if Next(d).Some? { OneMore(d, closed); }
        more := GrantOne(closed);
      }
    }

    /** Rotates to the first token that can be served and hands it a permit. */
    method GrantOne(closed: set<Admission>) returns (found: bool)
      requires Valid(Model())
      modifies this
      ensures Model() == Granted(old(Model()), closed)
      ensures found <==> Next(old(Model())).Some?
      ensures !found ==> Model() == old(Model())
    {
      hide Ready, FirstFree, Handed, Granted, Next;
      var n := |tokens|;
      ghost var d := Model();
      var k := 0;
      while k < n
        invariant k <= n == |d.tokens|
        invariant Model() == d.(tokens := d.tokens[k..] + d.tokens[..k])
        invariant forall j :: 0 <= j < k ==> d.tokens[j] !in Ready(d)
      {
        TurnedOnce(d.tokens, k, tokens);
        var token := tokens[0];
        tokens := tokens[1..] + [token];
        var i := Position(pending[token]);
        IsReady(d, token);
        if i < |pending[token]| {
          GrantedAt(d, k, closed);
          Hand(token, i, closed);
          return true;
        }
        k := k + 1;
      }
      NoneReady(d, closed);
      assert tokens == d.tokens;
      found := false;
    }

    method Position(queue: seq<Admission>) returns (i: nat)
      ensures i == FirstFree(queue, active)
    {
      i := 0;
      while i < |queue| && queue[i].application in active
        invariant i <= |queue|
        invariant forall j :: 0 <= j < i ==> queue[j].application in active
      {
        i := i + 1;
      }
      FirstFreeIs(queue, active, i);
    }

    method Hand(token: nat, i: nat, closed: set<Admission>)
      requires token in pending && i < |pending[token]|
      modifies this
      ensures Model() == Handed(old(Model()), token, i, closed)
    {
      hide Keep, Removed, FirstFree, Valid;
      var request, queue := pending[token][i], Removed(pending[token], i);
      pending := pending[token := queue];
      if queue == [] {
        pending := pending - {token};
        tokens := Keep(tokens, (set t | t in tokens) - {token});
      }
      active := active[request.application := handed];
      if request !in closed { leases := leases[handed := request.application]; }
      handed := handed + 1;
    }
  }

  lemma IsReady(d: Desk, token: nat)
    requires token in d.pending
    ensures token in Ready(d) <==> FirstFree(d.pending[token], d.active) < |d.pending[token]|
  {
  }

  lemma GrantedAt(d: Desk, k: nat, closed: set<Admission>)
    requires k < |d.tokens| && d.tokens[k] in Ready(d) && forall j :: 0 <= j < k ==> d.tokens[j] !in Ready(d)
    ensures var token := d.tokens[k];
      && Next(d).Some? && token in d.pending && FirstFree(d.pending[token], d.active) < |d.pending[token]|
      && Granted(d, closed) == Handed(d.(tokens := d.tokens[k + 1..] + d.tokens[..k + 1]), token, FirstFree(d.pending[token], d.active), closed)
  {
    hide Handed, FirstFree, Valid;
    TurnIs(d.tokens, Ready(d), k);
    assert d.tokens[k + 1..] + d.tokens[..k + 1] == Apply(d.tokens, Grant(Ready(d), false));
  }

  lemma NoneReady(d: Desk, closed: set<Admission>)
    requires forall j :: 0 <= j < |d.tokens| ==> d.tokens[j] !in Ready(d)
    ensures Next(d).None? && Granted(d, closed) == d
  {
    TurnIs(d.tokens, Ready(d), |d.tokens|);
  }

  lemma FirstFreeIs(queue: seq<Admission>, active: map<Application, nat>, i: nat)
    requires i <= |queue| && (i < |queue| ==> queue[i].application !in active)
    requires forall j :: 0 <= j < i ==> queue[j].application in active
    ensures FirstFree(queue, active) == i
  {
    var f := FirstFree(queue, active);
    assert f < |queue| ==> queue[f].application !in active;
  }
}
