/** Which workspace a window is on: transient windows follow their parent. */
module Families {
  import opened Common
  import opened Rotation
  import Stack

  type Window = Stack.Window

  /** The stack, the parents the clients named, and where a window without a membership is. */
  datatype Tree = Tree(windows: seq<Window>, parents: map<Window, Window>, default: nat)

  /** A parent counts only while it is in the stack. */
  function Parent(t: Tree, w: Window): Option<Window> {
    if w in t.parents && t.parents[w] in t.windows then Some(t.parents[w]) else None
  }

  function Of(t: Tree, member: map<Window, nat>, w: Window): nat {
    if w in member then member[w] else t.default
  }

  // ----- the fixpoint loop

  function Adopted(t: Tree, member: map<Window, nat>, w: Window): map<Window, nat> {
    var parent := Parent(t, w);
    if parent.Some? && Of(t, member, w) != Of(t, member, parent.value)
    then member[w := Of(t, member, parent.value)] else member
  }

  /** The first `n` windows of one round, each reading what the ones before it wrote. */
  function Pass(t: Tree, member: map<Window, nat>, n: nat): map<Window, nat>
    requires n <= |t.windows|
  {
    if n == 0 then member else Adopted(t, Pass(t, member, n - 1), t.windows[n - 1])
  }

  function Rounds(t: Tree, member: map<Window, nat>, k: nat): map<Window, nat> {
    if k == 0 then member else Pass(t, Rounds(t, member, k - 1), |t.windows|)
  }

  function Synced(t: Tree, member: map<Window, nat>): map<Window, nat> { Rounds(t, member, |t.windows|) }

  /** Stopping after a round that changed nothing loses nothing. */
  lemma {:induction false} StableRounds(t: Tree, member: map<Window, nat>, i: nat, k: nat)
    requires i <= k && Pass(t, Rounds(t, member, i), |t.windows|) == Rounds(t, member, i)
    ensures Rounds(t, member, k) == Rounds(t, member, i)
    decreases k
  {
    if i < k { StableRounds(t, member, i, k - 1); }
  }

  // ----- the root of a family

  /** The climb of a move: it stops at a window without a parent, or before one seen. */
  function Climb(t: Tree, root: Window, seen: set<Window>): Window
    decreases |Mapped(t) - seen|
  {
    var parent := Parent(t, root);
    if parent.None? || parent.value in seen then root
    else
      Smaller(Mapped(t) - (seen + {parent.value}), Mapped(t) - seen, parent.value);
      Climb(t, parent.value, seen + {parent.value})
  }

  function Mapped(t: Tree): set<Window> { set w | w in t.windows }

  function Root(t: Tree, w: Window): Window { Climb(t, w, {w}) }

  /** The workspace of windows without a membership has no part in it. */
  lemma {:induction false} ClimbsSame(t: Tree, default: nat, w: Window, seen: set<Window>)
    ensures Climb(t.(default := default), w, seen) == Climb(t, w, seen)
    decreases |Mapped(t) - seen|
  {
    var parent := Parent(t, w);
    assert Parent(t.(default := default), w) == parent;
    assert Mapped(t.(default := default)) == Mapped(t);
    if parent.Some? && parent.value !in seen {
      Smaller(Mapped(t) - (seen + {parent.value}), Mapped(t) - seen, parent.value);
      ClimbsSame(t, default, parent.value, seen + {parent.value});
    }
  }

  /** No window is its own ancestor: a rank falls from child to parent. */
  ghost predicate Acyclic(t: Tree, rank: map<Window, nat>) {
    forall w :: w in t.windows ==>
      w in rank && (Parent(t, w).Some? ==> Parent(t, w).value in rank && rank[Parent(t, w).value] < rank[w])
  }

  lemma {:induction false} ClimbsFree(t: Tree, rank: map<Window, nat>, w: Window, seen: set<Window>)
    requires Acyclic(t, rank) && w in t.windows
    requires forall s :: s in seen ==> s in rank && rank[w] <= rank[s]
    ensures Climb(t, w, seen) == Root(t, w)
    decreases rank[w]
  {
    var parent := Parent(t, w);
    if parent.Some? {
      ClimbsFree(t, rank, parent.value, seen + {parent.value});
      ClimbsFree(t, rank, parent.value, {w} + {parent.value});
    }
  }

  lemma RootOfParent(t: Tree, rank: map<Window, nat>, w: Window)
    requires Acyclic(t, rank) && w in t.windows
    ensures Parent(t, w).None? ==> Root(t, w) == w
    ensures Parent(t, w).Some? ==> Root(t, w) == Root(t, Parent(t, w).value)
  {
    var parent := Parent(t, w);
    if parent.Some? { ClimbsFree(t, rank, parent.value, {w} + {parent.value}); }
  }

  lemma {:induction false} RootIsTop(t: Tree, rank: map<Window, nat>, w: Window)
    requires Acyclic(t, rank) && w in t.windows
    ensures Root(t, w) in t.windows && Parent(t, Root(t, w)).None? && Root(t, Root(t, w)) == Root(t, w)
    decreases rank[w]
  {
    RootOfParent(t, rank, w);
    if Parent(t, w).Some? { RootIsTop(t, rank, Parent(t, w).value); }
  }

  // ----- how deep a family is

  ghost function Depth(t: Tree, rank: map<Window, nat>, w: Window): nat
    requires Acyclic(t, rank) && w in t.windows
    decreases rank[w]
  {
    if Parent(t, w).None? then 0 else 1 + Depth(t, rank, Parent(t, w).value)
  }

  ghost function Lineage(t: Tree, rank: map<Window, nat>, w: Window): set<Window>
    requires Acyclic(t, rank) && w in t.windows
    decreases rank[w]
  {
    {w} + if Parent(t, w).None? then {} else Lineage(t, rank, Parent(t, w).value)
  }

  lemma {:induction false} LineageSize(t: Tree, rank: map<Window, nat>, w: Window)
    requires Acyclic(t, rank) && w in t.windows
    ensures Lineage(t, rank, w) <= Mapped(t) && |Lineage(t, rank, w)| == Depth(t, rank, w) + 1
    ensures forall a :: a in Lineage(t, rank, w) ==> a in rank && rank[a] <= rank[w]
    decreases rank[w]
  {
    if Parent(t, w).Some? { LineageSize(t, rank, Parent(t, w).value); }
  }

  lemma {:induction false} SetOfSeq(s: seq<Window>, members: set<Window>)
    requires members == set w | w in s
    ensures |members| <= |s|
    decreases |s|
  {
    if s != [] {
      var rest := set w | w in s[1..];
      SetOfSeq(s[1..], rest);
      assert members == rest + {s[0]};
    }
  }

  lemma DepthBound(t: Tree, rank: map<Window, nat>, w: Window)
    requires Acyclic(t, rank) && w in t.windows
    ensures Depth(t, rank, w) < |t.windows|
  {
    LineageSize(t, rank, w);
    Fewer(Lineage(t, rank, w), Mapped(t));
    SetOfSeq(t.windows, Mapped(t));
  }

  // ----- n rounds are enough

  /** Windows up to depth `k`, and the first `n` up to one deeper, are on their root's workspace. */
  ghost predicate Settled(t: Tree, rank: map<Window, nat>, was: map<Window, nat>, now: map<Window, nat>, k: nat, n: nat)
    requires Acyclic(t, rank)
  {
    forall i :: 0 <= i < |t.windows| && Depth(t, rank, t.windows[i]) <= (if i < n then k + 1 else k) ==>
      Of(t, now, t.windows[i]) == Of(t, was, Root(t, t.windows[i]))
  }

  lemma SettledAt(t: Tree, rank: map<Window, nat>, was: map<Window, nat>, now: map<Window, nat>, k: nat, n: nat, w: Window)
    requires Acyclic(t, rank) && Settled(t, rank, was, now, k, n) && w in t.windows && Depth(t, rank, w) <= k
    ensures Of(t, now, w) == Of(t, was, Root(t, w))
  {
    var i :| 0 <= i < |t.windows| && t.windows[i] == w;
  }

  lemma AdoptSettles(t: Tree, rank: map<Window, nat>, was: map<Window, nat>, now: map<Window, nat>, k: nat, n: nat)
    requires Acyclic(t, rank) && n < |t.windows| && Settled(t, rank, was, now, k, n)
    ensures Settled(t, rank, was, Adopted(t, now, t.windows[n]), k, n + 1)
  {
    hide Climb;
    var w := t.windows[n];
    var parent := Parent(t, w);
    RootOfParent(t, rank, w);
    if parent.None? {
      SettledAt(t, rank, was, now, k, n, w);
    } else if Depth(t, rank, w) <= k + 1 {
      SettledAt(t, rank, was, now, k, n, parent.value);
    }
  }

  lemma {:induction false} PassSettles(t: Tree, rank: map<Window, nat>, was: map<Window, nat>, now: map<Window, nat>, k: nat, n: nat)
    requires Acyclic(t, rank) && n <= |t.windows| && Settled(t, rank, was, now, k, 0)
    ensures Settled(t, rank, was, Pass(t, now, n), k, n)
    decreases n
  {
    hide Settled, Adopted;
    if n > 0 {
      PassSettles(t, rank, was, now, k, n - 1);
      AdoptSettles(t, rank, was, Pass(t, now, n - 1), k, n - 1);
    }
  }

  lemma {:induction false} RoundsSettle(t: Tree, rank: map<Window, nat>, member: map<Window, nat>, k: nat)
    requires Acyclic(t, rank)
    ensures Settled(t, rank, member, Rounds(t, member, k), k, 0)
    decreases k
  {
    if k == 0 {
      forall w | w in t.windows ensures Depth(t, rank, w) == 0 ==> Root(t, w) == w { RootOfParent(t, rank, w); }
    } else {
      RoundsSettle(t, rank, member, k - 1);
      PassSettles(t, rank, member, Rounds(t, member, k - 1), k - 1, |t.windows|);
    }
  }

  /** For acyclic parents the loop leaves every window on its root's workspace. */
  lemma SyncReachesRoots(t: Tree, rank: map<Window, nat>, member: map<Window, nat>, w: Window)
    requires Acyclic(t, rank) && w in t.windows
    ensures Of(t, Synced(t, member), w) == Of(t, member, Root(t, w))
  {
    RoundsSettle(t, rank, member, |t.windows|);
    DepthBound(t, rank, w);
    SettledAt(t, rank, member, Synced(t, member), |t.windows|, 0, w);
  }

  /** For any parents: the loop only copies memberships between windows of the stack. */
  lemma {:induction false} PassCopies(t: Tree, member: map<Window, nat>, n: nat, places: set<nat>)
    requires n <= |t.windows|
    requires forall w :: w in t.windows ==> w in member && member[w] in places
    ensures var m := Pass(t, member, n);
      && m.Keys == member.Keys
      && (forall w :: w in t.windows ==> w in m && m[w] in places)
      && (forall w :: w in m && w !in t.windows ==> m[w] == member[w])
    decreases n
  {
    if n > 0 { PassCopies(t, member, n - 1, places); }
  }

  lemma {:induction false} RoundsCopy(t: Tree, member: map<Window, nat>, k: nat, places: set<nat>)
    requires forall w :: w in t.windows ==> w in member && member[w] in places
    ensures var m := Rounds(t, member, k);
      && m.Keys == member.Keys
      && (forall w :: w in t.windows ==> w in m && m[w] in places)
      && (forall w :: w in m && w !in t.windows ==> m[w] == member[w])
    decreases k
  {
    if k > 0 {
      RoundsCopy(t, member, k - 1, places);
      PassCopies(t, Rounds(t, member, k - 1), |t.windows|, places);
    }
  }

  // ----- moving a family

  ghost predicate InStep(t: Tree, member: map<Window, nat>) {
    forall w :: w in t.windows && Parent(t, w).Some? ==> Of(t, member, w) == Of(t, member, Parent(t, w).value)
  }

  lemma {:induction false} InStepWithRoot(t: Tree, rank: map<Window, nat>, member: map<Window, nat>, w: Window)
    requires Acyclic(t, rank) && w in t.windows && InStep(t, member)
    ensures Of(t, member, w) == Of(t, member, Root(t, w))
    decreases rank[w]
  {
    RootOfParent(t, rank, w);
    if Parent(t, w).Some? { InStepWithRoot(t, rank, member, Parent(t, w).value); }
  }

  /** After the loop everything is in step, whatever it was before. */
  lemma SyncInStep(t: Tree, rank: map<Window, nat>, member: map<Window, nat>)
    requires Acyclic(t, rank)
    ensures InStep(t, Synced(t, member))
  {
    forall w | w in t.windows && Parent(t, w).Some?
      ensures Of(t, Synced(t, member), w) == Of(t, Synced(t, member), Parent(t, w).value)
    {
      RootOfParent(t, rank, w);
      SyncReachesRoots(t, rank, member, w);
      SyncReachesRoots(t, rank, member, Parent(t, w).value);
    }
  }

  function Relocated(t: Tree, member: map<Window, nat>, window: Window, target: nat): map<Window, nat> {
    var root := Root(t, window);
    if Of(t, member, root) == target then member else Synced(t, member[root := target])
  }

  /** A move takes the whole family of the window, and no window of another one. */
  lemma MovesOneFamily(t: Tree, rank: map<Window, nat>, member: map<Window, nat>, window: Window, target: nat, w: Window)
    requires Acyclic(t, rank) && InStep(t, member) && window in t.windows && w in t.windows
    ensures Of(t, Relocated(t, member, window, target), w) == if Root(t, w) == Root(t, window) then target else Of(t, member, w)
    ensures InStep(t, Relocated(t, member, window, target))
  {
    var root := Root(t, window);
    InStepWithRoot(t, rank, member, w);
    InStepWithRoot(t, rank, member, window);
    if Of(t, member, root) != target {
      SyncReachesRoots(t, rank, member[root := target], w);
      SyncInStep(t, rank, member[root := target]);
    }
  }

  /** Whatever was out of step before, a move of a root that was elsewhere leaves the family
      on the target and every other window on its own root's workspace. */
  lemma MovesAnyway(t: Tree, rank: map<Window, nat>, member: map<Window, nat>, window: Window, target: nat, w: Window)
    requires Acyclic(t, rank) && window in t.windows && w in t.windows
    requires Of(t, member, Root(t, window)) != target
    ensures Of(t, Relocated(t, member, window, target), w) == if Root(t, w) == Root(t, window) then target else Of(t, member, Root(t, w))
    ensures InStep(t, Relocated(t, member, window, target))
  {
    var root := Root(t, window);
    SyncReachesRoots(t, rank, member[root := target], w);
    SyncInStep(t, rank, member[root := target]);
  }

  /** With every window in step, for any parents, the loop finds nothing to do. */
  lemma {:induction false} InStepPass(t: Tree, member: map<Window, nat>, n: nat)
    requires InStep(t, member) && n <= |t.windows|
    ensures Pass(t, member, n) == member
    decreases n
  {
    if n > 0 { InStepPass(t, member, n - 1); }
  }

  lemma InStepSynced(t: Tree, member: map<Window, nat>)
    requires InStep(t, member)
    ensures Synced(t, member) == member
  {
    InStepPass(t, member, |t.windows|);
    StableRounds(t, member, 0, |t.windows|);
  }
}
