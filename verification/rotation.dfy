/** Round-robin over a queue of tokens: the part that job dispatch and mutation
    admission share. A grant skips the tokens that cannot start anything, serves the
    first that can and leaves it, with the skipped ones, behind the others. */
module Rotation {

  ghost predicate Distinct<T>(s: seq<T>) {
    forall i, j :: 0 <= i < j < |s| ==> s[i] != s[j]
  }

  /** The elements of `s` that are in `kept`, in their order. */
  function Keep<T(==,!new)>(s: seq<T>, kept: set<T>): (r: seq<T>)
    ensures |r| <= |s|
    ensures forall x :: x in r <==> x in s && x in kept
  {
    if s == [] then []
    else
      var rest := Keep(s[1..], kept);
      if s[0] in kept then [s[0]] + rest else rest
  }

  lemma {:induction false} KeepDistinct<T(!new)>(s: seq<T>, kept: set<T>)
    requires Distinct(s)
    ensures Distinct(Keep(s, kept))
  {
    if s != [] { KeepDistinct(s[1..], kept); }
  }

  lemma {:induction false} KeepAppend<T(!new)>(s: seq<T>, x: T, kept: set<T>)
    ensures Keep(s + [x], kept) == Keep(s, kept) + (if x in kept then [x] else [])
  {
    if s == [] {
      assert s + [x] == [x];
      assert Keep([x][1..], kept) == [];
    } else {
      assert (s + [x])[1..] == s[1..] + [x];
      KeepAppend(s[1..], x, kept);
    }
  }

  lemma {:induction false} KeepAll<T(!new)>(s: seq<T>, kept: set<T>)
    requires forall x :: x in s ==> x in kept
    ensures Keep(s, kept) == s
  {
    if s != [] { KeepAll(s[1..], kept); }
  }

  /** `a` stands in front of `b`. */
  ghost predicate Before<T(!new)>(s: seq<T>, a: T, b: T) { exists i, j :: 0 <= i < j < |s| && s[i] == a && s[j] == b }

  lemma {:induction false} KeepBefore<T(!new)>(s: seq<T>, kept: set<T>, a: T, b: T)
    requires Before(s, a, b) && a in kept && b in kept
    ensures Before(Keep(s, kept), a, b)
  {
    var i, j :| 0 <= i < j < |s| && s[i] == a && s[j] == b;
    var rest := Keep(s[1..], kept);
    if i == 0 {
      assert b in s[1..] by { assert s[1..][j - 1] == b; }
      var m :| 0 <= m < |rest| && rest[m] == b;
      assert Keep(s, kept)[0] == a && Keep(s, kept)[m + 1] == b;
    } else {
      assert s[1..][i - 1] == a && s[1..][j - 1] == b;
      KeepBefore(s[1..], kept, a, b);
      var m, n :| 0 <= m < n < |rest| && rest[m] == a && rest[n] == b;
      var d := |Keep(s, kept)| - |rest|;
      assert Keep(s, kept)[m + d] == a && Keep(s, kept)[n + d] == b;
    }
  }

  lemma WithoutBefore<T(!new)>(s: seq<T>, k: nat, a: T, b: T)
    requires k < |s| && Before(s, a, b) && a != s[k] && b != s[k]
    ensures Before(s[..k] + s[k + 1..], a, b)
  {
    var i, j :| 0 <= i < j < |s| && s[i] == a && s[j] == b;
    var q := s[..k] + s[k + 1..];
    assert q[if i < k then i else i - 1] == a && q[if j < k then j else j - 1] == b;
  }

  lemma AppendBefore<T(!new)>(s: seq<T>, x: T, a: T, b: T)
    requires Before(s, a, b) || (a in s && b == x)
    ensures Before(s + [x], a, b)
  {
    if Before(s, a, b) {
      var i, j :| 0 <= i < j < |s| && s[i] == a && s[j] == b;
      assert (s + [x])[i] == a && (s + [x])[j] == b;
    } else {
      var i :| 0 <= i < |s| && s[i] == a;
      assert (s + [x])[i] == a && (s + [x])[|s|] == b;
    }
  }

  /** How many tokens a grant skips: everything before the first eligible one. */
  function Turn<T(==,!new)>(tokens: seq<T>, eligible: set<T>): (k: nat)
    ensures k <= |tokens|
    ensures k < |tokens| ==> tokens[k] in eligible
    ensures forall i :: 0 <= i < k ==> tokens[i] !in eligible
  {
    if tokens == [] || tokens[0] in eligible then 0 else 1 + Turn(tokens[1..], eligible)
  }

  lemma TurnIs<T(!new)>(tokens: seq<T>, eligible: set<T>, k: nat)
    requires k <= |tokens|
    requires k < |tokens| ==> tokens[k] in eligible
    requires forall i :: 0 <= i < k ==> tokens[i] !in eligible
    ensures Turn(tokens, eligible) == k
  {
    var t := Turn(tokens, eligible);
    assert t < |tokens| ==> tokens[t] in eligible;
  }

  /** One token more to the back. */
  lemma TurnedOnce<T(!new)>(tokens: seq<T>, k: nat, now: seq<T>)
    requires k < |tokens| && now == tokens[k..] + tokens[..k]
    ensures now[0] == tokens[k] && now[1..] + [now[0]] == tokens[k + 1..] + tokens[..k + 1]
  {
    assert tokens[k..] == [tokens[k]] + tokens[k + 1..];
    assert tokens[..k] + [tokens[k]] == tokens[..k + 1];
  }

  /** What can happen to the rotation between two looks at it. */
  datatype Change<T(==,!new)> =
    | Grant(eligible: set<T>, leaves: bool)
    | Arrive(token: T)
    | Retain(kept: set<T>)

  function Apply<T(==,!new)>(tokens: seq<T>, change: Change<T>): seq<T> {
    match change
    case Grant(eligible, leaves) =>
      var k := Turn(tokens, eligible);
      if k == |tokens| then tokens
      else tokens[k + 1..] + tokens[..k] + (if leaves then [] else [tokens[k]])
    case Arrive(token) => if token in tokens then tokens else tokens + [token]
    case Retain(kept) => Keep(tokens, kept)
  }

  /** The token a change serves, if it serves one. */
  function Served<T(==,!new)>(tokens: seq<T>, change: Change<T>): seq<T> {
    if change.Grant? then
      var k := Turn(tokens, change.eligible);
      if k == |tokens| then [] else [tokens[k]]
    else []
  }

  function Run<T(==,!new)>(tokens: seq<T>, changes: seq<Change<T>>): seq<T>
    decreases |changes|
  {
    if changes == [] then tokens else Run(Apply(tokens, changes[0]), changes[1..])
  }

  function Grants<T(==,!new)>(tokens: seq<T>, changes: seq<Change<T>>): seq<T>
    decreases |changes|
  {
    if changes == [] then []
    else Served(tokens, changes[0]) + Grants(Apply(tokens, changes[0]), changes[1..])
  }

  lemma Without<T(!new)>(s: seq<T>, i: nat)
    requires Distinct(s) && i < |s|
    ensures Distinct(s[..i] + s[i + 1..])
    ensures forall x :: x in s[..i] + s[i + 1..] <==> x in s && x != s[i]
  {
    assert s == s[..i] + [s[i]] + s[i + 1..];
  }

  /** A grant that leaves its token in the rotation loses none. */
  lemma GrantKeeps<T(!new)>(tokens: seq<T>, eligible: set<T>)
    requires Distinct(tokens)
    ensures Distinct(Apply(tokens, Grant(eligible, false)))
    ensures forall t :: t in tokens <==> t in Apply(tokens, Grant(eligible, false))
  {
    DistinctApply(tokens, Grant(eligible, false));
    var k := Turn(tokens, eligible);
    if k < |tokens| { assert tokens == tokens[..k] + [tokens[k]] + tokens[k + 1..]; }
  }

  /** The tokens in front of `t`. */
  function Ahead<T(==,!new)>(tokens: seq<T>, t: T): (r: set<T>)
    ensures t !in r
    ensures |r| <= |tokens|
    ensures forall x :: x in r ==> x in tokens
  {
    if tokens == [] || tokens[0] == t then {} else {tokens[0]} + Ahead(tokens[1..], t)
  }

  lemma {:induction false} AheadAt<T(!new)>(tokens: seq<T>, t: T, p: nat)
    requires p < |tokens| && tokens[p] == t && forall i :: 0 <= i < p ==> tokens[i] != t
    ensures Ahead(tokens, t) == set i | 0 <= i < p :: tokens[i]
    ensures |Ahead(tokens, t)| <= p
  {
    if p > 0 {
      AheadAt(tokens[1..], t, p - 1);
      var s, tail := set i | 0 <= i < p :: tokens[i], set i | 0 <= i < p - 1 :: tokens[1..][i];
      forall x | x in s ensures x in {tokens[0]} + tail {
        var i :| 0 <= i < p && tokens[i] == x;
        if i > 0 { assert tokens[1..][i - 1] == x; }
      }
      assert forall i :: 0 <= i < p - 1 ==> tokens[1..][i] == tokens[i + 1];
      assert s == {tokens[0]} + tail;
    }
  }

  lemma {:induction false} AheadAppend<T(!new)>(a: seq<T>, b: seq<T>, t: T)
    ensures t in a ==> Ahead(a + b, t) == Ahead(a, t)
    ensures t !in a ==> Ahead(a + b, t) == (set x | x in a) + Ahead(b, t)
  {
    if a == [] {
      assert a + b == b;
    } else {
      assert (a + b)[1..] == a[1..] + b;
      AheadAppend(a[1..], b, t);
      SetOfHead(a);
    }
  }

  lemma SetOfHead<T(!new)>(s: seq<T>)
    requires s != []
    ensures (set x | x in s) == {s[0]} + set x | x in s[1..]
  {
  }

  lemma {:induction false} AheadKeep<T(!new)>(tokens: seq<T>, kept: set<T>, t: T)
    requires t in kept
    ensures Ahead(Keep(tokens, kept), t) <= Ahead(tokens, t)
  {
    if tokens != [] { AheadKeep(tokens[1..], kept, t); }
  }

  lemma DistinctTurned<T(!new)>(tokens: seq<T>, k: nat)
    requires Distinct(tokens) && k < |tokens|
    ensures var r := tokens[k + 1..] + tokens[..k]; Distinct(r) && tokens[k] !in r
  {
    var r, n := tokens[k + 1..] + tokens[..k], |tokens|;
    forall i | 0 <= i < |r| ensures r[i] == tokens[if i < n - k - 1 then i + k + 1 else i - (n - k - 1)] {}
  }

  lemma DistinctApply<T(!new)>(tokens: seq<T>, change: Change<T>)
    requires Distinct(tokens)
    ensures Distinct(Apply(tokens, change))
  {
    if change.Retain? { KeepDistinct(tokens, change.kept); }
    if change.Grant? {
      var k := Turn(tokens, change.eligible);
      if k < |tokens| {
        DistinctTurned(tokens, k);
        if !change.leaves { assert tokens[k + 1..] + tokens[..k + 1] == (tokens[k + 1..] + tokens[..k]) + [tokens[k]]; }
      }
    }
  }

  /** Behind the k skipped tokens, `t` moves up by them and by the served one. */
  lemma AheadTurned<T(!new)>(tokens: seq<T>, k: nat, back: seq<T>, t: T)
    requires Distinct(tokens) && k < |tokens| && t in tokens[k + 1..]
    ensures Ahead(tokens[k + 1..] + back, t) <= Ahead(tokens, t)
    ensures tokens[k] in Ahead(tokens, t) && tokens[k] !in Ahead(tokens[k + 1..] + back, t)
  {
    var front := tokens[k + 1..];
    var q :| 0 <= q < |front| && front[q] == t;
    var p := q + k + 1;
    assert forall i :: 0 <= i < |front| ==> front[i] == tokens[i + k + 1];
    AheadAt(tokens, t, p);
    AheadAt(front, t, q);
    AheadAppend(front, back, t);
    forall x | x in Ahead(front, t) ensures x in Ahead(tokens, t) && x != tokens[k] {
      var i :| 0 <= i < q && front[i] == x;
      assert tokens[i + k + 1] == x;
    }
  }

  /** A grant that serves another token leaves `t` with strictly fewer tokens in front,
      and the served one is no longer among them. Nothing else puts a token in front of `t`. */
  lemma OneChange<T(!new)>(tokens: seq<T>, change: Change<T>, t: T)
    requires Distinct(tokens) && t in tokens && t in Apply(tokens, change)
    requires change.Grant? ==> t in change.eligible
    requires t !in Served(tokens, change)
    ensures Ahead(Apply(tokens, change), t) <= Ahead(tokens, t)
    ensures forall u :: u in Served(tokens, change) ==> u in Ahead(tokens, t) && u !in Ahead(Apply(tokens, change), t)
  {
    match change
    case Arrive(token) => AheadAppend(tokens, [token], t);
    case Retain(kept) => AheadKeep(tokens, kept, t);
    case Grant(eligible, leaves) =>
      GrantPassesOver(tokens, eligible, t);
      var k := Turn(tokens, eligible);
      var back := tokens[..k] + (if leaves then [] else [tokens[k]]);
      assert Apply(tokens, change) == tokens[k + 1..] + back;
      AheadTurned(tokens, k, back, t);
  }

  lemma GrantPassesOver<T(!new)>(tokens: seq<T>, eligible: set<T>, t: T)
    requires t in tokens && t in eligible
    ensures Turn(tokens, eligible) < |tokens|
    ensures tokens[Turn(tokens, eligible)] != t ==> t in tokens[Turn(tokens, eligible) + 1..]
  {
    var k := Turn(tokens, eligible);
    var p :| 0 <= p < |tokens| && tokens[p] == t;
    if tokens[k] != t { assert tokens[k + 1..][p - k - 1] == t; }
  }

  /** The token `t` stays queued and can start something at every grant of the run. */
  ghost predicate AlwaysReady<T(!new)>(tokens: seq<T>, changes: seq<Change<T>>, t: T)
    decreases |changes|
  {
    && t in tokens
    && (changes != [] ==>
          && (changes[0].Grant? ==> t in changes[0].eligible)
          && AlwaysReady(Apply(tokens, changes[0]), changes[1..], t))
  }

  /** Bounded overtaking: until `t` is served, the grants go to tokens that were in front
      of it when the run began, to none of them twice. */
  lemma {:induction false} BoundedOvertaking<T(!new)>(tokens: seq<T>, changes: seq<Change<T>>, t: T)
    requires Distinct(tokens) && AlwaysReady(tokens, changes, t)
    requires t !in Grants(tokens, changes)
    ensures Distinct(Grants(tokens, changes))
    ensures forall u :: u in Grants(tokens, changes) ==> u in Ahead(tokens, t)
    ensures |Grants(tokens, changes)| <= |Ahead(tokens, t)|
    decreases |changes|
  {
    if changes != [] {
      var served, next := Served(tokens, changes[0]), Apply(tokens, changes[0]);
      var later := Grants(next, changes[1..]);
      assert Grants(tokens, changes) == served + later;
      assert forall u :: u in later ==> u in Grants(tokens, changes);
      assert forall u :: u in served ==> u in Grants(tokens, changes);
      DistinctApply(tokens, changes[0]);
      BoundedOvertaking(next, changes[1..], t);
      OneChange(tokens, changes[0], t);
      if served != [] {
        assert served[0] in served;
        Smaller(Ahead(next, t), Ahead(tokens, t), served[0]);
      } else {
        Fewer(Ahead(next, t), Ahead(tokens, t));
      }
    }
  }

  lemma {:induction false} Fewer<T(!new)>(a: set<T>, b: set<T>)
    requires a <= b
    ensures |a| <= |b|
  {
    if a != {} {
      var x :| x in a;
      Fewer(a - {x}, b - {x});
    }
  }

  lemma Smaller<T(!new)>(a: set<T>, b: set<T>, x: T)
    requires a <= b && x in b && x !in a
    ensures |a| + 1 <= |b|
  {
    Fewer(a, b - {x});
  }
}
