/** The stacking order, with minimized windows remembered by the place they had in it. */
module Stack {
  import opened Common
  import opened Rotation

  type Window = nat
  datatype Point = Point(x: int, y: int)
  datatype Mini = Mini(window: Window, loc: Point, z: nat)

  // ----- the space: a window that is mapped again goes on top

  function Without1(s: seq<Window>, w: Window): (r: seq<Window>)
    ensures forall x :: x in r <==> x in s && x != w
    ensures w !in s ==> r == s
  {
    if s == [] then [] else if s[0] == w then Without1(s[1..], w) else [s[0]] + Without1(s[1..], w)
  }

  function OnTop(space: seq<Window>, w: Window): seq<Window> { Without1(space, w) + [w] }

  /** Mapping or raising several windows, the last one ending on top. */
  function AllOnTop(space: seq<Window>, ws: seq<Window>): seq<Window>
    decreases |ws|
  {
    if ws == [] then space else AllOnTop(OnTop(space, ws[0]), ws[1..])
  }

  // ----- the whole stack

  function Ranked(m: Mini, sorted: seq<Mini>): (r: seq<Mini>)
    ensures |r| == |sorted| + 1
    ensures forall x :: x in r <==> x in sorted || x == m
  {
    if sorted == [] || m.z <= sorted[0].z then [m] + sorted else [sorted[0]] + Ranked(m, sorted[1..])
  }

  /** Lowest place first, equal places in their order. */
  function ByPlace(minis: seq<Mini>): (r: seq<Mini>)
    ensures |r| == |minis|
    ensures forall x :: x in r <==> x in minis
  {
    if minis == [] then [] else Ranked(minis[0], ByPlace(minis[1..]))
  }

  function Inserted<T>(s: seq<T>, i: nat, x: T): seq<T>
    requires i <= |s|
  {
    s[..i] + [x] + s[i..]
  }

  function InsertAll(stack: seq<Window>, minis: seq<Mini>): seq<Window>
    decreases |minis|
  {
    if minis == [] then stack
    else InsertAll(Inserted(stack, if minis[0].z <= |stack| then minis[0].z else |stack|, minis[0].window), minis[1..])
  }

  /** Every window bottom to top, minimized ones at the place they had when minimized. */
  function FullStack(space: seq<Window>, minis: seq<Mini>): seq<Window> { InsertAll(space, ByPlace(minis)) }

  // ----- what the whole stack is, said without sorting and inserting

  /** The elements of `s` at the places outside `at`. */
  ghost function Rest<T>(s: seq<T>, at: set<nat>): seq<T> {
    if s == [] then []
    else Rest(s[..|s| - 1], at) + (if |s| - 1 in at then [] else [s[|s| - 1]])
  }

  ghost function Places(minis: seq<Mini>): set<nat> { set i | 0 <= i < |minis| :: minis[i].z }

  /** `stack` has each minimized window at its place and the mapped ones, in order, elsewhere. */
  ghost predicate Stacked(stack: seq<Window>, space: seq<Window>, minis: seq<Mini>) {
    && |stack| == |space| + |minis|
    && (forall m :: m in minis ==> m.z < |stack| && stack[m.z] == m.window)
    && Rest(stack, Places(minis)) == space
  }

  /** The places are distinct and exist; a window is mapped once, or minimized once. */
  ghost predicate Good(space: seq<Window>, minis: seq<Mini>) {
    && Distinct(space)
    && (forall i, j :: 0 <= i < j < |minis| ==> minis[i].z != minis[j].z && minis[i].window != minis[j].window)
    && (forall m :: m in minis ==> m.window !in space && m.z < |space| + |minis|)
  }

  lemma {:induction false} RestAgree<T>(s: seq<T>, a: set<nat>, b: set<nat>)
    requires forall i :: 0 <= i < |s| ==> (i in a <==> i in b)
    ensures Rest(s, a) == Rest(s, b)
  {
    if s != [] { RestAgree(s[..|s| - 1], a, b); }
  }

  lemma {:induction false} RestNone<T>(s: seq<T>, at: set<nat>)
    requires forall i :: i in at ==> i >= |s|
    ensures Rest(s, at) == s
  {
    if s != [] {
      RestNone(s[..|s| - 1], at);
      assert s == s[..|s| - 1] + [s[|s| - 1]];
    }
  }

  lemma {:induction false} RestInsert<T>(s: seq<T>, at: set<nat>, z: nat, x: T)
    requires z <= |s| && forall i :: i in at ==> i < z
    ensures Rest(Inserted(s, z, x), at + {z}) == Rest(s, at)
  {
    var r := Inserted(s, z, x);
    if z == |s| {
      assert r[..|r| - 1] == s;
      RestAgree(s, at + {z}, at);
    } else {
      var t := s[..|s| - 1];
      assert r[..|r| - 1] == Inserted(t, z, x);
      RestInsert(t, at, z, x);
    }
  }

  lemma {:induction false} SameStack<T>(s: seq<T>, t: seq<T>, at: set<nat>)
    requires |s| == |t| && Rest(s, at) == Rest(t, at)
    requires forall i :: i in at && i < |s| ==> s[i] == t[i]
    ensures s == t
  {
    if s != [] {
      var n := |s| - 1;
      var a, b := Rest(s[..n], at), Rest(t[..n], at);
      if n !in at {
        assert Rest(s, at) == a + [s[n]] && Rest(t, at) == b + [t[n]];
        assert (a + [s[n]])[|a|] == s[n] && |a| == |b|;
        assert (a + [s[n]])[..|a|] == (b + [t[n]])[..|b|];
      } else {
        assert Rest(s, at) == a + [] == a && Rest(t, at) == b + [] == b;
      }
      assert a == b;
      SameStack(s[..n], t[..n], at);
      assert s == s[..n] + [s[n]] && t == t[..n] + [t[n]];
    }
  }

  /** At most one stack fits. */
  lemma StackUnique(s: seq<Window>, t: seq<Window>, space: seq<Window>, minis: seq<Mini>)
    requires Stacked(s, space, minis) && Stacked(t, space, minis)
    ensures s == t
  {
    forall i | i in Places(minis) && i < |s| ensures s[i] == t[i] {
      var k :| 0 <= k < |minis| && minis[k].z == i;
      assert minis[k] in minis;
    }
    SameStack(s, t, Places(minis));
  }

  ghost predicate Ascending(minis: seq<Mini>) { forall i, j :: 0 <= i < j < |minis| ==> minis[i].z < minis[j].z }

  lemma {:induction false} RankedAscends(m: Mini, sorted: seq<Mini>)
    requires Ascending(sorted) && forall x :: x in sorted ==> x.z != m.z
    ensures Ascending(Ranked(m, sorted))
  {
    if !(sorted == [] || m.z <= sorted[0].z) {
      var rest := Ranked(m, sorted[1..]);
      RankedAscends(m, sorted[1..]);
      forall x | x in rest ensures sorted[0].z < x.z {
        if x != m {
          var i :| 0 <= i < |sorted[1..]| && sorted[1..][i] == x;
          assert sorted[i + 1] == x;
        }
      }
    }
  }

  lemma {:induction false} ByPlaceAscends(minis: seq<Mini>)
    requires forall i, j :: 0 <= i < j < |minis| ==> minis[i].z != minis[j].z
    ensures Ascending(ByPlace(minis))
  {
    if minis != [] {
      ByPlaceAscends(minis[1..]);
      forall x | x in ByPlace(minis[1..]) ensures x.z != minis[0].z {
        var i :| 0 <= i < |minis[1..]| && minis[1..][i] == x;
        assert minis[i + 1] == x;
      }
      RankedAscends(minis[0], ByPlace(minis[1..]));
    }
  }

  /** Places that ascend below `n` leave room for those still to come. */
  lemma {:induction false} RoomAbove(minis: seq<Mini>, n: nat)
    requires Ascending(minis) && minis != [] && minis[|minis| - 1].z < n
    ensures minis[0].z + |minis| <= n
  {
    if |minis| > 1 { RoomAbove(minis[1..], n); }
  }

  lemma PlacesFirst(minis: seq<Mini>)
    requires minis != []
    ensures Places(minis) == {minis[0].z} + Places(minis[1..])
  {
    forall i | i in Places(minis) ensures i == minis[0].z || i in Places(minis[1..]) {
      var k :| 0 <= k < |minis| && minis[k].z == i;
      if k > 0 { assert minis[1..][k - 1].z == i; }
    }
    forall i | i in Places(minis[1..]) ensures i in Places(minis) {
      var k :| 0 <= k < |minis| - 1 && minis[1..][k].z == i;
      assert minis[k + 1].z == i;
    }
  }

  /** The minimized windows all fit, each above the one before. */
  ghost predicate Fits(stack: seq<Window>, minis: seq<Mini>) {
    Ascending(minis) && (minis != [] ==> minis[|minis| - 1].z < |stack| + |minis|)
  }

  lemma FitsNext(stack: seq<Window>, minis: seq<Mini>)
    requires Fits(stack, minis) && minis != []
    ensures minis[0].z <= |stack|
    ensures Fits(Inserted(stack, minis[0].z, minis[0].window), minis[1..])
    ensures InsertAll(stack, minis) == InsertAll(Inserted(stack, minis[0].z, minis[0].window), minis[1..])
    ensures forall m :: m in minis[1..] ==> minis[0].z < m.z
  {
    RoomAbove(minis, |stack| + |minis|);
  }

  lemma {:induction false} InsertAllAt(stack: seq<Window>, minis: seq<Mini>)
    requires Fits(stack, minis)
    ensures var r := InsertAll(stack, minis);
      && |r| == |stack| + |minis|
      && (forall m :: m in minis ==> m.z < |r| && r[m.z] == m.window)
      && (forall i :: 0 <= i < |stack| && (forall m :: m in minis ==> i < m.z) ==> r[i] == stack[i])
    decreases |minis|
  {
    if minis != [] {
      FitsNext(stack, minis);
      var m, more := minis[0], minis[1..];
      assert m in minis && forall x :: x in minis <==> x == m || x in more;
      InsertAllAt(Inserted(stack, m.z, m.window), more);
    }
  }

  lemma {:induction false} InsertAllRest(stack: seq<Window>, minis: seq<Mini>, at: set<nat>)
    requires Fits(stack, minis) && forall i, m :: i in at && m in minis ==> i < m.z
    ensures Rest(InsertAll(stack, minis), at + Places(minis)) == Rest(stack, at)
    decreases |minis|
  {
    if minis == [] {
      assert at + Places(minis) == at;
    } else {
      FitsNext(stack, minis);
      var m, more := minis[0], minis[1..];
      assert m in minis && forall x :: x in minis <==> x == m || x in more;
      RestInsert(stack, at, m.z, m.window);
      InsertAllRest(Inserted(stack, m.z, m.window), more, at + {m.z});
      PlacesFirst(minis);
      assert (at + {m.z}) + Places(more) == at + Places(minis);
    }
  }

  lemma SamePlaces(a: seq<Mini>, b: seq<Mini>)
    requires forall x :: x in a <==> x in b
    ensures Places(a) == Places(b)
  {
    forall i | i in Places(a) ensures i in Places(b) {
      var k :| 0 <= k < |a| && a[k].z == i;
      assert a[k] in b;
    }
    forall i | i in Places(b) ensures i in Places(a) {
      var k :| 0 <= k < |b| && b[k].z == i;
      assert b[k] in a;
    }
  }

  /** Sorting and inserting puts every minimized window exactly at its place. */
  lemma StackPlaces(space: seq<Window>, minis: seq<Mini>)
    requires Good(space, minis)
    ensures Stacked(FullStack(space, minis), space, minis)
  {
    hide ByPlace, InsertAll, Rest, Places;
    var sorted := ByPlace(minis);
    ByPlaceAscends(minis);
    RestNone(space, {});
    if sorted != [] { assert sorted[|sorted| - 1] in minis; }
    InsertAllAt(space, sorted);
    InsertAllRest(space, sorted, {});
    SamePlaces(sorted, minis);
    assert {} + Places(sorted) == Places(minis);
  }

  /** The whole stack is whatever fits. */
  lemma StackIs(stack: seq<Window>, space: seq<Window>, minis: seq<Mini>)
    requires Good(space, minis) && Stacked(stack, space, minis)
    ensures FullStack(space, minis) == stack
  {
    StackPlaces(space, minis);
    StackUnique(stack, FullStack(space, minis), space, minis);
  }

  // ----- what every operation does to the whole stack

  ghost function Mapped(space: seq<Window>): set<Window> { set w | w in space }

  /** The same description, by windows instead of places. */
  ghost predicate Arranged(stack: seq<Window>, space: seq<Window>, minis: seq<Mini>) {
    && Distinct(stack)
    && |stack| == |space| + |minis|
    && (forall m :: m in minis ==> m.z < |stack| && stack[m.z] == m.window)
    && (forall w :: w in stack && w !in space ==> exists m :: m in minis && m.window == w)
    && Keep(stack, Mapped(space)) == space
  }

  lemma {:induction false} RestKeeps<T(!new)>(s: seq<T>, at: set<nat>, kept: set<T>)
    requires forall i :: 0 <= i < |s| ==> (i in at <==> s[i] !in kept)
    ensures Rest(s, at) == Keep(s, kept)
  {
    if s != [] {
      var n := |s| - 1;
      RestKeeps(s[..n], at, kept);
      assert s == s[..n] + [s[n]];
      KeepAppend(s[..n], s[n], kept);
    }
  }

  lemma {:induction false} RestHas<T(!new)>(s: seq<T>, at: set<nat>)
    ensures forall x :: x in Rest(s, at) ==> exists i :: 0 <= i < |s| && i !in at && s[i] == x
    ensures forall i :: 0 <= i < |s| && i !in at ==> s[i] in Rest(s, at)
  {
    if s != [] {
      var n := |s| - 1;
      RestHas(s[..n], at);
      forall x | x in Rest(s, at) ensures exists i :: 0 <= i < |s| && i !in at && s[i] == x {
        if x in Rest(s[..n], at) {
          var i :| 0 <= i < n && i !in at && s[..n][i] == x;
          assert s[i] == x;
        } else {
          assert n !in at && s[n] == x;
        }
      }
      forall i | 0 <= i < |s| && i !in at ensures s[i] in Rest(s, at) {
        if i < n { assert s[..n][i] in Rest(s[..n], at); }
      }
    }
  }

  lemma {:induction false} RestOnce<T(!new)>(s: seq<T>, at: set<nat>)
    requires Distinct(Rest(s, at))
    ensures forall i, j :: 0 <= i < j < |s| && i !in at && j !in at ==> s[i] != s[j]
  {
    if s != [] {
      var n := |s| - 1;
      var r := Rest(s[..n], at);
      assert forall i :: 0 <= i < |r| ==> r[i] == Rest(s, at)[i];
      RestOnce(s[..n], at);
      RestHas(s[..n], at);
      forall i | 0 <= i < n && i !in at && n !in at ensures s[i] != s[n] {
        assert s[..n][i] in r;
        assert Rest(s, at)[|r|] == s[n];
      }
    }
  }

  lemma StackedArranged(stack: seq<Window>, space: seq<Window>, minis: seq<Mini>)
    requires Good(space, minis) && Stacked(stack, space, minis)
    ensures Arranged(stack, space, minis)
  {
    var at := Places(minis);
    RestHas(stack, at);
    RestOnce(stack, at);
    forall i | i in at ensures i < |stack| && exists m :: m in minis && m.z == i && m.window == stack[i] {
      var k :| 0 <= k < |minis| && minis[k].z == i;
      assert minis[k] in minis;
    }
    forall i, j | 0 <= i < j < |stack| ensures stack[i] != stack[j] {
      if i in at && j in at {
        var a :| 0 <= a < |minis| && minis[a].z == i;
        var b :| 0 <= b < |minis| && minis[b].z == j;
        assert minis[a] in minis && minis[b] in minis;
      }
    }
    RestKeeps(stack, at, Mapped(space));
  }

  lemma ArrangedStacked(stack: seq<Window>, space: seq<Window>, minis: seq<Mini>)
    requires Good(space, minis) && Arranged(stack, space, minis)
    ensures FullStack(space, minis) == stack
  {
    var at := Places(minis);
    forall i | 0 <= i < |stack| ensures i in at <==> stack[i] !in Mapped(space) {
      if i in at {
        var k :| 0 <= k < |minis| && minis[k].z == i;
        assert minis[k] in minis;
      }
      if stack[i] !in space {
        var m :| m in minis && m.window == stack[i];
        var k :| 0 <= k < |minis| && minis[k] == m;
        assert stack[m.z] == stack[i];
      }
    }
    RestKeeps(stack, at, Mapped(space));
    StackIs(stack, space, minis);
  }

  /** The whole stack lists every window once. */
  lemma FullStackArranged(space: seq<Window>, minis: seq<Mini>)
    requires Good(space, minis)
    ensures Arranged(FullStack(space, minis), space, minis)
  {
    StackPlaces(space, minis);
    StackedArranged(FullStack(space, minis), space, minis);
  }

  lemma {:induction false} KeepLess(s: seq<Window>, kept: set<Window>, w: Window)
    ensures Keep(s, kept - {w}) == Without1(Keep(s, kept), w)
  {
    if s != [] { KeepLess(s[1..], kept, w); }
  }

  lemma {:induction false} KeepConcat(a: seq<Window>, b: seq<Window>, kept: set<Window>)
    ensures Keep(a + b, kept) == Keep(a, kept) + Keep(b, kept)
  {
    if a == [] {
      assert a + b == b;
    } else {
      assert (a + b)[1..] == a[1..] + b;
      KeepConcat(a[1..], b, kept);
    }
  }

  lemma {:induction false} Without1Keeps(s: seq<Window>, w: Window)
    ensures Without1(s, w) == Keep(s, Mapped(s) - {w})
  {
    KeepAll(s, Mapped(s));
    KeepLess(s, Mapped(s), w);
  }

  lemma {:induction false} Without1Length(s: seq<Window>, w: Window)
    requires Distinct(s) && w in s
    ensures |Without1(s, w)| == |s| - 1
  {
    if s[0] != w { Without1Length(s[1..], w); }
  }

  function Position(s: seq<Window>, w: Window): (i: nat)
    ensures i <= |s|
    ensures w in s <==> i < |s|
    ensures i < |s| ==> s[i] == w
    ensures forall j :: 0 <= j < i ==> s[j] != w
  {
    if s == [] || s[0] == w then 0 else 1 + Position(s[1..], w)
  }

  function MinimizedAt(space: seq<Window>, minis: seq<Mini>, w: Window, loc: Point): seq<Mini> {
    minis + [Mini(w, loc, Position(FullStack(space, minis), w))]
  }

  /** Minimizing takes a window out of the space and leaves the whole stack as it was. */
  lemma MinimizeStack(space: seq<Window>, minis: seq<Mini>, w: Window, loc: Point)
    requires Good(space, minis) && w in space
    ensures Good(Without1(space, w), MinimizedAt(space, minis, w, loc))
    ensures FullStack(Without1(space, w), MinimizedAt(space, minis, w, loc)) == FullStack(space, minis)
  {
    var stack := FullStack(space, minis);
    FullStackArranged(space, minis);
    var z, q, more := Position(stack, w), Without1(space, w), MinimizedAt(space, minis, w, loc);
    assert w in Keep(stack, Mapped(space));
    Without1Keeps(space, w);
    KeepDistinct(space, Mapped(space) - {w});
    Without1Length(space, w);
    KeepLess(stack, Mapped(space), w);
    assert Mapped(q) == Mapped(space) - {w};
    forall m | m in minis ensures m.z != z && m.window != w {}
    forall x | x in stack && x !in q ensures exists m :: m in more && m.window == x {
      if x == w {
        assert more[|minis|] in more;
      } else {
        var m :| m in minis && m.window == x;
        assert m in more;
      }
    }
    ArrangedStacked(stack, q, more);
  }

  function Removed1(minis: seq<Mini>, i: nat): seq<Mini>
    requires i < |minis|
  {
    minis[..i] + minis[i + 1..]
  }

  /** The windows a window coming back to place `z` must again go under. */
  function Above(stack: seq<Window>, space: seq<Window>, z: nat): seq<Window> {
    if z < |stack| then Keep(stack[z + 1..], set w | w in space) else []
  }

  lemma OnTopKeeps(space: seq<Window>, w: Window, kept: set<Window>)
    requires w in kept
    ensures Keep(OnTop(space, w), kept) == Keep(space, kept - {w}) + [w]
  {
    KeepConcat(Without1(space, w), [w], kept);
    KeepAll([w], kept);
    Without1Keeps(space, w);
    KeepTwice(space, Mapped(space) - {w}, kept);
    SameKept(space, (Mapped(space) - {w}) * kept, kept - {w});
  }

  lemma Around(stack: seq<Window>, z: nat)
    requires Distinct(stack) && z < |stack|
    ensures stack == stack[..z] + [stack[z]] + stack[z + 1..]
    ensures stack[z] !in stack[..z] && stack[z] !in stack[z + 1..] && Distinct(stack[z + 1..])
    ensures forall x :: x in stack[..z] ==> x !in stack[z + 1..]
  {
  }

  lemma NextKept(space: seq<Window>, ws: seq<Window>)
    requires ws != [] && ws[0] !in ws[1..]
    ensures var next := OnTop(space, ws[0]);
      Keep(next, Mapped(next) - Mapped(ws[1..])) == Keep(space, Mapped(space) - Mapped(ws)) + [ws[0]]
  {
    var w, more := ws[0], ws[1..];
    var next := OnTop(space, w);
    OnTopKeeps(space, w, Mapped(next) - Mapped(more));
    assert ws == [w] + more;
    SameKept(space, (Mapped(next) - Mapped(more)) - {w}, Mapped(space) - Mapped(ws));
  }

  lemma AllOnTopStep(space: seq<Window>, ws: seq<Window>)
    requires ws != [] && ws[0] !in ws[1..]
    requires var next := OnTop(space, ws[0]);
      AllOnTop(next, ws[1..]) == Keep(next, Mapped(next) - Mapped(ws[1..])) + ws[1..]
    ensures AllOnTop(space, ws) == Keep(space, Mapped(space) - Mapped(ws)) + ws
  {
    NextKept(space, ws);
    Rejoin(Keep(space, Mapped(space) - Mapped(ws)), ws);
  }

  lemma Rejoin<T>(front: seq<T>, s: seq<T>)
    requires s != []
    ensures (front + [s[0]]) + s[1..] == front + s
  {
  }

  lemma {:induction false} AllOnTopIs(space: seq<Window>, ws: seq<Window>)
    requires Distinct(ws)
    ensures AllOnTop(space, ws) == Keep(space, Mapped(space) - Mapped(ws)) + ws
    decreases |ws|
  {
    if ws == [] {
      KeepAll(space, Mapped(space) - Mapped(ws));
    } else {
      AllOnTopIs(OnTop(space, ws[0]), ws[1..]);
      AllOnTopStep(space, ws);
    }
  }

  lemma {:induction false} KeepTwice(s: seq<Window>, a: set<Window>, b: set<Window>)
    ensures Keep(Keep(s, a), b) == Keep(s, a * b)
  {
    if s != [] {
      KeepTwice(s[1..], a, b);
      if s[0] in a { assert Keep(s, a)[1..] == Keep(s[1..], a); }
    }
  }

  lemma {:induction false} SameKept(s: seq<Window>, a: set<Window>, b: set<Window>)
    requires forall w :: w in s ==> (w in a <==> w in b)
    ensures Keep(s, a) == Keep(s, b)
  {
    if s != [] { SameKept(s[1..], a, b); }
  }

  lemma KeepDisjoint(s: seq<Window>, kept: set<Window>)
    requires forall w :: w in s ==> w !in kept
    ensures Keep(s, kept) == []
  {
    assert forall w :: w in Keep(s, kept) ==> false;
  }

  /** A window mapped on top goes under the windows that are mapped again after it. */
  lemma BackOnTop(below: seq<Window>, w: Window, above: seq<Window>)
    requires Distinct(above) && w !in below && w !in above
    requires forall x :: x in below ==> x !in above
    ensures AllOnTop(OnTop(below + above, w), above) == below + [w] + above
  {
    var on := OnTop(below + above, w);
    assert on == below + above + [w];
    AllOnTopIs(on, above);
    var stay := Mapped(on) - Mapped(above);
    assert forall x :: x in below ==> x in stay;
    assert w in stay && forall x :: x in above ==> x !in stay;
    KeptUnder(below, w, above, stay);
  }

  lemma KeptUnder(below: seq<Window>, w: Window, above: seq<Window>, stay: set<Window>)
    requires w in stay && (forall x :: x in below ==> x in stay) && (forall x :: x in above ==> x !in stay)
    ensures Keep(below + above + [w], stay) == below + [w]
  {
    KeepConcat(below + above, [w], stay);
    KeepConcat(below, above, stay);
    KeepDisjoint(above, stay);
    KeepAll(below, stay);
    KeepAll([w], stay);
    NothingBetween(below, [w]);
  }

  lemma KeepAround(below: seq<Window>, w: Window, over: seq<Window>, kept: set<Window>)
    ensures Keep(below + [w] + over, kept) == Keep(below, kept) + (if w in kept then [w] else []) + Keep(over, kept)
  {
    KeepConcat(below + [w], over, kept);
    KeepAppend(below, w, kept);
  }

  lemma KeepMiddle(below: seq<Window>, w: Window, over: seq<Window>, kept: set<Window>)
    requires w !in below && w !in over
    ensures Keep(below + [w] + over, kept + {w}) == Keep(below, kept) + [w] + Keep(over, kept)
  {
    KeepAround(below, w, over, kept + {w});
    SameKept(below, kept, kept + {w});
    SameKept(over, kept, kept + {w});
  }

  lemma SplitAt(stack: seq<Window>, kept: set<Window>, z: nat)
    requires Distinct(stack) && z < |stack| && stack[z] !in kept
    ensures Keep(stack, kept) == Keep(stack[..z], kept) + Keep(stack[z + 1..], kept)
    ensures Keep(stack, kept + {stack[z]}) == Keep(stack[..z], kept) + [stack[z]] + Keep(stack[z + 1..], kept)
  {
    Around(stack, z);
    KeepMiddle(stack[..z], stack[z], stack[z + 1..], kept);
    KeepAround(stack[..z], stack[z], stack[z + 1..], kept);
    NothingBetween(Keep(stack[..z], kept), Keep(stack[z + 1..], kept));
  }

  lemma NothingBetween<T>(a: seq<T>, b: seq<T>)
    ensures a + [] + b == a + b
  {
  }

  lemma SplitParts(stack: seq<Window>, kept: set<Window>, z: nat)
    requires Distinct(stack) && z < |stack|
    ensures var below, above := Keep(stack[..z], kept), Keep(stack[z + 1..], kept);
      && Distinct(above) && stack[z] !in below && stack[z] !in above && forall x :: x in below ==> x !in above
  {
    Around(stack, z);
    KeepDistinct(stack[z + 1..], kept);
  }

  /** `w` joins the mapped windows at the place it has in the stack. */
  lemma UnminimizedSpace(stack: seq<Window>, space: seq<Window>, w: Window, z: nat)
    requires Distinct(stack) && Keep(stack, Mapped(space)) == space && z < |stack| && stack[z] == w && w !in space
    ensures AllOnTop(OnTop(space, w), Above(stack, space, z)) == Keep(stack, Mapped(space) + {w})
    ensures |Keep(stack, Mapped(space) + {w})| == |space| + 1
  {
    var kept := Mapped(space);
    SplitAt(stack, kept, z);
    SplitParts(stack, kept, z);
    BackOnTop(Keep(stack[..z], kept), w, Keep(stack[z + 1..], kept));
  }

  lemma StackPosition(stack: seq<Window>, w: Window, z: nat)
    requires Distinct(stack) && z < |stack| && stack[z] == w
    ensures Position(stack, w) == z
  {
  }

  /** Unminimizing: on top, then the mapped windows above its place back over it. The whole
      stack stays as it was. */
  lemma UnminimizeStack(space: seq<Window>, minis: seq<Mini>, i: nat)
    requires Good(space, minis) && i < |minis|
    ensures var m, stack := minis[i], FullStack(space, minis);
      var q := AllOnTop(OnTop(space, m.window), Above(stack, space, m.z));
      && Good(q, Removed1(minis, i)) && FullStack(q, Removed1(minis, i)) == stack
      && Position(stack, m.window) == m.z
  {
    var m, stack := minis[i], FullStack(space, minis);
    FullStackArranged(space, minis);
    assert m in minis;
    StackPosition(stack, m.window, m.z);
    UnminimizedSpace(stack, space, m.window, m.z);
    MiniGone(stack, space, minis, i);
  }

  lemma KeptMapped(stack: seq<Window>, space: seq<Window>, w: Window)
    requires Keep(stack, Mapped(space)) == space && w in stack
    ensures Mapped(Keep(stack, Mapped(space) + {w})) == Mapped(space) + {w}
  {
    forall x | x in space ensures x in stack { assert x in Keep(stack, Mapped(space)); }
  }

  lemma MiniGone(stack: seq<Window>, space: seq<Window>, minis: seq<Mini>, i: nat)
    requires Good(space, minis) && i < |minis| && Arranged(stack, space, minis)
    requires |Keep(stack, Mapped(space) + {minis[i].window})| == |space| + 1
    ensures var q := Keep(stack, Mapped(space) + {minis[i].window});
      Good(q, Removed1(minis, i)) && FullStack(q, Removed1(minis, i)) == stack
  {
    hide Keep, FullStack;
    var m, less := minis[i], Removed1(minis, i);
    var q := Keep(stack, Mapped(space) + {m.window});
    LessMinis(minis, i);
    assert stack[m.z] == m.window;
    KeepDistinct(stack, Mapped(space) + {m.window});
    KeptMapped(stack, space, m.window);
    OneMoreMapped(stack, space, minis, m, q, less);
    ArrangedStacked(stack, q, less);
  }

  lemma OneMoreMapped(stack: seq<Window>, space: seq<Window>, minis: seq<Mini>, m: Mini, q: seq<Window>, less: seq<Mini>)
    requires Good(space, minis) && Arranged(stack, space, minis)
    requires OneEach(less) && |less| == |minis| - 1 && forall x :: x in less <==> x in minis && x.window != m.window
    requires Distinct(q) && q == Keep(stack, Mapped(q)) && Mapped(q) == Mapped(space) + {m.window} && |q| == |space| + 1
    ensures Good(q, less) && Arranged(stack, q, less)
  {
    hide Keep;
    assert forall x :: x in q <==> x in Mapped(q);
    forall x | x in stack && x !in q ensures exists o :: o in less && o.window == x {
      var o :| o in minis && o.window == x;
      assert o in less;
    }
  }

  lemma LessMinis(minis: seq<Mini>, i: nat)
    requires i < |minis| && forall a, b :: 0 <= a < b < |minis| ==> minis[a].z != minis[b].z && minis[a].window != minis[b].window
    ensures minis[i] in minis
    ensures forall x :: x in Removed1(minis, i) <==> x in minis && x.window != minis[i].window
    ensures forall x :: x in Removed1(minis, i) ==> x.z != minis[i].z
  {
    assert minis == minis[..i] + [minis[i]] + minis[i + 1..];
  }

  // ----- a window that goes away

  function Sink(m: Mini, i: nat): Mini { if m.z > i then m.(z := m.z - 1) else m }

  function Sunk(minis: seq<Mini>, i: nat): (r: seq<Mini>)
    ensures |r| == |minis|
    ensures forall k :: 0 <= k < |minis| ==> r[k] == Sink(minis[k], i)
  {
    if minis == [] then [] else [Sink(minis[0], i)] + Sunk(minis[1..], i)
  }

  function MinisWithout(minis: seq<Mini>, w: Window): (r: seq<Mini>)
    ensures forall x :: x in r <==> x in minis && x.window != w
    ensures |r| <= |minis|
  {
    if minis == [] then []
    else (if minis[0].window == w then [] else [minis[0]]) + MinisWithout(minis[1..], w)
  }

  lemma {:induction false} NoneWithout(minis: seq<Mini>, w: Window)
    requires forall m :: m in minis ==> m.window != w
    ensures MinisWithout(minis, w) == minis
  {
    if minis != [] { NoneWithout(minis[1..], w); }
  }

  /** The remembered places once `w` is gone: those above it move down one. */
  function Forgotten(space: seq<Window>, minis: seq<Mini>, w: Window): seq<Mini> {
    var i := Position(FullStack(space, minis), w);
    MinisWithout(if i < |space| + |minis| then Sunk(minis, i) else minis, w)
  }

  ghost predicate OneEach(minis: seq<Mini>) {
    forall i, j :: 0 <= i < j < |minis| ==> minis[i].z != minis[j].z && minis[i].window != minis[j].window
  }

  lemma {:induction false} MinisWithoutEach(minis: seq<Mini>, w: Window)
    requires OneEach(minis)
    ensures OneEach(MinisWithout(minis, w))
    ensures |MinisWithout(minis, w)| == |minis| - (if exists m :: m in minis && m.window == w then 1 else 0)
  {
    if minis != [] {
      var m, rest := minis[0], MinisWithout(minis[1..], w);
      MinisWithoutEach(minis[1..], w);
      assert forall x :: x in minis <==> x == m || x in minis[1..];
      forall x | x in minis[1..] ensures x.z != m.z && x.window != m.window {
        var k :| 0 <= k < |minis| - 1 && minis[1..][k] == x;
        assert minis[k + 1] == x;
      }
      assert forall i :: 0 <= i < |rest| ==> rest[i] in minis[1..];
      OneFirst(m, rest);
    }
  }

  lemma OneFirst(m: Mini, rest: seq<Mini>)
    requires OneEach(rest) && forall i :: 0 <= i < |rest| ==> rest[i].z != m.z && rest[i].window != m.window
    ensures OneEach([m] + rest)
  {
  }

  lemma {:induction false} SunkCommutes(minis: seq<Mini>, i: nat, w: Window)
    ensures MinisWithout(Sunk(minis, i), w) == Sunk(MinisWithout(minis, w), i)
  {
    if minis != [] {
      SunkCommutes(minis[1..], i, w);
      var rest := Sunk(minis[1..], i);
      assert ([Sink(minis[0], i)] + rest)[1..] == rest;
      if minis[0].window != w {
        assert ([minis[0]] + MinisWithout(minis[1..], w))[1..] == MinisWithout(minis[1..], w);
      }
    }
  }

  lemma SunkEach(minis: seq<Mini>, i: nat, w: Window)
    requires OneEach(minis) && forall m :: m in minis && m.z == i ==> m.window == w
    ensures OneEach(MinisWithout(Sunk(minis, i), w))
    ensures |MinisWithout(Sunk(minis, i), w)| == |minis| - (if exists m :: m in minis && m.window == w then 1 else 0)
  {
    SunkCommutes(minis, i, w);
    MinisWithoutEach(minis, w);
    assert forall m :: m in MinisWithout(minis, w) ==> m.z != i;
    SunkApart(MinisWithout(minis, w), i);
  }

  lemma SunkApart(minis: seq<Mini>, i: nat)
    requires OneEach(minis) && forall m :: m in minis ==> m.z != i
    ensures OneEach(Sunk(minis, i))
  {
    var sunk := Sunk(minis, i);
    forall a, b | 0 <= a < b < |minis| ensures sunk[a].z != sunk[b].z && sunk[a].window != sunk[b].window {
      assert minis[a] in minis && minis[b] in minis;
    }
  }

  lemma LessKept(stack: seq<Window>, space: seq<Window>, w: Window)
    requires Keep(stack, Mapped(space)) == space
    ensures Keep(Without1(stack, w), Mapped(Without1(space, w))) == Without1(space, w)
  {
    Without1Keeps(stack, w);
    assert Mapped(Without1(space, w)) == Mapped(space) - {w};
    KeepTwice(stack, Mapped(stack) - {w}, Mapped(space) - {w});
    SameKept(stack, (Mapped(stack) - {w}) * (Mapped(space) - {w}), Mapped(space) - {w});
    KeepLess(stack, Mapped(space), w);
  }

  lemma {:induction false} Without1At(s: seq<Window>, w: Window, i: nat)
    requires Distinct(s) && i < |s| && s[i] == w
    ensures Without1(s, w) == s[..i] + s[i + 1..]
  {
    if i > 0 {
      Without1At(s[1..], w, i - 1);
      assert s[..i] == [s[0]] + s[1..][..i - 1];
    }
  }

  /** Forgetting a window and unmapping it removes exactly it from the whole stack. */
  lemma ForgetStack(space: seq<Window>, minis: seq<Mini>, w: Window)
    requires Good(space, minis) && w in FullStack(space, minis)
    ensures Good(Without1(space, w), Forgotten(space, minis, w))
    ensures FullStack(Without1(space, w), Forgotten(space, minis, w)) == Without1(FullStack(space, minis), w)
  {
    var stack, q, less := FullStack(space, minis), Without1(space, w), Forgotten(space, minis, w);
    FullStackArranged(space, minis);
    var i := Position(stack, w);
    forall m | m in minis && m.window == w ensures m.z == i {}
    SunkEach(minis, i, w);
    LessKept(stack, space, w);
    Without1At(stack, w, i);
    Without1Keeps(stack, w);
    KeepDistinct(stack, Mapped(stack) - {w});
    Without1Keeps(space, w);
    KeepDistinct(space, Mapped(space) - {w});
    ForgottenPlaces(stack, space, minis, w, i);
    ArrangedStacked(Without1(stack, w), q, less);
  }

  lemma ForgottenPlaces(stack: seq<Window>, space: seq<Window>, minis: seq<Mini>, w: Window, i: nat)
    requires Good(space, minis) && Arranged(stack, space, minis) && i < |stack| && stack[i] == w
    requires |MinisWithout(Sunk(minis, i), w)| == |minis| - (if exists m :: m in minis && m.window == w then 1 else 0)
    requires Without1(stack, w) == stack[..i] + stack[i + 1..]
    ensures var r, q, less := Without1(stack, w), Without1(space, w), MinisWithout(Sunk(minis, i), w);
      && |r| == |q| + |less|
      && (forall m :: m in less ==> m.window !in q && m.z < |r| && r[m.z] == m.window)
      && (forall x :: x in r && x !in q ==> exists m :: m in less && m.window == x)
  {
    var r, q, sunk := Without1(stack, w), Without1(space, w), Sunk(minis, i);
    var less := MinisWithout(sunk, w);
    if w in space {
      Without1Length(space, w);
    } else {
      var m :| m in minis && m.window == w;
    }
    forall m | m in less ensures m.window !in q && m.z < |r| && r[m.z] == m.window {
      SunkPlace(stack, minis, w, i, m);
    }
    forall x | x in r && x !in q ensures exists m :: m in less && m.window == x {
      StillThere(stack, space, minis, w, i, x);
    }
  }

  lemma StillThere(stack: seq<Window>, space: seq<Window>, minis: seq<Mini>, w: Window, i: nat, x: Window)
    requires Arranged(stack, space, minis) && x in stack && x != w && x !in space
    ensures exists m :: m in MinisWithout(Sunk(minis, i), w) && m.window == x
  {
    var o :| o in minis && o.window == x;
    var k :| 0 <= k < |minis| && minis[k] == o;
    assert Sunk(minis, i)[k] in Sunk(minis, i);
    assert Sink(o, i) in MinisWithout(Sunk(minis, i), w);
  }

  lemma SunkPlace(stack: seq<Window>, minis: seq<Mini>, w: Window, i: nat, m: Mini)
    requires i < |stack| && stack[i] == w
    requires forall x :: x in minis ==> x.z < |stack| && stack[x.z] == x.window
    requires m in MinisWithout(Sunk(minis, i), w)
    ensures exists x :: x in minis && x.window == m.window
    ensures var r := stack[..i] + stack[i + 1..]; m.z < |r| && r[m.z] == m.window
  {
    var k :| 0 <= k < |minis| && Sunk(minis, i)[k] == m;
    assert minis[k] in minis;
    CutAt(stack, i, minis[k].z);
  }

  lemma CutAt<T>(s: seq<T>, i: nat, j: nat)
    requires i < |s| && j < |s| && i != j
    ensures var r := s[..i] + s[i + 1..]; if j < i then r[j] == s[j] else r[j - 1] == s[j]
  {
  }

  // ----- mapping again, raising

  /** Mapping every window again in back-to-front order keeps the order. */
  lemma RemapKeeps(space: seq<Window>)
    requires Distinct(space)
    ensures AllOnTop(space, space) == space
  {
    AllOnTopIs(space, space);
    KeepDisjoint(space, Mapped(space) - Mapped(space));
  }

  lemma OnTopGood(space: seq<Window>, minis: seq<Mini>, w: Window)
    requires Good(space, minis) && w in space
    ensures Good(OnTop(space, w), minis)
    ensures Mapped(OnTop(space, w)) == Mapped(space) && |OnTop(space, w)| == |space|
  {
    Without1Keeps(space, w);
    KeepDistinct(space, Mapped(space) - {w});
    Without1Length(space, w);
  }

  lemma {:induction false} AllOnTopGood(space: seq<Window>, minis: seq<Mini>, ws: seq<Window>)
    requires Good(space, minis) && forall w :: w in ws ==> w in space
    ensures Good(AllOnTop(space, ws), minis)
    ensures Mapped(AllOnTop(space, ws)) == Mapped(space) && |AllOnTop(space, ws)| == |space|
    decreases |ws|
  {
    if ws != [] {
      OnTopGood(space, minis, ws[0]);
      forall w | w in ws[1..] ensures w in OnTop(space, ws[0]) {
        assert w in Mapped(space);
        assert w in Mapped(OnTop(space, ws[0]));
      }
      AllOnTopGood(OnTop(space, ws[0]), minis, ws[1..]);
    }
  }

  // ----- several windows at once

  function ForgottenAll(space: seq<Window>, minis: seq<Mini>, dead: seq<Window>): seq<Mini>
    decreases |dead|
  {
    if dead == [] then minis else ForgottenAll(space, Forgotten(space, minis, dead[0]), dead[1..])
  }

  lemma OneMini(space: seq<Window>, m: Mini)
    ensures FullStack(space, [m]) == Inserted(space, if m.z <= |space| then m.z else |space|, m.window)
  {
    assert ByPlace([m][1..]) == [];
    assert ByPlace([m]) == [m];
    assert InsertAll(space, [m]) == InsertAll(Inserted(space, if m.z <= |space| then m.z else |space|, m.window), [m][1..]);
  }

  lemma OneForgotten(space: seq<Window>, m: Mini, w: Window, i: nat)
    requires m.window != w && i <= |space| && Position(FullStack(space, [m]), w) == i
    ensures Forgotten(space, [m], w) == [Sink(m, i)]
  {
    var one := Sunk([m], i);
    assert one == [Sink(m, i)];
    assert MinisWithout(one[1..], w) == [];
  }

  /** Forgetting several dead windows before any of them leaves the space lets the places
      drift: with 1 and 2 dead, 3 minimized at place 2 and 4 on top, 3 ends above 4. */
  lemma BatchDrifts()
    ensures var space, minis := [1, 2, 4], [Mini(3, Point(0, 0), 2)];
      && Good(space, minis)
      && FullStack(space, minis) == [1, 2, 3, 4]
      && FullStack([4], ForgottenAll(space, minis, [1, 2])) == [4, 3]
  {
    var space, m, n := [1, 2, 4], Mini(3, Point(0, 0), 2), Mini(3, Point(0, 0), 1);
    OneMini(space, m);
    assert Inserted(space, 2, 3) == [1, 2, 3, 4];
    OneForgotten(space, m, 1, 0);
    DriftsOn(space, n);
    assert [1, 2][1..] == [2];
    OneMini([4], n);
    assert Inserted([4], 1, 3) == [4, 3];
  }

  lemma DriftsOn(space: seq<Window>, n: Mini)
    requires space == [1, 2, 4] && n == Mini(3, Point(0, 0), 1)
    ensures ForgottenAll(space, [n], [2]) == [n]
  {
    OneMini(space, n);
    assert Inserted(space, 1, 3) == [1, 3, 2, 4];
    OneForgotten(space, n, 2, 2);
    assert [2][1..] == [];
  }
}
