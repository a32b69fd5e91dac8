/** The event loop forgets all windows that died before any of them leaves the space. When
    that keeps the places of the minimized windows right, and when not. */
module Batches {
  import opened Common
  import opened Rotation
  import opened Stack

  // ----- a minimized window's place, and what is under it

  ghost function Hidden(minis: seq<Mini>): set<Window> { set m | m in minis :: m.window }

  function PlaceOf(minis: seq<Mini>, v: Window): nat {
    if minis == [] then 0 else if minis[0].window == v then minis[0].z else PlaceOf(minis[1..], v)
  }

  lemma {:induction false} PlaceIs(minis: seq<Mini>, m: Mini)
    requires OneEach(minis) && m in minis
    ensures PlaceOf(minis, m.window) == m.z
  {
    if minis[0] != m {
      var i :| 0 <= i < |minis| && minis[i] == m;
      assert minis[1..][i - 1] == m;
      PlaceIs(minis[1..], m);
    }
  }

  /** The minimized windows below a place. */
  ghost function Under(minis: seq<Mini>, z: nat): set<Window> { set m | m in minis && m.z < z :: m.window }

  function Beneath(minis: seq<Mini>, z: nat): nat {
    if minis == [] then 0 else (if minis[0].z < z then 1 else 0) + Beneath(minis[1..], z)
  }

  lemma {:induction false} BeneathIs(minis: seq<Mini>, z: nat)
    requires OneEach(minis)
    ensures Beneath(minis, z) == |Under(minis, z)|
    decreases |minis|
  {
    if minis != [] {
      var rest := minis[1..];
      BeneathIs(rest, z);
      forall i | 0 <= i < |rest| ensures rest[i].window != minis[0].window { assert rest[i] == minis[i + 1]; }
      assert forall m :: m in minis <==> m == minis[0] || m in rest;
      assert minis[0].window !in Under(rest, z);
      assert Under(minis, z) == if minis[0].z < z then Under(rest, z) + {minis[0].window} else Under(rest, z);
    }
  }

  /** How many mapped windows are below it. */
  ghost function Free(minis: seq<Mini>, v: Window): int { PlaceOf(minis, v) - Beneath(minis, PlaceOf(minis, v)) }

  lemma {:induction false} KeepPrefix(s: seq<Window>, k: nat, kept: set<Window>)
    requires k <= |s|
    ensures Keep(s, kept) == Keep(s[..k], kept) + Keep(s[k..], kept)
  {
    assert s == s[..k] + s[k..];
    KeepConcat(s[..k], s[k..], kept);
  }

  lemma {:induction false} SizeOf(s: seq<Window>)
    requires Distinct(s)
    ensures |Mapped(s)| == |s|
    decreases |s|
  {
    if s != [] {
      SizeOf(s[1..]);
      assert Mapped(s) == Mapped(s[1..]) + {s[0]};
    }
  }

  /** Below a place the stack has the minimized windows under it and the first mapped ones. */
  lemma Below(space: seq<Window>, minis: seq<Mini>, z: nat)
    requires Good(space, minis) && z <= |space| + |minis|
    ensures |FullStack(space, minis)| == |space| + |minis|
    ensures var stack := FullStack(space, minis);
      && |Under(minis, z)| <= z && z - |Under(minis, z)| <= |space|
      && Keep(stack[..z], Mapped(space)) == space[..z - |Under(minis, z)|]
      && Mapped(stack[..z]) == Mapped(space[..z - |Under(minis, z)|]) + Under(minis, z)
  {
    var stack := FullStack(space, minis);
    FullStackArranged(space, minis);
    var low := stack[..z];
    var mapped := Keep(low, Mapped(space));
    KeepPrefix(stack, z, Mapped(space));
    assert mapped == space[..|mapped|];
    UnderIs(stack, space, minis, z);
    SizeOf(low);
    KeepDistinct(low, Mapped(space));
    SizeOf(mapped);
    assert Mapped(low) == Mapped(mapped) + Under(minis, z);
    assert Mapped(mapped) !! Under(minis, z);
  }

  lemma UnderIs(stack: seq<Window>, space: seq<Window>, minis: seq<Mini>, z: nat)
    requires Good(space, minis) && Arranged(stack, space, minis) && z <= |stack|
    ensures forall w :: w in Under(minis, z) <==> w in stack[..z] && w !in space
  {
    forall w | w in Under(minis, z) ensures w in stack[..z] && w !in space {
      var m :| m in minis && m.z < z && m.window == w;
      assert stack[m.z] == w && stack[..z][m.z] == w;
    }
    forall w | w in stack[..z] && w !in space ensures w in Under(minis, z) {
      var m :| m in minis && m.window == w;
      var i :| 0 <= i < z && stack[i] == w;
      assert stack[m.z] == w;
    }
  }

  // ----- forgetting one dead window while it is still in the space

  lemma MappedDies(space: seq<Window>, minis: seq<Mini>, q: nat)
    requires Good(space, minis) && q < |space|
    ensures var p := Position(FullStack(space, minis), space[q]);
      && Forgotten(space, minis, space[q]) == Sunk(minis, p)
      && Good(space, Sunk(minis, p)) && Hidden(Sunk(minis, p)) == Hidden(minis)
      && forall m :: m in minis ==> m.z != p
  {
    NoPlace(space, minis, q);
    var p := Position(FullStack(space, minis), space[q]);
    SunkGood(space, minis, p);
    SunkHas(minis, p);
    NoneWithout(Sunk(minis, p), space[q]);
  }

  lemma NoPlace(space: seq<Window>, minis: seq<Mini>, q: nat)
    requires Good(space, minis) && q < |space|
    ensures var p := Position(FullStack(space, minis), space[q]);
      p < |space| + |minis| && forall m :: m in minis ==> m.z != p
  {
    FullStackArranged(space, minis);
    assert space[q] in Keep(FullStack(space, minis), Mapped(space));
  }

  lemma SunkGood(space: seq<Window>, minis: seq<Mini>, p: nat)
    requires Good(space, minis) && forall m :: m in minis ==> m.z != p
    ensures Good(space, Sunk(minis, p))
  {
    SunkApart(minis, p);
    SunkHas(minis, p);
  }

  /** A mapped one lowers a place by one if it is found below it. */
  lemma MappedDiesAt(space: seq<Window>, minis: seq<Mini>, q: nat, m: Mini)
    requires Good(space, minis) && q < |space| && m in minis
    ensures var now := Forgotten(space, minis, space[q]);
      && PlaceOf(now, m.window) == m.z - (if q < Free(minis, m.window) then 1 else 0)
      && Under(now, PlaceOf(now, m.window)) == Under(minis, m.z)
  {
    MappedDies(space, minis, q);
    var p := Position(FullStack(space, minis), space[q]);
    SunkHas(minis, p);
    PlaceIs(Sunk(minis, p), Sink(m, p));
    FoundBelow(space, minis, q, m);
    SunkUnder(minis, p, m.z);
  }

  lemma SunkHas(minis: seq<Mini>, p: nat)
    ensures forall m :: m in minis ==> Sink(m, p) in Sunk(minis, p)
    ensures forall n :: n in Sunk(minis, p) ==> exists m :: m in minis && n == Sink(m, p)
    ensures Hidden(Sunk(minis, p)) == Hidden(minis)
  {
    forall m | m in minis ensures Sink(m, p) in Sunk(minis, p) {
      var i :| 0 <= i < |minis| && minis[i] == m;
      assert Sunk(minis, p)[i] == Sink(m, p);
    }
    forall n | n in Sunk(minis, p) ensures exists m :: m in minis && n == Sink(m, p) {
      var i :| 0 <= i < |minis| && Sunk(minis, p)[i] == n;
      assert minis[i] in minis;
    }
    forall w | w in Hidden(minis) ensures w in Hidden(Sunk(minis, p)) {
      var m :| m in minis && m.window == w;
      assert Sink(m, p).window == w;
    }
  }

  lemma SunkUnder(minis: seq<Mini>, p: nat, z: nat)
    requires z != p && forall m :: m in minis ==> m.z != p
    ensures Under(Sunk(minis, p), if z > p then z - 1 else z) == Under(minis, z)
  {
    SunkHas(minis, p);
    var y := if z > p then z - 1 else z;
    forall w | w in Under(minis, z) ensures w in Under(Sunk(minis, p), y) {
      var m :| m in minis && m.z < z && m.window == w;
      assert Sink(m, p) in Sunk(minis, p) && Sink(m, p).z < y;
    }
    forall w | w in Under(Sunk(minis, p), y) ensures w in Under(minis, z) {
      var n :| n in Sunk(minis, p) && n.z < y && n.window == w;
      var m :| m in minis && n == Sink(m, p);
    }
  }

  /** A mapped window is below a minimized one as long as there is room for it there. */
  lemma FoundBelow(space: seq<Window>, minis: seq<Mini>, q: nat, m: Mini)
    requires Good(space, minis) && q < |space| && m in minis
    ensures Position(FullStack(space, minis), space[q]) < m.z <==> q < Free(minis, m.window)
  {
    var stack, d := FullStack(space, minis), space[q];
    FullStackArranged(space, minis);
    PlaceIs(minis, m);
    BeneathIs(minis, m.z);
    Below(space, minis, m.z);
    assert d in Keep(stack, Mapped(space));
    var p, f := Position(stack, d), m.z - |Under(minis, m.z)|;
    assert p < m.z <==> d in Mapped(stack[..m.z]) by {
      if p < m.z { assert stack[..m.z][p] == d; }
    }
    assert q < f <==> d in Mapped(space[..f]) by {
      if q < f { assert space[..f][q] == d; }
    }
    assert d !in Under(minis, m.z);
  }

  lemma HiddenDies(space: seq<Window>, minis: seq<Mini>, e: Mini)
    requires Good(space, minis) && e in minis
    ensures var rest := MinisWithout(minis, e.window);
      && Forgotten(space, minis, e.window) == Sunk(rest, e.z)
      && Good(space, Sunk(rest, e.z)) && Hidden(Sunk(rest, e.z)) == Hidden(minis) - {e.window}
      && OneEach(rest) && (forall m :: m in rest ==> m.z != e.z)
  {
    FullStackArranged(space, minis);
    assert Position(FullStack(space, minis), e.window) == e.z;
    ForgetStack(space, minis, e.window);
    assert Without1(space, e.window) == space;
    SunkCommutes(minis, e.z, e.window);
    SunkHas(MinisWithout(minis, e.window), e.z);
    MinisWithoutEach(minis, e.window);
    HiddenWithout(minis, e);
    OnlyAt(minis, e);
  }

  lemma OnlyAt(minis: seq<Mini>, e: Mini)
    requires OneEach(minis) && e in minis
    ensures forall m :: m in minis && m.window != e.window ==> m.z != e.z
    ensures forall m :: m in minis && m != e ==> m.window != e.window
  {
  }

  /** A minimized one goes from the list, and the places above it go down for good. */
  lemma HiddenDiesAt(space: seq<Window>, minis: seq<Mini>, e: Mini, m: Mini)
    requires Good(space, minis) && e in minis && m in minis && m != e
    ensures var now := Forgotten(space, minis, e.window);
      && PlaceOf(now, m.window) == m.z - (if e.z < m.z then 1 else 0)
      && Under(now, PlaceOf(now, m.window)) == Under(minis, m.z) - {e.window}
  {
    HiddenDies(space, minis, e);
    OnlyAt(minis, e);
    var rest := MinisWithout(minis, e.window);
    SunkHas(rest, e.z);
    PlaceIs(Sunk(rest, e.z), Sink(m, e.z));
    SunkUnder(rest, e.z, m.z);
    UnderWithout(minis, e, m.z);
  }

  lemma UnderWithout(minis: seq<Mini>, e: Mini, z: nat)
    requires OneEach(minis) && e in minis
    ensures Under(MinisWithout(minis, e.window), z) == Under(minis, z) - {e.window}
  {
    var rest := MinisWithout(minis, e.window);
    forall w | w in Under(minis, z) - {e.window} ensures w in Under(rest, z) {
      var m :| m in minis && m.z < z && m.window == w;
      assert m in rest;
    }
  }

  lemma HiddenWithout(minis: seq<Mini>, e: Mini)
    ensures Hidden(MinisWithout(minis, e.window)) == Hidden(minis) - {e.window}
  {
    var rest := MinisWithout(minis, e.window);
    forall w | w in Hidden(minis) - {e.window} ensures w in Hidden(rest) {
      var m :| m in minis && m.window == w;
      assert m in rest;
    }
  }

  // ----- the whole batch

  /** How many of the first `q` mapped windows are dead. */
  ghost function Dead(space: seq<Window>, dead: set<Window>, q: nat): nat
    requires q <= |space|
  {
    if q == 0 then 0 else Dead(space, dead, q - 1) + if space[q - 1] in dead then 1 else 0
  }

  /** The room below a window, as the dead among the first `q` mapped ones lower it in turn. */
  ghost function Lowered(space: seq<Window>, dead: set<Window>, free: int, q: nat): int
    requires q <= |space|
  {
    if q == 0 then free
    else
      var f := Lowered(space, dead, free, q - 1);
      if space[q - 1] in dead && q - 1 < f then f - 1 else f
  }

  /** Every dead window below has, with the dead ones below it counted, room left above it. */
  ghost predicate Spaced(space: seq<Window>, dead: set<Window>, free: int) {
    forall q :: 0 <= q < |space| && q < free && space[q] in dead ==> q + Dead(space, dead, q) < free
  }

  lemma {:induction false} LoweredIs(space: seq<Window>, dead: set<Window>, free: nat, q: nat)
    requires q <= free <= |space|
    ensures Lowered(space, dead, free, q) >= free - Dead(space, dead, q)
    ensures Lowered(space, dead, free, q) == free - Dead(space, dead, q) <==>
      forall j :: 0 <= j < q && space[j] in dead ==> j + Dead(space, dead, j) < free
    decreases q
  {
    if q > 0 {
      LoweredIs(space, dead, free, q - 1);
      var f := Lowered(space, dead, free, q - 1);
      if space[q - 1] in dead && f == free - Dead(space, dead, q - 1) {
        assert q - 1 < f <==> q - 1 + Dead(space, dead, q - 1) < free;
      }
    }
  }

  lemma {:induction false} LoweredEnds(space: seq<Window>, dead: set<Window>, free: nat, q: nat)
    requires free <= q <= |space|
    ensures Lowered(space, dead, free, q) == Lowered(space, dead, free, free) <= free
    decreases q
  {
    if q > free { LoweredEnds(space, dead, free, q - 1); } else { LoweredFalls(space, dead, free, q); }
  }

  lemma {:induction false} LoweredFalls(space: seq<Window>, dead: set<Window>, free: int, q: nat)
    requires q <= |space|
    ensures Lowered(space, dead, free, q) <= free
    decreases q
  {
    if q > 0 { LoweredFalls(space, dead, free, q - 1); }
  }

  /** Each dead window below lowers the room exactly once if and only if they are spaced. */
  lemma LoweredExactly(space: seq<Window>, dead: set<Window>, free: nat)
    requires free <= |space|
    ensures Lowered(space, dead, free, |space|) == free - Dead(space, dead, free) <==> Spaced(space, dead, free)
  {
    LoweredIs(space, dead, free, free);
    LoweredEnds(space, dead, free, |space|);
  }

  lemma {:induction false} NoneDead(space: seq<Window>, dead: set<Window>, q: nat)
    requires q <= |space| && forall i :: 0 <= i < q ==> space[i] !in dead
    ensures Dead(space, dead, q) == 0
    decreases q
  {
    if q > 0 { NoneDead(space, dead, q - 1); }
  }

  /** One mapped window that dies at a time is always spaced. */
  lemma OneIsSpaced(space: seq<Window>, dead: set<Window>, free: int)
    requires forall i, j :: 0 <= i < j < |space| ==> space[i] !in dead || space[j] !in dead
    ensures Spaced(space, dead, free)
  {
    forall q | 0 <= q < |space| && q < free && space[q] in dead ensures q + Dead(space, dead, q) < free {
      NoneDead(space, dead, q);
    }
  }

  lemma {:induction false} ForgottenAppend(space: seq<Window>, minis: seq<Mini>, a: seq<Window>, w: Window)
    ensures ForgottenAll(space, minis, a + [w]) == Forgotten(space, ForgottenAll(space, minis, a), w)
    decreases |a|
  {
    if a == [] {
      assert [] + [w] == [w] && [w][1..] == [];
      assert ForgottenAll(space, minis, [w]) == ForgottenAll(space, Forgotten(space, minis, w), []);
    } else {
      assert (a + [w])[1..] == a[1..] + [w];
      ForgottenAppend(space, Forgotten(space, minis, a[0]), a[1..], w);
    }
  }

  /** Going up the stack: the places so far, the dead windows met, and how many mapped ones. */
  datatype Trace = Trace(now: seq<Mini>, gone: set<Window>, q: nat)

  ghost function Next(space: seq<Window>, dead: set<Window>, t: Trace, w: Window): Trace {
    Trace(if w in dead then Forgotten(space, t.now, w) else t.now,
          if w in dead then t.gone + {w} else t.gone,
          if w in space then t.q + 1 else t.q)
  }

  ghost function Climbed(space: seq<Window>, minis: seq<Mini>, dead: set<Window>, stack: seq<Window>, k: nat): Trace
    requires k <= |stack|
  {
    if k == 0 then Trace(minis, {}, 0) else Next(space, dead, Climbed(space, minis, dead, stack, k - 1), stack[k - 1])
  }

  lemma {:induction false} ClimbedNow(space: seq<Window>, minis: seq<Mini>, dead: set<Window>, stack: seq<Window>, k: nat)
    requires k <= |stack|
    ensures Climbed(space, minis, dead, stack, k).now == ForgottenAll(space, minis, Keep(stack[..k], dead))
    decreases k
  {
    if k > 0 {
      var w := stack[k - 1];
      ClimbedNow(space, minis, dead, stack, k - 1);
      KeepOneMore(stack, k - 1, dead);
      if w in dead { ForgottenAppend(space, minis, Keep(stack[..k - 1], dead), w); }
    }
  }

  lemma KeepOneMore(stack: seq<Window>, k: nat, kept: set<Window>)
    requires k < |stack|
    ensures Keep(stack[..k + 1], kept) == if stack[k] in kept then Keep(stack[..k], kept) + [stack[k]] else Keep(stack[..k], kept)
  {
    assert stack[..k + 1] == stack[..k] + [stack[k]];
    KeepAppend(stack[..k], stack[k], kept);
  }

  lemma {:induction false} ClimbedGone(space: seq<Window>, minis: seq<Mini>, dead: set<Window>, stack: seq<Window>, k: nat)
    requires k <= |stack|
    ensures Climbed(space, minis, dead, stack, k).gone == Mapped(stack[..k]) * dead
    decreases k
  {
    if k > 0 {
      ClimbedGone(space, minis, dead, stack, k - 1);
      OneMoreGone(stack, dead, k - 1);
    }
  }

  lemma OneMoreGone(stack: seq<Window>, dead: set<Window>, k: nat)
    requires k < |stack|
    ensures Mapped(stack[..k + 1]) * dead == (Mapped(stack[..k]) * dead) + if stack[k] in dead then {stack[k]} else {}
  {
    assert stack[..k + 1] == stack[..k] + [stack[k]];
  }

  lemma {:induction false} ClimbedCount(space: seq<Window>, minis: seq<Mini>, dead: set<Window>, stack: seq<Window>, k: nat)
    requires k <= |stack|
    ensures Climbed(space, minis, dead, stack, k).q == |Keep(stack[..k], Mapped(space))|
    decreases k
  {
    if k > 0 {
      ClimbedCount(space, minis, dead, stack, k - 1);
      KeepOneMore(stack, k - 1, Mapped(space));
    }
  }

  /** The next window of the stack is the next mapped one, or a minimized one. */
  ghost predicate Fits1(space: seq<Window>, minis: seq<Mini>, t: Trace, w: Window) {
    && w !in t.gone && t.q <= |space|
    && (w in space ==> t.q < |space| && space[t.q] == w)
    && (w !in space ==> w in Hidden(minis))
  }

  lemma ClimbFits(stack: seq<Window>, space: seq<Window>, minis: seq<Mini>, dead: set<Window>, k: nat)
    requires Arranged(stack, space, minis) && k < |stack|
    ensures Fits1(space, minis, Climbed(space, minis, dead, stack, k), stack[k])
  {
    ClimbedGone(space, minis, dead, stack, k);
    ClimbedCount(space, minis, dead, stack, k);
    CountNext(stack, space, k);
    if stack[k] !in space {
      var m :| m in minis && m.window == stack[k];
      assert stack[k] in Hidden(minis);
    }
  }

  lemma CountNext(stack: seq<Window>, space: seq<Window>, k: nat)
    requires Keep(stack, Mapped(space)) == space && k < |stack|
    ensures var q := |Keep(stack[..k], Mapped(space))|;
      q <= |space| && (stack[k] in space ==> q < |space| && space[q] == stack[k])
  {
    KeepPrefix(stack, k, Mapped(space));
    KeepPrefix(stack, k + 1, Mapped(space));
    KeepOneMore(stack, k, Mapped(space));
  }

  lemma HiddenMini(minis: seq<Mini>, w: Window) returns (m: Mini)
    requires w in Hidden(minis)
    ensures m in minis && m.window == w
  {
    m :| m in minis && m.window == w;
  }

  lemma LessOne<T>(all: set<T>, gone: set<T>, w: T)
    ensures (all - gone) - {w} == all - (gone + {w})
    ensures w !in all ==> all - (gone + {w}) == all - gone
  {
  }

  /** The list stays good, and loses the dead minimized windows. */
  ghost predicate Sane(space: seq<Window>, minis: seq<Mini>, t: Trace) {
    Good(space, t.now) && Hidden(t.now) == Hidden(minis) - t.gone
  }

  lemma NextSane(space: seq<Window>, minis: seq<Mini>, dead: set<Window>, t: Trace, w: Window)
    requires Good(space, minis) && Sane(space, minis, t) && Fits1(space, minis, t, w)
    ensures Sane(space, minis, Next(space, dead, t, w))
  {
    LessOne(Hidden(minis), t.gone, w);
    if w in dead {
      if w in space {
        assert w !in Hidden(minis);
        MappedDies(space, t.now, t.q);
      } else {
        var e := HiddenMini(t.now, w);
        HiddenDies(space, t.now, e);
      }
    }
  }

  /** Through the batch: the room below a surviving window is lowered by the dead mapped ones
      in turn, and the dead minimized ones vanish from under it. */
  ghost predicate Tracks(space: seq<Window>, minis: seq<Mini>, dead: set<Window>, t: Trace, m: Mini)
    requires t.q <= |space|
  {
    && m.window in Hidden(t.now)
    && Free(t.now, m.window) == Lowered(space, dead, Free(minis, m.window), t.q)
    && Under(t.now, PlaceOf(t.now, m.window)) == Under(minis, m.z) - t.gone
  }

  lemma MappedTracks(space: seq<Window>, minis: seq<Mini>, dead: set<Window>, t: Trace, next: seq<Mini>, m: Mini)
    requires t.q < |space| && space[t.q] in dead && space[t.q] !in Under(minis, m.z)
    requires Tracks(space, minis, dead, t, m) && m.window in Hidden(next)
    requires Free(next, m.window) == Free(t.now, m.window) - (if t.q < Free(t.now, m.window) then 1 else 0)
    requires Under(next, PlaceOf(next, m.window)) == Under(t.now, PlaceOf(t.now, m.window))
    ensures Tracks(space, minis, dead, Trace(next, t.gone + {space[t.q]}, t.q + 1), m)
  {
    LessOne(Under(minis, m.z), t.gone, space[t.q]);
  }

  lemma NotUnder(space: seq<Window>, minis: seq<Mini>, w: Window, z: nat)
    requires Good(space, minis) && w in space
    ensures w !in Under(minis, z)
  {
  }

  lemma MappedFree(space: seq<Window>, now: seq<Mini>, q: nat, n: Mini)
    requires Good(space, now) && q < |space| && n in now
    ensures var next := Forgotten(space, now, space[q]);
      && Free(next, n.window) == Free(now, n.window) - (if q < Free(now, n.window) then 1 else 0)
      && Under(next, PlaceOf(next, n.window)) == Under(now, PlaceOf(now, n.window))
  {
    PlaceIs(now, n);
    MappedDiesAt(space, now, q, n);
    MappedDies(space, now, q);
    BeneathIs(now, n.z);
    BeneathIs(Forgotten(space, now, space[q]), PlaceOf(Forgotten(space, now, space[q]), n.window));
  }

  lemma HiddenFree(space: seq<Window>, now: seq<Mini>, e: Mini, n: Mini)
    requires Good(space, now) && e in now && n in now && n != e
    ensures var next := Forgotten(space, now, e.window);
      && Free(next, n.window) == Free(now, n.window)
      && Under(next, PlaceOf(next, n.window)) == Under(now, PlaceOf(now, n.window)) - {e.window}
  {
    PlaceIs(now, n);
    HiddenDiesAt(space, now, e, n);
    HiddenDies(space, now, e);
    OneFewer(now, e, n);
    BeneathIs(now, n.z);
    BeneathIs(Forgotten(space, now, e.window), PlaceOf(Forgotten(space, now, e.window), n.window));
  }

  lemma HiddenTracks(space: seq<Window>, minis: seq<Mini>, dead: set<Window>, t: Trace, next: seq<Mini>, w: Window, m: Mini)
    requires t.q <= |space| && Tracks(space, minis, dead, t, m) && m.window in Hidden(next)
    requires Free(next, m.window) == Free(t.now, m.window)
    requires Under(next, PlaceOf(next, m.window)) == Under(t.now, PlaceOf(t.now, m.window)) - {w}
    ensures Tracks(space, minis, dead, Trace(next, t.gone + {w}, t.q), m)
  {
    LessOne(Under(minis, m.z), t.gone, w);
  }

  lemma Survives(minis: seq<Mini>, t: Trace, dead: set<Window>, w: Window, m: Mini, now: seq<Mini>)
    requires m in minis && m.window !in t.gone && m.window !in dead && w in dead
    requires Hidden(now) == Hidden(minis) - (t.gone + {w})
    ensures m.window in Hidden(now)
  {
    assert m.window in Hidden(minis);
  }

  lemma NextTracks(space: seq<Window>, minis: seq<Mini>, dead: set<Window>, t: Trace, w: Window, m: Mini)
    requires Good(space, minis) && m in minis && m.window !in dead && m.window !in t.gone
    requires Sane(space, minis, t) && Fits1(space, minis, t, w) && Tracks(space, minis, dead, t, m)
    ensures Next(space, dead, t, w).q <= |space| && Tracks(space, minis, dead, Next(space, dead, t, w), m)
  {
    if w in dead {
      DeadNext(space, minis, dead, t, w, m);
    } else {
      QuietNext(space, minis, dead, t, w, m);
    }
  }

  lemma MappedNext(space: seq<Window>, minis: seq<Mini>, dead: set<Window>, t: Trace, next: seq<Mini>, m: Mini)
    requires Good(space, t.now) && t.q < |space| && space[t.q] in dead && space[t.q] !in Under(minis, m.z)
    requires Tracks(space, minis, dead, t, m) && m.window in Hidden(next) && next == Forgotten(space, t.now, space[t.q])
    ensures Tracks(space, minis, dead, Trace(next, t.gone + {space[t.q]}, t.q + 1), m)
  {
    var n := HiddenMini(t.now, m.window);
    MappedFree(space, t.now, t.q, n);
    MappedTracks(space, minis, dead, t, next, m);
  }

  lemma HiddenNext(space: seq<Window>, minis: seq<Mini>, dead: set<Window>, t: Trace, next: seq<Mini>, w: Window, m: Mini)
    requires Good(space, t.now) && t.q <= |space| && w in Hidden(t.now) && w != m.window
    requires Tracks(space, minis, dead, t, m) && m.window in Hidden(next) && next == Forgotten(space, t.now, w)
    ensures Tracks(space, minis, dead, Trace(next, t.gone + {w}, t.q), m)
  {
    var n := HiddenMini(t.now, m.window);
    var e := HiddenMini(t.now, w);
    HiddenFree(space, t.now, e, n);
    HiddenTracks(space, minis, dead, t, next, w, m);
  }

  lemma DeadMapped(space: seq<Window>, minis: seq<Mini>, dead: set<Window>, t: Trace, w: Window, m: Mini)
    requires Good(space, minis) && m.window !in dead && w in dead && w in space
    requires Sane(space, minis, t) && Fits1(space, minis, t, w) && Tracks(space, minis, dead, t, m)
    requires m.window in Hidden(Next(space, dead, t, w).now)
    ensures Next(space, dead, t, w).q <= |space| && Tracks(space, minis, dead, Next(space, dead, t, w), m)
  {
    NotUnder(space, minis, w, m.z);
    var next := Next(space, dead, t, w);
    MappedNext(space, minis, dead, t, next.now, m);
    assert next == Trace(next.now, t.gone + {w}, t.q + 1);
  }

  lemma DeadHidden(space: seq<Window>, minis: seq<Mini>, dead: set<Window>, t: Trace, w: Window, m: Mini)
    requires m.window !in dead && w in dead && w !in space && w in Hidden(t.now)
    requires Good(space, t.now) && t.q <= |space| && Tracks(space, minis, dead, t, m)
    requires m.window in Hidden(Next(space, dead, t, w).now)
    ensures Next(space, dead, t, w).q <= |space| && Tracks(space, minis, dead, Next(space, dead, t, w), m)
  {
    var next := Next(space, dead, t, w);
    HiddenNext(space, minis, dead, t, next.now, w, m);
    assert next == Trace(next.now, t.gone + {w}, t.q);
  }

  lemma DeadNext(space: seq<Window>, minis: seq<Mini>, dead: set<Window>, t: Trace, w: Window, m: Mini)
    requires Good(space, minis) && m in minis && m.window !in dead && m.window !in t.gone && w in dead
    requires Sane(space, minis, t) && Fits1(space, minis, t, w) && Tracks(space, minis, dead, t, m)
    ensures Next(space, dead, t, w).q <= |space| && Tracks(space, minis, dead, Next(space, dead, t, w), m)
  {
    NextSane(space, minis, dead, t, w);
    Survives(minis, t, dead, w, m, Next(space, dead, t, w).now);
    if w in space {
      DeadMapped(space, minis, dead, t, w, m);
    } else {
      StillHidden(minis, t, w);
      DeadHidden(space, minis, dead, t, w, m);
    }
  }

  lemma StillHidden(minis: seq<Mini>, t: Trace, w: Window)
    requires Hidden(t.now) == Hidden(minis) - t.gone && w in Hidden(minis) && w !in t.gone
    ensures w in Hidden(t.now)
  {
  }

  /** A window that lives changes nothing, whether it is mapped or not. */
  lemma QuietNext(space: seq<Window>, minis: seq<Mini>, dead: set<Window>, t: Trace, w: Window, m: Mini)
    requires w !in dead && t.q <= |space| && (w in space ==> t.q < |space| && space[t.q] == w)
    requires Tracks(space, minis, dead, t, m)
    ensures Tracks(space, minis, dead, Next(space, dead, t, w), m)
  {
  }

  lemma {:induction false} ClimbSane(stack: seq<Window>, space: seq<Window>, minis: seq<Mini>, dead: set<Window>, k: nat)
    requires Good(space, minis) && Arranged(stack, space, minis) && k <= |stack|
    ensures Sane(space, minis, Climbed(space, minis, dead, stack, k))
    decreases k
  {
    if k > 0 {
      var t := Climbed(space, minis, dead, stack, k - 1);
      ClimbSane(stack, space, minis, dead, k - 1);
      ClimbFits(stack, space, minis, dead, k - 1);
      NextSane(space, minis, dead, t, stack[k - 1]);
      assert Climbed(space, minis, dead, stack, k) == Next(space, dead, t, stack[k - 1]);
    }
  }

  lemma {:induction false} Tracked(stack: seq<Window>, space: seq<Window>, minis: seq<Mini>, dead: set<Window>, k: nat, m: Mini)
    requires Good(space, minis) && Arranged(stack, space, minis) && k <= |stack| && m in minis && m.window !in dead
    ensures var t := Climbed(space, minis, dead, stack, k); t.q <= |space| && Tracks(space, minis, dead, t, m)
    decreases k
  {
    if k == 0 {
      PlaceIs(minis, m);
      assert m.window in Hidden(minis);
    } else {
      var t := Climbed(space, minis, dead, stack, k - 1);
      Tracked(stack, space, minis, dead, k - 1, m);
      ClimbSane(stack, space, minis, dead, k - 1);
      ClimbFits(stack, space, minis, dead, k - 1);
      ClimbedGone(space, minis, dead, stack, k - 1);
      NextTracks(space, minis, dead, t, stack[k - 1], m);
    }
  }

  lemma OneFewer(minis: seq<Mini>, e: Mini, n: Mini)
    requires OneEach(minis) && e in minis && n in minis && e != n
    ensures |Under(minis, n.z) - {e.window}| == |Under(minis, n.z)| - if e.z < n.z then 1 else 0
  {
    assert e.window in Under(minis, n.z) <==> e.z < n.z;
  }

  // ----- exactly when the batch is right

  ghost function Alive(space: seq<Window>, dead: set<Window>, f: nat): set<Window>
    requires f <= |space|
  {
    if f == 0 then {} else Alive(space, dead, f - 1) + if space[f - 1] in dead then {} else {space[f - 1]}
  }

  lemma {:induction false} AliveIs(space: seq<Window>, dead: set<Window>, f: nat)
    requires f <= |space|
    ensures Alive(space, dead, f) == Mapped(space[..f]) - dead
    decreases f
  {
    if f > 0 {
      AliveIs(space, dead, f - 1);
      assert space[..f] == space[..f - 1] + [space[f - 1]];
    }
  }

  lemma {:induction false} AliveCount(space: seq<Window>, dead: set<Window>, f: nat)
    requires Distinct(space) && f <= |space|
    ensures |Alive(space, dead, f)| == f - Dead(space, dead, f)
    decreases f
  {
    if f > 0 {
      AliveCount(space, dead, f - 1);
      assert space[f - 1] !in Alive(space, dead, f - 1) by {
        AliveIs(space, dead, f - 1);
        assert space[f - 1] !in space[..f - 1];
      }
    }
  }

  /** Where a window of a stack is once only those in `kept` are left. */
  lemma KeptAt(stack: seq<Window>, kept: set<Window>, z: nat)
    requires Distinct(stack) && z < |stack| && stack[z] in kept
    ensures var alive := Keep(stack, kept);
      && Distinct(alive)
      && |Keep(stack[..z], kept)| < |alive| && alive[|Keep(stack[..z], kept)|] == stack[z]
      && |Keep(stack[..z], kept)| == |Mapped(stack[..z]) * kept|
  {
    KeepDistinct(stack, kept);
    KeepPrefix(stack, z, kept);
    assert stack[z..][0] == stack[z];
    KeepDistinct(stack[..z], kept);
    SizeOf(Keep(stack[..z], kept));
    assert Mapped(Keep(stack[..z], kept)) == Mapped(stack[..z]) * kept;
  }

  lemma WantedSets(stack: seq<Window>, space: seq<Window>, minis: seq<Mini>, dead: set<Window>, m: Mini, f: nat)
    requires Good(space, minis) && stack == FullStack(space, minis) && m in minis && f == m.z - |Under(minis, m.z)|
    ensures f <= |space| && m.z < |stack|
    ensures Mapped(stack[..m.z]) * (Mapped(stack) - dead) == Alive(space, dead, f) + (Under(minis, m.z) - dead)
    ensures Alive(space, dead, f) !! Under(minis, m.z)
  {
    Below(space, minis, m.z);
    AliveIs(space, dead, f);
    BothAlive(Mapped(stack[..m.z]), Mapped(stack), dead, Mapped(space[..f]), Under(minis, m.z));
    forall w | w in Alive(space, dead, f) ensures w !in Under(minis, m.z) { NotUnder(space, minis, w, m.z); }
  }

  lemma SumOf<T>(both: set<T>, a: set<T>, b: set<T>, n: int)
    requires both == a + b && a !! b && |a| == n
    ensures |both| == n + |b|
  {
  }

  lemma FreeIs(space: seq<Window>, minis: seq<Mini>, m: Mini)
    requires Good(space, minis) && m in minis
    ensures Free(minis, m.window) == m.z - |Under(minis, m.z)| && 0 <= Free(minis, m.window) <= |space|
  {
    PlaceIs(minis, m);
    BeneathIs(minis, m.z);
    Below(space, minis, m.z);
  }

  /** The place a surviving window should have: the living mapped and minimized ones below it. */
  lemma Wanted(stack: seq<Window>, space: seq<Window>, minis: seq<Mini>, dead: set<Window>, m: Mini, f: nat)
    requires Good(space, minis) && stack == FullStack(space, minis) && m in minis && f == m.z - |Under(minis, m.z)|
    ensures f <= |space| && m.z < |stack|
    ensures |Mapped(stack[..m.z]) * (Mapped(stack) - dead)| == (f - Dead(space, dead, f)) + |Under(minis, m.z) - dead|
  {
    WantedSets(stack, space, minis, dead, m, f);
    AliveCount(space, dead, f);
    SumOf(Mapped(stack[..m.z]) * (Mapped(stack) - dead), Alive(space, dead, f), Under(minis, m.z) - dead, f - Dead(space, dead, f));
  }

  lemma BothAlive<T>(low: set<T>, all: set<T>, dead: set<T>, a: set<T>, b: set<T>)
    requires low == a + b && low <= all
    ensures low * (all - dead) == (a - dead) + (b - dead)
  {
  }

  lemma FinalTrace(space: seq<Window>, minis: seq<Mini>, dead: set<Window>)
    requires Good(space, minis)
    ensures var stack := FullStack(space, minis);
      Climbed(space, minis, dead, stack, |stack|)
        == Trace(ForgottenAll(space, minis, Keep(stack, dead)), Mapped(stack) * dead, |space|)
  {
    var stack := FullStack(space, minis);
    FullStackArranged(space, minis);
    ClimbedNow(space, minis, dead, stack, |stack|);
    ClimbedGone(space, minis, dead, stack, |stack|);
    ClimbedCount(space, minis, dead, stack, |stack|);
    assert stack[..|stack|] == stack;
  }

  lemma UnderInStack(space: seq<Window>, minis: seq<Mini>, dead: set<Window>, m: Mini)
    requires Good(space, minis) && m in minis
    ensures Under(minis, m.z) - Mapped(FullStack(space, minis)) * dead == Under(minis, m.z) - dead
  {
    var stack := FullStack(space, minis);
    FullStackArranged(space, minis);
    UnderIs(stack, space, minis, m.z);
    assert forall w :: w in stack[..m.z] ==> w in Mapped(stack);
  }

  lemma Finished(space: seq<Window>, minis: seq<Mini>, dead: set<Window>, m: Mini)
    requires Good(space, minis) && m in minis && m.window !in dead
    ensures var left := ForgottenAll(space, minis, Keep(FullStack(space, minis), dead));
      && m.window in Hidden(left)
      && PlaceOf(left, m.window) == Lowered(space, dead, Free(minis, m.window), |space|) + |Under(minis, m.z) - dead|
  {
    var stack := FullStack(space, minis);
    FullStackArranged(space, minis);
    Tracked(stack, space, minis, dead, |stack|, m);
    ClimbSane(stack, space, minis, dead, |stack|);
    FinalTrace(space, minis, dead);
    UnderInStack(space, minis, dead, m);
    var left := Climbed(space, minis, dead, stack, |stack|).now;
    BeneathIs(left, PlaceOf(left, m.window));
  }

  /** Forgotten in one batch, the dead windows leave a minimized one at its place among the
      living if and only if each dead mapped window below it has, with the dead mapped ones
      below that one counted, a mapped window to spare between. */
  lemma BatchPlace(space: seq<Window>, minis: seq<Mini>, dead: set<Window>, m: Mini)
    requires Good(space, minis) && m in minis && m.window !in dead
    ensures var stack := FullStack(space, minis);
      var left, alive := ForgottenAll(space, minis, Keep(stack, dead)), Keep(stack, Mapped(stack) - dead);
      && Distinct(alive) && m.window in Hidden(left)
      && (PlaceOf(left, m.window) < |alive| && alive[PlaceOf(left, m.window)] == m.window
          <==> Spaced(space, dead, Free(minis, m.window)))
  {
    var stack := FullStack(space, minis);
    FullStackArranged(space, minis);
    Finished(space, minis, dead, m);
    FreeIs(space, minis, m);
    Wanted(stack, space, minis, dead, m, Free(minis, m.window));
    KeptAt(stack, Mapped(stack) - dead, m.z);
    LoweredExactly(space, dead, Free(minis, m.window));
    var left, alive := ForgottenAll(space, minis, Keep(stack, dead)), Keep(stack, Mapped(stack) - dead);
    OnlyPlace(alive, |Keep(stack[..m.z], Mapped(stack) - dead)|, PlaceOf(left, m.window));
  }

  lemma OnlyPlace(s: seq<Window>, i: nat, j: nat)
    requires Distinct(s) && i < |s|
    ensures j < |s| && s[j] == s[i] <==> j == i
  {
  }

  lemma {:induction false} HiddenSize(minis: seq<Mini>)
    requires OneEach(minis)
    ensures |Hidden(minis)| == |minis|
    decreases |minis|
  {
    if minis != [] {
      HiddenSize(minis[1..]);
      var rest := minis[1..];
      forall i | 0 <= i < |rest| ensures rest[i].window != minis[0].window { assert rest[i] == minis[i + 1]; }
      assert forall m :: m in minis <==> m == minis[0] || m in rest;
      assert Hidden(minis) == Hidden(rest) + {minis[0].window};
    }
  }

  lemma SpacedKeeps(space: seq<Window>, minis: seq<Mini>, dead: set<Window>)
    requires Good(space, minis)
    requires forall m :: m in minis && m.window !in dead ==> Spaced(space, dead, Free(minis, m.window))
    ensures var stack := FullStack(space, minis);
      var left, living := ForgottenAll(space, minis, Keep(stack, dead)), Keep(space, Mapped(space) - dead);
      Good(living, left) && FullStack(living, left) == Keep(stack, Mapped(stack) - dead)
  {
    var stack := FullStack(space, minis);
    var n := |stack|;
    var left, living, alive := ForgottenAll(space, minis, Keep(stack, dead)), Keep(space, Mapped(space) - dead), Keep(stack, Mapped(stack) - dead);
    FullStackArranged(space, minis);
    BatchSane(space, minis, dead);
    AllPlaced(space, minis, dead);
    KeepDistinct(stack, Mapped(stack) - dead);
    KeepDistinct(space, Mapped(space) - dead);
    LivingSize(stack, space, minis, dead, left);
    LivingOrder(stack, space, dead);
    forall w | w in alive && w !in living ensures exists o :: o in left && o.window == w {
      var m :| m in minis && m.window == w;
      assert w in Hidden(minis) && w in Hidden(left);
      var o := HiddenMini(left, w);
    }
    ArrangedStacked(alive, living, left);
  }

  lemma KeptSpaced(space: seq<Window>, minis: seq<Mini>, dead: set<Window>, living: seq<Window>, left: seq<Mini>, m: Mini)
    requires Good(space, minis) && m in minis && m.window !in dead
    requires left == ForgottenAll(space, minis, Keep(FullStack(space, minis), dead)) && Good(living, left)
    requires FullStack(living, left) == Keep(FullStack(space, minis), Mapped(FullStack(space, minis)) - dead)
    ensures Spaced(space, dead, Free(minis, m.window))
  {
    FullStackArranged(living, left);
    BatchPlace(space, minis, dead, m);
    var o := HiddenMini(left, m.window);
    PlaceIs(left, o);
  }

  /** The batch removes the dead from the stack and nothing else, with indices that are right,
      if and only if the dead mapped windows below every surviving minimized one are spaced. */
  lemma BatchKeeps(space: seq<Window>, minis: seq<Mini>, dead: set<Window>)
    requires Good(space, minis)
    ensures var stack := FullStack(space, minis);
      var left, living := ForgottenAll(space, minis, Keep(stack, dead)), Keep(space, Mapped(space) - dead);
      Good(living, left) && FullStack(living, left) == Keep(stack, Mapped(stack) - dead)
      <==> forall m :: m in minis && m.window !in dead ==> Spaced(space, dead, Free(minis, m.window))
  {
    var stack := FullStack(space, minis);
    var left, living := ForgottenAll(space, minis, Keep(stack, dead)), Keep(space, Mapped(space) - dead);
    if Good(living, left) && FullStack(living, left) == Keep(stack, Mapped(stack) - dead) {
      forall m | m in minis && m.window !in dead ensures Spaced(space, dead, Free(minis, m.window)) {
        KeptSpaced(space, minis, dead, living, left, m);
      }
    }
    if forall m :: m in minis && m.window !in dead ==> Spaced(space, dead, Free(minis, m.window)) { SpacedKeeps(space, minis, dead); }
  }

  lemma BatchSane(space: seq<Window>, minis: seq<Mini>, dead: set<Window>)
    requires Good(space, minis)
    ensures var left := ForgottenAll(space, minis, Keep(FullStack(space, minis), dead));
      Good(space, left) && Hidden(left) == Hidden(minis) - dead
  {
    var stack := FullStack(space, minis);
    FullStackArranged(space, minis);
    ClimbSane(stack, space, minis, dead, |stack|);
    FinalTrace(space, minis, dead);
    forall w | w in Hidden(minis) ensures w in Mapped(stack) {
      var m := HiddenMini(minis, w);
      assert stack[m.z] == w;
    }
    assert Hidden(minis) - Mapped(stack) * dead == Hidden(minis) - dead;
  }

  lemma AllPlaced(space: seq<Window>, minis: seq<Mini>, dead: set<Window>)
    requires Good(space, minis)
    requires forall m :: m in minis && m.window !in dead ==> Spaced(space, dead, Free(minis, m.window))
    ensures var stack := FullStack(space, minis);
      var left, alive := ForgottenAll(space, minis, Keep(stack, dead)), Keep(stack, Mapped(stack) - dead);
      forall o :: o in left ==> o.z < |alive| && alive[o.z] == o.window
  {
    BatchSane(space, minis, dead);
    var stack := FullStack(space, minis);
    var left, alive := ForgottenAll(space, minis, Keep(stack, dead)), Keep(stack, Mapped(stack) - dead);
    forall o | o in left ensures o.z < |alive| && alive[o.z] == o.window {
      assert o.window in Hidden(left);
      var m := HiddenMini(minis, o.window);
      BatchPlace(space, minis, dead, m);
      PlaceIs(left, o);
    }
  }

  lemma LivingSize(stack: seq<Window>, space: seq<Window>, minis: seq<Mini>, dead: set<Window>, left: seq<Mini>)
    requires Good(space, minis) && Arranged(stack, space, minis)
    requires Good(space, left) && Hidden(left) == Hidden(minis) - dead
    ensures |Keep(stack, Mapped(stack) - dead)| == |Keep(space, Mapped(space) - dead)| + |left|
  {
    var living, alive := Keep(space, Mapped(space) - dead), Keep(stack, Mapped(stack) - dead);
    KeepDistinct(stack, Mapped(stack) - dead);
    KeepDistinct(space, Mapped(space) - dead);
    SizeOf(alive);
    SizeOf(living);
    HiddenSize(left);
    StackParts(stack, space, minis);
    assert Mapped(alive) == Mapped(living) + Hidden(left);
    assert Mapped(living) !! Hidden(left);
  }

  lemma StackParts(stack: seq<Window>, space: seq<Window>, minis: seq<Mini>)
    requires Good(space, minis) && Arranged(stack, space, minis)
    ensures Mapped(stack) == Mapped(space) + Hidden(minis) && Mapped(space) !! Hidden(minis)
  {
    forall w | w in Hidden(minis) ensures w in stack {
      var m := HiddenMini(minis, w);
      assert stack[m.z] == w;
    }
    assert forall w :: w in space ==> w in Keep(stack, Mapped(space));
    forall w | w in stack && w !in space ensures w in Hidden(minis) {
      var m :| m in minis && m.window == w;
    }
  }

  lemma LivingOrder(stack: seq<Window>, space: seq<Window>, dead: set<Window>)
    requires Keep(stack, Mapped(space)) == space
    ensures var living := Keep(space, Mapped(space) - dead);
      Keep(Keep(stack, Mapped(stack) - dead), Mapped(living)) == living
  {
    var living := Keep(space, Mapped(space) - dead);
    KeepTwice(stack, Mapped(stack) - dead, Mapped(living));
    KeepTwice(stack, Mapped(space), Mapped(space) - dead);
    SameKept(stack, (Mapped(stack) - dead) * Mapped(living), Mapped(space) * (Mapped(space) - dead));
  }
}
