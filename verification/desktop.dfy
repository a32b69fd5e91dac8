/** The compositor's windows, updated in place: mapped and minimized ones, the focus, each
    window's frame, and kiosk mode over all of them. */
module Desktop {
  import opened Common
  import opened Rotation
  import opened Stack
  import opened Frames

  // ----- transient families

  /** `x` is mapped and the mapped chain of parents from it reaches `w`, `k` windows between. */
  ghost predicate Chain(space: set<Window>, parents: map<Window, Window>, x: Window, w: Window, k: nat)
    decreases k
  {
    && x in space && x in parents
    && (if k == 0 then parents[x] == w else Chain(space, parents, parents[x], w, k - 1))
  }

  ghost predicate Transient(space: set<Window>, parents: map<Window, Window>, x: Window, w: Window) {
    exists k: nat :: Chain(space, parents, x, w, k)
  }

  /** The transients of `w`, bottom to top. */
  ghost function Family(space: seq<Window>, parents: map<Window, Window>, w: Window): seq<Window> {
    Keep(space, set x | x in space && Transient(Mapped(space), parents, x, w))
  }

  /** A set that holds the mapped children of `w` and of its own members holds the family. */
  lemma {:induction false} ClosedHolds(space: set<Window>, parents: map<Window, Window>, w: Window, found: set<Window>, x: Window, k: nat)
    requires forall y :: y in space && y in parents && (parents[y] == w || parents[y] in found) ==> y in found
    requires Chain(space, parents, x, w, k)
    ensures x in found
    decreases k
  {
    if k > 0 { ClosedHolds(space, parents, w, found, parents[x], k - 1); }
  }

  lemma ChildChains(space: set<Window>, parents: map<Window, Window>, w: Window, y: Window)
    requires y in space && y in parents && (parents[y] == w || Transient(space, parents, parents[y], w))
    ensures Transient(space, parents, y, w)
  {
    if parents[y] == w {
      assert Chain(space, parents, y, w, 0);
    } else {
      var k: nat :| Chain(space, parents, parents[y], w, k);
      assert Chain(space, parents, y, w, k + 1);
    }
  }

  /** Part of the search: what was seen is transient, and only children of `roots` are left. */
  ghost predicate Explored(mapped: set<Window>, parents: map<Window, Window>, w: Window, roots: set<Window>, seen: set<Window>) {
    && seen <= mapped
    && (forall y :: y in seen ==> Transient(mapped, parents, y, w))
    && (forall y :: y in roots ==> y in seen || y == w)
    && (forall y :: y in mapped && y in parents && (parents[y] == w || parents[y] in seen) ==>
          y in seen || parents[y] in roots)
  }

  lemma ExploreMore(mapped: set<Window>, parents: map<Window, Window>, w: Window, roots: set<Window>, seen: set<Window>, next: set<Window>)
    requires Explored(mapped, parents, w, roots, seen) && roots != {}
    requires next == set y | y in mapped && y !in seen && y in parents && parents[y] in roots
    ensures Explored(mapped, parents, w, next, seen + next)
    ensures |mapped - (seen + next)| < |mapped - seen| || (next == {} && seen + next == seen)
  {
    forall y | y in next ensures Transient(mapped, parents, y, w) { ChildChains(mapped, parents, w, y); }
    if y :| y in next { Smaller(mapped - (seen + next), mapped - seen, y); }
  }

  lemma ExploredAll(mapped: set<Window>, parents: map<Window, Window>, w: Window, seen: set<Window>)
    requires Explored(mapped, parents, w, {}, seen)
    ensures seen == set x | x in mapped && Transient(mapped, parents, x, w)
  {
    forall x | x in mapped && Transient(mapped, parents, x, w) ensures x in seen {
      var k: nat :| Chain(mapped, parents, x, w, k);
      ClosedHolds(mapped, parents, w, seen, x, k);
    }
  }

  // ----- focus

  /** What a request to focus comes to: only a shown, mapped window takes the focus. */
  function Focusable(space: seq<Window>, shown: set<Window>, w: Option<Window>): Option<Window> {
    if w.Some? && w.value in shown && w.value in space then w else None
  }

  ghost function Focused(space: seq<Window>, parents: map<Window, Window>, shown: set<Window>, w: Option<Window>): seq<Window> {
    if Focusable(space, shown, w).None? then space
    else AllOnTop(OnTop(space, w.value), Family(OnTop(space, w.value), parents, w.value))
  }

  /** `r` is the top-most shown window that is not a menu or tooltip, if there is one. */
  ghost predicate IsTop(space: seq<Window>, shown: set<Window>, passive: set<Window>, r: Option<Window>) {
    if r.None? then forall i :: 0 <= i < |space| ==> space[i] !in shown || space[i] in passive
    else
      exists i ::
        && 0 <= i < |space| && space[i] == r.value && space[i] in shown && space[i] !in passive
        && forall j :: i < j < |space| ==> space[j] !in shown || space[j] in passive
  }

  function TopOf(space: seq<Window>, shown: set<Window>, passive: set<Window>): (r: Option<Window>)
    ensures IsTop(space, shown, passive, r)
    ensures r.Some? ==> r.value in space && r.value in shown
  {
    if space == [] then None
    else
      var w := space[|space| - 1];
      if w in shown && w !in passive then Some(w) else TopOf(space[..|space| - 1], shown, passive)
  }

  lemma FocusedGood(space: seq<Window>, minis: seq<Mini>, parents: map<Window, Window>, shown: set<Window>, w: Option<Window>)
    requires Good(space, minis)
    ensures Good(Focused(space, parents, shown, w), minis)
    ensures Mapped(Focused(space, parents, shown, w)) == Mapped(space)
  {
    if Focusable(space, shown, w).Some? {
      OnTopGood(space, minis, w.value);
      AllOnTopGood(OnTop(space, w.value), minis, Family(OnTop(space, w.value), parents, w.value));
    }
  }

  /** Raising a window and its transients again changes nothing. */
  lemma FocusedTwice(space: seq<Window>, parents: map<Window, Window>, shown: set<Window>, w: Option<Window>)
    requires Distinct(space)
    ensures var once := Focused(space, parents, shown, w);
      Focused(once, parents, shown, Focusable(space, shown, w)) == once && Focusable(once, shown, Focusable(space, shown, w)) == Focusable(space, shown, w)
  {
    FocusedMembers(space, parents, shown, w);
    if Focusable(space, shown, w).Some? { RaisedAgain(space, parents, w.value, Focused(space, parents, shown, w)); }
  }

  lemma RaisedAgain(space: seq<Window>, parents: map<Window, Window>, w: Window, once: seq<Window>)
    requires Distinct(space) && w in space && once == AllOnTop(OnTop(space, w), Family(OnTop(space, w), parents, w))
    requires Distinct(once) && Mapped(once) == Mapped(space) && w in once
    ensures AllOnTop(OnTop(once, w), Family(OnTop(once, w), parents, w)) == once
  {
    OnTopGood(space, [], w);
    OnTopGood(once, [], w);
    SameKin(OnTop(space, w), OnTop(once, w), parents, w);
    var kin := set x | x in OnTop(space, w) && Transient(Mapped(OnTop(space, w)), parents, x, w);
    RaisedTwice(space, w, kin, once);
  }

  /** Who of the mapped windows goes up with `w`. */
  ghost function Kin(space: seq<Window>, parents: map<Window, Window>, w: Window): set<Window> {
    set x | x in space && Transient(Mapped(space), parents, x, w)
  }

  /** Focus puts a shown, mapped window over all others but its transients, and those on top,
      each group in the order it had; anything else only takes the focus away. */
  lemma FocusesExactly(space: seq<Window>, parents: map<Window, Window>, shown: set<Window>, w: Option<Window>)
    requires Distinct(space)
    ensures Focusable(space, shown, w) == if w.Some? && w.value in space && w.value in shown then w else None
    ensures !(w.Some? && w.value in space && w.value in shown) ==> Focused(space, parents, shown, w) == space
    ensures w.Some? && w.value in space && w.value in shown ==>
      var kin := Kin(space, parents, w.value);
      var lone := if w.value in kin then [] else [w.value];
      Focused(space, parents, shown, w) ==
        Keep(space, Mapped(space) - kin - {w.value}) + lone + Keep(space, kin - {w.value}) + (if w.value in kin then [w.value] else [])
  {
    if w.Some? && w.value in space && w.value in shown {
      var on, kin := OnTop(space, w.value), Kin(space, parents, w.value);
      assert Good(space, []);
      OnTopGood(space, [], w.value);
      SameKin(space, on, parents, w.value);
      assert forall x :: x in on <==> x in Mapped(on);
      RaisedIs(space, w.value, kin);
      OnTopKept(space, w.value, Mapped(on) - kin);
      OnTopKept(space, w.value, kin);
    }
  }

  lemma SameKin(a: seq<Window>, b: seq<Window>, parents: map<Window, Window>, w: Window)
    requires Mapped(a) == Mapped(b)
    ensures (set x | x in a && Transient(Mapped(a), parents, x, w)) == (set x | x in b && Transient(Mapped(b), parents, x, w))
  {
    assert forall x :: x in a <==> x in Mapped(a);
    assert forall x :: x in b <==> x in Mapped(b);
  }

  lemma FocusedMembers(space: seq<Window>, parents: map<Window, Window>, shown: set<Window>, w: Option<Window>)
    requires Distinct(space)
    ensures Mapped(Focused(space, parents, shown, w)) == Mapped(space)
    ensures Distinct(Focused(space, parents, shown, w))
    ensures forall x :: x in Focused(space, parents, shown, w) <==> x in space
  {
    assert Good(space, []);
    FocusedGood(space, [], parents, shown, w);
    forall x ensures x in Focused(space, parents, shown, w) <==> x in space {
      assert x in Mapped(Focused(space, parents, shown, w)) <==> x in Mapped(space);
    }
  }

  lemma OnTopKept(s: seq<Window>, w: Window, kept: set<Window>)
    ensures Keep(OnTop(s, w), kept) == Keep(s, kept - {w}) + (if w in kept then [w] else [])
  {
    Without1Keeps(s, w);
    KeepTwice(s, Mapped(s) - {w}, kept);
    SameKept(s, (Mapped(s) - {w}) * kept, kept - {w});
    KeepAppend(Without1(s, w), w, kept);
  }

  /** Raising `w` does the same to any two orders that agree once it is raised. */
  lemma KeptAgain(s: seq<Window>, once: seq<Window>, w: Window, kept: set<Window>)
    requires Keep(once, kept) == Keep(OnTop(s, w), kept)
    ensures Keep(OnTop(once, w), kept) == Keep(OnTop(s, w), kept)
  {
    var less := kept - {w};
    OnTopKept(once, w, kept);
    OnTopKept(s, w, kept);
    KeepTwice(once, kept, less);
    KeepTwice(OnTop(s, w), kept, less);
    assert kept * less == less && less - {w} == less;
    OnTopKept(s, w, less);
  }

  lemma RaisedIs(s: seq<Window>, w: Window, kin: set<Window>)
    requires Distinct(OnTop(s, w)) && kin <= Mapped(OnTop(s, w))
    ensures AllOnTop(OnTop(s, w), Keep(OnTop(s, w), kin)) == Keep(OnTop(s, w), Mapped(OnTop(s, w)) - kin) + Keep(OnTop(s, w), kin)
  {
    KeepDistinct(OnTop(s, w), kin);
    AllOnTopIs(OnTop(s, w), Keep(OnTop(s, w), kin));
    assert Mapped(Keep(OnTop(s, w), kin)) == kin;
  }

  lemma RaisedTwice(s: seq<Window>, w: Window, kin: set<Window>, once: seq<Window>)
    requires Distinct(OnTop(s, w)) && kin <= Mapped(OnTop(s, w)) && once == AllOnTop(OnTop(s, w), Keep(OnTop(s, w), kin))
    requires Distinct(OnTop(once, w)) && Mapped(OnTop(once, w)) == Mapped(OnTop(s, w))
    ensures AllOnTop(OnTop(once, w), Keep(OnTop(once, w), kin)) == once
  {
    var rest := Mapped(OnTop(s, w)) - kin;
    var below, above := Keep(OnTop(s, w), rest), Keep(OnTop(s, w), kin);
    RaisedIs(s, w, kin);
    KeepConcat(below, above, rest);
    KeepAll(below, rest);
    KeepDisjoint(above, rest);
    KeepConcat(below, above, kin);
    KeepDisjoint(below, kin);
    KeepAll(above, kin);
    KeptAgain(s, once, w, rest);
    KeptAgain(s, once, w, kin);
    RaisedIs(once, w, kin);
  }

  /** One window mapped again out of the front of the order. */
  lemma RemapOne(order: seq<Window>, i: nat)
    requires Distinct(order) && i < |order|
    ensures OnTop(order[i..] + order[..i], order[i]) == order[i + 1..] + order[..i + 1]
  {
    var s := order[i..] + order[..i];
    assert s[0] == order[i];
    assert s[1..] == order[i + 1..] + order[..i];
    assert order[i] !in s[1..];
    assert Without1(s, order[i]) == s[1..];
  }

  // ----- frames

  /** Laying out a minimized window: a filled one is told its size. */
  function RelaidHidden(area: Area, f: Frame): Frame {
    if IsFilled(f) then
      var r := FillRect(area, f.fullscreen);
      f.(rect := f.rect.(w := r.w, h := r.h))
    else f
  }

  /** A minimized window's frame stays where it was when it was minimized, which is its
      remembered location; it has no focus. */
  predicate Away(m: Mini, frames: map<Window, Frame>, active: Option<Window>) {
    m.window in frames && frames[m.window].rect.x == m.loc.x && frames[m.window].rect.y == m.loc.y && active != Some(m.window)
  }

  predicate Lists(minis: seq<Mini>, w: Window) { exists m :: m in minis && m.window == w }

  /** The frame of `w` once everything is laid out again. */
  function Laid(space: seq<Window>, minis: seq<Mini>, area: Area, f: Frame, w: Window, passive: bool): Frame {
    if w in space then Relaid(area, f, passive)
    else if Lists(minis, w) then RelaidHidden(area, f)
    else f
  }

  /** Laying out reaches every window there is: a mapped one fills its space or can be reached,
      a minimized one is told its size, a panel or any other stays. */
  lemma LaidExactly(space: seq<Window>, minis: seq<Mini>, area: Area, f: Frame, w: Window, passive: bool)
    ensures var r, work := Laid(space, minis, area, f, w, passive), area.work;
      && r == f.(rect := r.rect)
      && (w in space && !passive && f.fullscreen ==> r.rect == area.output)
      && (w in space && !passive && !f.fullscreen && f.maximized ==> r.rect == Rect(work.x, work.y + area.bar, work.w, work.h - area.bar))
      && (w in space && !passive && !IsFilled(f) ==>
            && NearestPlace(r.rect.x, f.rect.x, work.x, work.w, 64) && NearestPlace(r.rect.y, f.rect.y, work.y + area.bar, work.h, 64)
            && r.rect.w == f.rect.w && r.rect.h == f.rect.h)
      && (w !in space && Lists(minis, w) && IsFilled(f) ==>
            && r.rect.x == f.rect.x && r.rect.y == f.rect.y
            && (r.rect.w, r.rect.h) == if f.fullscreen then (area.output.w, area.output.h) else (work.w, work.h - area.bar))
      && ((w in space && passive) || (w !in space && !(Lists(minis, w) && IsFilled(f))) ==> r == f)
  {
    RelaidExactly(area, f, passive);
  }

  /** Whether a change maps the window, which puts it on top. */
  function Raises(f: Frame, what: What, on: bool): bool {
    on || (if what.Maximized? then f.fullscreen else f.maximized) || f.restore.Some?
  }

  /** That is any change to a settled window but undoing what it is not. */
  lemma RaisesExactly(area: Area, f: Frame, what: What, on: bool)
    requires Settled(area, f)
    ensures Raises(f, what, on) <==> on || f.fullscreen || f.maximized
  {
  }

  class State {
    var space: seq<Window>
    var minimized: seq<Mini>
    var active: Option<Window>
    var frames: map<Window, Frame>
    var kiosk: bool
    var area: Window -> Area
    var parents: map<Window, Window>
    var shown: set<Window>
    var passive: set<Window>

    ghost predicate Valid()
      reads this
    {
      && Good(space, minimized)
      && (forall w :: w in space ==> w in frames)
      && (forall m :: m in minimized ==> Away(m, frames, active))
      && (forall w :: Limits(area(w)))
    }

    function Windows(): seq<Window>
      reads this
    {
      FullStack(space, minimized)
    }

    method TransientsOf(window: Window) returns (found: seq<Window>)
      requires Distinct(space)
      ensures found == Family(space, parents, window)
    {
      var roots, seen: set<Window> := {window}, {};
      var mapped := set w | w in space;
      while roots != {}
        invariant Explored(mapped, parents, window, roots, seen)
        decreases |mapped - seen|, |roots|
      {
        var next := set y | y in mapped && y !in seen && y in parents && parents[y] in roots;
        ExploreMore(mapped, parents, window, roots, seen, next);
        roots, seen := next, seen + next;
      }
      ExploredAll(mapped, parents, window, seen);
      assert mapped == Mapped(space);
      assert seen == set x | x in space && Transient(Mapped(space), parents, x, window);
      found := Keep(space, seen);
    }

    method FocusWindow(w: Option<Window>)
      requires Valid()
      modifies `space, `active
      ensures Valid()
      ensures space == Focused(old(space), parents, shown, w)
      ensures active == Focusable(old(space), shown, w)
      ensures Mapped(space) == Mapped(old(space))
    {
      FocusedGood(space, minimized, parents, shown, w);
      var target := Focusable(space, shown, w);
      active := target;
      if target.Some? {
        OnTopGood(space, minimized, target.value);
        space := OnTop(space, target.value);
        var children := TransientsOf(target.value);
        MapAll(children);
      }
      forall x | x in space ensures x in frames { assert x in Mapped(space); }
    }

    method Minimize(window: Window)
      requires Valid()
      modifies `space, `minimized, `active
      ensures Valid()
      ensures window !in old(space) ==> unchanged(this)
      ensures window in old(space) ==>
        && minimized == MinimizedAt(old(space), old(minimized), window, Point(frames[window].rect.x, frames[window].rect.y))
        && var left := Without1(old(space), window);
           && FullStack(left, minimized) == old(Windows())
           && (if old(active) == Some(window)
               then space == Focused(left, parents, shown, TopOf(left, shown, passive)) && active == TopOf(left, shown, passive)
               else space == left && active == old(active))
    {
      if window !in space { return; }
      var z := Position(Windows(), window);
      MinimizeStack(space, minimized, window, Point(frames[window].rect.x, frames[window].rect.y));
      space := Without1(space, window);
      minimized := minimized + [Mini(window, Point(frames[window].rect.x, frames[window].rect.y), z)];
      if active == Some(window) {
        active := None;
        var next := TopOf(space, shown, passive);
        FocusWindow(next);
      }
    }

    /** Re-fits every window, mapping the mapped ones again in order. */
    method Relayout()
      requires Valid()
      modifies `space, `frames
      ensures Valid() && space == old(space)
      ensures frames.Keys == old(frames).Keys
      ensures forall w :: w in frames ==> frames[w] == Laid(space, minimized, area(w), old(frames)[w], w, w in passive)
    {
      RelayoutMapped();
      RelayoutHidden();
    }

    method RelayoutMapped()
      requires Distinct(space) && forall w :: w in space ==> w in frames
      modifies `space, `frames
      ensures space == old(space) && frames.Keys == old(frames).Keys
      ensures forall w :: w in frames ==> frames[w] == Laid(space, [], area(w), old(frames)[w], w, w in passive)
    {
      var order := space;
      for i := 0 to |order|
        invariant space == order[i..] + order[..i]
        invariant frames.Keys == old(frames).Keys
        invariant forall w :: w in frames ==> frames[w] == Laid(order[..i], [], area(w), old(frames)[w], w, w in passive)
      {
        var w := order[i];
        Around(order, i);
        assert order[..i + 1] == order[..i] + [w];
        frames := frames[w := Relaid(area(w), frames[w], w in passive)];
        RemapOne(order, i);
        space := OnTop(space, w);
      }
      assert order[..|order|] == order;
    }

    method RelayoutHidden()
      requires Good(space, minimized) && forall m :: m in minimized ==> m.window in frames
      modifies `frames
      ensures frames.Keys == old(frames).Keys
      ensures forall w :: w in frames ==> frames[w] == if Lists(minimized, w) then RelaidHidden(area(w), old(frames)[w]) else old(frames)[w]
    {
      assert minimized[..0] == [];
      for i := 0 to |minimized|
        invariant frames.Keys == old(frames).Keys
        invariant forall w :: w in frames ==>
          frames[w] == if Lists(minimized[..i], w) then RelaidHidden(area(w), old(frames)[w]) else old(frames)[w]
      {
        var w := minimized[i].window;
        assert minimized[i] in minimized;
        assert minimized[..i + 1] == minimized[..i] + [minimized[i]];
        assert !Lists(minimized[..i], w);
        frames := frames[w := RelaidHidden(area(w), frames[w])];
      }
      assert minimized[..|minimized|] == minimized;
    }

    /** The cached position of a window that goes away is what shifts those above it. */
    method ForgetWindow(window: Window)
      requires Valid()
      modifies `minimized
      ensures minimized == Forgotten(space, old(minimized), window)
    {
      FullStackArranged(space, minimized);
      var i := Position(Windows(), window);
      if i < |Windows()| { SinkAbove(i); }
      minimized := MinisWithout(minimized, window);
    }

    method SinkAbove(i: nat)
      modifies `minimized
      ensures minimized == Sunk(old(minimized), i)
    {
      ghost var was, sunk := minimized, Sunk(minimized, i);
      for k := 0 to |minimized|
        invariant |minimized| == |was|
        invariant forall j :: 0 <= j < k ==> minimized[j] == sunk[j]
        invariant forall j :: k <= j < |was| ==> minimized[j] == was[j]
      {
        assert sunk[k] == Stack.Sink(was[k], i);
        if minimized[k].z > i { minimized := minimized[k := minimized[k].(z := minimized[k].z - 1)]; }
      }
    }

    /** Forget, then unmap: what an X11 unmap does, and each step of a disconnect. */
    method Drop(window: Window)
      requires Valid()
      modifies `space, `minimized
      ensures Valid()
      ensures Windows() == Without1(old(Windows()), window)
      ensures space == Without1(old(space), window)
    {
      hide FullStack, Forgotten;
      Dropped(space, minimized, window);
      ForgottenAway(space, minimized, window, frames, active);
      ForgetWindow(window);
      space := Without1(space, window);
    }

    /** Xwayland exited: its windows go, one after the other, and no other moves. */
    method Disconnect(x11: set<Window>)
      requires Valid()
      modifies `space, `minimized
      ensures Valid()
      ensures Windows() == Keep(old(Windows()), Mapped(old(Windows())) - x11)
    {
      ghost var was := Windows();
      var gone := Keep(Windows(), x11);
      KeepAll(was, Mapped(was) - Mapped(gone[..0]));
      for i := 0 to |gone|
        invariant Valid()
        invariant Windows() == Keep(was, Mapped(was) - Mapped(gone[..i]))
      {
        Drop(gone[i]);
        KeepButOne(was, gone, i);
      }
      assert gone[..|gone|] == gone;
      SameKept(was, Mapped(was) - Mapped(gone), Mapped(was) - x11);
    }

    /** `full_stack`: sort by place, then insert from the lowest up. */
    method ComputeStack() returns (stack: seq<Window>)
      ensures stack == Windows()
    {
      stack := space;
      var order := ByPlace(minimized);
      for i := 0 to |order|
        invariant InsertAll(stack, order[i..]) == Windows()
      {
        assert order[i..][1..] == order[i + 1..];
        stack := Inserted(stack, if order[i].z <= |stack| then order[i].z else |stack|, order[i].window);
      }
    }

    /** Back where it was in the stack, at its remembered location, and re-fitted. */
    method Unminimize(window: Window)
      requires Valid()
      modifies `space, `minimized, `frames
      ensures Valid() && Windows() == old(Windows()) && frames.Keys == old(frames).Keys
      ensures !Lists(old(minimized), window) ==> unchanged(this)
      ensures Lists(old(minimized), window) ==>
        var i := IndexOf(old(minimized), window);
        && minimized == Removed1(old(minimized), i)
        && Mapped(space) == Mapped(old(space)) + {window}
        && forall w :: w in frames ==>
             var f := if w == window then At(old(frames)[w], old(minimized)[i].loc) else old(frames)[w];
             frames[w] == Laid(space, minimized, area(w), f, w, w in passive)
    {
      var i := IndexOf(minimized, window);
      if i == |minimized| { return; }
      Reinsert(i);
      Relayout();
    }

    /** On top, then the mapped windows above its place back over it. */
    method Reinsert(i: nat)
      requires Valid() && i < |minimized|
      modifies `space, `minimized, `frames
      ensures Valid() && Windows() == old(Windows())
      ensures minimized == Removed1(old(minimized), i)
      ensures Mapped(space) == Mapped(old(space)) + {old(minimized)[i].window}
      ensures var m := old(minimized)[i];
        m.window in old(frames) && frames == old(frames)[m.window := At(old(frames)[m.window], m.loc)]
    {
      hide FullStack, AllOnTop, Keep;
      ghost var was, wasSpace := minimized, space;
      var m := minimized[i];
      assert m in minimized;
      var stack := ComputeStack();
      var above := Above(stack, space, Position(stack, m.window));
      minimized := Removed1(minimized, i);
      frames := frames[m.window := At(frames[m.window], m.loc)];
      space := OnTop(space, m.window);
      MapAll(above);
      Reinserted(wasSpace, was, i, m, stack, space, minimized);
      StillAway(was, minimized, m, old(frames), frames, active);
    }

    method MapAll(windows: seq<Window>)
      modifies `space
      ensures space == AllOnTop(old(space), windows)
    {
      for k := 0 to |windows|
        invariant AllOnTop(space, windows[k..]) == AllOnTop(old(space), windows)
      {
        assert windows[k..][1..] == windows[k + 1..];
        space := OnTop(space, windows[k]);
      }
    }

    /** Maximize or fullscreen (or undo it), showing the window if it was minimized. */
    method Fill(window: Window, what: What, on: bool)
      requires Valid()
      modifies `space, `minimized, `frames
      ensures Valid() && frames.Keys == old(frames).Keys
      ensures window in old(space) ==>
        && minimized == old(minimized) && Mapped(space) == Mapped(old(space))
        && frames == old(frames)[window := Changed(area(window), old(frames)[window], what, on)]
        && space == if Raises(old(frames)[window], what, on) then OnTop(old(space), window) else old(space)
      ensures Lists(old(minimized), window) ==>
        && minimized == Removed1(old(minimized), IndexOf(old(minimized), window)) && Mapped(space) == Mapped(old(space)) + {window}
        && var back := At(old(frames)[window], old(minimized)[IndexOf(old(minimized), window)].loc);
           frames[window] == Changed(area(window), Relaid(area(window), back, window in passive), what, on)
      ensures window !in old(space) && !Lists(old(minimized), window) ==> unchanged(this)
    {
      hide FullStack, RelaidHidden, Changed;
      if window in space { assert forall m :: m in minimized ==> m.window != window; }
      Unminimize(window);
      assert Lists(old(minimized), window) ==> window in Mapped(space);
      if window in space { FillMapped(window, what, on); }
    }

    method FillMapped(window: Window, what: What, on: bool)
      requires Valid() && window in space
      modifies `space, `frames
      ensures Valid() && Mapped(space) == Mapped(old(space))
      ensures frames == old(frames)[window := Changed(area(window), old(frames)[window], what, on)]
      ensures space == if Raises(old(frames)[window], what, on) then OnTop(old(space), window) else old(space)
    {
      var raises := Raises(frames[window], what, on);
      frames := frames[window := Changed(area(window), frames[window], what, on)];
      if raises {
        OnTopGood(space, minimized, window);
        space := OnTop(space, window);
        forall w | w in space ensures w in frames { assert w in Mapped(space); }
      }
    }

    /** One window enters or leaves kiosk; it ends mapped, and its own layout is kept for the
        way back. */
    method KioskWindow(window: Window, on: bool)
      requires Valid() && (window in space || Lists(minimized, window))
      modifies `space, `minimized, `frames
      ensures Valid() && frames.Keys == old(frames).Keys && window in frames
      ensures Mapped(space) == Mapped(old(space)) + {window}
      ensures minimized == Shown(old(minimized), window)
      ensures Switched(area, old(frames), frames, window, on)
      ensures window in old(space) ==> frames == old(frames)[window := KioskFrame(area(window), old(frames)[window], on)]
    {
      Show(window);
      ghost var mid := frames;
      Switch(window, on);
      SwitchedFrames(area, old(frames), mid, window, on);
    }

    method Switch(window: Window, on: bool)
      requires Valid() && window in space
      modifies `space, `minimized, `frames
      ensures Valid() && minimized == old(minimized) && Mapped(space) == Mapped(old(space))
      ensures frames == old(frames)[window := KioskFrame(area(window), old(frames)[window], on)]
    {
      if on { EnterKiosk(window); } else { LeaveKiosk(window); }
    }

    method Show(window: Window)
      requires Valid() && (window in space || Lists(minimized, window))
      modifies `space, `minimized, `frames
      ensures Valid() && frames.Keys == old(frames).Keys && window in space
      ensures Mapped(space) == Mapped(old(space)) + {window}
      ensures minimized == Shown(old(minimized), window)
      ensures forall w :: w in frames && w != window ==> Kept(area(w), old(frames)[w], frames[w])
      ensures SameMode(area(window), old(frames)[window], frames[window])
      ensures window in old(space) ==> frames == old(frames)
    {
      Showing(space, minimized, window);
      Unminimize(window);
      assert window in Mapped(space);
      if Lists(old(minimized), window) {
        ShownFrames(area, old(frames), frames, old(minimized)[IndexOf(old(minimized), window)], space, minimized, passive);
      }
    }

    method EnterKiosk(window: Window)
      requires Valid() && window in space
      modifies `space, `minimized, `frames
      ensures Valid() && minimized == old(minimized) && Mapped(space) == Mapped(old(space))
      ensures frames == old(frames)[window := KioskOn(area(window), old(frames)[window])]
    {
      var f := frames[window];
      frames := frames[window := f.(before := Some(Layout(f.fullscreen, f.maximized, f.rect)))];
      Fill(window, Fullscreen, true);
    }

    method LeaveKiosk(window: Window)
      requires Valid() && window in space
      modifies `space, `minimized, `frames
      ensures Valid() && minimized == old(minimized) && Mapped(space) == Mapped(old(space))
      ensures frames == old(frames)[window := KioskOff(area(window), old(frames)[window])]
    {
      var layout := frames[window].before;
      frames := frames[window := frames[window].(before := None)];
      FillBoth(window, layout.None? || layout.value.maximized, layout.Some? && layout.value.fullscreen);
      Replace(window, layout);
    }

    method FillBoth(window: Window, maximized: bool, fullscreen: bool)
      requires Valid() && window in space
      modifies `space, `minimized, `frames
      ensures Valid() && minimized == old(minimized) && Mapped(space) == Mapped(old(space)) && window in space
      ensures frames == old(frames)[window := Changed(area(window), Changed(area(window), old(frames)[window], Maximized, maximized), Fullscreen, fullscreen)]
    {
      Fill(window, Maximized, maximized);
      assert window in Mapped(space);
      Fill(window, Fullscreen, fullscreen);
      assert window in Mapped(space);
    }

    /** The end of leaving kiosk: a newcomer gets something to unmaximize to, a floating
        window its place. */
    method Replace(window: Window, layout: Option<Layout>)
      requires Valid() && window in space
      modifies `space, `frames
      ensures Valid() && Mapped(space) == Mapped(old(space))
      ensures frames == old(frames)[window := Replaced(area(window), old(frames)[window], layout)]
    {
      frames := frames[window := Replaced(area(window), frames[window], layout)];
      if layout.Some? && !layout.value.fullscreen && !layout.value.maximized {
        OnTopGood(space, minimized, window);
        space := OnTop(space, window);
        forall w | w in space ensures w in frames { assert w in Mapped(space); }
      }
    }

    /** Every managed window is shown and switched, whatever that does to the order. */
    method SwitchAll(windows: seq<Window>, on: bool)
      requires Valid() && windows == Windows()
      modifies `space, `minimized, `frames
      ensures Valid()
      ensures Unveiled(old(space), old(minimized), space, minimized, windows, passive)
      ensures Progress(area, old(frames), frames, windows, passive, on)
      ensures old(minimized) == [] ==> Exactly(area, old(frames), frames, windows, passive, on)
    {
      UnveiledNone(space, minimized, windows, passive);
      for i := 0 to |windows|
        invariant Valid()
        invariant Unveiled(old(space), old(minimized), space, minimized, windows[..i], passive)
        invariant Progress(area, old(frames), frames, windows[..i], passive, on)
        invariant old(minimized) == [] ==> Exactly(area, old(frames), frames, windows[..i], passive, on)
      {
        FullStackArranged(old(space), old(minimized));
        Around(windows, i);
        assert windows[..i + 1] == windows[..i] + [windows[i]];
        SwitchOne(windows[i], windows[..i], windows, old(space), old(minimized), old(frames), on);
      }
      assert windows[..|windows|] == windows;
    }

    method SwitchOne(w: Window, ghost done: seq<Window>, ghost windows: seq<Window>,
                     ghost wasSpace: seq<Window>, ghost wasMinis: seq<Mini>, ghost was: map<Window, Frame>, on: bool)
      requires Valid() && w in windows && w !in done && Good(wasSpace, wasMinis) && windows == FullStack(wasSpace, wasMinis)
      requires Unveiled(wasSpace, wasMinis, space, minimized, done, passive)
      requires Progress(area, was, frames, done, passive, on)
      requires wasMinis == [] ==> Exactly(area, was, frames, done, passive, on)
      modifies `space, `minimized, `frames
      ensures Valid()
      ensures Unveiled(wasSpace, wasMinis, space, minimized, done + [w], passive)
      ensures Progress(area, was, frames, done + [w], passive, on)
      ensures wasMinis == [] ==> Exactly(area, was, frames, done + [w], passive, on)
    {
      hide FullStack, Progress, Exactly;
      if w in passive {
        PassiveMore(area, wasSpace, wasMinis, space, minimized, was, frames, done, w, passive, on);
      } else {
        ghost var mid, midSpace, midMinis := frames, space, minimized;
        Present(wasSpace, wasMinis, space, minimized, done, passive, windows, w);
        KioskWindow(w, on);
        ProgressMore(area, was, mid, frames, done, w, passive, on);
        UnveiledMore(wasSpace, wasMinis, midSpace, midMinis, space, minimized, done, w, passive);
        if wasMinis == [] { ExactlyMore(area, was, mid, frames, done, w, passive, on); }
      }
    }

    /** The mapped windows among `windows` mapped again in that order. */
    method Restack(windows: seq<Window>)
      requires Distinct(windows) && forall w :: w in space ==> w in windows
      modifies `space
      ensures space == Keep(windows, Mapped(old(space)))
    {
      ghost var was := space;
      for i := 0 to |windows|
        invariant space == AllOnTop(was, Keep(windows[..i], Mapped(was)))
        invariant forall w :: w in space <==> w in was
      {
        RestackMore(was, windows, i);
        if windows[i] in space { space := OnTop(space, windows[i]); }
      }
      assert windows[..|windows|] == windows;
      Restacked(was, windows);
    }

    /** Minimizes again what was minimized; none of them has the focus. */
    method Reminimize(names: seq<Window>)
      requires Valid() && forall w :: w in names ==> w in Windows() && active != Some(w)
      requires Distinct(names)
      modifies `space, `minimized, `active
      ensures Valid() && Windows() == old(Windows()) && active == old(active)
      ensures forall w :: Lists(minimized, w) <==> Lists(old(minimized), w) || w in names
      ensures old(minimized) == [] ==> |minimized| == |names| && forall j :: 0 <= j < |names| ==> minimized[j].window == names[j]
    {
      hide FullStack, AllOnTop, Focused, TopOf;
      for i := 0 to |names|
        invariant Valid() && Windows() == old(Windows()) && active == old(active)
        invariant forall w :: Lists(minimized, w) <==> Lists(old(minimized), w) || w in names[..i]
        invariant old(minimized) == [] ==> |minimized| == i && forall j :: 0 <= j < i ==> minimized[j].window == names[j]
      {
        var w := names[i];
        Around(names, i);
        assert names[..i + 1] == names[..i] + [w];
        FullStackArranged(space, minimized);
        ghost var was := minimized;
        Minimize(w);
        forall x ensures Lists(minimized, x) <==> Lists(was, x) || x == w { ListsMore(was, minimized, w, x); }
      }
      assert names[..|names|] == names;
    }

    /** Kiosk on or off: the order of the mapped windows and the minimized ones with their
        places come back as they were, up to the raise of the active window. */
    method SetKiosk(on: bool)
      requires Valid()
      modifies `kiosk, `space, `minimized, `active, `frames
      ensures Valid() && kiosk == on
      ensures old(kiosk) == on ==> unchanged(this)
      ensures old(kiosk) != on ==>
        && space == Focused(old(space), parents, shown, old(active))
        && active == Focusable(old(space), shown, old(active))
        && HiddenAgain(old(minimized), minimized, passive)
        && AllModed(area, old(frames), frames, old(Windows()), old(minimized), passive, on)
    {
      hide FullStack, HiddenAgain, AllModed, Focused;
      if kiosk == on { return; }
      var focus := active;
      kiosk := on;
      SwitchKiosk(on);
      FocusWindow(focus);
    }

    /** Kiosk on and off again, over all windows at once: apart from the raise of the active
        window everything is back. */
    method KioskAndBack()
      requires Valid() && !kiosk
      modifies `kiosk, `space, `minimized, `active, `frames
      ensures Valid() && !kiosk
      ensures space == Focused(old(space), parents, shown, old(active))
      ensures active == Focusable(old(space), shown, old(active))
      ensures HiddenAgain(old(minimized), minimized, passive)
      ensures frames.Keys == old(frames).Keys
      ensures forall w :: w in old(frames) && w in old(Windows()) && w !in passive ==> Returned(area(w), old(frames)[w], frames[w])
      ensures forall w :: w in old(frames) && (w !in old(Windows()) || w in passive) ==> Kept(area(w), old(frames)[w], frames[w])
      ensures old(minimized) == [] ==> forall w :: w in old(frames) && w in old(Windows()) && w !in passive ==>
        frames[w] == KioskOff(area(w), KioskOn(area(w), old(frames)[w]))
    {
      hide FullStack, Focused, Exactly;
      ghost var was, wasSpace, wasMinis := frames, space, minimized;
      SetKiosk(true);
      ghost var mid, midSpace, midMinis, midWindows := frames, space, minimized, Windows();
      FocusedTwice(wasSpace, parents, shown, old(active));
      FocusedMembers(wasSpace, parents, shown, old(active));
      AgainMembers(wasSpace, wasMinis, midSpace, midMinis, passive);
      SetKiosk(false);
      HiddenTwice(wasMinis, midMinis, minimized, passive);
      ReturnedAll(area, was, mid, frames, old(Windows()), midWindows, passive);
      if wasMinis == [] {
        NoneHidden(midMinis);
        ExactlyBack(area, was, mid, frames, old(Windows()), midWindows, passive);
      }
    }

    method SwitchKiosk(on: bool)
      requires Valid()
      modifies `space, `minimized, `active, `frames
      ensures Valid() && space == old(space) && active == old(active)
      ensures HiddenAgain(old(minimized), minimized, passive)
      ensures AllModed(area, old(frames), frames, old(Windows()), old(minimized), passive, on)
    {
      ghost var was, wasSpace := minimized, space;
      var windows := ComputeStack();
      var names := Names(minimized);
      Ordered(windows, on);
      Rehide(names, wasSpace, was, windows);
    }

    /** With the stack as it was, what was minimized is minimized where it was. */
    method Rehide(names: seq<Window>, ghost wasSpace: seq<Window>, ghost was: seq<Mini>, ghost windows: seq<Window>)
      requires Valid() && Windows() == windows
      requires Good(wasSpace, was) && windows == FullStack(wasSpace, was) && names == Names(was)
      requires active.Some? ==> forall m :: m in was ==> m.window != active.value
      requires (forall m :: m in was ==> m.window !in passive) ==> minimized == []
      requires forall w :: Lists(was, w) ==> w in windows
      requires forall w :: Lists(minimized, w) ==> Lists(was, w)
      modifies `space, `minimized, `active
      ensures Valid() && space == wasSpace && active == old(active)
      ensures HiddenAgain(was, minimized, passive)
    {
      NamesAre(was);
      Reminimize(names);
      BackInPlace(wasSpace, was, space, minimized, windows, passive);
    }

    /** All managed windows switched, mapped, and in the order of the stack again. */
    method Ordered(windows: seq<Window>, on: bool)
      requires Valid() && windows == Windows()
      modifies `space, `minimized, `frames
      ensures Valid() && Windows() == windows
      ensures (forall m :: m in old(minimized) ==> m.window !in passive) ==> minimized == []
      ensures forall w :: Lists(old(minimized), w) ==> w in windows
      ensures forall w :: Lists(minimized, w) ==> Lists(old(minimized), w)
      ensures AllModed(area, old(frames), frames, windows, old(minimized), passive, on)
    {
      hide FullStack, Keep, Unveiled, Progress, Exactly;
      SwitchAll(windows, on);
      Rearranged(old(space), old(minimized), space, minimized, windows, passive);
      Restack(windows);
    }
  }

  function KioskFrame(area: Area, f: Frame, on: bool): Frame
    requires Limits(area)
  {
    if on then KioskOn(area, f) else KioskOff(area, f)
  }

  /** Where re-layouts can leave a floating window. */
  predicate Near(area: Area, was: Rect, now: Rect) { now == was || now == ClampTo(area, was) }

  lemma NearAgain(area: Area, a: Rect, b: Rect, c: Rect)
    requires Near(area, a, b) && Near(area, b, c)
    ensures Near(area, a, c)
  {
  }

  /** What a window's frame is after entering (leaving) kiosk from `was`: it covers the output,
      with its layout remembered; or it has its layout back, a floating one at `RestoreRect` of
      its geometry up to the clamp of a later re-layout. */
  ghost predicate Moded(area: Area, was: Frame, now: Frame, on: bool) {
    if on then
      && now.fullscreen && now.rect == area.output && now.before.Some?
      && now.before.value.fullscreen == was.fullscreen && now.before.value.maximized == was.maximized
      && (!IsFilled(was) ==> Near(area, was.rect, now.before.value.geometry))
      && (was.restore.Some? ==> now.restore == was.restore)
      && (!IsFilled(was) && was.restore.None? ==> now.restore == Some(now.before.value.geometry))
    else
      && now.before.None?
      && now.fullscreen == (was.before.Some? && was.before.value.fullscreen)
      && now.maximized == (was.before.None? || was.before.value.maximized)
      && (if IsFilled(now) then now.rect == FillRect(area, now.fullscreen)
          else Limits(area) ==> Near(area, RestoreRect(area, was.before.value.geometry), now.rect))
      && (was.before.Some? && was.fullscreen && was.restore.Some? ==> now.restore == if IsFilled(now) then was.restore else None)
      && (was.before.None? ==> now.restore == Some(FillRect(area, false)))
  }

  /** Another window's turn leaves a frame's state and the rectangle it fills; a floating one
      can be clamped. */
  ghost predicate Kept(area: Area, was: Frame, now: Frame) {
    && now.fullscreen == was.fullscreen && now.maximized == was.maximized
    && now.restore == was.restore && now.before == was.before
    && (IsFilled(was) && was.rect == FillRect(area, was.fullscreen) ==> now.rect == was.rect)
    && (!IsFilled(was) ==> Near(area, was.rect, now.rect))
  }

  ghost predicate SameMode(area: Area, was: Frame, now: Frame) {
    && now.fullscreen == was.fullscreen && now.maximized == was.maximized && now.restore == was.restore && now.before == was.before
    && (!IsFilled(was) ==> Near(area, was.rect, now.rect))
  }

  lemma ModedKept(area: Area, was: Frame, mid: Frame, now: Frame, on: bool)
    requires Kept(area, mid, now)
    ensures Moded(area, was, mid, on) ==> Moded(area, was, now, on)
    ensures Kept(area, was, mid) ==> Kept(area, was, now)
  {
    if !IsFilled(mid) {
      if Kept(area, was, mid) { NearAgain(area, was.rect, mid.rect, now.rect); }
      if Moded(area, was, mid, on) && !on && Limits(area) {
        NearAgain(area, RestoreRect(area, was.before.value.geometry), mid.rect, now.rect);
      }
    }
  }

  lemma KeptModed(area: Area, was: Frame, mid: Frame, now: Frame, on: bool)
    requires Kept(area, was, mid) && Moded(area, mid, now, on)
    ensures Moded(area, was, now, on)
  {
  }

  /** What entering kiosk and leaving it again comes to: the same state, the same fill and what
      it goes back to; a floating window is at `RestoreRect` of its geometry, up to the clamps
      of the re-layouts in between. */
  ghost predicate Returned(area: Area, was: Frame, now: Frame)
    requires Limits(area)
  {
    && now.before.None? && now.fullscreen == was.fullscreen && now.maximized == was.maximized
    && (IsFilled(was) ==> now.rect == FillRect(area, was.fullscreen) && (was.restore.Some? ==> now.restore == was.restore))
    && (!IsFilled(was) ==>
          && now.restore.None?
          && exists g :: Near(area, was.rect, g) && Near(area, RestoreRect(area, g), now.rect))
  }

  lemma ModedTwice(area: Area, was: Frame, mid: Frame, now: Frame)
    requires Limits(area) && Moded(area, was, mid, true) && Moded(area, mid, now, false)
    ensures Returned(area, was, now)
  {
    if !IsFilled(was) { assert Near(area, was.rect, mid.before.value.geometry); }
  }

  /** Whether a re-layout leaves the restored window where it is. */
  predicate Steady(area: Area, rect: Rect)
    requires Limits(area)
  {
    ClampTo(area, RestoreRect(area, rect)) == RestoreRect(area, rect)
  }

  /** Kiosk there and back is exact for a settled frame, whatever is minimized, if and only if
      the clamps in between cannot move the window. */
  lemma ReturnedExactly(area: Area, was: Frame)
    requires Limits(area) && Settled(area, was)
    ensures (IsFilled(was) || Steady(area, was.rect)) <==>
      (forall now :: Returned(area, was, now) ==> now == KioskOff(area, KioskOn(area, was)))
  {
    KioskRoundTrip(area, was);
    if !IsFilled(was) && !Steady(area, was.rect) {
      var rect := ClampTo(area, RestoreRect(area, was.rect));
      Clamped(area, was, rect);
    }
    if !IsFilled(was) && Steady(area, was.rect) {
      forall g | Near(area, was.rect, g) ensures RestoreRect(area, g) == RestoreRect(area, was.rect) { SteadyAfter(area, was.rect); }
    }
  }

  lemma Clamped(area: Area, was: Frame, rect: Rect)
    requires Limits(area) && !IsFilled(was) && was.restore.None? && rect == ClampTo(area, RestoreRect(area, was.rect))
    ensures Returned(area, was, was.(before := None, rect := rect))
  {
    assert Near(area, was.rect, was.rect) && Near(area, RestoreRect(area, was.rect), rect);
  }

  lemma SteadyAfter(area: Area, rect: Rect)
    requires Limits(area) && Steady(area, rect)
    ensures RestoreRect(area, ClampTo(area, rect)) == RestoreRect(area, rect)
  {
  }

  /** A window below a minimized one has its turn first: it is filled for the re-layout that
      shows the other on entering, and floats again for the one on leaving. It comes back
      exactly if and only if it is filled or that re-layout leaves its restored place alone. */
  lemma BelowMinimized(area: Area, f: Frame)
    requires Limits(area) && Settled(area, f)
    ensures Relaid(area, KioskOff(area, Relaid(area, KioskOn(area, f), false)), false) == KioskOff(area, KioskOn(area, f))
      <==> IsFilled(f) || Steady(area, f.rect)
  {
    KioskRoundTrip(area, f);
    assert Relaid(area, KioskOn(area, f), false) == KioskOn(area, f);
  }

  /** A window of 20 pixels at the right edge comes back 44 pixels to the left. */
  lemma SmallMoves()
    ensures var area := Area(Rect(0, 0, 1000, 800), Rect(0, 0, 1000, 800), 0, 0, 0, 0, 0);
      var f := Frame(false, false, Rect(980, 100, 20, 20), None, None);
      && KioskOff(area, KioskOn(area, f)).rect == f.rect
      && Relaid(area, KioskOff(area, Relaid(area, KioskOn(area, f), false)), false).rect == Rect(936, 100, 20, 20)
  {
  }

  /** From 64 pixels each way, its title bar counted, no clamp moves a restored window. */
  lemma WideSteady(area: Area, rect: Rect)
    requires Limits(area)
    requires RestoreRect(area, rect).w >= 64 && RestoreRect(area, rect).h + area.bar >= 64
    ensures Steady(area, rect)
  {
  }

  /** Then geometry that fits comes back unchanged. */
  lemma FitsBack(area: Area, was: Frame, now: Frame)
    requires Limits(area) && Settled(area, was) && was.before.None? && Returned(area, was, now)
    requires FitsArea(area, was.rect) && was.rect.w >= 64 && was.rect.h + area.bar >= 64
    ensures now == was
  {
    RestoreSettles(area, was.rect);
    WideSteady(area, was.rect);
    ReturnedExactly(area, was);
    KioskRoundTrip(area, was);
  }

  /** `window` is in its new state; every other frame keeps its own. */
  ghost predicate Switched(area: Window -> Area, was: map<Window, Frame>, now: map<Window, Frame>, window: Window, on: bool) {
    && window in was && now.Keys == was.Keys
    && Moded(area(window), was[window], now[window], on)
    && forall w :: w in was && w != window ==> Kept(area(w), was[w], now[w])
  }

  lemma SwitchedFrames(area: Window -> Area, was: map<Window, Frame>, shown: map<Window, Frame>, window: Window, on: bool)
    requires window in was && shown.Keys == was.Keys && Limits(area(window)) && SameMode(area(window), was[window], shown[window])
    requires forall w :: w in was && w != window ==> Kept(area(w), was[w], shown[w])
    ensures Switched(area, was, shown[window := KioskFrame(area(window), shown[window], on)], window, on)
  {
    ModedBy(area(window), was[window], shown[window], on);
  }

  lemma ReturnedAll(area: Window -> Area, was: map<Window, Frame>, mid: map<Window, Frame>, now: map<Window, Frame>, windows: seq<Window>, again: seq<Window>, passive: set<Window>)
    requires forall w :: Limits(area(w))
    requires Progress(area, was, mid, windows, passive, true) && Progress(area, mid, now, again, passive, false)
    requires forall w :: w in again <==> w in windows
    ensures now.Keys == was.Keys
    ensures forall w :: w in was && w in windows && w !in passive ==> Returned(area(w), was[w], now[w])
    ensures forall w :: w in was && (w !in windows || w in passive) ==> Kept(area(w), was[w], now[w])
  {
    forall w | w in was
      ensures w in windows && w !in passive ==> Returned(area(w), was[w], now[w])
      ensures w !in windows || w in passive ==> Kept(area(w), was[w], now[w])
    {
      assert w in mid;
      if w in windows && w !in passive {
        ModedTwice(area(w), was[w], mid[w], now[w]);
      } else {
        ModedKept(area(w), was[w], mid[w], now[w], true);
      }
    }
  }

  lemma ExactlyBack(area: Window -> Area, was: map<Window, Frame>, mid: map<Window, Frame>, now: map<Window, Frame>, windows: seq<Window>, again: seq<Window>, passive: set<Window>)
    requires forall w :: Limits(area(w))
    requires Exactly(area, was, mid, windows, passive, true) && Exactly(area, mid, now, again, passive, false)
    requires forall w :: w in again <==> w in windows
    ensures forall w :: w in was && w in windows && w !in passive ==> now[w] == KioskOff(area(w), KioskOn(area(w), was[w]))
  {
    forall w | w in was && w in windows && w !in passive ensures now[w] == KioskOff(area(w), KioskOn(area(w), was[w])) {
      assert w in mid && mid[w] == KioskOn(area(w), was[w]);
    }
  }

  lemma NoneHidden(minis: seq<Mini>)
    ensures minis != [] ==> Places(minis) != {}
  {
    if minis != [] { assert (minis[0].window, minis[0].z) in Places(minis); }
  }

  function Names(minis: seq<Mini>): (r: seq<Window>)
    ensures |r| == |minis| && forall i :: 0 <= i < |minis| ==> r[i] == minis[i].window
  {
    seq(|minis|, i requires 0 <= i < |minis| => minis[i].window)
  }

  lemma NamesAre(minis: seq<Mini>)
    requires OneEach(minis)
    ensures Distinct(Names(minis))
    ensures forall w :: w in Names(minis) <==> Lists(minis, w)
  {
    forall w | w in Names(minis) ensures Lists(minis, w) {
      var i :| 0 <= i < |minis| && Names(minis)[i] == w;
      assert minis[i] in minis;
    }
    forall w | Lists(minis, w) ensures w in Names(minis) {
      var m :| m in minis && m.window == w;
      var i :| 0 <= i < |minis| && minis[i] == m;
      assert Names(minis)[i] == w;
    }
  }

  lemma {:induction false} AllOnTopMore(space: seq<Window>, ws: seq<Window>, w: Window)
    ensures AllOnTop(space, ws + [w]) == OnTop(AllOnTop(space, ws), w)
    decreases |ws|
  {
    if ws == [] {
      assert [] + [w] == [w] && [w][1..] == [];
      assert AllOnTop(space, [w]) == AllOnTop(OnTop(space, w), []);
    } else {
      assert (ws + [w])[1..] == ws[1..] + [w];
      AllOnTopMore(OnTop(space, ws[0]), ws[1..], w);
    }
  }

  lemma RestackMore(space: seq<Window>, windows: seq<Window>, i: nat)
    requires i < |windows|
    ensures windows[i] in space ==>
      AllOnTop(space, Keep(windows[..i + 1], Mapped(space))) == OnTop(AllOnTop(space, Keep(windows[..i], Mapped(space))), windows[i])
    ensures windows[i] !in space ==> Keep(windows[..i + 1], Mapped(space)) == Keep(windows[..i], Mapped(space))
  {
    KeepNext(windows, i, Mapped(space));
    if windows[i] in space { AllOnTopMore(space, Keep(windows[..i], Mapped(space)), windows[i]); }
  }

  lemma KeepNext(s: seq<Window>, i: nat, kept: set<Window>)
    requires i < |s|
    ensures Keep(s[..i + 1], kept) == Keep(s[..i], kept) + (if s[i] in kept then [s[i]] else [])
    ensures s[i] !in kept ==> Keep(s[..i + 1], kept) == Keep(s[..i], kept)
  {
    assert s[..i + 1] == s[..i] + [s[i]];
    KeepAppend(s[..i], s[i], kept);
  }

  lemma Restacked(space: seq<Window>, windows: seq<Window>)
    requires Distinct(windows) && forall w :: w in space ==> w in windows
    ensures AllOnTop(space, Keep(windows, Mapped(space))) == Keep(windows, Mapped(space))
  {
    var kept := Keep(windows, Mapped(space));
    KeepDistinct(windows, Mapped(space));
    AllOnTopIs(space, kept);
    KeepDisjoint(space, Mapped(space) - Mapped(kept));
  }

  lemma ListsMore(was: seq<Mini>, now: seq<Mini>, w: Window, x: Window)
    requires now == was || (|now| == |was| + 1 && now[..|was|] == was && now[|was|].window == w)
    requires now == was ==> Lists(was, w)
    ensures Lists(now, x) <==> Lists(was, x) || x == w
  {
    if now != was { assert now == was + [now[|was|]]; }
  }

  /** Which windows are minimized, each with its place in the stack. */
  ghost function Places(minis: seq<Mini>): set<(Window, nat)> {
    set m | m in minis :: (m.window, m.z)
  }

  ghost predicate HiddenAgain(was: seq<Mini>, now: seq<Mini>, passive: set<Window>) {
    Places(now) == Places(was) && ((forall m :: m in was ==> m.window !in passive) ==> InOrder(was, now))
  }

  lemma HiddenTwice(was: seq<Mini>, mid: seq<Mini>, now: seq<Mini>, passive: set<Window>)
    requires HiddenAgain(was, mid, passive) && HiddenAgain(mid, now, passive)
    ensures HiddenAgain(was, now, passive)
  {
    if forall m :: m in was ==> m.window !in passive {
      forall m | m in mid ensures m.window !in passive { assert (m.window, m.z) in Places(mid); }
    }
  }

  /** The same windows are managed, whatever their order. */
  lemma AgainMembers(space: seq<Window>, minis: seq<Mini>, now: seq<Window>, nowMinis: seq<Mini>, passive: set<Window>)
    requires Good(space, minis) && Good(now, nowMinis) && HiddenAgain(minis, nowMinis, passive)
    requires forall w :: w in now <==> w in space
    ensures forall w :: w in FullStack(now, nowMinis) <==> w in FullStack(space, minis)
  {
    SameListed(minis, nowMinis);
    SameListed(nowMinis, minis);
    forall w ensures w in FullStack(now, nowMinis) <==> w in FullStack(space, minis) {
      Members(space, minis, w);
      Members(now, nowMinis, w);
    }
  }

  lemma SameListed(minis: seq<Mini>, others: seq<Mini>)
    requires Places(others) == Places(minis)
    ensures forall w :: Lists(minis, w) ==> Lists(others, w)
  {
    forall w | Lists(minis, w) ensures Lists(others, w) {
      var m :| m in minis && m.window == w;
      assert (w, m.z) in Places(others);
    }
  }

  ghost predicate AllModed(area: Window -> Area, was: map<Window, Frame>, now: map<Window, Frame>, windows: seq<Window>, minis: seq<Mini>, passive: set<Window>, on: bool) {
    Progress(area, was, now, windows, passive, on) && (minis == [] ==> Exactly(area, was, now, windows, passive, on))
  }

  ghost predicate InOrder(was: seq<Mini>, now: seq<Mini>) {
    |now| == |was| && forall i :: 0 <= i < |was| ==> now[i].window == was[i].window && now[i].z == was[i].z
  }

  lemma {:induction false} SameLength(a: seq<Window>, b: seq<Window>)
    requires Distinct(a) && Distinct(b) && forall x :: x in a <==> x in b
    ensures |a| == |b|
    decreases |a|
  {
    assert b != [] ==> b[0] in b;
    if a != [] {
      var w := a[0];
      assert w in b;
      Around(a, 0);
      Without1Keeps(b, w);
      KeepDistinct(b, Mapped(b) - {w});
      Without1Length(b, w);
      assert forall x :: x in a <==> x == w || x in a[1..];
      SameLength(a[1..], Without1(b, w));
    }
  }

  /** The stack's members are the mapped and the minimized windows. */
  lemma Members(space: seq<Window>, minis: seq<Mini>, w: Window)
    requires Good(space, minis)
    ensures w in FullStack(space, minis) <==> w in space || Lists(minis, w)
  {
    var stack := FullStack(space, minis);
    FullStackArranged(space, minis);
    if w in space { KeptIn(stack, Mapped(space), w); }
    if Lists(minis, w) {
      var m :| m in minis && m.window == w;
      assert stack[m.z] == w;
    }
  }

  lemma KeptIn(stack: seq<Window>, kept: set<Window>, w: Window)
    requires w in Keep(stack, kept)
    ensures w in stack
  {
  }

  lemma SameMembers(space: seq<Window>, minis: seq<Mini>, now: seq<Window>, nowMinis: seq<Mini>, passive: set<Window>)
    requires Good(space, minis) && Good(now, nowMinis)
    requires Unveiled(space, minis, now, nowMinis, FullStack(space, minis), passive)
    ensures forall w :: w in FullStack(now, nowMinis) <==> w in FullStack(space, minis)
    ensures |FullStack(space, minis)| == |now| + |nowMinis|
  {
    forall w ensures w in FullStack(now, nowMinis) <==> w in FullStack(space, minis) {
      Members(space, minis, w);
      Members(now, nowMinis, w);
    }
    FullStackArranged(space, minis);
    FullStackArranged(now, nowMinis);
    SameLength(FullStack(now, nowMinis), FullStack(space, minis));
  }

  lemma Rearranged(space: seq<Window>, minis: seq<Mini>, now: seq<Window>, nowMinis: seq<Mini>, windows: seq<Window>, passive: set<Window>)
    requires Good(space, minis) && windows == FullStack(space, minis) && Good(now, nowMinis)
    requires Unveiled(space, minis, now, nowMinis, windows, passive)
    ensures Distinct(windows) && forall w :: w in now ==> w in windows
    ensures Good(Keep(windows, Mapped(now)), nowMinis)
    ensures FullStack(Keep(windows, Mapped(now)), nowMinis) == windows
    ensures (forall m :: m in minis ==> m.window !in passive) ==> nowMinis == []
    ensures forall w :: Lists(minis, w) ==> w in windows
    ensures forall w :: Lists(nowMinis, w) ==> Lists(minis, w)
  {
    SameMembers(space, minis, now, nowMinis, passive);
    FullStackArranged(space, minis);
    forall w ensures w in windows <==> w in now || Lists(nowMinis, w) { Members(now, nowMinis, w); }
    forall w | Lists(minis, w) ensures w in windows { Members(space, minis, w); }
    if (forall m :: m in minis ==> m.window !in passive) && nowMinis != [] {
      assert nowMinis[0] in nowMinis;
      assert Lists(minis, nowMinis[0].window);
    }
    InOldOrder(windows, now, nowMinis);
  }

  /** Mapped in the stack's own order, the windows make up the stack. */
  lemma InOldOrder(windows: seq<Window>, now: seq<Window>, nowMinis: seq<Mini>)
    requires Distinct(windows) && Good(now, nowMinis)
    requires |windows| == |now| + |nowMinis|
    requires forall w :: w in windows <==> w in now || Lists(nowMinis, w)
    requires forall m :: m in nowMinis ==> m.z < |windows| && windows[m.z] == m.window
    ensures Good(Keep(windows, Mapped(now)), nowMinis)
    ensures FullStack(Keep(windows, Mapped(now)), nowMinis) == windows
  {
    var order := Keep(windows, Mapped(now));
    KeepDistinct(windows, Mapped(now));
    assert forall w :: w in order <==> w in now;
    SameLength(order, now);
    SameMapped(order, now);
    ArrangedStacked(windows, order, nowMinis);
  }

  lemma SameMapped(a: seq<Window>, b: seq<Window>)
    requires forall w :: w in a <==> w in b
    ensures Mapped(a) == Mapped(b)
  {
  }

  lemma SamePlace(stack: seq<Window>, m: Mini, n: Mini)
    requires Distinct(stack) && m.z < |stack| && n.z < |stack| && stack[m.z] == m.window && stack[n.z] == n.window
    requires m.window == n.window
    ensures m.z == n.z
  {
  }

  lemma SpaceIsKept(space: seq<Window>, minis: seq<Mini>, now: seq<Window>, nowMinis: seq<Mini>)
    requires Good(space, minis) && Good(now, nowMinis) && FullStack(now, nowMinis) == FullStack(space, minis)
    requires forall w :: Lists(nowMinis, w) <==> Lists(minis, w)
    ensures now == space
  {
    forall w ensures w in now <==> w in space {
      Members(space, minis, w);
      Members(now, nowMinis, w);
      assert w in now ==> !Lists(nowMinis, w);
      assert w in space ==> !Lists(minis, w);
    }
    SameMapped(now, space);
    FullStackArranged(space, minis);
    FullStackArranged(now, nowMinis);
  }

  lemma PlacesKept(minis: seq<Mini>, nowMinis: seq<Mini>, windows: seq<Window>)
    requires Distinct(windows)
    requires forall m :: m in minis || m in nowMinis ==> m.z < |windows| && windows[m.z] == m.window
    requires forall w :: Lists(nowMinis, w) <==> Lists(minis, w)
    ensures Places(nowMinis) <= Places(minis)
    ensures |nowMinis| == |minis| && (forall i :: 0 <= i < |minis| ==> nowMinis[i].window == minis[i].window) ==> InOrder(minis, nowMinis)
  {
    forall n | n in nowMinis ensures (n.window, n.z) in Places(minis) {
      assert Lists(nowMinis, n.window);
      var m :| m in minis && m.window == n.window;
      SamePlace(windows, m, n);
    }
    if |nowMinis| == |minis| && forall i :: 0 <= i < |minis| ==> nowMinis[i].window == minis[i].window {
      forall i | 0 <= i < |minis| ensures nowMinis[i].z == minis[i].z {
        assert minis[i] in minis && nowMinis[i] in nowMinis;
        SamePlace(windows, minis[i], nowMinis[i]);
      }
    }
  }

  lemma BackInPlace(space: seq<Window>, minis: seq<Mini>, now: seq<Window>, nowMinis: seq<Mini>, windows: seq<Window>, passive: set<Window>)
    requires Good(space, minis) && windows == FullStack(space, minis) && Good(now, nowMinis) && FullStack(now, nowMinis) == windows
    requires forall w :: Lists(nowMinis, w) <==> Lists(minis, w)
    requires (forall m :: m in minis ==> m.window !in passive) ==> |nowMinis| == |minis| && forall i :: 0 <= i < |minis| ==> nowMinis[i].window == minis[i].window
    ensures now == space && HiddenAgain(minis, nowMinis, passive)
  {
    SpaceIsKept(space, minis, now, nowMinis);
    HiddenInPlace(space, minis, now, nowMinis, windows);
  }

  lemma HiddenInPlace(space: seq<Window>, minis: seq<Mini>, now: seq<Window>, nowMinis: seq<Mini>, windows: seq<Window>)
    requires Good(space, minis) && windows == FullStack(space, minis) && Good(now, nowMinis) && FullStack(now, nowMinis) == windows
    requires forall w :: Lists(nowMinis, w) <==> Lists(minis, w)
    ensures Places(nowMinis) == Places(minis)
    ensures |nowMinis| == |minis| && (forall i :: 0 <= i < |minis| ==> nowMinis[i].window == minis[i].window) ==> InOrder(minis, nowMinis)
  {
    FullStackArranged(space, minis);
    FullStackArranged(now, nowMinis);
    PlacesKept(minis, nowMinis, windows);
    PlacesKept(nowMinis, minis, windows);
  }

  /** The managed windows among `done` have left the minimized list for the space. */
  ghost predicate Unveiled(space: seq<Window>, minis: seq<Mini>, nowSpace: seq<Window>, nowMinis: seq<Mini>, done: seq<Window>, passive: set<Window>) {
    && (forall m :: m in nowMinis <==> m in minis && (m.window in passive || m.window !in done))
    && (forall w :: w in nowSpace <==> w in space || (Lists(minis, w) && w in done && w !in passive))
  }

  lemma UnveiledNone(space: seq<Window>, minis: seq<Mini>, windows: seq<Window>, passive: set<Window>)
    ensures Unveiled(space, minis, space, minis, windows[..0], passive)
  {
  }

  lemma Present(space: seq<Window>, minis: seq<Mini>, nowSpace: seq<Window>, nowMinis: seq<Mini>, done: seq<Window>, passive: set<Window>, windows: seq<Window>, w: Window)
    requires Good(space, minis) && windows == FullStack(space, minis) && w in windows && w !in done
    requires Unveiled(space, minis, nowSpace, nowMinis, done, passive)
    ensures w in nowSpace || Lists(nowMinis, w)
    ensures nowMinis != [] ==> minis != []
    ensures w in nowSpace ==> w in space
  {
    FullStackArranged(space, minis);
    if w !in space {
      var m :| m in minis && m.window == w;
      assert m in nowMinis;
    }
    if nowMinis != [] { assert nowMinis[0] in nowMinis; }
  }

  lemma UnveiledMore(space: seq<Window>, minis: seq<Mini>, midSpace: seq<Window>, midMinis: seq<Mini>, nowSpace: seq<Window>, nowMinis: seq<Mini>, done: seq<Window>, w: Window, passive: set<Window>)
    requires Unveiled(space, minis, midSpace, midMinis, done, passive) && w !in passive
    requires OneEach(midMinis) && nowMinis == Shown(midMinis, w) && Mapped(nowSpace) == Mapped(midSpace) + {w}
    requires w in space || Lists(minis, w)
    ensures Unveiled(space, minis, nowSpace, nowMinis, done + [w], passive)
  {
    ShownHas(midMinis, w);
    forall x ensures x in nowSpace <==> x in midSpace || x == w {
      assert x in nowSpace <==> x in Mapped(nowSpace);
    }
  }

  lemma ShownHas(minis: seq<Mini>, w: Window)
    requires OneEach(minis)
    ensures forall m :: m in Shown(minis, w) <==> m in minis && m.window != w
  {
    if IndexOf(minis, w) < |minis| { LessMinis(minis, IndexOf(minis, w)); }
  }

  ghost predicate Progress(area: Window -> Area, was: map<Window, Frame>, now: map<Window, Frame>, done: seq<Window>, passive: set<Window>, on: bool) {
    && now.Keys == was.Keys
    && forall w :: w in was ==>
         if w in done && w !in passive then Moded(area(w), was[w], now[w], on) else Kept(area(w), was[w], now[w])
  }

  lemma ProgressMore(area: Window -> Area, was: map<Window, Frame>, mid: map<Window, Frame>, now: map<Window, Frame>, done: seq<Window>, w: Window, passive: set<Window>, on: bool)
    requires Progress(area, was, mid, done, passive, on) && Switched(area, mid, now, w, on) && w !in done && w !in passive
    ensures Progress(area, was, now, done + [w], passive, on)
  {
    forall x | x in was
      ensures if x in done + [w] && x !in passive then Moded(area(x), was[x], now[x], on) else Kept(area(x), was[x], now[x])
    {
      assert x in done + [w] <==> x in done || x == w;
      assert x in mid;
      if x == w {
        KeptModed(area(x), was[x], mid[x], now[x], on);
      } else {
        ModedKept(area(x), was[x], mid[x], now[x], on);
      }
    }
  }

  /** With nothing minimized, entering and leaving kiosk is each window's own business. */
  ghost predicate Exactly(area: Window -> Area, was: map<Window, Frame>, now: map<Window, Frame>, done: seq<Window>, passive: set<Window>, on: bool)
  {
    && now.Keys == was.Keys
    && forall w :: w in was && Limits(area(w)) ==>
         now[w] == if w in done && w !in passive then KioskFrame(area(w), was[w], on) else was[w]
  }

  lemma ExactlyMore(area: Window -> Area, was: map<Window, Frame>, mid: map<Window, Frame>, now: map<Window, Frame>, done: seq<Window>, w: Window, passive: set<Window>, on: bool)
    requires Exactly(area, was, mid, done, passive, on) && w in was && w !in done && w !in passive && Limits(area(w))
    requires now == mid[w := KioskFrame(area(w), mid[w], on)]
    ensures Exactly(area, was, now, done + [w], passive, on)
  {
    assert forall x :: x in done + [w] <==> x in done || x == w;
  }

  /** A menu or tooltip is passed over. */
  lemma PassiveMore(area: Window -> Area, space: seq<Window>, minis: seq<Mini>, nowSpace: seq<Window>, nowMinis: seq<Mini>,
                    was: map<Window, Frame>, now: map<Window, Frame>, done: seq<Window>, w: Window, passive: set<Window>, on: bool)
    requires w in passive
    ensures Unveiled(space, minis, nowSpace, nowMinis, done, passive) ==> Unveiled(space, minis, nowSpace, nowMinis, done + [w], passive)
    ensures Progress(area, was, now, done, passive, on) ==> Progress(area, was, now, done + [w], passive, on)
    ensures Exactly(area, was, now, done, passive, on) ==> Exactly(area, was, now, done + [w], passive, on)
  {
    assert forall x :: x in done + [w] <==> x in done || x == w;
  }

  /** With `m` mapped again, a re-layout of all. */
  lemma ShownFrames(area: Window -> Area, was: map<Window, Frame>, now: map<Window, Frame>, m: Mini, space: seq<Window>, minis: seq<Mini>, passive: set<Window>)
    requires now.Keys == was.Keys && Away(m, was, None) && m.window in space
    requires forall w :: w in now ==> now[w] == Laid(space, minis, area(w), if w == m.window then At(was[w], m.loc) else was[w], w, w in passive)
    ensures SameMode(area(m.window), was[m.window], now[m.window])
    ensures forall w :: w in now && w != m.window ==> Kept(area(w), was[w], now[w])
  {
    assert At(was[m.window], m.loc) == was[m.window];
    forall w | w in now && w != m.window ensures Kept(area(w), was[w], now[w]) {
      LaidKept(space, minis, area(w), was[w], w, w in passive);
    }
  }

  lemma LaidKept(space: seq<Window>, minis: seq<Mini>, area: Area, f: Frame, w: Window, passive: bool)
    ensures Kept(area, f, Laid(space, minis, area, f, w, passive))
  {
  }

  lemma ModedBy(area: Area, was: Frame, shown: Frame, on: bool)
    requires Limits(area) && SameMode(area, was, shown)
    ensures Moded(area, was, KioskFrame(area, shown, on), on)
  {
  }

  function Shown(minis: seq<Mini>, w: Window): seq<Mini> {
    var i := IndexOf(minis, w);
    if i == |minis| then minis else Removed1(minis, i)
  }

  lemma Showing(space: seq<Window>, minis: seq<Mini>, w: Window)
    requires Good(space, minis)
    ensures w in space ==> !Lists(minis, w)
    ensures w in space ==> Mapped(space) + {w} == Mapped(space)
  {
  }

  function IndexOf(minis: seq<Mini>, w: Window): (i: nat)
    ensures i <= |minis|
    ensures i < |minis| <==> Lists(minis, w)
    ensures i < |minis| ==> minis[i].window == w
  {
    if minis == [] then 0
    else if minis[0].window == w then assert minis[0] in minis; 0
    else
      assert forall m :: m in minis <==> m == minis[0] || m in minis[1..];
      1 + IndexOf(minis[1..], w)
  }

  function At(f: Frame, loc: Point): Frame { f.(rect := f.rect.(x := loc.x, y := loc.y)) }

  lemma StillAway(minis: seq<Mini>, less: seq<Mini>, m: Mini, was: map<Window, Frame>, now: map<Window, Frame>, active: Option<Window>)
    requires (forall x :: x in minis ==> Away(x, was, active)) && (forall x :: x in less ==> x in minis)
    requires m.window in was && now == was[m.window := At(was[m.window], m.loc)] && Away(m, was, active)
    ensures now == was && forall x :: x in less ==> Away(x, now, active)
  {
    assert At(was[m.window], m.loc) == was[m.window];
  }

  lemma Reinserted(space: seq<Window>, minis: seq<Mini>, i: nat, m: Mini, stack: seq<Window>, q: seq<Window>, less: seq<Mini>)
    requires Good(space, minis) && i < |minis| && m == minis[i] && stack == FullStack(space, minis) && less == Removed1(minis, i)
    requires q == AllOnTop(OnTop(space, m.window), Above(stack, space, Position(stack, m.window)))
    ensures m in minis && forall x :: x in less ==> x in minis
    ensures Good(q, less) && FullStack(q, less) == stack
    ensures Mapped(q) == Mapped(space) + {m.window} && forall w :: w in q ==> w in space || w == m.window
  {
    UnminimizeStack(space, minis, i);
    UnminimizedMapped(stack, space, minis, i);
    LessMinis(minis, i);
    assert forall w :: w in q ==> w in Mapped(q);
  }

  lemma UnminimizedMapped(stack: seq<Window>, space: seq<Window>, minis: seq<Mini>, i: nat)
    requires Good(space, minis) && i < |minis| && stack == FullStack(space, minis)
    ensures Mapped(AllOnTop(OnTop(space, minis[i].window), Above(stack, space, minis[i].z))) == Mapped(space) + {minis[i].window}
  {
    var m := minis[i];
    FullStackArranged(space, minis);
    assert m in minis;
    UnminimizedSpace(stack, space, m.window, m.z);
    KeptMapped(stack, space, m.window);
  }

  lemma Dropped(space: seq<Window>, minis: seq<Mini>, w: Window)
    requires Good(space, minis)
    ensures Good(Without1(space, w), Forgotten(space, minis, w))
    ensures FullStack(Without1(space, w), Forgotten(space, minis, w)) == Without1(FullStack(space, minis), w)
  {
    if w in FullStack(space, minis) { ForgetStack(space, minis, w); } else { Stranger(space, minis, w); }
  }

  lemma KeepButOne(was: seq<Window>, gone: seq<Window>, i: nat)
    requires i < |gone|
    ensures Keep(was, Mapped(was) - Mapped(gone[..i + 1])) == Without1(Keep(was, Mapped(was) - Mapped(gone[..i])), gone[i])
  {
    KeepLess(was, Mapped(was) - Mapped(gone[..i]), gone[i]);
    assert gone[..i + 1] == gone[..i] + [gone[i]];
    assert Mapped(was) - Mapped(gone[..i + 1]) == (Mapped(was) - Mapped(gone[..i])) - {gone[i]};
  }

  /** A window in neither list is forgotten and unmapped without a trace. */
  lemma Stranger(space: seq<Window>, minis: seq<Mini>, w: Window)
    requires Good(space, minis) && w !in FullStack(space, minis)
    ensures w !in space && Forgotten(space, minis, w) == minis && Without1(space, w) == space
  {
    var stack := FullStack(space, minis);
    FullStackArranged(space, minis);
    assert forall x :: x in Keep(stack, Mapped(space)) ==> x in stack;
    assert forall m :: m in minis ==> m.window != w;
    NoneWithout(minis, w);
  }

  lemma ForgottenFrom(space: seq<Window>, minis: seq<Mini>, w: Window, m: Mini)
    requires m in Forgotten(space, minis, w)
    ensures exists o :: o in minis && o.window == m.window && o.loc == m.loc
  {
    var i := Position(FullStack(space, minis), w);
    assert m in minis || m in Sunk(minis, i);
    if m in Sunk(minis, i) {
      var k :| 0 <= k < |minis| && Sunk(minis, i)[k] == m;
      assert minis[k] in minis;
    }
  }

  lemma ForgottenAway(space: seq<Window>, minis: seq<Mini>, w: Window, frames: map<Window, Frame>, active: Option<Window>)
    requires forall m :: m in minis ==> Away(m, frames, active)
    ensures forall m :: m in Forgotten(space, minis, w) ==> Away(m, frames, active)
  {
    forall m | m in Forgotten(space, minis, w) ensures Away(m, frames, active) {
      ForgottenFrom(space, minis, w, m);
      var o :| o in minis && o.window == m.window && o.loc == m.loc;
    }
  }
}
