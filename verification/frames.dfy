/** Maximized and fullscreen windows, the floating geometry they go back to, and the layout
    kiosk mode keeps for each window. */
module Frames {
  import opened Common

  const I32_MAX := 0x7fff_ffff

  datatype Rect = Rect(x: int, y: int, w: int, h: int)

  /** The output, the part of it that panels leave free, the height of the title bar drawn
      for the window, and the client's size limits (0: none). */
  datatype Area = Area(output: Rect, work: Rect, bar: int, minW: int, minH: int, maxW: int, maxH: int)

  datatype What = Maximized | Fullscreen
  datatype Layout = Layout(fullscreen: bool, maximized: bool, geometry: Rect)

  /** `rect` is where the window is and the size it was told; `restore` what it goes back to. */
  datatype Frame = Frame(fullscreen: bool, maximized: bool, rect: Rect, restore: Option<Rect>, before: Option<Layout>)

  function Clamp(v: int, lo: int, hi: int): (r: int)
    requires lo <= hi
    ensures lo <= r <= hi && (lo <= v <= hi ==> r == v)
  {
    if v < lo then lo else if v > hi then hi else v
  }

  function Max(a: int, b: int): int { if a < b then b else a }
  function Min(a: int, b: int): int { if a < b then a else b }

  /** The whole output, or the work area under the title bar. */
  function FillRect(area: Area, fullscreen: bool): Rect {
    if fullscreen then area.output
    else area.work.(y := area.work.y + area.bar, h := area.work.h - area.bar)
  }

  function Constrain(v: int, min: int, max: int): int
    requires min <= I32_MAX
  {
    var lo := Max(min, 1);
    Clamp(v, lo, if max == 0 then I32_MAX else Max(max, lo))
  }

  ghost predicate Limits(area: Area) { area.minW <= I32_MAX && area.minH <= I32_MAX }

  /** Inside the work area if it fits, at its top-left edge if the client's minimum does not. */
  function RestoreRect(area: Area, rect: Rect): Rect
    requires Limits(area)
  {
    var work := FillRect(area, false);
    var w := Constrain(Min(rect.w, work.w), area.minW, area.maxW);
    var h := Constrain(Min(rect.h, work.h), area.minH, area.maxH);
    Rect(Clamp(rect.x, work.x, Max(work.x + work.w - w, work.x)), Clamp(rect.y, work.y, Max(work.y + work.h - h, work.y)), w, h)
  }

  ghost predicate Allowed(v: int, min: int, max: int) { v >= Max(min, 1) && (if max == 0 then v <= I32_MAX else v <= Max(max, Max(min, 1))) }

  ghost predicate FitsArea(area: Area, rect: Rect) {
    var work := FillRect(area, false);
    && Allowed(rect.w, area.minW, area.maxW) && Allowed(rect.h, area.minH, area.maxH)
    && work.x <= rect.x && rect.x + rect.w <= work.x + work.w
    && work.y <= rect.y && rect.y + rect.h <= work.y + work.h
  }

  /** Geometry that fits is left alone; what comes out is within the limits, and fits when
      the limits allow it; restoring twice is restoring once. */
  lemma RestoreSettles(area: Area, rect: Rect)
    requires Limits(area)
    ensures var r := RestoreRect(area, rect);
      && (FitsArea(area, rect) ==> r == rect)
      && Allowed(r.w, area.minW, area.maxW) && Allowed(r.h, area.minH, area.maxH)
      && (Max(area.minW, 1) <= area.work.w && Max(area.minH, 1) <= area.work.h - area.bar ==> FitsArea(area, r))
      && RestoreRect(area, r) == r
  {
    ConstrainTwice(rect.w, area.work.w, area.minW, area.maxW);
    ConstrainTwice(rect.h, area.work.h - area.bar, area.minH, area.maxH);
  }

  function Off(a: int, b: int): nat { if a < b then b - a else a - b }

  /** `r` is the allowed size next to `v` that the space holds, the least allowed one if it
      holds none. */
  ghost predicate NearestSize(r: int, v: int, space: int, min: int, max: int) {
    && Allowed(r, min, max)
    && (r <= space || forall u :: Allowed(u, min, max) ==> r <= u && space < u)
    && (forall u :: Allowed(u, min, max) && u <= space ==> Off(r, v) <= Off(u, v))
  }

  /** `r` is the place next to `v` from which `size` stays inside, the near edge if none does. */
  ghost predicate NearestPlace(r: int, v: int, edge: int, space: int, size: int) {
    && edge <= r && (r + size <= edge + space || (size > space && r == edge))
    && (forall u :: edge <= u && u + size <= edge + space ==> Off(r, v) <= Off(u, v))
  }

  lemma ConstrainNearest(v: int, space: int, min: int, max: int)
    requires min <= I32_MAX
    ensures NearestSize(Constrain(Min(v, space), min, max), v, space, min, max)
  {
    var lo := Max(min, 1);
    assert Allowed(lo, min, max);
  }

  lemma ClampNearest(v: int, edge: int, space: int, size: int)
    ensures NearestPlace(Clamp(v, edge, Max(edge + space - size, edge)), v, edge, space, size)
  {
  }

  /** What is restored is the rectangle next to the given one, side by side, among those the
      client allows and the work area holds. */
  lemma RestoreNearest(area: Area, rect: Rect)
    requires Limits(area)
    ensures var r, work := RestoreRect(area, rect), Rect(area.work.x, area.work.y + area.bar, area.work.w, area.work.h - area.bar);
      && NearestSize(r.w, rect.w, work.w, area.minW, area.maxW) && NearestSize(r.h, rect.h, work.h, area.minH, area.maxH)
      && NearestPlace(r.x, rect.x, work.x, work.w, r.w) && NearestPlace(r.y, rect.y, work.y, work.h, r.h)
  {
    ConstrainNearest(rect.w, area.work.w, area.minW, area.maxW);
    ConstrainNearest(rect.h, area.work.h - area.bar, area.minH, area.maxH);
    var r := RestoreRect(area, rect);
    ClampNearest(rect.x, area.work.x, area.work.w, r.w);
    ClampNearest(rect.y, area.work.y + area.bar, area.work.h - area.bar, r.h);
  }

  /** No other size and no other place is: one on each side of `v`, equally far, would leave
      `v` itself between them. */
  lemma SizeUnique(r: int, q: int, v: int, space: int, min: int, max: int)
    requires NearestSize(r, v, space, min, max) && NearestSize(q, v, space, min, max)
    ensures r == q
  {
    assert Allowed(v, min, max) && v <= space ==> Off(r, v) <= Off(v, v);
    assert Allowed(r, min, max) && Allowed(q, min, max);
  }

  lemma PlaceUnique(r: int, q: int, v: int, edge: int, space: int, size: int)
    requires NearestPlace(r, v, edge, space, size) && NearestPlace(q, v, edge, space, size)
    ensures r == q
  {
    assert edge <= v && v + size <= edge + space ==> Off(r, v) <= Off(v, v);
    assert r + size <= edge + space ==> Off(q, v) <= Off(r, v);
    assert q + size <= edge + space ==> Off(r, v) <= Off(q, v);
  }

  lemma ConstrainTwice(v: int, space: int, min: int, max: int)
    requires min <= I32_MAX
    ensures var r := Constrain(Min(v, space), min, max);
      && Constrain(Min(r, space), min, max) == r && Allowed(r, min, max)
      && (Max(min, 1) <= space ==> r <= space)
      && (Allowed(v, min, max) && v <= space ==> r == v)
  {
  }

  // ----- filling and back

  function Filled(area: Area, f: Frame, what: What): Frame {
    var geo := FillRect(area, what.Fullscreen? || f.fullscreen);
    f.(restore := if f.restore.None? then Some(f.rect) else f.restore,
       fullscreen := f.fullscreen || what.Fullscreen?, maximized := f.maximized || what.Maximized?, rect := geo)
  }

  function Unfilled(area: Area, f: Frame, what: What): Frame
    requires Limits(area)
  {
    var g := if what.Maximized? then f.(maximized := false) else f.(fullscreen := false);
    if (if what.Maximized? then g.fullscreen else g.maximized) then
      Filled(area, g, if what.Maximized? then Fullscreen else Maximized)
    else if g.restore.Some? then
      g.(rect := RestoreRect(area, g.restore.value), restore := None)
    else g
  }

  function Changed(area: Area, f: Frame, what: What, on: bool): Frame
    requires Limits(area)
  {
    if on then Filled(area, f, what) else Unfilled(area, f, what)
  }

  datatype Op = Op(what: What, on: bool)

  function Run(area: Area, f: Frame, ops: seq<Op>): Frame
    requires Limits(area)
    decreases |ops|
  {
    if ops == [] then f else Run(area, Changed(area, f, ops[0].what, ops[0].on), ops[1..])
  }

  function IsFilled(f: Frame): bool { f.fullscreen || f.maximized }

  /** From floating geometry `g`: `once` says whether the window was ever filled. */
  ghost predicate Follows(area: Area, f: Frame, g: Rect, once: bool)
    requires Limits(area)
  {
    if IsFilled(f) then
      && f.rect == FillRect(area, f.fullscreen)
      && f.restore.Some? && RestoreRect(area, f.restore.value) == RestoreRect(area, g)
      && once
    else f.restore.None? && f.rect == if once then RestoreRect(area, g) else g
  }

  lemma {:induction false} RunFollows(area: Area, f: Frame, ops: seq<Op>, g: Rect, once: bool)
    requires Limits(area) && Follows(area, f, g, once)
    ensures Follows(area, Run(area, f, ops), g, once || exists op :: op in ops && op.on)
    decreases |ops|
  {
    if ops != [] {
      RestoreSettles(area, g);
      var op := ops[0];
      assert forall o :: o in ops <==> o == op || o in ops[1..];
      RunFollows(area, Changed(area, f, op.what, op.on), ops[1..], g, once || op.on);
    }
  }

  /** Any sequence of maximize, unmaximize, fullscreen and unfullscreen on a floating window:
      ended with neither state it is at `RestoreRect` of where it was (or untouched, if nothing
      filled it); with fullscreen it covers the output, else the work area under its bar. */
  lemma FillRoundTrip(area: Area, g: Rect, ops: seq<Op>)
    requires Limits(area)
    ensures var f := Run(area, Frame(false, false, g, None, None), ops);
      f.rect ==
        if f.fullscreen then area.output
        else if f.maximized then Rect(area.work.x, area.work.y + area.bar, area.work.w, area.work.h - area.bar)
        else if exists op :: op in ops && op.on then RestoreRect(area, g) else g
  {
    RunFollows(area, Frame(false, false, g, None, None), ops, g, false);
  }

  /** What the last request of its kind said. */
  function Last(ops: seq<Op>, what: What, was: bool): bool {
    if ops == [] then was else Last(ops[1..], what, if ops[0].what == what then ops[0].on else was)
  }

  /** The window is in each state that was asked for last, whatever came between. */
  lemma {:induction false} StatesFollow(area: Area, f: Frame, ops: seq<Op>)
    requires Limits(area)
    ensures var q := Run(area, f, ops);
      && q.fullscreen == Last(ops, Fullscreen, f.fullscreen) && q.maximized == Last(ops, Maximized, f.maximized)
      && q.before == f.before
    decreases |ops|
  {
    if ops != [] { StatesFollow(area, Changed(area, f, ops[0].what, ops[0].on), ops[1..]); }
  }

  // ----- kiosk

  function KioskOn(area: Area, f: Frame): Frame
    requires Limits(area)
  {
    Changed(area, f.(before := Some(Layout(f.fullscreen, f.maximized, f.rect))), Fullscreen, true)
  }

  function KioskOff(area: Area, f: Frame): Frame
    requires Limits(area)
  {
    var layout := f.before;
    var a := Changed(area, f.(before := None), Maximized, layout.None? || layout.value.maximized);
    var b := Changed(area, a, Fullscreen, layout.Some? && layout.value.fullscreen);
    Replaced(area, b, layout)
  }

  /** A window opened in kiosk gets the work area to go back to, a floating one its place. */
  function Replaced(area: Area, f: Frame, layout: Option<Layout>): Frame
    requires Limits(area)
  {
    if layout.None? then f.(restore := Some(FillRect(area, false)))
    else if !layout.value.fullscreen && !layout.value.maximized then f.(rect := RestoreRect(area, layout.value.geometry))
    else f
  }

  /** Where fills and kiosk changes keep a frame. */
  ghost predicate Settled(area: Area, f: Frame) {
    (IsFilled(f) <==> f.restore.Some?) && (IsFilled(f) ==> f.rect == FillRect(area, f.fullscreen))
  }

  /** Kiosk on and off again: a floating window is at `RestoreRect` of its geometry, any other
      is maximized or fullscreen as before and still goes back to the same geometry. */
  lemma KioskRoundTrip(area: Area, f: Frame)
    requires Limits(area) && Settled(area, f)
    ensures var on := KioskOn(area, f);
      && on.fullscreen && on.rect == area.output && Settled(area, on)
      && KioskOff(area, on) ==
        f.(before := None, rect := if IsFilled(f) then f.rect else RestoreRect(area, f.rect))
  {
  }

  /** A window opened in kiosk is maximized, and unmaximizes within the work area. */
  lemma KioskNewcomer(area: Area, f: Frame)
    requires Limits(area) && f.before.None?
    ensures var off := KioskOff(area, f);
      && off.maximized && !off.fullscreen && off.rect == FillRect(area, false)
      && Unfilled(area, off, Maximized).rect == RestoreRect(area, FillRect(area, false))
  {
  }

  // ----- when the output or the panels change

  /** A reachable corner of the window, below the top of the work area and its bar. */
  function ClampTo(area: Area, rect: Rect): Rect {
    var top := area.work.y + area.bar;
    rect.(x := Clamp(rect.x, area.work.x, Max(area.work.x + area.work.w - 64, area.work.x)),
          y := Clamp(rect.y, top, Max(top + area.work.h - 64, top)))
  }

  /** The size stays; the place is the next one that leaves 64 pixels of the work area, below
      its bar, to the right of the corner and under it. */
  lemma ClampReaches(area: Area, rect: Rect)
    ensures var r := ClampTo(area, rect);
      && r.w == rect.w && r.h == rect.h
      && NearestPlace(r.x, rect.x, area.work.x, area.work.w, 64)
      && NearestPlace(r.y, rect.y, area.work.y + area.bar, area.work.h, 64)
  {
    ClampNearest(rect.x, area.work.x, area.work.w, 64);
    ClampNearest(rect.y, area.work.y + area.bar, area.work.h, 64);
  }

  function Relaid(area: Area, f: Frame, passive: bool): Frame {
    if passive then f
    else if IsFilled(f) then f.(rect := FillRect(area, f.fullscreen))
    else f.(rect := ClampTo(area, f.rect))
  }

  /** Panels stay, a filled window covers the output or the work area under its bar, and any
      other keeps its size and moves no further than it must. */
  lemma RelaidExactly(area: Area, f: Frame, passive: bool)
    ensures var r, work := Relaid(area, f, passive), area.work;
      && r == f.(rect := r.rect)
      && (passive ==> r == f)
      && (!passive && f.fullscreen ==> r.rect == area.output)
      && (!passive && !f.fullscreen && f.maximized ==> r.rect == Rect(work.x, work.y + area.bar, work.w, work.h - area.bar))
      && (!passive && !IsFilled(f) ==>
            && r.rect.w == f.rect.w && r.rect.h == f.rect.h
            && NearestPlace(r.rect.x, f.rect.x, work.x, work.w, 64)
            && NearestPlace(r.rect.y, f.rect.y, work.y + area.bar, work.h, 64))
  {
    ClampReaches(area, f.rect);
  }

  /** Laying out again settles at once, and keeps a frame settled. */
  lemma RelaidSettles(area: Area, f: Frame, passive: bool)
    ensures Relaid(area, Relaid(area, f, passive), passive) == Relaid(area, f, passive)
    ensures Settled(area, f) ==> Settled(area, Relaid(area, f, passive))
  {
  }
}
