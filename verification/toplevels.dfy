/** The window list for taskbars: each bound manager is told only what changed. */
module Toplevels {
  import opened Common
  import opened Rotation
  import Stack

  type Window = Stack.Window

  datatype Flag = Maximized | Minimized | Activated | Fullscreen

  datatype Info = Info(title: string, appId: string, states: seq<Flag>)

  /** The flags that are on, in the order the protocol array lists them. */
  function States(maximized: bool, fullscreen: bool, activated: bool, minimized: bool): seq<Flag> {
    (if maximized then [Maximized] else []) + (if fullscreen then [Fullscreen] else [])
    + (if activated then [Activated] else []) + (if minimized then [Minimized] else [])
  }

  /** Comparing the arrays compares the states. */
  lemma StatesTell(a: bool, b: bool, c: bool, d: bool)
    ensures var s := States(a, b, c, d);
      (Maximized in s <==> a) && (Fullscreen in s <==> b) && (Activated in s <==> c) && (Minimized in s <==> d)
  {
    var x := (if a then [Maximized] else []) + (if b then [Fullscreen] else []);
    var y := x + (if c then [Activated] else []);
    assert forall f :: f in x <==> (a && f == Maximized) || (b && f == Fullscreen);
    assert forall f :: f in y <==> f in x || (c && f == Activated);
  }

  /** A handle is one manager's object for one window. */
  datatype Handle = Handle(manager: nat, window: Window, serial: nat)

  datatype Event =
    | Toplevel(handle: Handle)
    | Title(handle: Handle, title: string) | AppId(handle: Handle, appId: string) | State(handle: Handle, states: seq<Flag>)
    | Done(handle: Handle)
    | Closed(handle: Handle)

  /** A taskbar applies what it was told at the next done. */
  datatype Told = Told(pending: Info, current: Option<Info>)

  const BLANK := Info("", "", [])

  function Hear(told: Option<Told>, event: Event): Option<Told> {
    match event
    case Toplevel(_) => Some(Told(BLANK, None))
    case Closed(_) => None
    case _ =>
      if told.None? then None
      else
        var t := told.value;
        match event
        case Title(_, title) => Some(t.(pending := t.pending.(title := title)))
        case AppId(_, appId) => Some(t.(pending := t.pending.(appId := appId)))
        case State(_, states) => Some(t.(pending := t.pending.(states := states)))
        case _ => Some(t.(current := Some(t.pending)))
  }

  /** What a log tells about one handle. */
  function Look(log: seq<Event>, h: Handle): Option<Told> {
    if log == [] then None
    else
      var before := Look(log[..|log| - 1], h);
      if log[|log| - 1].handle == h then Hear(before, log[|log| - 1]) else before
  }

  type Logs = map<nat, seq<Event>>

  function Sees(logs: Logs, h: Handle): Option<Told> {
    if h.manager in logs then Look(logs[h.manager], h) else None
  }

  /** Nothing is sent to a handle its client destroyed. */
  function Sent(logs: Logs, dead: set<Handle>, event: Event): Logs {
    var m := event.handle.manager;
    if event.handle in dead || m !in logs then logs else logs[m := logs[m] + [event]]
  }

  function SeesThen(logs: Logs, dead: set<Handle>, event: Event, h: Handle): Option<Told> {
    if h == event.handle && h !in dead && h.manager in logs then Hear(Sees(logs, h), event) else Sees(logs, h)
  }

  predicate Grown(was: Logs, now: Logs) {
    now.Keys == was.Keys && forall m :: m in was ==> was[m] <= now[m]
  }

  lemma SentSees(logs: Logs, dead: set<Handle>, event: Event, h: Handle)
    ensures Sees(Sent(logs, dead, event), h) == SeesThen(logs, dead, event, h)
    ensures Grown(logs, Sent(logs, dead, event)) && Sent(logs, dead, event).Keys == logs.Keys
  {
    var m := event.handle.manager;
    if m in logs { assert (logs[m] + [event])[..|logs[m]|] == logs[m]; }
  }

  lemma GrownMore(a: Logs, b: Logs, c: Logs)
    requires Grown(a, b) && Grown(b, c)
    ensures Grown(a, c)
  {
  }

  /** A run of events for one handle. */
  function SentAll(logs: Logs, dead: set<Handle>, events: seq<Event>): Logs
    decreases |events|
  {
    if events == [] then logs else SentAll(Sent(logs, dead, events[0]), dead, events[1..])
  }

  function HearAll(told: Option<Told>, events: seq<Event>): Option<Told>
    decreases |events|
  {
    if events == [] then told else HearAll(Hear(told, events[0]), events[1..])
  }

  lemma {:induction false} SentAllSees(logs: Logs, dead: set<Handle>, events: seq<Event>, h: Handle, g: Handle)
    requires forall e :: e in events ==> e.handle == h
    ensures Sees(SentAll(logs, dead, events), g) ==
      if g == h && h !in dead && h.manager in logs then HearAll(Sees(logs, h), events) else Sees(logs, g)
    ensures Grown(logs, SentAll(logs, dead, events)) && SentAll(logs, dead, events).Keys == logs.Keys
    ensures forall m :: m in logs && m != h.manager ==> SentAll(logs, dead, events)[m] == logs[m]
    decreases |events|
  {
    if events != [] {
      var now := Sent(logs, dead, events[0]);
      SentSees(logs, dead, events[0], g);
      SentSees(logs, dead, events[0], h);
      SentAllSees(now, dead, events[1..], h, g);
      GrownMore(logs, now, SentAll(logs, dead, events));
    }
  }

  lemma {:induction false} SentAllAppend(logs: Logs, dead: set<Handle>, events: seq<Event>, e: Event)
    ensures SentAll(logs, dead, events + [e]) == Sent(SentAll(logs, dead, events), dead, e)
    decreases |events|
  {
    if events == [] {
      assert [] + [e] == [e] && [e][1..] == [];
    } else {
      assert (events + [e])[1..] == events[1..] + [e];
      SentAllAppend(Sent(logs, dead, events[0]), dead, events[1..], e);
    }
  }

  function Introducing(h: Handle, info: Info): seq<Event> {
    [Toplevel(h), Title(h, info.title), AppId(h, info.appId), State(h, info.states), Done(h)]
  }

  /** The events for what differs, and then the done. */
  function Differences(h: Handle, was: Info, info: Info): seq<Event> {
    (if was.title != info.title then [Title(h, info.title)] else [])
    + (if was.appId != info.appId then [AppId(h, info.appId)] else [])
    + (if was.states != info.states then [State(h, info.states)] else [])
    + [Done(h)]
  }

  lemma {:induction false} HearAppend(told: Option<Told>, a: seq<Event>, b: seq<Event>)
    ensures HearAll(told, a + b) == HearAll(HearAll(told, a), b)
    decreases |a|
  {
    if a == [] {
      assert a + b == b;
    } else {
      assert (a + b)[1..] == a[1..] + b;
      HearAppend(Hear(told, a[0]), a[1..], b);
    }
  }

  lemma HearOne(told: Option<Told>, e: Event)
    ensures HearAll(told, [e]) == Hear(told, e)
  {
    assert [e][1..] == [];
  }

  lemma HearNext(told: Option<Told>, a: seq<Event>, e: Event)
    ensures HearAll(told, a + [e]) == Hear(HearAll(told, a), e)
  {
    HearAppend(told, a, [e]);
    HearOne(HearAll(told, a), e);
  }

  lemma IntroducingTells(told: Option<Told>, h: Handle, info: Info)
    ensures HearAll(told, Introducing(h, info)) == Some(Told(info, Some(info)))
  {
    var e := Introducing(h, info);
    HearOne(told, e[0]);
    HearNext(told, [e[0]], e[1]);
    HearNext(told, [e[0]] + [e[1]], e[2]);
    HearNext(told, [e[0]] + [e[1]] + [e[2]], e[3]);
    HearNext(told, [e[0]] + [e[1]] + [e[2]] + [e[3]], e[4]);
    assert e == [e[0]] + [e[1]] + [e[2]] + [e[3]] + [e[4]];
  }

  /** Sending only what differs brings the taskbar to the whole of what is. */
  lemma DifferencesTell(h: Handle, was: Info, info: Info)
    ensures HearAll(Some(Told(was, Some(was))), Differences(h, was, info)) == Some(Told(info, Some(info)))
  {
    var told := Some(Told(was, Some(was)));
    var a := if was.title != info.title then [Title(h, info.title)] else [];
    var b := if was.appId != info.appId then [AppId(h, info.appId)] else [];
    var c := if was.states != info.states then [State(h, info.states)] else [];
    if a != [] { HearOne(told, a[0]); }
    if b != [] { HearNext(told, a, b[0]); } else { assert a + b == a; }
    if c != [] { HearNext(told, a + b, c[0]); } else { assert a + b + c == a + b; }
    HearNext(told, a + b + c, Done(h));
  }

  lemma SentDifferences(logs: Logs, dead: set<Handle>, h: Handle, was: Info, info: Info)
    ensures var l1 := if was.title != info.title then Sent(logs, dead, Title(h, info.title)) else logs;
      var l2 := if was.appId != info.appId then Sent(l1, dead, AppId(h, info.appId)) else l1;
      var l3 := if was.states != info.states then Sent(l2, dead, State(h, info.states)) else l2;
      SentAll(logs, dead, Differences(h, was, info)) == Sent(l3, dead, Done(h))
  {
    var a := if was.title != info.title then [Title(h, info.title)] else [];
    var b := if was.appId != info.appId then [AppId(h, info.appId)] else [];
    var c := if was.states != info.states then [State(h, info.states)] else [];
    SentOne(logs, dead, a);
    if b != [] { SentAllAppend(logs, dead, a, b[0]); } else { assert a + b == a; }
    if c != [] { SentAllAppend(logs, dead, a + b, c[0]); } else { assert a + b + c == a + b; }
    SentAllAppend(logs, dead, a + b + c, Done(h));
  }

  lemma SentOne(logs: Logs, dead: set<Handle>, events: seq<Event>)
    requires |events| <= 1
    ensures SentAll(logs, dead, events) == if events == [] then logs else Sent(logs, dead, events[0])
  {
  }

  datatype Entry = Entry(info: Info, handles: seq<Handle>)

  /** What a handle should show. */
  function Due(windows: map<Window, Entry>, h: Handle): Option<Told> {
    if h.window in windows && h in windows[h.window].handles
    then Some(Told(windows[h.window].info, Some(windows[h.window].info))) else None
  }

  ghost predicate OnePerManager(handles: seq<Handle>) {
    forall i, j :: 0 <= i < j < |handles| ==> handles[i].manager != handles[j].manager
  }

  ghost predicate HandlesFit(windows: map<Window, Entry>, logs: Logs, serial: nat) {
    forall w :: w in windows ==>
      && OnePerManager(windows[w].handles)
      && forall h :: h in windows[w].handles ==> h.window == w && h.serial < serial && h.manager in logs
  }

  ghost predicate Agrees(windows: map<Window, Entry>, logs: Logs, dead: set<Handle>) {
    forall h :: h !in dead ==> Sees(logs, h) == Due(windows, h)
  }

  /** Every bound manager has a handle for the window, unless it destroyed one. */
  ghost predicate Held(handles: seq<Handle>, w: Window, managers: seq<nat>, dead: set<Handle>) {
    forall m :: m in managers ==> exists h: Handle :: (h in handles || h in dead) && h.manager == m && h.window == w
  }

  ghost predicate AllHeld(windows: map<Window, Entry>, managers: seq<nat>, dead: set<Handle>) {
    forall w :: w in windows ==> Held(windows[w].handles, w, managers, dead)
  }

  ghost predicate Sound(windows: map<Window, Entry>, managers: seq<nat>, logs: Logs, dead: set<Handle>, serial: nat) {
    && Distinct(managers) && (forall m :: m in managers ==> m in logs)
    && HandlesFit(windows, logs, serial)
    && Agrees(windows, logs, dead)
    && AllHeld(windows, managers, dead)
    && (forall h :: h in dead ==> h.serial < serial)
  }

  function Infos(windows: map<Window, Entry>): map<Window, Info> { map w | w in windows :: windows[w].info }

  /** What one taskbar heard shows each of these windows once, with its title, application
      and states, and nothing else. */
  ghost predicate Shows(shown: map<Window, Info>, logs: Logs, m: nat) {
    && (forall w :: w in shown ==> exists h: Handle :: h.manager == m && h.window == w && Sees(logs, h).Some?)
    && (forall h: Handle :: h.manager == m && Sees(logs, h).Some? ==>
          h.window in shown && Sees(logs, h).value.current == Some(shown[h.window]))
    && (forall g: Handle, h: Handle :: g.manager == m && h.manager == m && g.window == h.window && Sees(logs, g).Some? && Sees(logs, h).Some? ==> g == h)
  }

  /** A bound taskbar that destroyed no handle shows the windows. */
  lemma TaskbarShows(windows: map<Window, Entry>, managers: seq<nat>, logs: Logs, dead: set<Handle>, serial: nat, m: nat)
    requires Sound(windows, managers, logs, dead, serial) && m in managers
    requires forall h :: h in dead ==> h.manager != m
    ensures Shows(Infos(windows), logs, m)
  {
    forall w | w in windows ensures exists h: Handle :: h.manager == m && h.window == w && Sees(logs, h).Some? {
      assert Held(windows[w].handles, w, managers, dead);
      var h: Handle :| (h in windows[w].handles || h in dead) && h.manager == m && h.window == w;
      assert Sees(logs, h) == Due(windows, h);
    }
    forall h: Handle | h.manager == m && Sees(logs, h).Some?
      ensures h.window in windows && Sees(logs, h).value.current == Some(windows[h.window].info) && h in windows[h.window].handles
    {
      assert Sees(logs, h) == Due(windows, h);
    }
  }

  // ----- one handle more, one window fewer, one window told again

  lemma Attach(windows: map<Window, Entry>, logs: Logs, now: Logs, dead: set<Handle>, serial: nat, w: Window, h: Handle)
    requires HandlesFit(windows, logs, serial) && Agrees(windows, logs, dead)
    requires w in windows && h.window == w && h.serial == serial && h.manager in logs && now.Keys == logs.Keys
    requires forall k :: k in windows[w].handles ==> k.manager != h.manager
    requires forall g :: Sees(now, g) == if g == h then Some(Told(windows[w].info, Some(windows[w].info))) else Sees(logs, g)
    ensures var q := windows[w := windows[w].(handles := windows[w].handles + [h])];
      HandlesFit(q, now, serial + 1) && Agrees(q, now, dead)
  {
    var q := windows[w := windows[w].(handles := windows[w].handles + [h])];
    forall g | g !in dead ensures Sees(now, g) == Due(q, g) {
      assert g in q[w].handles <==> g in windows[w].handles || g == h;
      assert Sees(logs, g) == Due(windows, g);
    }
  }

  lemma Detach(windows: map<Window, Entry>, logs: Logs, now: Logs, dead: set<Handle>, serial: nat, w: Window)
    requires HandlesFit(windows, logs, serial) && Agrees(windows, logs, dead)
    requires w in windows && now.Keys == logs.Keys
    requires forall h :: Sees(now, h) == if h in windows[w].handles && h !in dead then None else Sees(logs, h)
    ensures HandlesFit(windows - {w}, now, serial) && Agrees(windows - {w}, now, dead)
  {
    forall h | h !in dead ensures Sees(now, h) == Due(windows - {w}, h) {
      assert Sees(logs, h) == Due(windows, h);
    }
  }

  lemma Retell(windows: map<Window, Entry>, logs: Logs, now: Logs, dead: set<Handle>, serial: nat, w: Window, info: Info, alive: seq<Handle>)
    requires HandlesFit(windows, logs, serial) && Agrees(windows, logs, dead)
    requires w in windows && now.Keys == logs.Keys
    requires OnePerManager(alive) && forall h :: h in alive <==> h in windows[w].handles && h !in dead
    requires forall h :: Sees(now, h) == if h in alive then Some(Told(info, Some(info))) else Sees(logs, h)
    ensures HandlesFit(windows[w := Entry(info, alive)], now, serial) && Agrees(windows[w := Entry(info, alive)], now, dead)
  {
    forall h | h !in dead ensures Sees(now, h) == Due(windows[w := Entry(info, alive)], h) {
      assert Sees(logs, h) == Due(windows, h);
    }
  }

  lemma {:induction false} KeepOnePerManager(handles: seq<Handle>, kept: set<Handle>)
    requires OnePerManager(handles)
    ensures OnePerManager(Keep(handles, kept))
  {
    if handles != [] {
      KeepOnePerManager(handles[1..], kept);
      var rest := Keep(handles[1..], kept);
      forall i | 0 <= i < |rest| ensures rest[i].manager != handles[0].manager {
        assert rest[i] in rest;
        var j :| 0 <= j < |handles[1..]| && handles[1..][j] == rest[i];
        assert handles[j + 1] == rest[i];
      }
    }
  }

  lemma HeldMore(handles: seq<Handle>, h: Handle, w: Window, managers: seq<nat>, dead: set<Handle>)
    requires Held(handles, w, managers, dead) && h.window == w
    ensures Held(handles + [h], w, managers + [h.manager], dead)
  {
    forall m | m in managers + [h.manager] ensures exists g: Handle :: (g in handles + [h] || g in dead) && g.manager == m && g.window == w {
      if m in managers {
        var g: Handle :| (g in handles || g in dead) && g.manager == m && g.window == w;
        assert g in handles ==> g in handles + [h];
      } else {
        assert h in handles + [h];
      }
    }
  }

  lemma StillHeld(handles: seq<Handle>, alive: seq<Handle>, w: Window, managers: seq<nat>, dead: set<Handle>)
    requires Held(handles, w, managers, dead) && forall h :: h in handles ==> h in alive || h in dead
    ensures Held(alive, w, managers, dead)
  {
    forall m | m in managers ensures exists h: Handle :: (h in alive || h in dead) && h.manager == m && h.window == w {
      var h: Handle :| (h in handles || h in dead) && h.manager == m && h.window == w;
    }
  }

  /** A new manager was told nothing yet. */
  lemma EmptyLog(windows: map<Window, Entry>, logs: Logs, dead: set<Handle>, serial: nat, manager: nat)
    requires HandlesFit(windows, logs, serial) && Agrees(windows, logs, dead) && manager !in logs
    ensures var now := logs[manager := []];
      HandlesFit(windows, now, serial) && Agrees(windows, now, dead)
    ensures forall w, k :: w in windows && k in windows[w].handles ==> k.manager != manager
  {
    assert forall h :: Sees(logs[manager := []], h) == if h.manager == manager then None else Sees(logs, h);
  }

  lemma NoHandles(windows: map<Window, Entry>, logs: Logs, dead: set<Handle>, serial: nat, w: Window, info: Info)
    requires HandlesFit(windows, logs, serial) && Agrees(windows, logs, dead) && w !in windows
    ensures HandlesFit(windows[w := Entry(info, [])], logs, serial) && Agrees(windows[w := Entry(info, [])], logs, dead)
  {
    forall h | h !in dead ensures Sees(logs, h) == Due(windows[w := Entry(info, [])], h) {
      assert Sees(logs, h) == Due(windows, h);
    }
  }

  /** Between two windows of a bind: `rest` has no handle for the new manager yet. */
  ghost predicate Extending(was: map<Window, Entry>, now: map<Window, Entry>, rest: set<Window>, managers: seq<nat>, manager: nat, dead: set<Handle>) {
    && now.Keys == was.Keys && rest <= now.Keys
    && (forall w :: w in now ==> now[w].info == was[w].info)
    && (forall w :: w in rest ==> now[w] == was[w])
    && (forall w :: w in now && w !in rest ==> Held(now[w].handles, w, managers + [manager], dead))
  }

  lemma ExtendingMore(was: map<Window, Entry>, mid: map<Window, Entry>, now: map<Window, Entry>, rest: set<Window>, w: Window, managers: seq<nat>, manager: nat, dead: set<Handle>)
    requires Extending(was, mid, rest, managers, manager, dead) && w in rest && w in now
    requires now == mid[w := now[w]] && now[w].info == mid[w].info && Held(now[w].handles, w, managers + [manager], dead)
    ensures Extending(was, now, rest - {w}, managers, manager, dead)
  {
    hide Held;
  }

  class Taskbars {
    var managers: seq<nat>
    var windows: map<Window, Entry>
    var logs: Logs
    var dead: set<Handle>
    var serial: nat

    ghost predicate Valid()
      reads this
    {
      Sound(windows, managers, logs, dead, serial)
    }

    constructor ()
      ensures Valid() && managers == [] && windows == map[] && logs == map[] && dead == {}
    {
      managers, windows, logs, dead, serial := [], map[], map[], {}, 0;
    }

    /** A new object for the window, fully described. */
    method NewHandle(manager: nat, window: Window, info: Info) returns (h: Handle)
      requires manager in logs
      requires Handle(manager, window, serial) !in dead
      modifies `logs, `serial
      ensures h == Handle(manager, window, old(serial)) && serial == old(serial) + 1
      ensures logs.Keys == old(logs).Keys && Grown(old(logs), logs)
      ensures forall m :: m in logs && m != manager ==> logs[m] == old(logs)[m]
      ensures forall g :: Sees(logs, g) == if g == h then Some(Told(info, Some(info))) else Sees(old(logs), g)
    {
      h := Handle(manager, window, serial);
      serial := serial + 1;
      Tell(Introducing(h, info));
      IntroducingTells(Sees(old(logs), h), h, info);
      forall g ensures Sees(logs, g) == if g == h then Some(Told(info, Some(info))) else Sees(old(logs), g) {
        SentAllSees(old(logs), dead, Introducing(h, info), h, g);
      }
      SentAllSees(old(logs), dead, Introducing(h, info), h, h);
    }

    /** Sends, one after the other. */
    method Tell(events: seq<Event>)
      modifies `logs
      ensures logs == SentAll(old(logs), dead, events)
    {
      for i := 0 to |events|
        invariant logs == SentAll(old(logs), dead, events[..i])
      {
        assert events[..i + 1] == events[..i] + [events[i]];
        SentAllAppend(old(logs), dead, events[..i], events[i]);
        logs := Sent(logs, dead, events[i]);
      }
      assert events[..|events|] == events;
    }

    /** A taskbar binds: one handle for every window it already knows. */
    method Bind(manager: nat)
      requires Valid() && manager !in logs
      modifies this
      ensures Valid() && managers == old(managers) + [manager] && dead == old(dead)
      ensures windows.Keys == old(windows).Keys && forall w :: w in windows ==> windows[w].info == old(windows)[w].info
      ensures logs.Keys == old(logs).Keys + {manager} && forall m :: m in old(logs) ==> logs[m] == old(logs)[m]
    {
      ghost var was, wasLogs := windows, logs;
      EmptyLog(windows, logs, dead, serial, manager);
      logs := logs[manager := []];
      var rest := windows.Keys;
      while rest != {}
        invariant Extending(was, windows, rest, managers, manager, dead)
        invariant dead == old(dead) && managers == old(managers) && serial >= old(serial)
        invariant logs.Keys == wasLogs.Keys + {manager} && forall m :: m in wasLogs ==> logs[m] == wasLogs[m]
        invariant HandlesFit(windows, logs, serial) && Agrees(windows, logs, dead)
      {
        hide Agrees, HandlesFit, Held;
        var w :| w in rest;
        ghost var mid := windows;
        assert Held(was[w].handles, w, managers, dead);
        Extend(w, manager);
        ExtendingMore(was, mid, windows, rest, w, managers, manager, dead);
        rest := rest - {w};
      }
      managers := managers + [manager];
    }

    method Extend(w: Window, manager: nat)
      requires HandlesFit(windows, logs, serial) && Agrees(windows, logs, dead) && forall h :: h in dead ==> h.serial < serial
      requires w in windows && manager in logs && Held(windows[w].handles, w, managers, dead)
      requires forall k :: k in windows[w].handles ==> k.manager != manager
      modifies `windows, `logs, `serial
      ensures HandlesFit(windows, logs, serial) && Agrees(windows, logs, dead) && serial == old(serial) + 1
      ensures w in windows && windows == old(windows)[w := windows[w]] && windows[w].info == old(windows)[w].info
      ensures Held(windows[w].handles, w, managers + [manager], dead)
      ensures logs.Keys == old(logs).Keys && forall m :: m in logs && m != manager ==> logs[m] == old(logs)[m]
    {
      ghost var was := windows[w].handles;
      var h := NewHandle(manager, w, windows[w].info);
      Attach(windows, old(logs), logs, dead, serial - 1, w, h);
      HeldMore(was, h, w, managers, dead);
      windows := windows[w := windows[w].(handles := windows[w].handles + [h])];
    }

    method Stop(manager: nat)
      requires Valid()
      modifies `managers
      ensures Valid() && managers == Keep(old(managers), (set m | m in old(managers)) - {manager})
    {
      KeepDistinct(managers, (set m | m in managers) - {manager});
      managers := Keep(managers, (set m | m in managers) - {manager});
    }

    /** A client destroys one of its handles. */
    method Destroy(h: Handle)
      requires Valid() && h.serial < serial
      modifies `dead
      ensures Valid() && dead == old(dead) + {h}
    {
      dead := dead + {h};
      assert forall w :: w in windows ==> Held(windows[w].handles, w, managers, old(dead));
    }

    /** A window went: its handles are closed. */
    method Close(w: Window)
      requires Valid() && w in windows
      modifies `windows, `logs
      ensures Valid() && windows == old(windows) - {w} && Grown(old(logs), logs)
    {
      var handles := windows[w].handles;
      for i := 0 to |handles|
        invariant windows == old(windows) && logs.Keys == old(logs).Keys && Grown(old(logs), logs)
        invariant forall h :: Sees(logs, h) == if h in handles[..i] && h !in dead then None else Sees(old(logs), h)
      {
        assert handles[..i + 1] == handles[..i] + [handles[i]];
        ghost var before := logs;
        Tell([Closed(handles[i])]);
        HearOne(Sees(before, handles[i]), Closed(handles[i]));
        forall h ensures Sees(logs, h) == if h == handles[i] && h !in dead then None else Sees(before, h) {
          SentAllSees(before, dead, [Closed(handles[i])], handles[i], h);
        }
        SentAllSees(before, dead, [Closed(handles[i])], handles[i], handles[i]);
        GrownMore(old(logs), before, logs);
      }
      assert handles[..|handles|] == handles;
      Detach(windows, old(logs), logs, dead, serial, w);
      windows := windows - {w};
    }

    /** A window came: every bound manager gets a handle for it. */
    method Add(w: Window, info: Info)
      requires Valid() && w !in windows
      modifies `windows, `logs, `serial
      ensures Valid() && w in windows && windows == old(windows)[w := windows[w]] && windows[w].info == info
      ensures Grown(old(logs), logs)
    {
      var handles: seq<Handle> := [];
      NoHandles(windows, logs, dead, serial, w, info);
      for i := 0 to |managers|
        invariant windows == old(windows) && logs.Keys == old(logs).Keys && Grown(old(logs), logs) && serial >= old(serial)
        invariant HandlesFit(windows[w := Entry(info, handles)], logs, serial)
        invariant Agrees(windows[w := Entry(info, handles)], logs, dead)
        invariant forall h :: h in handles ==> h.manager in managers[..i]
        invariant Held(handles, w, managers[..i], dead)
      {
        hide HandlesFit, Held, Agrees;
        assert managers[..i + 1] == managers[..i] + [managers[i]];
        ghost var before := logs;
        handles := AddHandle(w, info, handles, managers[i], managers[..i]);
        GrownMore(old(logs), before, logs);
      }
      assert managers[..|managers|] == managers;
      windows := windows[w := Entry(info, handles)];
    }

    /** A handle for one manager more. */
    method AddHandle(w: Window, info: Info, handles: seq<Handle>, m: nat, ghost done: seq<nat>) returns (more: seq<Handle>)
      requires HandlesFit(windows[w := Entry(info, handles)], logs, serial)
      requires Agrees(windows[w := Entry(info, handles)], logs, dead)
      requires forall h :: h in dead ==> h.serial < serial
      requires (forall h :: h in handles ==> h.manager in done) && Held(handles, w, done, dead)
      requires m in logs && m !in done
      modifies `logs, `serial
      ensures serial == old(serial) + 1 && Grown(old(logs), logs)
      ensures HandlesFit(windows[w := Entry(info, more)], logs, serial)
      ensures Agrees(windows[w := Entry(info, more)], logs, dead)
      ensures (forall h :: h in more ==> h.manager in done + [m]) && Held(more, w, done + [m], dead)
    {
      hide HandlesFit, Held, Agrees;
      ghost var before := logs;
      var h := NewHandle(m, w, info);
      Attach(windows[w := Entry(info, handles)], before, logs, dead, serial - 1, w, h);
      HeldMore(handles, h, w, done, dead);
      more := handles + [h];
      assert windows[w := Entry(info, handles)][w := Entry(info, more)] == windows[w := Entry(info, more)];
    }

    /** Only what differs is sent. */
    method Inform(h: Handle, was: Info, info: Info)
      requires h !in dead && h.manager in logs && Sees(logs, h) == Some(Told(was, Some(was)))
      modifies `logs
      ensures logs.Keys == old(logs).Keys && Grown(old(logs), logs)
      ensures forall g :: Sees(logs, g) == if g == h then Some(Told(info, Some(info))) else Sees(old(logs), g)
    {
      if was.title != info.title { logs := Sent(logs, dead, Title(h, info.title)); }
      if was.appId != info.appId { logs := Sent(logs, dead, AppId(h, info.appId)); }
      if was.states != info.states { logs := Sent(logs, dead, State(h, info.states)); }
      logs := Sent(logs, dead, Done(h));
      SentDifferences(old(logs), dead, h, was, info);
      DifferencesTell(h, was, info);
      forall g ensures Sees(logs, g) == if g == h then Some(Told(info, Some(info))) else Sees(old(logs), g) {
        SentAllSees(old(logs), dead, Differences(h, was, info), h, g);
      }
      SentAllSees(old(logs), dead, Differences(h, was, info), h, h);
    }

    method InformAll(alive: seq<Handle>, was: Info, info: Info)
      requires OnePerManager(alive)
      requires forall h :: h in alive ==> h !in dead && h.manager in logs && Sees(logs, h) == Some(Told(was, Some(was)))
      modifies `logs
      ensures logs.Keys == old(logs).Keys && Grown(old(logs), logs)
      ensures forall h :: Sees(logs, h) == if h in alive then Some(Told(info, Some(info))) else Sees(old(logs), h)
    {
      for i := 0 to |alive|
        invariant logs.Keys == old(logs).Keys && Grown(old(logs), logs)
        invariant forall h :: Sees(logs, h) == if h in alive[..i] then Some(Told(info, Some(info))) else Sees(old(logs), h)
      {
        assert alive[..i + 1] == alive[..i] + [alive[i]];
        assert alive[i] !in alive[..i];
        ghost var before := logs;
        Inform(alive[i], was, info);
        GrownMore(old(logs), before, logs);
      }
      assert alive[..|alive|] == alive;
    }

    /** A known window is looked at again; taskbars come and go. */
    method Update(w: Window, info: Info)
      requires Valid() && w in windows
      modifies `windows, `logs
      ensures Valid() && w in windows && windows == old(windows)[w := windows[w]] && windows[w].info == info
      ensures Grown(old(logs), logs)
      ensures old(windows)[w].info == info ==> logs == old(logs)
    {
      var entry := windows[w];
      var alive := Keep(entry.handles, (set h | h in entry.handles) - dead);
      KeepOnePerManager(entry.handles, (set h | h in entry.handles) - dead);
      assert Held(entry.handles, w, managers, dead);
      StillHeld(entry.handles, alive, w, managers, dead);
      assert forall h :: h in alive ==> Sees(logs, h) == Due(windows, h);
      if entry.info != info { InformAll(alive, entry.info, info); }
      Retell(windows, old(logs), logs, dead, serial, w, info, alive);
      windows := windows[w := Entry(info, alive)];
    }

    method Note(w: Window, info: Info)
      requires Valid()
      modifies `windows, `logs, `serial
      ensures Valid() && Grown(old(logs), logs)
      ensures w in windows && windows == old(windows)[w := windows[w]] && windows[w].info == info
      ensures w in old(windows) && old(windows)[w].info == info ==> logs == old(logs)
    {
      if w in windows { Update(w, info); } else { Add(w, info); }
    }

    method CloseGone(live: seq<Window>)
      requires Valid()
      modifies `windows, `logs
      ensures Valid() && Grown(old(logs), logs)
      ensures windows == old(windows) - (old(windows).Keys - set w | w in live)
      ensures windows == old(windows) ==> logs == old(logs)
    {
      var gone := windows.Keys - set w | w in live;
      ghost var lost := gone;
      while gone != {}
        invariant Valid() && Grown(old(logs), logs) && gone <= lost
        invariant windows == old(windows) - (lost - gone)
        invariant gone == lost ==> logs == old(logs)
      {
        var w :| w in gone;
        ghost var before := logs;
        assert w in lost;
        Close(w);
        GrownMore(old(logs), before, logs);
        assert lost - (gone - {w}) == (lost - gone) + {w};
        gone := gone - {w};
      }
      assert lost - {} == lost;
      if lost != {} {
        var w :| w in lost;
        assert w in old(windows) && w !in windows;
      }
    }

    method NoteAll(live: seq<Window>, infos: Window -> Info)
      requires Valid()
      modifies `windows, `logs, `serial
      ensures Valid() && Grown(old(logs), logs)
      ensures windows.Keys == old(windows).Keys + set w | w in live
      ensures forall w :: w in live ==> windows[w].info == infos(w)
      ensures UpToDate(old(windows), live, infos) ==> logs == old(logs)
    {
      for i := 0 to |live|
        invariant Valid() && Grown(old(logs), logs)
        invariant windows.Keys == old(windows).Keys + set w | w in live[..i]
        invariant forall w :: w in live[..i] ==> windows[w].info == infos(w)
        invariant forall w :: w in old(windows) && w !in live[..i] ==> windows[w].info == old(windows)[w].info
        invariant UpToDate(old(windows), live, infos) ==> logs == old(logs)
      {
        var w := live[i];
        assert live[..i + 1] == live[..i] + [w];
        ghost var before := logs;
        Note(w, infos(w));
        GrownMore(old(logs), before, logs);
      }
      assert live[..|live|] == live;
    }

    /** The diff: closed, new and changed windows, and no word about the others. */
    method Refresh(live: seq<Window>, infos: Window -> Info)
      requires Valid()
      modifies `windows, `logs, `serial
      ensures Valid() && Grown(old(logs), logs)
      ensures windows.Keys == set w | w in live
      ensures forall w :: w in windows ==> windows[w].info == infos(w)
      ensures UpToDate(old(windows), live, infos) ==> logs == old(logs)
    {
      CloseGone(live);
      ghost var start := logs;
      NoteAll(live, infos);
      GrownMore(old(logs), start, logs);
    }
  }

  // ----- whole runs

  /** What happens to the list: taskbars bind, stop and destroy handles; the loop refreshes. */
  datatype Step =
    | Binds(manager: nat)
    | Stops(manager: nat)
    | Destroys(handle: Handle)
    | Refreshes(live: seq<Window>, infos: Window -> Info)

  /** The managers bound and not stopped, all ever bound, those that destroyed a handle, and
      the windows as the last refresh found them. */
  datatype Past = Past(bound: seq<nat>, used: set<nat>, broken: set<nat>, shown: map<Window, Info>)

  function Then(past: Past, step: Step): Past {
    match step
    case Binds(m) => if m in past.used then past else past.(bound := past.bound + [m], used := past.used + {m})
    case Stops(m) => past.(bound := Keep(past.bound, (set x | x in past.bound) - {m}))
    case Destroys(h) => past.(broken := past.broken + {h.manager})
    case Refreshes(live, infos) => past.(shown := map w | w in live :: infos(w))
  }

  function History(steps: seq<Step>): Past {
    if steps == [] then Past([], {}, {}, map[]) else Then(History(steps[..|steps| - 1]), steps[|steps| - 1])
  }

  /** The list agrees with its past. */
  ghost predicate Follows(bars: Taskbars, past: Past)
    reads bars
  {
    && bars.Valid()
    && bars.managers == past.bound && bars.logs.Keys == past.used && Infos(bars.windows) == past.shown
    && forall h :: h in bars.dead ==> h.manager in past.broken
  }

  /** One step; a second bind of one object and a destroy of a handle never made cannot
      happen and are passed over. */
  method Take(bars: Taskbars, step: Step, ghost past: Past)
    requires Follows(bars, past)
    modifies bars
    ensures Follows(bars, Then(past, step))
  {
    match step
    case Binds(m) => if m !in bars.logs { bars.Bind(m); }
    case Stops(m) => bars.Stop(m);
    case Destroys(h) => if h.serial < bars.serial { bars.Destroy(h); }
    case Refreshes(live, infos) => bars.Refresh(live, infos);
  }

  /** In every run from the start each bound taskbar that destroyed no handle shows exactly
      the windows of the last refresh as they were then. */
  method Serve(steps: seq<Step>) returns (bars: Taskbars)
    ensures fresh(bars) && bars.Valid() && bars.managers == History(steps).bound
    ensures forall m :: m in History(steps).bound && m !in History(steps).broken ==> Shows(History(steps).shown, bars.logs, m)
  {
    bars := new Taskbars();
    for i := 0 to |steps|
      invariant fresh(bars) && Follows(bars, History(steps[..i]))
    {
      assert steps[..i + 1][..i] == steps[..i];
      Take(bars, steps[i], History(steps[..i]));
    }
    assert steps[..|steps|] == steps;
    forall m | m in bars.managers && m !in History(steps).broken ensures Shows(Infos(bars.windows), bars.logs, m) {
      TaskbarShows(bars.windows, bars.managers, bars.logs, bars.dead, bars.serial, m);
    }
  }

  /** The taskbars already know exactly these windows as they are. */
  ghost predicate UpToDate(windows: map<Window, Entry>, live: seq<Window>, infos: Window -> Info) {
    windows.Keys == (set w | w in live) && forall w :: w in windows ==> windows[w].info == infos(w)
  }
}
