/** Dynamic workspaces, shared by the viewers and the panels that bound the protocol. */
module Workspaces {
  import opened Common
  import opened Rotation
  import opened Families

  const ID_LIMIT := 0x1_0000_0000
  const LONGEST_NAME := 256

  datatype Entry = Entry(id: nat, name: string)

  /** A workspace as a panel sees it. */
  datatype Item = Item(name: string, active: bool, grouped: bool)

  /** What a panel is sent. `Done` carries, for the record, what it should then show. */
  datatype Event =
    | Announce(id: nat) | Name(id: nat, name: string) | State(id: nat, active: bool)
    | Enter(id: nat) | Leave(id: nat) | Removed(id: nat)
    | Done(now: map<nat, Item>)

  datatype Request = Create(name: string) | Activate(id: nat) | Remove(id: nat)

  /** `dead` are the handles the panel destroyed: they are sent nothing more. */
  datatype Panel = Panel(manager: nat, handles: seq<nat>, dead: set<nat>, pending: seq<Request>, log: seq<Event>)

  datatype Snapshot = Snapshot(active: nat, entries: seq<Entry>)

  /** What the choice of a focus depends on besides: the windows of the stack that are
      minimized, the menus and tooltips, and whether a grab or a touch is held by a window
      that is not on the workspace with the input. */
  datatype Sight = Sight(minimized: set<Window>, passive: set<Window>, grabbed: bool)

  /** `windows` is the whole stack, `focused` the focus, `memory` the focus of each workspace
      when it lost the input. */
  datatype Desk = Desk(
    active: nat, input: nat, entries: seq<Entry>, next: Option<nat>,
    windows: seq<Window>, member: map<Window, nat>, parents: map<Window, Window>, focused: Option<Window>,
    memory: map<nat, Window>, panels: seq<Panel>, told: seq<Snapshot>)

  const START := Desk(1, 1, [Entry(1, "1")], Some(2), [], map[], map[], None, map[], [], [])

  // ----- names

  /** The Unicode White_Space property. */
  predicate White(c: char) {
    || '\t' <= c <= '\r' || c == ' ' || c == '\U{85}' || c == '\U{A0}' || c == '\U{1680}'
    || '\U{2000}' <= c <= '\U{200A}' || c == '\U{2028}' || c == '\U{2029}' || c == '\U{202F}'
    || c == '\U{205F}' || c == '\U{3000}'
  }

  predicate Control(c: char) { c < ' ' || '\U{7F}' <= c <= '\U{9F}' }

  predicate Blank(s: string) { forall c :: c in s ==> White(c) }

  function Bytes(s: string): nat {
    if s == [] then 0
    else (if s[0] < '\U{80}' then 1 else if s[0] < '\U{800}' then 2 else if s[0] < '\U{10000}' then 3 else 4) + Bytes(s[1..])
  }

  predicate Fits(s: string) { Bytes(s) <= LONGEST_NAME && forall c :: c in s ==> !Control(c) }

  function Decimal(n: nat): string {
    if n < 10 then [('0' as int + n) as char] else Decimal(n / 10) + [('0' as int + n % 10) as char]
  }

  /** The name a new workspace gets: its number when none was given. */
  function Called(name: Option<string>, id: nat): string {
    if name.Some? && !Blank(name.value) then name.value else Decimal(id)
  }

  lemma {:induction false} BytesAppend(s: string, c: char)
    requires c < '\U{80}'
    ensures Bytes(s + [c]) == Bytes(s) + 1
  {
    if s == [] {
      assert s + [c] == [c] && [c][1..] == [];
    } else {
      assert (s + [c])[1..] == s[1..] + [c];
      BytesAppend(s[1..], c);
    }
  }

  lemma {:induction false} DecimalFits(n: nat, digits: nat, bound: nat)
    requires digits >= 1 && n < bound && bound == Power10(digits)
    ensures Bytes(Decimal(n)) <= digits && |Decimal(n)| >= 1
    ensures forall c :: c in Decimal(n) ==> '0' <= c <= '9'
    decreases digits
  {
    if n < 10 {
      assert Decimal(n)[1..] == [];
    } else {
      assert Power10(digits) == 10 * Power10(digits - 1);
      DecimalFits(n / 10, digits - 1, Power10(digits - 1));
      BytesAppend(Decimal(n / 10), ('0' as int + n % 10) as char);
    }
  }

  function Power10(k: nat): nat { if k == 0 then 1 else 10 * Power10(k - 1) }

  /** A name that can stand: what every workspace has. */
  predicate Proper(s: string) { !Blank(s) && Fits(s) }

  lemma NumberIsProper(n: nat)
    requires n < ID_LIMIT
    ensures Proper(Decimal(n))
  {
    assert Power10(10) == 10000000000;
    DecimalFits(n, 10, Power10(10));
    assert Decimal(n)[0] in Decimal(n);
  }

  // ----- entries

  function Ids(entries: seq<Entry>): (r: seq<nat>)
    ensures |r| == |entries| && forall i :: 0 <= i < |r| ==> r[i] == entries[i].id
  {
    seq(|entries|, i requires 0 <= i < |entries| => entries[i].id)
  }

  predicate Exists(entries: seq<Entry>, id: nat) { exists i :: 0 <= i < |entries| && entries[i].id == id }

  ghost predicate FirstOther(entries: seq<Entry>, id: nat, target: nat) {
    exists i :: 0 <= i < |entries| && entries[i].id == target && forall j :: 0 <= j < i ==> entries[j].id == id
  }

  lemma OtherLater(entries: seq<Entry>, id: nat, target: nat)
    requires entries != [] && entries[0].id == id && FirstOther(entries[1..], id, target)
    ensures FirstOther(entries, id, target) && Exists(entries, target)
  {
    var i :| 0 <= i < |entries[1..]| && entries[1..][i].id == target && forall j :: 0 <= j < i ==> entries[1..][j].id == id;
    assert entries[i + 1].id == target;
    assert forall j :: 1 <= j < i + 1 ==> entries[j] == entries[1..][j - 1];
  }

  /** The first other workspace. */
  function Other(entries: seq<Entry>, id: nat): (r: Option<nat>)
    ensures r.Some? ==> r.value != id && Exists(entries, r.value) && FirstOther(entries, id, r.value)
    ensures r.None? ==> forall e :: e in entries ==> e.id == id
  {
    if entries == [] then None
    else if entries[0].id != id then Some(entries[0].id)
    else
      var r := Other(entries[1..], id);
      if r.Some? then
        OtherLater(entries, id, r.value);
        r
      else None
  }

  /** The first workspace with this id gets the name. */
  function Retitled(entries: seq<Entry>, id: nat, name: string): (r: seq<Entry>)
    ensures |r| == |entries|
  {
    if entries == [] then []
    else if entries[0].id == id then [Entry(id, name)] + entries[1..]
    else [entries[0]] + Retitled(entries[1..], id, name)
  }

  function NameOf(entries: seq<Entry>, id: nat): Option<string> {
    if entries == [] then None else if entries[0].id == id then Some(entries[0].name) else NameOf(entries[1..], id)
  }

  function Lacking(entries: seq<Entry>, id: nat): (r: seq<Entry>)
    ensures forall e :: e in r <==> e in entries && e.id != id
  {
    if entries == [] then [] else if entries[0].id == id then Lacking(entries[1..], id) else [entries[0]] + Lacking(entries[1..], id)
  }

  /** The current workspaces, as a panel should show them. */
  function Items(entries: seq<Entry>, active: nat): map<nat, Item> {
    if entries == [] then map[]
    else Items(entries[1..], active)[entries[0].id := Item(entries[0].name, entries[0].id == active, true)]
  }

  // ----- panels

  function Heard(view: map<nat, Item>, event: Event): map<nat, Item> {
    match event
    case Announce(id) => view[id := Item("", false, false)]
    case Name(id, name) => if id in view then view[id := view[id].(name := name)] else view
    case State(id, active) => if id in view then view[id := view[id].(active := active)] else view
    case Enter(id) => if id in view then view[id := view[id].(grouped := true)] else view
    case Leave(id) => if id in view then view[id := view[id].(grouped := false)] else view
    case Removed(id) => view - {id}
    case Done(_) => view
  }

  /** What a panel shows after these events. */
  function Watch(view: map<nat, Item>, events: seq<Event>): map<nat, Item>
    decreases |events|
  {
    if events == [] then view else Watch(Heard(view, events[0]), events[1..])
  }

  function Sent(p: Panel, events: seq<Event>): Panel { p.(log := p.log + events) }

  function AddEvents(e: Entry, active: nat): seq<Event> {
    [Announce(e.id), Name(e.id, e.name), State(e.id, e.id == active), Enter(e.id)]
  }

  function Added(p: Panel, e: Entry, active: nat): Panel {
    Sent(p, AddEvents(e, active)).(handles := p.handles + [e.id])
  }

  function AddedAll(p: Panel, entries: seq<Entry>, active: nat): Panel
    decreases |entries|
  {
    if entries == [] then p else AddedAll(Added(p, entries[0], active), entries[1..], active)
  }

  function StateEvents(handles: seq<nat>, dead: set<nat>, active: nat): seq<Event> {
    if handles == [] then []
    else (if handles[0] in dead then [] else [State(handles[0], handles[0] == active)]) + StateEvents(handles[1..], dead, active)
  }

  function NameEvents(handles: seq<nat>, dead: set<nat>, id: nat, name: string): seq<Event> {
    if handles == [] then []
    else (if handles[0] == id && id !in dead then [Name(id, name)] else []) + NameEvents(handles[1..], dead, id, name)
  }

  function DropEvents(handles: seq<nat>, dead: set<nat>, id: nat): seq<Event> {
    if handles == [] then []
    else (if handles[0] == id && id !in dead then [Leave(id), Removed(id)] else []) + DropEvents(handles[1..], dead, id)
  }

  function Others(handles: seq<nat>, id: nat): (r: seq<nat>)
    ensures forall h :: h in r <==> h in handles && h != id
  {
    if handles == [] then [] else if handles[0] == id then Others(handles[1..], id) else [handles[0]] + Others(handles[1..], id)
  }

  function Refreshed(p: Panel, now: map<nat, Item>, active: nat): Panel {
    Sent(p, StateEvents(p.handles, p.dead, active) + [Done(now)])
  }

  function Renaming(p: Panel, id: nat, name: string, now: map<nat, Item>): Panel {
    Sent(p, NameEvents(p.handles, p.dead, id, name) + [Done(now)])
  }

  function Dropping(p: Panel, id: nat): Panel {
    Sent(p, DropEvents(p.handles, p.dead, id)).(handles := Others(p.handles, id))
  }

  function Bound(manager: nat, entries: seq<Entry>, active: nat): Panel {
    Sent(AddedAll(Panel(manager, [], {}, [], []), entries, active), [Done(Items(entries, active))])
  }

  function AddedToAll(panels: seq<Panel>, e: Entry, active: nat): (r: seq<Panel>)
    ensures |r| == |panels|
  {
    seq(|panels|, i requires 0 <= i < |panels| => Added(panels[i], e, active))
  }

  function ShownToAll(panels: seq<Panel>, now: map<nat, Item>, active: nat): (r: seq<Panel>)
    ensures |r| == |panels|
  {
    seq(|panels|, i requires 0 <= i < |panels| => Refreshed(panels[i], now, active))
  }

  function RenamedToAll(panels: seq<Panel>, id: nat, name: string, now: map<nat, Item>): (r: seq<Panel>)
    ensures |r| == |panels|
  {
    seq(|panels|, i requires 0 <= i < |panels| => Renaming(panels[i], id, name, now))
  }

  function DroppedFromAll(panels: seq<Panel>, id: nat): (r: seq<Panel>)
    ensures |r| == |panels|
  {
    seq(|panels|, i requires 0 <= i < |panels| => Dropping(panels[i], id))
  }

  // ----- operations

  function TreeOf(s: Desk): Tree { Tree(s.windows, s.parents, s.active) }

  function On(s: Desk, w: Window): nat { Families.Of(TreeOf(s), s.member, w) }

  /** Mapped on the workspace with the input: what can have the focus. */
  predicate Visible(s: Desk, sight: Sight, w: Window) {
    w in s.windows && w !in sight.minimized && On(s, w) == s.input
  }

  /** What the focus falls to: visible, and no menu or tooltip. */
  predicate Fallback(s: Desk, sight: Sight, w: Window) { Visible(s, sight, w) && w !in sight.passive }

  /** `r` is the highest such window of the lowest `n` of the stack, or there is none. */
  ghost predicate IsTop(s: Desk, sight: Sight, n: nat, r: Option<Window>)
    requires n <= |s.windows|
  {
    if r.None? then forall i :: 0 <= i < n ==> !Fallback(s, sight, s.windows[i])
    else
      exists i ::
        && 0 <= i < n && s.windows[i] == r.value && Fallback(s, sight, s.windows[i])
        && forall j :: i < j < n ==> !Fallback(s, sight, s.windows[j])
  }

  function TopMost(s: Desk, sight: Sight, n: nat): (r: Option<Window>)
    requires n <= |s.windows|
    ensures IsTop(s, sight, n, r)
    ensures r.Some? ==> Visible(s, sight, r.value)
  {
    if n == 0 then None
    else if Fallback(s, sight, s.windows[n - 1]) then Some(s.windows[n - 1])
    else TopMost(s, sight, n - 1)
  }

  /** The workspace that gets the input goes back to the window that last had its focus, or
      to the top one. */
  function Offered(s: Desk, sight: Sight): (r: Option<Window>)
    ensures r.Some? ==> Visible(s, sight, r.value)
  {
    if s.input in s.memory && Visible(s, sight, s.memory[s.input]) then Some(s.memory[s.input])
    else TopMost(s, sight, |s.windows|)
  }

  function Told(s: Desk): Desk { s.(told := s.told + [Snapshot(s.active, s.entries)]) }

  /** Every panel hears the states and a done, and the viewers the whole list. */
  function Published(s: Desk): Desk {
    Told(s.(panels := ShownToAll(s.panels, Items(s.entries, s.active), s.active)))
  }

  function Created(s: Desk, name: Option<string>): Desk {
    if s.next.None? then s
    else
      var entry := Entry(s.next.value, Called(name, s.next.value));
      if !Fits(entry.name) then s
      else
        Published(s.(next := if s.next.value + 1 < ID_LIMIT then Some(s.next.value + 1) else None,
                     panels := AddedToAll(s.panels, entry, s.active), entries := s.entries + [entry]))
  }

  function Renamed(s: Desk, id: nat, name: string): Desk {
    if Blank(name) || !Fits(name) || NameOf(s.entries, id).None? || NameOf(s.entries, id) == Some(name) then s
    else
      var entries := Retitled(s.entries, id, name);
      Told(s.(entries := entries, panels := RenamedToAll(s.panels, id, name, Items(entries, s.active))))
  }

  /** A switch notes the focus it leaves behind, or that there is none. */
  function Switched(s: Desk, id: nat, sight: Sight): Desk {
    if !Exists(s.entries, id) || id == s.active then s
    else
      var memory := if s.focused.Some? then s.memory[s.input := s.focused.value] else s.memory - {s.input};
      var q := Published(s.(memory := memory, active := id, input := id));
      q.(focused := Offered(q, sight))
  }

  function InputAt(s: Desk, id: nat, sight: Sight): Desk {
    if id == s.input then s
    else
      var kept := s.focused.Some? && On(s, s.focused.value) == s.input;
      var q := s.(memory := if kept then s.memory[s.input := s.focused.value] else s.memory, input := id);
      q.(focused := Offered(q, sight))
  }

  /** What asks for the focus gets it only if it is mapped on the workspace with the input. */
  function Shown(s: Desk, sight: Sight, w: Option<Window>): Option<Window> {
    if w.Some? && Visible(s, sight, w.value) then w else None
  }

  /** The focus leaves a window that is no longer on the workspace with the input. */
  function Hidden(s: Desk, sight: Sight): Desk {
    var hidden := s.focused.Some? && On(s, s.focused.value) != s.input;
    if !hidden && !sight.grabbed then s
    else
      var stays := s.focused.Some? && !hidden;
      s.(focused := Shown(s, sight, if stays then s.focused else TopMost(s, sight, |s.windows|)))
  }

  function InSync(s: Desk, sight: Sight): Desk {
    Hidden(s.(member := Synced(TreeOf(s), s.member)), sight)
  }

  /** Every window of the stack that is on `id` goes to `target`. */
  function Emptied(t: Tree, member: map<Window, nat>, id: nat, target: nat, n: nat): map<Window, nat>
    requires n <= |t.windows|
  {
    if n == 0 then member
    else
      var m := Emptied(t, member, id, target, n - 1);
      if Of(t, m, t.windows[n - 1]) == id then m[t.windows[n - 1] := target] else m
  }

  /** The active and the input workspace move away before a workspace goes. */
  function Left(s: Desk, id: nat, target: nat, sight: Sight): Desk {
    var q := if s.active == id then Switched(s, target, sight) else s;
    if q.input == id then InputAt(q, target, sight) else q
  }

  function Taken(s: Desk, id: nat, target: nat): Desk {
    s.(member := Emptied(TreeOf(s), s.member, id, target, |s.windows|),
       entries := Lacking(s.entries, id), memory := s.memory - {id}, panels := DroppedFromAll(s.panels, id))
  }

  function Deleted(s: Desk, id: nat, sight: Sight, after: Sight): Desk {
    if !Exists(s.entries, id) then s
    else match Other(s.entries, id)
      case None => s
      case Some(target) => Published(InSync(Taken(Left(s, id, target, sight), id, target), after))
  }

  function Moved(s: Desk, window: Window, id: nat, sight: Sight): Desk {
    if !Exists(s.entries, id) || On(s, Root(TreeOf(s), window)) == id then s
    else InSync(s.(member := s.member[Root(TreeOf(s), window) := id]), sight)
  }

  /** A new window goes to the workspace of the window it belongs to, else the active one. */
  function Opened(s: Desk, window: Window, at: nat, owner: Option<Window>): Desk
    requires at <= |s.windows|
  {
    s.(windows := s.windows[..at] + [window] + s.windows[at..],
       member := s.member[window := if owner.Some? then On(s, owner.value) else s.active])
  }

  function Closed(s: Desk, window: Window): Desk { s.(windows := Stack.Without1(s.windows, window)) }

  /** A window that should have the focus but is elsewhere has it when its workspace is next. */
  function Remembered(s: Desk, window: Window): Desk { s.(memory := s.memory[On(s, window) := window]) }

  // ----- panels' own requests

  function Finding(panels: seq<Panel>, manager: nat): (i: nat)
    ensures i <= |panels|
    ensures i < |panels| ==> panels[i].manager == manager
  {
    if panels == [] || panels[0].manager == manager then 0 else 1 + Finding(panels[1..], manager)
  }

  function Stopped(panels: seq<Panel>, manager: nat): (r: seq<Panel>)
    ensures forall p :: p in r <==> p in panels && p.manager != manager
  {
    if panels == [] then []
    else if panels[0].manager == manager then Stopped(panels[1..], manager)
    else [panels[0]] + Stopped(panels[1..], manager)
  }

  function Asked(s: Desk, manager: nat, request: Request): Desk {
    var i := Finding(s.panels, manager);
    if i == |s.panels| then s
    else s.(panels := s.panels[i := s.panels[i].(pending := s.panels[i].pending + [request])])
  }

  function Destroyed(s: Desk, manager: nat, id: nat): Desk {
    var i := Finding(s.panels, manager);
    if i == |s.panels| then s else s.(panels := s.panels[i := s.panels[i].(dead := s.panels[i].dead + {id})])
  }

  /** Its own output entered the group: another done, for this client's panels. */
  function OutputEntered(s: Desk, managers: set<nat>): Desk {
    var now := Items(s.entries, s.active);
    s.(panels := seq(|s.panels|, i requires 0 <= i < |s.panels| =>
                   if s.panels[i].manager in managers then Sent(s.panels[i], [Done(now)]) else s.panels[i]))
  }

  type Focus = (Sight, Sight)

  function Obeyed(s: Desk, request: Request, focus: Focus): Desk {
    match request
    case Create(name) => Created(s, Some(name))
    case Activate(id) => Switched(s, id, focus.0)
    case Remove(id) => Deleted(s, id, focus.0, focus.1)
  }

  function ObeyedAll(s: Desk, requests: seq<Request>, focuses: seq<Focus>): Desk
    requires |focuses| == |requests|
    decreases |requests|
  {
    if requests == [] then s else ObeyedAll(Obeyed(s, requests[0], focuses[0]), requests[1..], focuses[1..])
  }

  function Queued(s: Desk, manager: nat): seq<Request> {
    var i := Finding(s.panels, manager);
    if i == |s.panels| then [] else s.panels[i].pending
  }

  function Drained(s: Desk, manager: nat): Desk {
    var i := Finding(s.panels, manager);
    if i == |s.panels| then s else s.(panels := s.panels[i := s.panels[i].(pending := [])])
  }

  /** A commit takes the panel's queue and then obeys it in order. */
  function Committed(s: Desk, manager: nat, focuses: seq<Focus>): Desk
    requires |focuses| == |Queued(s, manager)|
  {
    ObeyedAll(Drained(s, manager), Queued(s, manager), focuses)
  }
}
