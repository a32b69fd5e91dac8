/** Every run of workspace operations: what always holds, and what the panels show. */
module WorkspacesRun {
  import opened Common
  import opened Rotation
  import opened Families
  import opened Workspaces

  datatype Step =
    | Create(called: Option<string>)
    | Rename(id: nat, name: string)
    | Delete(id: nat, sight: Sight, after: Sight)
    | Switch(id: nat, sight: Sight)
    | Input(under: Option<Window>, sight: Sight)
    | Move(window: Window, id: nat, sight: Sight)
    | Sync(sight: Sight)
    | Focus(target: Option<Window>, sight: Sight)
    | Remember(window: Window)
    | Open(window: Window, at: nat, owner: Option<Window>)
    | Close(window: Window)
    | Restack(windows: seq<Window>)
    | Reparent(parents: map<Window, Window>)
    | Bind(manager: nat)
    | Stop(manager: nat)
    | Destroy(manager: nat, id: nat)
    | Ask(manager: nat, request: Request)
    | Commit(manager: nat, focuses: seq<Workspaces.Focus>)
    | Output(managers: set<nat>)

  predicate Same(a: seq<Window>, b: seq<Window>) {
    (forall w :: w in a ==> w in b) && (forall w :: w in b ==> w in a)
  }

  /** A window object is opened once; its owner is in the stack or has the focus. */
  predicate Enabled(s: Desk, step: Step) {
    match step
    case Open(w, at, owner) => w !in s.member && at <= |s.windows| && (owner.Some? ==> owner.value in s.windows || owner == s.focused)
    case Input(w, _) => w.Some? ==> w.value in s.windows
    case Move(w, _, _) => w in s.windows
    case Remember(w) => w in s.windows && On(s, w) != s.input
    case Restack(windows) => |windows| == |s.windows| && Same(windows, s.windows)
    case Destroy(m, id) => exists p :: p in s.panels && p.manager == m && id in p.handles
    case Commit(m, focuses) => |focuses| == |Queued(s, m)|
    case _ => true
  }

  function Do(s: Desk, step: Step): Desk
    requires Enabled(s, step)
  {
    match step
    case Create(name) => Created(s, name)
    case Rename(id, name) => Renamed(s, id, name)
    case Delete(id, sight, after) => Deleted(s, id, sight, after)
    case Switch(id, sight) => Switched(s, id, sight)
    case Input(w, sight) => InputAt(s, if w.Some? then On(s, w.value) else s.active, sight)
    case Move(w, id, sight) => Moved(s, w, id, sight)
    case Sync(sight) => InSync(s, sight)
    case Focus(w, sight) => s.(focused := Workspaces.Shown(s, sight, w))
    case Remember(w) => Remembered(s, w)
    case Open(w, at, owner) => Opened(s, w, at, owner)
    case Close(w) => Closed(s, w)
    case Restack(windows) => s.(windows := windows)
    case Reparent(parents) => s.(parents := parents)
    case Bind(m) => s.(panels := s.panels + [Bound(m, s.entries, s.active)])
    case Stop(m) => s.(panels := Stopped(s.panels, m))
    case Destroy(m, id) => Destroyed(s, m, id)
    case Ask(m, request) => Asked(s, m, request)
    case Commit(m, focuses) => Committed(s, m, focuses)
    case Output(managers) => OutputEntered(s, managers)
  }

  // ----- the workspaces themselves

  function Limit(next: Option<nat>): nat { if next.Some? then next.value else ID_LIMIT }

  ghost predicate Entries(entries: seq<Entry>, next: Option<nat>) {
    && entries != []
    && Distinct(Ids(entries))
    && (forall i :: 0 <= i < |entries| ==> 1 <= entries[i].id < Limit(next) && Proper(entries[i].name))
    && (next.Some? ==> 1 <= next.value < ID_LIMIT)
  }

  /** Every window of the stack, and the focused one, has a membership that exists. */
  ghost predicate Placed(s: Desk) {
    && Exists(s.entries, s.active) && Exists(s.entries, s.input)
    && (forall w :: w in s.windows ==> w in s.member && Exists(s.entries, s.member[w]))
    && (s.focused.Some? ==> s.focused.value in s.member && s.member[s.focused.value] == s.input)
  }

  ghost predicate Core(s: Desk) { Entries(s.entries, s.next) && Placed(s) }

  lemma ExistsIn(entries: seq<Entry>, id: nat)
    ensures Exists(entries, id) <==> id in Ids(entries)
    ensures Exists(entries, id) <==> exists e :: e in entries && e.id == id
  {
    if Exists(entries, id) {
      var i :| 0 <= i < |entries| && entries[i].id == id;
      assert Ids(entries)[i] == id && entries[i] in entries;
    }
  }

  lemma {:induction false} RetitledIs(entries: seq<Entry>, id: nat, name: string)
    requires Distinct(Ids(entries))
    ensures Ids(Retitled(entries, id, name)) == Ids(entries)
    ensures forall i :: 0 <= i < |entries| ==>
      Retitled(entries, id, name)[i] == if entries[i].id == id then Entry(id, name) else entries[i]
  {
    if entries != [] {
      assert forall i :: 0 <= i < |entries| - 1 ==> Ids(entries[1..])[i] == Ids(entries)[i + 1];
      assert forall i :: 0 < i < |entries| ==> Ids(entries)[i] != Ids(entries)[0];
      RetitledIs(entries[1..], id, name);
    }
  }

  lemma {:induction false} WithoutDistinct(entries: seq<Entry>, id: nat)
    requires Distinct(Ids(entries))
    ensures Distinct(Ids(Lacking(entries, id)))
    ensures Ids(Lacking(entries, id)) == Others(Ids(entries), id)
  {
    if entries != [] {
      assert Ids(entries)[1..] == Ids(entries[1..]);
      WithoutDistinct(entries[1..], id);
      var rest := Lacking(entries[1..], id);
      if entries[0].id != id {
        assert Ids([entries[0]] + rest) == [entries[0].id] + Ids(rest);
        forall i | 0 <= i < |rest| ensures Ids(rest)[i] != entries[0].id {
          assert Ids(rest)[i] in Ids(entries[1..]);
        }
      }
    }
  }

  lemma EntriesKept(entries: seq<Entry>, next: Option<nat>, id: nat)
    requires Entries(entries, next) && Other(entries, id).Some?
    ensures Entries(Lacking(entries, id), next)
    ensures forall w :: Exists(Lacking(entries, id), w) <==> Exists(entries, w) && w != id
  {
    WithoutDistinct(entries, id);
    var r := Lacking(entries, id);
    forall w ensures Exists(r, w) <==> Exists(entries, w) && w != id {
      ExistsIn(r, w);
      ExistsIn(entries, w);
    }
    forall i | 0 <= i < |r| ensures 1 <= r[i].id < Limit(next) && Proper(r[i].name) {
      assert r[i] in r;
    }
  }

  lemma CreateKeeps(s: Desk, name: Option<string>)
    requires Core(s)
    ensures Core(Created(s, name))
  {
    hide Blank, Fits, Decimal;
    if s.next.Some? {
      var id := s.next.value;
      NumberIsProper(id);
      var entry := Entry(id, Called(name, id));
      if Fits(entry.name) {
        var q := s.entries + [entry];
        assert Ids(q) == Ids(s.entries) + [id];
        forall x | Exists(s.entries, x) ensures Exists(q, x) {
          var i :| 0 <= i < |s.entries| && s.entries[i].id == x;
          assert q[i].id == x;
        }
      }
    }
  }

  lemma {:induction false} NameFound(entries: seq<Entry>, id: nat)
    ensures NameOf(entries, id).Some? <==> Exists(entries, id)
  {
    if entries != [] {
      NameFound(entries[1..], id);
      ExistsIn(entries, id);
      ExistsIn(entries[1..], id);
    }
  }

  lemma RenameKeeps(s: Desk, id: nat, name: string)
    requires Core(s)
    ensures Core(Renamed(s, id, name))
  {
    if Renamed(s, id, name) != s {
      RetitledIs(s.entries, id, name);
      var q := Retitled(s.entries, id, name);
      forall x | Exists(s.entries, x) ensures Exists(q, x) {
        var i :| 0 <= i < |s.entries| && s.entries[i].id == x;
        assert q[i].id == x;
      }
    }
  }

  /** The last window that was offered the focus is on the workspace with the input. */
  lemma SwitchKeeps(s: Desk, id: nat, sight: Sight)
    requires Core(s)
    ensures Core(Switched(s, id, sight))
    ensures Exists(s.entries, id) ==> Switched(s, id, sight).active == id
  {
  }

  lemma InputKeeps(s: Desk, id: nat, sight: Sight)
    requires Core(s) && Exists(s.entries, id)
    ensures Core(InputAt(s, id, sight))
  {
  }

  lemma SyncKeeps(s: Desk, sight: Sight)
    requires Entries(s.entries, s.next) && Exists(s.entries, s.active) && Exists(s.entries, s.input)
    requires forall w :: w in s.windows ==> w in s.member && Exists(s.entries, s.member[w])
    requires s.focused.Some? ==> s.focused.value in s.member
    ensures Core(InSync(s, sight))
  {
    var places := set i | 0 <= i < |s.entries| :: s.entries[i].id;
    RoundsCopy(TreeOf(s), s.member, |s.windows|, places);
  }

  lemma {:induction false} EmptiedIs(t: Tree, member: map<Window, nat>, id: nat, target: nat, n: nat)
    requires n <= |t.windows| && id != target && forall w :: w in t.windows ==> w in member
    ensures var m := Emptied(t, member, id, target, n);
      && m.Keys == member.Keys
      && (forall i :: 0 <= i < n ==> m[t.windows[i]] == if member[t.windows[i]] == id then target else member[t.windows[i]])
      && (forall w :: w in m ==> m[w] == member[w] || (member[w] == id && m[w] == target))
    decreases n
  {
    if n > 0 { EmptiedIs(t, member, id, target, n - 1); }
  }

  lemma LeftKeeps(s: Desk, id: nat, target: nat, sight: Sight)
    requires Core(s) && Exists(s.entries, target) && target != id
    ensures var q := Left(s, id, target, sight);
      && Core(q) && q.active != id && q.input != id
      && q.entries == s.entries && q.windows == s.windows && q.member == s.member && q.next == s.next && q.parents == s.parents
  {
    SwitchKeeps(s, target, sight);
    var q := if s.active == id then Switched(s, target, sight) else s;
    if q.input == id { InputKeeps(q, target, sight); }
  }

  lemma DeleteKeeps(s: Desk, id: nat, sight: Sight, after: Sight)
    requires Core(s)
    ensures Core(Deleted(s, id, sight, after))
  {
    hide Items, Synced, Emptied, Lacking, Left, Exists;
    var target := Other(s.entries, id);
    if Exists(s.entries, id) && target.Some? {
      LeftKeeps(s, id, target.value, sight);
      EntriesKept(s.entries, s.next, id);
      var q := Left(s, id, target.value, sight);
      EmptiedIs(TreeOf(q), q.member, id, target.value, |q.windows|);
      var r := Taken(q, id, target.value);
      forall w | w in r.windows ensures w in r.member && Exists(r.entries, r.member[w]) {
        var i :| 0 <= i < |r.windows| && r.windows[i] == w;
      }
      SyncKeeps(r, after);
    }
  }

  lemma {:induction false} RootInStack(t: Tree, root: Window, seen: set<Window>)
    requires root in t.windows
    ensures Climb(t, root, seen) in t.windows
    decreases |Families.Mapped(t) - seen|
  {
    var parent := Parent(t, root);
    if parent.Some? && parent.value !in seen {
      Smaller(Families.Mapped(t) - (seen + {parent.value}), Families.Mapped(t) - seen, parent.value);
      RootInStack(t, parent.value, seen + {parent.value});
    }
  }

  lemma MoveKeeps(s: Desk, w: Window, id: nat, sight: Sight)
    requires Core(s) && w in s.windows
    ensures Core(Moved(s, w, id, sight))
  {
    if Moved(s, w, id, sight) != s {
      RootInStack(TreeOf(s), w, {w});
      SyncKeeps(s.(member := s.member[Root(TreeOf(s), w) := id]), sight);
    }
  }

  lemma OpenKeeps(s: Desk, w: Window, at: nat, owner: Option<Window>)
    requires Core(s) && Enabled(s, Open(w, at, owner))
    ensures Core(Opened(s, w, at, owner))
  {
  }

  lemma ObeyKeeps(s: Desk, request: Request, focus: Workspaces.Focus)
    requires Core(s)
    ensures Core(Obeyed(s, request, focus))
  {
    match request
    case Create(name) => CreateKeeps(s, Some(name));
    case Activate(id) => SwitchKeeps(s, id, focus.0);
    case Remove(id) => DeleteKeeps(s, id, focus.0, focus.1);
  }

  lemma {:induction false} ObeyAllKeeps(s: Desk, requests: seq<Request>, focuses: seq<Workspaces.Focus>)
    requires Core(s) && |focuses| == |requests|
    ensures Core(ObeyedAll(s, requests, focuses))
    decreases |requests|
  {
    if requests != [] {
      ObeyKeeps(s, requests[0], focuses[0]);
      ObeyAllKeeps(Obeyed(s, requests[0], focuses[0]), requests[1..], focuses[1..]);
    }
  }

  lemma RestackKeeps(s: Desk, windows: seq<Window>)
    requires Core(s) && Same(windows, s.windows)
    ensures Core(s.(windows := windows))
  {
  }

  lemma CommitKeeps(s: Desk, manager: nat, focuses: seq<Workspaces.Focus>)
    requires Core(s) && |focuses| == |Queued(s, manager)|
    ensures Core(Committed(s, manager, focuses))
  {
    ObeyAllKeeps(Drained(s, manager), Queued(s, manager), focuses);
  }

  lemma StepKeepsCore(s: Desk, step: Step)
    requires Core(s) && Enabled(s, step)
    ensures Core(Do(s, step))
  {
    hide Entries, Created, Renamed, Deleted, Moved, Committed, Synced, Offered, TopMost;
    match step
    case Create(name) => CreateKeeps(s, name);
    case Rename(id, name) => RenameKeeps(s, id, name);
    case Delete(id, sight, after) => DeleteKeeps(s, id, sight, after);
    case Switch(id, sight) => SwitchKeeps(s, id, sight);
    case Input(w, sight) => InputKeeps(s, if w.Some? then On(s, w.value) else s.active, sight);
    case Move(w, id, sight) => MoveKeeps(s, w, id, sight);
    case Sync(sight) => SyncKeeps(s, sight);
    case Open(w, at, owner) => OpenKeeps(s, w, at, owner);
    case Restack(windows) => RestackKeeps(s, windows);
    case Commit(m, focuses) => CommitKeeps(s, m, focuses);
    case _ =>
  }

  // ----- identifiers

  /** Ids only come from the counter, and the counter only rises. */
  ghost predicate Later(s: Desk, q: Desk) {
    && Limit(s.next) <= Limit(q.next)
    && forall id :: Exists(q.entries, id) ==> Exists(s.entries, id) || Limit(s.next) <= id
  }

  lemma LaterAgain(s: Desk, q: Desk, r: Desk)
    requires Later(s, q) && Later(q, r)
    ensures Later(s, r)
  {
  }

  lemma CreateLater(s: Desk, name: Option<string>)
    requires Core(s)
    ensures Later(s, Created(s, name))
  {
    var q := Created(s, name);
    forall id | Exists(q.entries, id) ensures Exists(s.entries, id) || Limit(s.next) <= id {
      var i :| 0 <= i < |q.entries| && q.entries[i].id == id;
      if i < |s.entries| { assert s.entries[i].id == id; }
    }
  }

  lemma RenameLater(s: Desk, id: nat, name: string)
    requires Core(s)
    ensures Later(s, Renamed(s, id, name))
  {
    RetitledIs(s.entries, id, name);
    var q := Renamed(s, id, name);
    forall x | Exists(q.entries, x) ensures Exists(s.entries, x) {
      var i :| 0 <= i < |q.entries| && q.entries[i].id == x;
      assert s.entries[i].id == x;
    }
  }

  lemma DeleteLater(s: Desk, id: nat, sight: Sight, after: Sight)
    requires Core(s)
    ensures Later(s, Deleted(s, id, sight, after))
  {
    hide Items, Synced, Emptied, Lacking, Left, Exists;
    var target := Other(s.entries, id);
    if Exists(s.entries, id) && target.Some? {
      LeftKeeps(s, id, target.value, sight);
      EntriesKept(s.entries, s.next, id);
    }
  }

  lemma ObeyLater(s: Desk, request: Request, focus: Workspaces.Focus)
    requires Core(s)
    ensures Later(s, Obeyed(s, request, focus))
  {
    match request
    case Create(name) => CreateLater(s, Some(name));
    case Activate(id) =>
    case Remove(id) => DeleteLater(s, id, focus.0, focus.1);
  }

  lemma {:induction false} ObeyAllLater(s: Desk, requests: seq<Request>, focuses: seq<Workspaces.Focus>)
    requires Core(s) && |focuses| == |requests|
    ensures Later(s, ObeyedAll(s, requests, focuses))
    decreases |requests|
  {
    if requests != [] {
      var q := Obeyed(s, requests[0], focuses[0]);
      ObeyKeeps(s, requests[0], focuses[0]);
      ObeyLater(s, requests[0], focuses[0]);
      ObeyAllLater(q, requests[1..], focuses[1..]);
      LaterAgain(s, q, ObeyedAll(q, requests[1..], focuses[1..]));
    }
  }

  lemma CommitLater(s: Desk, manager: nat, focuses: seq<Workspaces.Focus>)
    requires Core(s) && |focuses| == |Queued(s, manager)|
    ensures Later(s, Committed(s, manager, focuses))
  {
    ObeyAllLater(Drained(s, manager), Queued(s, manager), focuses);
  }

  lemma StepLater(s: Desk, step: Step)
    requires Core(s) && Enabled(s, step)
    ensures Later(s, Do(s, step))
  {
    hide Core, Created, Renamed, Deleted, Committed, Synced, Offered, TopMost;
    match step
    case Create(name) => CreateLater(s, name);
    case Rename(id, name) => RenameLater(s, id, name);
    case Delete(id, sight, after) => DeleteLater(s, id, sight, after);
    case Commit(m, focuses) => CommitLater(s, m, focuses);
    case _ =>
  }

  // ----- what the panels show

  lemma {:induction false} WatchAppend(view: map<nat, Item>, a: seq<Event>, b: seq<Event>)
    ensures Watch(view, a + b) == Watch(Watch(view, a), b)
    decreases |a|
  {
    if a == [] {
      assert a + b == b;
    } else {
      assert (a + b)[1..] == a[1..] + b;
      WatchAppend(Heard(view, a[0]), a[1..], b);
    }
  }

  lemma WatchAdd(view: map<nat, Item>, e: Entry, active: nat)
    ensures Watch(view, AddEvents(e, active)) == view[e.id := Item(e.name, e.id == active, true)]
  {
    var events := AddEvents(e, active);
    WatchNext(view, events);
    WatchNext(Heard(view, events[0]), events[1..]);
    WatchNext(Heard(Heard(view, events[0]), events[1]), events[2..]);
    WatchNext(Heard(Heard(Heard(view, events[0]), events[1]), events[2]), events[3..]);
    assert events[4..] == [];
  }

  lemma WatchNext(view: map<nat, Item>, events: seq<Event>)
    requires events != []
    ensures Watch(view, events) == Watch(Heard(view, events[0]), events[1..])
    ensures forall i {:trigger events[i..]} :: 1 <= i <= |events| ==> events[1..][i - 1..] == events[i..]
  {
  }

  lemma {:induction false} WatchStates(view: map<nat, Item>, handles: seq<nat>, dead: set<nat>, active: nat)
    ensures var v := Watch(view, StateEvents(handles, dead, active));
      && v.Keys == view.Keys
      && forall id :: id in view ==>
           v[id] == if id in handles && id !in dead then view[id].(active := id == active) else view[id]
    decreases |handles|
  {
    if handles != [] {
      var id := handles[0];
      if id in dead {
        assert [] + StateEvents(handles[1..], dead, active) == StateEvents(handles[1..], dead, active);
        WatchStates(view, handles[1..], dead, active);
      } else {
        var rest := StateEvents(handles[1..], dead, active);
        assert ([State(id, id == active)] + rest)[1..] == rest;
        WatchStates(Heard(view, State(id, id == active)), handles[1..], dead, active);
      }
    }
  }

  lemma {:induction false} WatchNames(view: map<nat, Item>, handles: seq<nat>, dead: set<nat>, id: nat, name: string)
    ensures var v := Watch(view, NameEvents(handles, dead, id, name));
      v == if id in handles && id !in dead && id in view then view[id := view[id].(name := name)] else view
    decreases |handles|
  {
    if handles != [] {
      var rest := NameEvents(handles[1..], dead, id, name);
      if handles[0] == id && id !in dead {
        assert ([Name(id, name)] + rest)[1..] == rest;
        WatchNames(Heard(view, Name(id, name)), handles[1..], dead, id, name);
      } else {
        assert [] + rest == rest;
        WatchNames(view, handles[1..], dead, id, name);
      }
    }
  }

  lemma {:induction false} WatchDrops(view: map<nat, Item>, handles: seq<nat>, dead: set<nat>, id: nat)
    ensures Watch(view, DropEvents(handles, dead, id)) == if id in handles && id !in dead then view - {id} else view
    decreases |handles|
  {
    if handles != [] {
      var rest := DropEvents(handles[1..], dead, id);
      if handles[0] == id && id !in dead {
        var events := [Leave(id), Removed(id)] + rest;
        assert events[1..][1..] == rest;
        WatchDrops(Heard(Heard(view, Leave(id)), Removed(id)), handles[1..], dead, id);
      } else {
        assert [] + rest == rest;
        WatchDrops(view, handles[1..], dead, id);
      }
    }
  }

  lemma {:induction false} ItemsAre(entries: seq<Entry>, active: nat)
    requires Distinct(Ids(entries))
    ensures forall id :: id in Items(entries, active) <==> Exists(entries, id)
    ensures forall i :: 0 <= i < |entries| ==>
      entries[i].id in Items(entries, active)
      && Items(entries, active)[entries[i].id] == Item(entries[i].name, entries[i].id == active, true)
  {
    if entries != [] {
      assert Ids(entries)[1..] == Ids(entries[1..]);
      ItemsAre(entries[1..], active);
      forall id ensures Exists(entries, id) <==> Exists(entries[1..], id) || id == entries[0].id {
        ExistsIn(entries, id);
        ExistsIn(entries[1..], id);
      }
      forall i | 0 < i < |entries| ensures entries[i].id != entries[0].id && entries[1..][i - 1] == entries[i] {
        assert Ids(entries)[i] != Ids(entries)[0];
      }
    }
  }

  lemma ItemAt(entries: seq<Entry>, active: nat, id: nat) returns (i: nat)
    requires Distinct(Ids(entries)) && id in Items(entries, active)
    ensures i < |entries| && entries[i].id == id
    ensures Items(entries, active)[id] == Item(entries[i].name, id == active, true)
  {
    ItemsAre(entries, active);
    i :| 0 <= i < |entries| && entries[i].id == id;
  }

  lemma ItemsAppend(entries: seq<Entry>, e: Entry, active: nat)
    requires Distinct(Ids(entries + [e]))
    ensures Items(entries + [e], active) == Items(entries, active)[e.id := Item(e.name, e.id == active, true)]
  {
    var q := entries + [e];
    assert Ids(q) == Ids(entries) + [e.id];
    assert forall i :: 0 <= i < |entries| ==> Ids(q)[i] == Ids(entries)[i];
    ItemsAre(q, active);
    ItemsAre(entries, active);
    assert q[|entries|] == e;
    forall id ensures Exists(q, id) <==> Exists(entries, id) || id == e.id {
      if Exists(entries, id) {
        var i :| 0 <= i < |entries| && entries[i].id == id;
        assert q[i].id == id;
      }
    }
    forall id | Exists(entries, id) ensures Items(q, active)[id] == Items(entries, active)[id] {
      var i :| 0 <= i < |entries| && entries[i].id == id;
      assert q[i] == entries[i];
    }
  }

  lemma ItemsSwitch(entries: seq<Entry>, was: nat, now: nat)
    requires Distinct(Ids(entries))
    ensures Items(entries, was).Keys == Items(entries, now).Keys
    ensures forall id :: id in Items(entries, now) ==> Items(entries, now)[id] == Items(entries, was)[id].(active := id == now)
  {
    ItemsAre(entries, was);
    ItemsAre(entries, now);
    forall id | id in Items(entries, now) ensures Items(entries, now)[id] == Items(entries, was)[id].(active := id == now) {
      var i := ItemAt(entries, now, id);
    }
  }

  lemma ItemsRename(entries: seq<Entry>, active: nat, id: nat, name: string)
    requires Distinct(Ids(entries)) && Exists(entries, id)
    ensures id in Items(entries, active)
    ensures Items(Retitled(entries, id, name), active) == Items(entries, active)[id := Items(entries, active)[id].(name := name)]
  {
    ItemsAre(entries, active);
    forall x { RenamedItem(entries, active, id, name, x); }
    OneRenamed(Items(entries, active), Items(Retitled(entries, id, name), active), id, name);
  }

  lemma OneRenamed(was: map<nat, Item>, now: map<nat, Item>, id: nat, name: string)
    requires id in was
    requires forall x :: x in now <==> x in was
    requires forall x :: x in now ==> now[x] == if x == id then was[x].(name := name) else was[x]
    ensures now == was[id := was[id].(name := name)]
  {
  }

  lemma RenamedItem(entries: seq<Entry>, active: nat, id: nat, name: string, x: nat)
    requires Distinct(Ids(entries))
    ensures var was, now := Items(entries, active), Items(Retitled(entries, id, name), active);
      && (x in now <==> x in was)
      && (x in now ==> now[x] == if x == id then was[x].(name := name) else was[x])
  {
    RetitledIs(entries, id, name);
    var q := Retitled(entries, id, name);
    ItemsAre(entries, active);
    ItemsAre(q, active);
    ExistsIn(q, x);
    ExistsIn(entries, x);
    if x in Items(q, active) {
      var i := ItemAt(q, active, x);
      assert entries[i].id == x;
    }
  }

  lemma ItemsDrop(entries: seq<Entry>, active: nat, id: nat)
    requires Distinct(Ids(entries))
    ensures Items(Lacking(entries, id), active) == Items(entries, active) - {id}
  {
    hide Items, Ids, Others, Lacking, Exists;
    var q := Lacking(entries, id);
    WithoutDistinct(entries, id);
    ItemsAre(entries, active);
    ItemsAre(q, active);
    forall x ensures x in Items(q, active) <==> x in Items(entries, active) && x != id { ExistsIn(q, x); ExistsIn(entries, x); }
    forall x | x in Items(q, active) ensures Items(q, active)[x] == Items(entries, active)[x] {
      SameItem(entries, q, active, x);
    }
    OneDropped(Items(entries, active), Items(q, active), id);
  }

  lemma OneDropped(was: map<nat, Item>, now: map<nat, Item>, id: nat)
    requires forall x :: x in now <==> x in was && x != id
    requires forall x :: x in now ==> now[x] == was[x]
    ensures now == was - {id}
  {
  }

  lemma SameItem(entries: seq<Entry>, q: seq<Entry>, active: nat, id: nat)
    requires Distinct(Ids(entries)) && Distinct(Ids(q)) && id in Items(q, active)
    requires forall e :: e in q ==> e in entries
    ensures id in Items(entries, active) && Items(q, active)[id] == Items(entries, active)[id]
  {
    var i := ItemAt(q, active, id);
    assert q[i] in entries;
    var j :| 0 <= j < |entries| && entries[j] == q[i];
    ItemsAre(entries, active);
  }

  /** The events sent so far show exactly the current workspaces, apart from handles the
      panel destroyed itself; and so they did at every done. */
  ghost predicate Shows(p: Panel, entries: seq<Entry>, active: nat) {
    && p.handles == Ids(entries)
    && Watch(map[], p.log) - p.dead == Items(entries, active) - p.dead
    && ToldRight(p.log, p.dead)
  }

  ghost predicate ToldRight(log: seq<Event>, dead: set<nat>) {
    forall i :: 0 <= i < |log| && log[i].Done? ==> Watch(map[], log[..i]) - dead == log[i].now - dead
  }

  ghost predicate AtRest(p: Panel) { p.log != [] && p.log[|p.log| - 1].Done? }

  lemma MoreQuiet(log: seq<Event>, events: seq<Event>, dead: set<nat>)
    requires ToldRight(log, dead) && forall e :: e in events ==> !e.Done?
    ensures ToldRight(log + events, dead)
  {
    var q := log + events;
    forall i | |log| <= i < |q| ensures !q[i].Done? { assert q[i] == events[i - |log|]; }
    forall i | 0 <= i < |log| && q[i].Done? ensures Watch(map[], q[..i]) - dead == q[i].now - dead {
      assert q[..i] == log[..i];
    }
  }

  lemma MoreDone(log: seq<Event>, now: map<nat, Item>, dead: set<nat>)
    requires ToldRight(log, dead) && Watch(map[], log) - dead == now - dead
    ensures ToldRight(log + [Done(now)], dead)
    ensures Watch(map[], log + [Done(now)]) == Watch(map[], log)
  {
    var q := log + [Done(now)];
    assert q[..|log|] == log;
    forall i | 0 <= i < |q| && q[i].Done? ensures Watch(map[], q[..i]) - dead == q[i].now - dead {
      if i < |log| { assert q[..i] == log[..i]; }
    }
    WatchAppend(map[], log, [Done(now)]);
    assert [Done(now)][1..] == [];
  }

  lemma AddShows(p: Panel, entries: seq<Entry>, e: Entry, active: nat)
    requires Shows(p, entries, active) && Distinct(Ids(entries + [e]))
    ensures Shows(Added(p, e, active), entries + [e], active)
  {
    var q := Added(p, e, active);
    WatchAppend(map[], p.log, AddEvents(e, active));
    WatchAdd(Watch(map[], p.log), e, active);
    ItemsAppend(entries, e, active);
    MoreQuiet(p.log, AddEvents(e, active), p.dead);
    assert Ids(entries + [e]) == Ids(entries) + [e.id];
    AlikeAfter(Watch(map[], p.log), Items(entries, active), p.dead, e.id, Item(e.name, e.id == active, true));
  }

  lemma AlikeAfter(view: map<nat, Item>, items: map<nat, Item>, dead: set<nat>, id: nat, item: Item)
    requires view - dead == items - dead
    ensures view[id := item] - dead == items[id := item] - dead
  {
    forall x | x !in dead ensures (x in view <==> x in items) && (x in view ==> view[x] == items[x]) {
      assert x in view <==> x in view - dead;
      assert x in items <==> x in items - dead;
    }
  }

  lemma AlikeAt(view: map<nat, Item>, items: map<nat, Item>, dead: set<nat>, id: nat)
    requires view - dead == items - dead && id !in dead
    ensures (id in view <==> id in items) && (id in view ==> view[id] == items[id])
  {
    assert id in view <==> id in view - dead;
    assert id in items <==> id in items - dead;
    if id in view { assert (view - dead)[id] == (items - dead)[id]; }
  }

  lemma {:induction false} AddAllShows(p: Panel, done: seq<Entry>, rest: seq<Entry>, active: nat)
    requires Shows(p, done, active) && Distinct(Ids(done + rest))
    ensures Shows(AddedAll(p, rest, active), done + rest, active)
    ensures AddedAll(p, rest, active).dead == p.dead && AddedAll(p, rest, active).manager == p.manager
    decreases |rest|
  {
    if rest == [] {
      assert done + rest == done;
    } else {
      var more := done + [rest[0]];
      assert more + rest[1..] == done + rest;
      forall i, j | 0 <= i < j < |more| ensures Ids(more)[i] != Ids(more)[j] {
        assert Ids(more)[i] == Ids(done + rest)[i] && Ids(more)[j] == Ids(done + rest)[j];
      }
      AddShows(p, done, rest[0], active);
      AddAllShows(Added(p, rest[0], active), more, rest[1..], active);
    }
  }

  lemma BindShows(manager: nat, entries: seq<Entry>, active: nat)
    requires Distinct(Ids(entries))
    ensures Shows(Bound(manager, entries, active), entries, active) && AtRest(Bound(manager, entries, active))
  {
    var none := Panel(manager, [], {}, [], []);
    assert Ids([]) == [] && [] + entries == entries;
    AddAllShows(none, [], entries, active);
    var p := AddedAll(none, entries, active);
    MoreDone(p.log, Items(entries, active), {});
  }

  lemma StatesAlike(view: map<nat, Item>, entries: seq<Entry>, dead: set<nat>, was: nat, now: nat)
    requires Distinct(Ids(entries)) && view - dead == Items(entries, was) - dead
    ensures Watch(view, StateEvents(Ids(entries), dead, now)) - dead == Items(entries, now) - dead
  {
    WatchStates(view, Ids(entries), dead, now);
    ItemsSwitch(entries, was, now);
    ItemsAre(entries, was);
    var v := Watch(view, StateEvents(Ids(entries), dead, now));
    forall id | id !in dead ensures (id in v <==> id in Items(entries, now)) && (id in v ==> v[id] == Items(entries, now)[id]) {
      AlikeAt(view, Items(entries, was), dead, id);
      ExistsIn(entries, id);
    }
  }

  lemma {:induction false} StatesQuiet(handles: seq<nat>, dead: set<nat>, active: nat)
    ensures forall e :: e in StateEvents(handles, dead, active) ==> !e.Done?
  {
    if handles != [] { StatesQuiet(handles[1..], dead, active); }
  }

  lemma {:induction false} NamesQuiet(handles: seq<nat>, dead: set<nat>, id: nat, name: string)
    ensures forall e :: e in NameEvents(handles, dead, id, name) ==> !e.Done?
  {
    if handles != [] { NamesQuiet(handles[1..], dead, id, name); }
  }

  lemma {:induction false} DropsQuiet(handles: seq<nat>, dead: set<nat>, id: nat)
    ensures forall e :: e in DropEvents(handles, dead, id) ==> !e.Done?
  {
    if handles != [] { DropsQuiet(handles[1..], dead, id); }
  }

  /** Any events that bring the view up to date, and then the done. */
  lemma CatchUp(p: Panel, events: seq<Event>, handles: seq<nat>, entries: seq<Entry>, active: nat)
    requires ToldRight(p.log, p.dead) && handles == Ids(entries) && forall e :: e in events ==> !e.Done?
    requires Watch(Watch(map[], p.log), events) - p.dead == Items(entries, active) - p.dead
    ensures var q := Sent(p, events + [Done(Items(entries, active))]).(handles := handles);
      Shows(q, entries, active) && AtRest(q)
  {
    WatchAppend(map[], p.log, events);
    MoreQuiet(p.log, events, p.dead);
    MoreDone(p.log + events, Items(entries, active), p.dead);
    assert p.log + (events + [Done(Items(entries, active))]) == (p.log + events) + [Done(Items(entries, active))];
  }

  lemma PublishShows(p: Panel, entries: seq<Entry>, was: nat, now: nat)
    requires Distinct(Ids(entries)) && Shows(p, entries, was)
    ensures Shows(Refreshed(p, Items(entries, now), now), entries, now) && AtRest(Refreshed(p, Items(entries, now), now))
  {
    StatesAlike(Watch(map[], p.log), entries, p.dead, was, now);
    StatesQuiet(p.handles, p.dead, now);
    CatchUp(p, StateEvents(p.handles, p.dead, now), p.handles, entries, now);
  }

  lemma RenameShows(p: Panel, entries: seq<Entry>, active: nat, id: nat, name: string)
    requires Distinct(Ids(entries)) && Shows(p, entries, active) && Exists(entries, id)
    ensures var r := Retitled(entries, id, name);
      Shows(Renaming(p, id, name, Items(r, active)), r, active) && AtRest(Renaming(p, id, name, Items(r, active)))
  {
    var view := Watch(map[], p.log);
    RetitledIs(entries, id, name);
    ItemsRename(entries, active, id, name);
    WatchNames(view, p.handles, p.dead, id, name);
    ExistsIn(entries, id);
    NamesQuiet(p.handles, p.dead, id, name);
    TitleAlike(view, Items(entries, active), p.dead, id, name);
    CatchUp(p, NameEvents(p.handles, p.dead, id, name), p.handles, Retitled(entries, id, name), active);
  }

  lemma TitleAlike(view: map<nat, Item>, items: map<nat, Item>, dead: set<nat>, id: nat, name: string)
    requires view - dead == items - dead && id in items
    ensures var v := if id !in dead && id in view then view[id := view[id].(name := name)] else view;
      v - dead == items[id := items[id].(name := name)] - dead
  {
    if id in dead {
      assert items[id := items[id].(name := name)] - dead == items - dead;
    } else {
      AlikeAt(view, items, dead, id);
      AlikeAfter(view, items, dead, id, items[id].(name := name));
    }
  }

  lemma DropShows(p: Panel, entries: seq<Entry>, active: nat, id: nat)
    requires Distinct(Ids(entries)) && Shows(p, entries, active)
    ensures Shows(Dropping(p, id), Lacking(entries, id), active)
  {
    var view := Watch(map[], p.log);
    WatchDrops(view, p.handles, p.dead, id);
    WatchAppend(map[], p.log, DropEvents(p.handles, p.dead, id));
    WithoutDistinct(entries, id);
    ItemsDrop(entries, active, id);
    ItemsAre(entries, active);
    ExistsIn(entries, id);
    DropsQuiet(p.handles, p.dead, id);
    MoreQuiet(p.log, DropEvents(p.handles, p.dead, id), p.dead);
    AlikeWithout(view, Items(entries, active), p.dead, id);
  }

  lemma AlikeWithout(view: map<nat, Item>, items: map<nat, Item>, dead: set<nat>, id: nat)
    requires view - dead == items - dead
    ensures (view - {id}) - dead == (items - {id}) - dead
    ensures id !in items || id in dead ==> view - dead == (items - {id}) - dead
  {
    assert (view - {id}) - dead == (view - dead) - {id};
    assert (items - {id}) - dead == (items - dead) - {id};
    if id !in items || id in dead { assert (items - dead) - {id} == items - dead; }
  }

  /** A panel that destroys a handle keeps seeing the others right. */
  lemma DestroyShows(p: Panel, entries: seq<Entry>, active: nat, id: nat)
    requires Shows(p, entries, active)
    ensures Shows(p.(dead := p.dead + {id}), entries, active)
  {
    var q := p.(dead := p.dead + {id});
    LessAlike(Watch(map[], p.log), Items(entries, active), p.dead, id);
    forall i | 0 <= i < |p.log| && p.log[i].Done? ensures Watch(map[], p.log[..i]) - q.dead == p.log[i].now - q.dead {
      LessAlike(Watch(map[], p.log[..i]), p.log[i].now, p.dead, id);
    }
  }

  lemma LessAlike(view: map<nat, Item>, items: map<nat, Item>, dead: set<nat>, id: nat)
    requires view - dead == items - dead
    ensures view - (dead + {id}) == items - (dead + {id})
  {
    assert view - (dead + {id}) == (view - dead) - {id};
    assert items - (dead + {id}) == (items - dead) - {id};
  }

  lemma OutputShows(p: Panel, entries: seq<Entry>, active: nat)
    requires Shows(p, entries, active)
    ensures Shows(Sent(p, [Done(Items(entries, active))]), entries, active) && AtRest(Sent(p, [Done(Items(entries, active))]))
  {
    MoreDone(p.log, Items(entries, active), p.dead);
  }

  // ----- all panels, and the viewers

  ghost predicate Viewed(panels: seq<Panel>, entries: seq<Entry>, active: nat) {
    forall i :: 0 <= i < |panels| ==> Shows(panels[i], entries, active)
  }

  ghost predicate Rested(panels: seq<Panel>) { forall i :: 0 <= i < |panels| ==> AtRest(panels[i]) }

  /** The list the viewers were last sent. */
  function Latest(told: seq<Snapshot>): Snapshot {
    if told == [] then Snapshot(START.active, START.entries) else told[|told| - 1]
  }

  ghost predicate Views(s: Desk) {
    && Viewed(s.panels, s.entries, s.active) && Rested(s.panels)
    && Latest(s.told) == Snapshot(s.active, s.entries)
  }

  lemma PublishViews(s: Desk, was: nat)
    requires Distinct(Ids(s.entries)) && Viewed(s.panels, s.entries, was)
    ensures Views(Published(s))
  {
    forall i | 0 <= i < |s.panels|
      ensures Shows(Published(s).panels[i], s.entries, s.active) && AtRest(Published(s).panels[i])
    {
      PublishShows(s.panels[i], s.entries, was, s.active);
    }
  }

  lemma CreateViews(s: Desk, name: Option<string>)
    requires Core(s) && Views(s)
    ensures Views(Created(s, name))
  {
    if s.next.Some? && Fits(Called(name, s.next.value)) {
      var e := Entry(s.next.value, Called(name, s.next.value));
      CreateKeeps(s, name);
      forall i | 0 <= i < |s.panels| ensures Shows(AddedToAll(s.panels, e, s.active)[i], s.entries + [e], s.active) {
        AddShows(s.panels[i], s.entries, e, s.active);
      }
      var next := if s.next.value + 1 < ID_LIMIT then Some(s.next.value + 1) else None;
      PublishViews(s.(next := next, panels := AddedToAll(s.panels, e, s.active), entries := s.entries + [e]), s.active);
    }
  }

  lemma RenameViews(s: Desk, id: nat, name: string)
    requires Core(s) && Views(s)
    ensures Views(Renamed(s, id, name))
  {
    NameFound(s.entries, id);
    var q := Renamed(s, id, name);
    if q != s {
      forall i | 0 <= i < |s.panels| ensures Shows(q.panels[i], q.entries, s.active) && AtRest(q.panels[i]) {
        RenameShows(s.panels[i], s.entries, s.active, id, name);
      }
    }
  }

  lemma SwitchViews(s: Desk, id: nat, sight: Sight)
    requires Core(s) && Views(s)
    ensures Views(Switched(s, id, sight))
  {
    PublishViews(s.(active := id, input := id), s.active);
  }

  lemma TakeViews(s: Desk, id: nat, target: nat)
    requires Core(s) && Viewed(s.panels, s.entries, s.active)
    ensures var q := Taken(s, id, target); Viewed(q.panels, q.entries, q.active)
  {
    var q := Taken(s, id, target);
    forall i | 0 <= i < |s.panels| ensures Shows(q.panels[i], q.entries, q.active) {
      DropShows(s.panels[i], s.entries, s.active, id);
    }
  }

  lemma LeftViews(s: Desk, id: nat, target: nat, sight: Sight)
    requires Core(s) && Views(s)
    ensures var q := Left(s, id, target, sight); Viewed(q.panels, q.entries, q.active)
  {
    SwitchViews(s, target, sight);
    hide Core, Viewed, Rested, Published;
  }

  lemma DeleteViews(s: Desk, id: nat, sight: Sight, after: Sight)
    requires Core(s) && Views(s)
    ensures Views(Deleted(s, id, sight, after))
  {
    hide Viewed, Rested, Items, Synced, Emptied, Lacking, Left;
    var target := Other(s.entries, id);
    if Exists(s.entries, id) && target.Some? {
      LeftViews(s, id, target.value, sight);
      LeftKeeps(s, id, target.value, sight);
      EntriesKept(s.entries, s.next, id);
      var q := Left(s, id, target.value, sight);
      TakeViews(q, id, target.value);
      PublishViews(InSync(Taken(q, id, target.value), after), q.active);
    }
  }

  lemma ObeyViews(s: Desk, request: Request, focus: Workspaces.Focus)
    requires Core(s) && Views(s)
    ensures Views(Obeyed(s, request, focus))
  {
    match request
    case Create(name) => CreateViews(s, Some(name));
    case Activate(id) => SwitchViews(s, id, focus.0);
    case Remove(id) => DeleteViews(s, id, focus.0, focus.1);
  }

  lemma {:induction false} ObeyAllViews(s: Desk, requests: seq<Request>, focuses: seq<Workspaces.Focus>)
    requires Core(s) && Views(s) && |focuses| == |requests|
    ensures Views(ObeyedAll(s, requests, focuses))
    decreases |requests|
  {
    if requests != [] {
      ObeyKeeps(s, requests[0], focuses[0]);
      ObeyViews(s, requests[0], focuses[0]);
      ObeyAllViews(Obeyed(s, requests[0], focuses[0]), requests[1..], focuses[1..]);
    }
  }

  lemma BindViews(s: Desk, manager: nat)
    requires Core(s) && Views(s)
    ensures Views(s.(panels := s.panels + [Workspaces.Bound(manager, s.entries, s.active)]))
  {
    BindShows(manager, s.entries, s.active);
  }

  lemma StopViews(s: Desk, manager: nat)
    requires Views(s)
    ensures Views(s.(panels := Stopped(s.panels, manager)))
  {
    var q := Stopped(s.panels, manager);
    forall i | 0 <= i < |q| ensures Shows(q[i], s.entries, s.active) && AtRest(q[i]) {
      assert q[i] in q;
      var j :| 0 <= j < |s.panels| && s.panels[j] == q[i];
    }
  }

  lemma OutputViews(s: Desk, managers: set<nat>)
    requires Views(s)
    ensures Views(OutputEntered(s, managers))
  {
    var q := OutputEntered(s, managers);
    forall i | 0 <= i < |s.panels| ensures Shows(q.panels[i], s.entries, s.active) && AtRest(q.panels[i]) {
      OutputShows(s.panels[i], s.entries, s.active);
    }
  }

  lemma DestroyViews(s: Desk, manager: nat, id: nat)
    requires Views(s)
    ensures Views(Destroyed(s, manager, id))
  {
    var i := Finding(s.panels, manager);
    if i < |s.panels| { DestroyShows(s.panels[i], s.entries, s.active, id); }
  }

  lemma AskViews(s: Desk, manager: nat, request: Request)
    requires Views(s)
    ensures Views(Asked(s, manager, request)) && Views(Drained(s, manager))
  {
    var i := Finding(s.panels, manager);
    if i < |s.panels| {
      PendingViews(s, i, s.panels[i].pending + [request]);
      PendingViews(s, i, []);
    }
  }

  lemma PendingViews(s: Desk, i: nat, pending: seq<Request>)
    requires Views(s) && i < |s.panels|
    ensures Views(s.(panels := s.panels[i := s.panels[i].(pending := pending)]))
  {
    assert Shows(s.panels[i], s.entries, s.active) && AtRest(s.panels[i]);
    assert Shows(s.panels[i].(pending := pending), s.entries, s.active) && AtRest(s.panels[i].(pending := pending));
    hide Shows, AtRest;
  }

  lemma CommitViews(s: Desk, manager: nat, focuses: seq<Workspaces.Focus>)
    requires Core(s) && Views(s) && |focuses| == |Queued(s, manager)|
    ensures Views(Committed(s, manager, focuses))
  {
    hide Views, ObeyedAll;
    AskViews(s, manager, Activate(0));
    ObeyAllViews(Drained(s, manager), Queued(s, manager), focuses);
  }

  /** What is sent to nobody. */
  predicate Unheard(step: Step) {
    step.Input? || step.Move? || step.Sync? || step.Focus? || step.Remember? || step.Open? || step.Close? || step.Restack? || step.Reparent?
  }

  lemma UnheardViews(s: Desk, step: Step)
    requires Views(s) && Enabled(s, step) && Unheard(step)
    ensures Views(Do(s, step))
  {
    hide Viewed, Rested, Synced, Climb;
  }

  lemma StepKeepsViews(s: Desk, step: Step)
    requires Core(s) && Views(s) && Enabled(s, step)
    ensures Views(Do(s, step))
  {
    hide Core, Views, Created, Renamed, Deleted, Switched, Bound, Stopped, Destroyed, Asked, Committed, OutputEntered;
    match step
    case Create(name) => CreateViews(s, name);
    case Rename(id, name) => RenameViews(s, id, name);
    case Delete(id, sight, after) => DeleteViews(s, id, sight, after);
    case Switch(id, sight) => SwitchViews(s, id, sight);
    case Bind(m) => BindViews(s, m);
    case Stop(m) => StopViews(s, m);
    case Destroy(m, id) => DestroyViews(s, m, id);
    case Ask(m, request) => AskViews(s, m, request);
    case Commit(m, focuses) => CommitViews(s, m, focuses);
    case Output(managers) => OutputViews(s, managers);
    case _ => UnheardViews(s, step);
  }

  // ----- runs

  ghost predicate Possible(s: Desk, steps: seq<Step>)
    decreases |steps|
  {
    steps != [] ==> Enabled(s, steps[0]) && Possible(Do(s, steps[0]), steps[1..])
  }

  ghost function After(s: Desk, steps: seq<Step>): Desk
    requires Possible(s, steps)
    decreases |steps|
  {
    if steps == [] then s else After(Do(s, steps[0]), steps[1..])
  }

  lemma {:induction false} AlwaysHolds(s: Desk, steps: seq<Step>)
    requires Core(s) && Views(s) && Possible(s, steps)
    ensures Core(After(s, steps)) && Views(After(s, steps)) && Later(s, After(s, steps))
    decreases |steps|
  {
    if steps != [] {
      var q := Do(s, steps[0]);
      StepKeepsCore(s, steps[0]);
      StepKeepsViews(s, steps[0]);
      StepLater(s, steps[0]);
      AlwaysHolds(q, steps[1..]);
      LaterAgain(s, q, After(q, steps[1..]));
    }
  }

  lemma StartHolds()
    ensures Core(START) && Views(START)
  {
    assert START.entries[0] == Entry(1, "1");
    assert Exists(START.entries, 1);
    assert "1"[0] in "1" && Bytes("1") == 1 + Bytes("1"[1..]);
  }

  /** In every run there is a workspace, the active one and the one with the input exist,
      no two share an id, and every window of the stack is on one that exists. */
  lemma WorkspacesHold(steps: seq<Step>)
    requires Possible(START, steps)
    ensures var s := After(START, steps);
      && s.entries != [] && Distinct(Ids(s.entries))
      && s.active in Ids(s.entries) && s.input in Ids(s.entries)
      && (forall w :: w in s.windows ==> w in s.member && s.member[w] in Ids(s.entries))
      && (forall e :: e in s.entries ==> Proper(e.name))
  {
    StartHolds();
    AlwaysHolds(START, steps);
    var s := After(START, steps);
    forall id | Exists(s.entries, id) ensures id in Ids(s.entries) { ExistsIn(s.entries, id); }
  }

  /** An id that is gone never comes back. */
  lemma IdsNotReused(steps: seq<Step>, more: seq<Step>, later: seq<Step>, id: nat)
    requires Possible(START, steps) && Possible(After(START, steps), more)
    requires Possible(After(After(START, steps), more), later)
    requires id in Ids(After(START, steps).entries)
    requires id !in Ids(After(After(START, steps), more).entries)
    ensures id !in Ids(After(After(After(START, steps), more), later).entries)
  {
    StartHolds();
    AlwaysHolds(START, steps);
    var a := After(START, steps);
    AlwaysHolds(a, more);
    var b := After(a, more);
    AlwaysHolds(b, later);
    ExistsIn(a.entries, id);
    ExistsIn(b.entries, id);
    ExistsIn(After(b, later).entries, id);
  }

  /** In every run, what a panel was sent shows exactly the current workspaces, names and
      active flag, and did at every done, but for handles it destroyed; the viewers' last
      list is the current one. */
  lemma PanelsAgree(steps: seq<Step>, p: Panel, i: nat)
    requires Possible(START, steps) && p in After(START, steps).panels
    ensures var s := After(START, steps);
      && Watch(map[], p.log) - p.dead == Items(s.entries, s.active) - p.dead
      && p.log != [] && p.log[|p.log| - 1].Done?
      && (i < |p.log| && p.log[i].Done? ==> Watch(map[], p.log[..i]) - p.dead == p.log[i].now - p.dead)
      && Latest(s.told) == Snapshot(s.active, s.entries)
  {
    StartHolds();
    AlwaysHolds(START, steps);
    var k :| 0 <= k < |After(START, steps).panels| && After(START, steps).panels[k] == p;
  }

  /** With the move loop's theorem: a move takes one family to the workspace, if it exists. */
  lemma MoveIsOneFamily(s: Desk, rank: map<Window, nat>, window: Window, id: nat, sight: Sight, w: Window)
    requires Core(s) && Acyclic(TreeOf(s), rank) && InStep(TreeOf(s), s.member)
    requires window in s.windows && w in s.windows && Exists(s.entries, id)
    ensures On(Moved(s, window, id, sight), w) == if Root(TreeOf(s), w) == Root(TreeOf(s), window) then id else On(s, w)
  {
    MovesOneFamily(TreeOf(s), rank, s.member, window, id, w);
  }

  /** Without that: if the family's root is elsewhere, every window ends with its root. */
  lemma MoveGathers(s: Desk, rank: map<Window, nat>, window: Window, id: nat, sight: Sight, w: Window)
    requires Core(s) && Acyclic(TreeOf(s), rank) && window in s.windows && w in s.windows
    requires Exists(s.entries, id) && On(s, Root(TreeOf(s), window)) != id
    ensures On(Moved(s, window, id, sight), w) == if Root(TreeOf(s), w) == Root(TreeOf(s), window) then id else On(s, Root(TreeOf(s), w))
    ensures Together(Moved(s, window, id, sight))
  {
    MovesAnyway(TreeOf(s), rank, s.member, window, id, w);
  }

  /** A deleted workspace's windows all go to the first other one; everything else keeps
      its place. The last workspace stays. */
  lemma DeleteRehomes(s: Desk, id: nat, sight: Sight, after: Sight, w: Window)
    requires Core(s) && InStep(TreeOf(s), s.member) && w in s.windows
    ensures var q, target := Deleted(s, id, sight, after), Other(s.entries, id);
      if Exists(s.entries, id) && target.Some? then
        && q.entries == Lacking(s.entries, id)
        && On(q, w) == (if On(s, w) == id then target.value else On(s, w))
        && q.active == (if s.active == id then target.value else s.active)
      else q == s
  {
    hide Synced, Emptied, Items, Climb, Exists, Lacking;
    var target := Other(s.entries, id);
    if Exists(s.entries, id) && target.Some? {
      LeftKeeps(s, id, target.value, sight);
      var q := Left(s, id, target.value, sight);
      assert TreeOf(q) == TreeOf(s).(default := q.active);
      EmptiedInStep(TreeOf(q), q.member, id, target.value);
      EmptiedAt(TreeOf(q), q.member, id, target.value, w);
    }
  }

  lemma DeletedIs(s: Desk, q: Desk, id: nat, target: nat, sight: Sight, after: Sight)
    requires Core(s) && Exists(s.entries, id) && Other(s.entries, id) == Some(target) && q == Left(s, id, target, sight)
    ensures q.member == s.member && q.windows == s.windows && q.parents == s.parents
    ensures Deleted(s, id, sight, after).windows == q.windows
    ensures Deleted(s, id, sight, after).member == Synced(TreeOf(q), Emptied(TreeOf(q), q.member, id, target, |q.windows|))
  {
    LeftKeeps(s, id, target, sight);
    hide Left, Core, Synced, Emptied, Items, Lacking;
    assert TreeOf(Taken(q, id, target)) == TreeOf(q);
  }

  lemma SyncedKeys(t: Tree, member: map<Window, nat>, w: Window, on: nat)
    requires w in t.windows && forall x :: x in t.windows ==> x in member
    requires Families.Of(t, Synced(t, member), w) == on
    ensures w in Synced(t, member) && Synced(t, member)[w] == on
  {
    RoundsCopy(t, member, |t.windows|, set x | x in t.windows :: member[x]);
  }

  /** Without any window in step: each ends where its root was, or with it on the target. */
  lemma DeleteGathers(s: Desk, rank: map<Window, nat>, id: nat, sight: Sight, after: Sight, w: Window)
    requires Core(s) && Acyclic(TreeOf(s), rank) && w in s.windows
    requires Exists(s.entries, id) && Other(s.entries, id).Some?
    ensures var root := Root(TreeOf(s), w);
      On(Deleted(s, id, sight, after), w) == if On(s, root) == id then Other(s.entries, id).value else On(s, root)
  {
    hide Deleted, Left, Synced, Emptied, Climb, Rounds;
    var target := Other(s.entries, id).value;
    var q := Left(s, id, target, sight);
    var t, root := TreeOf(q), Root(TreeOf(s), w);
    DeletedIs(s, q, id, target, sight, after);
    ClimbsSame(TreeOf(s), t.default, w, {w});
    assert t == TreeOf(s).(default := t.default);
    RootIsTop(t, rank, w);
    EmptiedAt(t, q.member, id, target, root);
    EmptiedIs(t, q.member, id, target, |t.windows|);
    var m := Emptied(t, q.member, id, target, |t.windows|);
    SyncReachesRoots(t, rank, m, w);
    SyncedKeys(t, m, w, m[root]);
  }

  lemma EmptiedInStep(t: Tree, member: map<Window, nat>, id: nat, target: nat)
    requires id != target && InStep(t, member) && forall x :: x in t.windows ==> x in member
    ensures var m := Emptied(t, member, id, target, |t.windows|); Synced(t, m) == m
  {
    var m := Emptied(t, member, id, target, |t.windows|);
    forall x | x in t.windows && Parent(t, x).Some? ensures Families.Of(t, m, x) == Families.Of(t, m, Parent(t, x).value) {
      EmptiedAt(t, member, id, target, x);
      EmptiedAt(t, member, id, target, Parent(t, x).value);
    }
    InStepSynced(t, m);
  }

  lemma EmptiedAt(t: Tree, member: map<Window, nat>, id: nat, target: nat, w: Window)
    requires id != target && w in t.windows && forall x :: x in t.windows ==> x in member
    ensures var m := Emptied(t, member, id, target, |t.windows|);
      w in m && m[w] == if member[w] == id then target else member[w]
  {
    EmptiedIs(t, member, id, target, |t.windows|);
    var i :| 0 <= i < |t.windows| && t.windows[i] == w;
  }

  // ----- families stay together

  ghost predicate Together(s: Desk) { InStep(TreeOf(s), s.member) }

  /** Which workspace is active does not matter: every window of the stack has a place. */
  lemma SameFamilies(s: Desk, q: Desk)
    requires Core(s) && Together(s) && q.windows == s.windows && q.parents == s.parents && q.member == s.member
    ensures Together(q)
  {
  }

  lemma StillAcyclic(s: Desk, q: Desk, rank: map<Window, nat>)
    requires Acyclic(TreeOf(s), rank) && q.parents == s.parents && forall w :: w in q.windows ==> w in s.windows
    ensures Acyclic(TreeOf(q), rank)
  {
  }

  lemma SyncTogether(s: Desk, rank: map<Window, nat>, sight: Sight)
    requires Acyclic(TreeOf(s), rank)
    ensures Together(InSync(s, sight))
  {
    SyncInStep(TreeOf(s), rank, s.member);
  }

  /** A deletion that takes place ends with a sync. */
  lemma DeleteTogether(s: Desk, rank: map<Window, nat>, id: nat, sight: Sight, after: Sight)
    requires Core(s) && Acyclic(TreeOf(s), rank)
    requires Together(s) || (Exists(s.entries, id) && Other(s.entries, id).Some?)
    ensures Together(Deleted(s, id, sight, after))
    ensures Deleted(s, id, sight, after).windows == s.windows && Deleted(s, id, sight, after).parents == s.parents
  {
    var target := Other(s.entries, id);
    if Exists(s.entries, id) && target.Some? {
      LeftKeeps(s, id, target.value, sight);
      var q := Taken(Left(s, id, target.value, sight), id, target.value);
      StillAcyclic(s, q, rank);
      SyncTogether(q, rank, after);
    }
  }

  lemma MoveTogether(s: Desk, rank: map<Window, nat>, window: Window, id: nat, sight: Sight)
    requires Acyclic(TreeOf(s), rank)
    requires Together(s) || (Exists(s.entries, id) && On(s, Root(TreeOf(s), window)) != id)
    ensures Together(Moved(s, window, id, sight))
  {
    if Exists(s.entries, id) && On(s, Root(TreeOf(s), window)) != id {
      SyncTogether(s.(member := s.member[Root(TreeOf(s), window) := id]), rank, sight);
    }
  }

  lemma CloseTogether(s: Desk, window: Window)
    requires Core(s) && Together(s)
    ensures Together(Closed(s, window))
  {
    var q := Closed(s, window);
    forall w | w in q.windows && Parent(TreeOf(q), w).Some? ensures On(q, w) == On(q, Parent(TreeOf(q), w).value) {
      assert Parent(TreeOf(s), w) == Parent(TreeOf(q), w);
    }
  }

  lemma RestackTogether(s: Desk, q: Desk, rank: map<Window, nat>, windows: seq<Window>)
    requires Core(s) && Together(s) && Acyclic(TreeOf(s), rank) && Same(windows, s.windows)
    requires q == s.(windows := windows)
    ensures Together(q) && Acyclic(TreeOf(q), rank)
  {
    forall w | w in q.windows ensures Parent(TreeOf(q), w) == Parent(TreeOf(s), w) {}
  }

  lemma ObeyTogether(s: Desk, rank: map<Window, nat>, request: Request, focus: Workspaces.Focus)
    requires Core(s) && Acyclic(TreeOf(s), rank) && Together(s)
    ensures var q := Obeyed(s, request, focus); Together(q) && q.windows == s.windows && q.parents == s.parents
  {
    match request
    case Create(name) => SameFamilies(s, Created(s, Some(name)));
    case Activate(id) => SameFamilies(s, Switched(s, id, focus.0));
    case Remove(id) => DeleteTogether(s, rank, id, focus.0, focus.1);
  }

  lemma {:induction false} ObeyAllTogether(s: Desk, rank: map<Window, nat>, requests: seq<Request>, focuses: seq<Workspaces.Focus>)
    requires Core(s) && Acyclic(TreeOf(s), rank) && Together(s) && |focuses| == |requests|
    ensures var q := ObeyedAll(s, requests, focuses); Together(q) && q.windows == s.windows && q.parents == s.parents
    decreases |requests|
  {
    if requests != [] {
      var q := Obeyed(s, requests[0], focuses[0]);
      ObeyKeeps(s, requests[0], focuses[0]);
      ObeyTogether(s, rank, requests[0], focuses[0]);
      StillAcyclic(s, q, rank);
      ObeyAllTogether(q, rank, requests[1..], focuses[1..]);
    }
  }

  /** Only a window that opens and a change of parents can take a family apart. */
  predicate Parts(step: Step) { step.Open? || step.Reparent? }

  /** The steps that touch neither the stack nor the memberships. */
  predicate Quiet(step: Step) {
    step.Create? || step.Rename? || step.Switch? || step.Input? || step.Focus? || step.Remember? || step.Bind? || step.Stop?
    || step.Destroy? || step.Ask? || step.Output?
  }

  lemma QuietTogether(s: Desk, q: Desk, rank: map<Window, nat>, step: Step)
    requires Core(s) && Enabled(s, step) && Acyclic(TreeOf(s), rank) && Together(s) && Quiet(step) && q == Do(s, step)
    ensures Together(q) && Acyclic(TreeOf(q), rank)
  {
    SameFamilies(s, q);
    StillAcyclic(s, q, rank);
  }

  lemma CommitTogether(s: Desk, rank: map<Window, nat>, manager: nat, focuses: seq<Workspaces.Focus>)
    requires Core(s) && Acyclic(TreeOf(s), rank) && Together(s) && |focuses| == |Queued(s, manager)|
    ensures var q := Committed(s, manager, focuses); Together(q) && q.windows == s.windows && q.parents == s.parents
  {
    SameFamilies(s, Drained(s, manager));
    ObeyAllTogether(Drained(s, manager), rank, Queued(s, manager), focuses);
  }

  lemma StepTogether(s: Desk, q: Desk, rank: map<Window, nat>, step: Step)
    requires Core(s) && Enabled(s, step) && Acyclic(TreeOf(s), rank) && !Parts(step) && q == Do(s, step)
    requires Together(s) || step.Sync?
    ensures Together(q) && Acyclic(TreeOf(q), rank)
  {
    hide Core, InStep, Climb, Synced;
    match step
    case Sync(sight) => SyncTogether(s, rank, sight);
    case Delete(id, sight, after) =>
      DeleteTogether(s, rank, id, sight, after);
      StillAcyclic(s, q, rank);
    case Move(w, id, sight) => MoveTogether(s, rank, w, id, sight);
    case Close(w) => CloseTogether(s, w);
    case Restack(windows) => RestackTogether(s, q, rank, windows);
    case Commit(m, focuses) =>
      CommitTogether(s, rank, m, focuses);
      StillAcyclic(s, q, rank);
    case _ => QuietTogether(s, q, rank, step);
  }

  lemma {:induction false} StayTogether(s: Desk, rank: map<Window, nat>, steps: seq<Step>)
    requires Core(s) && Possible(s, steps) && Acyclic(TreeOf(s), rank) && Together(s)
    requires forall step :: step in steps ==> !Parts(step)
    ensures Together(After(s, steps)) && Acyclic(TreeOf(After(s, steps)), rank)
    decreases |steps|
  {
    if steps != [] {
      StepKeepsCore(s, steps[0]);
      StepTogether(s, Do(s, steps[0]), rank, steps[0]);
      StayTogether(Do(s, steps[0]), rank, steps[1..]);
    }
  }

  /** In every run, from a sync on and until a window opens or a parent changes, every
      window is on its root's workspace, so that moves take one family exactly. */
  lemma FamiliesTogether(steps: seq<Step>, sight: Sight, more: seq<Step>, rank: map<Window, nat>, w: Window)
    requires Possible(START, steps) && Possible(Do(After(START, steps), Sync(sight)), more)
    requires Acyclic(TreeOf(After(START, steps)), rank) && forall step :: step in more ==> !Parts(step)
    requires w in After(Do(After(START, steps), Sync(sight)), more).windows
    ensures var q := After(Do(After(START, steps), Sync(sight)), more);
      Together(q) && On(q, w) == On(q, Root(TreeOf(q), w))
  {
    StartHolds();
    AlwaysHolds(START, steps);
    var s := After(START, steps);
    StepKeepsCore(s, Sync(sight));
    StepTogether(s, Do(s, Sync(sight)), rank, Sync(sight));
    StayTogether(Do(s, Sync(sight)), rank, more);
    var q := After(Do(s, Sync(sight)), more);
    InStepWithRoot(TreeOf(q), rank, q.member, w);
  }

  // ----- the focus comes back

  /** Workspace `a` lost the input with its focus on `w`, or kept both. */
  ghost predicate Noted(s: Desk, a: nat, w: Window) {
    if s.input == a then s.focused == Some(w) else a in s.memory && s.memory[a] == w
  }

  /** The steps between: the input stays elsewhere, also within a commit, the workspace stays,
      and no window opens on it that is to have its focus. */
  ghost predicate Elsewhere(s: Desk, step: Step, a: nat)
    requires Enabled(s, step)
  {
    && Do(s, step).input != a && Exists(Do(s, step).entries, a)
    && (step.Remember? ==> On(s, step.window) != a)
    && (step.Commit? ==> ElsewhereAll(Drained(s, step.manager), Queued(s, step.manager), step.focuses, a))
  }

  ghost predicate ElsewhereAll(s: Desk, requests: seq<Request>, focuses: seq<Workspaces.Focus>, a: nat)
    requires |focuses| == |requests|
    decreases |requests|
  {
    requests != [] ==>
      var q := Obeyed(s, requests[0], focuses[0]);
      q.input != a && Exists(q.entries, a) && ElsewhereAll(q, requests[1..], focuses[1..], a)
  }

  ghost predicate AlwaysElsewhere(s: Desk, steps: seq<Step>, a: nat)
    requires Possible(s, steps)
    decreases |steps|
  {
    steps != [] ==> Elsewhere(s, steps[0], a) && AlwaysElsewhere(Do(s, steps[0]), steps[1..], a)
  }

  lemma SwitchNotes(s: Desk, id: nat, sight: Sight, a: nat, w: Window)
    requires Core(s) && Noted(s, a, w) && Switched(s, id, sight).input != a
    ensures Noted(Switched(s, id, sight), a, w)
  {
  }

  lemma InputNotes(s: Desk, id: nat, sight: Sight, a: nat, w: Window)
    requires Core(s) && Noted(s, a, w) && InputAt(s, id, sight).input != a
    ensures Noted(InputAt(s, id, sight), a, w)
  {
  }

  lemma LeftNotes(s: Desk, id: nat, target: nat, sight: Sight, a: nat, w: Window)
    requires Core(s) && Noted(s, a, w) && Exists(s.entries, target) && target != id && Left(s, id, target, sight).input != a
    ensures Noted(Left(s, id, target, sight), a, w)
  {
    SwitchKeeps(s, target, sight);
    var q := if s.active == id then Switched(s, target, sight) else s;
    if s.active == id && q.input != a { SwitchNotes(s, target, sight, a, w); }
    if q.input == id && q.input != a { InputNotes(q, target, sight, a, w); }
  }

  lemma DeleteNotes(s: Desk, id: nat, sight: Sight, after: Sight, a: nat, w: Window)
    requires Core(s) && Noted(s, a, w)
    requires Deleted(s, id, sight, after).input != a && Exists(Deleted(s, id, sight, after).entries, a)
    ensures Noted(Deleted(s, id, sight, after), a, w)
  {
    hide Left, Synced, Emptied, Items, Lacking, Exists, TopMost, Placed;
    var target := Other(s.entries, id);
    if Exists(s.entries, id) && target.Some? {
      LeftNotes(s, id, target.value, sight, a, w);
      LeftKeeps(s, id, target.value, sight);
      EntriesKept(s.entries, s.next, id);
    }
  }

  lemma CreateNotes(s: Desk, name: Option<string>, a: nat, w: Window)
    requires Noted(s, a, w)
    ensures Noted(Created(s, name), a, w)
  {
  }

  lemma RenameNotes(s: Desk, id: nat, name: string, a: nat, w: Window)
    requires Noted(s, a, w)
    ensures Noted(Renamed(s, id, name), a, w)
  {
  }

  lemma ObeyNotes(s: Desk, request: Request, focus: Workspaces.Focus, a: nat, w: Window)
    requires Core(s) && Noted(s, a, w)
    requires Obeyed(s, request, focus).input != a && Exists(Obeyed(s, request, focus).entries, a)
    ensures Noted(Obeyed(s, request, focus), a, w)
  {
    match request
    case Create(name) => CreateNotes(s, Some(name), a, w);
    case Activate(id) => SwitchNotes(s, id, focus.0, a, w);
    case Remove(id) => DeleteNotes(s, id, focus.0, focus.1, a, w);
  }

  lemma {:induction false} ObeyAllNotes(s: Desk, requests: seq<Request>, focuses: seq<Workspaces.Focus>, a: nat, w: Window)
    requires Core(s) && Noted(s, a, w) && |focuses| == |requests| && ElsewhereAll(s, requests, focuses, a)
    ensures Noted(ObeyedAll(s, requests, focuses), a, w)
    decreases |requests|
  {
    if requests != [] {
      ObeyKeeps(s, requests[0], focuses[0]);
      ObeyNotes(s, requests[0], focuses[0], a, w);
      ObeyAllNotes(Obeyed(s, requests[0], focuses[0]), requests[1..], focuses[1..], a, w);
    }
  }

  lemma CommitNotes(s: Desk, manager: nat, focuses: seq<Workspaces.Focus>, a: nat, w: Window)
    requires Core(s) && |focuses| == |Queued(s, manager)| && Noted(s, a, w)
    requires ElsewhereAll(Drained(s, manager), Queued(s, manager), focuses, a)
    ensures Noted(Committed(s, manager, focuses), a, w)
  {
    ObeyAllNotes(Drained(s, manager), Queued(s, manager), focuses, a, w);
  }

  lemma StepNotes(s: Desk, step: Step, a: nat, w: Window)
    requires Core(s) && Enabled(s, step) && Noted(s, a, w) && Elsewhere(s, step, a)
    ensures Noted(Do(s, step), a, w)
  {
    hide Core, Created, Renamed, Deleted, Switched, InputAt, Committed, Synced, Exists, TopMost;
    match step
    case Create(name) => CreateNotes(s, name, a, w);
    case Rename(id, name) => RenameNotes(s, id, name, a, w);
    case Switch(id, sight) => SwitchNotes(s, id, sight, a, w);
    case Input(u, sight) => InputNotes(s, if u.Some? then On(s, u.value) else s.active, sight, a, w);
    case Delete(id, sight, after) => DeleteNotes(s, id, sight, after, a, w);
    case Commit(m, focuses) => CommitNotes(s, m, focuses, a, w);
    case _ =>
  }

  lemma {:induction false} AwayNotes(s: Desk, steps: seq<Step>, a: nat, w: Window)
    requires Core(s) && Possible(s, steps) && Noted(s, a, w) && AlwaysElsewhere(s, steps, a)
    ensures Noted(After(s, steps), a, w) && Core(After(s, steps))
    ensures steps != [] ==> After(s, steps).input != a
    decreases |steps|
  {
    if steps != [] {
      StepKeepsCore(s, steps[0]);
      StepNotes(s, steps[0], a, w);
      AwayNotes(Do(s, steps[0]), steps[1..], a, w);
    }
  }

  /** In every run: when the input left a workspace and stayed away from it, coming back, by a
      switch or by the input alone, gives the focus to the window that had it, if that is still
      mapped there, and else to the top one that is no menu or tooltip. */
  lemma FocusReturns(steps: seq<Step>, more: seq<Step>, back: Sight)
    requires Possible(START, steps) && After(START, steps).focused.Some?
    requires more != [] && Possible(After(START, steps), more) && AlwaysElsewhere(After(START, steps), more, After(START, steps).input)
    ensures var s, q := After(START, steps), After(After(START, steps), more);
      var a, w := s.input, s.focused.value;
      && (q.active != a && Exists(q.entries, a) ==> Returned(q.(input := a, active := a), back, w, Switched(q, a, back).focused))
      && Returned(q.(input := a), back, w, InputAt(q, a, back).focused)
  {
    StartHolds();
    AlwaysHolds(START, steps);
    var s := After(START, steps);
    AwayNotes(s, more, s.input, s.focused.value);
    if After(s, more).active != s.input && Exists(After(s, more).entries, s.input) { SwitchReturns(After(s, more), s.input, s.focused.value, back); }
    InputReturns(After(s, more), s.input, s.focused.value, back);
  }

  /** The window itself while it can have the focus, else the top one that can. */
  ghost predicate Returned(s: Desk, sight: Sight, w: Window, focused: Option<Window>) {
    if Visible(s, sight, w) then focused == Some(w) else IsTop(s, sight, |s.windows|, focused)
  }

  lemma TopSame(s: Desk, q: Desk, sight: Sight, n: nat, r: Option<Window>)
    requires q.windows == s.windows && q.member == s.member && q.active == s.active && q.input == s.input && n <= |s.windows|
    requires IsTop(s, sight, n, r)
    ensures IsTop(q, sight, n, r)
  {
    forall i | 0 <= i < n ensures Fallback(q, sight, s.windows[i]) == Fallback(s, sight, s.windows[i]) {}
    if r.Some? {
      var i :| 0 <= i < n && s.windows[i] == r.value && Fallback(s, sight, s.windows[i])
        && forall j :: i < j < n ==> !Fallback(s, sight, s.windows[j]);
      assert q.windows[i] == r.value;
    }
  }

  lemma SwitchReturns(q: Desk, a: nat, w: Window, back: Sight)
    requires Noted(q, a, w) && q.input != a && q.active != a && Exists(q.entries, a)
    ensures Returned(q.(input := a, active := a), back, w, Switched(q, a, back).focused)
  {
    var memory := if q.focused.Some? then q.memory[q.input := q.focused.value] else q.memory - {q.input};
    var there := Published(q.(memory := memory, active := a, input := a));
    if !Visible(there, back, w) { TopSame(there, q.(input := a, active := a), back, |q.windows|, Switched(q, a, back).focused); }
  }

  lemma InputReturns(q: Desk, a: nat, w: Window, back: Sight)
    requires Noted(q, a, w) && q.input != a
    ensures Returned(q.(input := a), back, w, InputAt(q, a, back).focused)
  {
    var kept := q.focused.Some? && On(q, q.focused.value) == q.input;
    var there := q.(memory := if kept then q.memory[q.input := q.focused.value] else q.memory, input := a);
    if !Visible(there, back, w) { TopSame(there, q.(input := a), back, |q.windows|, InputAt(q, a, back).focused); }
  }
}
