/** The workspaces updated in place, as the compositor does. */
module WorkspacesState {
  import opened Common
  import opened Rotation
  import opened Families
  import opened Workspaces
  import Run = WorkspacesRun

  /** A loop that replaces one element after the other. */
  lemma OneMore<T>(was: seq<T>, all: seq<T>, i: nat, before: seq<T>, now: seq<T>)
    requires i < |was| == |all| && before == all[..i] + was[i..]
    requires |now| == |was| && now == before[i := now[i]] && now[i] == all[i]
    ensures now == all[..i + 1] + was[i + 1..]
  {
    assert all[..i + 1] == all[..i] + [all[i]];
  }

  class State {
    var active: nat
    var input: nat
    var entries: seq<Entry>
    var next: Option<nat>
    var windows: seq<Window>
    var member: map<Window, nat>
    var parents: map<Window, Window>
    var focused: Option<Window>
    var memory: map<nat, Window>
    var panels: seq<Panel>
    var told: seq<Snapshot>

    function Model(): Desk
      reads this
    {
      Desk(active, input, entries, next, windows, member, parents, focused, memory, panels, told)
    }

    constructor ()
      ensures Model() == START
    {
      active, input, entries, next := 1, 1, [Entry(1, "1")], Some(2);
      windows, member, parents, focused, memory, panels, told := [], map[], map[], None, map[], [], [];
    }

    /** Every live handle of every panel gets its state, and every panel a done. */
    method Publish()
      modifies `panels, `told
      ensures Model() == Published(old(Model()))
    {
      hide Items;
      ShowAll(Items(entries, active));
      told := told + [Snapshot(active, entries)];
    }

    method ShowAll(now: map<nat, Item>)
      modifies `panels
      ensures panels == ShownToAll(old(panels), now, active)
    {
      ghost var was := panels;
      for i := 0 to |panels|
        invariant |panels| == |was| && panels == ShownToAll(was, now, active)[..i] + was[i..]
      {
        ghost var before := panels;
        ShowOne(i, now);
        OneMore(was, ShownToAll(was, now, active), i, before, panels);
      }
    }

    method ShowOne(i: nat, now: map<nat, Item>)
      requires i < |panels|
      modifies `panels
      ensures panels == old(panels)[i := Refreshed(old(panels)[i], now, active)]
    {
      var p := panels[i];
      ghost var before := panels;
      var handles := p.handles;
      for k := 0 to |handles|
        invariant |panels| == |before| && panels == before[i := panels[i]]
        invariant panels[i].(log := p.log) == p
        invariant panels[i].log + StateEvents(handles[k..], p.dead, active) == p.log + StateEvents(handles, p.dead, active)
      {
        assert handles[k..][1..] == handles[k + 1..];
        ghost var rest := StateEvents(handles[k + 1..], p.dead, active);
        if handles[k] !in panels[i].dead {
          ghost var log := panels[i].log;
          assert log + ([State(handles[k], handles[k] == active)] + rest) == (log + [State(handles[k], handles[k] == active)]) + rest;
          panels := panels[i := Sent(panels[i], [State(handles[k], handles[k] == active)])];
        } else {
          assert [] + rest == rest;
        }
      }
      assert handles[|handles|..] == [];
      assert (p.log + StateEvents(handles, p.dead, active)) + [Done(now)] == p.log + (StateEvents(handles, p.dead, active) + [Done(now)]);
      panels := panels[i := Sent(panels[i], [Done(now)])];
      assert panels[i] == Refreshed(p, now, active);
    }

    method Create(name: Option<string>)
      modifies `entries, `next, `panels, `told
      ensures Model() == Created(old(Model()), name)
    {
      if next.None? { return; }
      var id := next.value;
      var entry := Entry(id, Called(name, id));
      if !Fits(entry.name) { return; }
      next := if id + 1 < ID_LIMIT then Some(id + 1) else None;
      Announce(entry);
      entries := entries + [entry];
      Publish();
    }

    method Announce(entry: Entry)
      modifies `panels
      ensures panels == AddedToAll(old(panels), entry, active)
    {
      ghost var was := panels;
      for i := 0 to |panels|
        invariant |panels| == |was| && panels == AddedToAll(was, entry, active)[..i] + was[i..]
      {
        ghost var before := panels;
        panels := panels[i := Added(panels[i], entry, active)];
        OneMore(was, AddedToAll(was, entry, active), i, before, panels);
      }
    }

    method Rename(id: nat, name: string)
      modifies `entries, `panels, `told
      ensures Model() == Renamed(old(Model()), id, name)
    {
      if Blank(name) || !Fits(name) { return; }
      var found := NameOf(entries, id);
      if found.None? || found.value == name { return; }
      entries := Retitled(entries, id, name);
      Retitle(id, name, Items(entries, active));
      told := told + [Snapshot(active, entries)];
    }

    method Retitle(id: nat, name: string, now: map<nat, Item>)
      modifies `panels
      ensures panels == RenamedToAll(old(panels), id, name, now)
    {
      ghost var was := panels;
      for i := 0 to |panels|
        invariant |panels| == |was| && panels == RenamedToAll(was, id, name, now)[..i] + was[i..]
      {
        ghost var before := panels;
        RetitleOne(i, id, name, now);
        OneMore(was, RenamedToAll(was, id, name, now), i, before, panels);
      }
    }

    method RetitleOne(i: nat, id: nat, name: string, now: map<nat, Item>)
      requires i < |panels|
      modifies `panels
      ensures panels == old(panels)[i := Renaming(old(panels)[i], id, name, now)]
    {
      var p := panels[i];
      ghost var before := panels;
      var handles := p.handles;
      for k := 0 to |handles|
        invariant |panels| == |before| && panels == before[i := panels[i]]
        invariant panels[i].(log := p.log) == p
        invariant panels[i].log + NameEvents(handles[k..], p.dead, id, name) == p.log + NameEvents(handles, p.dead, id, name)
      {
        assert handles[k..][1..] == handles[k + 1..];
        ghost var rest := NameEvents(handles[k + 1..], p.dead, id, name);
        if handles[k] == id && id !in panels[i].dead {
          ghost var log := panels[i].log;
          assert log + ([Name(id, name)] + rest) == (log + [Name(id, name)]) + rest;
          panels := panels[i := Sent(panels[i], [Name(id, name)])];
        } else {
          assert [] + rest == rest;
        }
      }
      assert handles[|handles|..] == [];
      assert (p.log + NameEvents(handles, p.dead, id, name)) + [Done(now)] == p.log + (NameEvents(handles, p.dead, id, name) + [Done(now)]);
      panels := panels[i := Sent(panels[i], [Done(now)])];
      assert panels[i] == Renaming(p, id, name, now);
    }

    method Switch(id: nat, sight: Sight)
      modifies `active, `input, `focused, `memory, `panels, `told
      ensures Model() == Switched(old(Model()), id, sight)
    {
      if !Exists(entries, id) || id == active { return; }
      memory := if focused.Some? then memory[input := focused.value] else memory - {input};
      active, input := id, id;
      Publish();
      focused := Offered(Model(), sight);
    }

    method SetInput(id: nat, sight: Sight)
      modifies `input, `focused, `memory
      ensures Model() == InputAt(old(Model()), id, sight)
    {
      if id == input { return; }
      if focused.Some? && On(Model(), focused.value) == input { memory := memory[input := focused.value]; }
      input := id;
      focused := Offered(Model(), sight);
    }

    /** At most as many rounds as there are windows, and no more after one that changes
        nothing. */
    method SyncParents(sight: Sight)
      modifies `member, `focused
      ensures Model() == InSync(old(Model()), sight)
    {
      ghost var t, was := TreeOf(Model()), member;
      var changed, i := true, 0;
      while i < |windows| && changed
        invariant focused == old(focused)
        invariant i <= |windows| && t == TreeOf(Model()) && member == Rounds(t, was, i)
        invariant !changed ==> Rounds(t, was, |windows|) == member
      {
        changed := false;
        ghost var before := member;
        for k := 0 to |windows|
          invariant focused == old(focused)
          invariant t == TreeOf(Model()) && member == Pass(t, before, k)
          invariant !changed ==> member == before
        {
          var w := windows[k];
          var parent := Parent(TreeOf(Model()), w);
          if parent.Some? && On(Model(), w) != On(Model(), parent.value) {
            member := member[w := On(Model(), parent.value)];
            changed := true;
          }
        }
        if !changed { StableRounds(t, was, i, |windows|); }
        i := i + 1;
      }
      assert member == Synced(t, was);
      Refocus(sight);
    }

    /** The focus goes from a hidden window, or is set again after a hidden window's grab. */
    method Refocus(sight: Sight)
      modifies `focused
      ensures Model() == Hidden(old(Model()), sight)
    {
      var hidden := focused.Some? && On(Model(), focused.value) != input;
      if hidden || sight.grabbed {
        var next := if focused.Some? && !hidden then focused else TopMost(Model(), sight, |windows|);
        focused := Shown(Model(), sight, next);
      }
    }

    method Delete(id: nat, sight: Sight, after: Sight)
      modifies `active, `input, `focused, `memory, `member, `entries, `panels, `told
      ensures Model() == Deleted(old(Model()), id, sight, after)
    {
      if !Exists(entries, id) { return; }
      var target := Other(entries, id);
      if target.None? { return; }
      MoveAway(id, target.value, sight);
      Take(id, target.value);
      SyncParents(after);
      Publish();
    }

    method MoveAway(id: nat, target: nat, sight: Sight)
      modifies `active, `input, `focused, `memory, `panels, `told
      ensures Model() == Left(old(Model()), id, target, sight)
    {
      if active == id { Switch(target, sight); }
      if input == id { SetInput(target, sight); }
    }

    method Take(id: nat, target: nat)
      modifies `member, `entries, `memory, `panels
      ensures Model() == Taken(old(Model()), id, target)
    {
      Rehome(id, target);
      entries := Lacking(entries, id);
      memory := memory - {id};
      Withdraw(id);
    }

    method Rehome(id: nat, target: nat)
      modifies `member
      ensures member == Emptied(TreeOf(old(Model())), old(member), id, target, |windows|)
    {
      for i := 0 to |windows|
        invariant member == Emptied(TreeOf(old(Model())), old(member), id, target, i)
      {
        if On(Model(), windows[i]) == id { member := member[windows[i] := target]; }
      }
    }

    method Withdraw(id: nat)
      modifies `panels
      ensures panels == DroppedFromAll(old(panels), id)
    {
      ghost var was := panels;
      for i := 0 to |panels|
        invariant |panels| == |was| && panels == DroppedFromAll(was, id)[..i] + was[i..]
      {
        var p := panels[i];
        ghost var before := panels;
        var kept: seq<nat>, events: seq<Event> := [], [];
        for k := 0 to |p.handles|
          invariant kept + Others(p.handles[k..], id) == Others(p.handles, id)
          invariant events + DropEvents(p.handles[k..], p.dead, id) == DropEvents(p.handles, p.dead, id)
        {
          assert p.handles[k..][1..] == p.handles[k + 1..];
          var h := p.handles[k];
          if h != id {
            assert kept + ([h] + Others(p.handles[k + 1..], id)) == (kept + [h]) + Others(p.handles[k + 1..], id);
            assert [] + DropEvents(p.handles[k + 1..], p.dead, id) == DropEvents(p.handles[k + 1..], p.dead, id);
            kept := kept + [h];
          } else if h !in p.dead {
            assert events + ([Leave(id), Removed(id)] + DropEvents(p.handles[k + 1..], p.dead, id))
                == (events + [Leave(id), Removed(id)]) + DropEvents(p.handles[k + 1..], p.dead, id);
            events := events + [Leave(id), Removed(id)];
          } else {
            assert [] + DropEvents(p.handles[k + 1..], p.dead, id) == DropEvents(p.handles[k + 1..], p.dead, id);
          }
        }
        assert p.handles[|p.handles|..] == [];
        panels := panels[i := Sent(p, events).(handles := kept)];
        assert p == was[i] && panels[i] == Dropping(p, id);
        OneMore(was, DroppedFromAll(was, id), i, before, panels);
      }
    }

    /** The climb ends even when the parents form a cycle. */
    method MoveTo(window: Window, id: nat, sight: Sight)
      modifies `member, `focused
      ensures Model() == Moved(old(Model()), window, id, sight)
    {
      if !Exists(entries, id) { return; }
      ghost var t := TreeOf(Model());
      var root, seen := window, {window};
      var parent := Parent(TreeOf(Model()), root);
      while parent.Some? && parent.value !in seen
        invariant Model() == old(Model()) && parent == Parent(t, root)
        invariant Climb(t, root, seen) == Root(t, window)
        decreases |Families.Mapped(t) - seen|
      {
        Smaller(Families.Mapped(t) - (seen + {parent.value}), Families.Mapped(t) - seen, parent.value);
        seen := seen + {parent.value};
        root := parent.value;
        parent := Parent(TreeOf(Model()), root);
      }
      assert root == Root(t, window);
      if On(Model(), root) == id { return; }
      member := member[root := id];
      SyncParents(sight);
    }

    method Bind(manager: nat)
      modifies `panels
      ensures Model() == old(Model()).(panels := old(panels) + [Bound(manager, entries, active)])
    {
      var p := Panel(manager, [], {}, [], []);
      for i := 0 to |entries|
        invariant AddedAll(p, entries[i..], active) == AddedAll(Panel(manager, [], {}, [], []), entries, active)
      {
        assert entries[i..][1..] == entries[i + 1..];
        p := Added(p, entries[i], active);
      }
      panels := panels + [Sent(p, [Done(Items(entries, active))])];
    }

    method Obey(request: Request, focus: Workspaces.Focus)
      modifies this
      ensures Model() == Obeyed(old(Model()), request, focus)
    {
      match request
      case Create(name) => Create(Some(name));
      case Activate(id) => Switch(id, focus.0);
      case Remove(id) => Delete(id, focus.0, focus.1);
    }

    /** The queue is taken first, then obeyed in the order it was filled. */
    method Commit(manager: nat, focuses: seq<Workspaces.Focus>)
      requires |focuses| == |Queued(Model(), manager)|
      modifies this
      ensures Model() == Committed(old(Model()), manager, focuses)
    {
      var i := Finding(panels, manager);
      if i == |panels| { return; }
      var pending := panels[i].pending;
      panels := panels[i := panels[i].(pending := [])];
      for k := 0 to |pending|
        invariant ObeyedAll(Model(), pending[k..], focuses[k..]) == Committed(old(Model()), manager, focuses)
      {
        assert pending[k..][1..] == pending[k + 1..] && focuses[k..][1..] == focuses[k + 1..];
        Obey(pending[k], focuses[k]);
      }
    }
  }
}
