/** What one operation does to the workspaces, the focus and the panels' requests. */
module WorkspacesLaws {
  import opened Common
  import opened Families
  import opened Workspaces
  import opened WorkspacesRun
  import Rotation
  import Stack

  // ----- names

  function Value(digits: string): nat {
    if digits == [] then 0
    else
      var c := digits[|digits| - 1];
      10 * Value(digits[..|digits| - 1]) + (if '0' <= c <= '9' then c as int - '0' as int else 0)
  }

  /** The number of a workspace in decimal digits, without a leading zero. */
  lemma {:induction false} DecimalIs(n: nat)
    ensures Decimal(n) != [] && forall c :: c in Decimal(n) ==> '0' <= c <= '9'
    ensures Value(Decimal(n)) == n && (n > 0 ==> Decimal(n)[0] != '0')
  {
    if n < 10 {
      assert Decimal(n)[..0] == [];
    } else {
      DecimalIs(n / 10);
      assert Decimal(n)[..|Decimal(n)| - 1] == Decimal(n / 10);
    }
  }

  /** One to four bytes for each character, one for an ASCII one. */
  lemma {:induction false} BytesBetween(s: string)
    ensures |s| <= Bytes(s) <= 4 * |s|
    ensures Bytes(s) == |s| <==> forall i :: 0 <= i < |s| ==> s[i] < '\U{80}'
  {
    if s != [] {
      BytesBetween(s[1..]);
      assert forall i :: 0 < i < |s| ==> s[i] == s[1..][i - 1];
    }
  }

  /** The code points with the White_Space property, one by one. */
  lemma WhiteIs(c: char)
    ensures White(c) <==> c as int in {
      0x9, 0xA, 0xB, 0xC, 0xD, 0x20, 0x85, 0xA0, 0x1680, 0x2000, 0x2001, 0x2002, 0x2003, 0x2004, 0x2005, 0x2006, 0x2007,
      0x2008, 0x2009, 0x200A, 0x2028, 0x2029, 0x202F, 0x205F, 0x3000}
  {
  }

  // ----- workspaces

  /** A name nobody can be given: longer than 256 bytes, or with a control character. */
  predicate Unfit(name: string) { Bytes(name) > 256 || exists c :: c in name && (c < ' ' || '\U{7F}' <= c <= '\U{9F}') }

  /** A new workspace has the next number and the given name, or its number for a name; it
      comes last, and nothing else changes. The numbers end at 2^32 - 1. */
  lemma CreatesExactly(s: Desk, name: Option<string>)
    requires Core(s)
    ensures var q := Created(s, name);
      var named := name.Some? && exists c :: c in name.value && !White(c);
      && (s.next.None? || (named && Unfit(name.value)) ==> q == s)
      && (s.next.Some? && !(named && Unfit(name.value)) ==>
            && q.entries == s.entries + [Entry(s.next.value, if named then name.value else Decimal(s.next.value))]
            && q.next == if s.next.value == 0xffff_ffff then None else Some(s.next.value + 1))
      && q == s.(entries := q.entries, next := q.next, panels := q.panels, told := q.told)
  {
    if s.next.Some? { NumberIsProper(s.next.value); }
  }

  lemma RenamesExactly(s: Desk, id: nat, name: string)
    requires Core(s)
    ensures var q := Renamed(s, id, name);
      var fine := !Unfit(name) && exists c :: c in name && !White(c);
      && |q.entries| == |s.entries|
      && (forall i :: 0 <= i < |s.entries| ==>
            q.entries[i] == if s.entries[i].id == id && fine then Entry(id, name) else s.entries[i])
      && q == s.(entries := q.entries, panels := q.panels, told := q.told)
  {
    RetitledIs(s.entries, id, name);
    NameFound(s.entries, id);
    forall i | 0 <= i < |s.entries| && s.entries[i].id == id ensures NameOf(s.entries, id) == Some(s.entries[i].name) {
      NameAt(s.entries, i);
    }
  }

  lemma {:induction false} NameAt(entries: seq<Entry>, i: nat)
    requires i < |entries| && Rotation.Distinct(Ids(entries))
    ensures NameOf(entries, entries[i].id) == Some(entries[i].name)
  {
    if i > 0 {
      assert Ids(entries)[0] != Ids(entries)[i];
      forall a, b | 0 <= a < b < |entries[1..]| ensures Ids(entries[1..])[a] != Ids(entries[1..])[b] {
        assert Ids(entries)[a + 1] != Ids(entries)[b + 1];
      }
      NameAt(entries[1..], i - 1);
    }
  }

  /** A switch to a workspace there is makes it the active one and gives it the input. */
  lemma SwitchesExactly(s: Desk, id: nat, sight: Sight)
    ensures var q, goes := Switched(s, id, sight), Exists(s.entries, id) && id != s.active;
      && (!goes ==> q == s)
      && (goes ==> q.active == id && q.input == id)
      && (goes ==> forall x :: x != s.input ==> (x in q.memory <==> x in s.memory) && (x in q.memory ==> q.memory[x] == s.memory[x]))
      && (goes ==> (s.input in q.memory <==> s.focused.Some?) && (s.focused.Some? ==> q.memory[s.input] == s.focused.value))
      && q == s.(active := q.active, input := q.input, memory := q.memory, focused := q.focused, panels := q.panels, told := q.told)
  {
  }

  /** The input alone follows the pointer; only a focus that is on the workspace it leaves is
      noted there. */
  lemma InputsExactly(s: Desk, id: nat, sight: Sight)
    ensures var q := InputAt(s, id, sight);
      var noted := s.focused.Some? && On(s, s.focused.value) == s.input;
      && (id == s.input ==> q == s)
      && q.input == id && q == s.(input := id, memory := q.memory, focused := q.focused)
      && (id != s.input ==> forall x :: x != s.input || !noted ==> (x in q.memory <==> x in s.memory) && (x in q.memory ==> q.memory[x] == s.memory[x]))
      && (id != s.input && noted ==> s.input in q.memory && q.memory[s.input] == s.focused.value)
  {
  }

  lemma LeavesExactly(s: Desk, id: nat, target: nat, sight: Sight)
    requires Exists(s.entries, target) && target != id
    ensures var q := Left(s, id, target, sight);
      && q.active == (if s.active == id then target else s.active)
      && q.input == (if s.active == id || s.input == id then target else s.input)
      && q.entries == s.entries && q.windows == s.windows && q.next == s.next && q.member == s.member && q.parents == s.parents
  {
    SwitchesExactly(s, target, sight);
    var q := if s.active == id then Switched(s, target, sight) else s;
    InputsExactly(q, target, sight);
  }

  lemma TakesExactly(s: Desk, id: nat, target: nat, after: Sight)
    ensures var q := Published(InSync(Taken(s, id, target), after));
      && q.entries == Lacking(s.entries, id) && q.active == s.active && q.input == s.input
      && id !in q.memory && q.windows == s.windows && q.next == s.next
  {
    hide Lacking, Synced, Emptied, TopMost, Items;
  }

  /** A deleted workspace is gone, unless it is the last; what was active or had the input
      moves to the first other one. */
  lemma DeletesExactly(s: Desk, id: nat, sight: Sight, after: Sight)
    requires Core(s)
    ensures var q, first := Deleted(s, id, sight, after), if s.entries != [] && s.entries[0].id != id then 0 else 1;
      if Exists(s.entries, id) && |s.entries| > 1 then
        && (forall x :: Exists(q.entries, x) <==> Exists(s.entries, x) && x != id)
        && q.active == (if s.active == id then s.entries[first].id else s.active)
        && q.input == (if s.active == id || s.input == id then s.entries[first].id else s.input)
        && id !in q.memory && q.windows == s.windows && q.next == s.next
      else q == s
  {
    hide Left, Taken, InSync, Published, Lacking, Placed;
    var target := Other(s.entries, id);
    if |s.entries| > 1 { OtherFound(s.entries, id); }
    if Exists(s.entries, id) && target.Some? {
      OtherIs(s.entries, id, target.value);
      LeavesExactly(s, id, target.value, sight);
      TakesExactly(Left(s, id, target.value, sight), id, target.value, after);
      EntriesKept(s.entries, s.next, id);
    }
  }

  lemma OtherFound(entries: seq<Entry>, id: nat)
    requires Rotation.Distinct(Ids(entries)) && |entries| > 1
    ensures Other(entries, id).Some?
  {
    assert entries[0] in entries && entries[1] in entries && Ids(entries)[0] != Ids(entries)[1];
  }

  lemma OtherIs(entries: seq<Entry>, id: nat, target: nat)
    requires Rotation.Distinct(Ids(entries)) && target != id && FirstOther(entries, id, target)
    ensures |entries| > (if entries[0].id != id then 0 else 1)
    ensures target == entries[if entries[0].id != id then 0 else 1].id
  {
    var i :| 0 <= i < |entries| && entries[i].id == target && forall j :: 0 <= j < i ==> entries[j].id == id;
    assert |entries| > 1 ==> Ids(entries)[0] != Ids(entries)[1];
  }

  // ----- the focus and new windows

  /** What the focus is after a sync: unchanged while its window is on the workspace with the
      input and nothing hidden holds a grab, else the top one there, unless it can stay. */
  lemma RefocusesExactly(s: Desk, sight: Sight)
    ensures var q := Hidden(s, sight);
      var stays := s.focused.Some? && On(s, s.focused.value) == s.input;
      && q == s.(focused := q.focused)
      && (!sight.grabbed && (s.focused.None? || stays) ==> q.focused == s.focused)
      && (s.focused.Some? && !stays ==> IsTop(s, sight, |s.windows|, q.focused))
      && (sight.grabbed && s.focused.None? ==> IsTop(s, sight, |s.windows|, q.focused))
      && (sight.grabbed && stays ==> q.focused == if Visible(s, sight, s.focused.value) then s.focused else None)
  {
  }

  /** Whoever asks for the focus has it if it is mapped on the workspace with the input. */
  lemma AsksExactly(s: Desk, sight: Sight, w: Option<Window>)
    ensures var q := Do(s, Step.Focus(w, sight));
      && q == s.(focused := q.focused)
      && q.focused == if w.Some? && w.value in s.windows && w.value !in sight.minimized && On(s, w.value) == s.input then w else None
  {
  }

  /** A window that is to have the focus of another workspace has it when that one is next. */
  lemma RememberReturns(s: Desk, w: Window, sight: Sight)
    requires Core(s) && w in s.windows && On(s, w) != s.input && On(s, w) != s.active && w !in sight.minimized
    ensures Enabled(s, Remember(w))
    ensures Switched(Do(s, Remember(w)), On(s, w), sight).focused == Some(w)
  {
    var q := Do(s, Remember(w));
    assert Visible(Switched(q, On(s, w), sight), sight, w);
  }

  /** A new window goes where it is put in the stack, and with its owner, or to the active
      workspace; every other keeps its place and its workspace. */
  lemma OpensExactly(s: Desk, window: Window, at: nat, owner: Option<Window>)
    requires Core(s) && window !in s.member && at <= |s.windows|
    requires owner.Some? ==> owner.value in s.windows || owner == s.focused
    ensures var q := Do(s, Open(window, at, owner));
      && |q.windows| == |s.windows| + 1 && q.windows[at] == window
      && q.windows[..at] == s.windows[..at] && q.windows[at + 1..] == s.windows[at..]
      && On(q, window) == (if owner.Some? then On(s, owner.value) else s.active)
      && (forall w :: w in s.windows ==> On(q, w) == On(s, w))
      && q == s.(windows := q.windows, member := q.member)
  {
  }

  /** A window that closes leaves the stack, and the others keep their order; what the clients
      say of the stack and of parents counts from then on. */
  lemma ClosesExactly(s: Desk, step: Step)
    requires Enabled(s, step) && (step.Close? || step.Restack? || step.Reparent?)
    ensures var q := Do(s, step);
      && q == s.(windows := q.windows, parents := q.parents)
      && q.windows == (if step.Close? then Rotation.Keep(s.windows, (set w | w in s.windows) - {step.window})
                       else if step.Restack? then step.windows else s.windows)
      && q.parents == if step.Reparent? then step.parents else s.parents
  {
    if step.Close? {
      Stack.Without1Keeps(s.windows, step.window);
      assert Stack.Mapped(s.windows) == set w | w in s.windows;
    }
  }

  // ----- the panels' requests

  /** A new panel holds a handle of every workspace, in order. */
  lemma {:induction false} AddsAll(p: Panel, entries: seq<Entry>, active: nat)
    ensures var q := AddedAll(p, entries, active);
      q.handles == p.handles + Ids(entries) && q.manager == p.manager && q.dead == p.dead && q.pending == p.pending
    decreases |entries|
  {
    if entries == [] {
      assert p.handles + [] == p.handles;
    } else {
      AddsAll(Added(p, entries[0], active), entries[1..], active);
      assert (p.handles + [entries[0].id]) + Ids(entries[1..]) == p.handles + Ids(entries);
    }
  }

  lemma BindsExactly(s: Desk, manager: nat)
    ensures var q := Do(s, Bind(manager));
      && |q.panels| == |s.panels| + 1 && q.panels[..|s.panels|] == s.panels && q == s.(panels := q.panels)
      && var p := q.panels[|s.panels|];
      && p.manager == manager && p.handles == Ids(s.entries) && p.dead == {} && p.pending == []
  {
    AddsAll(Panel(manager, [], {}, [], []), s.entries, s.active);
    assert [] + Ids(s.entries) == Ids(s.entries);
  }

  /** The panel a manager's requests go to: the first with its number. */
  ghost predicate IsPanel(s: Desk, manager: nat, i: nat) {
    && i < |s.panels| && s.panels[i].manager == manager
    && forall j :: 0 <= j < i ==> s.panels[j].manager != manager
  }

  lemma {:induction false} FindsFirst(panels: seq<Panel>, manager: nat, i: nat)
    requires i < |panels| && panels[i].manager == manager && forall j :: 0 <= j < i ==> panels[j].manager != manager
    ensures Finding(panels, manager) == i
  {
    if i > 0 { FindsFirst(panels[1..], manager, i - 1); }
  }

  lemma {:induction false} FindsNone(panels: seq<Panel>, manager: nat)
    ensures (forall p :: p in panels ==> p.manager != manager) <==> Finding(panels, manager) == |panels|
  {
    if panels != [] { FindsNone(panels[1..], manager); }
  }

  /** A request waits behind the panel's others, and a destroyed handle is noted; nothing else
      happens until the commit. */
  lemma WaitsExactly(s: Desk, manager: nat, i: nat, request: Request, id: nat)
    requires IsPanel(s, manager, i)
    ensures Do(s, Ask(manager, request)) == s.(panels := s.panels[i := s.panels[i].(pending := s.panels[i].pending + [request])])
    ensures Destroyed(s, manager, id) == s.(panels := s.panels[i := s.panels[i].(dead := s.panels[i].dead + {id})])
  {
    FindsFirst(s.panels, manager, i);
  }

  /** What a request of a panel comes to. */
  lemma ObeysExactly(s: Desk, focus: Workspaces.Focus, id: nat, name: string)
    requires Core(s)
    ensures Exists(s.entries, id) ==> Obeyed(s, Activate(id), focus).active == id && Obeyed(s, Activate(id), focus).entries == s.entries
    ensures !Exists(s.entries, id) ==> Obeyed(s, Activate(id), focus) == s && Obeyed(s, Remove(id), focus) == s
    ensures |s.entries| > 1 ==> forall x :: Exists(Obeyed(s, Remove(id), focus).entries, x) <==> Exists(s.entries, x) && x != id
    ensures s.next.Some? && (exists c :: c in name && !White(c)) && !Unfit(name) ==>
      Obeyed(s, Request.Create(name), focus).entries == s.entries + [Entry(s.next.value, name)]
  {
    hide Switched, Deleted, Created, Core, Exists, Unfit, Decimal, White;
    SwitchesExactly(s, id, focus.0);
    DeletesExactly(s, id, focus.0, focus.1);
    CreatesExactly(s, Some(name));
  }

  /** A commit obeys what the panel asked for since its last one, in order, and leaves nothing
      waiting: without requests nothing happens, and the last one comes after all others. */
  lemma CommitsExactly(s: Desk, manager: nat, i: nat, focuses: seq<Workspaces.Focus>)
    requires IsPanel(s, manager, i) && |focuses| == |s.panels[i].pending|
    ensures |focuses| == |Queued(s, manager)|
    ensures var pending := s.panels[i].pending;
      if pending == [] then Committed(s, manager, focuses) == s
      else
        var n := |pending| - 1;
        var less := s.(panels := s.panels[i := s.panels[i].(pending := pending[..n])]);
        |Queued(less, manager)| == n && Committed(s, manager, focuses) == Obeyed(Committed(less, manager, focuses[..n]), pending[n], focuses[n])
  {
    FindsFirst(s.panels, manager, i);
    var pending := s.panels[i].pending;
    if pending == [] {
      assert s.panels[i := s.panels[i].(pending := [])] == s.panels;
    } else {
      var n := |pending| - 1;
      var less := s.(panels := s.panels[i := s.panels[i].(pending := pending[..n])]);
      FindsFirst(less.panels, manager, i);
      assert Drained(less, manager).panels == Drained(s, manager).panels;
      ObeysLast(Drained(s, manager), pending, focuses);
    }
  }

  lemma {:induction false} ObeysLast(s: Desk, requests: seq<Request>, focuses: seq<Workspaces.Focus>)
    requires |focuses| == |requests| > 0
    ensures var n := |requests| - 1;
      ObeyedAll(s, requests, focuses) == Obeyed(ObeyedAll(s, requests[..n], focuses[..n]), requests[n], focuses[n])
    decreases |requests|
  {
    hide Obeyed;
    var n, q := |requests| - 1, Obeyed(s, requests[0], focuses[0]);
    if n == 0 {
      assert ObeyedAll(q, requests[1..], focuses[1..]) == q;
    } else {
      ObeysLast(q, requests[1..], focuses[1..]);
      assert requests[..n][1..] == requests[1..][..n - 1] && focuses[..n][1..] == focuses[1..][..n - 1];
    }
  }

  /** An output that enters the group is a done for its own client's panels alone. */
  lemma OutputsExactly(s: Desk, managers: set<nat>)
    ensures var q := OutputEntered(s, managers);
      && q == s.(panels := q.panels) && |q.panels| == |s.panels|
      && forall i :: 0 <= i < |s.panels| ==>
           && q.panels[i] == s.panels[i].(log := q.panels[i].log)
           && q.panels[i].log == s.panels[i].log + if s.panels[i].manager in managers then [Done(Items(s.entries, s.active))] else []
  {
  }
}
