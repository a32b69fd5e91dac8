/** The scheduler's `Jobs`, updated in place as the loop calls it. */
module JobsQueue {
  import opened Common
  import opened Rotation
  import opened Jobs

  class Queue {
    var queued: map<JobId, Job>
    var order: seq<JobId>
    var tokens: seq<nat>
    var active: map<JobId, Running>
    var cells: map<nat, Outcome>
    var replies: seq<Reply>
    var aborted: set<nat>

    function Model(): State
      reads this
    {
      State(queued, order, tokens, active, cells, replies, aborted)
    }

    constructor ()
      ensures Model() == EMPTY
    {
      queued, order, tokens, active, cells, replies, aborted := map[], [], [], map[], map[], [], {};
    }

    /** `finished` is what the job's task says of itself, if the id has one. */
    method Push(id: JobId, application: Application, reader: Reader, finished: bool)
      modifies this
      ensures Model() == Pushed(old(Model()), id, application, reader, finished)
    {
      if id.Refresh? {
        if id.cell in cells {
          replies := replies + [Reply(reader, id, cells[id.cell])];
          return;
        }
        if id in active && !finished && active[id].job.readers != [] {
          active := active[id := active[id].(job := Joined(active[id].job, reader))];
          return;
        }
      }
      if reader.token !in tokens { tokens := tokens + [reader.token]; }
      if id !in queued {
        order := order + [id];
        queued := queued[id := Job(application, [])];
      }
      queued := queued[id := Joined(queued[id], reader)];
    }

    method Prune(live: set<Reader>)
      modifies this
      ensures Model() == Pruned(old(Model()), live)
    {
      PruneActive(live);
      queued := map id | id in queued && Keep(queued[id].readers, live) != [] :: PrunedJob(queued[id], live);
      order := Keep(order, queued.Keys);
      tokens := Keep(tokens, Wanted(queued));
    }

    method PruneActive(live: set<Reader>)
      modifies `active, `aborted
      ensures active == PrunedActive(old(active), live)
      ensures aborted == old(aborted) + Abandoned(old(active), live)
    {
      ghost var was, before := active, aborted;
      PrunedBounds(was, live);
      var ids := active.Keys;
      assert was.Keys - ids == {};
      while ids != {}
        invariant ids <= was.Keys
        invariant active == PrunedIn(was, was.Keys - ids, live)
        invariant aborted == before + AbandonedIn(was, was.Keys - ids, live)
        decreases |ids|
      {
        var id :| id in ids;
        PruneOne(id, live, was, ids, before);
        ids := ids - {id};
      }
      assert was.Keys - ids == was.Keys;
    }

    method PruneOne(id: JobId, live: set<Reader>, ghost was: map<JobId, Running>, ghost ids: set<JobId>, ghost before: set<nat>)
      requires id in ids && ids <= was.Keys
      requires active == PrunedIn(was, was.Keys - ids, live)
      requires aborted == before + AbandonedIn(was, was.Keys - ids, live)
      modifies `active, `aborted
      ensures active == PrunedIn(was, was.Keys - (ids - {id}), live)
      ensures aborted == before + AbandonedIn(was, was.Keys - (ids - {id}), live)
    {
      PrunedMore(was, was.Keys - ids, id, live);
      assert was.Keys - (ids - {id}) == was.Keys - ids + {id};
      var job := PrunedJob(active[id].job, live);
      if job.readers == [] { aborted := aborted + {active[id].task}; }
      active := active[id := active[id].(job := job)];
    }

    /** The first job in order that may start and that `token` waits for. */
    method Position(token: nat) returns (i: nat)
      requires Covered(Model())
      ensures i == First(Model(), token, 0)
    {
      i := 0;
      while i < |order| && !Serves(Model(), order[i], token)
        invariant i <= |order|
        invariant First(Model(), token, 0) == First(Model(), token, i)
      {
        i := i + 1;
      }
    }

    method Take(i: nat) returns (job: (JobId, Job))
      requires i < |order| && order[i] in queued
      modifies `order, `queued
      ensures job == (old(order)[i], old(queued)[old(order)[i]])
      ensures Model() == Taken(old(Model()), i, tokens)
    {
      var id := order[i];
      job := (id, queued[id]);
      order := order[..i] + order[i + 1..];
      queued := queued - {id};
    }

    /** Each token in turn goes to the back; the first that can start a job takes it. */
    method Next() returns (next: Option<(JobId, Job)>)
      requires Covered(Model()) && Listed(Model())
      modifies this
      ensures next.None? ==> Chosen(old(Model())).None? && Model() == old(Model())
      ensures next.Some? ==> Picked(old(Model()), Model(), next.value)
    {
      hide Eligible, First, Chosen, Turned, Serves, Startable;
      var n := |tokens|;
      ghost var s := Model();
      var k := 0;
      while k < n
        invariant k <= n == |s.tokens|
        invariant Model() == s.(tokens := s.tokens[k..] + s.tokens[..k])
        invariant forall j :: 0 <= j < k ==> s.tokens[j] !in Eligible(s)
      {
        TurnedOnce(s.tokens, k, tokens);
        var token := tokens[0];
        tokens := tokens[1..] + [token];
        var i := Position(token);
        SameFirst(s, tokens, token, 0);
        if i < |order| {
          FoundAt(s, k);
          var job := Take(i);
          next := Some(job);
          return;
        }
        EligibleServed(s, token);
        k := k + 1;
      }
      NoneChosen(s);
      assert tokens == s.tokens;
      next := None;
    }

    /** A refresh's outcome also answers the readers queued while it ended. */
    method Finish(id: JobId, outcome: Outcome)
      modifies this
      ensures Model() == Finished(old(Model()), id, outcome)
    {
      if id !in active { return; }
      var job := active[id].job;
      active := active - {id};
      if id.Refresh? {
        if id.cell !in cells { cells := cells[id.cell := outcome]; }
        if id in queued {
          var late := queued[id];
          queued := queued - {id};
          Send(late.readers, id, outcome);
        }
      }
      Send(job.readers, id, outcome);
    }

    method Send(readers: seq<Reader>, id: JobId, outcome: Outcome)
      modifies `replies
      ensures replies == old(replies) + Replies(readers, id, outcome)
    {
      for i := 0 to |readers|
        invariant replies == old(replies) + Replies(readers, id, outcome)[..i]
      {
        replies := replies + [Reply(readers[i], id, outcome)];
      }
    }

    /** A failed task is known only by its number. */
    method Lose(task: nat)
      requires forall a, b :: a in active && b in active && active[a].task == active[b].task ==> a == b
      modifies this
      ensures Model() == Lost(old(Model()), task)
    {
      if id :| id in active && active[id].task == task {
        active := active - {id};
      } else {
        assert active == Lost(Model(), task).active;
      }
    }

    /** One turn of the loop's last part: a picked job starts in a new task. */
    method StartOne(task: nat) returns (more: bool)
      requires Ready(Model())
      modifies this
      ensures more <==> Chosen(old(Model())).Some?
      ensures Model() == if more then TakenAt(old(Model()), Chosen(old(Model())).value, Turned(old(Model())), task) else old(Model())
    {
      var job := Next();
      more := job.Some?;
      if more { active := active[job.value.0 := Running(job.value.1, task)]; }
    }

    /** The loop's last part: starts jobs until none may start. */
    method StartAll(next: nat) returns (spawned: nat)
      requires Ready(Model())
      modifies this
      ensures Model() == Started(old(Model()), next)
      ensures Ready(Model()) && spawned >= next
      ensures forall id :: id in queued ==> !Startable(Model(), id)
      ensures Progress(old(Model()), Model(), spawned - next)
    {
      spawned := next;
      ghost var was := Model();
      Unstarted(was);
      var more := true;
      while more
        invariant spawned >= next
        invariant Ready(Model()) && Progress(was, Model(), spawned - next)
        invariant Started(Model(), spawned) == Started(was, next)
        invariant !more ==> Chosen(Model()).None?
        decreases |queued|, more
      {
        ghost var s := Model();
        more := StartOne(spawned);
        if more {
          OneStart(was, s, spawned - next, spawned);
          spawned := spawned + 1;
        }
      }
      NothingLeft(Model());
    }
  }

  ghost function AbandonedIn(active: map<JobId, Running>, ids: set<JobId>, live: set<Reader>): set<nat>
    requires ids <= active.Keys
  {
    set id | id in ids && Keep(active[id].job.readers, live) == [] :: active[id].task
  }

  ghost function PrunedIn(active: map<JobId, Running>, ids: set<JobId>, live: set<Reader>): map<JobId, Running> {
    map id | id in active :: if id in ids then active[id].(job := PrunedJob(active[id].job, live)) else active[id]
  }

  lemma PrunedMore(active: map<JobId, Running>, ids: set<JobId>, id: JobId, live: set<Reader>)
    requires ids <= active.Keys && id in active && id !in ids
    ensures AbandonedIn(active, ids + {id}, live)
      == AbandonedIn(active, ids, live) + (if Keep(active[id].job.readers, live) == [] then {active[id].task} else {})
    ensures PrunedIn(active, ids + {id}, live)
      == PrunedIn(active, ids, live)[id := active[id].(job := PrunedJob(active[id].job, live))]
    ensures PrunedIn(active, ids, live)[id] == active[id]
  {
  }

  /** The chosen job left the queue and the rotation went on to the next token. */
  ghost predicate Picked(s: State, q: State, job: (JobId, Job))
    requires Covered(s) && Listed(s)
  {
    var i := Chosen(s);
    && i.Some?
    && job == (s.order[i.value], s.queued[s.order[i.value]])
    && q == Taken(s, i.value, Turned(s))
  }

  /** `count` jobs moved from the queue to the running ones; nothing else did. */
  ghost predicate Progress(s: State, q: State, count: int) {
    && QueuedOn(s, q) && ActiveOn(s, q)
    && |q.active| == |s.active| + count
    && q.cells == s.cells && q.replies == s.replies && q.aborted == s.aborted
  }

  lemma {:induction false} SameFirst(s: State, tokens: seq<nat>, token: nat, from: nat)
    requires Covered(s) && from <= |s.order|
    ensures First(s, token, from) == First(s.(tokens := tokens), token, from)
    decreases |s.order| - from
  {
    if from < |s.order| {
      assert Serves(s, s.order[from], token) == Serves(s.(tokens := tokens), s.order[from], token);
      SameFirst(s, tokens, token, from + 1);
    }
  }

  lemma PrunedBounds(active: map<JobId, Running>, live: set<Reader>)
    ensures PrunedIn(active, {}, live) == active && AbandonedIn(active, {}, live) == {}
    ensures PrunedIn(active, active.Keys, live) == PrunedActive(active, live)
    ensures AbandonedIn(active, active.Keys, live) == Abandoned(active, live)
  {
  }

  lemma NoneChosen(s: State)
    requires Covered(s) && Listed(s) && forall j :: 0 <= j < |s.tokens| ==> s.tokens[j] !in Eligible(s)
    ensures Chosen(s).None?
  {
    TurnIs(s.tokens, Eligible(s), |s.tokens|);
  }

  lemma FoundAt(s: State, k: nat)
    requires Covered(s) && Listed(s) && k < |s.tokens|
    requires forall j :: 0 <= j < k ==> s.tokens[j] !in Eligible(s)
    requires First(s, s.tokens[k], 0) < |s.order|
    ensures Chosen(s) == Some(First(s, s.tokens[k], 0))
    ensures Turned(s) == s.tokens[k + 1..] + s.tokens[..k + 1]
  {
    EligibleServed(s, s.tokens[k]);
    TurnIs(s.tokens, Eligible(s), k);
    assert s.tokens[..k] + [s.tokens[k]] == s.tokens[..k + 1];
  }

  lemma Unstarted(s: State)
    ensures Progress(s, s, 0)
  {
  }

  lemma OneStart(was: State, s: State, count: int, task: nat)
    requires Ready(s) && Chosen(s).Some? && Progress(was, s, count)
    ensures Ready(TakenAt(s, Chosen(s).value, Turned(s), task))
    ensures Progress(was, TakenAt(s, Chosen(s).value, Turned(s), task), count + 1)
    ensures |TakenAt(s, Chosen(s).value, Turned(s), task).queued| < |s.queued|
    ensures Started(s, task) == Started(TakenAt(s, Chosen(s).value, Turned(s), task), task + 1)
  {
    StartedReady(s, task);
    StartedFewer(s, task);
    StartedProgress(was, s, count, task);
  }

  lemma StartedProgress(was: State, s: State, count: int, task: nat)
    requires Ready(s) && Chosen(s).Some? && Progress(was, s, count)
    ensures Progress(was, TakenAt(s, Chosen(s).value, Turned(s), task), count + 1)
  {
    var i := Chosen(s).value;
    var id := s.order[i];
    assert id in s.queued && id !in s.active;
    Moved(was, s, TakenAt(s, i, Turned(s), task), count, id);
  }

  ghost predicate QueuedOn(s: State, q: State) {
    && (forall id :: id in s.queued ==>
          if id in q.queued then q.queued[id] == s.queued[id] else id in q.active && q.active[id].job == s.queued[id])
    && (forall id :: id in q.queued ==> id in s.queued)
  }

  ghost predicate ActiveOn(s: State, q: State) {
    && (forall id :: id in s.active ==> id in q.active && q.active[id] == s.active[id])
    && (forall id :: id in q.active ==> id in s.active || (id in s.queued && id !in q.queued))
  }

  lemma Moved(was: State, s: State, q: State, count: int, id: JobId)
    requires Progress(was, s, count) && id in s.queued && id !in s.active && id in q.active
    requires q.queued == s.queued - {id} && q.active == s.active[id := q.active[id]] && q.active[id].job == s.queued[id]
    requires q.cells == s.cells && q.replies == s.replies && q.aborted == s.aborted
    ensures Progress(was, q, count + 1)
  {
    assert q.active.Keys == s.active.Keys + {id};
    MovedQueued(was, s, q, id);
    MovedActive(was, s, q, id);
  }

  lemma MovedQueued(was: State, s: State, q: State, id: JobId)
    requires QueuedOn(was, s) && ActiveOn(was, s) && id in s.queued && id !in s.active && id in q.active
    requires q.queued == s.queued - {id} && q.active == s.active[id := q.active[id]] && q.active[id].job == s.queued[id]
    ensures QueuedOn(was, q)
  {
  }

  lemma MovedActive(was: State, s: State, q: State, id: JobId)
    requires QueuedOn(was, s) && ActiveOn(was, s) && id in s.queued && id !in s.active && id in q.active
    requires q.queued == s.queued - {id} && q.active == s.active[id := q.active[id]]
    ensures ActiveOn(was, q)
  {
  }
}
