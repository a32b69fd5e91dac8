/** Reading the clipboard of a desktop application: one read at a time, told apart by a
    generation, and settled once. */
module Clipboard {
  import opened Common

  const PNG := "image/png"
  const URI_LIST := "text/uri-list"
  const TEXT_MIMES := ["text/plain;charset=utf-8", "text/plain", "UTF8_STRING", "TEXT", "STRING"]
  const OTHER := "application/octet-stream"
  const PREFERRED := [URI_LIST] + TEXT_MIMES + [PNG]

  type Byte = b: nat | b < 256

  function SizeLimit(mime: string): nat { if mime == PNG then 0x100_0000 else 0x10_0000 }

  /** Offered, and nothing preferred to it is. */
  predicate Earliest(wanted: seq<string>, mimes: seq<string>, mime: string) {
    exists i :: 0 <= i < |wanted| && wanted[i] == mime && forall j :: 0 <= j < i ==> wanted[j] !in mimes
  }

  function FirstOffered(wanted: seq<string>, mimes: seq<string>): (r: Option<string>)
    ensures r.None? <==> forall m :: m in wanted ==> m !in mimes
    ensures r.Some? ==> r.value in mimes && Earliest(wanted, mimes, r.value)
  {
    if wanted == [] then None
    else if wanted[0] in mimes then
      assert wanted[0] == wanted[0];
      Some(wanted[0])
    else
      var r := FirstOffered(wanted[1..], mimes);
      assert forall m :: m in wanted <==> m == wanted[0] || m in wanted[1..];
      assert r.Some? ==> Earliest(wanted, mimes, r.value) by {
        if r.Some? {
          var k :| 0 <= k < |wanted[1..]| && wanted[1..][k] == r.value && forall j :: 0 <= j < k ==> wanted[1..][j] !in mimes;
          assert wanted[k + 1] == r.value;
          assert forall j :: 0 < j < k + 1 ==> wanted[j] == wanted[1..][j - 1];
        }
      }
      r
  }

  function PickMime(mimes: seq<string>): Option<string> { FirstOffered(PREFERRED, mimes) }

  // ----- events

  datatype Event =
    | ClipboardOffer(mime: Option<string>, loading: bool)
    | Data(kind: string, data: seq<Byte>)

  /** Why an event is sent, and the generation of the code that sends it. */
  datatype Role = Announce | Settle | Write
  datatype Sent = Sent(generation: nat, role: Role, event: Event)

  /** A read starts on a later turn of the event loop; then its pipe is a source, with a timer. */
  datatype Idle = Idle(mime: string, generation: nat)
  datatype Source = Source(mime: string, generation: nat, data: seq<Byte>)
  datatype Deadline = Deadline(mime: string, generation: nat)

  datatype Board = Board(
    generation: nat, token: Option<nat>, tokens: nat,
    idles: seq<Idle>, sources: map<nat, Source>, deadlines: seq<Deadline>, sent: seq<Sent>)

  const START := Board(0, None, 0, [], map[], [], [])

  function Tell(b: Board, generation: nat, role: Role, event: Event): Board {
    b.(sent := b.sent + [Sent(generation, role, event)])
  }

  function Unavailable(b: Board, generation: nat, mime: string): Board {
    Tell(b, generation, Settle, ClipboardOffer(Some(mime), false))
  }

  function Cancelled(b: Board): Board {
    b.(sources := if b.token.Some? then b.sources - {b.token.value} else b.sources, token := None, generation := b.generation + 1)
  }

  /** What an offer is announced as: what will be read, else the first type it has. */
  function Announced(mimes: Option<seq<string>>): Event {
    match mimes
    case None => ClipboardOffer(None, false)
    case Some(m) =>
      var readable := PickMime(m);
      ClipboardOffer(Some(if readable.Some? then readable.value else if m != [] then m[0] else OTHER), readable.Some?)
  }

  function Offered(b: Board, mimes: Option<seq<string>>): Board {
    var q := Cancelled(b);
    var r := Tell(q, q.generation, Announce, Announced(mimes));
    if mimes.Some? && PickMime(mimes.value).Some?
    then r.(idles := r.idles + [Idle(PickMime(mimes.value).value, q.generation)]) else r
  }

  function Written(b: Board, mime: string, data: seq<Byte>): Board {
    var q := Cancelled(b);
    Tell(q, q.generation, Write, Data(mime, data))
  }

  /** How far the start of a read gets. */
  datatype Begin = NoPipe | NoRequest | NoSource | Begun

  function Started(b: Board, mime: string, generation: nat, begin: Begin): Board {
    if generation != b.generation then b
    else if !begin.Begun? then Unavailable(b, generation, mime)
    else
      b.(token := Some(b.tokens), tokens := b.tokens + 1, sources := b.sources[b.tokens := Source(mime, generation, [])],
         deadlines := b.deadlines + [Deadline(mime, generation)])
  }

  function Idled(b: Board, i: nat, begin: Begin): Board
    requires i < |b.idles|
  {
    Started(b.(idles := b.idles[..i] + b.idles[i + 1..]), b.idles[i].mime, b.idles[i].generation, begin)
  }

  /** One turn of reading: the chunks the pipe gave, and how it ended. */
  datatype Last = Again | End | Error
  datatype Outcome = Waiting(data: seq<Byte>) | Ended(data: seq<Byte>) | TooLong | Failed

  function Drained(data: seq<Byte>, limit: nat, chunks: seq<seq<Byte>>, last: Last): Outcome
    decreases |chunks|
  {
    if chunks == [] then
      match last
      case Again => Waiting(data)
      case End => Ended(data)
      case Error => Failed
    else if |data + chunks[0]| > limit then TooLong
    else Drained(data + chunks[0], limit, chunks[1..], last)
  }

  function Ready(b: Board, token: nat, chunks: seq<seq<Byte>>, last: Last): Board
    requires token in b.sources
  {
    var s := b.sources[token];
    if s.generation != b.generation then b.(sources := b.sources - {token})
    else
      match Drained(s.data, SizeLimit(s.mime), chunks, last)
      case Waiting(data) => b.(sources := b.sources[token := s.(data := data)])
      case Ended(data) => Tell(b.(token := None, sources := b.sources - {token}), s.generation, Settle, Data(s.mime, data))
      case _ => Unavailable(b.(token := None, sources := b.sources - {token}), s.generation, s.mime)
  }

  function Expired(b: Board, i: nat): Board
    requires i < |b.deadlines|
  {
    var d := b.deadlines[i];
    var q := b.(deadlines := b.deadlines[..i] + b.deadlines[i + 1..]);
    if d.generation == q.generation && q.token.Some?
    then Unavailable(q.(token := None, sources := q.sources - {q.token.value}), d.generation, d.mime)
    else q
  }

  datatype Step =
    | Offer(mimes: Option<seq<string>>)
    | Set(mime: string, data: seq<Byte>)
    | Run(i: nat, begin: Begin)
    | Read(token: nat, chunks: seq<seq<Byte>>, last: Last)
    | Expire(i: nat)

  predicate Enabled(b: Board, step: Step) {
    match step
    case Run(i, _) => i < |b.idles|
    case Read(token, _, _) => token in b.sources
    case Expire(i) => i < |b.deadlines|
    case _ => true
  }

  function Do(b: Board, step: Step): Board
    requires Enabled(b, step)
  {
    match step
    case Offer(mimes) => Offered(b, mimes)
    case Set(mime, data) => Written(b, mime, data)
    case Run(i, begin) => Idled(b, i, begin)
    case Read(token, chunks, last) => Ready(b, token, chunks, last)
    case Expire(i) => Expired(b, i)
  }

  // ----- what every step keeps

  predicate Settles(s: Sent, generation: nat) { s.role.Settle? && s.generation == generation }

  predicate Loads(s: Sent, generation: nat) { s.role.Announce? && s.generation == generation && s.event.ClipboardOffer? && s.event.loading }

  function Settled(sent: seq<Sent>, generation: nat): nat {
    if sent == [] then 0
    else (if Settles(sent[|sent| - 1], generation) then 1 else 0) + Settled(sent[..|sent| - 1], generation)
  }

  function Loading(sent: seq<Sent>, generation: nat): nat {
    if sent == [] then 0
    else (if Loads(sent[|sent| - 1], generation) then 1 else 0) + Loading(sent[..|sent| - 1], generation)
  }

  function Waits(idles: seq<Idle>, generation: nat): nat {
    if idles == [] then 0
    else (if idles[0].generation == generation then 1 else 0) + Waits(idles[1..], generation)
  }

  predicate Running(b: Board) { b.token.Some? }

  ghost predicate InOrder(sent: seq<Sent>, generation: nat) {
    && (forall i, j :: 0 <= i < j < |sent| ==> sent[i].generation <= sent[j].generation)
    && (forall i :: 0 <= i < |sent| ==> sent[i].generation <= generation)
  }

  ghost predicate WithinLimits(sent: seq<Sent>) {
    forall i :: 0 <= i < |sent| && sent[i].role.Settle? && sent[i].event.Data? ==> |sent[i].event.data| <= SizeLimit(sent[i].event.kind)
  }

  /** The source of the current read, its data within the limit and its deadline armed. */
  ghost predicate Armed(b: Board, token: nat) {
    && token in b.sources && token < b.tokens && b.sources[token].generation == b.generation
    && |b.sources[token].data| <= SizeLimit(b.sources[token].mime)
    && Deadline(b.sources[token].mime, b.generation) in b.deadlines
  }

  ghost predicate OneSource(b: Board) {
    (forall t :: t in b.sources ==> b.token == Some(t)) && (b.token.Some? ==> Armed(b, b.token.value))
  }

  /** Every loading announcement is settled, or about to start, or being read; only the
      newest can be read. */
  ghost predicate Balanced(b: Board) {
    && (forall g :: Settled(b.sent, g) <= Loading(b.sent, g) <= 1)
    && Loading(b.sent, b.generation) == Settled(b.sent, b.generation) + Waits(b.idles, b.generation) + (if Running(b) then 1 else 0)
    && (forall g :: g > b.generation ==> Loading(b.sent, g) == 0 && Waits(b.idles, g) == 0)
  }

  ghost predicate Valid(b: Board) {
    InOrder(b.sent, b.generation) && WithinLimits(b.sent) && OneSource(b) && Balanced(b)
  }

  lemma SentMore(sent: seq<Sent>, s: Sent, g: nat)
    ensures Settled(sent + [s], g) == Settled(sent, g) + if Settles(s, g) then 1 else 0
    ensures Loading(sent + [s], g) == Loading(sent, g) + if Loads(s, g) then 1 else 0
  {
    assert (sent + [s])[..|sent|] == sent;
  }

  lemma {:induction false} WaitsMore(idles: seq<Idle>, idle: Idle, g: nat)
    ensures Waits(idles + [idle], g) == Waits(idles, g) + if idle.generation == g then 1 else 0
  {
    if idles == [] {
      assert [] + [idle] == [idle] && [idle][1..] == [];
    } else {
      assert (idles + [idle])[1..] == idles[1..] + [idle];
      WaitsMore(idles[1..], idle, g);
    }
  }

  lemma {:induction false} WaitsLess(idles: seq<Idle>, i: nat, g: nat)
    requires i < |idles|
    ensures Waits(idles[..i] + idles[i + 1..], g) == Waits(idles, g) - if idles[i].generation == g then 1 else 0
  {
    var rest := idles[..i] + idles[i + 1..];
    if i == 0 {
      assert rest == idles[1..];
    } else {
      assert rest[0] == idles[0] && rest[1..] == idles[1..][..i - 1] + idles[1..][i..];
      WaitsLess(idles[1..], i - 1, g);
    }
  }

  lemma CancelKeeps(b: Board)
    requires Valid(b)
    ensures Valid(Cancelled(b))
  {
    assert Cancelled(b).sources == map[];
  }

  lemma TellKeeps(b: Board, role: Role, event: Event)
    requires InOrder(b.sent, b.generation) && WithinLimits(b.sent)
    requires role.Settle? && event.Data? ==> |event.data| <= SizeLimit(event.kind)
    ensures var q := Tell(b, b.generation, role, event); InOrder(q.sent, b.generation) && WithinLimits(q.sent)
  {
  }

  /** Balanced again after an announcement or an event that settles. */
  lemma Rebalanced(was: Board, now: Board, s: Sent)
    requires Balanced(was) && now.generation == was.generation == s.generation && now.sent == was.sent + [s]
    requires forall g :: g > now.generation ==> Waits(now.idles, g) == 0
    requires Loads(s, s.generation) ==> Loading(was.sent, s.generation) == 0
    requires (if Loads(s, s.generation) then 1 else 0) - (if Settles(s, s.generation) then 1 else 0)
      == Waits(now.idles, s.generation) - Waits(was.idles, s.generation) + (if Running(now) then 1 else 0) - (if Running(was) then 1 else 0)
    ensures Balanced(now)
  {
    forall g ensures Settled(now.sent, g) == Settled(was.sent, g) + (if Settles(s, g) then 1 else 0)
      && Loading(now.sent, g) == Loading(was.sent, g) + (if Loads(s, g) then 1 else 0)
    {
      SentMore(was.sent, s, g);
    }
  }

  lemma OfferKeeps(b: Board, mimes: Option<seq<string>>)
    requires Valid(b)
    ensures Valid(Offered(b, mimes))
  {
    var q := Cancelled(b);
    CancelKeeps(b);
    TellKeeps(q, Announce, Announced(mimes));
    var now := Offered(b, mimes);
    if mimes.Some? && PickMime(mimes.value).Some? {
      forall g ensures Waits(now.idles, g) == Waits(q.idles, g) + if g == q.generation then 1 else 0 {
        WaitsMore(q.idles, Idle(PickMime(mimes.value).value, q.generation), g);
      }
    }
    Rebalanced(q, now, Sent(q.generation, Announce, Announced(mimes)));
  }

  lemma SetKeeps(b: Board, mime: string, data: seq<Byte>)
    requires Valid(b)
    ensures Valid(Written(b, mime, data))
  {
    var q := Cancelled(b);
    CancelKeeps(b);
    TellKeeps(q, Write, Data(mime, data));
    Rebalanced(q, Written(b, mime, data), Sent(q.generation, Write, Data(mime, data)));
  }

  lemma RunKeeps(b: Board, i: nat, begin: Begin)
    requires Valid(b) && i < |b.idles|
    ensures Valid(Idled(b, i, begin))
  {
    var mime, g := b.idles[i].mime, b.idles[i].generation;
    var q := b.(idles := b.idles[..i] + b.idles[i + 1..]);
    forall h ensures Waits(q.idles, h) == Waits(b.idles, h) - if g == h then 1 else 0 { WaitsLess(b.idles, i, h); }
    if g == b.generation {
      if begin.Begun? {
        assert b.sources == map[];
        assert Deadline(mime, g) in b.deadlines + [Deadline(mime, g)];
      } else {
        TellKeeps(q, Settle, ClipboardOffer(Some(mime), false));
        Rebalanced(b, Unavailable(q, g, mime), Sent(g, Settle, ClipboardOffer(Some(mime), false)));
      }
    }
  }

  lemma {:induction false} DrainedFits(data: seq<Byte>, limit: nat, chunks: seq<seq<Byte>>, last: Last)
    requires |data| <= limit
    ensures Drained(data, limit, chunks, last).Waiting? ==> |Drained(data, limit, chunks, last).data| <= limit
    ensures Drained(data, limit, chunks, last).Ended? ==> |Drained(data, limit, chunks, last).data| <= limit
    decreases |chunks|
  {
    if chunks != [] && |data + chunks[0]| <= limit { DrainedFits(data + chunks[0], limit, chunks[1..], last); }
  }

  lemma ReadKeeps(b: Board, token: nat, chunks: seq<seq<Byte>>, last: Last)
    requires Valid(b) && token in b.sources
    ensures Valid(Ready(b, token, chunks, last))
  {
    var s := b.sources[token];
    DrainedFits(s.data, SizeLimit(s.mime), chunks, last);
    var q := b.(token := None, sources := b.sources - {token});
    match Drained(s.data, SizeLimit(s.mime), chunks, last)
    case Waiting(data) =>
    case Ended(data) =>
      TellKeeps(q, Settle, Data(s.mime, data));
      Rebalanced(b, Tell(q, s.generation, Settle, Data(s.mime, data)), Sent(s.generation, Settle, Data(s.mime, data)));
    case _ =>
      TellKeeps(q, Settle, ClipboardOffer(Some(s.mime), false));
      Rebalanced(b, Unavailable(q, s.generation, s.mime), Sent(s.generation, Settle, ClipboardOffer(Some(s.mime), false)));
  }

  lemma ExpireKeeps(b: Board, i: nat)
    requires Valid(b) && i < |b.deadlines|
    ensures Valid(Expired(b, i))
  {
    var d := b.deadlines[i];
    var q := b.(deadlines := b.deadlines[..i] + b.deadlines[i + 1..]);
    if d.generation == b.generation && b.token.Some? {
      var r := q.(token := None, sources := q.sources - {q.token.value});
      TellKeeps(r, Settle, ClipboardOffer(Some(d.mime), false));
      Rebalanced(b, Unavailable(r, d.generation, d.mime), Sent(d.generation, Settle, ClipboardOffer(Some(d.mime), false)));
    } else if b.token.Some? {
      var k :| 0 <= k < |b.deadlines| && b.deadlines[k] == Deadline(b.sources[b.token.value].mime, b.generation);
      assert k < i ==> q.deadlines[k] == b.deadlines[k];
      assert k > i ==> q.deadlines[k - 1] == b.deadlines[k];
    }
  }

  lemma StepKeeps(b: Board, step: Step)
    requires Valid(b) && Enabled(b, step)
    ensures Valid(Do(b, step))
  {
    match step
    case Offer(mimes) => OfferKeeps(b, mimes);
    case Set(mime, data) => SetKeeps(b, mime, data);
    case Run(i, begin) => RunKeeps(b, i, begin);
    case Read(token, chunks, last) => ReadKeeps(b, token, chunks, last);
    case Expire(i) => ExpireKeeps(b, i);
  }

  // ----- runs

  ghost predicate Possible(b: Board, steps: seq<Step>)
    decreases |steps|
  {
    steps != [] ==> Enabled(b, steps[0]) && Possible(Do(b, steps[0]), steps[1..])
  }

  ghost function After(b: Board, steps: seq<Step>): Board
    requires Possible(b, steps)
    decreases |steps|
  {
    if steps == [] then b else After(Do(b, steps[0]), steps[1..])
  }

  lemma {:induction false} AlwaysValid(b: Board, steps: seq<Step>)
    requires Valid(b) && Possible(b, steps)
    ensures Valid(After(b, steps))
    decreases |steps|
  {
    if steps != [] {
      StepKeeps(b, steps[0]);
      AlwaysValid(Do(b, steps[0]), steps[1..]);
    }
  }

  /** Once a newer offer or write was sent, nothing of an older one follows; and no data over
      the limit is ever handed on. */
  lemma NothingOlder(steps: seq<Step>, i: nat, j: nat)
    requires Possible(START, steps) && i < j < |After(START, steps).sent|
    ensures var sent := After(START, steps).sent;
      && sent[i].generation <= sent[j].generation
      && (sent[j].role.Settle? && sent[j].event.Data? ==> |sent[j].event.data| <= SizeLimit(sent[j].event.kind))
  {
    AlwaysValid(START, steps);
  }

  /** At any time the newest offer, if it was announced as loading, is settled exactly once or
      is on its way: its start is queued, or it has its pipe and its deadline. One that was not
      so announced, and any older one, is settled at most as often as it was announced so. */
  lemma SettledOnce(steps: seq<Step>, g: nat)
    requires Possible(START, steps)
    ensures var b := After(START, steps);
      && Settled(b.sent, g) <= Loading(b.sent, g) <= 1
      && (Loading(b.sent, b.generation) == 1 ==>
            (Settled(b.sent, b.generation) == 1) != (Waits(b.idles, b.generation) == 1 || b.token.Some?))
      && (b.token.Some? ==> Armed(b, b.token.value))
  {
    AlwaysValid(START, steps);
  }

  // ----- what a turn of reading delivers

  function Flat(chunks: seq<seq<Byte>>): seq<Byte> { if chunks == [] then [] else chunks[0] + Flat(chunks[1..]) }

  /** Byte for byte, or dropped: the read ends with exactly what the pipe gave if that fits,
      and is too long as soon as it does not, however it is cut into chunks. */
  lemma {:induction false} DrainedIs(data: seq<Byte>, limit: nat, chunks: seq<seq<Byte>>, last: Last)
    requires |data| <= limit
    ensures var all := data + Flat(chunks);
      Drained(data, limit, chunks, last) ==
        if |all| > limit then TooLong
        else match last case Again => Waiting(all) case End => Ended(all) case Error => Failed
    decreases |chunks|
  {
    if chunks == [] {
      assert data + [] == data;
    } else {
      assert (data + chunks[0]) + Flat(chunks[1..]) == data + Flat(chunks);
      if |data + chunks[0]| <= limit { DrainedIs(data + chunks[0], limit, chunks[1..], last); }
    }
  }

  // ----- what an offer, a write and a read come to

  /** The readable types, best first. */
  ghost predicate Picks(mimes: seq<string>, mime: string) {
    mime in mimes && Earliest(["text/uri-list", "text/plain;charset=utf-8", "text/plain", "UTF8_STRING", "TEXT", "STRING", "image/png"], mimes, mime)
  }

  lemma PicksIs(mimes: seq<string>, mime: string)
    ensures Picks(mimes, mime) <==> PickMime(mimes) == Some(mime)
  {
    var wanted := PREFERRED;
    assert wanted == ["text/uri-list", "text/plain;charset=utf-8", "text/plain", "UTF8_STRING", "TEXT", "STRING", "image/png"];
    var r := PickMime(mimes);
    if Picks(mimes, mime) {
      var i :| 0 <= i < |wanted| && wanted[i] == mime && forall j :: 0 <= j < i ==> wanted[j] !in mimes;
      assert mime in wanted && r.Some?;
      var k :| 0 <= k < |wanted| && wanted[k] == r.value && forall j :: 0 <= j < k ==> wanted[j] !in mimes;
      assert i == k;
    }
  }

  /** An offer ends the read before it and is announced: as the best readable type, which is
      then on its way, or as the first type it has, or as nothing. */
  lemma AnnouncesExactly(b: Board, mimes: Option<seq<string>>)
    requires Valid(b)
    ensures var q, g := Do(b, Offer(mimes)), b.generation + 1;
      && q.generation == g && q.token.None? && q.sources == map[] && q.deadlines == b.deadlines
      && |q.sent| == |b.sent| + 1 && q.sent[..|b.sent|] == b.sent
      && var s := q.sent[|b.sent|];
      && s.generation == g && s.role.Announce? && s.event.ClipboardOffer?
      && (mimes.None? ==> s.event == ClipboardOffer(None, false))
      && (mimes.Some? ==> s.event.mime.Some?)
      && (s.event.loading <==> mimes.Some? && exists m :: Picks(mimes.value, m))
      && (s.event.loading ==> Picks(mimes.value, s.event.mime.value))
      && (mimes.Some? && !s.event.loading ==> s.event.mime == Some(if mimes.value == [] then "application/octet-stream" else mimes.value[0]))
      && q.idles == b.idles + (if s.event.loading then [Idle(s.event.mime.value, g)] else [])
  {
    assert Cancelled(b).sources == map[];
    if mimes.Some? {
      var r := PickMime(mimes.value);
      if r.Some? { PicksIs(mimes.value, r.value); }
      if m :| Picks(mimes.value, m) { PicksIs(mimes.value, m); }
    }
  }

  lemma WritesExactly(b: Board, mime: string, data: seq<Byte>)
    requires Valid(b)
    ensures var q, g := Do(b, Set(mime, data)), b.generation + 1;
      && q.generation == g && q.token.None? && q.sources == map[] && q.deadlines == b.deadlines && q.idles == b.idles
      && q.sent == b.sent + [Sent(g, Write, Data(mime, data))]
  {
    assert Cancelled(b).sources == map[];
  }

  /** What one turn of reading hands on. */
  function Outcomes(mime: string, data: seq<Byte>, last: Last): seq<Event> {
    if |data| > (if mime == "image/png" then 16 * 1024 * 1024 else 1024 * 1024) || last.Error? then [ClipboardOffer(Some(mime), false)]
    else if last.Again? then [] else [Data(mime, data)]
  }

  /** A turn of reading goes on with all the pipe gave so far, or settles. */
  lemma ReadsExactly(b: Board, token: nat, chunks: seq<seq<Byte>>, last: Last)
    requires Valid(b) && token in b.sources
    ensures var q, s := Do(b, Read(token, chunks, last)), b.sources[token];
      var out := Outcomes(s.mime, s.data + Flat(chunks), last);
      && q.idles == b.idles && q.generation == b.generation
      && (out == [] ==> q.sent == b.sent && q.token == Some(token) && q.sources == map[token := s.(data := s.data + Flat(chunks))])
      && (out != [] ==> q.sent == b.sent + [Sent(b.generation, Settle, out[0])] && q.token.None? && q.sources == map[])
  {
    var s := b.sources[token];
    DrainedIs(s.data, SizeLimit(s.mime), chunks, last);
    assert b.sources - {token} == map[];
    hide Drained, Flat;
  }

  /** A start that fails settles at once, and one that was superseded does nothing. */
  lemma StartsExactly(b: Board, i: nat, begin: Begin)
    requires Valid(b) && i < |b.idles|
    ensures var q, idle := Do(b, Run(i, begin)), b.idles[i];
      && q.idles == b.idles[..i] + b.idles[i + 1..]
      && q.sent == b.sent +
        (if idle.generation == b.generation && !begin.Begun? then [Sent(b.generation, Settle, ClipboardOffer(Some(idle.mime), false))] else [])
      && (if idle.generation == b.generation && begin.Begun?
          then q.token == Some(b.tokens) && Armed(q, b.tokens) && q.sources[b.tokens] == Source(idle.mime, b.generation, [])
          else q.token == b.token && q.sources == b.sources && q.deadlines == b.deadlines)
  {
    assert Deadline(b.idles[i].mime, b.generation) in b.deadlines + [Deadline(b.idles[i].mime, b.generation)];
  }

  /** A read that starts and gets its pipe delivers what comes out of it, byte for byte, if it
      ends well and fits, and is settled as unavailable otherwise. */
  lemma OfferedIsRead(b: Board, i: nat, chunks: seq<seq<Byte>>, last: Last)
    requires Valid(b) && i < |b.idles| && b.idles[i].generation == b.generation
    ensures Possible(b, [Run(i, Begun), Read(b.tokens, chunks, last)])
    ensures var q, out := After(b, [Run(i, Begun), Read(b.tokens, chunks, last)]), Outcomes(b.idles[i].mime, Flat(chunks), last);
      && (out == [] ==> q.sent == b.sent && b.tokens in q.sources && q.sources[b.tokens].data == Flat(chunks))
      && (out != [] ==> q.sent == b.sent + [Sent(b.generation, Settle, out[0])] && q.token.None?)
  {
    var m, read := Do(b, Run(i, Begun)), Read(b.tokens, chunks, last);
    StepKeeps(b, Run(i, Begun));
    StartsExactly(b, i, Begun);
    assert m.generation == b.generation && Enabled(m, read);
    ReadsExactly(m, b.tokens, chunks, last);
    assert [] + Flat(chunks) == Flat(chunks);
    hide Valid, Outcomes, Flat, Do;
    assert [Run(i, Begun), read][1..] == [read];
    assert Possible(m, [read]) && After(m, [read]) == Do(m, read);
  }

  /** A deadline ends the read of its own generation as unavailable, and no other. */
  lemma DeadlinesExactly(b: Board, i: nat)
    requires Valid(b) && i < |b.deadlines|
    ensures var q, d := Do(b, Expire(i)), b.deadlines[i];
      && q.deadlines == b.deadlines[..i] + b.deadlines[i + 1..] && q.idles == b.idles
      && (if d.generation == b.generation && b.token.Some?
          then q.token.None? && q.sources == map[] && q.sent == b.sent + [Sent(b.generation, Settle, ClipboardOffer(Some(d.mime), false))]
          else q.token == b.token && q.sources == b.sources && q.sent == b.sent)
  {
    if b.token.Some? { assert b.sources - {b.token.value} == map[]; }
  }

  // ----- the state in place

  class State {
    var generation: nat
    var token: Option<nat>
    var tokens: nat
    var idles: seq<Idle>
    var sources: map<nat, Source>
    var deadlines: seq<Deadline>
    ghost var sent: seq<Sent>

    ghost function Model(): Board
      reads this
    {
      Board(generation, token, tokens, idles, sources, deadlines, sent)
    }

    constructor ()
      ensures Model() == START
    {
      generation, token, tokens, idles, sources, deadlines, sent := 0, None, 0, [], map[], [], [];
    }

    method CancelRead() returns (g: nat)
      modifies `generation, `token, `sources
      ensures Model() == Cancelled(old(Model())) && g == generation
    {
      if token.Some? {
        sources := sources - {token.value};
        token := None;
      }
      generation := generation + 1;
      g := generation;
    }

    method Send(g: nat, role: Role, event: Event)
      modifies `sent
      ensures Model() == Tell(old(Model()), g, role, event)
    {
      sent := sent + [Sent(g, role, event)];
    }

    method Offer(mimes: Option<seq<string>>)
      modifies this
      ensures Model() == Offered(old(Model()), mimes)
    {
      var g := CancelRead();
      var readable := if mimes.Some? then PickMime(mimes.value) else None;
      var mime := if readable.Some? || mimes.None? then readable else if mimes.value == [] then Some(OTHER) else Some(mimes.value[0]);
      Send(g, Announce, ClipboardOffer(mime, readable.Some?));
      if readable.Some? { idles := idles + [Idle(readable.value, g)]; }
    }

    method SetClipboard(mime: string, data: seq<Byte>)
      modifies this
      ensures Model() == Written(old(Model()), mime, data)
    {
      var g := CancelRead();
      Send(g, Write, Data(mime, data));
    }

    method StartRead(mime: string, g: nat, begin: Begin)
      modifies this
      ensures Model() == Started(old(Model()), mime, g, begin)
    {
      if g != generation { return; }
      if !begin.Begun? {
        Send(g, Settle, ClipboardOffer(Some(mime), false));
        return;
      }
      sources := sources[tokens := Source(mime, g, [])];
      token := Some(tokens);
      tokens := tokens + 1;
      deadlines := deadlines + [Deadline(mime, g)];
    }

    /** The pipe of a read can be read: chunk by chunk until it is empty, ended, in error or
        over the limit. */
    method OnReadable(t: nat, chunks: seq<seq<Byte>>, last: Last)
      requires t in sources
      modifies this
      ensures Model() == Ready(old(Model()), t, chunks, last)
    {
      var s := sources[t];
      if s.generation != generation {
        sources := sources - {t};
        return;
      }
      var data := s.data;
      for i := 0 to |chunks|
        invariant Model() == old(Model())
        invariant Drained(data, SizeLimit(s.mime), chunks[i..], last) == Drained(s.data, SizeLimit(s.mime), chunks, last)
      {
        assert chunks[i..][1..] == chunks[i + 1..];
        data := data + chunks[i];
        if |data| > SizeLimit(s.mime) {
          Finish(t, s.generation, ClipboardOffer(Some(s.mime), false));
          return;
        }
      }
      match last
      case Again => sources := sources[t := s.(data := data)];
      case End => Finish(t, s.generation, Data(s.mime, data));
      case Error => Finish(t, s.generation, ClipboardOffer(Some(s.mime), false));
    }

    method Finish(t: nat, g: nat, event: Event)
      modifies this
      ensures Model() == Tell(old(Model()).(token := None, sources := old(sources) - {t}), g, Settle, event)
    {
      token := None;
      sources := sources - {t};
      Send(g, Settle, event);
    }

    method OnDeadline(i: nat)
      requires i < |deadlines|
      modifies this
      ensures Model() == Expired(old(Model()), i)
    {
      var d := deadlines[i];
      deadlines := deadlines[..i] + deadlines[i + 1..];
      if d.generation == generation && token.Some? { Finish(token.value, d.generation, ClipboardOffer(Some(d.mime), false)); }
    }
  }
}
