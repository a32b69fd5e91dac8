/** Frames that reach the viewer in numbered fragments, put together again. */
module Reassembly {
  import opened Common
  import opened Rotation

  type Byte = b: nat | b < 256
  type Bytes = seq<Byte>

  const HEADER := 9
  const FRAGMENT := 16384
  const HELD := 8

  datatype Fragment = Fragment(id: nat, index: nat, count: nat, data: Bytes)

  // ----- the header: a type byte, then little-endian numbers

  function Number(bytes: Bytes): (n: nat) {
    if bytes == [] then 0 else bytes[0] + 256 * Number(bytes[1..])
  }

  function LittleEndian(n: nat, size: nat): (r: Bytes)
    ensures |r| == size
  {
    if size == 0 then [] else [n % 256] + LittleEndian(n / 256, size - 1)
  }

  function Power256(k: nat): nat { if k == 0 then 1 else 256 * Power256(k - 1) }

  lemma {:induction false} NumberBack(n: nat, size: nat)
    requires n < Power256(size)
    ensures Number(LittleEndian(n, size)) == n
    decreases size
  {
    if size > 0 { NumberBack(n / 256, size - 1); }
  }

  /** Every message is a fragment. */
  function Parsed(message: Bytes): Fragment
    requires |message| >= HEADER
  {
    Fragment(Number(message[1..5]), Number(message[5..7]), Number(message[7..9]), message[HEADER..])
  }

  function Packed(kind: Byte, f: Fragment): (r: Bytes)
    ensures |r| == HEADER + |f.data|
  {
    [kind] + LittleEndian(f.id, 4) + LittleEndian(f.index, 2) + LittleEndian(f.count, 2) + f.data
  }

  predicate Fits(f: Fragment) { f.id < 0x1_0000_0000 && f.index < 0x1_0000 && f.count < 0x1_0000 }

  lemma ParsedBack(kind: Byte, f: Fragment)
    requires Fits(f)
    ensures Parsed(Packed(kind, f)) == f
  {
    var m := Packed(kind, f);
    assert Power256(2) == 0x1_0000 && Power256(4) == 0x1_0000_0000;
    assert m[1..5] == LittleEndian(f.id, 4);
    assert m[5..7] == LittleEndian(f.index, 2);
    assert m[7..9] == LittleEndian(f.count, 2);
    assert m[9..] == f.data;
    NumberBack(f.id, 4);
    NumberBack(f.index, 2);
    NumberBack(f.count, 2);
  }

  // ----- the receiver

  /** `chunks` has a hole for each fragment not there yet. */
  datatype Part = Part(id: nat, got: nat, chunks: seq<Option<Bytes>>)

  /** `parts` in the order they were begun. `broken` are frames counted full over a hole,
      which only a malformed stream makes. */
  datatype Receiver = Receiver(parts: seq<Part>, incomplete: nat, delivered: seq<Bytes>, begun: nat, broken: nat)

  const START := Receiver([], 0, [], 0, 0)

  function Find(parts: seq<Part>, id: nat): (i: nat)
    ensures i <= |parts|
    ensures i < |parts| ==> parts[i].id == id
    ensures forall j :: 0 <= j < i ==> parts[j].id != id
  {
    if parts == [] || parts[0].id == id then 0 else 1 + Find(parts[1..], id)
  }

  function Holes(count: nat): (r: seq<Option<Bytes>>)
    ensures |r| == count && forall i :: 0 <= i < count ==> r[i] == None
  {
    seq(count, i => None)
  }

  /** Assigning past the end of an array leaves holes. */
  function Stored(chunks: seq<Option<Bytes>>, index: nat, data: Bytes): (r: seq<Option<Bytes>>)
    ensures |r| == (if index < |chunks| then |chunks| else index + 1) && r[index] == Some(data)
    ensures forall i :: 0 <= i < |r| && i != index ==> r[i] == if i < |chunks| then chunks[i] else None
  {
    var long := if index < |chunks| then chunks else chunks + Holes(index + 1 - |chunks|);
    long[index := Some(data)]
  }

  function Joined(chunks: seq<Option<Bytes>>): Option<Bytes> {
    if chunks == [] then Some([])
    else
      var rest := Joined(chunks[1..]);
      if chunks[0].None? || rest.None? then None else Some(chunks[0].value + rest.value)
  }

  /** A new frame is begun; with more than eight held the oldest is given up. */
  function Begun(r: Receiver, f: Fragment): Receiver {
    var parts := r.parts + [Part(f.id, 0, Holes(f.count))];
    if |parts| > HELD
    then r.(parts := parts[1..], incomplete := r.incomplete + 1, begun := r.begun + 1)
    else r.(parts := parts, begun := r.begun + 1)
  }

  /** The fragment goes into its frame, which is delivered once it has them all. */
  function Filled(r: Receiver, i: nat, f: Fragment): Receiver
    requires i < |r.parts|
  {
    var p := Part(r.parts[i].id, r.parts[i].got + 1, Stored(r.parts[i].chunks, f.index, f.data));
    if p.got < f.count then r.(parts := r.parts[i := p])
    else
      var rest := r.parts[..i] + r.parts[i + 1..];
      match Joined(p.chunks)
      case Some(data) => r.(parts := rest, delivered := r.delivered + [data])
      case None => r.(parts := rest, broken := r.broken + 1)
  }

  function Got(r: Receiver, f: Fragment): Receiver {
    var i := Find(r.parts, f.id);
    if i < |r.parts| then Filled(r, i, f)
    else var q := Begun(r, f); Filled(q, |q.parts| - 1, f)
  }

  function GotAll(r: Receiver, fragments: seq<Fragment>): Receiver
    decreases |fragments|
  {
    if fragments == [] then r else GotAll(Got(r, fragments[0]), fragments[1..])
  }

  /** Whatever arrives: at most eight frames are held, and every frame begun is delivered,
      given up, broken or held. */
  lemma {:induction false} NothingLost(r: Receiver, fragments: seq<Fragment>)
    requires |r.parts| <= HELD && r.begun == |r.delivered| + r.incomplete + r.broken + |r.parts|
    ensures var q := GotAll(r, fragments);
      |q.parts| <= 8 && q.begun == |q.delivered| + q.incomplete + q.broken + |q.parts|
    decreases |fragments|
  {
    if fragments != [] { NothingLost(Got(r, fragments[0]), fragments[1..]); }
  }

  /** A frame is given up exactly when a ninth is begun, and it is the one begun first; every
      other keeps what it has, and its place, until its own last fragment. */
  lemma GivesUpExactly(r: Receiver, f: Fragment)
    requires |r.parts| <= 8
    ensures var q := Got(r, f);
      var anew := forall i :: 0 <= i < |r.parts| ==> r.parts[i].id != f.id;
      && q.incomplete == r.incomplete + (if anew && |r.parts| == 8 then 1 else 0)
      && (forall p :: p in r.parts && p.id != f.id && !(anew && |r.parts| == 8 && p == r.parts[0]) ==> p in q.parts)
      && (forall p :: p in q.parts && p.id != f.id ==> p in r.parts)
      && q.begun == r.begun + (if anew then 1 else 0)
  {
    var i := Find(r.parts, f.id);
    if i < |r.parts| {
      FilledOthers(r, i, f);
    } else {
      var b := Begun(r, f);
      assert forall p :: p in b.parts && p.id != f.id ==> p in r.parts;
      forall p | p in r.parts && !(|r.parts| == 8 && p == r.parts[0]) ensures p in b.parts {
        var j :| 0 <= j < |r.parts| && r.parts[j] == p;
        assert b.parts[if |r.parts| == 8 then j - 1 else j] == p;
      }
      FilledOthers(b, |b.parts| - 1, f);
    }
  }

  lemma FilledOthers(r: Receiver, i: nat, f: Fragment)
    requires i < |r.parts| && r.parts[i].id == f.id
    ensures forall p: Part :: p.id != f.id ==> (p in Filled(r, i, f).parts <==> p in r.parts)
    ensures Filled(r, i, f).incomplete == r.incomplete && Filled(r, i, f).begun == r.begun
  {
    hide Stored, Joined;
    var rest := r.parts[..i] + r.parts[i + 1..];
    assert r.parts == r.parts[..i] + [r.parts[i]] + r.parts[i + 1..];
    forall p: Part ensures p in r.parts && p.id != f.id ==> p in rest {
      if p in r.parts && p.id != f.id {
        var j :| 0 <= j < |r.parts| && r.parts[j] == p;
        assert rest[if j < i then j else j - 1] == p;
      }
    }
    var q := Part(f.id, r.parts[i].got + 1, Stored(r.parts[i].chunks, f.index, f.data));
    forall p | p in rest ensures p in r.parts[i := q] {
      var j :| 0 <= j < |rest| && rest[j] == p;
      assert r.parts[i := q][if j < i then j else j + 1] == p;
    }
  }

  // ----- the sender

  /** A frame and how many of its fragments go out before it is abandoned. */
  datatype Frame = Frame(id: nat, data: Bytes, sent: nat)

  function Chunks(data: Bytes): (r: seq<Bytes>)
    ensures r != []
    decreases |data|
  {
    if |data| <= FRAGMENT then [data] else [data[..FRAGMENT]] + Chunks(data[FRAGMENT..])
  }

  /** All fragments but the last hold 16 KiB. */
  lemma {:induction false} ChunksFull(data: Bytes, i: nat)
    requires i < |Chunks(data)|
    ensures var c := Chunks(data);
      if i < |c| - 1 then |c[i]| == 16384 else |c[i]| == |data| - 16384 * i && |c[i]| <= 16384 && (i > 0 ==> c[i] != [])
    decreases |data|
  {
    if |data| > FRAGMENT && i > 0 { ChunksFull(data[FRAGMENT..], i - 1); }
  }

  predicate Sendable(frame: Frame) {
    frame.id < 0x1_0000_0000 && |Chunks(frame.data)| < 0x1_0000 && frame.sent <= |Chunks(frame.data)|
  }

  predicate AllSendable(frames: seq<Frame>) { forall i :: 0 <= i < |frames| ==> Sendable(frames[i]) }

  predicate Whole(frame: Frame) { frame.sent == |Chunks(frame.data)| }

  function FragmentOf(frame: Frame, k: nat): Fragment
    requires k < |Chunks(frame.data)|
  {
    Fragment(frame.id, k, |Chunks(frame.data)|, Chunks(frame.data)[k])
  }

  /** The frame's fragments in order, as far as they are sent. */
  function Fragments(frame: Frame): (r: seq<Fragment>)
    requires frame.sent <= |Chunks(frame.data)|
    ensures |r| == frame.sent
  {
    seq(frame.sent, k requires 0 <= k < frame.sent => FragmentOf(frame, k))
  }

  function Stream(frames: seq<Frame>): seq<Fragment>
    requires AllSendable(frames)
  {
    if frames == [] then [] else Fragments(frames[0]) + Stream(frames[1..])
  }

  /** The data of the frames sent to the end. */
  function Complete(frames: seq<Frame>): seq<Bytes> {
    if frames == [] then [] else (if Whole(frames[0]) then [frames[0].data] else []) + Complete(frames[1..])
  }

  // ----- the round trip

  lemma {:induction false} GotAppend(r: Receiver, a: seq<Fragment>, b: seq<Fragment>)
    ensures GotAll(r, a + b) == GotAll(GotAll(r, a), b)
    decreases |a|
  {
    if a == [] {
      assert a + b == b;
    } else {
      assert (a + b)[1..] == a[1..] + b;
      GotAppend(Got(r, a[0]), a[1..], b);
    }
  }

  lemma {:induction false} ChunksJoin(data: Bytes)
    ensures Joined(AllOf(Chunks(data))) == Some(data)
    decreases |data|
  {
    if |data| <= FRAGMENT {
      assert AllOf([data])[1..] == [];
      assert data + [] == data;
    } else {
      ChunksJoin(data[FRAGMENT..]);
      assert AllOf(Chunks(data))[1..] == AllOf(Chunks(data[FRAGMENT..]));
      assert data[..FRAGMENT] + data[FRAGMENT..] == data;
    }
  }

  function AllOf(chunks: seq<Bytes>): (r: seq<Option<Bytes>>)
    ensures |r| == |chunks|
  {
    seq(|chunks|, i requires 0 <= i < |chunks| => Some(chunks[i]))
  }

  /** A frame with its first `k` fragments. */
  function PartOf(frame: Frame, k: nat): Part
    requires k <= |Chunks(frame.data)|
  {
    Part(frame.id, k, AllOf(Chunks(frame.data)[..k]) + Holes(|Chunks(frame.data)| - k))
  }

  /** What is held, and given up, once the frame is begun. */
  function Room(r: Receiver): Receiver {
    if |r.parts| == HELD then r.(parts := r.parts[1..], incomplete := r.incomplete + 1) else r
  }

  /** After `k` fragments: a part of the frame, or once it is whole the frame. */
  function Holding(r: Receiver, frame: Frame, k: nat): Receiver
    requires k <= |Chunks(frame.data)|
  {
    if k == 0 then r
    else
      var q := Room(r).(begun := r.begun + 1);
      if k < |Chunks(frame.data)| then q.(parts := q.parts + [PartOf(frame, k)])
      else q.(delivered := q.delivered + [frame.data])
  }

  lemma FillNext(frame: Frame, k: nat)
    requires k < |Chunks(frame.data)|
    ensures Stored(PartOf(frame, k).chunks, k, Chunks(frame.data)[k]) == PartOf(frame, k + 1).chunks
  {
    assert Chunks(frame.data)[..k + 1] == Chunks(frame.data)[..k] + [Chunks(frame.data)[k]];
  }

  lemma FullPart(frame: Frame)
    ensures Joined(PartOf(frame, |Chunks(frame.data)|).chunks) == Some(frame.data)
  {
    var c := Chunks(frame.data);
    assert c[..|c|] == c;
    assert AllOf(c) + Holes(0) == AllOf(c);
    ChunksJoin(frame.data);
  }

  lemma FillLast(q: Receiver, base: seq<Part>, frame: Frame, k: nat)
    requires k < |Chunks(frame.data)| && q.parts == base + [PartOf(frame, k)]
    ensures Filled(q, |base|, FragmentOf(frame, k)) ==
      if k + 1 < |Chunks(frame.data)| then q.(parts := base + [PartOf(frame, k + 1)])
      else q.(parts := base, delivered := q.delivered + [frame.data])
  {
    FillNext(frame, k);
    assert q.parts[|base| := PartOf(frame, k + 1)] == base + [PartOf(frame, k + 1)];
    assert q.parts[..|base|] + q.parts[|base| + 1..] == base;
    if k + 1 == |Chunks(frame.data)| { FullPart(frame); }
  }

  ghost predicate Fresh(r: Receiver, id: nat) { forall i :: 0 <= i < |r.parts| ==> r.parts[i].id != id }

  lemma Beginning(r: Receiver, frame: Frame)
    requires |r.parts| <= HELD
    ensures var q := Room(r); Begun(r, FragmentOf(frame, 0)) == q.(begun := r.begun + 1, parts := q.parts + [PartOf(frame, 0)])
  {
    var f := FragmentOf(frame, 0);
    assert AllOf(Chunks(frame.data)[..0]) + Holes(f.count) == Holes(f.count);
    assert PartOf(frame, 0) == Part(f.id, 0, Holes(f.count));
    if |r.parts| == HELD {
      assert (r.parts + [PartOf(frame, 0)])[1..] == r.parts[1..] + [PartOf(frame, 0)];
    }
  }

  lemma {:induction false} FindNone(parts: seq<Part>, id: nat)
    requires forall i :: 0 <= i < |parts| ==> parts[i].id != id
    ensures Find(parts, id) == |parts|
  {
    if parts != [] { FindNone(parts[1..], id); }
  }

  lemma {:induction false} FindLast(base: seq<Part>, p: Part)
    requires forall i :: 0 <= i < |base| ==> base[i].id != p.id
    ensures Find(base + [p], p.id) == |base|
  {
    if base != [] {
      assert (base + [p])[1..] == base[1..] + [p];
      FindLast(base[1..], p);
    }
  }

  lemma FirstFragment(r: Receiver, frame: Frame)
    requires |r.parts| <= HELD && Fresh(r, frame.id)
    ensures Got(r, FragmentOf(frame, 0)) == Holding(r, frame, 1)
  {
    FindNone(r.parts, frame.id);
    Beginning(r, frame);
    FillLast(Begun(r, FragmentOf(frame, 0)), Room(r).parts, frame, 0);
  }

  lemma NextFragment(r: Receiver, frame: Frame, k: nat)
    requires |r.parts| <= HELD && Fresh(r, frame.id) && 0 < k < |Chunks(frame.data)|
    ensures Got(Holding(r, frame, k), FragmentOf(frame, k)) == Holding(r, frame, k + 1)
  {
    FindLast(Room(r).parts, PartOf(frame, k));
    FillLast(Holding(r, frame, k), Room(r).parts, frame, k);
  }

  lemma {:induction false} SomeFragments(r: Receiver, frame: Frame, k: nat)
    requires |r.parts| <= HELD && Fresh(r, frame.id) && k <= frame.sent <= |Chunks(frame.data)|
    ensures GotAll(r, Fragments(frame)[..k]) == Holding(r, frame, k)
    decreases k
  {
    if k > 0 {
      var before := Fragments(frame)[..k - 1];
      SomeFragments(r, frame, k - 1);
      assert Fragments(frame)[..k] == before + [FragmentOf(frame, k - 1)];
      GotAppend(r, before, [FragmentOf(frame, k - 1)]);
      assert [FragmentOf(frame, k - 1)][1..] == [];
      if k == 1 { FirstFragment(r, frame); } else { NextFragment(r, frame, k - 1); }
    }
  }

  ghost predicate AllFresh(r: Receiver, frames: seq<Frame>) {
    forall i, j :: 0 <= i < |r.parts| && 0 <= j < |frames| ==> r.parts[i].id != frames[j].id
  }

  ghost predicate DistinctIds(frames: seq<Frame>) {
    forall i, j :: 0 <= i < j < |frames| ==> frames[i].id != frames[j].id
  }

  lemma StaysFresh(r: Receiver, frames: seq<Frame>)
    requires frames != [] && |r.parts| <= HELD && DistinctIds(frames) && AllFresh(r, frames) && frames[0].sent <= |Chunks(frames[0].data)|
    ensures var q := Holding(r, frames[0], frames[0].sent); AllFresh(q, frames[1..]) && |q.parts| <= HELD
  {
    var q := Holding(r, frames[0], frames[0].sent);
    forall i, j | 0 <= i < |q.parts| && 0 <= j < |frames[1..]| ensures q.parts[i].id != frames[1..][j].id {
      assert frames[1..][j] == frames[j + 1];
      if q.parts[i].id != frames[0].id { assert q.parts[i] in r.parts; }
    }
  }

  /** Frames with distinct ids, their fragments in order and contiguous, some abandoned
      part-way: exactly the complete ones come out, byte for byte and in order. */
  lemma {:induction false} RoundTripFrom(r: Receiver, frames: seq<Frame>)
    requires |r.parts| <= HELD && DistinctIds(frames) && AllFresh(r, frames)
    requires AllSendable(frames)
    ensures GotAll(r, Stream(frames)).delivered == r.delivered + Complete(frames)
    ensures GotAll(r, Stream(frames)).broken == r.broken
    decreases |frames|
  {
    if frames == [] {
      assert r.delivered + [] == r.delivered;
    } else {
      var q := Holding(r, frames[0], frames[0].sent);
      OneFrame(r, frames);
      StaysFresh(r, frames);
      RoundTripFrom(q, frames[1..]);
      Delivery(r, frames);
    }
  }

  lemma OneFrame(r: Receiver, frames: seq<Frame>)
    requires frames != [] && |r.parts| <= HELD && Fresh(r, frames[0].id) && AllSendable(frames)
    ensures GotAll(r, Stream(frames)) == GotAll(Holding(r, frames[0], frames[0].sent), Stream(frames[1..]))
  {
    var frame := frames[0];
    SomeFragments(r, frame, frame.sent);
    assert Fragments(frame)[..frame.sent] == Fragments(frame);
    GotAppend(r, Fragments(frame), Stream(frames[1..]));
  }

  lemma DeliversOwn(r: Receiver, frame: Frame)
    requires Sendable(frame)
    ensures Holding(r, frame, frame.sent).delivered == r.delivered + (if Whole(frame) then [frame.data] else [])
    ensures Holding(r, frame, frame.sent).broken == r.broken
  {
  }

  lemma Regroup<T>(a: seq<T>, b: seq<T>, c: seq<T>)
    ensures (a + b) + c == a + (b + c)
  {
  }

  lemma Delivery(r: Receiver, frames: seq<Frame>)
    requires frames != [] && Sendable(frames[0])
    ensures var q := Holding(r, frames[0], frames[0].sent);
      q.delivered + Complete(frames[1..]) == r.delivered + Complete(frames) && q.broken == r.broken
  {
    var own := if Whole(frames[0]) then [frames[0].data] else [];
    DeliversOwn(r, frames[0]);
    Regroup(r.delivered, own, Complete(frames[1..]));
  }

  /** Over the wire: the messages of a stream, packed and parsed. */
  function Wire(kind: Byte, fragments: seq<Fragment>): (r: seq<Bytes>)
    ensures |r| == |fragments|
  {
    seq(|fragments|, i requires 0 <= i < |fragments| => Packed(kind, fragments[i]))
  }

  function Heard(messages: seq<Bytes>): (r: seq<Fragment>)
    requires forall m :: m in messages ==> |m| >= HEADER
    ensures |r| == |messages|
  {
    seq(|messages|, i requires 0 <= i < |messages| => Parsed(messages[i]))
  }

  lemma {:induction false} StreamFits(frames: seq<Frame>)
    requires AllSendable(frames)
    ensures forall f :: f in Stream(frames) ==> Fits(f)
  {
    if frames != [] {
      StreamFits(frames[1..]);
      forall f | f in Fragments(frames[0]) ensures Fits(f) {
        var k :| 0 <= k < frames[0].sent && Fragments(frames[0])[k] == f;
      }
    }
  }

  lemma RoundTrip(kind: Byte, frames: seq<Frame>)
    requires DistinctIds(frames) && AllSendable(frames)
    ensures forall m :: m in Wire(kind, Stream(frames)) ==> |m| >= HEADER
    ensures var q := GotAll(START, Heard(Wire(kind, Stream(frames))));
      && q.delivered == Complete(frames)
      && |q.parts| <= 8 && q.begun == |q.delivered| + q.incomplete + |q.parts|
  {
    var sent := Stream(frames);
    StreamFits(frames);
    forall i | 0 <= i < |sent| ensures Parsed(Packed(kind, sent[i])) == sent[i] {
      assert sent[i] in sent;
      ParsedBack(kind, sent[i]);
    }
    assert Heard(Wire(kind, sent)) == sent;
    RoundTripFrom(START, frames);
    NothingLost(START, sent);
  }

  function Contents(frames: seq<Frame>): (r: seq<Bytes>)
    ensures |r| == |frames| && forall i :: 0 <= i < |r| ==> r[i] == frames[i].data
  {
    seq(|frames|, i requires 0 <= i < |frames| => frames[i].data)
  }

  lemma {:induction false} WholeComplete(frames: seq<Frame>)
    requires forall i :: 0 <= i < |frames| ==> Whole(frames[i])
    ensures Complete(frames) == Contents(frames)
  {
    if frames != [] { WholeComplete(frames[1..]); }
  }

  /** Frames that are sent whole all arrive: any number of them, each of any content up to
      65535 fragments. */
  lemma AllArrive(kind: Byte, frames: seq<Frame>)
    requires DistinctIds(frames)
    requires forall i :: 0 <= i < |frames| ==>
      frames[i].id < 0x1_0000_0000 && |Chunks(frames[i].data)| < 0x1_0000 && frames[i].sent == |Chunks(frames[i].data)|
    ensures AllSendable(frames) && forall m :: m in Wire(kind, Stream(frames)) ==> |m| >= 9
    ensures var q := GotAll(START, Heard(Wire(kind, Stream(frames)))); q.delivered == Contents(frames)
  {
    RoundTrip(kind, frames);
    WholeComplete(frames);
  }

  // ----- the receiver in place

  class Channel {
    var parts: seq<Part>
    var incomplete: nat
    ghost var delivered: seq<Bytes>
    ghost var begun: nat
    ghost var broken: nat

    ghost function Model(): Receiver
      reads this
    {
      Receiver(parts, incomplete, delivered, begun, broken)
    }

    constructor ()
      ensures Model() == START
    {
      parts, incomplete, delivered, begun, broken := [], 0, [], 0, 0;
    }

    /** One message; the frame it completes, if any, is handed on. */
    method OnMessage(message: Bytes) returns (frame: Option<Bytes>)
      requires |message| >= HEADER
      modifies this
      ensures Model() == Got(old(Model()), Parsed(message))
      ensures delivered == old(delivered) + if frame.Some? then [frame.value] else []
    {
      var f := Parsed(message);
      var i := Find(parts, f.id);
      if i == |parts| {
        Begin(f);
        i := |parts| - 1;
      }
      frame := Fill(i, f);
    }

    method Begin(f: Fragment)
      modifies `parts, `begun, `incomplete
      ensures Model() == Begun(old(Model()), f) && parts != []
    {
      parts := parts + [Part(f.id, 0, Holes(f.count))];
      begun := begun + 1;
      if |parts| > HELD {
        parts := parts[1..];
        incomplete := incomplete + 1;
      }
    }

    method Fill(i: nat, f: Fragment) returns (frame: Option<Bytes>)
      requires i < |parts|
      modifies this
      ensures Model() == Filled(old(Model()), i, f)
      ensures delivered == old(delivered) + if frame.Some? then [frame.value] else []
    {
      var p := Part(parts[i].id, parts[i].got + 1, Stored(parts[i].chunks, f.index, f.data));
      if p.got < f.count {
        parts := parts[i := p];
        return None;
      }
      parts := parts[..i] + parts[i + 1..];
      frame := Joined(p.chunks);
      if frame.Some? { delivered := delivered + [frame.value]; } else { broken := broken + 1; }
    }
  }
}
