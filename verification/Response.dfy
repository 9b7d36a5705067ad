/**
 The response path (agent/main.cpp, respondEnvelope): an envelope goes out as one
 plain frame, or as base64 chunks followed by a small streamed envelope; any
 number of workers do this at once through the writer's lanes.
 */
module Response {
  import opened Wrappers
  import opened Lanes
  import opened Base64

  const MIN_FRAME_CAP: nat := 64 * 1024
  const MAX_FRAME_CAP: nat := 256 * 1024
  const DEFAULT_FRAME_CAP: nat := 128 * 1024
  const HEADROOM: nat := 4096

  type Id = int

  datatype Frame =
    | Plain(id: Id, body: Bytes)
    | Chunk(id: Id, number: nat, last: bool, data: string)
    | Streamed(id: Id, bytes: nat, deflated: bool)
    | Note(text: string)

  predicate Belongs(f: Frame, id: Id) {
    !f.Note? && f.id == id
  }

  /** meta.hello: the client's proposal, clamped; the default without one. */
  function NegotiatedCap(proposed: Option<int>): (cap: nat)
    ensures MIN_FRAME_CAP <= cap <= MAX_FRAME_CAP
    ensures proposed.None? ==> cap == 131072
    ensures proposed.Some? ==> 65536 <= cap <= 262144
    ensures proposed.Some? && cap != proposed.value ==> proposed.value < cap == 65536 || 262144 == cap < proposed.value
  {
    match proposed
    case None => DEFAULT_FRAME_CAP
    case Some(p) => if p < MIN_FRAME_CAP then MIN_FRAME_CAP else if p > MAX_FRAME_CAP then MAX_FRAME_CAP else p
  }

  function MaxData(cap: nat): nat {
    if cap > HEADROOM then cap - HEADROOM else cap / 2
  }

  // ---- Chunking ----------------------------------------------------------

  function Chunks(id: Id, data: string, max: nat, number: nat): seq<Frame>
    requires max > 0
    decreases |data|
  {
    if data == [] then []
    else if |data| <= max then [Chunk(id, number, true, data)]
    else [Chunk(id, number, false, data[..max])] + Chunks(id, data[max..], max, number + 1)
  }

  /** What a worker enqueues for one envelope. `packed` is the deflated form
      when the envelope is sent compressed. */
  function Frames(id: Id, envelope: Bytes, cap: nat, packed: Option<Bytes>): seq<Frame>
    requires MaxData(cap) > 0
  {
    if packed.None? && |envelope| <= cap then [Plain(id, envelope)]
    else
      var b64 := Encode(if packed.Some? then packed.value else envelope);
      Chunks(id, b64, MaxData(cap), 0) + [Streamed(id, |envelope|, packed.Some?)]
  }

  lemma {:induction false} ChunksFrom(id: Id, data: string, max: nat, off: nat, number: nat)
    requires max > 0 && off <= |data|
    ensures off < |data| ==>
      var take := if max < |data| - off then max else |data| - off;
      Chunks(id, data[off..], max, number) ==
        [Chunk(id, number, off + take >= |data|, data[off..off + take])] + Chunks(id, data[off + take..], max, number + 1)
  {
    if off < |data| {
      var rest := data[off..];
      if |rest| <= max {
        assert data[off..off + |rest|] == rest && data[off + |rest|..] == [];
      } else {
        assert rest[..max] == data[off..off + max] && rest[max..] == data[off + max..];
      }
    }
  }

  lemma Regroup(done: seq<Frame>, f: Frame, rest: seq<Frame>)
    ensures done + ([f] + rest) == (done + [f]) + rest
  {
  }

  /** The loop over the base64 text. */
  method ChunkUp(id: Id, b64: string, maxData: nat) returns (frames: seq<Frame>)
    requires maxData > 0
    ensures frames == Chunks(id, b64, maxData, 0)
  {
    frames := [];
    var off, number := 0, 0;
    ghost var all := Chunks(id, b64, maxData, 0);
    assert b64[0..] == b64;
    while off < |b64|
      invariant 0 <= off <= |b64|
      invariant all == frames + Chunks(id, b64[off..], maxData, number)
    {
      ChunksFrom(id, b64, maxData, off, number);
      var take := if maxData < |b64| - off then maxData else |b64| - off;
      var chunk := Chunk(id, number, off + take >= |b64|, b64[off..off + take]);
      Regroup(frames, chunk, Chunks(id, b64[off + take..], maxData, number + 1));
      frames := frames + [chunk];
      off := off + take;
      number := number + 1;
    }
  }

  method Respond(id: Id, envelope: Bytes, cap: nat, packed: Option<Bytes>) returns (frames: seq<Frame>)
    requires MIN_FRAME_CAP <= cap <= MAX_FRAME_CAP
    ensures frames == Frames(id, envelope, cap, packed)
  {
    if packed.None? && |envelope| <= cap {
      return [Plain(id, envelope)];
    }
    var b64 := EncodeBytes(if packed.Some? then packed.value else envelope);
    frames := ChunkUp(id, b64, MaxData(cap));
    frames := frames + [Streamed(id, |envelope|, packed.Some?)];
  }

  // ---- The client's side -------------------------------------------------

  function Joined(frames: seq<Frame>): string {
    if frames == [] then ""
    else (if frames[0].Chunk? then frames[0].data else "") + Joined(frames[1..])
  }

  /** Chunks numbered 0..n-1 with exactly the last one marked, each of `max`
      characters but the last, which has at most that many. */
  predicate InSequence(frames: seq<Frame>, id: Id, from: nat, max: nat) {
    forall i :: 0 <= i < |frames| ==>
      && frames[i].Chunk? && frames[i].id == id && frames[i].number == from + i
      && (frames[i].last <==> i == |frames| - 1)
      && 0 < |frames[i].data| <= max && (i < |frames| - 1 ==> |frames[i].data| == max)
  }

  /** The client: concatenate, decode, inflate if flagged, check the count. */
  function Reassemble(frames: seq<Frame>, inflate: Bytes -> Option<Bytes>): Option<Bytes> {
    if |frames| == 1 && frames[0].Plain? then Some(frames[0].body)
    else if frames == [] || !frames[|frames| - 1].Streamed? then None
    else
      var fin := frames[|frames| - 1];
      var raw := Decode(Joined(frames[..|frames| - 1]));
      var body := if raw.Some? && fin.deflated then inflate(raw.value) else raw;
      if body.Some? && |body.value| == fin.bytes then body else None
  }

  lemma {:induction false} ChunksInSequence(id: Id, data: string, max: nat, number: nat)
    requires max > 0
    ensures InSequence(Chunks(id, data, max, number), id, number, max)
    ensures Joined(Chunks(id, data, max, number)) == data
    ensures data != [] ==> Chunks(id, data, max, number) != []
    decreases |data|
  {
    if data == [] {
    } else if |data| <= max {
      LastChunk(id, data, max, number);
    } else {
      var rest := Chunks(id, data[max..], max, number + 1);
      ChunksInSequence(id, data[max..], max, number + 1);
      ChunkBefore(Chunk(id, number, false, data[..max]), rest, max);
      assert Chunks(id, data, max, number) == [Chunk(id, number, false, data[..max])] + rest;
      assert data == data[..max] + data[max..];
    }
  }

  lemma LastChunk(id: Id, data: string, max: nat, number: nat)
    requires 0 < |data| <= max
    ensures var last := [Chunk(id, number, true, data)]; InSequence(last, id, number, max) && Joined(last) == data
  {
    assert [Chunk(id, number, true, data)][1..] == [];
  }

  /** One more chunk in front keeps the sequence. */
  lemma ChunkBefore(f: Frame, rest: seq<Frame>, max: nat)
    requires f.Chunk? && !f.last && 0 < |f.data| == max && rest != [] && InSequence(rest, f.id, f.number + 1, max)
    ensures InSequence([f] + rest, f.id, f.number, max) && Joined([f] + rest) == f.data + Joined(rest)
  {
    assert ([f] + rest)[1..] == rest;
  }

  /** What the response says, whatever its size: reading it back gives the
      envelope, and the chunks are in sequence. `deflate` and `inflate` are any
      pair where inflating undoes deflating. */
  lemma ResponseRoundTrip(id: Id, envelope: Bytes, cap: nat, packed: Option<Bytes>, inflate: Bytes -> Option<Bytes>)
    requires MIN_FRAME_CAP <= cap <= MAX_FRAME_CAP
    requires packed.Some? ==> packed.value != [] && inflate(packed.value) == Some(envelope)
    ensures
      var frames := Frames(id, envelope, cap, packed);
      && Reassemble(frames, inflate) == Some(envelope)
      && (packed.None? && |envelope| <= cap ==> frames == [Plain(id, envelope)])
      && (packed.Some? || |envelope| > cap ==>
            && |frames| >= 2
            && InSequence(frames[..|frames| - 1], id, 0, cap - 4096)
            && frames[|frames| - 1] == Streamed(id, |envelope|, packed.Some?))
  {
    if packed.Some? || |envelope| > cap {
      var raw := if packed.Some? then packed.value else envelope;
      var chunks := Chunks(id, Encode(raw), MaxData(cap), 0);
      var frames := Frames(id, envelope, cap, packed);
      ChunksInSequence(id, Encode(raw), MaxData(cap), 0);
      RoundTrip(raw);
      EncodedLength(raw);
      assert frames[..|frames| - 1] == chunks;
    }
  }

  /** Every frame of a response fits the negotiated cap, when the JSON around a
      chunk's data fits the headroom. */
  lemma FramesFit(id: Id, envelope: Bytes, proposed: Option<int>, packed: Option<Bytes>, i: nat, wrapper: nat)
    requires var cap := NegotiatedCap(proposed); i < |Frames(id, envelope, cap, packed)| && wrapper <= HEADROOM
    ensures
      var cap := NegotiatedCap(proposed);
      match Frames(id, envelope, cap, packed)[i]
      case Plain(_, body) => |body| <= cap
      case Chunk(_, _, _, data) => |data| + wrapper <= cap
      case _ => true
  {
    var cap := NegotiatedCap(proposed);
    if packed.Some? || |envelope| > cap {
      var raw := if packed.Some? then packed.value else envelope;
      ChunksInSequence(id, Encode(raw), MaxData(cap), 0);
    }
  }

  // ---- Many workers, one writer ------------------------------------------

  /** The frames of one id, in order. */
  function Only(frames: seq<Frame>, id: Id): seq<Frame> {
    if frames == [] then []
    else (if Belongs(frames[0], id) then [frames[0]] else []) + Only(frames[1..], id)
  }

  lemma {:induction false} OnlyConcat(a: seq<Frame>, b: seq<Frame>, id: Id)
    ensures Only(a + b, id) == Only(a, id) + Only(b, id)
  {
    if a == [] {
      assert a + b == b;
    } else {
      assert (a + b)[0] == a[0] && (a + b)[1..] == a[1..] + b;
      OnlyConcat(a[1..], b, id);
      var head := if Belongs(a[0], id) then [a[0]] else [];
      assert head + (Only(a[1..], id) + Only(b, id)) == (head + Only(a[1..], id)) + Only(b, id);
    }
  }

  lemma {:induction false} OnlyHas(frames: seq<Frame>, id: Id, k: nat)
    requires k < |frames| && Belongs(frames[k], id)
    ensures frames[k] in Only(frames, id)
    decreases |frames|
  {
    if k > 0 {
      OnlyHas(frames[1..], id, k - 1);
    }
  }

  /** Workers, each with the frames it has not handed over yet. */
  datatype State = State(todo: map<Id, seq<Frame>>, writer: Queues<Frame>)

  /** A worker hands over its next frame, in its request's lane. */
  predicate HandStep(lane: map<Id, Lane>, s: State, s': State, id: Id) {
    && id in s.todo && id in lane && s.todo[id] != []
    && s' == State(s.todo[id := s.todo[id][1..]], s.writer.Enqueue(lane[id], s.todo[id][0]))
  }

  /** Any other frame: a notification, or the answer of another kind of request. */
  predicate NoteStep(s: State, s': State, l: Lane, text: string) {
    s' == s.(writer := s.writer.Enqueue(l, Note(text)))
  }

  predicate WriteStep(s: State, s': State) {
    s.writer.AnyReady() && s' == s.(writer := s.writer.Transmit())
  }

  ghost predicate Next(lane: map<Id, Lane>, s: State, s': State) {
    (exists id :: HandStep(lane, s, s', id)) || (exists l, text :: NoteStep(s, s', l, text)) || WriteStep(s, s')
  }

  ghost predicate StepAt(lane: map<Id, Lane>, run: seq<State>, i: nat)
    requires i + 1 < |run|
  {
    Next(lane, run[i], run[i + 1])
  }

  /** A run over the responses `all`: every frame of id's response is id's. */
  ghost predicate IsRun(all: map<Id, seq<Frame>>, lane: map<Id, Lane>, run: seq<State>) {
    && all.Keys == lane.Keys
    && (forall id, i :: id in all && 0 <= i < |all[id]| ==> Belongs(all[id][i], id))
    && run != [] && run[0] == State(all, Queues([], [], [], []))
    && forall i: nat :: i + 1 < |run| ==> StepAt(lane, run, i)
  }

  /** Wire, then lane, then what is still to come: nothing of id's is lost,
      doubled or reordered, and no other lane holds any of it. */
  ghost predicate Accounted(all: map<Id, seq<Frame>>, lane: map<Id, Lane>, s: State, id: Id)
    requires id in all && id in lane
  {
    && id in s.todo
    && (forall i :: 0 <= i < |s.todo[id]| ==> Belongs(s.todo[id][i], id))
    && Only(s.writer.wire, id) + Only(s.writer.Of(lane[id]), id) + s.todo[id] == all[id]
    && forall l :: l != lane[id] ==> Only(s.writer.Of(l), id) == []
  }

  lemma OnlyOne(f: Frame, id: Id)
    ensures Only([f], id) == if Belongs(f, id) then [f] else []
  {
    assert [f][1..] == [];
  }

  lemma EnqueueOnly(q: Queues<Frame>, l: Lane, f: Frame, id: Id)
    ensures q.Enqueue(l, f).wire == q.wire
    ensures Only(q.Enqueue(l, f).Of(l), id) == Only(q.Of(l), id) + (if Belongs(f, id) then [f] else [])
    ensures forall m :: m != l ==> q.Enqueue(l, f).Of(m) == q.Of(m)
  {
    OnlyOne(f, id);
    OnlyConcat(q.Of(l), [f], id);
  }

  lemma MoveIn(w: seq<Frame>, q: seq<Frame>, f: Frame, rest: seq<Frame>)
    ensures w + q + ([f] + rest) == w + (q + [f]) + rest
  {
  }

  lemma MoveAcross(w: seq<Frame>, m: seq<Frame>, q: seq<Frame>, rest: seq<Frame>)
    ensures w + (m + q) + rest == (w + m) + q + rest
  {
  }

  lemma EnqueueKeeps(all: map<Id, seq<Frame>>, lane: map<Id, Lane>, s: State, s': State, worker: Id, id: Id)
    requires id in all && id in lane && Accounted(all, lane, s, id) && HandStep(lane, s, s', worker)
    requires forall i :: 0 <= i < |s.todo[worker]| ==> Belongs(s.todo[worker][i], worker)
    ensures Accounted(all, lane, s', id)
  {
    var f := s.todo[worker][0];
    EnqueueOnly(s.writer, lane[worker], f, id);
    if worker == id {
      assert s.todo[id] == [f] + s.todo[id][1..];
      MoveIn(Only(s.writer.wire, id), Only(s.writer.Of(lane[id]), id), f, s.todo[id][1..]);
    } else {
      assert !Belongs(f, id);
    }
  }

  lemma TransmitOnly(q: Queues<Frame>, id: Id)
    requires q.AnyReady()
    ensures
      var l, f := q.Ready(), q.Of(q.Ready())[0];
      && Only(q.Transmit().wire, id) == Only(q.wire, id) + (if Belongs(f, id) then [f] else [])
      && Only(q.Of(l), id) == (if Belongs(f, id) then [f] else []) + Only(q.Transmit().Of(l), id)
      && forall m :: m != l ==> q.Transmit().Of(m) == q.Of(m)
  {
    var l, f := q.Ready(), q.Of(q.Ready())[0];
    OnlyConcat(q.wire, [f], id);
    OnlyOne(f, id);
  }

  lemma WriteKeeps(all: map<Id, seq<Frame>>, lane: map<Id, Lane>, s: State, s': State, id: Id)
    requires id in all && id in lane && Accounted(all, lane, s, id) && WriteStep(s, s')
    ensures Accounted(all, lane, s', id)
  {
    TransmitOnly(s.writer, id);
    var l, f, own := s.writer.Ready(), s.writer.Of(s.writer.Ready())[0], lane[id];
    if l == own {
      var m := if Belongs(f, id) then [f] else [];
      MoveAcross(Only(s.writer.wire, id), m, Only(s'.writer.Of(l), id), s.todo[id]);
      assert forall k :: k != own ==> s'.writer.Of(k) == s.writer.Of(k);
    } else {
      assert Only(s.writer.Of(l), id) == [];
      assert Only(s'.writer.wire, id) == Only(s.writer.wire, id);
      assert s'.writer.Of(own) == s.writer.Of(own);
    }
  }

  lemma NoteKeeps(all: map<Id, seq<Frame>>, lane: map<Id, Lane>, s: State, s': State, l: Lane, text: string, id: Id)
    requires id in all && id in lane && Accounted(all, lane, s, id) && NoteStep(s, s', l, text)
    ensures Accounted(all, lane, s', id)
  {
    EnqueueOnly(s.writer, l, Note(text), id);
  }

  lemma {:induction false} RunAccounts(all: map<Id, seq<Frame>>, lane: map<Id, Lane>, run: seq<State>, j: nat, id: Id)
    requires IsRun(all, lane, run) && j < |run| && id in all
    ensures Accounted(all, lane, run[j], id)
    decreases j
  {
    if j > 0 {
      var s, s' := run[j - 1], run[j];
      RunAccounts(all, lane, run, j - 1, id);
      assert StepAt(lane, run, j - 1);
      if other :| HandStep(lane, s, s', other) {
        assert other in all;
        RunAccounts(all, lane, run, j - 1, other);
        EnqueueKeeps(all, lane, s, s', other, id);
      } else if l, text :| NoteStep(s, s', l, text) {
        NoteKeeps(all, lane, s, s', l, text, id);
      } else {
        WriteKeeps(all, lane, s, s', id);
      }
    }
  }

  /** For any number of concurrent responses with distinct ids, the frames of
      one id on the wire are a prefix of its response, in order; once the worker
      is done and its own lane holds none of them, they are the whole of it. */
  lemma WireOfOneId(all: map<Id, seq<Frame>>, lane: map<Id, Lane>, run: seq<State>, j: nat, id: Id)
    requires IsRun(all, lane, run) && j < |run| && id in all
    ensures Only(run[j].writer.wire, id) <= all[id]
    ensures id in run[j].todo && id in lane
    ensures Only(run[j].writer.wire, id) == all[id] <==> run[j].todo[id] == [] && Only(run[j].writer.Of(lane[id]), id) == []
  {
    RunAccounts(all, lane, run, j, id);
  }

  /** The frame a client waits for: a plain answer or the streamed envelope. */
  predicate Final(f: Frame) {
    f.Plain? || f.Streamed?
  }

  /** It is the last of a response. */
  lemma FinalIsLast(id: Id, envelope: Bytes, cap: nat, packed: Option<Bytes>, k: nat)
    requires MaxData(cap) > 0 && k < |Frames(id, envelope, cap, packed)|
    ensures Final(Frames(id, envelope, cap, packed)[k]) <==> k == |Frames(id, envelope, cap, packed)| - 1
  {
    var b64 := Encode(if packed.Some? then packed.value else envelope);
    ChunksInSequence(id, b64, MaxData(cap), 0);
  }

  /** A prefix of a response that holds its final frame is the whole response. */
  lemma FinalMeansAll(got: seq<Frame>, id: Id, envelope: Bytes, cap: nat, packed: Option<Bytes>)
    requires MaxData(cap) > 0 && got <= Frames(id, envelope, cap, packed)
    requires exists k :: 0 <= k < |got| && Final(got[k])
    ensures got == Frames(id, envelope, cap, packed)
  {
    var k :| 0 <= k < |got| && Final(got[k]);
    FinalIsLast(id, envelope, cap, packed, k);
  }

  /** End to end: as soon as the wire holds the final frame of an id, whatever else
      is queued or under way, what the client reassembles for that id is the
      envelope its worker sent. */
  lemma EnvelopeArrives(all: map<Id, seq<Frame>>, lane: map<Id, Lane>, run: seq<State>, j: nat, id: Id,
                        envelope: Bytes, cap: nat, packed: Option<Bytes>, inflate: Bytes -> Option<Bytes>)
    requires IsRun(all, lane, run) && j < |run| && id in all
    requires MIN_FRAME_CAP <= cap <= MAX_FRAME_CAP && all[id] == Frames(id, envelope, cap, packed)
    requires packed.Some? ==> packed.value != [] && inflate(packed.value) == Some(envelope)
    requires exists k :: 0 <= k < |run[j].writer.wire| && Belongs(run[j].writer.wire[k], id) && Final(run[j].writer.wire[k])
    ensures Only(run[j].writer.wire, id) == Frames(id, envelope, cap, packed)
    ensures Reassemble(Only(run[j].writer.wire, id), inflate) == Some(envelope)
  {
    WireOfOneId(all, lane, run, j, id);
    var k :| 0 <= k < |run[j].writer.wire| && Belongs(run[j].writer.wire[k], id) && Final(run[j].writer.wire[k]);
    OnlyHas(run[j].writer.wire, id, k);
    FinalMeansAll(Only(run[j].writer.wire, id), id, envelope, cap, packed);
    ResponseRoundTrip(id, envelope, cap, packed, inflate);
  }
}
