/**
 From the bytes on stdout back to an envelope: the writer's frames, serialized and
 framed by Content-Length, are read, parsed, picked by id and reassembled. JSON is
 a pair of uninterpreted functions.
 */
module EndToEnd {
  import opened Wrappers
  import opened Lanes
  import opened Base64
  import opened Framing
  import opened Response

  type Dump = Response.Frame -> string
  type Parse = string -> Response.Frame

  function Dumped(wire: seq<Response.Frame>, dump: Dump): seq<string> {
    seq(|wire|, i requires 0 <= i < |wire| => dump(wire[i]))
  }

  /** What the writer has put on stdout. */
  function Stdout(wire: seq<Response.Frame>, dump: Dump): string {
    WrittenAll(Dumped(wire, dump))
  }

  /** The frames a client reads off those bytes. */
  function Received(bytes: string, parse: Parse): seq<Response.Frame> {
    var got := Session(bytes);
    seq(|got|, i requires 0 <= i < |got| => if got[i].Body? then parse(got[i].text) else Note(""))
  }

  /** Parsing undoes serializing on the frames of one wire. It need not on others:
      a plain answer is its envelope verbatim, from which parsing takes the id. */
  ghost predicate Readable(wire: seq<Response.Frame>, dump: Dump, parse: Parse) {
    forall f :: f in wire ==> parse(dump(f)) == f && |dump(f)| <= ULONG_MAX
  }

  /** The agent's own serializer: a plain answer goes out verbatim, whatever the id
      it is kept under. It is readable when each envelope carries its id and the
      other frames survive JSON. */
  lemma VerbatimIsReadable(wire: seq<Response.Frame>, dump: Dump, parse: Parse, text: Bytes -> string, idOf: Bytes -> Id)
    requires forall id, body :: dump(Plain(id, body)) == text(body)
    requires forall body :: parse(text(body)) == Plain(idOf(body), body)
    requires forall f :: f in wire ==> |dump(f)| <= ULONG_MAX && if f.Plain? then idOf(f.body) == f.id else parse(dump(f)) == f
    ensures Readable(wire, dump, parse)
  {
    forall f | f in wire
      ensures parse(dump(f)) == f
    {
      if f.Plain? {
        assert f == Plain(f.id, f.body) && dump(Plain(f.id, f.body)) == text(f.body);
        assert parse(text(f.body)) == Plain(idOf(f.body), f.body);
      }
    }
  }

  lemma WireIsReceived(wire: seq<Response.Frame>, dump: Dump, parse: Parse)
    requires Readable(wire, dump, parse)
    ensures Received(Stdout(wire, dump), parse) == wire
  {
    var bodies := Dumped(wire, dump);
    forall i | 0 <= i < |bodies|
      ensures |bodies[i]| <= ULONG_MAX
    {
      assert wire[i] in wire;
    }
    WriterRoundTrip(bodies);
    assert forall i :: 0 <= i < |wire| ==> wire[i] in wire;
  }

  /** In every run of any number of responders, once the bytes on stdout hold the
      final frame of an id, the client that reads them rebuilds its envelope. */
  lemma BytesBecomeEnvelope(all: map<Id, seq<Response.Frame>>, lane: map<Id, Lane>, run: seq<State>, j: nat, id: Id,
                            envelope: Bytes, cap: nat, packed: Option<Bytes>, inflate: Bytes -> Option<Bytes>,
                            dump: Dump, parse: Parse)
    requires IsRun(all, lane, run) && j < |run| && id in all
    requires MIN_FRAME_CAP <= cap <= MAX_FRAME_CAP && all[id] == Frames(id, envelope, cap, packed)
    requires packed.Some? ==> packed.value != [] && inflate(packed.value) == Some(envelope)
    requires Readable(run[j].writer.wire, dump, parse)
    requires var got := Received(Stdout(run[j].writer.wire, dump), parse);
      exists k :: 0 <= k < |got| && Belongs(got[k], id) && Final(got[k])
    ensures Reassemble(Only(Received(Stdout(run[j].writer.wire, dump), parse), id), inflate) == Some(envelope)
  {
    WireIsReceived(run[j].writer.wire, dump, parse);
    EnvelopeArrives(all, lane, run, j, id, envelope, cap, packed, inflate);
  }
}
