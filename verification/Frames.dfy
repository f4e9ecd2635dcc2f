/** Frames on a byte stream: a checksummed header, a bounded payload, and reading under any fragmentation. */
module Frames {
  import opened Prelude
  import opened Wire
  import opened Messages

  const MAGIC: u32 := 0x5443_4246
  const VERSION: byte := 1
  const MAX_FRAME: u32 := 64 * 1024 * 1024
  const HEADER_LEN: nat := 16

  /** The checksummed part of the header. The length is cut to 32 bits. */
  function Prefix(tag: byte, payload: Bytes): (h: Bytes)
    ensures |h| == 10
  {
    ToLE(MAGIC, 4) + [VERSION, tag] + ToLE(|payload|, 4)
  }

  /** A frame with the given reserved bytes. */
  function FrameWith(c: Content, tag: byte, payload: Bytes, r0: byte, r1: byte): (f: Bytes)
    ensures |f| == HEADER_LEN + |payload|
  {
    Prefix(tag, payload) + ToLE(c.crc(Prefix(tag, payload) + payload), 4) + [r0, r1] + payload
  }

  function Frame(c: Content, m: Message): Bytes {
    FrameWith(c, Tag(m), EncodeBody(m), 0, 0)
  }

  /** What reading one frame off a stream yields. */
  datatype Read = Closed | Broken(error: Error) | Got(tag: byte, payload: Bytes, rest: Bytes)

  function ReadOne(c: Content, b: Bytes): (r: Read)
    ensures r.Got? ==> |b| == HEADER_LEN + |r.payload| + |r.rest| && |r.payload| <= MAX_FRAME
    ensures r.Closed? <==> b == []
  {
    if b == [] then Closed
    else if |b| < HEADER_LEN then Broken(Protocol)
    else if FromLE(b[0..4]) != MAGIC || b[4] != VERSION || !(1 <= b[5] <= 16) then Broken(Protocol)
    else
      var n := FromLE(b[6..10]);
      if n > MAX_FRAME || |b| < HEADER_LEN + n then Broken(Protocol)
      else
        var payload := b[HEADER_LEN..HEADER_LEN + n];
        if c.crc(b[0..10] + payload) != FromLE(b[10..14]) then Broken(Protocol)
        else Got(b[5], payload, b[HEADER_LEN + n..])
  }

  // ---- What is accepted --------------------------------------------------------------------

  lemma FrameParts(c: Content, tag: byte, payload: Bytes, r0: byte, r1: byte, rest: Bytes)
    requires |payload| < TWO_32
    ensures var b := FrameWith(c, tag, payload, r0, r1) + rest;
      && b[0..10] == Prefix(tag, payload) && FromLE(b[0..4]) == MAGIC && b[4] == VERSION && b[5] == tag
      && FromLE(b[6..10]) == |payload|
      && FromLE(b[10..14]) == c.crc(Prefix(tag, payload) + payload) && b[14] == r0 && b[15] == r1
      && b[16..16 + |payload|] == payload && b[16 + |payload|..] == rest
  {
    hide ToLE, FromLE;
    var p := Prefix(tag, payload);
    var crc := ToLE(c.crc(p + payload), 4);
    var b := FrameWith(c, tag, payload, r0, r1) + rest;
    assert b == p + (crc + [r0, r1] + payload + rest);
    assert b[0..10] == p && b[10..14] == crc && b[16..16 + |payload|] == payload && b[16 + |payload|..] == rest;
    assert b[0..4] == p[0..4] == ToLE(MAGIC, 4) && b[6..10] == p[6..10] == ToLE(|payload|, 4) && p[4] == VERSION
      && p[5] == tag;
    Powers();
    FromToLE(MAGIC, 4);
    FromToLE(|payload|, 4);
    FromToLE(c.crc(p + payload), 4);
  }

  lemma AcceptedParts(c: Content, b: Bytes)
    requires ReadOne(c, b).Got?
    ensures var g := ReadOne(c, b);
      1 <= g.tag <= 16 && |g.payload| <= MAX_FRAME && b == FrameWith(c, g.tag, g.payload, b[14], b[15]) + g.rest
  {
    hide ToLE, FromLE;
    var g := ReadOne(c, b);
    var p := Prefix(g.tag, g.payload);
    ToFromLE(b[0..4]);
    ToFromLE(b[6..10]);
    ToFromLE(b[10..14]);
    assert b[0..10] == b[0..4] + [b[4], b[5]] + b[6..10];
    assert b[0..10] == p;
    assert b == b[0..10] + b[10..14] + [b[14], b[15]] + g.payload + g.rest;
  }

  /**
   * Exactly which streams yield a frame: those that start with a frame of a known kind, within the size bound, with
   * any reserved bytes. In particular a frame is found whatever follows it, and its bytes are determined by it.
   */
  lemma ReadsExactlyFrames(c: Content, b: Bytes, tag: byte, payload: Bytes, rest: Bytes)
    ensures ReadOne(c, b) == Got(tag, payload, rest) <==>
      && 1 <= tag <= 16 && |payload| <= MAX_FRAME
      && exists r0: byte, r1: byte :: b == FrameWith(c, tag, payload, r0, r1) + rest
  {
    hide ToLE, FromLE, FrameWith, ReadOne;
    if ReadOne(c, b) == Got(tag, payload, rest) {
      AcceptedParts(c, b);
    }
    if 1 <= tag <= 16 && |payload| <= MAX_FRAME && exists r0: byte, r1: byte ::
      b == FrameWith(c, tag, payload, r0, r1) + rest {
      var r0: byte, r1: byte :| b == FrameWith(c, tag, payload, r0, r1) + rest;
      FrameIsRead(c, tag, payload, r0, r1, rest);
    }
  }

  lemma FrameIsRead(c: Content, tag: byte, payload: Bytes, r0: byte, r1: byte, rest: Bytes)
    requires 1 <= tag <= 16 && |payload| <= MAX_FRAME
    ensures ReadOne(c, FrameWith(c, tag, payload, r0, r1) + rest) == Got(tag, payload, rest)
  {
    hide ToLE, FromLE, Prefix, FrameWith;
    FrameParts(c, tag, payload, r0, r1, rest);
  }

  // ---- Whole streams -----------------------------------------------------------------------

  function WriteAll(c: Content, ms: seq<Message>): Bytes {
    if ms == [] then [] else Frame(c, ms[0]) + WriteAll(c, ms[1..])
  }

  /** Read messages until the stream ends at a frame boundary. */
  function ReadAll(c: Content, b: Bytes): Result<seq<Message>>
    decreases |b|
  {
    match ReadOne(c, b)
    case Closed => Ok([])
    case Broken(e) => Err(e)
    case Got(tag, payload, rest) =>
      var m :- DecodeBody(tag, payload);
      var ms :- ReadAll(c, rest);
      Ok([m] + ms)
  }

  ghost predicate Sendable(ms: seq<Message>) {
    forall i :: 0 <= i < |ms| ==> Typed(ms[i]) && |EncodeBody(ms[i])| <= MAX_FRAME
  }

  /** Messages written back to back are read back as the same messages, and then a clean end. */
  lemma {:induction false} StreamRoundTrip(c: Content, ms: seq<Message>)
    requires Sendable(ms)
    ensures ReadAll(c, WriteAll(c, ms)) == Ok(ms)
  {
    hide ReadOne, EncodeBody, DecodeBody, Typed, FrameWith;
    if ms != [] {
      var m, more := ms[0], WriteAll(c, ms[1..]);
      FrameIsRead(c, Tag(m), EncodeBody(m), 0, 0, more);
      BodyBijection(Tag(m), EncodeBody(m), m);
      StreamRoundTrip(c, ms[1..]);
      assert ms == [m] + ms[1..];
    }
  }

  // ---- The stream --------------------------------------------------------------------------

  /**
   * The receiving end of a connection: the bytes still to come, and how the transport will cut them. Each entry of
   * `cuts` decides one read: zero is an interruption, a positive number bounds how much is delivered.
   */
  class Connection {
    var rest: Bytes
    var cuts: seq<nat>

    constructor (b: Bytes, fragments: seq<nat>)
      ensures rest == b && cuts == fragments
    {
      rest, cuts := b, fragments;
    }

    /** One read: nothing at the end of the stream, otherwise at least one byte, or an interruption. */
    method Receive(want: nat) returns (got: Bytes, interrupted: bool)
      requires want > 0
      modifies this
      ensures old(rest) == got + rest && |got| <= want
      ensures interrupted ==> got == [] && |cuts| < |old(cuts)|
      ensures !interrupted ==> (got == [] <==> old(rest) == []) && |cuts| <= |old(cuts)|
    {
      var limit := want;
      if cuts != [] {
        limit := Min(want, cuts[0]);
        cuts := cuts[1..];
        if limit == 0 {
          return [], true;
        }
      }
      var n := Min(limit, |rest|);
      got, interrupted := rest[..n], false;
      rest := rest[n..];
    }

    /** Fill a buffer of `want` bytes; a shorter result means the stream ended. */
    method Fill(want: nat) returns (got: Bytes)
      modifies this
      ensures got == old(rest)[..Min(want, |old(rest)|)] && rest == old(rest)[|got|..]
    {
      got := [];
      while |got| < want
        invariant got + rest == old(rest) && |got| <= want
        decreases want - |got|, |cuts|
      {
        var more, interrupted := Receive(want - |got|);
        if !interrupted && more == [] {
          break;
        }
        got := got + more;
      }
      assert old(rest)[..|got|] == got && old(rest)[|got|..] == rest;
    }

    /** Read one frame. However the bytes are cut up, the outcome depends on the bytes alone. */
    method ReadFrame(c: Content) returns (r: Read)
      modifies this
      ensures r == ReadOne(c, old(rest))
      ensures r.Got? ==> rest == r.rest
      ensures r.Closed? ==> rest == []
    {
      hide FromLE, Prefix;
      ghost var b := rest;
      var head := Fill(HEADER_LEN);
      if |head| == 0 {
        return Closed;
      }
      if |head| < HEADER_LEN {
        return Broken(Protocol);
      }
      assert head == b[..HEADER_LEN] && rest == b[HEADER_LEN..];
      assert head[0..4] == b[0..4] && head[6..10] == b[6..10] && head[10..14] == b[10..14] && head[0..10] == b[0..10];
      if FromLE(head[0..4]) != MAGIC {
        return Broken(Protocol);
      }
      if head[4] != VERSION {
        return Broken(Protocol);
      }
      if !(1 <= head[5] <= 16) {
        return Broken(Protocol);
      }
      var n := FromLE(head[6..10]);
      if n > MAX_FRAME {
        return Broken(Protocol);
      }
      var payload := Fill(n);
      if |payload| < n {
        return Broken(Protocol);
      }
      assert payload == b[HEADER_LEN..HEADER_LEN + n] && rest == b[HEADER_LEN + n..];
      if c.crc(head[0..10] + payload) != FromLE(head[10..14]) {
        return Broken(Protocol);
      }
      return Got(head[5], payload, rest);
    }

    /** Serve a connection: read and decode until it closes. */
    method ReceiveAll(c: Content) returns (r: Result<seq<Message>>)
      modifies this
      ensures r == ReadAll(c, old(rest))
    {
      hide ReadOne, DecodeBody;
      var out: seq<Message> := [];
      Prepended(out, ReadAll(c, rest));
      while true
        invariant ReadAll(c, old(rest)) == Prepend(out, ReadAll(c, rest))
        decreases |rest|
      {
        var one := ReadFrame(c);
        match one
        case Closed =>
          assert out + [] == out;
          return Ok(out);
        case Broken(e) =>
          return Err(e);
        case Got(tag, payload, _) =>
          var m := DecodeMessage(tag, payload);
          if m.Err? {
            return Err(m.error);
          }
          Prepended(out + [m.value], ReadAll(c, rest));
          assert forall ms :: out + ([m.value] + ms) == (out + [m.value]) + ms;
          out := out + [m.value];
      }
    }
  }

  function Prepend(done: seq<Message>, r: Result<seq<Message>>): Result<seq<Message>> {
    if r.Ok? then Ok(done + r.value) else r
  }

  lemma Prepended(done: seq<Message>, r: Result<seq<Message>>)
    ensures done == [] ==> Prepend(done, r) == r
  {
    if r.Ok? {
      assert [] + r.value == r.value;
    }
  }

  /** Encode one message as a frame. */
  method EncodeFrame(c: Content, m: Message) returns (f: Bytes)
    requires Typed(m)
    ensures f == Frame(c, m)
  {
    hide EncodeBody, ToLE, Typed;
    var body := EncodeMessage(m);
    var head := Prefix(Tag(m), body);
    f := head + ToLE(c.crc(head + body), 4) + [0, 0] + body;
  }

  lemma {:induction false} WriteAllPush(c: Content, ms: seq<Message>, m: Message)
    ensures WriteAll(c, ms + [m]) == WriteAll(c, ms) + Frame(c, m)
  {
    hide Frame;
    if ms == [] {
      assert [m][1..] == [];
    } else {
      assert (ms + [m])[1..] == ms[1..] + [m];
      WriteAllPush(c, ms[1..], m);
    }
  }

  /** Messages sent back to back over a connection that fragments and interrupts at will arrive as they were sent. */
  method Deliver(c: Content, ms: seq<Message>, fragments: seq<nat>) returns (r: Result<seq<Message>>)
    requires Sendable(ms)
    ensures r == Ok(ms)
  {
    hide Frame, Typed, EncodeBody;
    var wire: Bytes := [];
    for i := 0 to |ms|
      invariant wire == WriteAll(c, ms[..i])
    {
      assert ms[..i + 1] == ms[..i] + [ms[i]];
      WriteAllPush(c, ms[..i], ms[i]);
      var f := EncodeFrame(c, ms[i]);
      wire := wire + f;
    }
    assert ms[..|ms|] == ms;
    StreamRoundTrip(c, ms);
    var connection := new Connection(wire, fragments);
    r := connection.ReceiveAll(c);
  }
}
