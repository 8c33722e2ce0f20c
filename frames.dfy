/**
 * The frame codec of the ESPHome native API (plaintext transport): a frame is one
 * 0x00 byte, the payload length as a uvarint, the message type as a uvarint, then
 * the payload. encodeMessage builds one; receiveMessage reads one from the buffered
 * reader, which is modelled as the bytes the reader currently holds.
 */
module Frames {
  import opened Wire
  import opened Varint
  import opened Catalog

  /** A marshalled payload: Go's len fits in uint64, so uint64(len(b)) loses nothing. */
  type Payload = p: seq<Byte> | |p| < TwoTo64

  /**
   * The bytes encodeMessage produces for payload p with message type t: the zero
   * preamble first, the payload last, and at most 21 bytes of header in between.
   */
  function Frame(p: Payload, t: MessageId): (bs: seq<Byte>)
    ensures |p| + 3 <= |bs| <= |p| + 1 + 2 * MaxVarintLen64
    ensures bs[0] == 0
    ensures bs[|bs| - |p|..] == p
  {
    UvarintRoundTrip(|p|, []);
    UvarintRoundTrip(t, []);
    [0] + Uvarint(|p|) + Uvarint(t) + p
  }

  /** The outcome of proto.Marshal, which is foreign: the bytes, or an error. */
  datatype Marshalled = Marshalled(bytes: Payload) | MarshalFailed

  /**
   * encodeMessage: marshal the message (its outcome is the parameter), then write the
   * preamble, the length varint, the type varint and the payload into a buffer.
   * A marshalling error yields no buffer.
   */
  method EncodeMessage(body: Marshalled, t: MessageId) returns (buf: Option<seq<Byte>>)
    ensures body.MarshalFailed? <==> buf.None?
    ensures body.Marshalled? ==> buf == Some(Frame(body.bytes, t))
    ensures body.Marshalled? ==> |buf.value| == 1 + |Uvarint(|body.bytes|)| + |Uvarint(t)| + |body.bytes|
  {
    if body.MarshalFailed? {
      return None;
    }
    var b := body.bytes;
    var out: seq<Byte> := [];
    out := out + [0];
    var nb := PutUvarint(|b|);
    out := out + nb;
    nb := PutUvarint(t);
    out := out + nb;
    out := out + b;
    assert out == [0] + Uvarint(|b|) + Uvarint(t) + b;
    return Some(out);
  }

  /**
   * What one receiveMessage call returns: the message type, the payload and the
   * error. On every error the type is 0 and the payload nil (here empty).
   */
  datatype Reception = Reception(msgType: MessageId, payload: seq<Byte>, err: Option<ReadError>)

  function Failed(e: ReadError): Reception
  {
    Reception(0, [], Some(e))
  }

  /** A reception together with the number of bytes it took from the reader. */
  datatype Parsed = Parsed(rd: Reception, used: nat)

  /**
   * receiveMessage over the bytes s the reader holds: the read preamble byte, the
   * two varints and the payload read. The payload read is one bufio Read, which
   * returns what is there up to the announced size; anything shorter is an error.
   */
  function ParseFrame(s: seq<Byte>): (p: Parsed)
    ensures p.used <= |s|
    ensures |s| > 0 <==> p.used > 0
    ensures p.rd.err.Some? ==> p.rd.msgType == 0 && p.rd.payload == []
    ensures p.rd.err.None? ==> |p.rd.payload| < TwoTo64 && |p.rd.payload| < p.used
    ensures p.rd.err.None? ==> p.rd.payload == s[p.used - |p.rd.payload| .. p.used]
  {
    if |s| == 0 then Parsed(Failed(EOF), 0)
    else if s[0] != 0 then Parsed(Failed(InvalidPreamble(s[0])), 1)
    else
      var size := DecodeUvarint(s[1..]);
      if size.VarErr? then Parsed(Failed(size.err), 1 + size.end)
      else
        var at := 1 + size.end;
        var t := DecodeUvarint(s[at..]);
        if t.VarErr? then Parsed(Failed(t.err), at + t.end)
        else
          var h := at + t.end;
          var n := if |s| - h < size.value then |s| - h else size.value;
          if n != size.value then Parsed(Failed(ShortRead(n, size.value)), h + n)
          else Parsed(Reception(t.value, s[h .. h + n], None), h + n)
  }

  /** receiveMessage, reading the reader step by step. */
  method ReceiveMessage(s: seq<Byte>) returns (rd: Reception, used: nat)
    ensures Parsed(rd, used) == ParseFrame(s)
  {
    if |s| == 0 {
      return Failed(EOF), 0;
    }
    var preamble := s[0];
    if preamble != 0 {
      return Failed(InvalidPreamble(preamble)), 1;
    }
    var size := ReadUvarint(s[1..]);
    if size.VarErr? {
      return Failed(size.err), 1 + size.end;
    }
    var at := 1 + size.end;
    var t := ReadUvarint(s[at..]);
    if t.VarErr? {
      return Failed(t.err), at + t.end;
    }
    at := at + t.end;
    var n := if |s| - at < size.value then |s| - at else size.value;
    if n != size.value {
      return Failed(ShortRead(n, size.value)), at + n;
    }
    return Reception(t.value, s[at .. at + n], None), at + n;
  }

  /** Round trip: receiveMessage reads back exactly the frame encodeMessage wrote. */
  lemma FrameRoundTrip(p: Payload, t: MessageId, rest: seq<Byte>)
    ensures ParseFrame(Frame(p, t) + rest) == Parsed(Reception(t, p, None), |Frame(p, t)|)
  {
    var s := Frame(p, t) + rest;
    var a := Uvarint(|p|);
    var b := Uvarint(t);
    assert s[1..] == a + (b + p + rest);
    UvarintRoundTrip(|p|, b + p + rest);
    var at := 1 + |a|;
    assert s[at..] == b + (p + rest);
    UvarintRoundTrip(t, p + rest);
    var h := at + |b|;
    assert s[h .. h + |p|] == p;
  }

  /** The error cases of receiveMessage. */
  lemma ReceiveErrors(s: seq<Byte>)
    ensures |s| == 0 ==> ParseFrame(s) == Parsed(Failed(EOF), 0)
    ensures |s| > 0 && s[0] != 0 ==> ParseFrame(s) == Parsed(Failed(InvalidPreamble(s[0])), 1)
    ensures |s| == 1 && s[0] == 0 ==> ParseFrame(s) == Parsed(Failed(EOF), 1)
  {
  }

  /**
   * A well-formed header followed by fewer payload bytes than it announces is an
   * error that reports no message type, and the bytes that were there are consumed.
   */
  lemma ShortPayloadRejected(p: Payload, t: MessageId, k: nat)
    requires k < |p|
    ensures var s := Frame(p, t)[.. |Frame(p, t)| - |p| + k];
      ParseFrame(s) == Parsed(Failed(ShortRead(k, |p|)), |s|)
  {
    var s := Frame(p, t)[.. |Frame(p, t)| - |p| + k];
    var a := Uvarint(|p|);
    var b := Uvarint(t);
    assert s == [0] + a + b + p[..k];
    assert s[1..] == a + (b + p[..k]);
    UvarintRoundTrip(|p|, b + p[..k]);
    assert s[1 + |a| ..] == b + p[..k];
    UvarintRoundTrip(t, p[..k]);
  }

  /**
   * The receptions successive receiveMessage calls produce from s: the reader keeps
   * its position after every error, and once it is empty each read returns io.EOF;
   * the sequence stops at that first read of an empty reader.
   */
  function ReadFrames(s: seq<Byte>): (rs: seq<Reception>)
    ensures |rs| >= 1 && rs[|rs| - 1] == Failed(EOF)
    ensures |rs| <= |s| + 1
    decreases |s|
  {
    var p := ParseFrame(s);
    if |s| == 0 then [p.rd] else [p.rd] + ReadFrames(s[p.used..])
  }

  /** The bytes of frames laid end to end. */
  function Stream(fs: seq<(Payload, MessageId)>): seq<Byte>
  {
    if fs == [] then [] else Frame(fs[0].0, fs[0].1) + Stream(fs[1..])
  }

  /** The receptions that carry the given frames without error. */
  function Received(fs: seq<(Payload, MessageId)>): (rs: seq<Reception>)
    ensures |rs| == |fs|
    ensures forall k :: 0 <= k < |fs| ==> rs[k] == Reception(fs[k].1, fs[k].0, None)
  {
    if fs == [] then [] else [Reception(fs[0].1, fs[0].0, None)] + Received(fs[1..])
  }

  /** A stream of encoded frames is read back frame by frame, then io.EOF. */
  lemma {:induction false} ReadFramesOfStream(fs: seq<(Payload, MessageId)>)
    ensures ReadFrames(Stream(fs)) == Received(fs) + [Failed(EOF)]
  {
    if fs != [] {
      var f := Frame(fs[0].0, fs[0].1);
      var s := Stream(fs);
      assert s == f + Stream(fs[1..]);
      FrameRoundTrip(fs[0].0, fs[0].1, Stream(fs[1..]));
      assert s[|f|..] == Stream(fs[1..]);
      ReadFramesOfStream(fs[1..]);
    }
  }
}
