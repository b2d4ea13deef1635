/**
 * The reader's output format: a little-endian u32 frame count, then one frame
 * per returned row (x, y, z, detail zoom and data length as u32, then the data
 * bytes). The decoder is the partner a consumer of the buffer uses.
 */
module FrameCodec {
  import opened Wrappers
  import opened Ints
  import opened LittleEndian

  /** Bytes of a frame before its data. */
  const HeaderSize: nat := 20

  /** One frame as it appears in the buffer. */
  datatype Frame = Frame(x: u32, y: u32, z: u32, detailZoom: u32, data: seq<u8>)

  /** Frames whose data length fits the u32 length field. */
  predicate Encodable(frames: seq<Frame>)
  {
    forall i :: 0 <= i < |frames| ==> |frames[i].data| < U32_LIMIT
  }

  /** The space the frames take: a header and the data for each. */
  function FramesSize(frames: seq<Frame>): nat
  {
    if frames == [] then 0 else HeaderSize + |frames[0].data| + FramesSize(frames[1..])
  }

  /** One frame; the length field is `data.len() as u32`. */
  function EncodeFrame(f: Frame): (r: seq<u8>)
    ensures |r| == HeaderSize + |f.data|
  {
    U32Le(f.x) + U32Le(f.y) + U32Le(f.z) + U32Le(f.detailZoom) + U32Le(TruncU32(|f.data|)) + f.data
  }

  /** The frames one after another, in order. */
  function EncodeFrames(frames: seq<Frame>): (r: seq<u8>)
    ensures |r| == FramesSize(frames)
  {
    if frames == [] then [] else EncodeFrame(frames[0]) + EncodeFrames(frames[1..])
  }

  /** The whole buffer: the frame count (`as u32`, so modulo 2^32), then the frames. */
  function Encode(frames: seq<Frame>): (r: seq<u8>)
    ensures |r| == 4 + FramesSize(frames)
    ensures |frames| < U32_LIMIT ==> U32FromLe(r[..4]) == |frames|
  {
    U32RoundTrip(TruncU32(|frames|));
    U32Le(TruncU32(|frames|)) + EncodeFrames(frames)
  }

  /** Reads count frames that must use up all of bs. */
  function DecodeFrames(bs: seq<u8>, count: nat): Option<seq<Frame>>
    decreases count
  {
    if count == 0 then
      if bs == [] then Some([]) else None
    else if |bs| < HeaderSize then None
    else
      var len := U32FromLe(bs[16..20]);
      if |bs| < HeaderSize + len then None
      else
        var f := Frame(U32FromLe(bs[0..4]), U32FromLe(bs[4..8]), U32FromLe(bs[8..12]),
                       U32FromLe(bs[12..16]), bs[HeaderSize..HeaderSize + len]);
        match DecodeFrames(bs[HeaderSize + len..], count - 1)
        case None => None
        case Some(rest) => Some([f] + rest)
  }

  /** Reads a whole buffer: the count, then exactly that many frames. */
  function Decode(buf: seq<u8>): Option<seq<Frame>>
  {
    if |buf| < 4 then None else DecodeFrames(buf[4..], U32FromLe(buf[..4]))
  }

  /** Appending frames appends their encodings. */
  lemma {:induction false} EncodeFramesAppend(a: seq<Frame>, b: seq<Frame>)
    ensures EncodeFrames(a + b) == EncodeFrames(a) + EncodeFrames(b)
  {
    if a != [] {
      assert (a + b)[1..] == a[1..] + b;
      EncodeFramesAppend(a[1..], b);
    } else {
      assert a + b == b;
    }
  }

  /** Appending one frame appends its encoding. */
  lemma EncodeFramesPush(frames: seq<Frame>, f: Frame)
    ensures EncodeFrames(frames + [f]) == EncodeFrames(frames) + EncodeFrame(f)
  {
    EncodeFramesAppend(frames, [f]);
    assert [f][1..] == [];
  }

  /** The header of an encoded frame reads back as the frame's fields, and its length field delimits the data. */
  lemma ReadFrame(f: Frame, rest: seq<u8>)
    requires |f.data| < U32_LIMIT
    ensures var bs := EncodeFrame(f) + rest;
            && |bs| >= HeaderSize + |f.data|
            && U32FromLe(bs[16..20]) == |f.data|
            && Frame(U32FromLe(bs[0..4]), U32FromLe(bs[4..8]), U32FromLe(bs[8..12]),
                     U32FromLe(bs[12..16]), bs[HeaderSize..HeaderSize + |f.data|]) == f
            && bs[HeaderSize + |f.data|..] == rest
  {
    var bs := EncodeFrame(f) + rest;
    assert bs[0..4] == U32Le(f.x);
    assert bs[4..8] == U32Le(f.y);
    assert bs[8..12] == U32Le(f.z);
    assert bs[12..16] == U32Le(f.detailZoom);
    assert bs[16..20] == U32Le(|f.data|);
    U32RoundTrip(f.x);
    U32RoundTrip(f.y);
    U32RoundTrip(f.z);
    U32RoundTrip(f.detailZoom);
    U32RoundTrip(|f.data|);
    assert bs[HeaderSize..HeaderSize + |f.data|] == f.data;
  }

  /** Decoding the encoded frames, with their count, gives the frames back. */
  lemma {:induction false} DecodeEncodeFrames(frames: seq<Frame>)
    requires Encodable(frames)
    ensures DecodeFrames(EncodeFrames(frames), |frames|) == Some(frames)
  {
    if frames != [] {
      var rest := EncodeFrames(frames[1..]);
      assert |frames[0].data| < U32_LIMIT;
      ReadFrame(frames[0], rest);
      DecodeEncodeFrames(frames[1..]);
      assert [frames[0]] + frames[1..] == frames;
    }
  }

  /**
   * Decoding a buffer gives back exactly the frames encoded into it, in order,
   * when their count and each data length fit a u32.
   */
  lemma DecodeEncode(frames: seq<Frame>)
    requires |frames| < U32_LIMIT && Encodable(frames)
    ensures Decode(Encode(frames)) == Some(frames)
  {
    var buf := Encode(frames);
    assert buf[..4] == U32Le(|frames|);
    assert buf[4..] == EncodeFrames(frames);
    DecodeEncodeFrames(frames);
  }
}
