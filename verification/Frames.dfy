/**
 Length-prefixed records: a head of fixed size, four bytes of payload length, the payload.
 Bucket files and event files of the snapshot archive are both lists of these.
 */
module Frames {
  import opened Bytes
  import opened Options
  import opened Sequences

  datatype Frame = Frame(head: seq<byte>, blob: seq<byte>)

  const MAX_BLOB := 0x1_0000_0000

  /** The head has its size and the length fits four bytes. */
  predicate Packable(headSize: nat, f: Frame) {
    |f.head| == headSize && |f.blob| < MAX_BLOB
  }

  predicate AllPackable(headSize: nat, frames: seq<Frame>) {
    forall i :: 0 <= i < |frames| ==> Packable(headSize, frames[i])
  }

  function EncodeFrame(f: Frame): seq<byte> {
    f.head + Pack(|f.blob|, 4) + f.blob
  }

  function EncodeFrames(frames: seq<Frame>): seq<byte> {
    if frames == [] then [] else EncodeFrame(frames[0]) + EncodeFrames(frames[1..])
  }

  /** The first frame of b and its size, if b holds all of it. */
  function FirstFrame(headSize: nat, b: seq<byte>): (r: Option<Frame>)
    ensures r.Some? ==> |r.value.head| == headSize && |b| >= headSize + 4 + |r.value.blob|
  {
    if |b| < headSize + 4 then None
    else
      var size := Unpack(b[headSize..headSize + 4]);
      if |b| < headSize + 4 + size then None
      else Some(Frame(b[..headSize], b[headSize + 4..headSize + 4 + size]))
  }

  /** None where the reader raises: a header or a payload is cut short. */
  function ParseFrames(headSize: nat, b: seq<byte>): (r: Option<seq<Frame>>)
    ensures r.Some? ==> forall i :: 0 <= i < |r.value| ==> |r.value[i].head| == headSize
    decreases |b|
  {
    if b == [] then Some([])
    else
      match FirstFrame(headSize, b)
      case None => None
      case Some(f) =>
        match ParseFrames(headSize, b[headSize + 4 + |f.blob|..])
        case None => None
        case Some(rest) => Some([f] + rest)
  }

  /** The head, the length with its most significant byte first, the payload. */
  lemma FrameLayout(headSize: nat, f: Frame)
    requires Packable(headSize, f)
    ensures var b := EncodeFrame(f);
      && |b| == headSize + 4 + |f.blob| && b[..headSize] == f.head && b[headSize + 4..] == f.blob
      && 0x100_0000 * (b[headSize] as int) + 0x1_0000 * (b[headSize + 1] as int) + 0x100 * (b[headSize + 2] as int)
           + b[headSize + 3] == |f.blob|
  {
    var b := EncodeFrame(f);
    assert b[headSize..headSize + 4] == Pack(|f.blob|, 4);
    Pow256Values();
    UnpackPack(|f.blob|, 4);
    BigEndian(Pack(|f.blob|, 4));
    var size := b[headSize..headSize + 4];
    assert size[0] == b[headSize] && size[1] == b[headSize + 1] && size[2] == b[headSize + 2];
    assert size[3] == b[headSize + 3];
  }

  lemma FirstFrameOf(headSize: nat, f: Frame, tail: seq<byte>)
    requires Packable(headSize, f)
    ensures FirstFrame(headSize, EncodeFrame(f) + tail) == Some(f)
    ensures (EncodeFrame(f) + tail)[headSize + 4 + |f.blob|..] == tail
  {
    var b := EncodeFrame(f) + tail;
    assert b[..headSize] == f.head;
    assert b[headSize..headSize + 4] == Pack(|f.blob|, 4);
    assert b[headSize + 4..headSize + 4 + |f.blob|] == f.blob;
    Pow256Values();
    UnpackPack(|f.blob|, 4);
  }

  lemma ParseMore(headSize: nat, f: Frame, tail: seq<byte>)
    requires Packable(headSize, f)
    ensures ParseFrames(headSize, EncodeFrame(f) + tail)
            == match ParseFrames(headSize, tail) case None => None case Some(rest) => Some([f] + rest)
  {
    FirstFrameOf(headSize, f, tail);
  }

  lemma {:induction false} FramesRoundTrip(headSize: nat, frames: seq<Frame>)
    requires AllPackable(headSize, frames)
    ensures ParseFrames(headSize, EncodeFrames(frames)) == Some(frames)
  {
    if frames != [] {
      FirstFrameOf(headSize, frames[0], EncodeFrames(frames[1..]));
      FramesRoundTrip(headSize, frames[1..]);
      assert [frames[0]] + frames[1..] == frames;
    }
  }

  lemma {:induction false} EncodeAppend(frames: seq<Frame>, f: Frame)
    ensures EncodeFrames(frames + [f]) == EncodeFrames(frames) + EncodeFrame(f)
  {
    if frames == [] {
      assert frames + [f] == [f];
      assert EncodeFrames([f]) == EncodeFrame(f) + EncodeFrames([]);
    } else {
      EncodeAppend(frames[1..], f);
      assert (frames + [f])[1..] == frames[1..] + [f];
      Regroup(EncodeFrame(frames[0]), EncodeFrames(frames[1..]), EncodeFrame(f));
    }
  }

  /** Byte n is where a record ends. */
  ghost predicate RecordEnd(frames: seq<Frame>, n: nat) {
    exists k :: 0 <= k <= |frames| && n == |EncodeFrames(frames[..k])|
  }

  lemma RecordEndShift(frames: seq<Frame>, n: nat)
    requires frames != []
    ensures RecordEnd(frames, n)
        <==> n == 0 || (n >= |EncodeFrame(frames[0])| && RecordEnd(frames[1..], n - |EncodeFrame(frames[0])|))
  {
    var size := |EncodeFrame(frames[0])|;
    forall k | 1 <= k <= |frames| ensures |EncodeFrames(frames[..k])| == size + |EncodeFrames(frames[1..][..k - 1])| {
      assert frames[..k][1..] == frames[1..][..k - 1];
    }
    assert frames[..0] == [] && EncodeFrames(frames[..0]) == [];
    if n >= size && RecordEnd(frames[1..], n - size) {
      var k :| 0 <= k <= |frames[1..]| && n - size == |EncodeFrames(frames[1..][..k])|;
      assert n == |EncodeFrames(frames[..k + 1])|;
    }
  }

  lemma CutLater(headSize: nat, frames: seq<Frame>, n: nat)
    requires AllPackable(headSize, frames) && frames != []
    requires |EncodeFrame(frames[0])| <= n <= |EncodeFrames(frames)|
    ensures var whole := ParseFrames(headSize, EncodeFrames(frames)[..n]);
      var rest := ParseFrames(headSize, EncodeFrames(frames[1..])[..n - |EncodeFrame(frames[0])|]);
      (whole.Some? <==> rest.Some?)
      && (whole.Some? && rest.Some? && rest.value <= frames[1..] ==> whole.value <= frames)
  {
    var rest := EncodeFrames(frames[1..])[..n - |EncodeFrame(frames[0])|];
    assert EncodeFrames(frames)[..n] == EncodeFrame(frames[0]) + rest;
    ParseMore(headSize, frames[0], rest);
  }

  /** A cut between records leaves the records in front of it; any other cut is rejected. */
  lemma {:induction false} CutFile(headSize: nat, frames: seq<Frame>, n: nat)
    requires AllPackable(headSize, frames) && n <= |EncodeFrames(frames)|
    ensures ParseFrames(headSize, EncodeFrames(frames)[..n]).Some? <==> RecordEnd(frames, n)
    ensures ParseFrames(headSize, EncodeFrames(frames)[..n]).Some? ==>
        ParseFrames(headSize, EncodeFrames(frames)[..n]).value <= frames
  {
    if frames == [] {
      assert EncodeFrames(frames[..0]) == [];
    } else {
      var size := |EncodeFrame(frames[0])|;
      RecordEndShift(frames, n);
      if n >= size {
        CutFile(headSize, frames[1..], n - size);
        CutLater(headSize, frames, n);
      } else if n > 0 {
        FirstFrameOf(headSize, frames[0], EncodeFrames(frames[1..]));
        CutFirst(headSize, EncodeFrames(frames), frames[0], n);
      }
    }
  }

  lemma CutFirst(headSize: nat, b: seq<byte>, f: Frame, n: nat)
    requires FirstFrame(headSize, b) == Some(f) && 0 < n < headSize + 4 + |f.blob|
    ensures ParseFrames(headSize, b[..n]) == None
  {
    if n >= headSize + 4 {
      assert b[..n][headSize..headSize + 4] == b[headSize..headSize + 4];
    }
  }
}
