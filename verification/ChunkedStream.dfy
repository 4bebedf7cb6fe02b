/**
 A file-like object that sends a stream of unknown length as frames of one fixed size, the
 last one possibly shorter, and marks the end with a length of -1.
 */
module ChunkedStreams {

  import opened Sequences
  import opened Serializers
  import opened Wrappers

  // ----- the wire format

  /** The full frames that `s` fills. */
  ghost function FullFrames(n: nat, s: seq<byte>): seq<seq<byte>>
    requires 0 < n
  {
    if |s| < n then [] else [s[..n]] + FullFrames(n, s[n..])
  }

  /** What is left of `s` after its full frames. */
  ghost function Remainder(n: nat, s: seq<byte>): (r: seq<byte>)
    requires 0 < n
    ensures |r| < n
  {
    if |s| < n then s else Remainder(n, s[n..])
  }

  /** Frames with their lengths in front, followed by `tail`. */
  ghost function Wire(frames: seq<seq<byte>>, tail: seq<byte>): seq<byte>
    requires forall i :: 0 <= i < |frames| ==> |frames[i]| < TWO_31
  {
    if frames == [] then tail else PackInt(|frames[0]|) + (frames[0] + Wire(frames[1..], tail))
  }

  /** The frames in which `s` is sent. */
  ghost function AllFrames(n: nat, s: seq<byte>): seq<seq<byte>>
    requires 0 < n
  {
    FullFrames(n, s) + if Remainder(n, s) == [] then [] else [Remainder(n, s)]
  }

  /** The whole transmission of `s`. */
  ghost function Transmission(n: nat, s: seq<byte>): seq<byte>
    requires 0 < n < TWO_31
  {
    FramesSized(n, s);
    Wire(AllFrames(n, s), PackInt(END_OF_DATA_SECTION))
  }

  /** What has been sent once `s` has been written: its full frames. */
  ghost function Sent(n: nat, s: seq<byte>): seq<byte>
    requires 0 < n < TWO_31
  {
    FramesSized(n, s);
    Wire(FullFrames(n, s), [])
  }

  /** The receiving end: frames up to the end mark, which must end the stream. */
  ghost function Receive(wire: seq<byte>): Option<seq<seq<byte>>>
    decreases |wire|
  {
    if |wire| < 4 then None
    else
      var length, rest := UnpackInt(wire[..4]), wire[4..];
      if length == END_OF_DATA_SECTION then (if rest == [] then Some([]) else None)
      else if length < 0 || |rest| < length then None
      else
        var frames := Receive(rest[length..]);
        if frames.None? then None else Some([rest[..length]] + frames.value)
  }

  lemma ReceiveFrame(header: seq<byte>, frame: seq<byte>, wire: seq<byte>)
    requires |header| == 4 && UnpackInt(header) == |frame| && Receive(wire).Some?
    ensures Receive(header + (frame + wire)) == Some([frame] + Receive(wire).value)
  {
    var rest := frame + wire;
    var all := header + rest;
    assert all[..4] == header && all[4..] == rest;
    assert rest[..|frame|] == frame && rest[|frame|..] == wire;
  }

  lemma {:induction false} ReceiveWire(frames: seq<seq<byte>>)
    requires forall i :: 0 <= i < |frames| ==> |frames[i]| < TWO_31
    ensures Receive(Wire(frames, PackInt(END_OF_DATA_SECTION))) == Some(frames)
  {
    if frames == [] {
      ReceiveEnd();
    } else {
      ReceiveWire(frames[1..]);
      UnpackPack(|frames[0]|);
      ReceiveFrame(PackInt(|frames[0]|), frames[0], Wire(frames[1..], PackInt(END_OF_DATA_SECTION)));
      assert frames == [frames[0]] + frames[1..];
    }
  }

  lemma ReceiveEnd()
    ensures Receive(PackInt(END_OF_DATA_SECTION)) == Some([])
  {
    var end := PackInt(END_OF_DATA_SECTION);
    UnpackPack(END_OF_DATA_SECTION);
    assert end[..4] == end && end[4..] == [];
  }

  lemma {:induction false} WireTail(frames: seq<seq<byte>>, a: seq<byte>, b: seq<byte>)
    requires forall i :: 0 <= i < |frames| ==> |frames[i]| < TWO_31
    ensures Wire(frames, a) + b == Wire(frames, a + b)
  {
    if frames != [] {
      WireTail(frames[1..], a, b);
      Regroup(PackInt(|frames[0]|), frames[0], Wire(frames[1..], a), b);
    }
  }

  lemma Regroup(h: seq<byte>, f: seq<byte>, a: seq<byte>, b: seq<byte>)
    ensures (h + (f + a)) + b == h + (f + (a + b))
  {
  }

  lemma {:induction false} WireSnoc(frames: seq<seq<byte>>, frame: seq<byte>, tail: seq<byte>)
    requires |frame| < TWO_31 && forall i :: 0 <= i < |frames| ==> |frames[i]| < TWO_31
    ensures Wire(frames + [frame], tail) == Wire(frames, PackInt(|frame|) + (frame + tail))
  {
    if frames == [] {
      assert frames + [frame] == [frame];
    } else {
      WireSnoc(frames[1..], frame, tail);
      assert (frames + [frame])[1..] == frames[1..] + [frame];
    }
  }

  /** Every frame but the last has exactly `n` bytes, the last between 1 and `n`. */
  ghost predicate FixedSize(n: nat, frames: seq<seq<byte>>)
  {
    && (forall i :: 0 <= i < |frames| - 1 ==> |frames[i]| == n)
    && (frames != [] ==> 1 <= |frames[|frames| - 1]| <= n)
  }

  lemma {:induction false} FramesSized(n: nat, s: seq<byte>)
    requires 0 < n
    ensures forall i :: 0 <= i < |FullFrames(n, s)| ==> |FullFrames(n, s)[i]| == n
    ensures FixedSize(n, AllFrames(n, s))
    decreases |s|
  {
    if |s| >= n { FramesSized(n, s[n..]); }
  }

  lemma {:induction false} FramesWhole(n: nat, s: seq<byte>)
    requires 0 < n
    ensures Flatten(FullFrames(n, s)) + Remainder(n, s) == s
    decreases |s|
  {
    if |s| >= n {
      FramesWhole(n, s[n..]);
      assert s == s[..n] + s[n..];
    }
  }

  /** The receiver gets exactly the bytes that were sent, in frames of the fixed size. */
  lemma RoundTrip(n: nat, s: seq<byte>)
    requires 0 < n < TWO_31
    ensures var frames := Receive(Transmission(n, s));
            frames.Some? && Flatten(frames.value) == s && FixedSize(n, frames.value)
  {
    FramesSized(n, s);
    ReceiveWire(AllFrames(n, s));
    FramesWhole(n, s);
    var r := Remainder(n, s);
    FlattenAppend(FullFrames(n, s), if r == [] then [] else [r]);
    FlattenOne(r);
  }

  lemma {:induction false} Buffered(n: nat, s: seq<byte>, b: seq<byte>)
    requires 0 < n && |Remainder(n, s)| + |b| < n
    ensures FullFrames(n, s + b) == FullFrames(n, s) && Remainder(n, s + b) == Remainder(n, s) + b
    decreases |s|
  {
    if |s| >= n {
      Buffered(n, s[n..], b);
      assert (s + b)[n..] == s[n..] + b && (s + b)[..n] == s[..n];
    }
  }

  lemma {:induction false} Filled(n: nat, s: seq<byte>, b: seq<byte>)
    requires 0 < n && |Remainder(n, s)| + |b| == n
    ensures FullFrames(n, s + b) == FullFrames(n, s) + [Remainder(n, s) + b] && Remainder(n, s + b) == []
    decreases |s|
  {
    if |s| >= n {
      Filled(n, s[n..], b);
      assert (s + b)[n..] == s[n..] + b && (s + b)[..n] == s[..n];
    } else {
      assert (s + b)[..n] == s + b && (s + b)[n..] == [];
    }
  }

  /** Sending a full buffer appends its frame. */
  lemma SendFull(n: nat, s: seq<byte>, b: seq<byte>)
    requires 0 < n < TWO_31 && |Remainder(n, s)| + |b| == n
    ensures Sent(n, s) + (PackInt(n) + (Remainder(n, s) + b))
         == Sent(n, s + b)
  {
    FramesSized(n, s);
    FramesSized(n, s + b);
    Filled(n, s, b);
    var f := Remainder(n, s) + b;
    WireSnoc(FullFrames(n, s), f, []);
    assert f + [] == f;
    WireTail(FullFrames(n, s), [], PackInt(n) + f);
    assert [] + (PackInt(n) + f) == PackInt(n) + f;
  }

  /** Sending the rest of the buffer and the end mark completes the transmission. */
  lemma SendRest(n: nat, s: seq<byte>)
    requires 0 < n < TWO_31
    ensures var r, end := Remainder(n, s), PackInt(END_OF_DATA_SECTION);
            Sent(n, s) + ((if r == [] then [] else PackInt(|r|) + r) + end) == Transmission(n, s)
  {
    FramesSized(n, s);
    var r, end := Remainder(n, s), PackInt(END_OF_DATA_SECTION);
    if r == [] {
      WireTail(FullFrames(n, s), [], end);
      assert [] + end == end;
      assert AllFrames(n, s) == FullFrames(n, s);
    } else {
      var last := PackInt(|r|) + (r + end);
      WireTail(FullFrames(n, s), [], last);
      assert [] + last == last == (PackInt(|r|) + r) + end;
      WireSnoc(FullFrames(n, s), r, end);
    }
  }

  /** Byte by byte: full frames first, then the rest if there is any, then the bytes of -1. */
  lemma TransmissionBytes(n: nat, s: seq<byte>)
    requires 0 < n < TWO_31
    ensures |s| >= n ==> Transmission(n, s) == PackInt(n) + (s[..n] + Transmission(n, s[n..]))
    ensures 0 < |s| < n ==> Transmission(n, s) == PackInt(|s|) + (s + [255, 255, 255, 255])
    ensures s == [] ==> Transmission(n, s) == [255, 255, 255, 255]
  {
    PackedConstants();
    if |s| >= n {
      assert AllFrames(n, s)[0] == s[..n] && AllFrames(n, s)[1..] == AllFrames(n, s[n..]);
    } else if s != [] {
      assert AllFrames(n, s) == [s] && AllFrames(n, s)[1..] == [];
      assert Wire([s], [255, 255, 255, 255]) == PackInt(|s|) + (s + [255, 255, 255, 255]);
    }
  }

  lemma NextSlice(start: seq<byte>, s: seq<byte>, i: nat, j: nat)
    requires i <= j <= |s|
    ensures start + s[..i] + s[i..j] == start + s[..j]
    ensures s[i..|s|] == s[i..] && s[..|s|] == s
  {
    assert s[..j] == s[..i] + s[i..j];
  }

  // ----- the sender

  class ChunkedStream {

    const bufferSize: nat
    const buffer: array<byte>
    var currentPos: nat
    /** Everything sent to the wrapped stream so far. */
    var wrapped: seq<byte>
    var closed: bool

    /** Everything given to `Write` so far. */
    ghost var written: seq<byte>

    ghost predicate Valid()
      reads this, buffer
    {
      && 0 < bufferSize < TWO_31 && buffer.Length == bufferSize
      && currentPos < bufferSize
      && wrapped == Sent(bufferSize, written)
      && buffer[..currentPos] == Remainder(bufferSize, written)
    }

    constructor (bufferSize: nat)
      requires 0 < bufferSize < TWO_31
      ensures Valid() && !closed && written == [] && this.bufferSize == bufferSize && fresh(buffer)
    {
      this.bufferSize, buffer := bufferSize, new byte[bufferSize](_ => 0);
      currentPos, wrapped, closed, written := 0, [], false, [];
    }

    method Write(bytes: seq<byte>)
      requires Valid() && !closed
      modifies this, buffer
      ensures Valid() && !closed && written == old(written) + bytes
    {
      var bytePos, byteRemaining := 0, |bytes|;
      while byteRemaining > 0
        invariant Valid() && !closed
        invariant 0 <= byteRemaining && bytePos == |bytes| - byteRemaining
        invariant written == old(written) + bytes[..bytePos]
        decreases byteRemaining
      {
        var newPos := byteRemaining + currentPos;
        if newPos < bufferSize {
          // just put it in the buffer
          NextSlice(old(written), bytes, bytePos, |bytes|);
          Put(bytes[bytePos..]);
          bytePos, byteRemaining := |bytes|, 0;
        } else {
          // fill the buffer and send it
          var spaceLeft := bufferSize - currentPos;
          var newBytePos := bytePos + spaceLeft;
          NextSlice(old(written), bytes, bytePos, newBytePos);
          Fill(bytes[bytePos..newBytePos]);
          byteRemaining := byteRemaining - spaceLeft;
          bytePos := newBytePos;
        }
      }
      assert bytes[..|bytes|] == bytes;
    }

    method Put(s: seq<byte>)
      requires Valid() && currentPos + |s| < bufferSize
      modifies `currentPos, `written, buffer
      ensures Valid() && written == old(written) + s
    {
      Copy(s);
      Buffered(bufferSize, written, s);
      currentPos := currentPos + |s|;
      written := written + s;
    }

    method Fill(s: seq<byte>)
      requires Valid() && currentPos + |s| == bufferSize
      modifies `currentPos, `written, `wrapped, buffer
      ensures Valid() && currentPos == 0 && written == old(written) + s
    {
      Copy(s);
      Filled(bufferSize, written, s);
      SendFull(bufferSize, written, s);
      assert buffer[..bufferSize] == buffer[..];
      wrapped := wrapped + (PackInt(bufferSize) + buffer[..]);
      currentPos := 0;
      written := written + s;
    }

    /** `self.buffer[self.current_pos:...] = s` */
    method Copy(s: seq<byte>)
      requires currentPos + |s| <= buffer.Length
      modifies buffer
      ensures buffer[..currentPos + |s|] == old(buffer[..currentPos]) + s
    {
      forall k | 0 <= k < |s| { buffer[currentPos + k] := s[k]; }
    }

    /** What goes over the wire depends only on the bytes written, not on how they were split. */
    method Close()
      requires Valid() && !closed
      modifies this
      ensures closed && written == old(written)
      ensures wrapped == Transmission(bufferSize, written)
    {
      SendRest(bufferSize, written);
      ghost var sent := wrapped;
      if currentPos > 0 {
        wrapped := wrapped + (PackInt(currentPos) + buffer[..currentPos]);
      }
      wrapped := wrapped + PackInt(END_OF_DATA_SECTION);
      closed := true;
      ghost var r := Remainder(bufferSize, written);
      assert wrapped == sent + ((if r == [] then [] else PackInt(|r|) + r) + PackInt(END_OF_DATA_SECTION));
    }
  }

  /** Writing any pieces and closing. */
  method Send(bufferSize: nat, pieces: seq<seq<byte>>) returns (wire: seq<byte>)
    requires 0 < bufferSize < TWO_31
    ensures wire == Transmission(bufferSize, Flatten(pieces))
    ensures Receive(wire).Some? && Flatten(Receive(wire).value) == Flatten(pieces)
    ensures FixedSize(bufferSize, Receive(wire).value)
  {
    var stream := new ChunkedStream(bufferSize);
    for i := 0 to |pieces|
      invariant fresh(stream) && fresh(stream.buffer) && stream.bufferSize == bufferSize
      invariant stream.Valid() && !stream.closed && stream.written == Flatten(pieces[..i])
    {
      FlattenUpto(pieces, i);
      stream.Write(pieces[i]);
    }
    assert pieces[..|pieces|] == pieces;
    stream.Close();
    RoundTrip(bufferSize, Flatten(pieces));
    wire := stream.wrapped;
  }
}
