/**
 Stream codecs: big-endian 32-bit integers, length-prefixed frames, batching.
 The object codec inside a frame (pickle, compression) is a parameter.
 */
module Serializers {

  import opened Sequences
  import opened Wrappers

  type byte = b: int | 0 <= b < 256

  datatype PyError = ValueError | StructError

  const TWO_31: int := 0x8000_0000
  const TWO_32: int := 0x1_0000_0000
  const END_OF_DATA_SECTION: int := -1
  const NULL: int := -5

  // ----- struct.pack("!i") and struct.unpack("!i")

  predicate IsInt32(v: int)
  {
    -TWO_31 <= v < TWO_31
  }

  function PackInt(v: int): (bytes: seq<byte>)
    requires IsInt32(v)
    ensures |bytes| == 4
  {
    var u := if v < 0 then v + TWO_32 else v;
    [u / 0x100_0000, u / 0x1_0000 % 0x100, u / 0x100 % 0x100, u % 0x100]
  }

  function UnpackInt(bytes: seq<byte>): (v: int)
    requires |bytes| == 4
    ensures IsInt32(v)
  {
    var b0: int, b1: int, b2: int, b3: int := bytes[0], bytes[1], bytes[2], bytes[3];
    var u := b0 * 0x100_0000 + b1 * 0x1_0000 + b2 * 0x100 + b3;
    if u < TWO_31 then u else u - TWO_32
  }

  lemma UnpackPack(v: int)
    requires IsInt32(v)
    ensures UnpackInt(PackInt(v)) == v
  {
    var u := if v < 0 then v + TWO_32 else v;
    assert u / 0x1_0000 == u / 0x100_0000 * 0x100 + u / 0x1_0000 % 0x100;
    assert u / 0x100 == u / 0x1_0000 * 0x100 + u / 0x100 % 0x100;
    assert u == u / 0x100 * 0x100 + u % 0x100;
  }

  lemma PackUnpack(bytes: seq<byte>)
    requires |bytes| == 4
    ensures PackInt(UnpackInt(bytes)) == bytes
  {
    var b0: int, b1: int, b2: int, b3: int := bytes[0], bytes[1], bytes[2], bytes[3];
    var u := b0 * 0x100_0000 + b1 * 0x1_0000 + b2 * 0x100 + b3;
    DivideTwice(u);
    LastByte(b0 * 0x1_0000 + b1 * 0x100 + b2, b3);
    LastByte(b0 * 0x100 + b1, b2);
    LastByte(b0, b1);
  }

  /** Four bytes, the most significant first. */
  ghost function Weighed(bytes: seq<byte>): int
    requires |bytes| == 4
  {
    bytes[0] as int * 16777216 + bytes[1] as int * 65536 + bytes[2] as int * 256 + bytes[3] as int
  }

  /** Most significant byte first, negative integers in two's complement. */
  lemma PackIntBytes(v: int)
    requires IsInt32(v)
    ensures Weighed(PackInt(v)) == if v < 0 then v + 4294967296 else v
  {
    UnpackPack(v);
  }

  /** What the bytes of one, of the two special lengths, and of the extremes are. */
  lemma PackedConstants()
    ensures PackInt(1) == [0, 0, 0, 1]
    ensures PackInt(END_OF_DATA_SECTION) == [255, 255, 255, 255]
    ensures PackInt(NULL) == [255, 255, 255, 251]
    ensures UnpackInt([127, 255, 255, 255]) == 2147483647 && UnpackInt([128, 0, 0, 0]) == -2147483648
  {
    PackUnpack([0, 0, 0, 1]);
    PackUnpack([255, 255, 255, 255]);
    PackUnpack([255, 255, 255, 251]);
  }

  lemma DivideTwice(u: nat)
    ensures u / 0x1_0000 == u / 0x100 / 0x100 && u / 0x100_0000 == u / 0x1_0000 / 0x100
  {
  }

  lemma LastByte(a: nat, b: nat)
    requires b < 0x100
    ensures (a * 0x100 + b) / 0x100 == a && (a * 0x100 + b) % 0x100 == b
  {
  }

  // ----- struct.pack("!q")

  const TWO_63: int := 0x8000_0000_0000_0000
  const TWO_64: int := 0x1_0000_0000_0000_0000

  /** The `n` low base-256 digits of `u`, most significant first. */
  function Digits(u: nat, n: nat): (bytes: seq<byte>)
    ensures |bytes| == n
  {
    if n == 0 then [] else Digits(u / 0x100, n - 1) + [u % 0x100]
  }

  function Value(bytes: seq<byte>): nat
  {
    if bytes == [] then 0
    else
      var last: int := bytes[|bytes| - 1];
      Value(bytes[..|bytes| - 1]) * 0x100 + last
  }

  lemma {:induction false} ValueOfDigits(u: nat, n: nat)
    ensures u < Pow256(n) ==> Value(Digits(u, n)) == u
  {
    if n > 0 {
      ValueOfDigits(u / 0x100, n - 1);
      assert Digits(u, n)[..n - 1] == Digits(u / 0x100, n - 1);
      assert u == u / 0x100 * 0x100 + u % 0x100;
      if u < Pow256(n) { assert u / 0x100 < Pow256(n - 1); }
    }
  }

  function Pow256(n: nat): nat
  {
    if n == 0 then 1 else 0x100 * Pow256(n - 1)
  }

  predicate IsInt64(v: int)
  {
    -TWO_63 <= v < TWO_63
  }

  function PackLong(v: int): (bytes: seq<byte>)
    requires IsInt64(v)
    ensures |bytes| == 8
  {
    Digits(if v < 0 then v + TWO_64 else v, 8)
  }

  function UnpackLong(bytes: seq<byte>): int
    requires |bytes| == 8
  {
    var u := Value(bytes);
    if u < TWO_63 then u else u - TWO_64
  }

  lemma UnpackPackLong(v: int)
    requires IsInt64(v)
    ensures UnpackLong(PackLong(v)) == v
  {
    assert Pow256(4) == TWO_32;
    assert Pow256(8) == TWO_64;
    ValueOfDigits(if v < 0 then v + TWO_64 else v, 8);
  }

  /** Most significant byte first, negative integers in two's complement. */
  lemma PackLongBytes(v: int)
    requires IsInt64(v)
    ensures var bytes := PackLong(v);
            Weighed(bytes[..4]) * 4294967296 + Weighed(bytes[4..]) == if v < 0 then v + 18446744073709551616 else v
  {
    assert Pow256(4) == 4294967296;
    assert Pow256(8) == TWO_64;
    var u := if v < 0 then v + TWO_64 else v;
    ValueOfDigits(u, 8);
    var bytes := PackLong(v);
    assert bytes == bytes[..4] + bytes[4..];
    ValueAppend(bytes[..4], bytes[4..]);
    ValueOfFour(bytes[..4]);
    ValueOfFour(bytes[4..]);
  }

  lemma {:induction false} ValueAppend(a: seq<byte>, b: seq<byte>)
    ensures Value(a + b) == Value(a) * Pow256(|b|) + Value(b)
  {
    if b == [] {
      assert a + b == a;
    } else {
      var n := |b| - 1;
      ValueAppend(a, b[..n]);
      assert (a + b)[..|a + b| - 1] == a + b[..n];
      ShiftedSum(Value(a), Pow256(n), Value(b[..n]), b[n]);
    }
  }

  lemma ShiftedSum(a: nat, p: nat, b: nat, last: int)
    ensures (a * p + b) * 0x100 + last == a * (0x100 * p) + (b * 0x100 + last)
  {
  }

  lemma ValueOfFour(bytes: seq<byte>)
    requires |bytes| == 4
    ensures Value(bytes) == Weighed(bytes)
  {
    ValueNext(bytes[..0], bytes[0]);
    ValueNext(bytes[..1], bytes[1]);
    ValueNext(bytes[..2], bytes[2]);
    ValueNext(bytes[..3], bytes[3]);
    assert bytes[..0] + [bytes[0]] == bytes[..1] && bytes[..1] + [bytes[1]] == bytes[..2];
    assert bytes[..2] + [bytes[2]] == bytes[..3] && bytes[..3] + [bytes[3]] == bytes;
  }

  lemma ValueNext(bytes: seq<byte>, b: byte)
    ensures Value(bytes + [b]) == Value(bytes) * 0x100 + b as int
  {
    assert (bytes + [b])[..|bytes|] == bytes;
  }

  // ----- length-prefixed frames

  /** `dumps` may fail to produce bytes, the source's `None`. */
  datatype Codec<!T> = Codec(dumps: T -> Option<seq<byte>>, loads: seq<byte> -> T)

  ghost predicate Invertible<T(!new)>(codec: Codec<T>)
  {
    forall x :: codec.dumps(x).Some? ==> codec.loads(codec.dumps(x).value) == x
  }

  predicate Framable<T>(codec: Codec<T>, x: T)
  {
    codec.dumps(x).Some? && |codec.dumps(x).value| < TWO_31
  }

  ghost predicate AllFramable<T>(codec: Codec<T>, xs: seq<T>)
  {
    forall i :: 0 <= i < |xs| ==> Framable(codec, xs[i])
  }

  function Frame<T>(codec: Codec<T>, x: T): seq<byte>
    requires Framable(codec, x)
  {
    PackInt(|codec.dumps(x).value|) + codec.dumps(x).value
  }

  function Frames<T>(codec: Codec<T>, xs: seq<T>): seq<byte>
    requires AllFramable(codec, xs)
  {
    if xs == [] then [] else Frame(codec, xs[0]) + Frames(codec, xs[1..])
  }

  lemma {:induction false} FramesAppend<T>(codec: Codec<T>, xs: seq<T>, ys: seq<T>)
    requires AllFramable(codec, xs) && AllFramable(codec, ys)
    ensures AllFramable(codec, xs + ys)
    ensures Frames(codec, xs + ys) == Frames(codec, xs) + Frames(codec, ys)
  {
    if xs == [] {
      assert xs + ys == ys;
    } else {
      assert (xs + ys)[1..] == xs[1..] + ys;
      FramesAppend(codec, xs[1..], ys);
    }
  }

  lemma FramesUpto<T>(codec: Codec<T>, xs: seq<T>, i: nat)
    requires i < |xs| && AllFramable(codec, xs[..i]) && Framable(codec, xs[i])
    ensures AllFramable(codec, xs[..i + 1])
    ensures Frames(codec, xs[..i + 1]) == Frames(codec, xs[..i]) + Frame(codec, xs[i])
  {
    assert xs[..i + 1] == xs[..i] + [xs[i]];
    FramesAppend(codec, xs[..i], [xs[i]]);
    assert [xs[i]][1..] == [];
  }

  /** `_write_with_length`: the guard lets a frame of exactly 2^31 bytes pass, and packing its length fails. */
  method WriteWithLength<T>(codec: Codec<T>, x: T, stream: seq<byte>) returns (out: seq<byte>, error: Option<PyError>)
    ensures error.None? <==> Framable(codec, x)
    ensures error.None? ==> out == stream + Frame(codec, x)
    ensures error.Some? ==> out == stream
    ensures error.None? <==> codec.dumps(x).Some? && |codec.dumps(x).value| <= 2147483647
    ensures error == Some(StructError) <==> codec.dumps(x).Some? && |codec.dumps(x).value| == 2147483648
  {
    var serialized := codec.dumps(x);
    if serialized.None? {
      return stream, Some(ValueError);
    }
    if |serialized.value| > TWO_31 {
      return stream, Some(ValueError);
    }
    if !IsInt32(|serialized.value|) {
      return stream, Some(StructError);
    }
    out := stream + PackInt(|serialized.value|);
    out := out + serialized.value;
    error := None;
  }

  /** `FramedSerializer.dump_stream` */
  method DumpStream<T>(codec: Codec<T>, xs: seq<T>) returns (out: seq<byte>, error: Option<PyError>, n: nat)
    ensures n <= |xs| && AllFramable(codec, xs[..n]) && out == Frames(codec, xs[..n])
    ensures error.None? <==> AllFramable(codec, xs)
    ensures error.None? ==> n == |xs|
    ensures error.Some? ==> n < |xs| && !Framable(codec, xs[n])
  {
    out, n := [], 0;
    while n < |xs|
      invariant n <= |xs| && AllFramable(codec, xs[..n]) && out == Frames(codec, xs[..n])
    {
      out, error := WriteWithLength(codec, xs[n], out);
      if error.Some? { return; }
      FramesUpto(codec, xs, n);
      n := n + 1;
    }
    assert xs[..|xs|] == xs;
    error := None;
  }

  /** How reading ended: cleanly, or with `struct.error` on a partial header, which nothing catches. */
  datatype Ending = EndOfStream | BadHeader

  datatype Loaded<T> = Loaded(items: seq<Option<T>>, ending: Ending)

  /** What `read(length)` returns; a negative length reads everything. */
  function ReadUpto(s: seq<byte>, length: int): (r: seq<byte>)
  {
    if length < 0 || length > |s| then s else s[..length]
  }

  /** The meaning of a byte stream under `load_stream`. */
  function Load<T>(codec: Codec<T>, s: seq<byte>): Loaded<T>
    decreases |s|
  {
    if s == [] then Loaded([], EndOfStream)
    else if |s| < 4 then Loaded([], BadHeader)
    else
      var length, rest := UnpackInt(s[..4]), s[4..];
      if length == END_OF_DATA_SECTION then Loaded([], EndOfStream)
      else if length == NULL then
        var l := Load(codec, rest);
        Loaded([None] + l.items, l.ending)
      else
        var obj := ReadUpto(rest, length);
        if |obj| < length then Loaded([], EndOfStream)
        else
          var l := Load(codec, rest[|obj|..]);
          Loaded([Some(codec.loads(obj))] + l.items, l.ending)
  }

  lemma LoadObject<T>(codec: Codec<T>, s: seq<byte>)
    requires |s| >= 4 && UnpackInt(s[..4]) != END_OF_DATA_SECTION && UnpackInt(s[..4]) != NULL
    requires |ReadUpto(s[4..], UnpackInt(s[..4]))| >= UnpackInt(s[..4])
    ensures var obj := ReadUpto(s[4..], UnpackInt(s[..4]));
            var l := Load(codec, s[4..][|obj|..]);
            Load(codec, s) == Loaded([Some(codec.loads(obj))] + l.items, l.ending)
  {
  }

  /** The bytes of -1 end a section; those of -5 stand for `None`, and the rest is read on. */
  lemma LoadSpecial<T>(codec: Codec<T>, rest: seq<byte>)
    ensures Load(codec, [255, 255, 255, 255] + rest) == Loaded([], EndOfStream)
    ensures var l := Load(codec, rest); Load(codec, [255, 255, 255, 251] + rest) == Loaded([None] + l.items, l.ending)
  {
    var end: seq<byte>, none: seq<byte> := [255, 255, 255, 255], [255, 255, 255, 251];
    assert (end + rest)[..4] == end && (none + rest)[..4] == none && (none + rest)[4..] == rest;
  }

  /** Any other negative length takes all that is left as one object. */
  lemma LoadNegative<T>(codec: Codec<T>, header: seq<byte>, rest: seq<byte>)
    requires |header| == 4 && header[0] >= 128 && header != [255, 255, 255, 255] && header != [255, 255, 255, 251]
    ensures Load(codec, header + rest) == Loaded([Some(codec.loads(rest))], EndOfStream)
  {
    PackUnpack(header);
    PackedConstants();
    var s := header + rest;
    assert s[..4] == header && s[4..] == rest;
    assert UnpackInt(header) < 0;
    LoadObject(codec, s);
    assert rest[|rest|..] == [];
  }

  /** `FramedSerializer.load_stream` */
  method LoadStream<T>(codec: Codec<T>, s: seq<byte>) returns (r: Loaded<T>)
    ensures r == Load(codec, s)
  {
    var items, rest := [], s;
    while true
      invariant Load(codec, s) == Loaded(items + Load(codec, rest).items, Load(codec, rest).ending)
      decreases |rest|
    {
      var header := ReadUpto(rest, 4);
      if header == [] { return Loaded(items, EndOfStream); }
      if |header| < 4 { return Loaded(items, BadHeader); }
      var length := UnpackInt(header);
      ghost var before := rest;
      rest := rest[4..];
      if length == END_OF_DATA_SECTION { return Loaded(items, EndOfStream); }
      if length == NULL {
        Associate(items, [None], Load(codec, rest).items);
        items := items + [None];
      } else {
        var obj := ReadUpto(rest, length);
        if |obj| < length { return Loaded(items, EndOfStream); }
        rest := rest[|obj|..];
        LoadObject(codec, before);
        Associate(items, [Some(codec.loads(obj))], Load(codec, rest).items);
        items := items + [Some(codec.loads(obj))];
      }
    }
  }

  function Present<T>(xs: seq<T>): seq<Option<T>>
  {
    Map(x => Some(x), xs)
  }

  /** Reading the first frame of a longer stream. */
  lemma LoadFrame<T(!new)>(codec: Codec<T>, x: T, rest: seq<byte>)
    requires Invertible(codec) && Framable(codec, x)
    ensures var l := Load(codec, rest); Load(codec, Frame(codec, x) + rest) == Loaded([Some(x)] + l.items, l.ending)
  {
    var body := codec.dumps(x).value;
    var s := Frame(codec, x) + rest;
    UnpackPack(|body|);
    assert s[..4] == PackInt(|body|);
    assert s[4..] == body + rest;
    assert (body + rest)[..|body|] == body && (body + rest)[|body|..] == rest;
    assert ReadUpto(s[4..], |body|) == body;
  }

  /** Reading part of a frame. */
  lemma LoadPartial<T>(codec: Codec<T>, x: T, cut: nat)
    requires Framable(codec, x) && cut < |Frame(codec, x)|
    ensures Load(codec, Frame(codec, x)[..cut]) == Loaded([], if 1 <= cut <= 3 then BadHeader else EndOfStream)
  {
    if cut >= 4 {
      var n := |codec.dumps(x).value|;
      UnpackPack(n);
      assert Frame(codec, x)[..cut][..4] == PackInt(n);
    }
  }

  /** How many frames lie wholly within the first `cut` bytes. */
  function WholeFrames<T>(codec: Codec<T>, xs: seq<T>, cut: nat): (k: nat)
    requires AllFramable(codec, xs)
    ensures k <= |xs|
  {
    if xs == [] || cut < |Frame(codec, xs[0])| then 0
    else 1 + WholeFrames(codec, xs[1..], cut - |Frame(codec, xs[0])|)
  }

  /** What a stream of frames cut after `cut` bytes loads as. */
  ghost predicate LoadsAsPrefix<T>(codec: Codec<T>, xs: seq<T>, cut: nat)
    requires AllFramable(codec, xs) && cut <= |Frames(codec, xs)|
  {
    var k := WholeFrames(codec, xs, cut);
    var left := cut - |Frames(codec, xs[..k])|;
    && left >= 0
    && Load(codec, Frames(codec, xs)[..cut]) ==
        Loaded(Present(xs[..k]), if 1 <= left <= 3 then BadHeader else EndOfStream)
  }

  /**
   Reading a stream cut anywhere gives exactly the objects whose frames are complete, and
   fails just when the cut leaves one to three bytes of a header.
   */
  lemma {:induction false} LoadCut<T(!new)>(codec: Codec<T>, xs: seq<T>, cut: nat)
    requires Invertible(codec) && AllFramable(codec, xs) && cut <= |Frames(codec, xs)|
    ensures LoadsAsPrefix(codec, xs, cut)
  {
    if xs == [] {
      assert Frames(codec, xs)[..cut] == [];
    } else {
      var frame, tail := Frame(codec, xs[0]), Frames(codec, xs[1..]);
      if cut < |frame| {
        LoadPartial(codec, xs[0], cut);
        assert Frames(codec, xs)[..cut] == frame[..cut];
        assert xs[..0] == [];
      } else {
        LoadCut(codec, xs[1..], cut - |frame|);
        LoadCutCons(codec, xs, cut);
      }
    }
  }

  lemma FramesCons<T>(codec: Codec<T>, xs: seq<T>)
    requires AllFramable(codec, xs) && xs != []
    ensures Frames(codec, xs) == Frame(codec, xs[0]) + Frames(codec, xs[1..])
  {
  }

  lemma LoadCutCons<T(!new)>(codec: Codec<T>, xs: seq<T>, cut: nat)
    requires Invertible(codec) && AllFramable(codec, xs) && cut <= |Frames(codec, xs)|
    requires xs != [] && cut >= |Frame(codec, xs[0])| && LoadsAsPrefix(codec, xs[1..], cut - |Frame(codec, xs[0])|)
    ensures LoadsAsPrefix(codec, xs, cut)
  {
    FramesCons(codec, xs);
    hide Load, Frame, Frames, Invertible;
    var frame, ys, rest := Frame(codec, xs[0]), xs[1..], cut - |Frame(codec, xs[0])|;
    var k := WholeFrames(codec, ys, rest);
    ConsShape(codec, xs, cut, k);
    LoadFrame(codec, xs[0], Frames(codec, ys)[..rest]);
  }

  lemma ConsShape<T>(codec: Codec<T>, xs: seq<T>, cut: nat, k: nat)
    requires AllFramable(codec, xs) && xs != [] && |Frame(codec, xs[0])| <= cut <= |Frames(codec, xs)| && k < |xs|
    ensures Frames(codec, xs)[..cut] == Frame(codec, xs[0]) + Frames(codec, xs[1..])[..cut - |Frame(codec, xs[0])|]
    ensures |Frames(codec, xs[..k + 1])| == |Frame(codec, xs[0])| + |Frames(codec, xs[1..][..k])|
    ensures Present(xs[..k + 1]) == [Some(xs[0])] + Present(xs[1..][..k])
  {
    var zs := xs[..k + 1];
    assert zs[0] == xs[0] && zs[1..] == xs[1..][..k];
    assert Frames(codec, zs) == Frame(codec, xs[0]) + Frames(codec, xs[1..][..k]);
  }

  lemma {:induction false} WholeFramesAll<T>(codec: Codec<T>, xs: seq<T>)
    requires AllFramable(codec, xs)
    ensures WholeFrames(codec, xs, |Frames(codec, xs)|) == |xs|
  {
    if xs != [] { WholeFramesAll(codec, xs[1..]); }
  }

  /** Framing round trip. */
  lemma LoadFrames<T(!new)>(codec: Codec<T>, xs: seq<T>)
    requires Invertible(codec) && AllFramable(codec, xs)
    ensures Load(codec, Frames(codec, xs)) == Loaded(Present(xs), EndOfStream)
  {
    WholeFramesAll(codec, xs);
    LoadCut(codec, xs, |Frames(codec, xs)|);
    assert xs[..|xs|] == xs;
    assert Frames(codec, xs)[..|Frames(codec, xs)|] == Frames(codec, xs);
  }

  // ----- batching

  const UNLIMITED_BATCH_SIZE: int := -1

  /** `values[0:n], values[n:2n], ...` */
  function Pieces<V>(vs: seq<V>, n: nat): seq<seq<V>>
    requires n > 0
  {
    if vs == [] then [] else if |vs| <= n then [vs] else [vs[..n]] + Pieces(vs[n..], n)
  }

  lemma {:induction false} PiecesWhole<V>(vs: seq<V>, n: nat)
    requires n > 0
    ensures Flatten(Pieces(vs, n)) == vs
    ensures forall i :: 0 <= i < |Pieces(vs, n)| ==> 1 <= |Pieces(vs, n)[i]| <= n
    decreases |vs|
  {
    if vs != [] && |vs| <= n {
      FlattenOne(vs);
    } else if vs != [] {
      PiecesWhole(vs[n..], n);
      assert vs == vs[..n] + vs[n..];
    }
  }

  /** The batches: `batchSize` objects each, the last one possibly fewer; without a positive size, one batch. */
  function Batches<T>(batchSize: int, xs: seq<T>): seq<seq<T>>
  {
    if batchSize > 0 then Pieces(xs, batchSize)
    else if xs == [] && batchSize != UNLIMITED_BATCH_SIZE then []
    else [xs]
  }

  /** Chained pieces of one size, the last one possibly smaller, are the pieces of the whole. */
  lemma {:induction false} PiecesUnique<T>(ps: seq<seq<T>>, n: nat)
    requires n > 0 && forall i :: 0 <= i < |ps| ==> ps[i] != [] && |ps[i]| <= n
    requires forall i :: 0 <= i < |ps| - 1 ==> |ps[i]| == n
    ensures Pieces(Flatten(ps), n) == ps
  {
    if |ps| == 1 {
      FlattenOne(ps[0]);
    } else if ps != [] {
      PiecesUnique(ps[1..], n);
      var vs, rest := Flatten(ps), Flatten(ps[1..]);
      assert ps[1..][0] == ps[1] && rest == ps[1] + Flatten(ps[1..][1..]);
      assert vs[..n] == ps[0] && vs[n..] == rest;
    }
  }

  /** `BatchedSerializer._batched` */
  method Batched<T>(batchSize: int, xs: seq<T>) returns (batches: seq<seq<T>>)
    ensures batches == Batches(batchSize, xs) && Flatten(batches) == xs
    ensures batchSize == -1 ==> batches == [xs]
    ensures batchSize > 0 ==>
              && (forall i :: 0 <= i < |batches| - 1 ==> |batches[i]| == batchSize)
              && (batches != [] ==> 1 <= |batches[|batches| - 1]| <= batchSize)
    ensures batchSize <= 0 && batchSize != -1 ==> batches == if xs == [] then [] else [xs]
  {
    if batchSize == UNLIMITED_BATCH_SIZE {
      FlattenOne(xs);
      return [xs];
    }
    batches := [];
    var items, count := [], 0;
    for i := 0 to |xs|
      invariant count == |items| && Flatten(batches) + items == xs[..i]
      invariant batchSize > 0 ==> count < batchSize && forall j :: 0 <= j < |batches| ==> |batches[j]| == batchSize
      invariant batchSize <= 0 ==> batches == []
    {
      items := items + [xs[i]];
      count := count + 1;
      if count == batchSize {
        FlattenSnoc(batches, items);
        batches := batches + [items];
        items, count := [], 0;
      }
    }
    assert xs[..|xs|] == xs;
    if items != [] {
      FlattenSnoc(batches, items);
      batches := batches + [items];
    }
    if batchSize > 0 { PiecesUnique(batches, batchSize); }
  }

  /** `load_stream` of a batching serializer: the batches, chained. */
  function Unbatch<T>(l: Loaded<seq<T>>): seq<T>
  {
    Flatten(Map((b: Option<seq<T>>) => if b.Some? then b.value else [], l.items))
  }

  lemma UnbatchLoaded<T(!new)>(codec: Codec<seq<T>>, batches: seq<seq<T>>)
    requires Invertible(codec) && AllFramable(codec, batches)
    ensures Load(codec, Frames(codec, batches)).ending == EndOfStream
    ensures Unbatch(Load(codec, Frames(codec, batches))) == Flatten(batches)
  {
    LoadFrames(codec, batches);
    assert Map((b: Option<seq<T>>) => if b.Some? then b.value else [], Present(batches)) == batches;
  }

  /** Every run of consecutive objects, even of none, fits a frame. */
  ghost predicate EverySliceFits<T>(codec: Codec<seq<T>>, xs: seq<T>)
  {
    forall i, j :: 0 <= i <= j <= |xs| ==> Framable(codec, xs[i..j])
  }

  lemma {:induction false} PiecesFit<T>(codec: Codec<seq<T>>, xs: seq<T>, n: nat)
    requires n > 0 && EverySliceFits(codec, xs)
    ensures AllFramable(codec, Pieces(xs, n))
    decreases |xs|
  {
    if |xs| > n {
      var rest := xs[n..];
      forall i, j | 0 <= i <= j <= |rest| ensures Framable(codec, rest[i..j]) {
        assert rest[i..j] == xs[n + i..n + j];
      }
      PiecesFit(codec, rest, n);
      assert xs[0..n] == xs[..n];
    } else {
      assert xs[0..|xs|] == xs;
    }
  }

  /**
   `BatchedSerializer.dump_stream`; what was written always loads as a prefix of the input, and
   as all of it just when every batch fits a frame.
   */
  method DumpBatched<T(!new)>(
      codec: Codec<seq<T>>, batchSize: int, xs: seq<T>)
    returns (out: seq<byte>, error: Option<PyError>)
    requires Invertible(codec)
    ensures error.None? <==> AllFramable(codec, Batches(batchSize, xs))
    ensures EverySliceFits(codec, xs) ==> error.None?
    ensures error.None? ==> Unbatch(Load(codec, out)) == xs
    ensures Unbatch(Load(codec, out)) <= xs && Load(codec, out).ending == EndOfStream
  {
    var batches := Batched(batchSize, xs);
    var n;
    out, error, n := DumpStream(codec, batches);
    FlattenPrefix(batches, n);
    UnbatchLoaded(codec, batches[..n]);
    if error.None? { assert batches[..n] == batches; }
    if EverySliceFits(codec, xs) {
      if batchSize > 0 { PiecesFit(codec, xs, batchSize); }
      assert xs[0..|xs|] == xs;
    }
  }

  lemma NextBatch<T>(codec: Codec<seq<T>>, batches: seq<seq<T>>, xs: seq<T>, pos: nat, end: nat)
    requires pos <= end <= |xs| && AllFramable(codec, batches) && Framable(codec, xs[pos..end])
    requires Flatten(batches) == xs[..pos]
    ensures AllFramable(codec, batches + [xs[pos..end]])
    ensures Frames(codec, batches + [xs[pos..end]]) == Frames(codec, batches) + Frame(codec, xs[pos..end])
    ensures Flatten(batches + [xs[pos..end]]) == xs[..end]
  {
    var vs := xs[pos..end];
    FramesAppend(codec, batches, [vs]);
    assert [vs][1..] == [];
    FlattenSnoc(batches, vs);
    assert xs[..end] == xs[..pos] + vs;
  }

  /** `AutoBatchedSerializer.dump_stream`: the batch size follows the size of the last frame. */
  method DumpAutoBatched<T(!new)>(
      codec: Codec<seq<T>>, bestSize: int, xs: seq<T>)
    returns (out: seq<byte>, error: Option<PyError>)
    requires Invertible(codec) && forall b :: codec.dumps(b).Some?
    ensures error.None? ==> Unbatch(Load(codec, out)) == xs
    ensures Unbatch(Load(codec, out)) <= xs && Load(codec, out).ending == EndOfStream
    ensures (forall i, j :: 0 <= i < j <= |xs| ==> Framable(codec, xs[i..j])) ==> error.None?
  {
    var batch, pos := 1, 0;
    ghost var batches: seq<seq<T>> := [];
    out := [];
    while true
      invariant batch >= 1 && 0 <= pos <= |xs|
      invariant AllFramable(codec, batches) && out == Frames(codec, batches) && Flatten(batches) == xs[..pos]
      decreases |xs| - pos
    {
      UnbatchLoaded(codec, batches);
      var end := if pos + batch <= |xs| then pos + batch else |xs|;
      var vs := xs[pos..end];
      if vs == [] { break; }
      var bytes := codec.dumps(vs).value;
      if !IsInt32(|bytes|) {
        return out, Some(StructError);
      }
      out := out + PackInt(|bytes|);
      out := out + bytes;
      NextBatch(codec, batches, xs, pos, end);
      batches, pos := batches + [vs], end;
      var size := |bytes|;
      if size < bestSize {
        batch := batch * 2;
      } else if size > bestSize * 10 && batch > 1 {
        batch := batch / 2;
      }
    }
    assert xs[..|xs|] == xs;
    error := None;
  }

  // ----- flattened values

  function Keyed<K, V>(k: K, pieces: seq<seq<V>>): seq<(K, seq<V>)>
  {
    Map(WithKey(k), pieces)
  }

  /** The records `FlattenedValuesSerializer` writes. */
  function FlattenValues<K, V>(records: seq<(K, seq<V>)>, n: nat): seq<(K, seq<V>)>
    requires n > 0
  {
    if records == [] then [] else Keyed(records[0].0, Pieces(records[0].1, n)) + FlattenValues(records[1..], n)
  }

  lemma {:induction false} FlattenValuesAppend<K, V>(a: seq<(K, seq<V>)>, b: seq<(K, seq<V>)>, n: nat)
    requires n > 0
    ensures FlattenValues(a + b, n) == FlattenValues(a, n) + FlattenValues(b, n)
  {
    if a == [] {
      assert a + b == b;
    } else {
      assert (a + b)[1..] == a[1..] + b;
      FlattenValuesAppend(a[1..], b, n);
    }
  }

  /** No record is empty or has more than `n` values. */
  lemma {:induction false} FlattenedSized<K, V>(records: seq<(K, seq<V>)>, n: nat)
    requires n > 0
    ensures forall i :: 0 <= i < |FlattenValues(records, n)| ==> 1 <= |FlattenValues(records, n)[i].1| <= n
  {
    if records != [] {
      PiecesWhole(records[0].1, n);
      FlattenedSized(records[1..], n);
    }
  }

  /** The values from position `i` on. */
  function From<V>(vs: seq<V>, i: nat): seq<V>
  {
    if i <= |vs| then vs[i..] else []
  }

  lemma PiecesNext<K, V>(k: K, vs: seq<V>, i: nat, n: nat)
    requires n > 0 && i < |vs|
    ensures var end := if i + n <= |vs| then i + n else |vs|;
            Keyed(k, Pieces(From(vs, i), n)) == [(k, vs[i..end])] + Keyed(k, Pieces(From(vs, i + n), n))
  {
    var w := vs[i..];
    if |w| > n {
      assert w[n..] == vs[i + n..] && w[..n] == vs[i..i + n];
      KeyedCons(k, w[..n], Pieces(w[n..], n));
    } else {
      assert w == vs[i..|vs|];
      KeyedCons(k, w, []);
    }
  }

  lemma KeyedCons<K, V>(k: K, piece: seq<V>, pieces: seq<seq<V>>)
    ensures Keyed(k, [piece] + pieces) == [(k, piece)] + Keyed(k, pieces)
  {
  }

  /** `FlattenedValuesSerializer._batched` */
  method FlattenedBatches<K, V>(records: seq<(K, seq<V>)>, n: nat) returns (out: seq<(K, seq<V>)>)
    requires n > 0
    ensures out == FlattenValues(records, n)
    ensures forall i :: 0 <= i < |out| ==> 1 <= |out[i].1| <= n
  {
    out := [];
    for r := 0 to |records|
      invariant out == FlattenValues(records[..r], n)
    {
      assert records[..r + 1] == records[..r] + [records[r]];
      FlattenValuesAppend(records[..r], [records[r]], n);
      var chunk := KeyedPieces(records[r].0, records[r].1, n);
      assert FlattenValues([records[r]], n) == chunk + FlattenValues([], n) == chunk;
      out := out + chunk;
    }
    assert records[..|records|] == records;
    FlattenedSized(records, n);
  }

  /** `for i in range(0, len(values), n): yield key, values[i:i + n]` */
  method KeyedPieces<K, V>(key: K, values: seq<V>, n: nat) returns (out: seq<(K, seq<V>)>)
    requires n > 0
    ensures out == Keyed(key, Pieces(values, n))
  {
    out := [];
    var i := 0;
    ghost var todo := Keyed(key, Pieces(values, n));
    while i < |values|
      invariant 0 <= i && todo == Keyed(key, Pieces(From(values, i), n))
      invariant out + todo == Keyed(key, Pieces(values, n))
      decreases |values| - i
    {
      var end := if i + n <= |values| then i + n else |values|;
      PiecesNext(key, values, i, n);
      ghost var rest := Keyed(key, Pieces(From(values, i + n), n));
      Associate(out, [(key, values[i..end])], rest);
      out := out + [(key, values[i..end])];
      todo := rest;
      i := i + n;
    }
    assert todo == [];
  }
}
