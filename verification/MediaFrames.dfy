/**
 The byte level of the Vobiz bridge: little-endian PCM buffers, slicing into padded 20 ms frames
 on the way in and out, and the abort of playback between two frames.
 */
module MediaFrames {
  import opened Text
  import opened MuLaw

  const ULAW_CHUNK_BYTES := 160

  const PCM_CHUNK_BYTES := 320

  // ---------------------------------------------------------------- buffers

  /** A sample as two bytes, little-endian, two's complement. */
  function SampleBytes(x: Sample): (r: seq<Byte>)
    ensures |r| == 2
  {
    [x % 256, x / 256 % 256]
  }

  function BytesSample(lo: Byte, hi: Byte): Sample {
    var v := lo + 256 * hi;
    if v >= 32768 then v - 65536 else v
  }

  /** The low byte comes first, both ways. */
  lemma LittleEndian(x: Sample, lo: Byte, hi: Byte)
    ensures SampleBytes(x)[0] as int + 256 * SampleBytes(x)[1] as int == x % 65536
    ensures BytesSample(lo, hi) % 65536 == lo as int + 256 * hi as int
  {
  }

  lemma SampleRoundTrip(x: Sample)
    ensures BytesSample(SampleBytes(x)[0], SampleBytes(x)[1]) == x
  {
  }

  /** `ulaw_to_pcm16`. */
  function UlawToPcm16(ulaw: seq<Byte>): (pcm: seq<Byte>)
    ensures |pcm| == 2 * |ulaw|
  {
    if ulaw == [] then [] else SampleBytes(Decode(ulaw[0])) + UlawToPcm16(ulaw[1..])
  }

  /** `pcm16_to_ulaw` on the whole samples of a buffer. */
  function EncodeAll(pcm: seq<Byte>): (ulaw: seq<Byte>)
    ensures |ulaw| == |pcm| / 2
  {
    if |pcm| < 2 then [] else [Encode(BytesSample(pcm[0], pcm[1]))] + EncodeAll(pcm[2..])
  }

  /** `pcm16_to_ulaw`; NumPy refuses a buffer that is not a whole number of samples. */
  function Pcm16ToUlaw(pcm: seq<Byte>): Option<seq<Byte>> {
    if |pcm| % 2 == 0 then Some(EncodeAll(pcm)) else None
  }

  /** A buffer cut into frames of `size` bytes, the last one filled up with `fill`. */
  function Frames(data: seq<Byte>, size: nat, fill: Byte): (fs: seq<seq<Byte>>)
    requires size > 0
    ensures forall i :: 0 <= i < |fs| ==> |fs[i]| == size
  {
    if data == [] then []
    else if |data| < size then [data + Repeat<Byte>(fill, size - |data|)]
    else [data[..size]] + Frames(data[size..], size, fill)
  }

  /** How many bytes fill `n` up to a multiple of `size`. */
  function Missing(n: nat, size: nat): (m: nat)
    requires size > 0
    ensures m < size
    decreases n
  {
    if n == 0 then 0 else if n < size then size - n else Missing(n - size, size)
  }

  /** Framing keeps every byte in order and adds only the filler. */
  lemma {:induction false} FramesConserve(data: seq<Byte>, size: nat, fill: Byte)
    requires size > 0
    ensures Concat(Frames(data, size, fill)) == data + Repeat<Byte>(fill, Missing(|data|, size))
    decreases |data|
  {
    if |data| >= size {
      FramesConserve(data[size..], size, fill);
      assert data == data[..size] + data[size..];
      Assoc(data[..size], data[size..], Repeat<Byte>(fill, Missing(|data| - size, size)));
    } else if data != [] {
      var f := data + Repeat<Byte>(fill, size - |data|);
      assert Concat([f]) == f + [];
    }
  }

  // ---------------------------------------------------------------- the code

  /** The PCM queue towards the agent and the frames sent to the caller. */
  class MediaBridge {
    var pcmQueue: seq<seq<Byte>>
    var outbound: seq<seq<Byte>>

    constructor ()
      ensures pcmQueue == [] && outbound == []
    {
      pcmQueue, outbound := [], [];
    }

    /** `_enqueue_ulaw`. */
    method EnqueueUlaw(ulaw: seq<Byte>)
      modifies this`pcmQueue
      ensures pcmQueue == old(pcmQueue) + Frames(UlawToPcm16(ulaw), 320, 0)
    {
      var pcm := UlawToPcm16(ulaw);
      ghost var all := Frames(pcm, PCM_CHUNK_BYTES, 0);
      ghost var before := pcmQueue;
      var offset := 0;
      assert pcm[0..] == pcm && before + all == before + [] + all;
      while offset < |pcm|
        invariant 0 <= offset
        invariant offset < |pcm| ==> pcmQueue + Frames(pcm[offset..], PCM_CHUNK_BYTES, 0) == before + all
        invariant offset >= |pcm| ==> pcmQueue == before + all
      {
        var chunk := if offset + PCM_CHUNK_BYTES <= |pcm| then pcm[offset..offset + PCM_CHUNK_BYTES] else pcm[offset..];
        ghost var rest := pcm[offset..];
        if |chunk| < PCM_CHUNK_BYTES {
          chunk := chunk + Repeat<Byte>(0, PCM_CHUNK_BYTES - |chunk|);
          assert Frames(rest, PCM_CHUNK_BYTES, 0) == [chunk];
        } else {
          assert rest[..PCM_CHUNK_BYTES] == chunk && rest[PCM_CHUNK_BYTES..] == pcm[offset + PCM_CHUNK_BYTES..];
          Assoc(pcmQueue, [chunk], Frames(pcm[offset + PCM_CHUNK_BYTES..], PCM_CHUNK_BYTES, 0));
        }
        pcmQueue := pcmQueue + [chunk];
        offset := offset + PCM_CHUNK_BYTES;
      }
    }

    /**
     `send_audio`: `stopped(i)` is what `_stop_playback` reads before frame `i`.  The frames that
     go out are those before the first raised flag, and no others.
     */
    method SendAudio(pcm: seq<Byte>, stopped: nat -> bool) returns (accepted: bool)
      modifies this`outbound
      ensures accepted == Pcm16ToUlaw(pcm).Some?
      ensures !accepted ==> outbound == old(outbound)
      ensures accepted ==>
                var all := Frames(EncodeAll(pcm), 160, 0xFF);
                var n := BeforeStop(stopped, |all|, 0);
                outbound == old(outbound) + all[..n]
    {
      var encoded := Pcm16ToUlaw(pcm);
      if encoded.None? {
        return false;
      }
      var ulaw := encoded.value;
      ghost var all := Frames(ulaw, ULAW_CHUNK_BYTES, 0xFF);
      ghost var before := outbound;
      var i, offset := 0, 0;
      assert ulaw[0..] == ulaw && all[0..] == all && before + all[..0] == before;
      while offset < |ulaw|
        invariant 0 <= i <= |all| && 0 <= offset
        invariant if offset < |ulaw| then Frames(ulaw[offset..], ULAW_CHUNK_BYTES, 0xFF) == all[i..] else i == |all|
        invariant outbound == before + all[..i]
        invariant BeforeStop(stopped, |all|, 0) == BeforeStop(stopped, |all|, i)
      {
        ghost var rest := ulaw[offset..];
        assert all[i..] != [];
        if stopped(i) {
          return true;
        }
        var chunk := if offset + ULAW_CHUNK_BYTES <= |ulaw| then ulaw[offset..offset + ULAW_CHUNK_BYTES] else ulaw[offset..];
        if |chunk| < ULAW_CHUNK_BYTES {
          chunk := chunk + Repeat<Byte>(0xFF, ULAW_CHUNK_BYTES - |chunk|);
          assert all[i..] == [chunk];
        } else {
          assert rest[..ULAW_CHUNK_BYTES] == chunk && rest[ULAW_CHUNK_BYTES..] == ulaw[offset + ULAW_CHUNK_BYTES..];
          assert all[i..][1..] == all[i + 1..];
        }
        assert all[..i + 1] == all[..i] + [all[i..][0]];
        outbound := outbound + [chunk];
        offset, i := offset + ULAW_CHUNK_BYTES, i + 1;
      }
      return true;
    }
  }

  /** The number of frames sent, from frame `i` on, before the flag is seen raised. */
  function BeforeStop(stopped: nat -> bool, total: nat, i: nat): (n: nat)
    requires i <= total
    ensures i <= n <= total
    ensures forall k :: i <= k < n ==> !stopped(k)
    ensures n < total ==> stopped(n)
    decreases total - i
  {
    if i == total || stopped(i) then i else BeforeStop(stopped, total, i + 1)
  }

  // ---------------------------------------------------------------- through the bridge and back

  /** A payload with negative zero replaced by positive zero. */
  function Canonical(ulaw: seq<Byte>): (r: seq<Byte>)
    ensures |r| == |ulaw|
    ensures forall i :: 0 <= i < |ulaw| ==> r[i] == if ulaw[i] == 0x7F then 0xFF else ulaw[i]
  {
    seq(|ulaw|, i requires 0 <= i < |ulaw| => if ulaw[i] == 0x7F then 0xFF else ulaw[i])
  }

  lemma {:induction false} DecodeConcat(a: seq<Byte>, b: seq<Byte>)
    ensures UlawToPcm16(a + b) == UlawToPcm16(a) + UlawToPcm16(b)
  {
    if a == [] {
      assert a + b == b;
    } else {
      DecodeConcat(a[1..], b);
      assert (a + b)[1..] == a[1..] + b;
      Assoc(SampleBytes(Decode(a[0])), UlawToPcm16(a[1..]), UlawToPcm16(b));
    }
  }

  /** The first sample of a buffer is coded on its own, whatever follows. */
  lemma EncodeHead(a: seq<Byte>, b: seq<Byte>) returns (code: Byte)
    requires |a| >= 2
    ensures EncodeAll(a) == [code] + EncodeAll(a[2..])
    ensures EncodeAll(a + b) == [code] + EncodeAll(a[2..] + b)
  {
    code := Encode(BytesSample(a[0], a[1]));
    assert (a + b)[2..] == a[2..] + b;
  }

  lemma {:induction false} EncodeConcat(a: seq<Byte>, b: seq<Byte>)
    requires |a| % 2 == 0
    ensures EncodeAll(a + b) == EncodeAll(a) + EncodeAll(b)
    decreases |a|
  {
    if a == [] {
      assert a + b == b;
    } else {
      var code := EncodeHead(a, b);
      EncodeConcat(a[2..], b);
      Assoc([code], EncodeAll(a[2..]), EncodeAll(b));
    }
  }

  /** Encoding what was decoded gives the payload back, negative zero made positive. */
  lemma {:induction false} BufferRoundTrip(ulaw: seq<Byte>)
    ensures EncodeAll(UlawToPcm16(ulaw)) == Canonical(ulaw)
  {
    if ulaw != [] {
      BufferRoundTrip(ulaw[1..]);
      var x := Decode(ulaw[0]);
      SampleRoundTrip(x);
      CodeRoundTrip(ulaw[0]);
      var pcm := UlawToPcm16(ulaw);
      assert pcm[2..] == UlawToPcm16(ulaw[1..]);
      assert Canonical(ulaw) == Canonical([ulaw[0]]) + Canonical(ulaw[1..]);
    }
  }

  /** The samples of a PCM buffer. */
  function Samples(pcm: seq<Byte>): (r: seq<Sample>)
    ensures |r| == |pcm| / 2
  {
    if |pcm| < 2 then [] else [BytesSample(pcm[0], pcm[1])] + Samples(pcm[2..])
  }

  /** Each sample encoded and decoded. */
  function ThroughCodec(xs: seq<Sample>): (r: seq<Sample>)
    ensures |r| == |xs| && forall i :: 0 <= i < |xs| ==> r[i] == Decode(Encode(xs[i]))
  {
    seq(|xs|, i requires 0 <= i < |xs| => Decode(Encode(xs[i])))
  }

  lemma ThroughCodecCons(x: Sample, xs: seq<Sample>)
    ensures ThroughCodec([x] + xs) == [Decode(Encode(x))] + ThroughCodec(xs)
  {
  }

  lemma SamplesCons(x: Sample, pcm: seq<Byte>)
    ensures Samples(SampleBytes(x) + pcm) == [x] + Samples(pcm)
  {
    var bytes := SampleBytes(x);
    SampleRoundTrip(x);
    assert (bytes + pcm)[2..] == pcm && (bytes + pcm)[0] == bytes[0] && (bytes + pcm)[1] == bytes[1];
  }

  /** One coded sample in front of others. */
  lemma DecodedCons(code: Byte, codes: seq<Byte>, x: Sample)
    requires x == Decode(code)
    ensures Samples(UlawToPcm16([code] + codes)) == [x] + Samples(UlawToPcm16(codes))
  {
    assert ([code] + codes)[1..] == codes;
    SamplesCons(x, UlawToPcm16(codes));
  }

  /** Any PCM buffer through the codec and back: sample by sample, what the codec does to one. */
  lemma {:induction false} BufferThroughCodec(pcm: seq<Byte>)
    ensures Samples(UlawToPcm16(EncodeAll(pcm))) == ThroughCodec(Samples(pcm))
    decreases |pcm|
  {
    if |pcm| >= 2 {
      var x, rest := BytesSample(pcm[0], pcm[1]), pcm[2..];
      BufferThroughCodec(rest);
      DecodedCons(Encode(x), EncodeAll(rest), Decode(Encode(x)));
      ThroughCodecCons(x, Samples(rest));
    }
  }

  /** Silence on the PCM side is 0xFF on the mu-law side. */
  lemma {:induction false} SilenceEncodes(n: nat)
    ensures EncodeAll(Repeat<Byte>(0, 2 * n)) == Repeat<Byte>(0xFF, n)
  {
    if n > 0 {
      SilenceEncodes(n - 1);
      var pad := Repeat<Byte>(0, 2 * n);
      assert pad[2..] == Repeat<Byte>(0, 2 * (n - 1));
      ZeroEncodes();
      assert BytesSample(pad[0], pad[1]) == 0;
      assert Repeat<Byte>(0xFF, n) == [0xFF] + Repeat<Byte>(0xFF, n - 1);
    }
  }

  /** Each queued PCM frame encoded and sent on its own, in order. */
  function Echoed(frames: seq<seq<Byte>>): seq<seq<Byte>>
    requires forall i :: 0 <= i < |frames| ==> |frames[i]| == PCM_CHUNK_BYTES
  {
    if frames == [] then []
    else Frames(EncodeAll(frames[0]), ULAW_CHUNK_BYTES, 0xFF) + Echoed(frames[1..])
  }

  lemma WholeFrame(data: seq<Byte>)
    requires |data| == ULAW_CHUNK_BYTES
    ensures Frames(data, ULAW_CHUNK_BYTES, 0xFF) == [data]
  {
    assert data[..ULAW_CHUNK_BYTES] == data && data[ULAW_CHUNK_BYTES..] == [];
  }

  /**
   A mu-law payload of any length, decoded, cut into zero-padded PCM frames, and each frame encoded
   and sent again: the payload comes back frame by frame, padded with 0xFF to whole frames.
   */
  lemma {:induction false} BridgeRoundTrip(ulaw: seq<Byte>)
    ensures Echoed(Frames(UlawToPcm16(ulaw), 320, 0))
            == Frames(Canonical(ulaw), 160, 0xFF)
    decreases |ulaw|
  {
    var pcm := UlawToPcm16(ulaw);
    if |ulaw| >= ULAW_CHUNK_BYTES {
      var head, tail := ulaw[..ULAW_CHUNK_BYTES], ulaw[ULAW_CHUNK_BYTES..];
      FullChunk(ulaw, head, tail);
      BridgeRoundTrip(tail);
    } else if ulaw != [] {
      LastChunk(ulaw);
    }
  }

  lemma FullChunk(ulaw: seq<Byte>, head: seq<Byte>, tail: seq<Byte>)
    requires ulaw == head + tail && |head| == ULAW_CHUNK_BYTES
    ensures Echoed(Frames(UlawToPcm16(ulaw), PCM_CHUNK_BYTES, 0))
            == [Canonical(head)] + Echoed(Frames(UlawToPcm16(tail), PCM_CHUNK_BYTES, 0))
    ensures Frames(Canonical(ulaw), ULAW_CHUNK_BYTES, 0xFF)
            == [Canonical(head)] + Frames(Canonical(tail), ULAW_CHUNK_BYTES, 0xFF)
  {
    DecodeConcat(head, tail);
    var a, b := UlawToPcm16(head), UlawToPcm16(tail);
    assert (a + b)[..PCM_CHUNK_BYTES] == a && (a + b)[PCM_CHUNK_BYTES..] == b;
    BufferRoundTrip(head);
    WholeFrame(Canonical(head));
    assert Canonical(ulaw)[..ULAW_CHUNK_BYTES] == Canonical(head);
    assert Canonical(ulaw)[ULAW_CHUNK_BYTES..] == Canonical(tail);
  }

  lemma EvenLength(n: nat)
    ensures 2 * n % 2 == 0
  {
  }

  lemma PaddedEncodes(ulaw: seq<Byte>, n: nat)
    ensures EncodeAll(UlawToPcm16(ulaw) + Repeat<Byte>(0, 2 * n)) == Canonical(ulaw) + Repeat<Byte>(0xFF, n)
  {
    var pcm, silence := UlawToPcm16(ulaw), Repeat<Byte>(0, 2 * n);
    EvenLength(|ulaw|);
    EncodeConcat(pcm, silence);
    BufferRoundTrip(ulaw);
    SilenceEncodes(n);
  }

  lemma EchoedOne(frame: seq<Byte>)
    requires |frame| == PCM_CHUNK_BYTES
    ensures Echoed([frame]) == [EncodeAll(frame)]
  {
    WholeFrame(EncodeAll(frame));
    assert [frame][1..] == [];
    assert Echoed([frame]) == [EncodeAll(frame)] + Echoed([]);
  }

  lemma LastChunk(ulaw: seq<Byte>)
    requires 0 < |ulaw| < ULAW_CHUNK_BYTES
    ensures Echoed(Frames(UlawToPcm16(ulaw), PCM_CHUNK_BYTES, 0))
            == Frames(Canonical(ulaw), ULAW_CHUNK_BYTES, 0xFF)
  {
    var n := ULAW_CHUNK_BYTES - |ulaw|;
    PaddedEncodes(ulaw, n);
    ShortFrame(UlawToPcm16(ulaw), PCM_CHUNK_BYTES, 0, 2 * n);
    EchoedOne(UlawToPcm16(ulaw) + Repeat<Byte>(0, 2 * n));
    ShortFrame(Canonical(ulaw), ULAW_CHUNK_BYTES, 0xFF, n);
  }

  lemma ShortFrame(data: seq<Byte>, size: nat, fill: Byte, n: nat)
    requires data != [] && |data| + n == size && n > 0
    ensures Frames(data, size, fill) == [data + Repeat<Byte>(fill, n)]
  {
  }
}
