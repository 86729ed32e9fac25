/** The adapters between AXI4-Stream channels and internal HLS streams of the
    compression library (L1/include/hw/axi_stream_utils.hpp).

    An AXI4-Stream transfer ("beat") carries TDATA together with the side-band
    signals TLAST (the beat ends a packet) and TKEEP (one bit per data byte
    that is valid), as listed in section 2.1 of the AMBA 4 AXI4-Stream
    Protocol specification (ARM IHI 0051A). Every stream is a `Fifo`. */
module AxiStreamUtils {
  import opened Streams

  /** One AXI4-Stream beat: TDATA, TLAST and TKEEP. The model assumes that
      a side-band field a function never sets reads as 0 (TLAST clear, TKEEP
      empty) in a freshly declared beat. */
  datatype Beat<D> = Beat(data: D, last: bool, keep: nat)

  /** TKEEP as `set_keep(-1)` leaves it on a channel whose TDATA is
      `widthBits` wide: -1 truncated to the `(widthBits + 7) / 8` bits of the
      TKEEP field, one bit per byte, so every bit is set. */
  function KeepAll(widthBits: nat): (r: nat)
    ensures r == (-1) % Pow2((widthBits + 7) / 8)
  {
    var fieldRange := Pow2((widthBits + 7) / 8);
    DivUnique(-1, fieldRange, -1);
    fieldRange - 1
  }

  /** On the 8-bit data channels TKEEP is the single bit 1, and on the 32-bit
      size channel it is the four bits 15. */
  lemma KeepAllWidths()
    ensures KeepAll(8) == 1 && KeepAll(32) == 15
  {
    assert Pow2(1) == 2;
    assert Pow2(4) == 2 * Pow2(3) == 16;
  }

  /** The TDATA of each beat, in order. */
  function Payload<D>(beats: seq<Beat<D>>): seq<D>
  {
    seq(|beats|, i requires 0 <= i < |beats| => beats[i].data)
  }

  /** The TLAST of each beat, in order. */
  function Lasts<D>(beats: seq<Beat<D>>): seq<bool>
  {
    seq(|beats|, i requires 0 <= i < |beats| => beats[i].last)
  }

  /** Extending a prefix by one beat extends its payload and flags by that
      beat's. */
  lemma PrefixStep<D>(s: seq<Beat<D>>, n: nat)
    requires n < |s|
    ensures Payload(s[..n + 1]) == Payload(s[..n]) + [s[n].data]
    ensures Lasts(s[..n + 1]) == Lasts(s[..n]) + [s[n].last]
  {
    assert Payload(s[..n + 1]) == Payload(s[..n]) + [s[n].data];
    assert Lasts(s[..n + 1]) == Lasts(s[..n]) + [s[n].last];
  }

  /** Position of the first set flag: where a loop that stops on a set
      end-of-stream flag or TLAST stops. */
  function FirstTrue(flags: seq<bool>): (k: nat)
    requires true in flags
    ensures k < |flags| && flags[k]
    ensures forall j :: 0 <= j < k ==> !flags[j]
  {
    if flags[0] then 0 else 1 + FirstTrue(flags[1..])
  }

  /** The first set flag is the one every earlier flag is clear before. */
  lemma {:induction false} FirstTrueAt(flags: seq<bool>, k: nat)
    requires k < |flags| && flags[k]
    requires forall j :: 0 <= j < k ==> !flags[j]
    ensures true in flags && FirstTrue(flags) == k
  {
    if k > 0 {
      assert flags[1..][k - 1];
      FirstTrueAt(flags[1..], k - 1);
    }
  }

  /** A byte packet framed as `hlsStream2axiStreamFixedSize` frames it: one
      beat per byte, TLAST on the final beat alone, TKEEP all ones. */
  function Framed(bytes: seq<byte>): seq<Beat<byte>>
  {
    seq(|bytes|, i requires 0 <= i < |bytes| => Beat(bytes[i], i == |bytes| - 1, KeepAll(8)))
  }

  /** Byte/end-of-stream pairs turned into 8-bit beats as `hlsStream2axis`
      does: TLAST is the flag read with the byte, TKEEP all ones. */
  function Tagged(data: seq<byte>, eos: seq<bool>): seq<Beat<byte>>
    requires |data| == |eos|
  {
    seq(|data|, i requires 0 <= i < |data| => Beat(data[i], eos[i], KeepAll(8)))
  }

  lemma TaggedStep(data: seq<byte>, eos: seq<bool>, n: nat)
    requires n < |data| == |eos|
    ensures Tagged(data[..n + 1], eos[..n + 1]) == Tagged(data[..n], eos[..n]) + [Beat(data[n], eos[n], KeepAll(8))]
  {
    assert Tagged(data[..n + 1], eos[..n + 1]) == Tagged(data[..n], eos[..n]) + [Beat(data[n], eos[n], KeepAll(8))];
  }

  /** Words wrapped into beats as `streamDataDm2k` does: only TDATA is set. */
  function DataBeats(words: seq<nat>): seq<Beat<nat>>
  {
    seq(|words|, i requires 0 <= i < |words| => Beat(words[i], false, 0))
  }

  /** Every 8-bit beat `hlsStream2axiStreamFixedSize` emits carries its byte
      and TKEEP all ones, in order, and TLAST is set on the final beat and on
      no other. */
  lemma FramedShape(bytes: seq<byte>)
    ensures |Framed(bytes)| == |bytes| && Payload(Framed(bytes)) == bytes
    ensures forall i :: 0 <= i < |bytes| ==> (Framed(bytes)[i].last <==> i == |bytes| - 1)
    ensures forall i :: 0 <= i < |bytes| ==> Framed(bytes)[i].keep == 1
  {
    assert KeepAll(8) == 1;
    assert Payload(Framed(bytes)) == bytes;
  }

  /** Every 8-bit beat `hlsStream2axis` emits carries the byte and the
      end-of-stream flag read with it, as TDATA and TLAST, and TKEEP all ones. */
  lemma TaggedShape(data: seq<byte>, eos: seq<bool>)
    requires |data| == |eos|
    ensures Payload(Tagged(data, eos)) == data && Lasts(Tagged(data, eos)) == eos
    ensures forall i :: 0 <= i < |data| ==> Tagged(data, eos)[i].keep == 1
  {
    assert KeepAll(8) == 1;
    assert Payload(Tagged(data, eos)) == data;
    assert Lasts(Tagged(data, eos)) == eos;
  }

  /** A packet framed by `hlsStream2axiStreamFixedSize` is received whole by
      `axis2hlsStream`, which stops at its final beat even when further beats
      follow on the channel. */
  lemma FramedPacketReceived(bytes: seq<byte>, rest: seq<Beat<byte>>)
    requires bytes != []
    ensures var s := Framed(bytes) + rest;
      && true in Lasts(s)
      && FirstTrue(Lasts(s)) == |bytes| - 1
      && Payload(s[..FirstTrue(Lasts(s)) + 1]) == bytes
  {
    var s := Framed(bytes) + rest;
    var k := |bytes| - 1;
    FirstTrueAt(Lasts(s), k);
    assert s[..k + 1] == Framed(bytes);
    FramedShape(bytes);
  }

  /** What `streamDataK2dm` takes from a kernel channel, handed to
      `hlsStream2axis`, comes out as the same packet: the same bytes and the
      same TLAST positions, with TKEEP set to all ones. */
  lemma PacketRoundTrip(beats: seq<Beat<byte>>)
    requires true in Lasts(beats)
    ensures var p := beats[..FirstTrue(Lasts(beats)) + 1];
      && true in Lasts(p)
      && FirstTrue(Lasts(p)) == |p| - 1
      && Tagged(Payload(p), Lasts(p)) == seq(|p|, i requires 0 <= i < |p| => p[i].(keep := 1))
  {
    var k := FirstTrue(Lasts(beats));
    var p := beats[..k + 1];
    assert Lasts(p) == Lasts(beats)[..k + 1];
    FirstTrueAt(Lasts(p), k);
    assert KeepAll(8) == 1;
    assert Tagged(Payload(p), Lasts(p)) == seq(|p|, i requires 0 <= i < |p| => p[i].(keep := 1));
  }

  /** Number of beats `hlsStream2axiStreamFixedSize` writes: the loop runs
      `originalSize - 1` times in 32-bit unsigned arithmetic, then one more
      beat follows. For a size of 0 the subtraction wraps. */
  function FixedSizeCount(originalSize: u32): (n: nat)
    ensures originalSize >= 1 ==> n == originalSize
    ensures originalSize == 0 ==> n == U32
  {
    Wrap32(originalSize - 1) + 1
  }

  /** `itrLim = 1 + (inputSize - 1) / (STREAMDWIDTH / 8)` in 32-bit unsigned
      arithmetic: the number of `width`-bit words `streamDataDm2k` moves. */
  function ItrLim(inputSize: u32, width: nat): u32
    requires 8 <= width < 0x1_0000
  {
    Wrap32(1 + Wrap32(inputSize - 1) / (width / 8))
  }

  /** For a non-empty input, `itrLim` is the number of words the bytes fill,
      rounded up. For an empty input the subtraction wraps: the count is 0
      only on an 8-bit channel, where the sum wraps a second time, and
      otherwise the adapter waits for words that never come. */
  lemma ItrLimIsCeiling(inputSize: u32, width: nat)
    requires 8 <= width < 0x1_0000
    ensures inputSize >= 1 ==> ItrLim(inputSize, width) == (inputSize + width / 8 - 1) / (width / 8)
    ensures inputSize == 0 ==> (ItrLim(inputSize, width) == 0 <==> width < 16)
  {
    var b := width / 8;
    if inputSize >= 1 {
      var x := inputSize - 1;
      DivBounds(x, b);
      DivShift(x, b);
      assert Wrap32(1 + x / b) == 1 + x / b;
    } else if b == 1 {
      assert ItrLim(inputSize, width) == Wrap32(U32) == 0;
    } else {
      DivShrinks(U32 - 1, b);
      assert Wrap32(1 + (U32 - 1) / b) == 1 + (U32 - 1) / b;
    }
  }

  /** axis2hlsStreamFixedSize: moves the TDATA of exactly `inputSize` beats,
      in order, from the AXI channel to the HLS stream. */
  method Axis2HlsStreamFixedSize(inputAxiStream: Fifo<Beat<byte>>, inputStream: Fifo<byte>, inputSize: u32)
    requires inputSize <= |inputAxiStream.items|
    modifies inputAxiStream, inputStream
    ensures inputAxiStream.items == old(inputAxiStream.items)[inputSize..]
    ensures inputStream.items == old(inputStream.items) + Payload(old(inputAxiStream.items)[..inputSize])
  {
    ghost var src, out0 := inputAxiStream.items, inputStream.items;
    var i := 0;
    while i < inputSize
      invariant 0 <= i <= inputSize
      invariant inputAxiStream.items == src[i..]
      invariant inputStream.items == out0 + Payload(src[..i])
    {
      var t1 := inputAxiStream.Read();
      var tmpOut := t1.data;
      inputStream.Write(tmpOut);
      PrefixStep(src, i);
      i := i + 1;
    }
  }

  /** hlsStream2axis: copies byte/end-of-stream pairs to the AXI channel up to
      and including the first set flag, each flag becoming that beat's TLAST,
      then forwards the size read from `outStreamSize` as one 32-bit beat with
      TLAST set. */
  method HlsStream2Axis(outputStream: Fifo<byte>, outStreamEos: Fifo<bool>, outputAxiStream: Fifo<Beat<byte>>,
                        outStreamSize: Fifo<u32>, outAxiStreamSize: Fifo<Beat<u32>>)
    requires true in outStreamEos.items
    requires FirstTrue(outStreamEos.items) < |outputStream.items|
    requires outStreamSize.items != []
    modifies outputStream, outStreamEos, outputAxiStream, outStreamSize, outAxiStreamSize
    ensures var n := FirstTrue(old(outStreamEos.items)) + 1;
      && outputStream.items == old(outputStream.items)[n..]
      && outStreamEos.items == old(outStreamEos.items)[n..]
      && outputAxiStream.items == old(outputAxiStream.items)
                                  + Tagged(old(outputStream.items)[..n], old(outStreamEos.items)[..n])
    ensures outStreamSize.items == old(outStreamSize.items)[1..]
    ensures outAxiStreamSize.items == old(outAxiStreamSize.items) + [Beat(old(outStreamSize.items)[0], true, KeepAll(32))]
  {
    ghost var data0, eos0, axi0 := outputStream.items, outStreamEos.items, outputAxiStream.items;
    ghost var size0, axiSize0 := outStreamSize.items, outAxiStreamSize.items;
    ghost var k := FirstTrue(eos0);
    ghost var n := 0;
    var flag := false;
    while !flag
      invariant 0 <= n <= k + 1
      invariant flag <==> n == k + 1
      invariant outputStream.items == data0[n..]
      invariant outStreamEos.items == eos0[n..]
      invariant outputAxiStream.items == axi0 + Tagged(data0[..n], eos0[..n])
      invariant outStreamSize.items == size0
      invariant outAxiStreamSize.items == axiSize0
      decreases k + 1 - n
    {
      var temp := outputStream.Read();
      flag := outStreamEos.Read();
      assert temp == data0[n] && flag == eos0[n];
      assert flag <==> n == k;
      outputAxiStream.Write(Beat(temp, flag, KeepAll(8)));
      TaggedStep(data0[..k + 1], eos0[..k + 1], n);
      assert data0[..k + 1][..n + 1] == data0[..n + 1] && data0[..k + 1][..n] == data0[..n];
      assert eos0[..k + 1][..n + 1] == eos0[..n + 1] && eos0[..k + 1][..n] == eos0[..n];
      n := n + 1;
    }
    var outSize := outStreamSize.Read();
    outAxiStreamSize.Write(Beat(outSize, true, KeepAll(32)));
  }

  /** hlsStream2axiStreamFixedSize: frames `originalSize` bytes as one AXI
      packet with TLAST on the final beat (2^32 beats when the size is 0). */
  method HlsStream2AxiStreamFixedSize(hlsInStream: Fifo<byte>, outputAxiStream: Fifo<Beat<byte>>, originalSize: u32)
    requires FixedSizeCount(originalSize) <= |hlsInStream.items|
    modifies hlsInStream, outputAxiStream
    ensures var n := FixedSizeCount(originalSize);
      && hlsInStream.items == old(hlsInStream.items)[n..]
      && outputAxiStream.items == old(outputAxiStream.items) + Framed(old(hlsInStream.items)[..n])
  {
    ghost var n := FixedSizeCount(originalSize);
    ghost var src, axi0 := hlsInStream.items, outputAxiStream.items;
    ghost var packet := Framed(src[..n]);
    var i := 0;
    while i < Wrap32(originalSize - 1)
      invariant 0 <= i <= n - 1
      invariant hlsInStream.items == src[i..]
      invariant outputAxiStream.items == axi0 + packet[..i]
    {
      var temp := hlsInStream.Read();
      outputAxiStream.Write(Beat(temp, false, KeepAll(8)));
      assert packet[i] == Beat(temp, false, KeepAll(8));
      assert packet[..i + 1] == packet[..i] + [packet[i]];
      i := i + 1;
    }
    // last byte
    var temp := hlsInStream.Read();
    outputAxiStream.Write(Beat(temp, true, KeepAll(8)));
    assert packet == packet[..i] + [Beat(temp, true, KeepAll(8))];
  }

  /** axis2hlsStream<W>: forwards TDATA up to and including the first beat
      with TLAST set; nothing after that beat is consumed. */
  method Axis2HlsStream(inAxiStream: Fifo<Beat<nat>>, outStream: Fifo<nat>)
    requires true in Lasts(inAxiStream.items)
    modifies inAxiStream, outStream
    ensures var n := FirstTrue(Lasts(old(inAxiStream.items))) + 1;
      && inAxiStream.items == old(inAxiStream.items)[n..]
      && outStream.items == old(outStream.items) + Payload(old(inAxiStream.items)[..n])
  {
    ghost var src, out0 := inAxiStream.items, outStream.items;
    ghost var k := FirstTrue(Lasts(src));
    ghost var n := 0;
    while true
      invariant 0 <= n <= k
      invariant inAxiStream.items == src[n..]
      invariant outStream.items == out0 + Payload(src[..n])
      decreases k - n
    {
      var t1 := inAxiStream.Read();
      assert t1 == src[n] && t1.last == Lasts(src)[n];
      assert t1.last <==> n == k;
      var tmp := t1.data;
      outStream.Write(tmp);
      PrefixStep(src, n);
      n := n + 1;
      if t1.last {
        break;
      }
    }
  }

  /** streamDataDm2k<W>: moves `itrLim` words from the HLS stream to the
      kernel AXI channel, setting only TDATA. */
  method StreamDataDm2k(width: nat, input: Fifo<nat>, inStreamDm: Fifo<Beat<nat>>, inputSize: u32)
    requires 8 <= width < 0x1_0000
    requires ItrLim(inputSize, width) <= |input.items|
    modifies input, inStreamDm
    ensures var n := ItrLim(inputSize, width);
      && input.items == old(input.items)[n..]
      && inStreamDm.items == old(inStreamDm.items) + DataBeats(old(input.items)[..n])
  {
    ghost var src, dm0 := input.items, inStreamDm.items;
    var itrLim := ItrLim(inputSize, width);
    var i := 0;
    while i < itrLim
      invariant 0 <= i <= itrLim
      invariant input.items == src[i..]
      invariant inStreamDm.items == dm0 + DataBeats(src[..i])
    {
      var temp := input.Read();
      var dataIn := Beat(temp, false, 0);
      inStreamDm.Write(dataIn);
      assert DataBeats(src[..i + 1]) == DataBeats(src[..i]) + [dataIn];
      i := i + 1;
    }
  }

  /** streamDataK2dm: forwards each beat's byte and TLAST (as the
      end-of-stream flag) up to and including the first TLAST beat, then
      writes the beat count minus one, counted in a 32-bit register. */
  method StreamDataK2dm(out: Fifo<byte>, bytEos: Fifo<bool>, dataSize: Fifo<u32>, dmOutStream: Fifo<Beat<byte>>)
    requires true in Lasts(dmOutStream.items)
    modifies out, bytEos, dataSize, dmOutStream
    ensures var k := FirstTrue(Lasts(old(dmOutStream.items)));
      && dmOutStream.items == old(dmOutStream.items)[k + 1..]
      && out.items == old(out.items) + Payload(old(dmOutStream.items)[..k + 1])
      && bytEos.items == old(bytEos.items) + Lasts(old(dmOutStream.items)[..k + 1])
      && dataSize.items == old(dataSize.items) + [Wrap32(k)]
  {
    ghost var src, out0, eos0, size0 := dmOutStream.items, out.items, bytEos.items, dataSize.items;
    ghost var k := FirstTrue(Lasts(src));
    var last := false;
    var outSize: u32 := 0;
    ghost var n := 0;
    while !last
      invariant 0 <= n <= k + 1
      invariant last <==> n == k + 1
      invariant outSize == Count32(n)
      invariant dmOutStream.items == src[n..]
      invariant out.items == out0 + Payload(src[..n])
      invariant bytEos.items == eos0 + Lasts(src[..n])
      invariant dataSize.items == size0
      decreases k + 1 - n
    {
      var dataout := dmOutStream.Read();
      assert dataout == src[n] && dataout.last == Lasts(src)[n];
      assert dataout.last <==> n == k;
      last := dataout.last;
      bytEos.Write(last);
      out.Write(dataout.data);
      outSize := Inc32(outSize);
      PrefixStep(src, n);
      n := n + 1;
    }
    CountMinusOne(k);
    dataSize.Write(Dec32(outSize));
  }

  /** streamDataK2dmFixedSize: moves the TDATA of exactly `dataSize` beats,
      in order, from the kernel AXI channel to the HLS stream. */
  method StreamDataK2dmFixedSize(out: Fifo<byte>, dmOutStream: Fifo<Beat<byte>>, dataSize: u32)
    requires dataSize <= |dmOutStream.items|
    modifies out, dmOutStream
    ensures dmOutStream.items == old(dmOutStream.items)[dataSize..]
    ensures out.items == old(out.items) + Payload(old(dmOutStream.items)[..dataSize])
  {
    ghost var src, out0 := dmOutStream.items, out.items;
    var i := 0;
    while i < dataSize
      invariant 0 <= i <= dataSize
      invariant dmOutStream.items == src[i..]
      invariant out.items == out0 + Payload(src[..i])
    {
      var dataout := dmOutStream.Read();
      out.Write(dataout.data);
      PrefixStep(src, i);
      i := i + 1;
    }
  }
}
