/** The streamed vector sum of the BLAS library (L1/include/hw/xf_blas/sum.h),
    over integer entries.

    The input is a stream of wide words, each packing `2^logParEntries`
    entries. Three stages run one after the other: `PreProcess` collapses
    each word into the sum of its lanes, `Padding` appends zeros up to a
    multiple of `2^logDelays` values, and `PostProcess` adds the values up
    block by block through a shift register `2^logDelays` wide. */
module BlasSum {
  import opened Streams

  /** The total of a sequence of entries (`BinarySum<..>::sum` computes this
      for one wide word or one register). */
  function Total(s: seq<int>): int
  {
    if s == [] then 0 else s[0] + Total(s[1..])
  }

  /** The sum distributes over concatenation. */
  lemma {:induction false} TotalAppend(a: seq<int>, b: seq<int>)
    ensures Total(a + b) == Total(a) + Total(b)
  {
    if a == [] {
      assert a + b == b;
    } else {
      assert (a + b)[0] == a[0] && (a + b)[1..] == a[1..] + b;
      TotalAppend(a[1..], b);
    }
  }

  function Zeros(k: nat): seq<int>
  {
    seq(k, _ => 0)
  }

  lemma {:induction false} TotalZeros(k: nat)
    ensures Total(Zeros(k)) == 0
  {
    if k > 0 {
      assert Zeros(k)[1..] == Zeros(k - 1);
      TotalZeros(k - 1);
    }
  }

  /** Padding with zeros leaves the sum unchanged. */
  lemma TotalZeroPadded(s: seq<int>, k: nat)
    ensures Total(s + Zeros(k)) == Total(s)
  {
    TotalAppend(s, Zeros(k));
    TotalZeros(k);
  }

  function Reverse(s: seq<int>): seq<int>
  {
    if s == [] then [] else Reverse(s[1..]) + [s[0]]
  }

  /** The order in which a block reaches the register does not change its sum. */
  lemma {:induction false} TotalReverse(s: seq<int>)
    ensures Total(Reverse(s)) == Total(s)
  {
    if s != [] {
      TotalReverse(s[1..]);
      TotalAppend(Reverse(s[1..]), [s[0]]);
    }
  }

  /** One `WideType::shift(v)`: `v` enters at lane 0, every lane moves up
      one place and the top lane falls out. */
  function Shift(reg: seq<int>, v: int): (r: seq<int>)
    requires |reg| >= 1
    ensures |r| == |reg|
  {
    [v] + reg[..|reg| - 1]
  }

  /** The register after shifting in `vs` one by one. */
  function ShiftIn(reg: seq<int>, vs: seq<int>): (r: seq<int>)
    requires |reg| >= 1
    ensures |r| == |reg|
    decreases |vs|
  {
    if vs == [] then reg else Shift(ShiftIn(reg, vs[..|vs| - 1]), vs[|vs| - 1])
  }

  /** Shifting in as many values as the register holds overwrites every lane
      whatever it held before: the register then holds the block, newest value
      first. */
  lemma {:induction false} ShiftInBlock(reg: seq<int>, vs: seq<int>)
    requires 1 <= |vs| <= |reg|
    ensures ShiftIn(reg, vs)[..|vs|] == Reverse(vs)
  {
    var n := |vs|;
    var init := vs[..n - 1];
    if n == 1 {
      assert init == [];
      assert Reverse(vs) == Reverse(vs[1..]) + [vs[0]];
    } else {
      ShiftInBlock(reg, init);
      ReverseSnoc(init, vs[n - 1]);
      assert vs == init + [vs[n - 1]];
    }
  }

  lemma {:induction false} ReverseSnoc(s: seq<int>, v: int)
    ensures Reverse(s + [v]) == [v] + Reverse(s)
  {
    if s != [] {
      assert (s + [v])[1..] == s[1..] + [v];
      ReverseSnoc(s[1..], v);
    }
  }

  /** One value per wide word: the sum of its lanes. */
  function LaneSums(words: seq<seq<int>>): (r: seq<int>)
    ensures |r| == |words|
  {
    seq(|words|, i requires 0 <= i < |words| => Total(words[i]))
  }

  /** All entries of the vector, word after word. */
  function Flatten(words: seq<seq<int>>): seq<int>
  {
    if words == [] then [] else words[0] + Flatten(words[1..])
  }

  /** Every word holds `2^logParEntries` lanes (`WideType<.., 1 << t_LogParEntries>`). */
  predicate Packed(words: seq<seq<int>>, logParEntries: nat)
  {
    forall i :: 0 <= i < |words| ==> |words[i]| == Pow2(logParEntries)
  }

  /** Summing the lane sums is summing every entry of the vector, and a
      vector of packed words has `|words| * 2^logParEntries` entries. */
  lemma {:induction false} LaneSumsTotal(words: seq<seq<int>>, logParEntries: nat)
    requires Packed(words, logParEntries)
    ensures Total(LaneSums(words)) == Total(Flatten(words))
    ensures |Flatten(words)| == |words| * Pow2(logParEntries)
  {
    if words != [] {
      LaneSumsTotal(words[1..], logParEntries);
      assert LaneSums(words)[1..] == LaneSums(words[1..]);
      TotalAppend(words[0], Flatten(words[1..]));
    }
  }

  /** `l_numIter` as written: `(p_numElems + l_Delays - 1) >> t_LogDelays`
      in 32-bit unsigned arithmetic, where the addition can wrap. */
  function NumIterAsWritten(numElems: u32, logDelays: nat): u32
    requires logDelays < 32
  {
    Wrap32(numElems + Pow2(logDelays) - 1) / Pow2(logDelays)
  }

  /** `l_numIter` as intended: the number of blocks of `2^logDelays` values
      that the `numElems` values fill, rounded up. */
  function NumIter(numElems: nat, logDelays: nat): nat
  {
    (numElems + Pow2(logDelays) - 1) / Pow2(logDelays)
  }

  /** `l_numExtra`: the zeros that complete the last block. */
  function NumExtra(numElems: nat, logDelays: nat): nat
  {
    var m := NumIter(numElems, logDelays) * Pow2(logDelays);
    if m >= numElems then m - numElems else 0
  }

  /** The padded length `l_numIter << LogDelays` is a whole number of blocks,
      covers every value, and fewer than one block of zeros is added. */
  lemma PaddedLength(numElems: nat, logDelays: nat)
    ensures NumIter(numElems, logDelays) * Pow2(logDelays) == numElems + NumExtra(numElems, logDelays)
    ensures NumExtra(numElems, logDelays) < Pow2(logDelays)
    ensures numElems == 0 ==> NumIter(numElems, logDelays) == 0
  {
    CeilBlocks(numElems, Pow2(logDelays));
  }

  lemma CeilBlocks(x: nat, d: nat)
    requires d >= 1
    ensures var q := (x + d - 1) / d; x <= q * d < x + d && (x == 0 ==> q == 0)
  {
    var y := x + d - 1;
    var q := y / d;
    DivBounds(y, d);
    assert (q + 1) * d == q * d + d;
    if x == 0 {
      DivUnique(y, d, 0);
    }
  }

  /** When `p_numElems + l_Delays - 1` fits in 32 bits the code computes the
      intended block count. */
  lemma NumIterAgrees(numElems: u32, logDelays: nat)
    requires logDelays < 32
    requires numElems + Pow2(logDelays) - 1 < U32
    ensures NumIterAsWritten(numElems, logDelays) == NumIter(numElems, logDelays)
  {
  }

  /** For a vector of 2^32 - 1 entries and two-value blocks the addition
      wraps to 0: no block is summed, and `sum` reports 0 for a vector of
      ones, where the intended block count covers every entry. */
  lemma NumIterOverflows()
    ensures NumIterAsWritten(U32 - 1, 1) == 0
    ensures NumIter(U32 - 1, 1) * Pow2(1) >= U32 - 1
  {
    assert Pow2(1) == 2;
  }

  /** preProcess: reads `numElems` wide words and writes, for each, the sum of
      its lanes. */
  method PreProcess(numElems: u32, logParEntries: nat, x: Fifo<seq<int>>, data: Fifo<int>)
    requires numElems <= |x.items| && Packed(x.items[..numElems], logParEntries)
    modifies x, data
    ensures x.items == old(x.items)[numElems..]
    ensures data.items == old(data.items) + LaneSums(old(x.items)[..numElems])
  {
    ghost var src, data0 := x.items, data.items;
    var i := 0;
    while i < numElems
      invariant 0 <= i <= numElems
      invariant x.items == src[i..]
      invariant data.items == data0 + LaneSums(src[..i])
    {
      var lx := x.Read();
      var lSum := Total(lx);
      data.Write(lSum);
      assert LaneSums(src[..i + 1]) == LaneSums(src[..i]) + [lSum];
      i := i + 1;
    }
  }

  /** padding: forwards the `numElems` values unchanged and in order, then
      writes `l_numExtra` zeros. */
  method Padding(numElems: u32, logDelays: nat, data: Fifo<int>, pad: Fifo<int>)
    requires data != pad
    requires numElems <= |data.items|
    modifies data, pad
    ensures data.items == old(data.items)[numElems..]
    ensures pad.items == old(pad.items) + old(data.items)[..numElems] + Zeros(NumExtra(numElems, logDelays))
  {
    ghost var src, pad0 := data.items, pad.items;
    var numExtra := NumExtra(numElems, logDelays);
    var i := 0;
    while i < numElems
      invariant 0 <= i <= numElems
      invariant data.items == src[i..]
      invariant pad.items == pad0 + src[..i]
    {
      var v := data.Read();
      pad.Write(v);
      assert src[..i + 1] == src[..i] + [v];
      i := i + 1;
    }
    i := 0;
    while i < numExtra
      invariant 0 <= i <= numExtra
      invariant data.items == src[numElems..]
      invariant pad.items == pad0 + src[..numElems] + Zeros(i)
    {
      pad.Write(0);
      assert Zeros(i + 1) == Zeros(i) + [0];
      i := i + 1;
    }
  }

  /** postProcess: reads `l_numIter` blocks of `2^logDelays` values, shifts
      each block into a fresh register, and accumulates the register sums;
      the result is the total of everything read. */
  method PostProcess(numElems: u32, logDelays: nat, pad: Fifo<int>) returns (sum: int)
    requires NumIter(numElems, logDelays) * Pow2(logDelays) <= |pad.items|
    modifies pad
    ensures var m := NumIter(numElems, logDelays) * Pow2(logDelays);
      pad.items == old(pad.items)[m..] && sum == Total(old(pad.items)[..m])
  {
    ghost var src := pad.items;
    var delays := Pow2(logDelays);
    var numIter := NumIter(numElems, logDelays);
    ghost var m := numIter * delays;
    var finalSum := 0;
    var i := 0;
    ghost var done := 0;
    while i < numIter
      invariant 0 <= i <= numIter
      invariant done == i * delays <= m
      invariant pad.items == src[done..]
      invariant finalSum == Total(src[..done])
    {
      MulMono(i, i, delays);
      MulMono(i + 1, numIter, delays);
      ghost var block := src[done..done + delays];
      var input := ReadBlock(pad, delays, block);
      TotalReverse(block);
      finalSum := finalSum + Total(input);
      assert src[..done + delays] == src[..done] + block;
      TotalAppend(src[..done], block);
      i := i + 1;
      done := done + delays;
    }
    sum := finalSum;
  }

  /** The inner loop of postProcess: `delays` reads shifted into a fresh
      `WideType<.., delays>`, which then holds the block newest first. */
  method ReadBlock(pad: Fifo<int>, delays: nat, ghost block: seq<int>) returns (input: seq<int>)
    requires delays >= 1 && |block| == delays <= |pad.items|
    requires pad.items[..delays] == block
    modifies pad
    ensures pad.items == old(pad.items)[delays..]
    ensures input == Reverse(block)
  {
    ghost var src := pad.items;
    var zeros := seq(delays, _ => 0);
    input := zeros;
    var j := 0;
    while j < delays
      invariant 0 <= j <= delays
      invariant pad.items == src[j..]
      invariant input == ShiftIn(zeros, block[..j])
    {
      var v := pad.Read();
      assert block[..j + 1][..j] == block[..j] && block[j] == v;
      input := Shift(input, v);
      j := j + 1;
    }
    assert block[..delays] == block;
    ShiftInBlock(zeros, block);
  }

  /** sum: the sum of all `n` entries of the packed vector, 0 for an empty
      one. `n` must be a multiple of the lanes per word. */
  method Sum(n: u32, logParEntries: nat, logDelays: nat, x: Fifo<seq<int>>) returns (sum: int)
    requires logParEntries < 32
    requires n % Pow2(logParEntries) == 0
    requires n / Pow2(logParEntries) <= |x.items|
    requires Packed(x.items[..n / Pow2(logParEntries)], logParEntries)
    modifies x
    ensures var words := old(x.items)[..n / Pow2(logParEntries)];
      && x.items == old(x.items)[n / Pow2(logParEntries)..]
      && |Flatten(words)| == n
      && sum == Total(Flatten(words))
    ensures n == 0 ==> sum == 0
  {
    var parEntries := Pow2(logParEntries);
    var numElem: u32 := n / parEntries;
    ghost var words := x.items[..numElem];
    assert |Flatten(words)| == n by {
      LaneSumsTotal(words, logParEntries);
      DivExact(n, parEntries);
    }
    var data := new Fifo<int>([]);
    var pad := new Fifo<int>([]);
    PreProcess(numElem, logParEntries, x, data);
    Padding(numElem, logDelays, data, pad);
    ghost var padded := LaneSums(words) + Zeros(NumExtra(numElem, logDelays));
    assert pad.items == padded;
    assert NumIter(numElem, logDelays) * Pow2(logDelays) == |padded| by {
      PaddedLength(numElem, logDelays);
    }
    sum := PostProcess(numElem, logDelays, pad);
    assert sum == Total(Flatten(words)) by {
      assert padded[..|padded|] == padded;
      TotalZeroPadded(LaneSums(words), NumExtra(numElem, logDelays));
      LaneSumsTotal(words, logParEntries);
    }
  }

  lemma DivExact(n: nat, p: nat)
    requires p >= 1 && n % p == 0
    ensures (n / p) * p == n
  {
  }
}
