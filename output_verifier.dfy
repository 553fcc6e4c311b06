/**
  The output verifier of the zero-runner harness (`verify_all_zeros`): it checks
  the length of the runner's output against the expected frame size and, when
  they agree, classifies every byte as zero or non-zero.
 */
module OutputVerifier {
  import opened Wrappers
  import opened Bytes

  /** The statistics dictionary returned beside the verdict. */
  datatype Stats =
    | /** Sizes differ: only the two sizes and the error "Size mismatch". */
      SizeMismatch(expectedSize: int, actualSize: nat)
    | /** Sizes agree: the full byte analysis. */
      Scanned(totalBytes: nat, zeroBytes: nat, nonZeroBytes: nat,
              firstNonZeroPosition: Option<nat>, isAllZeros: bool)

  /** The pair `(is_all_zeros, statistics)`. */
  datatype Verdict = Verdict(allZeros: bool, stats: Stats)

  /** Every byte of `s` is zero. */
  ghost predicate AllZero(s: seq<byte>)
  {
    forall i :: 0 <= i < |s| ==> s[i] == 0
  }

  /** `np.sum(data == 0)`: the number of zero bytes, which is the multiplicity of 0 in `s`. */
  function ZeroCount(s: seq<byte>): (n: nat)
    ensures n <= |s|
    ensures n == multiset(s)[0]
  {
    if s == [] then 0
    else
      var init, last := s[..|s| - 1], s[|s| - 1];
      assert s == init + [last];
      assert multiset(s) == multiset(init) + multiset{last};
      ZeroCount(init) + (if last == 0 then 1 else 0)
  }

  /** `np.sum(data != 0)`: the number of non-zero bytes. */
  function NonZeroCount(s: seq<byte>): (n: nat)
    ensures n <= |s|
    ensures n == 0 <==> AllZero(s)
  {
    if s == [] then 0
    else
      var init, last := s[..|s| - 1], s[|s| - 1];
      NonZeroCount(init) + (if last == 0 then 0 else 1)
  }

  /** `np.where(data != 0)[0]`: the positions of the non-zero bytes, in increasing order. */
  function NonZeroIndices(s: seq<byte>): (idx: seq<nat>)
    ensures forall k :: 0 <= k < |idx| ==> idx[k] < |s| && s[idx[k]] != 0
    ensures forall i :: 0 <= i < |s| && s[i] != 0 ==> i in idx
    ensures forall j, k :: 0 <= j < k < |idx| ==> idx[j] < idx[k]
  {
    if s == [] then []
    else
      var init, last := s[..|s| - 1], s[|s| - 1];
      NonZeroIndices(init) + (if last == 0 then [] else [|s| - 1])
  }

  /** The two counts split the buffer: every byte is counted exactly once. */
  lemma {:induction false} CountsPartition(s: seq<byte>)
    ensures ZeroCount(s) + NonZeroCount(s) == |s|
  {
    if s != [] {
      CountsPartition(s[..|s| - 1]);
    }
  }

  /** The non-zero count is the number of positions `np.where` reports. */
  lemma {:induction false} NonZeroCountIsIndexCount(s: seq<byte>)
    ensures NonZeroCount(s) == |NonZeroIndices(s)|
  {
    if s != [] {
      NonZeroCountIsIndexCount(s[..|s| - 1]);
    }
  }

  /** The first entry of `np.where(data != 0)[0]`, or None when there is none. */
  function FirstNonZero(s: seq<byte>): (p: Option<nat>)
    ensures p.None? <==> AllZero(s)
    ensures p.Some? ==> p.value < |s| && s[p.value] != 0
    ensures p.Some? ==> forall j :: 0 <= j < p.value ==> s[j] == 0
  {
    var idx := NonZeroIndices(s);
    if |idx| > 0 then Some(idx[0]) else None
  }

  /**
    `verify_all_zeros(output_data, frame_size)`. A length mismatch short-circuits
    to a failing verdict carrying only the two sizes; otherwise the verdict is
    "no byte is non-zero", and the statistics agree with it.
   */
  function VerifyAllZeros(output: seq<byte>, frameSize: int): (v: Verdict)
    ensures v.allZeros <==> |output| == frameSize && AllZero(output)
    ensures |output| != frameSize ==> v == Verdict(false, SizeMismatch(frameSize, |output|))
    ensures |output| == frameSize ==> (
      && v.stats.Scanned?
      && v.stats.totalBytes == frameSize
      && v.stats.zeroBytes + v.stats.nonZeroBytes == v.stats.totalBytes
      && v.stats.zeroBytes == multiset(output)[0]
      && (v.allZeros <==> v.stats.nonZeroBytes == 0)
      && v.stats.isAllZeros == v.allZeros
      && (v.stats.firstNonZeroPosition.None? <==> v.allZeros)
      && (v.stats.firstNonZeroPosition.Some? ==>
            var p := v.stats.firstNonZeroPosition.value;
            p < |output| && output[p] != 0 && forall j :: 0 <= j < p ==> output[j] == 0))
  {
    if |output| != frameSize then
      Verdict(false, SizeMismatch(frameSize, |output|))
    else
      var zeros, nonZeros := ZeroCount(output), NonZeroCount(output);
      CountsPartition(output);
      Verdict(nonZeros == 0, Scanned(|output|, zeros, nonZeros, FirstNonZero(output), nonZeros == 0))
  }

  /** What the nominal scenario asserts of an all-zero output of the expected size:
      the verdict holds, every byte counts as zero and there is no offending position. */
  lemma AllZeroOutputPasses(n: nat)
    ensures VerifyAllZeros(seq(n, _ => 0), n) == Verdict(true, Scanned(n, n, 0, None, true))
  {
  }
}
