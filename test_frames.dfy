/**
  The test-frame synthesiser of the zero-runner harness (`generate_test_frame`).
  A frame is a flat byte buffer holding a grid of `height` rows of `width`
  unsigned 8-bit samples in row-major order: the sample at row `row`, column
  `col` sits at offset `row * width + col`.
 */
module TestFrames {
  import opened Wrappers
  import opened Bytes

  /** The pattern tags the generator recognises, and every other tag. */
  datatype Pattern = Random | Gradient | Noise | Ones | Checkerboard | Unknown(tag: string)

  /** The `ValueError`s the generator raises: its own for a tag it does not
      recognise, numpy's for a negative dimension. */
  datatype FrameError = UnknownPattern(tag: string) | NegativeDimension

  /** The recognised tags, as the caller spells them. */
  const PatternTags: set<string> := {"random", "gradient", "noise", "ones", "pattern"}

  /** The tag that selects pattern `p`. */
  function TagOf(p: Pattern): (tag: string)
    ensures !p.Unknown? ==> tag in PatternTags
    ensures !p.Unknown? || p.tag !in PatternTags ==> ParsePattern(tag) == p
  {
    match p
    case Random => "random"
    case Gradient => "gradient"
    case Noise => "noise"
    case Ones => "ones"
    case Checkerboard => "pattern"
    case Unknown(t) => t
  }

  /** The string match at the head of `generate_test_frame`: it loses nothing of the tag. */
  function ParsePattern(tag: string): (p: Pattern)
    ensures p.Unknown? <==> tag !in PatternTags
    ensures p.Unknown? ==> p.tag == tag
  {
    if tag == "random" then Random
    else if tag == "gradient" then Gradient
    else if tag == "noise" then Noise
    else if tag == "ones" then Ones
    else if tag == "pattern" then Checkerboard
    else Unknown(tag)
  }

  /** Row-major offset of the sample at (`row`, `col`) in a frame `width` samples wide. */
  function Offset(width: nat, row: nat, col: nat): (off: nat)
  {
    row * width + col
  }

  /** Multiplying by the same natural keeps the order. */
  lemma MulMonotone(a: nat, b: nat, k: nat)
    requires a <= b
    ensures a * k <= b * k
  {
  }

  /** Every cell of a `width` by `height` grid has its own offset inside the frame,
      from which the row and the column come back by division and remainder. */
  lemma OffsetInFrame(width: nat, height: nat, row: nat, col: nat)
    requires row < height && col < width
    ensures Offset(width, row, col) < width * height
    ensures Offset(width, row, col) / width == row
    ensures Offset(width, row, col) % width == col
  {
    MulMonotone(row + 1, height, width);
    assert Offset(width, row, col) < (row + 1) * width;
    var q, m := Offset(width, row, col) / width, Offset(width, row, col) % width;
    assert q * width + m == row * width + col;
    if q < row {
      MulMonotone(q + 1, row, width);
      assert false;
    } else if q > row {
      MulMonotone(row + 1, q, width);
      assert false;
    }
  }

  /** The value a checkerboard holds at (`row`, `col`): 255 on the cells whose row
      and column have the same parity, 0 elsewhere. */
  function CheckerboardValue(row: nat, col: nat): (v: byte)
  {
    if row % 2 == col % 2 then 255 else 0
  }

  /** The frame `np.full((height, width), 255)` produces. */
  function OnesFrame(width: nat, height: nat): (frame: seq<byte>)
    ensures |frame| == width * height
    ensures forall i :: 0 <= i < |frame| ==> frame[i] == 255
  {
    seq(width * height, _ => 255)
  }

  /** The frame built by zero-filling a grid and then setting the even rows' even
      columns and the odd rows' odd columns to 255. */
  function CheckerboardFrame(width: nat, height: nat): (frame: seq<byte>)
    ensures |frame| == width * height
    ensures forall row: nat, col: nat {:trigger Offset(width, row, col)} :: row < height && col < width ==>
      Offset(width, row, col) < |frame| &&
      frame[Offset(width, row, col)] == (if row % 2 == col % 2 then 255 else 0)
  {
    if width == 0 then []
    else
      var frame := seq(width * height, i requires 0 <= i => CheckerboardValue(i / width, i % width));
      assert forall row: nat, col: nat {:trigger Offset(width, row, col)} :: row < height && col < width ==>
        Offset(width, row, col) < |frame| &&
        frame[Offset(width, row, col)] == (if row % 2 == col % 2 then 255 else 0) by {
        forall row: nat, col: nat | row < height && col < width
          ensures Offset(width, row, col) < |frame|
          ensures frame[Offset(width, row, col)] == (if row % 2 == col % 2 then 255 else 0)
        {
          OffsetInFrame(width, height, row, col);
        }
      }
      frame
  }

  /** A frame of `width * height` samples whose values come from outside the model
      (a random generator, a Gaussian draw or a floating-point ramp). */
  function SampledFrame(width: nat, height: nat, samples: nat -> byte): (frame: seq<byte>)
    ensures |frame| == width * height
  {
    seq(width * height, i requires 0 <= i => samples(i))
  }

  /**
    `generate_test_frame(width, height, pattern=tag)`. An unknown tag is refused
    before any array is built; numpy refuses a negative dimension for every known
    tag. The `random`, `gradient` and `noise` frames draw their values from
    `samples`; the other two are fixed.
   */
  function GenerateTestFrame(width: int, height: int, tag: string, samples: nat -> byte)
    : (result: Result<seq<byte>, FrameError>)
    ensures result.Success? <==> tag in PatternTags && width >= 0 && height >= 0
    ensures tag !in PatternTags ==> result == Failure(UnknownPattern(tag))
    ensures tag in PatternTags && (width < 0 || height < 0) ==> result == Failure(NegativeDimension)
    ensures result.Success? ==> |result.value| == width * height
    ensures tag == "ones" && result.Success? ==>
      forall i :: 0 <= i < |result.value| ==> result.value[i] == 255
    ensures tag == "pattern" && result.Success? ==>
      forall row: nat, col: nat {:trigger Offset(width, row, col)} :: row < height && col < width ==>
        Offset(width, row, col) < |result.value| &&
        result.value[Offset(width, row, col)] == (if row % 2 == col % 2 then 255 else 0)
  {
    var pattern := ParsePattern(tag);
    if pattern.Unknown? then Failure(UnknownPattern(tag))
    else if width < 0 || height < 0 then Failure(NegativeDimension)
    else Success(PatternFrame(pattern, width, height, samples))
  }

  /** The frame a recognised pattern yields for non-negative dimensions. */
  function PatternFrame(pattern: Pattern, width: nat, height: nat, samples: nat -> byte): (frame: seq<byte>)
    requires !pattern.Unknown?
    ensures |frame| == width * height
  {
    match pattern
    case Ones => OnesFrame(width, height)
    case Checkerboard => CheckerboardFrame(width, height)
    case Random => SampledFrame(width, height, samples)
    case Gradient => SampledFrame(width, height, samples)
    case Noise => SampledFrame(width, height, samples)
  }
}
