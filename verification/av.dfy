/** The PyAV values the model produces: audio frames, their time base and
    the sample-format and channel-layout tables copied from PyAV/FFmpeg. */
module Av {
  import opened Wrappers

  /** A `fractions.Fraction` in lowest terms with a positive denominator. */
  datatype Fraction = Fraction(num: int, den: int)

  /** `Fraction(1, n)`: ZeroDivisionError for 0, otherwise the fraction with
      value 1/n and its sign moved into the numerator. */
  function Reciprocal(n: int): (r: Result<Fraction>)
    ensures r.Ok? <==> n != 0
    ensures r.Ok? ==> r.value.den > 0 && r.value.num * n == r.value.den
    ensures r.Ok? ==> (r.value.num == 1 || r.value.num == -1)
  {
    if n == 0 then Err(ZeroDivisionError)
    else if n > 0 then Ok(Fraction(1, n))
    else Ok(Fraction(-1, -n))
  }

  /** An `av.AudioFrame`: format and layout names, samples per channel, one
      plane per channel (planar formats) or a single plane (packed formats),
      and the three attributes the code assigns afterwards. */
  datatype AudioFrame = AudioFrame(
    format: string,
    layout: string,
    samples: nat,
    planes: seq<seq<int>>,
    rate: Option<int>,
    pts: Option<int>,
    timeBase: Option<Fraction>)

  /** FFmpeg's channel-count to layout-name table, as copied into the
      transcoder and into `PyAVCodec`. */
  function ChannelLayouts(): map<int, string>
  {
    map[1 := "mono", 2 := "stereo", 3 := "3.0", 4 := "quad", 5 := "5.0",
        6 := "hexagonal", 7 := "7.0", 8 := "octagonal", 16 := "hexadecagonal"]
  }

  /** The channel counts that have a layout: 1 to 8, and 16. */
  lemma ChannelLayoutsDomain(n: int)
    ensures n in ChannelLayouts() <==> (1 <= n <= 8 || n == 16)
  {
  }

  /** `av.AudioFormat(name).is_planar` for the sample-format names in use. */
  predicate IsPlanar(format: string)
  {
    format in {"u8p", "s16p", "s32p", "fltp", "dblp"}
  }

  /** The shape checks shared by `PyAVCodec._frame_from_ndarray` and the
      transcoder: a 2-D array, one row per channel for planar formats and a
      single interleaved row for packed ones; the result is the frame's
      sample count per channel. */
  function FrameSamples(planar: bool, shape: seq<nat>, channels: nat): (r: Result<nat>)
    ensures r.Ok? <==> |shape| == 2 && (if planar then shape[0] == channels else shape[0] == 1 && channels > 0)
    ensures r.Ok? && planar ==> r.value == shape[1]
    ensures r.Ok? && !planar ==> r.value * channels <= shape[1] < (r.value + 1) * channels
    ensures r.Err? ==> r.error == (if |shape| == 2 && !planar && shape[0] == 1 then ZeroDivisionError else AssertionError)
  {
    if |shape| != 2 then Err(AssertionError)
    else if planar then
      if shape[0] == channels then Ok(shape[1]) else Err(AssertionError)
    else if shape[0] != 1 then Err(AssertionError)
    else if channels == 0 then Err(ZeroDivisionError)
    else Ok(shape[1] / channels)
  }
}
