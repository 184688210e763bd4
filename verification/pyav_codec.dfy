/** `PyAVCodec` (pupil_audio/pyav.py): turns a numpy array of interleaved
    frames into a planar PyAV audio frame, one plane per channel. */
module PyAVCodec {
  import opened Wrappers
  import opened NdArray
  import opened Av
  import PyAudioCodec

  datatype Codec = Codec(channels: nat, frameRate: int, format: string, dtype: DType)

  /** `_dtype_from_format`: only "s16p" is mapped. */
  function DtypeFromFormat(format: string): (r: Result<DType>)
    ensures r.Ok? <==> format == "s16p"
    ensures r.Ok? ==> r.value == Int16
    ensures r.Err? ==> r.error == NotImplementedError
  {
    if format == "s16p" then Ok(Int16) else Err(NotImplementedError)
  }

  /** `_format_from_dtype`: only int16 is mapped. */
  function FormatFromDtype(d: DType): (r: Result<string>)
    ensures r.Ok? <==> d == Int16
    ensures r.Ok? ==> r.value == "s16p"
    ensures r.Err? ==> r.error == NotImplementedError
  {
    if d == Int16 then Ok("s16p") else Err(NotImplementedError)
  }

  /** The constructor: exactly one of `format` and `dtype`, the other derived;
      whichever is given, the codec ends up as ("s16p", int16). */
  function New(channels: nat, frameRate: int, format: Option<string>, dtype: Option<DType>): (r: Result<Codec>)
    ensures format.Some? == dtype.Some? ==> r.Err? && r.error.ValueError?
    ensures format.Some? && dtype.None? ==> (r.Ok? <==> format.value == "s16p")
    ensures dtype.Some? && format.None? ==> (r.Ok? <==> dtype.value == Int16)
    ensures r.Err? && format.Some? != dtype.Some? ==> r.error == NotImplementedError
    ensures r.Ok? ==> r.value == Codec(channels, frameRate, "s16p", Int16)
  {
    if format.Some? && dtype.None? then
      var d :- DtypeFromFormat(format.value);
      Ok(Codec(channels, frameRate, format.value, d))
    else if format.None? && dtype.Some? then
      var f :- FormatFromDtype(dtype.value);
      Ok(Codec(channels, frameRate, f, dtype.value))
    else
      Err(ValueError("Either format or dtype should be specified, but not both"))
  }

  /** `_format_dtypes`: PyAV sample-format name to numpy dtype. */
  function FormatDtypes(): map<string, DType>
  {
    map["dbl" := Float64, "dblp" := Float64, "flt" := Float32, "fltp" := Float32,
        "s16" := Int16, "s16p" := Int16, "s32" := Int32, "s32p" := Int32,
        "u8" := UInt8, "u8p" := UInt8]
  }

  /** `_frame_from_ndarray`: the checks in source order (layout lookup,
      format lookup, dtype, dimensions and plane count), then a frame whose
      planes are the array's rows: every row for a planar format, the one
      interleaved row for a packed format. */
  function FrameFromNdarray(a: Array, channels: nat, format: string): (r: Result<AudioFrame>)
    ensures channels !in ChannelLayouts() ==> r == Err(KeyError)
    ensures channels in ChannelLayouts() && format !in FormatDtypes() ==> r.Err? && r.error.ValueError?
    ensures channels in ChannelLayouts() && format in FormatDtypes() && a.dtype != FormatDtypes()[format] ==> r == Err(AssertionError)
    ensures r.Ok? <==> && channels in ChannelLayouts() && format in FormatDtypes()
                       && a.dtype == FormatDtypes()[format] && Is2D(a)
                       && FrameSamples(IsPlanar(format), a.shape, channels).Ok?
    ensures r.Ok? ==> && r.value.format == format && r.value.layout == ChannelLayouts()[channels]
                      && r.value.samples == FrameSamples(IsPlanar(format), a.shape, channels).value
                      && r.value.rate.None? && r.value.pts.None? && r.value.timeBase.None?
    ensures r.Ok? && IsPlanar(format) ==> |r.value.planes| == channels && r.value.planes == Rows(a)
    ensures r.Ok? && !IsPlanar(format) ==> r.value.planes == Rows(a)
  {
    if channels !in ChannelLayouts() then Err(KeyError)
    else if format !in FormatDtypes() then
      Err(ValueError("Conversion from numpy array with format `" + format + "` is not yet supported"))
    else if a.dtype != FormatDtypes()[format] then Err(AssertionError)
    else if !Is2D(a) then Err(AssertionError)
    else
      var samples :- FrameSamples(IsPlanar(format), a.shape, channels);
      Ok(AudioFrame(format, ChannelLayouts()[channels], samples, Rows(a), None, None, None))
  }

  /** What every constructed codec satisfies: the only supported pairing. */
  predicate ValidCodec(c: Codec)
  {
    c.format == "s16p" && c.dtype == Int16
  }

  lemma NewValid(channels: nat, frameRate: int, format: Option<string>, dtype: Option<DType>)
    ensures New(channels, frameRate, format, dtype).Ok? ==> ValidCodec(New(channels, frameRate, format, dtype).value)
  {
  }

  /** `encode`: flatten column-major, cut into `channels` rows of equal
      length, build the planar frame and stamp the codec's rate on it. */
  function Encode(c: Codec, a: Array): (r: Result<AudioFrame>)
    requires ValidCodec(c)
    requires Is2D(a) || (Valid(a) && |a.shape| < 2)
    ensures c.channels == 0 ==> r == Err(ZeroDivisionError)
    ensures c.channels > 0 && |a.data| % c.channels != 0 ==> r == Err(AssertionError)
    ensures c.channels > 0 && |a.data| % c.channels == 0 && c.channels !in ChannelLayouts() ==> r == Err(KeyError)
    ensures c.channels > 0 && |a.data| % c.channels == 0 && c.channels in ChannelLayouts() && a.dtype != Int16 ==>
              r == Err(AssertionError)
    ensures r.Ok? <==> && c.channels > 0 && |a.data| % c.channels == 0
                       && c.channels in ChannelLayouts() && a.dtype == Int16
    ensures r.Ok? ==> && r.value.rate == Some(c.frameRate) && r.value.format == "s16p"
                      && r.value.layout == ChannelLayouts()[c.channels]
                      && r.value.samples == |a.data| / c.channels
                      && |FlattenF(a)| == c.channels * r.value.samples
                      && r.value.planes == Chunk(FlattenF(a), c.channels, r.value.samples)
                      && r.value.pts.None? && r.value.timeBase.None?
  {
    var flat := FlattenF(a);
    if c.channels == 0 then Err(ZeroDivisionError)
    else if |flat| % c.channels != 0 then Err(AssertionError)
    else
      var width := |flat| / c.channels;
      PyAudioCodec.DivisibleSize(|flat|, c.channels);
      var planar := Array(a.dtype, [c.channels, width], flat);
      var frame :- FrameFromNdarray(planar, c.channels, c.format);
      Ok(frame.(rate := Some(c.frameRate)))
  }

  /** For an array of interleaved frames (one row per frame, one column per
      channel) plane j of the encoded frame is channel j: its i-th sample is
      element (i, j) of the array. */
  lemma EncodePlanes(c: Codec, a: Array)
    requires ValidCodec(c) && Is2D(a) && a.shape[1] == c.channels
    requires Encode(c, a).Ok?
    ensures Encode(c, a).value.samples == a.shape[0]
    ensures Encode(c, a).value.planes == Transpose(Rows(a), c.channels)
  {
    PyAudioCodec.MulDiv(a.shape[0], c.channels);
    FlattenFRows(a);
  }

  /** Re-interleaving the planes of an encoded frame gives back the array's
      elements in their original order. */
  lemma EncodeInterleave(c: Codec, a: Array)
    requires ValidCodec(c) && Is2D(a) && a.shape[1] == c.channels
    requires Encode(c, a).Ok?
    ensures Concat(Transpose(Encode(c, a).value.planes, Encode(c, a).value.samples)) == a.data
  {
    var planes := Encode(c, a).value.planes;
    var rows := Rows(a);
    EncodePlanes(c, a);
    assert planes == Transpose(rows, c.channels);
    TransposeTwice(rows, c.channels);
    assert Transpose(planes, a.shape[0]) == rows;
    ConcatChunk(a.data, a.shape[0], a.shape[1]);
  }

  /** A raw PyAudio buffer decoded by `PyAudioCodec` and encoded here lands
      de-interleaved: sample i of plane j is buffer sample i*channels + j. */
  lemma DecodeThenEncode(pc: PyAudioCodec.Codec, c: Codec, data: seq<int>, i: nat, j: nat)
    requires ValidCodec(c) && pc.dtype == Int16 && pc.channels == c.channels
    requires PyAudioCodec.Decode(pc, data).Ok?
    requires Encode(c, PyAudioCodec.Decode(pc, data).value).Ok?
    requires j < c.channels && i < |data| / c.channels
    ensures var planes := Encode(c, PyAudioCodec.Decode(pc, data).value).value.planes;
            && j < |planes| && i < |planes[j]| && Offset(i, j, c.channels) < |data|
            && planes[j][i] == data[Offset(i, j, c.channels)]
  {
    var a := PyAudioCodec.Decode(pc, data).value;
    assert a.data == data && a.shape == [|data| / c.channels, c.channels];
    var planes := Encode(c, a).value.planes;
    EncodePlanes(c, a);
    assert planes == Transpose(Rows(a), c.channels);
    RowsElement(a, i, j);
    assert planes[j][i] == Rows(a)[i][j];
  }
}
