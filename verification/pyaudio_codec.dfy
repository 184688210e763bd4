/** `PyAudioCodec` (pupil_audio/pyaudio.py; pupil_audio/blocking/pyaudio.py
    holds a line-for-line copy): converts between a raw PyAudio buffer of
    interleaved samples and a numpy array of shape (frames, channels). */
module PyAudioCodec {
  import opened Wrappers
  import opened NdArray
  import opened PortAudio

  datatype Codec = Codec(frameRate: int, channels: nat, format: PaFormat, dtype: DType)

  /** `_dtype_from_format`: only paFloat32 and paInt16 are mapped. */
  function DtypeFromFormat(f: PaFormat): (r: Result<DType>)
    ensures r.Ok? <==> f == PaFloat32 || f == PaInt16
    ensures r.Err? ==> r.error == NotImplementedError
  {
    match f
    case PaFloat32 => Ok(Float32)
    case PaInt16 => Ok(Int16)
    case _ => Err(NotImplementedError)
  }

  /** `_format_from_dtype`: only float32 and int16 are mapped. */
  function FormatFromDtype(d: DType): (r: Result<PaFormat>)
    ensures r.Ok? <==> d == Float32 || d == Int16
    ensures r.Err? ==> r.error == NotImplementedError
  {
    match d
    case Float32 => Ok(PaFloat32)
    case Int16 => Ok(PaInt16)
    case _ => Err(NotImplementedError)
  }

  /** The two conversion helpers are inverse to each other, in both directions. */
  lemma FormatDtypeInverse(f: PaFormat, d: DType)
    ensures DtypeFromFormat(f) == Ok(d) <==> FormatFromDtype(d) == Ok(f)
  {
  }

  /** The constructor: exactly one of `format` and `dtype` must be given, and
      the other one is derived from it. */
  function New(frameRate: int, channels: nat, format: Option<PaFormat>, dtype: Option<DType>): (r: Result<Codec>)
    ensures format.Some? == dtype.Some? ==> r.Err? && r.error.ValueError?
    ensures format.Some? && dtype.None? ==>
              (r.Ok? <==> DtypeFromFormat(format.value).Ok?)
    ensures dtype.Some? && format.None? ==>
              (r.Ok? <==> FormatFromDtype(dtype.value).Ok?)
    ensures r.Ok? ==> r.value.frameRate == frameRate && r.value.channels == channels
    ensures r.Ok? ==> DtypeFromFormat(r.value.format) == Ok(r.value.dtype)
    ensures r.Ok? ==> (format == Some(r.value.format) || dtype == Some(r.value.dtype))
  {
    if format.Some? && dtype.None? then
      var d :- DtypeFromFormat(format.value);
      Ok(Codec(frameRate, channels, format.value, d))
    else if format.None? && dtype.Some? then
      var f :- FormatFromDtype(dtype.value);
      FormatDtypeInverse(f, dtype.value);
      Ok(Codec(frameRate, channels, f, dtype.value))
    else
      Err(ValueError("Either format or dtype should be specified, but not both"))
  }

  lemma DivisibleSize(n: nat, ch: nat)
    requires ch > 0 && n % ch == 0
    ensures n == (n / ch) * ch
  {
  }

  /** A whole number of frames divides exactly into frames again. */
  lemma MulDiv(frames: nat, ch: nat)
    requires ch > 0
    ensures (frames * ch) % ch == 0 && (frames * ch) / ch == frames
  {
    var q := (frames * ch) / ch;
    var r := (frames * ch) % ch;
    var k := frames - q;
    assert k * ch == r by {
      assert frames * ch == q * ch + r;
      assert k * ch == frames * ch - q * ch;
    }
    if k >= 1 {
      MulAtLeast(k, ch);
    } else if k <= -1 {
      MulAtLeast(-k, ch);
    }
  }

  lemma MulAtLeast(k: int, ch: nat)
    requires k >= 1
    ensures k * ch >= ch
  {
    assert k * ch == (k - 1) * ch + ch;
  }

  /** `decode`: the buffer's samples become an array of shape
      (samples / channels, channels) whose rows, concatenated, are the
      buffer; a buffer that does not split into whole frames is refused. */
  function Decode(c: Codec, data: seq<int>): (r: Result<Array>)
    ensures c.channels == 0 ==> r == Err(ZeroDivisionError)
    ensures c.channels > 0 ==> (r.Ok? <==> |data| % c.channels == 0)
    ensures r.Err? && c.channels > 0 ==> r.error == AssertionError
    ensures r.Ok? ==> Is2D(r.value) && r.value.dtype == c.dtype
    ensures r.Ok? ==> r.value.shape == [|data| / c.channels, c.channels]
    ensures r.Ok? ==> r.value.data == data && Concat(Rows(r.value)) == data
  {
    if c.channels == 0 then Err(ZeroDivisionError)
    else if |data| % c.channels != 0 then Err(AssertionError)
    else
      DivisibleSize(|data|, c.channels);
      var a := Array(c.dtype, [|data| / c.channels, c.channels], data);
      ConcatChunk(data, |data| / c.channels, c.channels);
      Ok(a)
  }

  /** Row i of a decoded buffer is frame i: the samples [i*ch, (i+1)*ch),
      i.e. one sample of every channel in the order L0, R0, L1, R1, ... */
  lemma DecodeRow(c: Codec, data: seq<int>, i: nat)
    requires Decode(c, data).Ok? && i < |data| / c.channels
    ensures Offset(i, c.channels, c.channels) <= |data|
    ensures Rows(Decode(c, data).value)[i] == data[Offset(i, 0, c.channels) .. Offset(i, c.channels, c.channels)]
  {
    ChunkRow(data, |data| / c.channels, c.channels, i);
  }

  /** `encode`: the array flattened in C order (row-major), so a
      (frames, channels) array becomes the interleaved buffer, then
      converted with `astype` to the codec's dtype; an array already of
      that dtype is left as it is. */
  function Encode(c: Codec, a: Array): (r: seq<int>)
    ensures |r| == |a.data|
    ensures a.dtype == c.dtype && Is2D(a) ==> r == Concat(Rows(a))
    ensures forall k :: 0 <= k < |r| ==> Representable(c.dtype, r[k]) || a.dtype == c.dtype
    ensures forall k :: 0 <= k < |r| && !IsFloat(c.dtype) && a.dtype != c.dtype ==>
              (r[k] - a.data[k]) % Modulus(c.dtype) == 0
    ensures forall k :: 0 <= k < |r| && Representable(c.dtype, a.data[k]) ==> r[k] == a.data[k]
  {
    if a.dtype == c.dtype then
      if Is2D(a) then ConcatChunk(a.data, a.shape[0], a.shape[1]); a.data else a.data
    else seq(|a.data|, k requires 0 <= k < |a.data| => CastElement(c.dtype, a.data[k]))
  }

  /** For a 2-D array whose samples all fit the codec's dtype the
      conversion changes nothing, whatever the array's own dtype: the
      result is the row-major flatten. */
  lemma EncodeRepresentable(c: Codec, a: Array)
    requires Is2D(a)
    requires forall k :: 0 <= k < |a.data| ==> Representable(c.dtype, a.data[k])
    ensures Encode(c, a) == Concat(Rows(a))
  {
    ConcatChunk(a.data, a.shape[0], a.shape[1]);
  }

  /** Encoding a decoded buffer gives the buffer back. */
  lemma EncodeDecode(c: Codec, data: seq<int>)
    requires Decode(c, data).Ok?
    ensures Encode(c, Decode(c, data).value) == data
  {
  }

  /** Decoding an encoded (frames, channels) array of the codec's dtype gives
      the array back. */
  lemma DecodeEncode(c: Codec, a: Array)
    requires Is2D(a) && c.channels > 0 && a.shape[1] == c.channels && a.dtype == c.dtype
    ensures Decode(c, Encode(c, a)) == Ok(a)
  {
    MulDiv(a.shape[0], c.channels);
    assert a.shape == [a.shape[0], a.shape[1]];
  }
}
