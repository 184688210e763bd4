/** `PyAudio2PyAVTranscoder` (pupil_audio/nonblocking/pyaudio2pyav.py):
    turns one interleaved PyAudio buffer into one planar PyAV frame, stamping
    the frame with a presentation timestamp from a per-instance counter. */
module Transcoder {
  import opened Wrappers
  import opened NdArray
  import opened PortAudio
  import opened Av
  import PyAudioCodec
  import PyAVCodec

  /** The transcoder's state: the frame rate and channel count it was given,
      its dtype and the number of frames it has transcoded so far. */
  datatype Transcoder = Transcoder(frameRate: int, channels: nat, dtype: DType, encoded: nat)

  /** `_dtype_to_pyaudio_format` */
  function DtypeToPyaudioFormat(): map<DType, PaFormat>
  {
    map[Float32 := PaFloat32, Int16 := PaInt16, Int32 := PaInt32, UInt8 := PaUInt8]
  }

  /** `_dtype_to_pyav_format_interleaved_and_planar` */
  function DtypeToPyavFormats(): map<DType, (string, string)>
  {
    map[Float64 := ("dbl", "dblp"), Float32 := ("flt", "fltp"), Int16 := ("s16", "s16p"),
        Int32 := ("s32", "s32p"), UInt8 := ("u8", "u8p")]
  }

  /** `_supported_dtypes`: the union of the two tables' keys. */
  function SupportedDtypes(): (s: set<DType>)
    ensures s == {Float32, Int16, Int32, UInt8, Float64}
  {
    DtypeToPyaudioFormat().Keys + DtypeToPyavFormats().Keys
  }

  /** The constructor with `dtype` defaulting to int16 when it is not given:
      any dtype outside the supported set fails the assertion, and the
      counter starts at zero. */
  function New(frameRate: int, channels: nat, dtype: Option<DType>): (r: Result<Transcoder>)
    ensures r.Ok? <==> dtype.GetOr(Int16) in {Float32, Int16, Int32, UInt8, Float64}
    ensures r.Err? ==> r.error == AssertionError
    ensures dtype.None? ==> r.Ok? && r.value.dtype == Int16
    ensures r.Ok? ==> r.value == Transcoder(frameRate, channels, dtype.GetOr(Int16), 0)
  {
    var d := if dtype.Some? then dtype.value else Int16;
    if d in SupportedDtypes() then Ok(Transcoder(frameRate, channels, d, 0))
    else Err(AssertionError)
  }

  /** Python truth value of a numpy dtype: `len(dtype)` counts the fields of
      a structured dtype, so every plain dtype, and each one modelled here,
      is falsy. */
  predicate DtypeTruthy(d: DType)
  {
    false
  }

  /** The constructor as written, `dtype = dtype or np.dtype("int16")`: a
      falsy dtype argument is replaced by the default like a missing one.
      Since every dtype is falsy, whatever is passed the result is an int16
      transcoder and the assertion never fails. */
  function NewAsWritten(frameRate: int, channels: nat, dtype: Option<DType>): (r: Result<Transcoder>)
    ensures r == Ok(Transcoder(frameRate, channels, Int16, 0))
  {
    var d := if dtype.Some? && DtypeTruthy(dtype.value) then dtype.value else Int16;
    if d in SupportedDtypes() then Ok(Transcoder(frameRate, channels, d, 0))
    else Err(AssertionError)
  }

  /** With the constructor as written a float32 request yields an int16
      transcoder, and an unsupported int8 request is accepted instead of
      rejected; the corrected constructor honours and checks the argument. */
  lemma NewAsWrittenIgnoresDtype(frameRate: int, channels: nat)
    ensures NewAsWritten(frameRate, channels, Some(Float32)) == Ok(Transcoder(frameRate, channels, Int16, 0))
    ensures New(frameRate, channels, Some(Float32)) == Ok(Transcoder(frameRate, channels, Float32, 0))
    ensures NewAsWritten(frameRate, channels, Some(Int8)).Ok?
    ensures New(frameRate, channels, Some(Int8)) == Err(AssertionError)
  {
  }

  /** `pyaudio_format`: float32, int16, int32 and uint8 map to the PortAudio
      format of the same name; float64, although supported, raises
      ValueError. */
  function PyaudioFormat(t: Transcoder): (r: Result<PaFormat>)
    ensures r.Ok? <==> t.dtype in {Float32, Int16, Int32, UInt8}
    ensures r.Err? ==> r.error.ValueError?
    ensures t.dtype == Float32 ==> r == Ok(PaFloat32)
    ensures t.dtype == Int16 ==> r == Ok(PaInt16)
    ensures t.dtype == Int32 ==> r == Ok(PaInt32)
    ensures t.dtype == UInt8 ==> r == Ok(PaUInt8)
  {
    if t.dtype in DtypeToPyaudioFormat() then Ok(DtypeToPyaudioFormat()[t.dtype])
    else Err(ValueError("Couldn't map dtype to a PyAudio format"))
  }

  /** A sample of the PyAudio format takes as many bytes as an element of
      the transcoder's dtype. */
  lemma PyaudioFormatWidth(t: Transcoder)
    requires PyaudioFormat(t).Ok?
    ensures SampleSize(PyaudioFormat(t).value) == (if t.dtype == UInt8 then 1 else if t.dtype == Int16 then 2 else 4)
  {
  }

  /** `pyav_format`: the planar member of the dtype's pair; PyAV's own table
      maps that name back to the same dtype. */
  function PyavFormat(t: Transcoder): (r: Result<string>)
    ensures r.Ok? <==> t.dtype in SupportedDtypes()
    ensures r.Err? ==> r.error.ValueError?
    ensures r.Ok? ==> IsPlanar(r.value)
    ensures r.Ok? ==> r.value in PyAVCodec.FormatDtypes() && PyAVCodec.FormatDtypes()[r.value] == t.dtype
  {
    if t.dtype in DtypeToPyavFormats() then Ok(DtypeToPyavFormats()[t.dtype].1)
    else Err(ValueError("Couldn't map dtype to a PyAV format"))
  }

  /** Both names of a dtype's pair are known to PyAV and map back to that
      dtype; the first is the packed format and the second the planar one. */
  lemma FormatFamilies(d: DType)
    requires d in DtypeToPyavFormats()
    ensures var (packed, planar) := DtypeToPyavFormats()[d];
            && packed in PyAVCodec.FormatDtypes() && PyAVCodec.FormatDtypes()[packed] == d && !IsPlanar(packed)
            && planar in PyAVCodec.FormatDtypes() && PyAVCodec.FormatDtypes()[planar] == d && IsPlanar(planar)
  {
  }

  /** `pyav_layout`: defined exactly for 1 to 8 and for 16 channels. */
  function PyavLayout(t: Transcoder): (r: Result<string>)
    ensures r.Ok? <==> (1 <= t.channels <= 8 || t.channels == 16)
    ensures r.Err? ==> r.error.ValueError?
    ensures r.Ok? ==> r.value == ChannelLayouts()[t.channels]
  {
    if t.channels in ChannelLayouts() then Ok(ChannelLayouts()[t.channels])
    else Err(ValueError("Couldn't map channels to a PyAV layout"))
  }

  /** What `transcode` returns, together with the transcoder's next state. */
  datatype Transcoded = Transcoded(frame: AudioFrame, timestamp: int, next: Transcoder)

  /** `transcode`: view the buffer as (frames, channels), flatten it in
      column-major order, view that as (channels, frames) and build a planar
      frame from the rows. The frame's pts is its sample count times the
      number of frames transcoded before it, and the returned timestamp is
      the callback's ADC time. Only a successful call advances the counter. */
  function Transcode(t: Transcoder, inFrame: seq<int>, timeInfo: TimeInfo): (r: Result<Transcoded>)
    ensures t.channels == 0 ==> r == Err(ZeroDivisionError)
    ensures t.channels > 0 && |inFrame| % t.channels != 0 ==> r == Err(AssertionError)
    ensures t.channels > 0 && |inFrame| % t.channels == 0 && PyavFormat(t).Err? ==> r.Err? && r.error.ValueError?
    ensures t.channels > 0 && |inFrame| % t.channels == 0 && PyavFormat(t).Ok? && PyavLayout(t).Err? ==>
              r.Err? && r.error.ValueError?
    ensures r.Ok? <==> && t.channels > 0 && |inFrame| % t.channels == 0
                       && PyavFormat(t).Ok? && PyavLayout(t).Ok? && t.frameRate != 0
    ensures r.Ok? ==> && |inFrame| == (|inFrame| / t.channels) * t.channels
                      && r.value.frame.samples == |inFrame| / t.channels
                      && r.value.frame.planes == Transpose(Chunk(inFrame, |inFrame| / t.channels, t.channels), t.channels)
    ensures r.Ok? ==> && r.value.frame.format == PyavFormat(t).value
                      && r.value.frame.layout == PyavLayout(t).value
                      && r.value.frame.rate == Some(t.frameRate)
                      && r.value.frame.timeBase == Reciprocal(t.frameRate).ToOption()
                      && r.value.frame.pts == Some(r.value.frame.samples * t.encoded)
    ensures r.Ok? ==> r.value.timestamp == timeInfo.inputBufferAdcTime
    ensures r.Ok? ==> r.value.next == t.(encoded := t.encoded + 1)
  {
    if t.channels == 0 then Err(ZeroDivisionError)
    else if |inFrame| % t.channels != 0 then Err(AssertionError)
    else
      var frames := |inFrame| / t.channels;
      PyAudioCodec.DivisibleSize(|inFrame|, t.channels);
      var interleaved := Array(t.dtype, [frames, t.channels], inFrame);
      var flat := FlattenF(interleaved);
      FlattenFRows(interleaved);
      var planar := Array(t.dtype, [t.channels, frames], flat);
      var format :- PyavFormat(t);
      var samples :- FrameSamples(IsPlanar(format), planar.shape, t.channels);
      var layout :- PyavLayout(t);
      var timeBase :- Reciprocal(t.frameRate);
      var frame := AudioFrame(format, layout, samples, Rows(planar),
                              Some(t.frameRate), Some(samples * t.encoded), Some(timeBase));
      Ok(Transcoded(frame, timeInfo.inputBufferAdcTime, t.(encoded := t.encoded + 1)))
  }

  /** De-interleave: sample i of plane j is buffer sample i*channels + j. */
  lemma TranscodeDeinterleave(t: Transcoder, inFrame: seq<int>, timeInfo: TimeInfo, i: nat, j: nat)
    requires Transcode(t, inFrame, timeInfo).Ok?
    requires j < t.channels && i < Transcode(t, inFrame, timeInfo).value.frame.samples
    ensures var planes := Transcode(t, inFrame, timeInfo).value.frame.planes;
            && j < |planes| && i < |planes[j]| && Offset(i, j, t.channels) < |inFrame|
            && planes[j][i] == inFrame[Offset(i, j, t.channels)]
  {
    var frames := |inFrame| / t.channels;
    var a := Array(t.dtype, [frames, t.channels], inFrame);
    RowsElement(a, i, j);
  }

  /** Interleaving the planes of a transcoded frame again restores the
      buffer: the planar frame loses and reorders nothing. */
  lemma TranscodeInterleave(t: Transcoder, inFrame: seq<int>, timeInfo: TimeInfo)
    requires Transcode(t, inFrame, timeInfo).Ok?
    ensures Concat(Transpose(Transcode(t, inFrame, timeInfo).value.frame.planes,
                             Transcode(t, inFrame, timeInfo).value.frame.samples)) == inFrame
  {
    var frames := |inFrame| / t.channels;
    var rows := Chunk(inFrame, frames, t.channels);
    var planes := Transcode(t, inFrame, timeInfo).value.frame.planes;
    assert planes == Transpose(rows, t.channels);
    TransposeTwice(rows, t.channels);
    ConcatChunk(inFrame, frames, t.channels);
  }

  /** The transcoder after `k` more successful calls. */
  function Advance(t: Transcoder, k: nat): (r: Transcoder)
    ensures r.frameRate == t.frameRate && r.channels == t.channels && r.dtype == t.dtype && r.encoded == t.encoded + k
  {
    t.(encoded := t.encoded + k)
  }

  /** A transcode step on one queued item: the buffer and its time
      information. */
  type Step = (Transcoder, (seq<int>, TimeInfo)) -> Result<Transcoded>

  /** Every successful call of `step` advances the counter by one. */
  ghost predicate Counts(step: Step)
  {
    forall t: Transcoder, item: (seq<int>, TimeInfo) :: step(t, item).Ok? ==> step(t, item).value.next == Advance(t, 1)
  }

  /** Running a step over items in order, threading the transcoder through;
      the first failure ends the run. Yields each call's result and the
      final transcoder. */
  function Run(step: Step, t: Transcoder, items: seq<(seq<int>, TimeInfo)>): (r: Result<(seq<Transcoded>, Transcoder)>)
    ensures r.Ok? ==> |r.value.0| == |items|
    decreases |items|
  {
    if |items| == 0 then Ok(([], t))
    else
      match step(t, items[0])
      case Err(e) => Err(e)
      case Ok(first) =>
        var rest := Run(step, first.next, items[1..]);
        if rest.Err? then Err(rest.error)
        else Ok(([first] + rest.value.0, rest.value.1))
  }

  /** A run of a counting step ends with the counter advanced once per item. */
  lemma {:induction false} RunCounts(step: Step, t: Transcoder, items: seq<(seq<int>, TimeInfo)>)
    requires Counts(step)
    ensures Run(step, t, items).Ok? ==> Run(step, t, items).value.1 == Advance(t, |items|)
    decreases |items|
  {
    if |items| > 0 && step(t, items[0]).Ok? {
      RunCounts(step, step(t, items[0]).value.next, items[1..]);
    }
  }

  /** Element k of a successful run of a counting step is what the step
      returns on item k when k calls succeeded before it. */
  lemma {:induction false} RunAt(step: Step, t: Transcoder, items: seq<(seq<int>, TimeInfo)>, k: nat)
    requires Counts(step) && Run(step, t, items).Ok? && k < |items|
    ensures step(Advance(t, k), items[k]).Ok?
    ensures Run(step, t, items).value.0[k] == step(Advance(t, k), items[k]).value
    decreases k
  {
    var next := Advance(t, 1);
    assert step(t, items[0]).value.next == next;
    if k == 0 {
      assert Advance(t, 0) == t;
    } else {
      assert Run(step, t, items).value.0[k] == Run(step, next, items[1..]).value.0[k - 1];
      RunAt(step, next, items[1..], k - 1);
      assert Advance(next, k - 1) == Advance(t, k);
      assert items[1..][k - 1] == items[k];
    }
  }

  /** `transcode` as a step. */
  function TranscodeItem(t: Transcoder, item: (seq<int>, TimeInfo)): Result<Transcoded>
  {
    Transcode(t, item.0, item.1)
  }

  lemma TranscodeCounts()
    ensures Counts(TranscodeItem)
  {
  }

  /** Transcoding a sequence of buffers in order, as the sink's loop does;
      the first failure ends the run. Yields each frame with its timestamp,
      and the final transcoder. */
  function TranscodeSeq(t: Transcoder, items: seq<(seq<int>, TimeInfo)>): (r: Result<(seq<Transcoded>, Transcoder)>)
    ensures r.Ok? ==> |r.value.0| == |items| && r.value.1 == t.(encoded := t.encoded + |items|)
  {
    TranscodeCounts();
    RunCounts(TranscodeItem, t, items);
    Run(TranscodeItem, t, items)
  }

  /** Element k of a successful run is what a single `transcode` call
      returns when k frames were transcoded before it. */
  lemma TranscodeSeqAt(t: Transcoder, items: seq<(seq<int>, TimeInfo)>, k: nat)
    requires TranscodeSeq(t, items).Ok? && k < |items|
    ensures Transcode(Advance(t, k), items[k].0, items[k].1).Ok?
    ensures TranscodeSeq(t, items).value.0[k] == Transcode(Advance(t, k), items[k].0, items[k].1).value
  {
    TranscodeCounts();
    RunAt(TranscodeItem, t, items, k);
  }

  /** The k-th frame of a run from a fresh transcoder carries pts = its
      sample count times k; with a constant buffer of `n` samples per
      channel the pts are 0, n, 2n, ... */
  lemma TranscodeSeqPts(t: Transcoder, items: seq<(seq<int>, TimeInfo)>, n: nat, k: nat)
    requires t.encoded == 0 && TranscodeSeq(t, items).Ok?
    requires forall m :: 0 <= m < |items| ==> |items[m].0| == n * t.channels
    requires k < |items|
    ensures TranscodeSeq(t, items).value.0[k].frame.pts == Some(n * k)
  {
    TranscodeSeqAt(t, items, k);
    TranscodePts(Advance(t, k), items[k].0, items[k].1, n);
  }

  /** A buffer of `n` samples per channel gets pts = n times the frames
      transcoded before it. */
  lemma TranscodePts(t: Transcoder, inFrame: seq<int>, timeInfo: TimeInfo, n: nat)
    requires Transcode(t, inFrame, timeInfo).Ok? && |inFrame| == n * t.channels
    ensures Transcode(t, inFrame, timeInfo).value.frame.pts == Some(n * t.encoded)
  {
    PyAudioCodec.MulDiv(n, t.channels);
  }

  /** A run's outcome with frames already produced put in front. */
  function Prepend(done: seq<Transcoded>, r: Result<(seq<Transcoded>, Transcoder)>): Result<(seq<Transcoded>, Transcoder)>
  {
    if r.Err? then r else Ok((done + r.value.0, r.value.1))
  }

  /** A run computed by a loop that threads the transcoder through. */
  method RunLoop(step: Step, t: Transcoder, items: seq<(seq<int>, TimeInfo)>) returns (r: Result<(seq<Transcoded>, Transcoder)>)
    ensures r == Run(step, t, items)
  {
    var cur := t;
    var out: seq<Transcoded> := [];
    var i := 0;
    assert items[0..] == items;
    assert Run(step, t, items).Ok? ==> [] + Run(step, t, items).value.0 == Run(step, t, items).value.0;
    while i < |items|
      invariant 0 <= i <= |items|
      invariant Run(step, t, items) == Prepend(out, Run(step, cur, items[i..]))
    {
      var stepped := step(cur, items[i]);
      assert items[i..][0] == items[i] && items[i..][1..] == items[i + 1..];
      if stepped.Err? {
        return Err(stepped.error);
      }
      ghost var rest := Run(step, stepped.value.next, items[i + 1..]);
      assert rest.Ok? ==> out + ([stepped.value] + rest.value.0) == (out + [stepped.value]) + rest.value.0;
      out := out + [stepped.value];
      cur := stepped.value.next;
      i := i + 1;
    }
    assert out + [] == out;
    r := Ok((out, cur));
  }

  /** The sink's loop over a queue of buffers, with the package's transcoder. */
  method TranscodeAll(t: Transcoder, items: seq<(seq<int>, TimeInfo)>) returns (r: Result<(seq<Transcoded>, Transcoder)>)
    ensures r == TranscodeSeq(t, items)
  {
    r := RunLoop(TranscodeItem, t, items);
  }
}
