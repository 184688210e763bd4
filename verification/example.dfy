/** The stand-alone example examples/pyaudio_in_pyav_out_api.py carries its
    own copies of the pipeline. Its sink's loop is the package's, but before
    taking any item the thread builds the stream's time base `1/rate`, so a
    zero rate kills it with ZeroDivisionError (`Record`). Its
    source differs in its callback and in owning a PyAudio session of its
    own instead of borrowing one from `PyAudioManager`
    (`Source.ExampleCallback`, `Source.ExampleStart`, `Source.ExampleStop`).
    What differs besides is its transcoder `PyAudio2PyAV`, which stamps no
    pts and no time base and whose queues alias, and its `AudioCapture`,
    which is built on the older device directory. */
module Example {
  import opened Wrappers
  import opened NdArray
  import opened PortAudio
  import opened Av
  import opened Fifo
  import opened Container
  import Transcoder
  import PyAudioCodec
  import Devices
  import Sink

  /** A queue object: the two created once, when the constructor was
      defined, as its default arguments, or one the caller passed. */
  datatype QueueRef = DefaultIn | DefaultOut | Given(id: nat)

  datatype PyAudio2PyAV = PyAudio2PyAV(frameRate: int, channels: nat, dtype: DType, inQueue: QueueRef, outQueue: QueueRef)

  /** The constructor: dtype defaults to int16 and must be supported; an
      omitted queue is the shared default object. */
  function New(frameRate: int, channels: nat, dtype: Option<DType>, inQueue: Option<QueueRef>, outQueue: Option<QueueRef>): (r: Result<PyAudio2PyAV>)
    ensures r.Ok? <==> dtype.GetOr(Int16) in Transcoder.SupportedDtypes()
    ensures r.Err? ==> r.error == AssertionError
    ensures r.Ok? ==> r.value.frameRate == frameRate && r.value.channels == channels && r.value.dtype == dtype.GetOr(Int16)
    ensures r.Ok? ==> r.value.inQueue == inQueue.GetOr(DefaultIn) && r.value.outQueue == outQueue.GetOr(DefaultOut)
  {
    var d := dtype.GetOr(Int16);
    if d !in Transcoder.SupportedDtypes() then Err(AssertionError)
    else Ok(PyAudio2PyAV(frameRate, channels, d, inQueue.GetOr(DefaultIn), outQueue.GetOr(DefaultOut)))
  }

  /** `out_queue` returns the in-queue, not the out-queue. */
  function OutQueue(t: PyAudio2PyAV): (q: QueueRef)
    ensures q == t.inQueue
    ensures t.outQueue != t.inQueue ==> q != t.outQueue
  {
    t.inQueue
  }

  /** Whatever queue was given as `out_queue`, readers of `out_queue` get
      the in-queue; and every transcoder built with the default queues
      reads and writes the one default queue object. */
  lemma QueuesAlias(a: PyAudio2PyAV, b: PyAudio2PyAV)
    requires a.inQueue == DefaultIn && b.inQueue == DefaultIn
    ensures OutQueue(a) == a.inQueue
    ensures a.outQueue != a.inQueue ==> OutQueue(a) != a.outQueue
    ensures OutQueue(a) == OutQueue(b) == b.inQueue
  {
  }

  /** The transcoder's state as the package class sees it, for its format
      tables, which are the same. */
  function AsPackage(t: PyAudio2PyAV, encoded: nat): (p: Transcoder.Transcoder)
    ensures p.frameRate == t.frameRate && p.channels == t.channels && p.dtype == t.dtype && p.encoded == encoded
  {
    Transcoder.Transcoder(t.frameRate, t.channels, t.dtype, encoded)
  }

  /** `transcode`: the package's de-interleaving, but the frame gets only a
      rate (no pts, no time base) and the given timestamp is passed on. */
  function Transcode(t: PyAudio2PyAV, inFrame: seq<int>, timestamp: int): (r: Result<(AudioFrame, int)>)
    ensures t.channels == 0 ==> r == Err(ZeroDivisionError)
    ensures t.channels > 0 && |inFrame| % t.channels != 0 ==> r == Err(AssertionError)
    ensures r.Ok? <==> && t.channels > 0 && |inFrame| % t.channels == 0
                       && Transcoder.PyavFormat(AsPackage(t, 0)).Ok? && Transcoder.PyavLayout(AsPackage(t, 0)).Ok?
    ensures r.Ok? ==> && r.value.1 == timestamp
                      && r.value.0.pts.None? && r.value.0.timeBase.None? && r.value.0.rate == Some(t.frameRate)
                      && r.value.0.samples == |inFrame| / t.channels
                      && r.value.0.planes == Transpose(Chunk(inFrame, |inFrame| / t.channels, t.channels), t.channels)
  {
    if t.channels == 0 then Err(ZeroDivisionError)
    else if |inFrame| % t.channels != 0 then Err(AssertionError)
    else
      var frames := |inFrame| / t.channels;
      PyAudioCodec.DivisibleSize(|inFrame|, t.channels);
      var interleaved := Array(t.dtype, [frames, t.channels], inFrame);
      FlattenFRows(interleaved);
      var planar := Array(t.dtype, [t.channels, frames], FlattenF(interleaved));
      var format :- Transcoder.PyavFormat(AsPackage(t, 0));
      var samples :- FrameSamples(IsPlanar(format), planar.shape, t.channels);
      var layout :- Transcoder.PyavLayout(AsPackage(t, 0));
      Ok((AudioFrame(format, layout, samples, Rows(planar), Some(t.frameRate), None, None), timestamp))
  }

  /** Wherever the package's transcoder succeeds, the example's makes the
      same frame up to the pts and time base it does not set, and it also
      accepts a zero frame rate, which the package rejects. */
  lemma TranscodeMatchesPackage(t: PyAudio2PyAV, encoded: nat, inFrame: seq<int>, timeInfo: TimeInfo)
    ensures Transcoder.Transcode(AsPackage(t, encoded), inFrame, timeInfo).Ok? ==>
              Transcode(t, inFrame, timeInfo.inputBufferAdcTime)
                == Ok((Transcoder.Transcode(AsPackage(t, encoded), inFrame, timeInfo).value.frame.(pts := None, timeBase := None),
                       timeInfo.inputBufferAdcTime))
    ensures Transcode(t, inFrame, timeInfo.inputBufferAdcTime).Ok? ==>
              (Transcoder.Transcode(AsPackage(t, encoded), inFrame, timeInfo).Ok? <==> t.frameRate != 0)
  {
    assert Transcoder.PyavFormat(AsPackage(t, encoded)) == Transcoder.PyavFormat(AsPackage(t, 0));
    assert Transcoder.PyavLayout(AsPackage(t, encoded)) == Transcoder.PyavLayout(AsPackage(t, 0));
  }

  /** The example's transcoder as the sink loop's step; it keeps no state. */
  function Step(t: PyAudio2PyAV, item: (seq<int>, int)): (r: Result<(AudioFrame, PyAudio2PyAV)>)
    ensures r.Ok? <==> Transcode(t, item.0, item.1).Ok?
    ensures r.Ok? ==> r.value.1 == t && r.value.0 == Transcode(t, item.0, item.1).value.0
  {
    var (frame, _) :- Transcode(t, item.0, item.1);
    Ok((frame, t))
  }

  /** The example's sink loop with its transcoder: item k of the queue
      becomes frame k of the file, pts cleared, and the transcoder is left
      as it was. */
  lemma {:induction false} StepFrames(t: PyAudio2PyAV, items: seq<(seq<int>, int)>)
    requires forall k :: 0 <= k < |items| ==> Transcode(t, items[k].0, items[k].1).Ok?
    ensures Sink.Frames(Step, t, items).Ok?
    ensures Sink.Frames(Step, t, items).value.1 == t
    ensures forall k :: 0 <= k < |items| ==> Sink.Frames(Step, t, items).value.0[k] == Transcode(t, items[k].0, items[k].1).value.0
  {
    assert forall k :: 0 <= k < |items| ==> Step(t, items[k]).Ok? && Step(t, items[k]).value.1 == t;
    Sink.FramesStateless(Step, t, items);
  }

  /** The example sink's record thread. Before it takes any item it builds
      `Fraction(1, self._frame_rate)` for the stream's time base, so a zero
      rate kills the thread with ZeroDivisionError and no item is taken;
      otherwise its loop is the package's loop with the example transcoder
      as its step, on a freshly opened container. */
  function Record(t: PyAudio2PyAV, enc: Encoder, path: string, frameRate: int, items: seq<(seq<int>, int)>): (r: Result<Sink.Loop<PyAudio2PyAV>>)
    ensures frameRate == 0 ==> r == Err(ZeroDivisionError)
    ensures frameRate != 0 ==> r == Sink.Record(Step, enc, Sink.Loop(Open(path, frameRate), t), items)
  {
    var timeBase :- Reciprocal(frameRate);
    Sink.Record(Step, enc, Sink.Loop(Open(path, frameRate), t), items)
  }

  /** What the example's file receives: nothing at a zero rate; otherwise,
      when every queued buffer transcodes, buffer k's frame with pts cleared
      as input k, then exactly one flush, and the file is closed. */
  lemma RecordFrames(t: PyAudio2PyAV, enc: Encoder, path: string, frameRate: int, items: seq<(seq<int>, int)>)
    requires forall k :: 0 <= k < |items| ==> Transcode(t, items[k].0, items[k].1).Ok?
    ensures frameRate == 0 ==> Record(t, enc, path, frameRate, items) == Err(ZeroDivisionError)
    ensures frameRate != 0 ==>
              var r := Record(t, enc, path, frameRate, items);
              && r.Ok? && r.value.container.closed && r.value.state == t
              && |r.value.container.inputs| == |items| + 1
              && r.value.container.inputs[|items|] == None
              && forall k :: 0 <= k < |items| ==>
                   r.value.container.inputs[k] == Some(Transcode(t, items[k].0, items[k].1).value.0.(pts := None))
  {
    if frameRate != 0 {
      StepFrames(t, items);
      var frames := Sink.Frames(Step, t, items).value.0;
      var inputs := Record(t, enc, path, frameRate, items).value.container.inputs;
      assert inputs == Unstamped(frames) + [None];
      forall k | 0 <= k < |items|
        ensures inputs[k] == Some(Transcode(t, items[k].0, items[k].1).value.0.(pts := None))
      {
        assert inputs[k] == Unstamped(frames)[k];
      }
    }
  }

  /** `AudioCapture`: the device index and path it records from and to, its
      transcoder, the queue the source writes and the queue the sink reads,
      and the formats they were given. */
  datatype AudioCapture = AudioCapture(
    deviceIndex: int,
    path: string,
    transcoder: PyAudio2PyAV,
    sourceQueue: QueueRef,
    sinkQueue: QueueRef,
    sourceFormat: PaFormat,
    sinkFormat: string)

  /** The constructor: a transcoder with the default dtype and queues, the
      source writing to its `in_queue`, the sink reading its `out_queue`. */
  function NewCapture(frameRate: int, channels: nat, deviceIndex: int, path: string): (r: AudioCapture)
    ensures r.transcoder == PyAudio2PyAV(frameRate, channels, Int16, DefaultIn, DefaultOut)
    ensures r.sourceFormat == PaInt16 && r.sinkFormat == "s16p"
    ensures r.sourceQueue == r.sinkQueue == DefaultIn
  {
    var t := New(frameRate, channels, None, None, None).value;
    AudioCapture(deviceIndex, path, t, t.inQueue, OutQueue(t),
                 Transcoder.PyaudioFormat(AsPackage(t, 0)).value, Transcoder.PyavFormat(AsPackage(t, 0)).value)
  }

  /** `from_input_device`: the older directory's input lookup, then the
      device's rate and input channel count, both of which must be present
      (this copy's `DeviceInfo` has no defaults). */
  function FromInputDevice(os: Devices.OS, listing: seq<Devices.DeviceInfo>, inName: string, outPath: string): (r: Result<AudioCapture>)
    ensures Devices.LegacyInputInfo(os, listing, inName).Err? ==> r == Err(Devices.LegacyInputInfo(os, listing, inName).error)
    ensures Devices.LegacyInputInfo(os, listing, inName).Ok? && Devices.LegacyInputInfo(os, listing, inName).value.defaultSampleRate.None? ==>
              r == Err(KeyError)
    ensures r.Ok? ==>
              var d := Devices.LegacyInputInfo(os, listing, inName).value;
              && r.value.deviceIndex == d.index && r.value.path == outPath
              && r.value.transcoder.frameRate == d.defaultSampleRate.value
              && r.value.transcoder.channels == d.maxInputChannels.value
  {
    var d :- Devices.LegacyInputInfo(os, listing, inName);
    if d.defaultSampleRate.None? || d.maxInputChannels.None? then Err(KeyError)
    else Ok(NewCapture(d.defaultSampleRate.value, d.maxInputChannels.value, d.index, outPath))
  }
}
