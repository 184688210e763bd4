/** `PyAudio2PyAVCapture` (pupil_audio/nonblocking/pyaudio2pyav.py): looks
    the input device up by name, builds a transcoder, and wires a PyAudio
    source and a PyAV file sink to one unbounded queue. */
module Capture {
  import opened Wrappers
  import opened PortAudio
  import opened Fifo
  import opened Container
  import Devices
  import Transcoder
  import NdArray
  import Src = Source
  import Sink
  import Mgr = Manager

  datatype Capture = Capture(
    transcoder: Transcoder.Transcoder,
    source: Src.Source,
    sink: Sink.Sink<Transcoder.Transcoder>,
    queue: Queue<Src.Item>)

  /** Source and sink agree with the transcoder and share one unbounded
      queue; the sink's thread exists exactly while it runs. */
  predicate Valid(c: Capture)
  {
    && Sink.Valid(c.sink)
    && c.queue.maxsize <= 0
    && c.source.frameRate == c.transcoder.frameRate == c.sink.frameRate
    && c.source.channels == c.transcoder.channels
    && Transcoder.PyaudioFormat(c.transcoder) == Ok(c.source.format)
  }

  /** `frame_rate or device.default_sample_rate`: a missing or zero rate
      falls back to the device's, whose absence is a KeyError. */
  function FrameRate(frameRate: Option<int>, device: Devices.DeviceInfo): (r: Result<int>)
    ensures frameRate.Some? && frameRate.value != 0 ==> r == Ok(frameRate.value)
    ensures (frameRate.None? || frameRate.value == 0) && device.defaultSampleRate.None? ==> r == Err(KeyError)
    ensures (frameRate.None? || frameRate.value == 0) && device.defaultSampleRate.Some? ==>
              r == Ok(device.defaultSampleRate.value)
  {
    if frameRate.Some? && frameRate.value != 0 then Ok(frameRate.value)
    else if device.defaultSampleRate.None? then Err(KeyError)
    else Ok(device.defaultSampleRate.value)
  }

  /** `channels or device.max_input_channels` */
  function Channels(channels: Option<nat>, device: Devices.DeviceInfo): (r: nat)
    requires Devices.IsInput(device)
    ensures channels.Some? && channels.value != 0 ==> r == channels.value
    ensures channels.None? || channels.value == 0 ==> r == Devices.MaxInputChannels(device) && r > 0
  {
    if channels.Some? && channels.value != 0 then channels.value
    else Devices.MaxInputChannels(device)
  }

  /** The constructor once the device is found: rate and channel defaults,
      the transcoder, then the formats the source and sink are created with.
      The first failing step's error is the constructor's. */
  function FromDevice(device: Devices.DeviceInfo, outPath: string,
                      frameRate: Option<int>, channels: Option<nat>, dtype: Option<NdArray.DType>): (r: Result<Capture>)
    requires Devices.IsInput(device)
    ensures FrameRate(frameRate, device).Err? ==> r == Err(KeyError)
    ensures r.Ok? <==>
              && FrameRate(frameRate, device).Ok?
              && var t := Transcoder.New(FrameRate(frameRate, device).value, Channels(channels, device), dtype);
                 && t.Ok? && Transcoder.PyaudioFormat(t.value).Ok? && Transcoder.PyavFormat(t.value).Ok?
    ensures r.Ok? ==>
              && Valid(r.value)
              && r.value.source.deviceIndex == device.index
              && r.value.transcoder == Transcoder.New(FrameRate(frameRate, device).value, Channels(channels, device), dtype).value
              && r.value.sink == Sink.New(outPath, r.value.transcoder.frameRate)
              && r.value.queue.items == []
              && !Src.IsRunning(r.value.source) && r.value.source.session.None?
  {
    var rate :- FrameRate(frameRate, device);
    var t :- Transcoder.New(rate, Channels(channels, device), dtype);
    var paFormat :- Transcoder.PyaudioFormat(t);
    var _ :- Transcoder.PyavFormat(t);
    Ok(Capture(t, Src.New(device.index, t.frameRate, t.channels, paFormat),
               Sink.New(outPath, t.frameRate), Unbounded()))
  }

  /** The constructor once the device is found, with the transcoder built
      as written (`Transcoder.NewAsWritten`): whatever dtype is asked for,
      the capture records int16, its source opens a paInt16 stream and
      construction fails only on a missing rate. Where the dtype is left out
      or is int16 it is the corrected `FromDevice`. */
  function FromDeviceAsWritten(device: Devices.DeviceInfo, outPath: string,
                               frameRate: Option<int>, channels: Option<nat>, dtype: Option<NdArray.DType>): (r: Result<Capture>)
    requires Devices.IsInput(device)
    ensures r.Ok? <==> FrameRate(frameRate, device).Ok?
    ensures r.Err? ==> r == Err(KeyError)
    ensures r.Ok? ==> && Valid(r.value)
                      && r.value.transcoder == Transcoder.Transcoder(FrameRate(frameRate, device).value, Channels(channels, device), NdArray.Int16, 0)
                      && r.value.source.format == PaInt16
                      && r.value.source.deviceIndex == device.index
                      && r.value.queue.items == []
    ensures dtype.None? || dtype == Some(NdArray.Int16) ==> r == FromDevice(device, outPath, frameRate, channels, dtype)
  {
    var rate :- FrameRate(frameRate, device);
    // int16 always has a PyAudio and a PyAV format, so only the rate can fail
    var t := Transcoder.NewAsWritten(rate, Channels(channels, device), dtype).value;
    var paFormat := Transcoder.PyaudioFormat(t).value;
    Ok(Capture(t, Src.New(device.index, t.frameRate, t.channels, paFormat),
               Sink.New(outPath, t.frameRate), Unbounded()))
  }

  /** The constructor: `DeviceInfo.named_input`, whose error comes first,
      then `FromDevice`. */
  function New(os: Devices.OS, lookup: Devices.ApiType -> Option<Devices.HostApiInfo>,
               query: (int, int) -> Option<Devices.DeviceInfo>,
               inName: string, outPath: string,
               frameRate: Option<int>, channels: Option<nat>, dtype: Option<NdArray.DType>): (r: Result<Capture>)
    ensures Devices.NamedInput(os, lookup, query, inName).Err? ==> r == Err(Devices.NamedInput(os, lookup, query, inName).error)
    ensures Devices.NamedInput(os, lookup, query, inName).Ok? ==>
              r == FromDevice(Devices.NamedInput(os, lookup, query, inName).value, outPath, frameRate, channels, dtype)
    ensures r.Ok? ==> Valid(r.value) && r.value.transcoder.encoded == 0 && r.value.queue.items == []
  {
    var device :- Devices.NamedInput(os, lookup, query, inName);
    FromDevice(device, outPath, frameRate, channels, dtype)
  }

  /** `start`: the sink first, then the source. The sink's thread starts
      from the transcoder as it now is. */
  function Start(c: Capture, m: Mgr.Manager): (r: (Capture, Mgr.Manager))
    requires Valid(c) && Mgr.Valid(m)
    ensures Valid(r.0) && Mgr.Valid(r.1)
    ensures r.0.sink.running && Src.IsRunning(r.0.source)
    ensures r.0.queue == c.queue && r.0.transcoder == c.transcoder
    ensures !c.sink.running ==> r.0.sink.thread == Some(Sink.Loop(Open(c.sink.path, c.sink.frameRate), c.transcoder))
    ensures !c.sink.running ==> r.0.sink.died.None?
  {
    var sink := Sink.Start(c.sink, c.transcoder);
    var (source, m1) := Src.Start(c.source, m);
    (c.(sink := sink, source := source), m1)
  }

  /** One PortAudio callback of the running source. */
  function Callback(c: Capture, inData: seq<int>, frameCount: int, timeInfo: TimeInfo): (r: Result<Capture>)
    requires Valid(c)
    ensures r.Ok? <==> |inData| == frameCount * c.transcoder.channels
    ensures r.Ok? ==> Valid(r.value) && r.value == c.(queue := c.queue.(items := c.queue.items + [(inData, timeInfo)]))
  {
    Src.CallbackCountsSamples(c.source, c.queue, inData, frameCount, timeInfo);
    var reply :- Src.Callback(c.source, c.queue, inData, frameCount, timeInfo);
    Ok(c.(queue := reply.queue))
  }

  /** Callbacks one after the other, each with the buffer, its frame count
      and its time information. Callbacks only append to the queue: a feed
      succeeds exactly when every buffer is well sized, and then queues
      each, in call order, and changes nothing else. */
  function Feed(c: Capture, calls: seq<(seq<int>, int, TimeInfo)>): (r: Result<Capture>)
    requires Valid(c)
    ensures r.Ok? ==> Valid(r.value)
    ensures r.Ok? <==> WellSized(c, calls)
    ensures r.Ok? ==> r.value == Enqueued(c, Queued(calls))
    decreases |calls|
  {
    if |calls| == 0 then
      assert c.queue.items + Queued(calls) == c.queue.items;
      Ok(c)
    else
      WellSizedCons(c.transcoder.channels, calls);
      var c1 :- Callback(c, calls[0].0, calls[0].1, calls[0].2);
      EnqueuedTwice(c, [(calls[0].0, calls[0].2)], Queued(calls[1..]));
      QueuedCons(calls);
      Feed(c1, calls[1..])
  }

  /** What the callbacks queue: each buffer with its time information. */
  function Queued(calls: seq<(seq<int>, int, TimeInfo)>): (r: seq<Src.Item>)
    ensures |r| == |calls|
    ensures forall k :: 0 <= k < |calls| ==> r[k] == (calls[k].0, calls[k].2)
  {
    seq(|calls|, k requires 0 <= k < |calls| => (calls[k].0, calls[k].2))
  }

  /** Every callback of a feed passes exactly when every buffer's length
      matches its frame count. */
  predicate WellSized(c: Capture, calls: seq<(seq<int>, int, TimeInfo)>)
  {
    forall k :: 0 <= k < |calls| ==> Sized(calls[k], c.transcoder.channels)
  }

  /** The callback's check: the buffer holds `frameCount` frames. */
  predicate Sized(call: (seq<int>, int, TimeInfo), channels: nat)
  {
    |call.0| == call.1 * channels
  }

  /** The capture with `items` appended to its queue. */
  function Enqueued(c: Capture, items: seq<Src.Item>): (r: Capture)
    ensures |r.queue.items| == |c.queue.items| + |items|
    ensures r.queue.items[..|c.queue.items|] == c.queue.items && r.queue.items[|c.queue.items|..] == items
    ensures r.transcoder == c.transcoder && r.source == c.source && r.sink == c.sink && r.queue.maxsize == c.queue.maxsize
  {
    c.(queue := c.queue.(items := c.queue.items + items))
  }

  lemma EnqueuedTwice(c: Capture, a: seq<Src.Item>, b: seq<Src.Item>)
    ensures Enqueued(Enqueued(c, a), b) == Enqueued(c, a + b)
  {
    assert c.queue.items + a + b == c.queue.items + (a + b);
  }

  lemma QueuedCons(calls: seq<(seq<int>, int, TimeInfo)>)
    requires |calls| > 0
    ensures Queued(calls) == [(calls[0].0, calls[0].2)] + Queued(calls[1..])
  {
  }

  /** One step of a feed: a well-sized first buffer is queued and the rest
      follows; a badly sized one ends the feed with an error. */
  lemma FeedStep(c: Capture, calls: seq<(seq<int>, int, TimeInfo)>)
    requires Valid(c) && |calls| > 0
    ensures Sized(calls[0], c.transcoder.channels) ==>
              var c1 := Enqueued(c, [(calls[0].0, calls[0].2)]);
              Valid(c1) && Feed(c, calls) == Feed(c1, calls[1..])
    ensures !Sized(calls[0], c.transcoder.channels) ==> Feed(c, calls).Err?
  {
  }

  /** A feed is well sized exactly when its first buffer and the rest are. */
  lemma WellSizedCons(channels: nat, calls: seq<(seq<int>, int, TimeInfo)>)
    requires |calls| > 0
    ensures (forall k :: 0 <= k < |calls| ==> Sized(calls[k], channels)) <==>
              Sized(calls[0], channels) && forall k :: 0 <= k < |calls[1..]| ==> Sized(calls[1..][k], channels)
  {
    if Sized(calls[0], channels) && forall k :: 0 <= k < |calls[1..]| ==> Sized(calls[1..][k], channels) {
      forall k | 0 <= k < |calls|
        ensures Sized(calls[k], channels)
      {
        if k > 0 {
          assert calls[k] == calls[1..][k - 1];
        }
      }
    }
  }

  /** `stop`: the sink first (drain, flush, close, join), then the source.
      The sink's transcoder is the capture's, so its counter carries over.
      Returns the sink thread's outcome and the source's error. */
  function Stop(c: Capture, m: Mgr.Manager, enc: Encoder): (r: (Capture, Mgr.Manager, Option<Result<Container>>, Option<Error>))
    requires Valid(c) && Mgr.Valid(m)
    ensures Valid(r.0) && Mgr.Valid(r.1)
    ensures !r.0.sink.running && !Src.IsRunning(r.0.source)
    ensures c.source.session.Some? && c.source.session.value in m.acquired ==>
              r.3.None? && r.1.acquired == m.acquired - {c.source.session.value}
    ensures !c.sink.running ==> r.2.None? && r.0.queue == c.queue && r.0.transcoder == c.transcoder
  {
    var sinkStop := Sink.Stop(Sink.TranscoderStep, enc, c.sink, c.queue);
    var sourceStop := Src.Stop(c.source, m);
    var outcome := sinkStop.2;
    var t := LoopCounter(c.transcoder, outcome);
    (c.(sink := sinkStop.0, queue := sinkStop.1, source := sourceStop.0, transcoder := t), sourceStop.1, LoopFile(outcome), sourceStop.2)
  }

  /** The transcoder after the sink thread: the thread shares the object,
      so its counter is the one the thread ended with, also when the
      thread died on a failing transcode. */
  function LoopCounter(t: Transcoder.Transcoder, outcome: Option<Sink.Exit<Transcoder.Transcoder>>): (r: Transcoder.Transcoder)
    ensures r.frameRate == t.frameRate && r.channels == t.channels && r.dtype == t.dtype
    ensures Transcoder.PyaudioFormat(r) == Transcoder.PyaudioFormat(t)
    ensures outcome.None? ==> r == t
    ensures outcome.Some? ==> r.encoded == outcome.value.loop.state.encoded
  {
    if outcome.Some? then t.(encoded := outcome.value.loop.state.encoded) else t
  }

  /** The file the sink thread leaves, or the error it died on. */
  function LoopFile(outcome: Option<Sink.Exit<Transcoder.Transcoder>>): (r: Option<Result<Container>>)
    ensures outcome.None? <==> r.None?
    ensures outcome.Some? && outcome.value.error.None? ==> r == Some(Ok(outcome.value.loop.container))
    ensures outcome.Some? && outcome.value.error.Some? ==> r == Some(Err(outcome.value.error.value))
  {
    match outcome
    case None => None
    case Some(Exit(l, None)) => Some(Ok(l.container))
    case Some(Exit(_, Some(e))) => Some(Err(e))
  }

  /** Stopping a capture whose sink thread started from the current
      transcoder on a fresh file: the file holds, in FIFO order, the frame
      `TranscodeSeq` makes of every queued buffer, pts cleared, then one
      flush, and is closed; the queue ends empty and the counter has
      advanced once per buffer. */
  lemma StopWritesQueue(c: Capture, m: Mgr.Manager, enc: Encoder)
    requires Valid(c) && Mgr.Valid(m) && c.sink.running
    requires c.sink.thread == Some(Sink.Loop(Open(c.sink.path, c.sink.frameRate), c.transcoder))
    requires c.sink.died.None?
    requires Transcoder.TranscodeSeq(c.transcoder, c.queue.items).Ok?
    ensures var (c3, m3, file, err) := Stop(c, m, enc);
            var frames := Transcoder.TranscodeSeq(c.transcoder, c.queue.items).value.0;
            && file.Some? && file.value.Ok? && file.value.value.closed
            && |file.value.value.inputs| == |c.queue.items| + 1
            && (forall k :: 0 <= k < |c.queue.items| ==> file.value.value.inputs[k] == Some(frames[k].frame.(pts := None)))
            && file.value.value.inputs[|c.queue.items|].None?
            && Flushes(file.value.value.inputs) == 1
            && file.value.value.path == c.sink.path
            && c3.queue.items == []
            && c3.transcoder == c.transcoder.(encoded := c.transcoder.encoded + |c.queue.items|)
  {
    assert c.sink == Sink.Start(Sink.New(c.sink.path, c.sink.frameRate), c.transcoder);
    Sink.TranscoderRecording(c.transcoder, enc, c.sink.path, c.sink.frameRate, c.queue);
  }

  /** Stopping a capture whose queue holds a buffer `transcode` rejects
      (a device with more channels than a PyAV layout exists for, say): the
      record thread dies on the first such buffer, j-th in the queue. It has
      taken the buffers up to and including that one, the counter has
      advanced once per buffer before it, the buffers after it stay queued,
      and no finished file comes out. */
  lemma StopOnFailedTranscode(c: Capture, m: Mgr.Manager, enc: Encoder)
    requires Valid(c) && Mgr.Valid(m) && c.sink.running
    requires c.sink.thread == Some(Sink.Loop(Open(c.sink.path, c.sink.frameRate), c.transcoder))
    requires c.sink.died.None?
    requires Transcoder.TranscodeSeq(c.transcoder, c.queue.items).Err?
    ensures var (c3, m3, file, err) := Stop(c, m, enc);
            exists j :: 0 < j <= |c.queue.items| && FailsFirstAt(c.transcoder, c.queue.items, j)
                        && file.Some? && file.value.Err?
                        && c3.queue.items == c.queue.items[j..]
                        && c3.transcoder == c.transcoder.(encoded := c.transcoder.encoded + j - 1)
  {
    var l := c.sink.thread.value;
    var t := c.transcoder;
    var items := c.queue.items;
    Sink.TranscoderFrames(t, items);
    Sink.ConsumeAllFeeds(Sink.TranscoderStep, enc, l, items);
    assert Sink.Record(Sink.TranscoderStep, enc, l, items).Err?;
    var (j, lf) := Sink.FailAt(Sink.TranscoderStep, enc, l, items);
    var done := items[..j - 1];
    Sink.ConsumeAllFeeds(Sink.TranscoderStep, enc, l, done);
    Sink.TranscoderFrames(t, done);
    assert lf.state == t.(encoded := t.encoded + j - 1);
    assert Sink.TranscoderStep(lf.state, items[j - 1]).Err?;
    assert FailsFirstAt(t, items, j);
    var stop := Sink.Stop(Sink.TranscoderStep, enc, c.sink, c.queue);
    assert stop.1.items == items[j..];
    assert stop.2 == Some(Sink.Exit(lf, Some(Sink.Record(Sink.TranscoderStep, enc, l, items).error)));
  }

  /** Buffer j (counting from 1) is the first one `transcode` rejects: the
      ones before it all go through, and it fails after them. */
  predicate FailsFirstAt(t: Transcoder.Transcoder, items: seq<(seq<int>, TimeInfo)>, j: nat)
    requires 0 < j <= |items|
  {
    && Transcoder.TranscodeSeq(t, items[..j - 1]).Ok?
    && Transcoder.Transcode(t.(encoded := t.encoded + j - 1), items[j - 1].0, items[j - 1].1).Err?
  }

  /** A whole recording: start a stopped capture, let the source deliver
      well-sized buffers, stop. Every buffer reaches the file exactly once,
      in delivery order (`StopWritesQueue`), and the PyAudio session taken at
      start is given back. */
  lemma RecordsEveryBuffer(c: Capture, m: Mgr.Manager, enc: Encoder, calls: seq<(seq<int>, int, TimeInfo)>)
    requires Valid(c) && Mgr.Valid(m)
    requires !c.sink.running && c.queue.items == [] && c.source.session.None?
    requires WellSized(c, calls)
    ensures Feed(Start(c, m).0, calls).Ok?
    ensures var c2 := Feed(Start(c, m).0, calls).value;
            && c2.queue.items == Queued(calls) && c2.transcoder == c.transcoder
            && c2.sink.running && c2.sink.thread == Some(Sink.Loop(Open(c2.sink.path, c2.sink.frameRate), c2.transcoder))
            && c2.sink.died.None?
            && c2.sink.path == c.sink.path
    ensures var (_, m3, _, err) := Stop(Feed(Start(c, m).0, calls).value, Start(c, m).1, enc);
            err.None? && m3.acquired == m.acquired
  {
    var (c1, m1) := Start(c, m);
    var c2 := Feed(c1, calls).value;
    assert c2.source == c1.source;
    Src.StartStopBalanced(c.source, m);
  }
}
