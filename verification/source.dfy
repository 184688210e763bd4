/** `PyAudioDeviceSource` (pupil_audio/nonblocking/pyaudio.py): owns a
    PyAudio session and an input stream whose callback pushes every buffer
    into the shared queue, dropping it when the queue is full. The example
    copy in examples/pyaudio_in_pyav_out_api.py differs in two ways: its
    callback (`ExampleCallback`), and its session, which it creates itself
    at `start` and terminates at `stop` instead of borrowing it from
    `PyAudioManager` (`ExampleStart`, `ExampleStop`). */
module Source {
  import opened Wrappers
  import opened PortAudio
  import opened Fifo
  import Mgr = Manager

  /** An open PortAudio stream; `active` once `start_stream` was called. */
  datatype Stream = Stream(active: bool)

  datatype Source = Source(
    deviceIndex: int,
    frameRate: int,
    channels: nat,
    format: PaFormat,
    session: Option<nat>,
    stream: Option<Stream>)

  /** What the callback queues: the raw buffer and its time information. */
  type Item = (seq<int>, TimeInfo)

  /** The constructor: nothing is opened yet. */
  function New(deviceIndex: int, frameRate: int, channels: nat, format: PaFormat): (s: Source)
    ensures s.session.None? && s.stream.None?
    ensures !IsRunning(s)
  {
    Source(deviceIndex, frameRate, channels, format, None, None)
  }

  /** `is_runnning`: exactly an open stream that has been started. */
  function IsRunning(s: Source): (b: bool)
    ensures b <==> s.stream == Some(Stream(true))
  {
    s.stream.Some? && s.stream.value.active
  }

  /** `start`: acquire a session only if none is held, open a stream only if
      none is open, then start the stream. */
  function Start(s: Source, m: Mgr.Manager): (r: (Source, Mgr.Manager))
    requires Mgr.Valid(m)
    ensures Mgr.Valid(r.1)
    ensures IsRunning(r.0) && r.0.session.Some?
    ensures s.session.Some? ==> r.0.session == s.session && r.1 == m
    ensures s.session.None? ==> r.0.session.value !in m.acquired && r.1.acquired == m.acquired + {r.0.session.value}
    ensures r.0 == s.(session := r.0.session, stream := Some(Stream(true)))
  {
    var (m1, session) := if s.session.None? then Mgr.Acquire(m) else (m, s.session);
    var stream := if s.stream.None? then Stream(false) else s.stream.value;
    (s.(session := session, stream := Some(stream.(active := true))), m1)
  }

  /** Starting twice is starting once: the second start reuses the session
      and the stream. */
  lemma StartIdempotent(s: Source, m: Mgr.Manager)
    requires Mgr.Valid(m)
    ensures var (s1, m1) := Start(s, m);
            Start(s1, m1) == (s1, m1)
  {
  }

  /** `stop`: close the stream if open, then release the session if held.
      A failing release leaves the session set and reports the error. */
  function Stop(s: Source, m: Mgr.Manager): (r: (Source, Mgr.Manager, Option<Error>))
    requires Mgr.Valid(m)
    ensures Mgr.Valid(r.1)
    ensures r.0.stream.None? && !IsRunning(r.0)
    ensures r.0 == s.(stream := None, session := r.0.session)
    ensures r.2.None? ==> r.0.session.None?
    ensures s.session.Some? && s.session.value in m.acquired ==>
              r.2.None? && r.1.acquired == m.acquired - {s.session.value}
    ensures s.session.None? ==> r.1 == m && r.2.None?
  {
    var s1 := s.(stream := None);
    match Mgr.Release(m, s1.session)
    case Ok(m1) => (s1.(session := None), m1, None)
    case Err(e) => (s1, m, Some(e))
  }

  /** Stopping twice is stopping once. */
  lemma StopIdempotent(s: Source, m: Mgr.Manager)
    requires Mgr.Valid(m)
    requires Stop(s, m).2.None?
    ensures var (s1, m1, _) := Stop(s, m);
            Stop(s1, m1) == (s1, m1, None)
  {
  }

  /** A session taken by `start` is given back by `stop`: the manager ends
      with the sessions it had before. */
  lemma StartStopBalanced(s: Source, m: Mgr.Manager)
    requires Mgr.Valid(m) && s.session.None?
    ensures var (s1, m1) := Start(s, m);
            var (s2, m2, e) := Stop(s1, m1);
            e.None? && m2.acquired == m.acquired && s2.session.None? && s2.stream.None?
  {
  }

  /** The example's `start`: with no session yet it creates a PyAudio
      object of its own (`created` stands for it), bypassing the manager;
      otherwise it behaves as the package's `start`. */
  function ExampleStart(s: Source, created: nat): (r: Source)
    ensures IsRunning(r)
    ensures s.session.Some? ==> r.session == s.session
    ensures s.session.None? ==> r.session == Some(created)
    ensures r == s.(session := r.session, stream := Some(Stream(true)))
  {
    var session := if s.session.None? then Some(created) else s.session;
    var stream := if s.stream.None? then Stream(false) else s.stream.value;
    s.(session := session, stream := Some(stream.(active := true)))
  }

  /** The example's `stop`: close the stream if open, then terminate the
      session it holds, if any. Returns the terminated session; nothing
      can fail, since no manager is asked. */
  function ExampleStop(s: Source): (r: (Source, Option<nat>))
    ensures r.0.stream.None? && r.0.session.None? && !IsRunning(r.0)
    ensures r.1 == s.session
    ensures r.0 == s.(stream := None, session := None)
  {
    (s.(stream := None, session := None), s.session)
  }

  /** The example's source and the package's differ only in where the
      session comes from: starting leaves the same stream state, stopping
      the same source when the package's release succeeds, and the
      example's stop terminates exactly the session its start created. */
  lemma ExampleSessionOnly(s: Source, m: Mgr.Manager, created: nat)
    requires Mgr.Valid(m)
    ensures var started := Start(s, m).0;
            ExampleStart(s, created) == started.(session := ExampleStart(s, created).session)
    ensures Stop(s, m).2.None? ==> ExampleStop(s).0 == Stop(s, m).0
    ensures s.session.None? ==> ExampleStop(ExampleStart(s, created)).1 == Some(created)
  {
  }

  /** What the callback hands back to PortAudio. */
  datatype Reply = Reply(queue: Queue<Item>, output: Option<seq<int>>, flag: CallbackFlag)

  /** `_stream_callback`: the buffer must hold exactly `frameCount` frames
      of `channels` samples of the stream's format; it is then queued, or
      dropped when the queue is full, and PortAudio is told to continue. */
  function Callback(s: Source, q: Queue<Item>, inData: seq<int>, frameCount: int, timeInfo: TimeInfo): (r: Result<Reply>)
    ensures r.Ok? <==> frameCount * s.channels * SampleSize(s.format) == ByteLength(inData, s.format)
    ensures r.Err? ==> r.error == AssertionError
    ensures r.Ok? ==> r.value.output.None? && r.value.flag == PaContinue
    ensures r.Ok? && !Full(q) ==> r.value.queue.items == q.items + [(inData, timeInfo)]
    ensures r.Ok? && Full(q) ==> r.value.queue == q
    ensures r.Ok? ==> r.value.queue.maxsize == q.maxsize
  {
    if frameCount * s.channels * SampleSize(s.format) != ByteLength(inData, s.format) then
      Err(AssertionError)
    else
      Ok(Reply(Offer(q, (inData, timeInfo)), None, PaContinue))
  }

  /** The length check is a check on the sample count: it passes exactly
      when the buffer holds `frameCount * channels` samples. */
  lemma CallbackCountsSamples(s: Source, q: Queue<Item>, inData: seq<int>, frameCount: int, timeInfo: TimeInfo)
    ensures Callback(s, q, inData, frameCount, timeInfo).Ok? <==> |inData| == frameCount * s.channels
  {
    var w := SampleSize(s.format);
    assert frameCount * s.channels * w == (frameCount * s.channels) * w;
    if |inData| != frameCount * s.channels {
      MulCancel(|inData|, frameCount * s.channels, w);
    }
  }

  lemma MulCancel(a: int, b: int, w: int)
    requires w > 0 && a != b
    ensures a * w != b * w
  {
    if a < b {
      assert b * w - a * w == (b - a) * w;
    } else {
      assert a * w - b * w == (a - b) * w;
    }
  }

  /** The example's callback: no length check; it queues the buffer with
      the ADC time of its first sample, or drops it on a full queue. */
  function ExampleCallback(q: Queue<(seq<int>, int)>, inData: seq<int>, frameCount: int, timeInfo: TimeInfo): (r: (Queue<(seq<int>, int)>, Option<seq<int>>, CallbackFlag))
    ensures !Full(q) ==> r.0.items == q.items + [(inData, timeInfo.inputBufferAdcTime)]
    ensures Full(q) ==> r.0 == q
    ensures r.1.None? && r.2 == PaContinue
  {
    (Offer(q, (inData, timeInfo.inputBufferAdcTime)), None, PaContinue)
  }
}
