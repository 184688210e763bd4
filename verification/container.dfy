/** The PyAV output side as an append-only log: what was handed to the
    stream's encoder (a frame, or `None` for the final flush), which packets
    were muxed, and whether the container was closed. The encoder itself is
    foreign code; it is a parameter that maps the frames it has already seen
    and the next input to the packets it returns. */
module Container {
  import opened Wrappers
  import opened Av
  import opened NdArray
  import PyAVCodec

  /** An encoded packet; its contents are the encoder's business. */
  datatype Packet = Packet(payload: seq<int>)

  type Encoder = (seq<Option<AudioFrame>>, Option<AudioFrame>) -> seq<Packet>

  datatype Container = Container(
    path: string,
    rate: int,
    inputs: seq<Option<AudioFrame>>,
    muxed: seq<Packet>,
    closed: bool)

  /** `av.open(path, 'w')` followed by `add_stream('aac', rate=...)`. */
  function Open(path: string, rate: int): (c: Container)
    ensures c.inputs == [] && c.muxed == [] && !c.closed
  {
    Container(path, rate, [], [], false)
  }

  /** `for packet in stream.encode(x): container.mux(packet)`: the input is
      logged and every returned packet is muxed, in order, after the earlier
      ones. */
  function EncodeMux(c: Container, enc: Encoder, x: Option<AudioFrame>): (r: Container)
    ensures r.inputs == c.inputs + [x]
    ensures r.muxed == c.muxed + enc(c.inputs, x)
    ensures r.path == c.path && r.rate == c.rate && r.closed == c.closed
  {
    c.(inputs := c.inputs + [x], muxed := c.muxed + enc(c.inputs, x))
  }

  /** Flush with `encode(None)`, mux what it returns, close. */
  function Finish(c: Container, enc: Encoder): (r: Container)
    ensures r.inputs == c.inputs + [None] && r.closed
    ensures r.muxed == c.muxed + enc(c.inputs, None)
  {
    EncodeMux(c, enc, None).(closed := true)
  }

  /** The number of flushes in an input log. */
  function Flushes(inputs: seq<Option<AudioFrame>>): nat
    decreases |inputs|
  {
    if |inputs| == 0 then 0 else (if inputs[0].None? then 1 else 0) + Flushes(inputs[1..])
  }

  lemma {:induction false} FlushesAppend(a: seq<Option<AudioFrame>>, b: seq<Option<AudioFrame>>)
    ensures Flushes(a + b) == Flushes(a) + Flushes(b)
    decreases |a|
  {
    if |a| == 0 {
      assert a + b == b;
    } else {
      assert (a + b)[1..] == a[1..] + b;
      FlushesAppend(a[1..], b);
    }
  }

  /** `PyAVFileOutputStream`: its codec, and the container and stream,
      which exist only between the first write and `close`. */
  datatype OutputStream = OutputStream(path: string, frameRate: int, codec: PyAVCodec.Codec, container: Option<Container>)

  /** The constructor builds the stream's `PyAVCodec` from the format or
      dtype given, and fails as that constructor does; nothing is opened. */
  function NewOutputStream(path: string, channels: nat, frameRate: int, format: Option<string>, dtype: Option<DType>): (r: Result<OutputStream>)
    ensures r.Ok? <==> PyAVCodec.New(channels, frameRate, format, dtype).Ok?
    ensures r.Err? ==> r.error == PyAVCodec.New(channels, frameRate, format, dtype).error
    ensures format.None? && dtype == Some(Int16) ==> r.Ok?
    ensures r.Ok? ==> && r.value.codec == PyAVCodec.Codec(channels, frameRate, "s16p", Int16)
                      && r.value.container.None?
                      && r.value.path == path && r.value.frameRate == frameRate
  {
    var codec :- PyAVCodec.New(channels, frameRate, format, dtype);
    Ok(OutputStream(path, frameRate, codec, None))
  }

  /** `write_raw`: open on first use, clear the frame's pts, encode and mux. */
  function WriteRaw(o: OutputStream, enc: Encoder, frame: AudioFrame): (r: OutputStream)
    ensures r.container.Some?
    ensures o.container.Some? ==> r.container.value == EncodeMux(o.container.value, enc, Some(frame.(pts := None)))
    ensures o.container.None? ==> r.container.value == EncodeMux(Open(o.path, o.frameRate), enc, Some(frame.(pts := None)))
    ensures r.path == o.path && r.frameRate == o.frameRate
  {
    var c := if o.container.None? then Open(o.path, o.frameRate) else o.container.value;
    o.(container := Some(EncodeMux(c, enc, Some(frame.(pts := None)))))
  }

  /** `close`: if open, flush once, mux, close and forget the container.
      Returns the closed container, if there was one. */
  function Close(o: OutputStream, enc: Encoder): (r: (OutputStream, Option<Container>))
    ensures r.0.container.None? && r.0.path == o.path && r.0.frameRate == o.frameRate
    ensures o.container.None? <==> r.1.None?
    ensures o.container.Some? ==> r.1 == Some(Finish(o.container.value, enc))
  {
    match o.container
    case None => (o, None)
    case Some(c) => (o.(container := None), Some(Finish(c, enc)))
  }

  /** Writing the frames one after the other. */
  function WriteAll(o: OutputStream, enc: Encoder, frames: seq<AudioFrame>): OutputStream
    decreases |frames|
  {
    if |frames| == 0 then o else WriteAll(WriteRaw(o, enc, frames[0]), enc, frames[1..])
  }

  /** The frames without their pts, as the encoder sees them. */
  function Unstamped(frames: seq<AudioFrame>): (r: seq<Option<AudioFrame>>)
    ensures |r| == |frames|
    ensures forall k :: 0 <= k < |frames| ==> r[k] == Some(frames[k].(pts := None))
  {
    seq(|frames|, k requires 0 <= k < |frames| => Some(frames[k].(pts := None)))
  }

  /** Successive writes on an open stream reach the encoder as the frames,
      pts cleared, in write order; nothing else is logged. */
  lemma {:induction false} WriteAllInputs(o: OutputStream, enc: Encoder, frames: seq<AudioFrame>)
    requires o.container.Some?
    ensures WriteAll(o, enc, frames).container.Some?
    ensures WriteAll(o, enc, frames).container.value.inputs == o.container.value.inputs + Unstamped(frames)
    ensures WriteAll(o, enc, frames).container.value.closed == o.container.value.closed
    decreases |frames|
  {
    if |frames| > 0 {
      var o1 := WriteRaw(o, enc, frames[0]);
      var x := Some(frames[0].(pts := None));
      WriteAllInputs(o1, enc, frames[1..]);
      UnstampedCons(frames);
      Regroup(o.container.value.inputs, [x], Unstamped(frames[1..]));
    } else {
      assert Unstamped(frames) == [];
    }
  }

  lemma UnstampedCons(frames: seq<AudioFrame>)
    requires |frames| > 0
    ensures Unstamped(frames) == [Some(frames[0].(pts := None))] + Unstamped(frames[1..])
  {
  }

  lemma Regroup<T>(a: seq<T>, b: seq<T>, c: seq<T>)
    ensures a + b + c == a + (b + c)
  {
  }

  /** Writes followed by `close`: the closed container's log is the frames
      and exactly one flush at the end, and a second close does nothing. */
  lemma WriteAllThenClose(o: OutputStream, enc: Encoder, frames: seq<AudioFrame>)
    requires o.container.Some? && o.container.value.inputs == []
    ensures var c := Close(WriteAll(o, enc, frames), enc);
            && c.1.Some? && c.1.value.closed
            && c.1.value.inputs == Unstamped(frames) + [None]
            && Flushes(c.1.value.inputs) == 1
            && Close(c.0, enc).1.None?
  {
    WriteAllInputs(o, enc, frames);
    var inputs := Unstamped(frames);
    assert [] + inputs == inputs;
    NoFlushes(inputs);
    var flush: seq<Option<AudioFrame>> := [None];
    FlushesAppend(inputs, flush);
    assert flush[1..] == [];
  }

  lemma {:induction false} NoFlushes(inputs: seq<Option<AudioFrame>>)
    requires forall k :: 0 <= k < |inputs| ==> inputs[k].Some?
    ensures Flushes(inputs) == 0
    decreases |inputs|
  {
    if |inputs| > 0 {
      NoFlushes(inputs[1..]);
    }
  }

  /** Closing a stream that was never written creates no file. */
  lemma CloseUnopened(o: OutputStream, enc: Encoder)
    requires o.container.None?
    ensures Close(o, enc) == (o, None)
  {
  }
}
