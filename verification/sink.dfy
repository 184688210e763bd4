/** `PyAVFileSink` (pupil_audio/nonblocking/pyav.py; the example copy in
    examples/pyaudio_in_pyav_out_api.py runs the same loop once it has built
    its stream's time base, see `Example.Record`): a record thread that takes buffers from the shared queue,
    transcodes them, clears their pts, encodes and muxes them, and after
    `stop` drains the queue, flushes once and closes the file. The thread is
    modelled sequentially; the transcoder is a parameter `step`. */
module Sink {
  import opened Wrappers
  import opened Av
  import opened Fifo
  import opened Container
  import PortAudio
  import Transcoder

  /** One `transcode` call: the frame and the transcoder's next state. */
  type Step<!S, -I> = (S, I) -> Result<(AudioFrame, S)>

  /** The record thread's locals: its container and the transcoder state. */
  datatype Loop<S> = Loop(container: Container, state: S)

  /** The frames a run of `step` over `items` produces, in order; the first
      failure ends the run. */
  function Frames<S, I>(step: Step<S, I>, state: S, items: seq<I>): (r: Result<(seq<AudioFrame>, S)>)
    ensures r.Ok? ==> |r.value.0| == |items|
    decreases |items|
  {
    if |items| == 0 then Ok(([], state))
    else
      match step(state, items[0])
      case Err(e) => Err(e)
      case Ok((frame, next)) =>
        match Frames(step, next, items[1..])
        case Err(e) => Err(e)
        case Ok((rest, last)) => Ok(([frame] + rest, last))
  }

  /** A step that keeps its state unchanged yields, over a run it accepts
      item by item, frame k from item k alone, and ends in the state it
      started in. */
  lemma {:induction false} FramesStateless<S, I>(step: Step<S, I>, state: S, items: seq<I>)
    requires forall k :: 0 <= k < |items| ==> step(state, items[k]).Ok? && step(state, items[k]).value.1 == state
    ensures Frames(step, state, items).Ok? && Frames(step, state, items).value.1 == state
    ensures forall k :: 0 <= k < |items| ==> Frames(step, state, items).value.0[k] == step(state, items[k]).value.0
    decreases |items|
  {
    if |items| > 0 {
      var rest := items[1..];
      assert forall k :: 0 <= k < |rest| ==> rest[k] == items[k + 1];
      FramesStateless(step, state, rest);
      var tail := Frames(step, state, rest).value.0;
      var whole := Frames(step, state, items).value.0;
      assert whole == [step(state, items[0]).value.0] + tail;
      forall k | 0 <= k < |items|
        ensures whole[k] == step(state, items[k]).value.0
      {
        if k > 0 {
          assert whole[k] == tail[k - 1];
        }
      }
    }
  }

  /** One turn of the loop with an item: transcode, clear pts, encode, mux. */
  function Consume<S, I>(step: Step<S, I>, enc: Encoder, l: Loop<S>, item: I): (r: Result<Loop<S>>)
    ensures r.Ok? <==> step(l.state, item).Ok?
    ensures r.Ok? ==> && r.value.state == step(l.state, item).value.1
                      && r.value.container == EncodeMux(l.container, enc, Some(step(l.state, item).value.0.(pts := None)))
  {
    var (frame, next) :- step(l.state, item);
    Ok(Loop(EncodeMux(l.container, enc, Some(frame.(pts := None))), next))
  }

  /** The turns of the loop over `items`, in queue order. */
  function ConsumeAll<S, I>(step: Step<S, I>, enc: Encoder, l: Loop<S>, items: seq<I>): Result<Loop<S>>
    decreases |items|
  {
    if |items| == 0 then Ok(l)
    else
      match Consume(step, enc, l, items[0])
      case Err(e) => Err(e)
      case Ok(l1) => ConsumeAll(step, enc, l1, items[1..])
  }

  /** Where a failing run of the loop stops: the number of items taken,
      the failing one included, and the loop state the thread held when
      `transcode` raised. Every item before it went through, and the
      transcoder state is the one those successes left. */
  function FailAt<S, I>(step: Step<S, I>, enc: Encoder, l: Loop<S>, items: seq<I>): (r: (nat, Loop<S>))
    requires ConsumeAll(step, enc, l, items).Err?
    ensures 0 < r.0 <= |items|
    ensures ConsumeAll(step, enc, l, items[..r.0 - 1]) == Ok(r.1)
    ensures Consume(step, enc, r.1, items[r.0 - 1]) == Err(ConsumeAll(step, enc, l, items).error)
    decreases |items|
  {
    match Consume(step, enc, l, items[0])
    case Err(_) =>
      assert items[..0] == [];
      (1, l)
    case Ok(l1) =>
      var (k, l2) := FailAt(step, enc, l1, items[1..]);
      var done := items[..k];
      assert done[0] == items[0] && done[1..] == items[1..][..k - 1];
      assert items[1..][k - 1] == items[k];
      (k + 1, l2)
  }

  /** Consuming items feeds the encoder exactly the frames of a run of the
      transcoder over them, in order, each once and with its pts cleared;
      nothing is flushed and the container stays open. */
  lemma {:induction false} ConsumeAllFeeds<S, I>(step: Step<S, I>, enc: Encoder, l: Loop<S>, items: seq<I>)
    ensures ConsumeAll(step, enc, l, items).Ok? <==> Frames(step, l.state, items).Ok?
    ensures ConsumeAll(step, enc, l, items).Ok? ==>
              && ConsumeAll(step, enc, l, items).value.container.inputs
                   == l.container.inputs + Unstamped(Frames(step, l.state, items).value.0)
              && ConsumeAll(step, enc, l, items).value.state == Frames(step, l.state, items).value.1
              && ConsumeAll(step, enc, l, items).value.container.closed == l.container.closed
              && ConsumeAll(step, enc, l, items).value.container.path == l.container.path
    decreases |items|
  {
    if |items| == 0 {
      assert Unstamped([]) == [];
    } else {
      var c := Consume(step, enc, l, items[0]);
      if c.Ok? {
        ConsumeAllFeeds(step, enc, c.value, items[1..]);
        var first := step(l.state, items[0]).value;
        var tail := Frames(step, first.1, items[1..]);
        if tail.Ok? {
          assert Unstamped([first.0] + tail.value.0) == [Some(first.0.(pts := None))] + Unstamped(tail.value.0);
        }
      }
    }
  }

  /** What the thread has done once it leaves the loop: every item consumed,
      then one flush and the close. */
  function Record<S, I>(step: Step<S, I>, enc: Encoder, l: Loop<S>, items: seq<I>): (r: Result<Loop<S>>)
    ensures r.Ok? <==> Frames(step, l.state, items).Ok?
    ensures r.Ok? ==> && r.value.container.closed
                      && r.value.container.inputs == l.container.inputs + Unstamped(Frames(step, l.state, items).value.0) + [None]
                      && r.value.state == Frames(step, l.state, items).value.1
  {
    ConsumeAllFeeds(step, enc, l, items);
    match ConsumeAll(step, enc, l, items)
    case Err(e) => Err(e)
    case Ok(l1) => Ok(l1.(container := Finish(l1.container, enc)))
  }

  /** The log of a recording that started on a fresh container: the frames
      of the queued items in FIFO order, then exactly one flush; closed. */
  lemma RecordLog<S, I>(step: Step<S, I>, enc: Encoder, l: Loop<S>, items: seq<I>)
    requires l.container.inputs == [] && Record(step, enc, l, items).Ok?
    ensures Frames(step, l.state, items).Ok?
    ensures Record(step, enc, l, items).value.container.inputs
              == Unstamped(Frames(step, l.state, items).value.0) + [None]
    ensures Flushes(Record(step, enc, l, items).value.container.inputs) == 1
    ensures Record(step, enc, l, items).value.container.closed
  {
    ConsumeAllFeeds(step, enc, l, items);
    var inputs := Unstamped(Frames(step, l.state, items).value.0);
    assert [] + inputs == inputs;
    NoFlushes(inputs);
    var flush: seq<Option<AudioFrame>> := [None];
    FlushesAppend(inputs, flush);
    assert flush[1..] == [];
  }

  /** `_record_loop` once `running` is clear: take items until the queue is
      empty, then flush and close. */
  method Drain<S, I>(step: Step<S, I>, enc: Encoder, l: Loop<S>, q: Queue<I>) returns (r: Result<Loop<S>>, rest: Queue<I>)
    ensures r == Record(step, enc, l, q.items)
    ensures r.Ok? ==> rest.items == []
    ensures r.Err? ==> rest.items == q.items[FailAt(step, enc, l, q.items).0..]
  {
    var cur := l;
    rest := q;
    while true
      invariant |rest.items| <= |q.items| && rest.items == q.items[|q.items| - |rest.items|..]
      invariant ConsumeAll(step, enc, l, q.items[..|q.items| - |rest.items|]) == Ok(cur)
      invariant ConsumeAll(step, enc, l, q.items) == ConsumeAll(step, enc, cur, rest.items)
      decreases |rest.items|
    {
      var got := Get(rest);
      if got.Err? {
        break;
      }
      var (item, remaining) := got.value;
      assert rest.items == [item] + remaining.items;
      assert rest.items[1..] == remaining.items;
      var done := q.items[..|q.items| - |rest.items|];
      assert q.items == done + rest.items;
      var next := Consume(step, enc, cur, item);
      if next.Err? {
        DrainFails(step, enc, l, done, rest.items, cur);
        return Err(next.error), remaining;
      }
      assert q.items[..|q.items| - |remaining.items|] == done + [item];
      DrainTakes(step, enc, l, done, item, cur);
      cur := next.value;
      rest := remaining;
    }
    r := Ok(cur.(container := Finish(cur.container, enc)));
  }

  /** A drain whose next item fails: the recording fails with that item's
      error, and the item is the one the loop fails on. */
  lemma DrainFails<S, I>(step: Step<S, I>, enc: Encoder, l: Loop<S>, done: seq<I>, rest: seq<I>, cur: Loop<S>)
    requires |rest| > 0 && ConsumeAll(step, enc, l, done) == Ok(cur)
    requires Consume(step, enc, cur, rest[0]).Err?
    ensures ConsumeAll(step, enc, l, done + rest).Err?
    ensures Record(step, enc, l, done + rest) == Err(Consume(step, enc, cur, rest[0]).error)
    ensures FailAt(step, enc, l, done + rest).0 == |done| + 1
  {
    ConsumeAllSplit(step, enc, l, done, rest);
    FailAtSplit(step, enc, l, done, rest);
    assert FailAt(step, enc, cur, rest).0 == 1;
  }

  /** A drain whose next item goes through has consumed one more item. */
  lemma DrainTakes<S, I>(step: Step<S, I>, enc: Encoder, l: Loop<S>, done: seq<I>, item: I, cur: Loop<S>)
    requires ConsumeAll(step, enc, l, done) == Ok(cur)
    requires Consume(step, enc, cur, item).Ok?
    ensures ConsumeAll(step, enc, l, done + [item]) == Consume(step, enc, cur, item)
  {
    ConsumeAllSplit(step, enc, l, done, [item]);
    assert ConsumeAll(step, enc, Consume(step, enc, cur, item).value, []) == Consume(step, enc, cur, item);
  }

  /** The sink: its path and rate, the running flag and, while the record
      thread exists, that thread's loop state. */
  /** `died` holds the error that ended the record thread early: the
      exception leaves the thread, but nothing clears `running`. */
  datatype Sink<S> = Sink(path: string, frameRate: int, running: bool, thread: Option<Loop<S>>, died: Option<Error>)

  /** The thread's state exists exactly while the sink runs, and only a
      running sink has a dead thread. */
  predicate Valid<S>(s: Sink<S>)
  {
    && (s.running <==> s.thread.Some?)
    && (s.died.Some? ==> s.running)
  }

  function New<S>(path: string, frameRate: int): (s: Sink<S>)
    ensures Valid(s) && !s.running && s.died.None?
  {
    Sink(path, frameRate, false, None, None)
  }

  /** How the record thread ended: its last loop state and, when it died,
      the error it raised. */
  datatype Exit<S> = Exit(loop: Loop<S>, error: Option<Error>)

  /** `start`: a no-op while running, even when the thread has died;
      otherwise set the flag and start a thread that opens a fresh
      container. */
  function Start<S>(s: Sink<S>, state: S): (r: Sink<S>)
    requires Valid(s)
    ensures Valid(r) && r.running
    ensures s.running ==> r == s
    ensures !s.running ==> r.thread == Some(Loop(Open(s.path, s.frameRate), state)) && r.died.None?
  {
    if s.running then s
    else s.(running := true, thread := Some(Loop(Open(s.path, s.frameRate), state)))
  }

  /** While running, the thread takes the first `n` queued items (or all of
      them). A failing transcode kills the thread: the failing item has been
      taken off the queue, the items after it stay, and the sink keeps
      running with a dead thread, which takes nothing more. */
  function Pump<S, I>(step: Step<S, I>, enc: Encoder, s: Sink<S>, q: Queue<I>, n: nat): (r: (Sink<S>, Queue<I>))
    requires Valid(s)
    ensures Valid(r.0) && r.0.running == s.running
    ensures r.0.path == s.path && r.0.frameRate == s.frameRate && r.1.maxsize == q.maxsize
    ensures !s.running || s.died.Some? ==> r == (s, q)
    ensures s.running && s.died.None? ==>
              var k := if n < |q.items| then n else |q.items|;
              match ConsumeAll(step, enc, s.thread.value, q.items[..k])
              case Ok(l) => r.0.thread == Some(l) && r.0.died.None? && r.1.items == q.items[k..]
              case Err(e) =>
                var (j, lf) := FailAt(step, enc, s.thread.value, q.items[..k]);
                r.0.thread == Some(lf) && r.0.died == Some(e) && r.1.items == q.items[j..]
  {
    if !s.running || s.died.Some? then (s, q)
    else
      var k := if n < |q.items| then n else |q.items|;
      match ConsumeAll(step, enc, s.thread.value, q.items[..k])
      case Ok(l) => (Sink(s.path, s.frameRate, true, Some(l), None), q.(items := q.items[k..]))
      case Err(e) =>
        var (j, lf) := FailAt(step, enc, s.thread.value, q.items[..k]);
        (Sink(s.path, s.frameRate, true, Some(lf), Some(e)), q.(items := q.items[j..]))
  }

  /** Consuming in two turns is consuming once. */
  lemma {:induction false} ConsumeAllSplit<S, I>(step: Step<S, I>, enc: Encoder, l: Loop<S>, a: seq<I>, b: seq<I>)
    ensures ConsumeAll(step, enc, l, a + b) ==
              match ConsumeAll(step, enc, l, a)
              case Err(e) => Err(e)
              case Ok(l1) => ConsumeAll(step, enc, l1, b)
    decreases |a|
  {
    if |a| == 0 {
      assert a + b == b;
    } else {
      assert (a + b)[0] == a[0];
      assert (a + b)[1..] == a[1..] + b;
      var c := Consume(step, enc, l, a[0]);
      if c.Ok? {
        ConsumeAllSplit(step, enc, c.value, a[1..], b);
      }
    }
  }

  /** Where a run over `a + b` fails: inside `a` when `a` fails, and
      otherwise after all of `a`, where the run over `b` fails. */
  lemma {:induction false} FailAtSplit<S, I>(step: Step<S, I>, enc: Encoder, l: Loop<S>, a: seq<I>, b: seq<I>)
    requires ConsumeAll(step, enc, l, a + b).Err?
    ensures ConsumeAll(step, enc, l, a).Err? ==> FailAt(step, enc, l, a + b) == FailAt(step, enc, l, a)
    ensures ConsumeAll(step, enc, l, a).Ok? ==>
              var l1 := ConsumeAll(step, enc, l, a).value;
              && ConsumeAll(step, enc, l1, b).Err?
              && FailAt(step, enc, l, a + b) == (|a| + FailAt(step, enc, l1, b).0, FailAt(step, enc, l1, b).1)
    decreases |a|
  {
    ConsumeAllSplit(step, enc, l, a, b);
    if |a| == 0 {
      assert a + b == b;
    } else {
      assert (a + b)[0] == a[0];
      assert (a + b)[1..] == a[1..] + b;
      var c := Consume(step, enc, l, a[0]);
      if c.Ok? {
        FailAtSplit(step, enc, c.value, a[1..], b);
      }
    }
  }

  /** `stop`: a no-op unless running; otherwise clear the flag and join
      the thread. A live thread drains the queue, flushes and closes; if a
      transcode fails on the way the thread dies there, leaving the items
      after the failing one queued and the file unflushed and open. A thread
      that had already died has nothing left to do. The thread's exit (its
      last loop state, whose transcoder counter lives on in the shared
      object, and its error) is returned as well. */
  function Stop<S, I>(step: Step<S, I>, enc: Encoder, s: Sink<S>, q: Queue<I>): (r: (Sink<S>, Queue<I>, Option<Exit<S>>))
    requires Valid(s)
    ensures Valid(r.0) && !r.0.running && r.0.died.None?
    ensures r.0.path == s.path && r.0.frameRate == s.frameRate && r.1.maxsize == q.maxsize
    ensures !s.running ==> r == (s, q, None)
    ensures s.running ==> r.0 == New(s.path, s.frameRate)
    ensures s.running && s.died.Some? ==> r.1 == q && r.2 == Some(Exit(s.thread.value, s.died))
    ensures s.running && s.died.None? ==>
              match Record(step, enc, s.thread.value, q.items)
              case Ok(l) => r.1.items == [] && r.2 == Some(Exit(l, None)) && l.container.closed
              case Err(e) =>
                var (j, lf) := FailAt(step, enc, s.thread.value, q.items);
                r.1.items == q.items[j..] && r.2 == Some(Exit(lf, Some(e)))
  {
    if !s.running then (s, q, None)
    else
      var stopped := New(s.path, s.frameRate);
      if s.died.Some? then (stopped, q, Some(Exit(s.thread.value, s.died)))
      else
        match Record(step, enc, s.thread.value, q.items)
        case Ok(l) => (stopped, q.(items := []), Some(Exit(l, None)))
        case Err(e) =>
          var (j, lf) := FailAt(step, enc, s.thread.value, q.items);
          (stopped, q.(items := q.items[j..]), Some(Exit(lf, Some(e))))
  }

  /** However the running thread's work was split up, stopping ends the
      same way: pumping some items first, whether the thread survives them
      or dies on one, changes neither what `stop` returns nor the queue it
      leaves. */
  lemma PumpThenStop<S, I>(step: Step<S, I>, enc: Encoder, s: Sink<S>, q: Queue<I>, n: nat)
    requires Valid(s) && s.running
    ensures var (s1, q1) := Pump(step, enc, s, q, n);
            Stop(step, enc, s1, q1) == Stop(step, enc, s, q)
  {
    if s.died.None? {
      var k := if n < |q.items| then n else |q.items|;
      if ConsumeAll(step, enc, s.thread.value, q.items[..k]).Ok? {
        PumpSurvivesThenStop(step, enc, s, q, k);
      } else {
        PumpDiesThenStop(step, enc, s, q, k);
      }
    }
  }

  /** `PumpThenStop` when the thread survives the first `k` items. */
  lemma {:induction false} PumpSurvivesThenStop<S, I>(step: Step<S, I>, enc: Encoder, s: Sink<S>, q: Queue<I>, k: nat)
    requires Valid(s) && s.running && s.died.None? && k <= |q.items|
    requires ConsumeAll(step, enc, s.thread.value, q.items[..k]).Ok?
    ensures var l1 := ConsumeAll(step, enc, s.thread.value, q.items[..k]).value;
            Stop(step, enc, Sink(s.path, s.frameRate, true, Some(l1), None), q.(items := q.items[k..])) == Stop(step, enc, s, q)
  {
    var l := s.thread.value;
    var a, b := q.items[..k], q.items[k..];
    assert q.items == a + b;
    ConsumeAllSplit(step, enc, l, a, b);
    var l1 := ConsumeAll(step, enc, l, a).value;
    if ConsumeAll(step, enc, l1, b).Ok? {
      SurvivorFinishes(step, enc, s, q, l1, k);
    } else {
      FailAtSplit(step, enc, l, a, b);
      SurvivorDiesLater(step, enc, s, q, l1, k);
    }
  }

  lemma {:induction false} SurvivorFinishes<S, I>(step: Step<S, I>, enc: Encoder, s: Sink<S>, q: Queue<I>, l1: Loop<S>, k: nat)
    requires Valid(s) && s.running && s.died.None? && k <= |q.items|
    requires ConsumeAll(step, enc, s.thread.value, q.items) == ConsumeAll(step, enc, l1, q.items[k..])
    requires ConsumeAll(step, enc, l1, q.items[k..]).Ok?
    ensures Stop(step, enc, Sink(s.path, s.frameRate, true, Some(l1), None), q.(items := q.items[k..])) == Stop(step, enc, s, q)
  {
  }

  lemma {:induction false} SurvivorDiesLater<S, I>(step: Step<S, I>, enc: Encoder, s: Sink<S>, q: Queue<I>, l1: Loop<S>, k: nat)
    requires Valid(s) && s.running && s.died.None? && k <= |q.items|
    requires ConsumeAll(step, enc, s.thread.value, q.items) == ConsumeAll(step, enc, l1, q.items[k..])
    requires ConsumeAll(step, enc, l1, q.items[k..]).Err?
    requires FailAt(step, enc, s.thread.value, q.items)
               == (k + FailAt(step, enc, l1, q.items[k..]).0, FailAt(step, enc, l1, q.items[k..]).1)
    ensures Stop(step, enc, Sink(s.path, s.frameRate, true, Some(l1), None), q.(items := q.items[k..])) == Stop(step, enc, s, q)
  {
    var b := q.items[k..];
    var (j, lf) := FailAt(step, enc, l1, b);
    var e := ConsumeAll(step, enc, l1, b).error;
    assert b[j..] == q.items[k + j..];
    StopDeadAt(step, enc, Sink(s.path, s.frameRate, true, Some(l1), None), q.(items := b), j, lf, e);
    StopDeadAt(step, enc, s, q, k + j, lf, e);
  }

  /** `stop` on a sink whose thread dies on the queued items. */
  lemma {:induction false} StopDead<S, I>(step: Step<S, I>, enc: Encoder, s: Sink<S>, q: Queue<I>)
    requires Valid(s) && s.running && s.died.None?
    requires ConsumeAll(step, enc, s.thread.value, q.items).Err?
    ensures var (j, lf) := FailAt(step, enc, s.thread.value, q.items);
            var e := ConsumeAll(step, enc, s.thread.value, q.items).error;
            Stop(step, enc, s, q) == (New(s.path, s.frameRate), q.(items := q.items[j..]), Some(Exit(lf, Some(e))))
  {
  }

  /** `StopDead` with the failing position, loop and error named. */
  lemma {:induction false} StopDeadAt<S, I>(step: Step<S, I>, enc: Encoder, s: Sink<S>, q: Queue<I>, j: nat, lf: Loop<S>, e: Error)
    requires Valid(s) && s.running && s.died.None?
    requires ConsumeAll(step, enc, s.thread.value, q.items) == Err(e)
    requires FailAt(step, enc, s.thread.value, q.items) == (j, lf)
    ensures Stop(step, enc, s, q) == (New(s.path, s.frameRate), q.(items := q.items[j..]), Some(Exit(lf, Some(e))))
  {
    StopDead(step, enc, s, q);
  }

  /** `PumpThenStop` when the thread dies within the first `k` items. */
  lemma PumpDiesThenStop<S, I>(step: Step<S, I>, enc: Encoder, s: Sink<S>, q: Queue<I>, k: nat)
    requires Valid(s) && s.running && s.died.None? && k <= |q.items|
    requires ConsumeAll(step, enc, s.thread.value, q.items[..k]).Err?
    ensures var (j, lf) := FailAt(step, enc, s.thread.value, q.items[..k]);
            var e := ConsumeAll(step, enc, s.thread.value, q.items[..k]).error;
            Stop(step, enc, Sink(s.path, s.frameRate, true, Some(lf), Some(e)), q.(items := q.items[j..])) == Stop(step, enc, s, q)
  {
    var l := s.thread.value;
    var a, b := q.items[..k], q.items[k..];
    assert q.items == a + b;
    ConsumeAllSplit(step, enc, l, a, b);
    FailAtSplit(step, enc, l, a, b);
  }

  /** A recording from `start` to `stop` with the queue holding `items` at
      stop: the file's log is their frames in FIFO order, then one flush. */
  lemma StartThenStop<S, I>(step: Step<S, I>, enc: Encoder, path: string, frameRate: int, state: S, q: Queue<I>)
    requires Record(step, enc, Loop(Open(path, frameRate), state), q.items).Ok?
    ensures var r := Stop(step, enc, Start(New(path, frameRate), state), q);
            && r.2.Some? && r.2.value.error.None? && r.1.items == []
            && Frames(step, state, q.items).Ok?
            && r.2.value.loop.container.inputs == Unstamped(Frames(step, state, q.items).value.0) + [None]
            && Flushes(r.2.value.loop.container.inputs) == 1
            && r.2.value.loop.container.path == path
            && r.2.value.loop.state == Frames(step, state, q.items).value.1
  {
    RecordLog(step, enc, Loop(Open(path, frameRate), state), q.items);
    ConsumeAllFeeds(step, enc, Loop(Open(path, frameRate), state), q.items);
  }

  /** Starting a running sink and stopping a stopped one change nothing. */
  lemma StartStopNoOps<S, I>(step: Step<S, I>, enc: Encoder, s: Sink<S>, q: Queue<I>, state: S)
    requires Valid(s)
    ensures s.running ==> Start(s, state) == s
    ensures !s.running ==> Stop(step, enc, s, q) == (s, q, None)
  {
  }

  // ---------------------------------------------------------------------
  // The sink with the package's transcoder

  /** `PyAudio2PyAVTranscoder.transcode` as a loop step. */
  function TranscoderStep(t: Transcoder.Transcoder, item: (seq<int>, PortAudio.TimeInfo)): (r: Result<(AudioFrame, Transcoder.Transcoder)>)
    ensures r.Ok? <==> Transcoder.Transcode(t, item.0, item.1).Ok?
    ensures r.Ok? ==> r.value.0 == Transcoder.Transcode(t, item.0, item.1).value.frame
    ensures r.Ok? ==> r.value.1 == t.(encoded := t.encoded + 1)
  {
    var out :- Transcoder.Transcode(t, item.0, item.1);
    Ok((out.frame, out.next))
  }

  /** A loop step that yields the frame and next state of a transcoder step
      produces, over any queue, the frames of that transcoder's run. */
  lemma {:induction false} FramesOfRun(step: Step<Transcoder.Transcoder, (seq<int>, PortAudio.TimeInfo)>, run: Transcoder.Step,
                                       t: Transcoder.Transcoder, items: seq<(seq<int>, PortAudio.TimeInfo)>)
    requires forall s, item :: step(s, item).Ok? <==> run(s, item).Ok?
    requires forall s, item :: step(s, item).Ok? ==> step(s, item).value == (run(s, item).value.frame, run(s, item).value.next)
    ensures Frames(step, t, items).Ok? <==> Transcoder.Run(run, t, items).Ok?
    ensures Frames(step, t, items).Ok? ==>
              && Frames(step, t, items).value.1 == Transcoder.Run(run, t, items).value.1
              && forall k :: 0 <= k < |items| ==>
                   Frames(step, t, items).value.0[k] == Transcoder.Run(run, t, items).value.0[k].frame
    decreases |items|
  {
    if |items| > 0 && run(t, items[0]).Ok? {
      var next := run(t, items[0]).value.next;
      FramesOfRun(step, run, next, items[1..]);
      var f := Frames(step, next, items[1..]);
      var g := Transcoder.Run(run, next, items[1..]);
      if f.Ok? {
        var whole := Frames(step, t, items).value.0;
        var all := Transcoder.Run(run, t, items).value.0;
        assert whole == [run(t, items[0]).value.frame] + f.value.0;
        assert all == [run(t, items[0]).value] + g.value.0;
        forall k | 0 <= k < |items|
          ensures whole[k] == all[k].frame
        {
          if k > 0 {
            assert whole[k] == f.value.0[k - 1];
            assert all[k] == g.value.0[k - 1];
          }
        }
      }
    }
  }

  /** With the package's transcoder the frames the sink encodes are those
      of `TranscodeSeq`: item k of the queue becomes the k-th transcoded
      frame. */
  lemma TranscoderFrames(t: Transcoder.Transcoder, items: seq<(seq<int>, PortAudio.TimeInfo)>)
    ensures Frames(TranscoderStep, t, items).Ok? <==> Transcoder.TranscodeSeq(t, items).Ok?
    ensures Frames(TranscoderStep, t, items).Ok? ==>
              && Frames(TranscoderStep, t, items).value.1 == Transcoder.TranscodeSeq(t, items).value.1
              && forall k :: 0 <= k < |items| ==>
                   Frames(TranscoderStep, t, items).value.0[k] == Transcoder.TranscodeSeq(t, items).value.0[k].frame
  {
    assert Transcoder.TranscodeSeq(t, items) == Transcoder.Run(Transcoder.TranscodeItem, t, items);
    FramesOfRun(TranscoderStep, Transcoder.TranscodeItem, t, items);
  }

  /** A recording with the package's transcoder: between `start` and
      `stop` the queue received `items`; the file then holds, in FIFO order,
      the frame `TranscodeSeq` makes of each, pts cleared, then one flush,
      and the transcoder's counter has advanced once per item. */
  lemma TranscoderRecording(t: Transcoder.Transcoder, enc: Encoder, path: string, frameRate: int, q: Queue<(seq<int>, PortAudio.TimeInfo)>)
    requires Transcoder.TranscodeSeq(t, q.items).Ok?
    ensures var r := Stop(TranscoderStep, enc, Start(New(path, frameRate), t), q);
            var frames := Transcoder.TranscodeSeq(t, q.items).value.0;
            && r.2.Some? && r.2.value.error.None? && r.1.items == []
            && r.2.value.loop.container.closed
            && r.2.value.loop.container.path == path
            && |r.2.value.loop.container.inputs| == |q.items| + 1
            && (forall k :: 0 <= k < |q.items| ==> r.2.value.loop.container.inputs[k] == Some(frames[k].frame.(pts := None)))
            && r.2.value.loop.container.inputs[|q.items|].None?
            && Flushes(r.2.value.loop.container.inputs) == 1
            && r.2.value.loop.state == t.(encoded := t.encoded + |q.items|)
  {
    var l := Loop(Open(path, frameRate), t);
    TranscoderFrames(t, q.items);
    ConsumeAllFeeds(TranscoderStep, enc, l, q.items);
    StartThenStop(TranscoderStep, enc, path, frameRate, t, q);
    var fs := Frames(TranscoderStep, t, q.items).value.0;
    var inputs := Unstamped(fs) + [None];
    forall k | 0 <= k < |q.items|
      ensures inputs[k] == Some(Transcoder.TranscodeSeq(t, q.items).value.0[k].frame.(pts := None))
    {
      assert inputs[k] == Unstamped(fs)[k];
    }
  }
}
