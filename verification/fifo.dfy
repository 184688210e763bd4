/** The slice of Python's `queue.Queue` the pipeline uses: `put_nowait` and
    `get_nowait`, with `maxsize <= 0` meaning unbounded. */
module Fifo {
  import opened Wrappers

  datatype Queue<T> = Queue(items: seq<T>, maxsize: int)

  /** `queue.Queue()`: empty and unbounded. */
  function Unbounded<T>(): (q: Queue<T>)
    ensures q.items == [] && q.maxsize <= 0
  {
    Queue([], 0)
  }

  /** `q.full()` */
  predicate Full<T>(q: Queue<T>)
  {
    q.maxsize > 0 && |q.items| >= q.maxsize
  }

  /** `put_nowait`: append at the back, or raise Full. */
  function Put<T>(q: Queue<T>, x: T): (r: Result<Queue<T>>)
    ensures r.Err? <==> Full(q)
    ensures r.Err? ==> r.error == QueueFull
    ensures r.Ok? ==> r.value.items == q.items + [x] && r.value.maxsize == q.maxsize
  {
    if Full(q) then Err(QueueFull) else Ok(q.(items := q.items + [x]))
  }

  /** `get_nowait`: remove from the front, or raise Empty. */
  function Get<T>(q: Queue<T>): (r: Result<(T, Queue<T>)>)
    ensures r.Err? <==> |q.items| == 0
    ensures r.Err? ==> r.error == QueueEmpty
    ensures r.Ok? ==> [r.value.0] + r.value.1.items == q.items && r.value.1.maxsize == q.maxsize
  {
    if |q.items| == 0 then Err(QueueEmpty) else Ok((q.items[0], q.(items := q.items[1..])))
  }

  /** Put with the callers' `except queue.Full: pass`: a full queue drops
      the item and stays as it was. */
  function Offer<T>(q: Queue<T>, x: T): (r: Queue<T>)
    ensures r == (if Full(q) then q else q.(items := q.items + [x]))
  {
    match Put(q, x)
    case Ok(q') => q'
    case Err(_) => q
  }

  /** Offering items one after the other. */
  function OfferAll<T>(q: Queue<T>, xs: seq<T>): Queue<T>
    decreases |xs|
  {
    if |xs| == 0 then q else OfferAll(Offer(q, xs[0]), xs[1..])
  }

  /** With no reader, a queue of capacity K (unbounded for K <= 0) that
      starts empty keeps the first K offered items, in order, and drops the
      rest. */
  lemma {:induction false} OfferAllKeepsPrefix<T>(q: Queue<T>, xs: seq<T>)
    requires q.maxsize <= 0 || |q.items| <= q.maxsize
    ensures var room := if q.maxsize <= 0 then |xs| else q.maxsize - |q.items|;
            var kept := if |xs| < room then |xs| else room;
            OfferAll(q, xs) == q.(items := q.items + xs[..kept])
    decreases |xs|
  {
    if |xs| > 0 {
      var q1 := Offer(q, xs[0]);
      OfferAllKeepsPrefix(q1, xs[1..]);
      if !Full(q) {
        var room := if q.maxsize <= 0 then |xs| else q.maxsize - |q.items|;
        var kept := if |xs| < room then |xs| else room;
        assert q1.items + xs[1..][..kept - 1] == q.items + xs[..kept];
      } else {
        assert xs[..0] == [];
        assert xs[1..][..0] == [];
      }
    } else {
      assert xs[..0] == [];
    }
  }

  /** Reading everything back yields the items in the order they were put:
      the queue is first in, first out. */
  function Drain<T>(q: Queue<T>): (r: seq<T>)
    decreases |q.items|
  {
    match Get(q)
    case Err(_) => []
    case Ok((x, rest)) => [x] + Drain(rest)
  }

  lemma {:induction false} DrainIsItems<T>(q: Queue<T>)
    ensures Drain(q) == q.items
    decreases |q.items|
  {
    if |q.items| > 0 {
      var (x, rest) := Get(q).value;
      DrainIsItems(rest);
    }
  }
}
