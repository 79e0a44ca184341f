/**
The two queues at which arriving frames meet waiting continuations: `data_queue_` and
`func_queue_` of `AyameStream`, with the frames already handed over as a history.
*/
module Rendezvous {

  datatype Meeting<W, D> = Meeting(data: seq<D>, waiting: seq<W>, matched: seq<(W, D)>)

  /** The queue part of `OnMessage`. */
  function OnData<W, D>(r: Meeting<W, D>, d: D): Meeting<W, D> {
    if r.waiting != [] then Meeting(r.data, r.waiting[1..], r.matched + [(r.waiting[0], d)])
    else r.(data := r.data + [d])
  }

  /** The queue part of `WaitForRecv`. */
  function OnWait<W, D>(r: Meeting<W, D>, w: W): Meeting<W, D> {
    if r.data != [] then Meeting(r.data[1..], r.waiting, r.matched + [(w, r.data[0])])
    else r.(waiting := r.waiting + [w])
  }

  datatype Event<W, D> = Arrives(d: D) | Waits(w: W)

  function Step<W, D>(r: Meeting<W, D>, e: Event<W, D>): Meeting<W, D> {
    match e
    case Arrives(d) => OnData(r, d)
    case Waits(w) => OnWait(r, w)
  }

  /** The state after an interleaving of arrivals and waits, from empty queues. */
  function Run<W, D>(events: seq<Event<W, D>>): Meeting<W, D> {
    if events == [] then Meeting([], [], []) else Step(Run(events[..|events| - 1]), events[|events| - 1])
  }

  function Arrivals<W, D>(events: seq<Event<W, D>>): seq<D> {
    if events == [] then []
    else
      var e := events[|events| - 1];
      Arrivals(events[..|events| - 1]) + if e.Arrives? then [e.d] else []
  }

  function Waiters<W, D>(events: seq<Event<W, D>>): seq<W> {
    if events == [] then []
    else
      var e := events[|events| - 1];
      Waiters(events[..|events| - 1]) + if e.Waits? then [e.w] else []
  }

  function Min(a: nat, b: nat): nat { if a < b then a else b }

  /** The order-independent description: the k-th frame with the k-th waiter, surplus queued. */
  function Paired<W, D>(ds: seq<D>, ws: seq<W>): Meeting<W, D> {
    var n := Min(|ds|, |ws|);
    Meeting(ds[n..], ws[n..], seq(n, i requires 0 <= i < n => (ws[i], ds[i])))
  }

  lemma PairedArrival<W, D>(ds: seq<D>, ws: seq<W>, d: D)
    ensures OnData(Paired(ds, ws), d) == Paired(ds + [d], ws)
  {
    var l, r := OnData(Paired(ds, ws), d), Paired(ds + [d], ws);
    assert l.data == r.data && l.waiting == r.waiting;
    assert l.matched == r.matched;
  }

  lemma PairedWait<W, D>(ds: seq<D>, ws: seq<W>, w: W)
    ensures OnWait(Paired(ds, ws), w) == Paired(ds, ws + [w])
  {
    var l, r := OnWait(Paired(ds, ws), w), Paired(ds, ws + [w]);
    assert l.data == r.data && l.waiting == r.waiting;
    assert l.matched == r.matched;
  }

  /** Every interleaving pairs the k-th arrival with the k-th waiter, exactly once. */
  lemma {:induction false} Confluence<W, D>(events: seq<Event<W, D>>)
    ensures Run(events) == Paired(Arrivals(events), Waiters(events))
  {
    if events == [] {
    } else {
      var front, e := events[..|events| - 1], events[|events| - 1];
      Confluence(front);
      match e {
        case Arrives(d) => PairedArrival(Arrivals(front), Waiters(front), d);
        case Waits(w) => PairedWait(Arrivals(front), Waiters(front), w);
      }
    }
  }

  /** Two runs with the same arrivals and the same waiters end in the same state, and never
      do both queues hold something. */
  lemma InterleavingIsIrrelevant<W, D>(xs: seq<Event<W, D>>, ys: seq<Event<W, D>>)
    requires Arrivals(xs) == Arrivals(ys) && Waiters(xs) == Waiters(ys)
    ensures Run(xs) == Run(ys)
    ensures Run(xs).data == [] || Run(xs).waiting == []
  {
    Confluence(xs);
    Confluence(ys);
  }
}
