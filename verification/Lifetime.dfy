/**
The reference count of a transport (`src/ayame_transport.h`, lines 39, 66-76, 150 and 196):
one reference for its owner until `Destroy`, one for every live stream.
*/
module Lifetime {

  /** `frees`: how often the transport was freed. */
  datatype Life = Life(refs: nat, owned: bool, live: set<nat>, frees: nat)

  datatype Event = Builds(stream: nat) | Destroys(stream: nat) | Releases

  function Unref(l: Life): Life
    requires l.refs > 0
  {
    if l.refs == 1 then l.(refs := 0, frees := l.frees + 1) else l.(refs := l.refs - 1)
  }

  /** A stream is built on a transport that exists; a live stream is destroyed once; the owner lets go once. */
  predicate Allowed(l: Life, e: Event) {
    l.refs > 0 &&
    match e
    case Builds(s) => s !in l.live
    case Destroys(s) => s in l.live
    case Releases => l.owned
  }

  function Step(l: Life, e: Event): Life {
    if !Allowed(l, e) then l
    else match e
      case Builds(s) => l.(refs := l.refs + 1, live := l.live + {s})
      case Destroys(s) => Unref(l.(live := l.live - {s}))
      case Releases => Unref(l.(owned := false))
  }

  function Run(events: seq<Event>): Life {
    if events == [] then Life(1, true, {}, 0) else Step(Run(events[..|events| - 1]), events[|events| - 1])
  }

  ghost predicate LifeOk(l: Life) {
    && l.refs == |l.live| + (if l.owned then 1 else 0)
    && l.frees == (if l.refs == 0 then 1 else 0)
  }

  lemma StepKeeps(l: Life, e: Event)
    requires LifeOk(l)
    ensures LifeOk(Step(l, e))
  {
  }

  /** In every run the count is the owner's reference plus the live streams, and the transport
      is freed exactly once, when neither is left; then nothing that uses it is allowed any more. */
  lemma {:induction false} FreedExactlyOnce(events: seq<Event>)
    ensures LifeOk(Run(events))
    ensures Run(events).frees <= 1
    ensures Run(events).frees == 1 <==> !Run(events).owned && Run(events).live == {}
    ensures Run(events).frees == 1 ==> forall e :: !Allowed(Run(events), e)
  {
    if events == [] {
    } else {
      FreedExactlyOnce(events[..|events| - 1]);
      StepKeeps(Run(events[..|events| - 1]), events[|events| - 1]);
    }
  }
}
