/** The provider chain of backend/app/core/llm/providers/fallback.py: each provider is given the
    rest of one shared deadline for its first chunk, and once a chunk is out there is no way
    back. */
module FallbackStream {

  datatype Ending = Finishes | Fails

  /** How one provider behaves when tried: `pause` passes before it is asked, `firstDelay` until
      its first event, which is its first chunk or, without chunks, its ending. */
  datatype Provider = Provider(pause: real, firstDelay: real, chunks: seq<string>, ending: Ending)

  /** A wait for a first chunk: when it began, and when it was over. */
  datatype Wait = Wait(began: real, over: real)

  /** How an attempt with one provider ended: with nothing said, with its whole stream, broken
      off by a failure after some chunks, or closed by the consumer. */
  datatype Attempt = Nothing | Whole | Broken | Closed

  datatype Outcome = Served(provider: nat, attempt: Attempt) | AllFailed

  /** Asked with so much time left, the provider ends with nothing said. */
  predicate Silent(p: Provider, remaining: real) {
    p.firstDelay > remaining || (p.chunks == [] && p.ending.Fails?)
  }

  predicate Sane(providers: seq<Provider>) {
    forall i :: 0 <= i < |providers| ==> providers[i].pause >= 0.0 && providers[i].firstDelay >= 0.0
  }

  function Min(a: real, b: real): real { if a <= b then a else b }

  function ClockAfter(waits: seq<Wait>, start: real): real {
    if waits == [] then start else waits[|waits| - 1].over
  }

  /** A wait as the chain must make it: it begins once the provider's pause has passed, with
      time left, and lasts until the provider's first event or the deadline. */
  predicate WaitFor(p: Provider, w: Wait, clock: real, deadline: real) {
    && w.began == clock + p.pause
    && w.began < deadline
    && w.over == w.began + Min(p.firstDelay, deadline - w.began)
  }

  /** One wait after another, each beginning when the one before is over. */
  predicate Scheduled(providers: seq<Provider>, waits: seq<Wait>, start: real, deadline: real)
    requires |waits| <= |providers|
  {
    waits == [] ||
    (var i := |waits| - 1;
     && Scheduled(providers, waits[..i], start, deadline)
     && WaitFor(providers[i], waits[i], ClockAfter(waits[..i], start), deadline))
  }

  /** In its wait the provider stayed silent. */
  predicate InVain(p: Provider, w: Wait, deadline: real) {
    Silent(p, deadline - w.began)
  }

  /** No first chunk is awaited past the shared deadline, however many providers there are. */
  lemma {:induction false} WaitsWithinDeadline(
      providers: seq<Provider>, waits: seq<Wait>, start: real, deadline: real, i: nat)
    requires Sane(providers) && |waits| <= |providers| && Scheduled(providers, waits, start, deadline) && i < |waits|
    ensures start <= waits[i].began <= waits[i].over <= deadline
    ensures i > 0 ==> waits[i - 1].over <= waits[i].began
  {
    var last := |waits| - 1;
    if i < last {
      WaitsWithinDeadline(providers, waits[..last], start, deadline, i);
    } else if last > 0 {
      WaitsWithinDeadline(providers, waits[..last], start, deadline, last - 1);
    }
  }

  lemma NextWait(providers: seq<Provider>, waits: seq<Wait>, start: real, deadline: real, w: Wait)
    requires |waits| < |providers| && Scheduled(providers, waits, start, deadline)
    requires WaitFor(providers[|waits|], w, ClockAfter(waits, start), deadline)
    ensures Scheduled(providers, waits + [w], start, deadline) && ClockAfter(waits + [w], start) == w.over
  {
    assert (waits + [w])[..|waits|] == waits;
  }

  /** What was emitted fits how the attempt ended. */
  predicate Emits(p: Provider, attempt: Attempt, emitted: seq<string>, demand: nat) {
    match attempt
    case Nothing => emitted == []
    case Whole => emitted == p.chunks && p.ending.Finishes?
    case Broken => emitted == p.chunks && emitted != [] && p.ending.Fails?
    case Closed => emitted <= p.chunks && |emitted| == demand
  }

  /** Every provider tried stayed silent, and for the next one, if any, no time is left. */
  predicate GaveUp(providers: seq<Provider>, waits: seq<Wait>, start: real, deadline: real) {
    && |waits| <= |providers|
    && (forall i :: 0 <= i < |waits| ==> InVain(providers[i], waits[i], deadline))
    && (|waits| < |providers| ==> ClockAfter(waits, start) + providers[|waits|].pause >= deadline)
  }

  /** The last provider tried is the first that did not stay silent. */
  predicate FirstToSpeak(providers: seq<Provider>, waits: seq<Wait>, last: nat, deadline: real) {
    && |waits| == last + 1 <= |providers|
    && (forall i :: 0 <= i < last ==> InVain(providers[i], waits[i], deadline))
    && !InVain(providers[last], waits[last], deadline)
  }

  /** One provider, with time left: wait for its first event, then relay its chunks. */
  method TryProvider(p: Provider, clock: real, deadline: real, demand: nat)
    returns (w: Wait, emitted: seq<string>, attempt: Attempt)
    requires clock + p.pause < deadline
    ensures WaitFor(p, w, clock, deadline)
    ensures attempt.Nothing? <==> InVain(p, w, deadline)
    ensures Emits(p, attempt, emitted, demand)
  {
    var began := clock + p.pause;
    var remaining := deadline - began;
    if p.firstDelay > remaining {
      return Wait(began, began + remaining), [], Nothing;
    }
    w := Wait(began, began + p.firstDelay);
    var closed;
    emitted, closed := Relay(p.chunks, demand);
    attempt := if closed then Closed
               else if p.ending.Finishes? then Whole
               else if emitted != [] then Broken
               else Nothing;
  }

  /** stream_complete, for a consumer that closes the stream after `demand` chunks.

      Whatever the providers do, the chunks emitted are a prefix of one provider's stream, every
      provider before it was tried on schedule and stayed silent, and the chain gives up only
      when every provider did or the deadline is spent. */
  method StreamComplete(providers: seq<Provider>, start: real, deadline: real, demand: nat)
    returns (emitted: seq<string>, outcome: Outcome, waits: seq<Wait>)
    ensures |waits| <= |providers| && Scheduled(providers, waits, start, deadline)
    ensures outcome.AllFailed? ==> emitted == [] && GaveUp(providers, waits, start, deadline)
    ensures outcome.Served? ==>
              && FirstToSpeak(providers, waits, outcome.provider, deadline)
              && !outcome.attempt.Nothing? && Emits(providers[outcome.provider], outcome.attempt, emitted, demand)
  {
    var now := start;
    waits := [];
    for i := 0 to |providers|
      invariant |waits| == i && now == ClockAfter(waits, start)
      invariant Scheduled(providers, waits, start, deadline)
      invariant forall k :: 0 <= k < i ==> InVain(providers[k], waits[k], deadline)
    {
      if deadline - (now + providers[i].pause) <= 0.0 {
        return [], AllFailed, waits;
      }
      var w, attempt;
      w, emitted, attempt := TryProvider(providers[i], now, deadline, demand);
      NextWait(providers, waits, start, deadline, w);
      waits, now := waits + [w], w.over;
      if !attempt.Nothing? {
        return emitted, Served(i, attempt), waits;
      }
    }
    return [], AllFailed, waits;
  }

  /** The inner loop: pass chunks on until they end or the consumer stops asking. */
  method Relay(chunks: seq<string>, demand: nat) returns (emitted: seq<string>, closed: bool)
    ensures emitted <= chunks
    ensures closed ==> chunks != [] && |emitted| == demand
    ensures !closed ==> emitted == chunks
  {
    emitted := [];
    var n := 0;
    while n < |chunks|
      invariant 0 <= n <= |chunks| && n <= demand
      invariant emitted == chunks[..n]
    {
      if n == demand {
        return emitted, true;
      }
      emitted := emitted + [chunks[n]];
      n := n + 1;
    }
    closed := false;
  }
}
