/** A sliding-window event counter. */
module Limiting {

  type Time = int

  /** The events younger than the window, in order. */
  function Pruned(events: seq<Time>, cutoff: Time): (r: seq<Time>)
    ensures |r| <= |events|
  {
    if events == [] then []
    else
      var front, last := Pruned(events[..|events| - 1], cutoff), events[|events| - 1];
      if last > cutoff then front + [last] else front
  }

  class Limiter {
    var events: seq<Time>
    const maxCount: int
    const window: int

    constructor (maxCount: int, window: int)
      ensures events == [] && this.maxCount == maxCount && this.window == window
    {
      this.maxCount, this.window, events := maxCount, window, [];
    }

    /** Compact the unexpired events to the front, in place, and cut off the rest. */
    method Prune(now: Time)
      modifies this`events
      ensures events == Pruned(old(events), now - window)
    {
      var cutoff := now - window;
      var valid := 0;
      ghost var was := events;
      for i := 0 to |events|
        invariant |events| == |was| && 0 <= valid <= i
        invariant events[..valid] == Pruned(was[..i], cutoff)
        invariant events[i..] == was[i..]
      {
        var t := events[i];
        assert t == was[i] && was[..i + 1][..i] == was[..i];
        if t > cutoff {
          ghost var before := events;
          events := events[valid := t];
          assert events[..valid] == before[..valid] && events[..valid + 1] == events[..valid] + [t];
          assert events[i + 1..] == before[i..][1..] && was[i + 1..] == was[i..][1..];
          valid := valid + 1;
        }
      }
      assert was[..|was|] == was;
      events := events[..valid];
    }

    /** The clock is read once to prune and once more to record. */
    method Allow(now: Time, stamp: Time) returns (ok: bool)
      modifies this`events
      ensures ok <==> |Pruned(old(events), now - window)| < maxCount
      ensures events == Pruned(old(events), now - window) + (if ok then [stamp] else [])
    {
      Prune(now);
      if |events| >= maxCount {
        return false;
      }
      events := events + [stamp];
      return true;
    }

    method Exceeded(now: Time) returns (r: bool)
      modifies this`events
      ensures r <==> |Pruned(old(events), now - window)| >= maxCount
      ensures events == Pruned(old(events), now - window)
    {
      Prune(now);
      r := |events| >= maxCount;
    }

    method Record(now: Time, stamp: Time)
      modifies this`events
      ensures events == Pruned(old(events), now - window) + [stamp]
    {
      Prune(now);
      events := events + [stamp];
    }
  }

  // ----- runs of Allow -----

  /** One call: when it pruned and when, if it got that far, it recorded. */
  datatype Call = Call(now: Time, stamp: Time)

  /** The clock never runs backwards, within a call or between calls. */
  ghost predicate Monotone(calls: seq<Call>) {
    && (forall i :: 0 <= i < |calls| ==> calls[i].now <= calls[i].stamp)
    && (forall i, j :: 0 <= i < j < |calls| ==> calls[i].stamp <= calls[j].now)
  }

  /** One call of Allow on what is remembered. */
  ghost predicate Accepts(remembered: seq<Time>, call: Call, max: int, window: int) {
    |Pruned(remembered, call.now - window)| < max
  }

  ghost function Remember(remembered: seq<Time>, call: Call, max: int, window: int): seq<Time> {
    Pruned(remembered, call.now - window) + Mark(remembered, call, max, window)
  }

  ghost function Mark(remembered: seq<Time>, call: Call, max: int, window: int): seq<Time> {
    if Accepts(remembered, call, max, window) then [call.stamp] else []
  }

  /** What the limiter remembers after a run. */
  ghost function Remembered(calls: seq<Call>, max: int, window: int): seq<Time> {
    if calls == [] then []
    else Remember(Remembered(calls[..|calls| - 1], max, window), calls[|calls| - 1], max, window)
  }

  /** The times of all events ever accepted over a run. */
  ghost function Accepted(calls: seq<Call>, max: int, window: int): (r: seq<Time>) {
    if calls == [] then []
    else
      var front := calls[..|calls| - 1];
      Accepted(front, max, window) + Mark(Remembered(front, max, window), calls[|calls| - 1], max, window)
  }

  ghost predicate Ordered(s: seq<Time>) { forall i, j :: 0 <= i < j < |s| ==> s[i] <= s[j] }

  /** On an ordered list pruning is dropping a prefix. */
  lemma {:induction false} PrunedIsSuffix(s: seq<Time>, cutoff: Time)
    requires Ordered(s)
    ensures Pruned(s, cutoff) == s[|s| - |Pruned(s, cutoff)|..]
    ensures forall i :: 0 <= i < |s| ==> (s[i] > cutoff <==> |s| - |Pruned(s, cutoff)| <= i)
  {
    if s != [] {
      var front, last := s[..|s| - 1], s[|s| - 1];
      PrunedIsSuffix(front, cutoff);
      var k := |front| - |Pruned(front, cutoff)|;
      forall i | 0 <= i < |s| - 1 ensures s[i] > cutoff <==> k <= i { assert s[i] == front[i]; }
      if last > cutoff {
        assert s[k..] == front[k..] + [last];
      } else {
        assert forall i :: 0 <= i < |front| ==> front[i] <= last;
      }
    }
  }

  /** What is remembered is the end of what was accepted, and what is forgotten has expired. */
  ghost predicate Faithful(remembered: seq<Time>, accepted: seq<Time>, latest: Time, window: int) {
    && Ordered(accepted)
    && |remembered| <= |accepted| && remembered == accepted[|accepted| - |remembered|..]
    && (forall i :: 0 <= i < |accepted| ==> accepted[i] <= latest)
    && (forall i :: 0 <= i < |accepted| - |remembered| ==> accepted[i] <= latest - window)
  }

  /** No stretch of fewer than `window` holds more than max accepted events. */
  ghost predicate Bounded(accepted: seq<Time>, max: int, window: int) {
    forall i, j :: 0 <= i <= j < |accepted| && accepted[j] - accepted[i] < window ==> j - i + 1 <= max
  }

  lemma SuffixOrdered(s: seq<Time>, k: int)
    requires Ordered(s) && 0 <= k <= |s|
    ensures Ordered(s[k..])
  {
  }

  lemma PruneKeepsFaithful(remembered: seq<Time>, accepted: seq<Time>, latest: Time, now: Time, window: int)
    requires Faithful(remembered, accepted, latest, window) && latest <= now
    ensures Faithful(Pruned(remembered, now - window), accepted, now, window)
    ensures forall i :: 0 <= i < |accepted| && accepted[i] > now - window ==>
      |accepted| - i <= |Pruned(remembered, now - window)|
  {
    var kept, gone := Pruned(remembered, now - window), |accepted| - |remembered|;
    SuffixOrdered(accepted, gone);
    PrunedIsSuffix(remembered, now - window);
    hide Pruned;
    forall i | 0 <= i < |accepted| ensures accepted[i] > now - window <==> |accepted| - |kept| <= i {
      if i >= gone { assert remembered[i - gone] == accepted[i]; }
    }
  }

  lemma AcceptKeepsBound(kept: seq<Time>, accepted: seq<Time>, call: Call, max: int, window: int)
    requires Faithful(kept, accepted, call.now, window) && call.now <= call.stamp && |kept| < max
    requires Bounded(accepted, max, window)
    requires forall i :: 0 <= i < |accepted| && accepted[i] > call.now - window ==> |accepted| - i <= |kept|
    ensures Bounded(accepted + [call.stamp], max, window)
    ensures Faithful(kept + [call.stamp], accepted + [call.stamp], call.stamp, window)
  {
    var all := accepted + [call.stamp];
    forall i, j | 0 <= i <= j < |all| && all[j] - all[i] < window ensures j - i + 1 <= max {
      if j < |accepted| {
        assert accepted[j] - accepted[i] < window;
      } else if i < |accepted| {
        assert accepted[i] > call.now - window;
      }
    }
  }

  lemma LaterIsFine(remembered: seq<Time>, accepted: seq<Time>, latest: Time, later: Time, window: int)
    requires Faithful(remembered, accepted, latest, window) && latest <= later
    ensures Faithful(remembered, accepted, later, window)
  {
  }

  lemma CallKeepsBound(remembered: seq<Time>, accepted: seq<Time>, before: Time, call: Call, max: int, window: int)
    requires Faithful(remembered, accepted, before, window) && before <= call.now <= call.stamp
    requires Bounded(accepted, max, window) && window >= 0
    ensures var next := accepted + Mark(remembered, call, max, window);
            Faithful(Remember(remembered, call, max, window), next, call.stamp, window) && Bounded(next, max, window)
  {
    hide Faithful, Bounded, Pruned;
    PruneKeepsFaithful(remembered, accepted, before, call.now, window);
    var kept := Pruned(remembered, call.now - window);
    if |kept| < max {
      AcceptKeepsBound(kept, accepted, call, max, window);
    } else {
      assert accepted + [] == accepted && kept + [] == kept;
      LaterIsFine(kept, accepted, call.now, call.stamp, window);
    }
  }

  ghost function Latest(calls: seq<Call>): Time { if calls == [] then 0 else calls[|calls| - 1].stamp }

  lemma MonotoneFront(calls: seq<Call>)
    requires Monotone(calls) && calls != []
    ensures var front, last := calls[..|calls| - 1], calls[|calls| - 1];
            Monotone(front) && last.now <= last.stamp && (front != [] ==> Latest(front) <= last.now)
  {
  }

  lemma {:induction false} RunIsFaithful(calls: seq<Call>, max: int, window: int)
    requires Monotone(calls) && window >= 0
    ensures Faithful(Remembered(calls, max, window), Accepted(calls, max, window), Latest(calls), window)
    ensures Bounded(Accepted(calls, max, window), max, window)
  {
    if calls != [] {
      var front, last := calls[..|calls| - 1], calls[|calls| - 1];
      MonotoneFront(calls);
      RunIsFaithful(front, max, window);
      hide Faithful, Bounded, Remember, Mark, Monotone;
      if front == [] {
        NothingYet(last.now, window, max);
        CallKeepsBound([], [], last.now, last, max, window);
      } else {
        CallKeepsBound(Remembered(front, max, window), Accepted(front, max, window), Latest(front), last, max, window);
      }
    }
  }

  lemma NothingYet(latest: Time, window: int, max: int)
    ensures Faithful([], [], latest, window) && Bounded([], max, window)
  {
  }

  /** The sliding-window bound: over any run of Allow under a monotone clock, no half-open interval
      of length `window`, closed at either end, holds more than max accepted events. */
  lemma WindowBound(calls: seq<Call>, max: int, window: int, from: Time, i: int, j: int)
    requires Monotone(calls) && window >= 0
    requires 0 <= i <= j < |Accepted(calls, max, window)|
    requires var a := Accepted(calls, max, window);
             (from <= a[i] && a[j] < from + window) || (from < a[i] && a[j] <= from + window)
    ensures j - i + 1 <= max
  {
    RunIsFaithful(calls, max, window);
  }

  lemma BeforeLast(front: seq<Call>, last: Call, max: int, window: int) returns (latest: Time)
    requires Monotone(front + [last]) && window >= 0
    ensures latest <= last.now && Faithful(Remembered(front, max, window), Accepted(front, max, window), latest, window)
  {
    assert (front + [last])[..|front|] == front;
    hide Remembered, Accepted, Faithful, Bounded;
    MonotoneFront(front + [last]);
    if front == [] {
      latest := last.now;
      NothingYet(last.now, window, max);
      NothingAccepted(max, window);
    } else {
      latest := Latest(front);
      RunIsFaithful(front, max, window);
    }
  }

  /** At least max events, the max-th last of them after the cutoff. */
  predicate FullAfter(events: seq<Time>, max: int, cutoff: Time) {
    0 < max <= |events| && events[|events| - max] > cutoff
  }

  /** Refusals are as few as the bound allows: over any run the next event is refused exactly if max events
      were accepted before and the max-th last of them is still in the window. */
  lemma AllowedIff(front: seq<Call>, last: Call, max: int, window: int)
    requires Monotone(front + [last]) && window >= 0 && max > 0
    ensures var before := Accepted(front, max, window);
            Accepted(front + [last], max, window) ==
              if FullAfter(before, max, last.now - window) then before else before + [last.stamp]
  {
    hide *;
    AcceptedIs(front, last, max, window);
    var latest := BeforeLast(front, last, max, window);
    MarkIs(Remembered(front, max, window), last, max, window);
    KeptCount(Remembered(front, max, window), Accepted(front, max, window), latest, last.now, window, max);
    assert Accepted(front, max, window) + [] == Accepted(front, max, window);
  }

  lemma AcceptedIs(front: seq<Call>, last: Call, max: int, window: int)
    ensures Accepted(front + [last], max, window)
         == Accepted(front, max, window) + Mark(Remembered(front, max, window), last, max, window)
  {
    assert (front + [last])[..|front|] == front;
  }

  lemma MarkIs(remembered: seq<Time>, call: Call, max: int, window: int)
    ensures |Pruned(remembered, call.now - window)| < max ==> Mark(remembered, call, max, window) == [call.stamp]
    ensures |Pruned(remembered, call.now - window)| >= max ==> Mark(remembered, call, max, window) == []
  {
  }

  lemma NothingAccepted(max: int, window: int)
    ensures Remembered([], max, window) == [] && Accepted([], max, window) == []
  {
  }

  lemma KeptCount(remembered: seq<Time>, accepted: seq<Time>, latest: Time, now: Time, window: int, max: int)
    requires Faithful(remembered, accepted, latest, window) && latest <= now && max > 0
    ensures |Pruned(remembered, now - window)| < max <==> !FullAfter(accepted, max, now - window)
  {
    var gone := |accepted| - |remembered|;
    SuffixOrdered(accepted, gone);
    PrunedIsSuffix(remembered, now - window);
    hide Pruned;
    if |accepted| >= max {
      var k := |accepted| - max;
      if k >= gone { assert remembered[k - gone] == accepted[k]; }
    }
  }
}
