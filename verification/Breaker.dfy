/** The failure window of app/core/forwarder.py: _record_failure, seen as a counter over time. */
module Breaker {
  import opened Common

  /** Failures counted since `firstAt`. */
  datatype Window = Window(count: nat, firstAt: int)
  type Failures = map<int, Window>

  /** The window after a failure at `now`; a window older than `length` starts over. */
  function Counted(w: Option<Window>, now: int, length: int): Window {
    var open := w.GetOr(Window(0, now));
    if now - open.firstAt > length then Window(1, now) else Window(open.count + 1, open.firstAt)
  }

  function Get(fs: Failures, id: int): Option<Window> {
    if id in fs then Some(fs[id]) else None
  }

  datatype Failure = Failure(id: int, now: int)

  /** The dictionary after a sequence of recorded failures of any keys. */
  function Recorded(events: seq<Failure>, length: int): Failures
    decreases |events|
  {
    if events == [] then map[]
    else
      var fs := Recorded(events[..|events| - 1], length);
      var e := events[|events| - 1];
      fs[e.id := Counted(Get(fs, e.id), e.now, length)]
  }

  /** The failure times of one key. */
  function TimesOf(events: seq<Failure>, id: int): seq<int>
    decreases |events|
  {
    if events == [] then []
    else
      var front := TimesOf(events[..|events| - 1], id);
      var e := events[|events| - 1];
      if e.id == id then front + [e.now] else front
  }

  /** The window of a key with these failure times, oldest first. */
  function Track(times: seq<int>, length: int): Option<Window>
    decreases |times|
  {
    if times == [] then None else Some(Counted(Track(times[..|times| - 1], length), times[|times| - 1], length))
  }

  /** Keys do not share windows: each entry is determined by the key's own failures. */
  lemma {:induction false} KeysAreIndependent(events: seq<Failure>, id: int, length: int)
    ensures Get(Recorded(events, length), id) == Track(TimesOf(events, id), length)
    decreases |events|
  {
    if events != [] {
      var front, e := events[..|events| - 1], events[|events| - 1];
      KeysAreIndependent(front, id, length);
      if e.id == id {
        var times := TimesOf(front, id) + [e.now];
        assert times[..|times| - 1] == TimesOf(front, id);
      }
    }
  }

  /** The i-th failure marks the key failed. */
  predicate Marks(times: seq<int>, i: nat, threshold: int, length: int)
    requires i < |times|
  {
    Track(times[..i + 1], length).value.count >= threshold
  }

  ghost predicate Ordered(times: seq<int>) {
    forall i, j :: 0 <= i <= j < |times| ==> times[i] <= times[j]
  }

  /** Index of the failure that opened the window in force at failure `i`. */
  function Opened(times: seq<int>, i: nat, length: int): (s: nat)
    requires i < |times|
    ensures s <= i
  {
    if i == 0 then 0
    else
      var s := Opened(times, i - 1, length);
      if times[i] - times[s] > length then i else s
  }

  /** The counter counts the failures since the window opened. */
  lemma {:induction false} CounterIsSpan(times: seq<int>, i: nat, length: int)
    requires i < |times| && length >= 0
    ensures Track(times[..i + 1], length)
            == Some(Window(i + 1 - Opened(times, i, length), times[Opened(times, i, length)]))
    decreases i
  {
    assert times[..i + 1][..i] == times[..i];
    if i > 0 {
      CounterIsSpan(times, i - 1, length);
    }
  }

  /** Between openings no failure is further than `length` from the opening one; each opening is. */
  lemma {:induction false} OpeningsAreApart(times: seq<int>, i: nat, length: int)
    requires i < |times| && length >= 0
    ensures var s := Opened(times, i, length);
            && times[i] - times[s] <= length
            && (s > 0 ==> times[s] - times[Opened(times, s - 1, length)] > length)
    decreases i
  {
    if i > 0 {
      OpeningsAreApart(times, i - 1, length);
    }
  }

  /** Only T failures within one window length mark a key. */
  lemma {:induction false} MarkNeedsFailures(times: seq<int>, i: nat, threshold: nat, length: int)
    requires i < |times| && Ordered(times) && length >= 0 && threshold >= 1
    requires Marks(times, i, threshold, length)
    ensures threshold <= i + 1 && times[i] - times[i + 1 - threshold] <= length
  {
    CounterIsSpan(times, i, length);
    OpeningsAreApart(times, i, length);
  }

  /** The number of recorded failures that forces a mark when they fall within one window length. */
  function Enough(threshold: nat): nat {
    Max(2 * threshold - 2, 1)
  }

  /**
   * Conversely, any span no longer than the window that holds max(2T - 2, 1) recorded failures of a key
   * marks it at least once, wherever the window in force at its start was opened.
   */
  lemma {:induction false} SpanForcesMark(times: seq<int>, a: nat, b: nat, threshold: nat, length: int)
    requires a < b <= |times| && Ordered(times) && length >= 0 && threshold >= 1
    requires times[b - 1] - times[a] <= length && b - a >= Enough(threshold)
    ensures exists i :: a <= i < b && Marks(times, i, threshold, length)
  {
    var s := Opened(times, b - 1, length);
    MarksWhen(times, b - 1, threshold, length);
    if b - s < threshold {
      OpenedBefore(times, a, b, length);
      MarksWhen(times, s - 1, threshold, length);
    }
  }

  /** A window opened inside a short span follows one that was opened before it. */
  lemma {:induction false} OpenedBefore(times: seq<int>, a: nat, b: nat, length: int)
    requires a < b <= |times| && Ordered(times) && length >= 0 && times[b - 1] - times[a] <= length
    requires Opened(times, b - 1, length) > a
    ensures Opened(times, Opened(times, b - 1, length) - 1, length) < a
  {
    var s := Opened(times, b - 1, length);
    OpeningsAreApart(times, b - 1, length);
    SpanWithin(times, a, b, Opened(times, s - 1, length), s);
  }

  lemma {:induction false} MarksWhen(times: seq<int>, i: nat, threshold: int, length: int)
    requires i < |times| && length >= 0
    ensures Marks(times, i, threshold, length) <==> i + 1 - Opened(times, i, length) >= threshold
  {
    CounterIsSpan(times, i, length);
  }

  lemma {:induction false} SpanWithin(times: seq<int>, a: nat, b: nat, o: nat, s: nat)
    requires Ordered(times) && o < |times| && s < b <= |times| && a < b
    ensures a <= o ==> times[s] - times[o] <= times[b - 1] - times[a]
  {
  }

  /** One failure fewer is not always enough: for every T >= 2 there is a run with 2T - 3 of them and no mark. */
  lemma {:induction false} EnoughIsSharp(threshold: nat, length: int)
    requires threshold >= 2 && length >= 1
    ensures var times := NearMiss(threshold, length);
            && Ordered(times) && |times[1..]| == Enough(threshold) - 1
            && times[|times| - 1] - times[1] <= length
            && forall i :: 0 <= i < |times| ==> !Marks(times, i, threshold, length)
  {
    var times := NearMiss(threshold, length);
    forall i | 0 <= i < |times|
      ensures !Marks(times, i, threshold, length)
    {
      NearMissOpens(threshold, length, i);
      CounterIsSpan(times, i, length);
    }
  }

  /** One failure, T - 2 more just in time for its window, and T - 1 just too late for it. */
  function NearMiss(threshold: nat, length: int): (times: seq<int>)
    requires threshold >= 2
    ensures |times| == 2 * threshold - 2
  {
    seq(2 * threshold - 2, i => if i == 0 then 0 else if i <= threshold - 2 then length else length + 1)
  }

  lemma {:induction false} NearMissOpens(threshold: nat, length: int, i: nat)
    requires threshold >= 2 && length >= 1 && i < 2 * threshold - 2
    ensures Opened(NearMiss(threshold, length), i, length) == if i <= threshold - 2 then 0 else threshold - 1
    decreases i
  {
    if i > 0 {
      NearMissOpens(threshold, length, i - 1);
    }
  }
}
