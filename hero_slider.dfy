/**
 * The hero carousel (src/components/HeroSlider.tsx): the events whose display window
 * contains now, and the slide index moved by the 5-second interval and the two arrow
 * buttons.
 */
module HeroSlider {
  import opened Wrappers
  import opened Seqs
  import opened DateWindow
  import opened Records

  /** The events kept after the fetch (lines 20-24), in fetched order. */
  function LiveEvents(data: seq<Event>, now: Date): (r: seq<Event>)
    ensures forall e :: e in r <==> e in data && InWindow(e.startDate, e.endDate, now)
    ensures IsSubsequence(r, data)
  {
    FilterIsSubsequence(data, (e: Event) => InWindow(e.startDate, e.endDate, now));
    Filter(data, (e: Event) => InWindow(e.startDate, e.endDate, now))
  }

  /** `(prev + 1) % events.length` (lines 34 and 89). */
  function Next(i: int, n: int): (r: int)
    requires 0 <= i < n
    ensures 0 <= r < n
    ensures r == if i == n - 1 then 0 else i + 1
  {
    (i + 1) % n
  }

  /** `(prev - 1 + events.length) % events.length` (line 83). */
  function Prev(i: int, n: int): (r: int)
    requires 0 <= i < n
    ensures 0 <= r < n
    ensures r == if i == 0 then n - 1 else i - 1
  {
    (i - 1 + n) % n
  }

  lemma PrevAfterNext(i: int, n: int)
    requires 0 <= i < n
    ensures Prev(Next(i, n), n) == i
  {
  }

  lemma NextAfterPrev(i: int, n: int)
    requires 0 <= i < n
    ensures Next(Prev(i, n), n) == i
  {
  }

  /** The index after `k` forward steps. */
  function Advance(i: int, n: int, k: nat): (r: int)
    requires 0 <= i < n
    ensures 0 <= r < n
  {
    if k == 0 then i else Next(Advance(i, n, k - 1), n)
  }

  /** Before the end is reached, `k` steps move `k` slides forward. */
  lemma {:induction false} AdvanceWithoutWrap(i: int, n: int, k: nat)
    requires 0 <= i && i + k < n
    ensures Advance(i, n, k) == i + k
  {
    if k > 0 {
      AdvanceWithoutWrap(i, n, k - 1);
    }
  }

  /** Steps compose: `a` steps and then `b` steps are `a + b` steps. */
  lemma {:induction false} AdvanceCompose(i: int, n: int, a: nat, b: nat)
    requires 0 <= i < n
    ensures Advance(i, n, a + b) == Advance(Advance(i, n, a), n, b)
  {
    if b > 0 {
      AdvanceCompose(i, n, a, b - 1);
    }
  }

  /** The carousel cycles: `n` ticks come back to the same slide, after passing the first. */
  lemma FullCycleReturns(i: int, n: int)
    requires 0 <= i < n
    ensures Advance(i, n, n - i) == 0
    ensures Advance(i, n, n) == i
  {
    AdvanceWithoutWrap(i, n, n - i - 1);
    AdvanceCompose(i, n, n - i, i);
    AdvanceWithoutWrap(0, n, i);
  }

  /** The carousel's state. */
  class Slider {
    var events: seq<Event>
    var currentIndex: int

    /** The index addresses a slide whenever there are slides. */
    predicate Valid()
      reads this
    {
      0 <= currentIndex && (events != [] ==> currentIndex < |events|)
    }

    constructor ()
      ensures Valid() && events == [] && currentIndex == 0
    {
      events, currentIndex := [], 0;
    }

    /** `fetchEvents` on mount (lines 11-27); `data` is the store's answer, if any. */
    method Fetch(data: Option<seq<Event>>, now: Date)
      requires events == [] && currentIndex == 0
      modifies this`events
      ensures Valid()
      ensures events == if data.Some? then LiveEvents(data.value, now) else []
    {
      if data.Some? {
        events := LiveEvents(data.value, now);
      }
    }

    /** Line 39: nothing is rendered, and (line 32) no interval runs, without events. */
    predicate Rendered()
      reads this
    {
      events != []
    }

    /** One tick of the interval, or the right arrow. */
    method Forward()
      requires Valid() && Rendered()
      modifies this`currentIndex
      ensures Valid()
      ensures currentIndex == Next(old(currentIndex), |events|)
    {
      currentIndex := (currentIndex + 1) % |events|;
    }

    /** The left arrow. */
    method Back()
      requires Valid() && Rendered()
      modifies this`currentIndex
      ensures Valid()
      ensures currentIndex == Prev(old(currentIndex), |events|)
    {
      currentIndex := (currentIndex - 1 + |events|) % |events|;
    }

    /** The slide on screen. */
    function Current(): (e: Event)
      requires Valid() && Rendered()
      reads this
      ensures e in events
    {
      events[currentIndex]
    }
  }
}
