/**
 * The display window shared by the banner messages (Marquee.tsx) and the hero events
 * (HeroSlider.tsx): an item is excluded when its start is after now or its end is before
 * now, so both bounds are inclusive and an absent bound does not restrict.
 */
module DateWindow {
  import opened Wrappers
  import opened Records

  predicate InWindow(start: Option<Date>, end: Option<Date>, now: Date) {
    (start.None? || start.value <= now) && (end.None? || now <= end.value)
  }

  /**
   * For a fixed window the instants inside it form an interval: as `now` grows the
   * item turns on at most once and off at most once.
   */
  lemma WindowConvex(start: Option<Date>, end: Option<Date>, a: Date, b: Date, c: Date)
    requires a <= b <= c
    requires InWindow(start, end, a) && InWindow(start, end, c)
    ensures InWindow(start, end, b)
  {
  }

  /** Once the end has passed the item never returns; before the start it never shows. */
  lemma WindowBounds(start: Option<Date>, end: Option<Date>, now: Date)
    ensures end.Some? && now > end.value ==> !InWindow(start, end, now)
    ensures start.Some? && now < start.value ==> !InWindow(start, end, now)
    ensures start.None? && end.None? ==> InWindow(start, end, now)
    ensures end.Some? && now == end.value && (start.None? || start.value <= now) ==> InWindow(start, end, now)
  {
  }
}
