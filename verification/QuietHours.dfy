// The quiet hours of the day, which may cross midnight. Times are microseconds; the local clock runs at a fixed offset.
module QuietHours {
  import opened Wrappers

  const DAY: int := 86_400_000_000

  /** Start and end as times of day; None when unset or unreadable. */
  datatype Window = Window(start: Option<int>, end: Option<int>, offset: int)

  predicate WindowOk(w: Window) {
    (w.start.Some? ==> 0 <= w.start.value < DAY) && (w.end.Some? ==> 0 <= w.end.value < DAY)
  }

  predicate InsideAt(start: int, end: int, t: int) {
    if start < end then start <= t < end else t >= start || t < end
  }

  /** A moment is quiet when its local time of day is inside the window. */
  predicate Quiet(w: Window, moment: int) {
    w.start.Some? && w.end.Some? && w.start != w.end && InsideAt(w.start.value, w.end.value, (moment + w.offset) % DAY)
  }

  /** None outside the quiet hours, else the moment they end: today when that is still ahead, tomorrow otherwise. */
  function QuietUntil(w: Window, now: int): Option<int> {
    if w.start.None? || w.end.None? || w.start == w.end then None
    else
      var local := now + w.offset;
      var t := local % DAY;
      if !InsideAt(w.start.value, w.end.value, t) then None
      else
        var midnight := local - t;
        Some((if t < w.end.value then midnight else midnight + DAY) + w.end.value - w.offset)
  }

  /** A time of day shifted by less than a day. */
  lemma {:induction false} TimeOfDay(midnight: int, x: int)
    requires midnight % DAY == 0 && 0 <= x < DAY
    ensures (midnight + x) % DAY == x
  {
    var k := midnight / DAY;
    assert midnight == k * DAY;
    assert midnight + x == k * DAY + x;
  }

  /** The moment x after a midnight is quiet if x is inside. */
  lemma {:induction false} QuietAt(w: Window, midnight: int, x: int)
    requires w.start.Some? && w.end.Some? && w.start != w.end && midnight % DAY == 0 && 0 <= x < DAY
    ensures Quiet(w, midnight + x - w.offset) <==> InsideAt(w.start.value, w.end.value, x)
  {
    hide InsideAt;
    TimeOfDay(midnight, x);
    assert midnight + x - w.offset + w.offset == midnight + x;
  }

  lemma {:induction false} NextMidnight(local: int)
    ensures var midnight := local - local % DAY; midnight % DAY == 0 && (midnight + DAY) % DAY == 0 && 0 <= local % DAY < DAY
  {
  }

  /** The moment given is the first after now that is not quiet. */
  lemma {:induction false} QuietUntilIsFirst(w: Window, now: int)
    requires WindowOk(w)
    ensures QuietUntil(w, now).None? <==> !Quiet(w, now)
    ensures QuietUntil(w, now).Some? ==>
              && now < QuietUntil(w, now).value <= now + DAY
              && !Quiet(w, QuietUntil(w, now).value)
              && forall m :: now <= m < QuietUntil(w, now).value ==> Quiet(w, m)
  {
    if Quiet(w, now) {
      var local := now + w.offset;
      var t := local % DAY;
      var midnight := local - t;
      NextMidnight(local);
      QuietStretch(w, midnight, t);
    }
  }

  /** The same, of the moment t after a midnight. */
  lemma {:induction false} QuietStretch(w: Window, midnight: int, t: int)
    requires WindowOk(w) && w.start.Some? && w.end.Some? && w.start != w.end
    requires midnight % DAY == 0 && (midnight + DAY) % DAY == 0 && 0 <= t < DAY && InsideAt(w.start.value, w.end.value, t)
    ensures var until := (if t < w.end.value then midnight else midnight + DAY) + w.end.value - w.offset;
            && !Quiet(w, until)
            && forall m :: midnight + t - w.offset <= m < until ==> Quiet(w, m)
  {
    hide Quiet;
    QuietAt(w, if t < w.end.value then midnight else midnight + DAY, w.end.value);
    forall m | midnight + t - w.offset <= m < (if t < w.end.value then midnight else midnight + DAY) + w.end.value - w.offset
      ensures Quiet(w, m)
    {
      var x := m + w.offset - midnight;
      if x < DAY {
        QuietAt(w, midnight, x);
      } else {
        QuietAt(w, midnight + DAY, x - DAY);
      }
    }
  }

  /** A time of day is inside exactly if, going round the clock from the start, it comes before the end. */
  lemma {:induction false} InsideIsBeforeEnd(start: int, end: int, t: int)
    requires 0 <= start < DAY && 0 <= end < DAY && 0 <= t < DAY && start != end
    ensures InsideAt(start, end, t) <==> (t - start) % DAY < (end - start) % DAY
  {
  }

  /** And quiet hours are there unless one of the two times is missing or they are the same. */
  lemma {:induction false} QuietExactly(w: Window, moment: int)
    requires WindowOk(w)
    ensures Quiet(w, moment) <==>
              w.start.Some? && w.end.Some? && w.start.value != w.end.value
              && (moment + w.offset - w.start.value) % DAY < (w.end.value - w.start.value) % DAY
  {
    if w.start.Some? && w.end.Some? && w.start.value != w.end.value {
      var x, start := moment + w.offset, w.start.value;
      InsideIsBeforeEnd(start, w.end.value, x % DAY);
      Shifted(x, start);
    }
  }

  lemma {:induction false} Shifted(x: int, start: int)
    ensures (x - start) % DAY == (x % DAY - start) % DAY
  {
    var k, y := x / DAY, x % DAY - start;
    assert x - start == k * DAY + y;
    assert y == (y / DAY) * DAY + y % DAY;
    TimeOfDay((k + y / DAY) * DAY, y % DAY);
  }
}
