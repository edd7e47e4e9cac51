/** The arithmetic of a scroll view and its thumb (internal/app/tui_scroll.go). */
module Scroll {
  import opened Numbers

  /** Go's integer division truncates toward zero. */
  function Quot(a: int, b: int): int
    requires b > 0
  {
    if a >= 0 then a / b else -((-a) / b)
  }

  /** What the fields of a scroll view hold. */
  datatype View = View(offset: int, total: int, view: int, follow: string, loose: bool)

  // ----- the thumb -----

  function ThumbSize(total: int, view: int): int
    requires total > view > 0
  {
    Max(1, Quot(view * view + total / 2, total))
  }

  /** scrollThumb: where the thumb sits, and how tall it is. */
  function ScrollThumb(offset: int, total: int, view: int): (int, int) {
    if total <= view || view <= 0 then (0, view)
    else
      var size := ThumbSize(total, view);
      (Quot(offset * (view - size) + (total - view) / 2, total - view), size)
  }

  /** a / b rounded to the nearest integer, a half rounded up. */
  ghost predicate Rounds(a: int, b: int, r: int)
    requires b > 0
  {
    2 * a - b < 2 * (r * b) <= 2 * a + b
  }

  lemma RoundedQuot(a: int, b: int)
    requires a >= 0 && b > 0
    ensures Rounds(a, b, Quot(a + b / 2, b)) && Quot(a + b / 2, b) >= 0
  {
    var x := a + b / 2;
    assert x == b * (x / b) + x % b;
    assert b * (x / b) == (x / b) * b;
  }

  lemma Scale(a: int, b: int, c: int)
    requires c >= 0
    ensures a <= b ==> a * c <= b * c
  {
  }

  lemma Apart(a: int, b: int, c: int)
    requires c >= 0
    ensures a < b ==> a * c + c <= b * c
  {
    Scale(a + 1, b, c);
  }

  lemma RoundingIsMonotone(a: int, a': int, b: int, r: int, r': int)
    requires b > 0 && a <= a' && Rounds(a, b, r) && Rounds(a', b, r')
    ensures r <= r'
  {
    Apart(r', r, b);
  }

  lemma RoundingAMultiple(k: int, b: int, r: int)
    requires b > 0 && Rounds(k * b, b, r)
    ensures r == k
  {
    Apart(k, r, b);
    Apart(r, k, b);
  }

  lemma RoundedBounds(a: int, b: int, r: int, n: int)
    requires b > 0 && 0 <= a <= n * b && Rounds(a, b, r)
    ensures 0 <= r <= n
  {
    Apart(n, r, b);
    Apart(r, 0, b);
  }

  lemma ShareAtMost(view: int, total: int, r: int)
    requires total > view > 0 && Rounds(view * view, total, r)
    ensures 0 <= r <= view
  {
    Scale(view, total, view);
    Scale(0, view, view);
    RoundedBounds(view * view, total, r, view);
  }

  lemma Squares(v: int, d: int)
    ensures (v - d) * (v + d) == v * v - d * d
  {
    assert (v - d) * (v + d) == v * (v + d) - d * (v + d);
  }

  /** Of `view` rows out of view + d, the rounded share r: what is left of the track is at most d. */
  lemma ShareLeaves(view: int, d: int, r: int)
    requires view > 0 && d > 0 && Rounds(view * view, view + d, r)
    ensures view - r <= d
  {
    Squares(view, d);
    Scale(1, d, d);
    Apart(r, view - d, view + d);
  }

  /** The thumb is the visible share of the rows, at least one and never all of them. */
  lemma ThumbFits(total: int, view: int)
    requires total > view > 0
    ensures var size := ThumbSize(total, view);
            && 1 <= size <= view && view - size <= total - view
            && (size == 1 || Rounds(view * view, total, size))
  {
    assert view * view >= 0;
    RoundedQuot(view * view, total);
    ShareAtMost(view, total, Quot(view * view + total / 2, total));
    ShareLeaves(view, total - view, Quot(view * view + total / 2, total));
  }

  /** With nothing out of sight the thumb fills the track. */
  lemma ThumbFillsTrack(offset: int, total: int, view: int)
    ensures total <= view || view <= 0 ==> ScrollThumb(offset, total, view) == (0, view)
  {
  }

  ghost predicate InRange(offset: int, total: int, view: int) { 0 <= offset <= total - view }

  lemma ThumbIsRounded(offset: int, total: int, view: int)
    requires total > view > 0 && InRange(offset, total, view)
    ensures var (at, size) := ScrollThumb(offset, total, view);
            size == ThumbSize(total, view) && Rounds(offset * (view - size), total - view, at)
  {
    ThumbFits(total, view);
    var span := view - ThumbSize(total, view);
    assert offset * span >= 0;
    RoundedQuot(offset * span, total - view);
  }

  lemma RoundedInTrack(offset: int, later: int, d: int, span: int, at: int, after: int)
    requires d > 0 && span >= 0 && 0 <= offset <= later <= d
    requires Rounds(offset * span, d, at) && Rounds(later * span, d, after)
    ensures 0 <= at <= after <= span && (offset == 0 ==> at == 0) && (later == d ==> after == span)
  {
    Scale(0, offset, span);
    Scale(offset, later, span);
    Scale(later, d, span);
    RoundingIsMonotone(offset * span, later * span, d, at, after);
    RoundingIsMonotone(0 * d, offset * span, d, 0, at);
    RoundingIsMonotone(later * span, span * d, d, after, span);
    if offset == 0 {
      RoundingAMultiple(0, d, at);
    }
    if later == d {
      RoundingAMultiple(span, d, after);
    }
  }

  /** The thumb stays in the track, touches both ends, and follows the offset. */
  lemma ThumbTracksOffset(offset: int, later: int, total: int, view: int)
    requires total > view > 0 && InRange(offset, total, view) && InRange(later, total, view) && offset <= later
    ensures var (at, size) := ScrollThumb(offset, total, view);
            && 0 <= at && at + size <= view
            && at <= ScrollThumb(later, total, view).0
            && (offset == 0 ==> at == 0)
            && (later == total - view ==> ScrollThumb(later, total, view).0 + size == view)
  {
    ThumbFits(total, view);
    ThumbIsRounded(offset, total, view);
    ThumbIsRounded(later, total, view);
    RoundedInTrack(offset, later, total - view, view - ThumbSize(total, view),
                   ScrollThumb(offset, total, view).0, ScrollThumb(later, total, view).0);
  }

  /** The offset scrollToThumb picks. */
  function OffsetForThumb(v: View, at: int): int
    requires v.total > v.view
  {
    var span := Max(1, v.view - ScrollThumb(v.offset, v.total, v.view).1);
    Max(0, Min(v.total - v.view, Quot(at * (v.total - v.view) + span / 2, span)))
  }

  /** The offset picked needs no clamping. */
  lemma PickedIsInRange(d: int, span: int, at: int, picked: int)
    requires d > 0 && span > 0 && 0 <= at <= span && Rounds(at * d, span, picked)
    ensures 0 <= picked <= d
  {
    Scale(0, at, d);
    Scale(at, span, d);
    Apart(d, picked, span);
    Apart(picked, 0, span);
  }

  /** Rounding to the coarser scale undoes rounding to the finer one. */
  lemma NearestAgain(d: int, span: int, at: int, offset: int, back: int)
    requires 0 < span <= d && Rounds(at * d, span, offset) && Rounds(offset * span, d, back)
    ensures back == at
  {
    if span == d {
      RoundingAMultiple(at, d, offset);
      RoundingAMultiple(offset, d, back);
    } else {
      Apart(at, back, d);
      Apart(back, at, d);
    }
  }

  /** Dragging the thumb to any row of its track leaves it on that row. */
  lemma DraggedThumbStays(v: View, at: int)
    requires v.total > v.view > 0
    requires 0 <= at <= v.view - ThumbSize(v.total, v.view)
    ensures InRange(OffsetForThumb(v, at), v.total, v.view)
    ensures ScrollThumb(OffsetForThumb(v, at), v.total, v.view) == (at, ThumbSize(v.total, v.view))
  {
    ThumbFits(v.total, v.view);
    var d, span := v.total - v.view, v.view - ThumbSize(v.total, v.view);
    var offset := OffsetForThumb(v, at);
    if span == 0 {
      assert at == 0 && Quot(0 * d + 0, 1) == 0 && offset == 0;
      ThumbIsRounded(offset, v.total, v.view);
      RoundingAMultiple(0, d, ScrollThumb(offset, v.total, v.view).0);
    } else {
      Scale(0, at, d);
      RoundedQuot(at * d, span);
      PickedIsInRange(d, span, at, Quot(at * d + span / 2, span));
      ThumbIsRounded(offset, v.total, v.view);
      NearestAgain(d, span, at, offset, ScrollThumb(offset, v.total, v.view).0);
    }
  }

  /** Dragging it past either end of the track scrolls to that end. */
  lemma DraggedPastTheTrack(v: View, at: int)
    requires v.total > v.view > 0
    ensures at < 0 ==> OffsetForThumb(v, at) == 0
    ensures at > v.view - ThumbSize(v.total, v.view) ==> OffsetForThumb(v, at) == v.total - v.view
  {
    ThumbFits(v.total, v.view);
    var d, span := v.total - v.view, Max(1, v.view - ThumbSize(v.total, v.view));
    if at < 0 {
      Scale(at, -1, d);
      PickedAtStart(at * d, d, span);
    } else if at > v.view - ThumbSize(v.total, v.view) {
      Scale(span, at, d);
      AtLeast(at * d, d, span);
    }
  }

  lemma PickedAtStart(x: int, d: int, span: int)
    requires 0 < span <= d && x <= -d
    ensures Quot(x + span / 2, span) <= 0
  {
  }

  lemma AtLeast(a: int, d: int, span: int)
    requires span > 0 && d >= 0 && a >= span * d
    ensures Quot(a + span / 2, span) >= d
  {
    Scale(0, d, span);
    var x := a + span / 2;
    assert x == span * (x / span) + x % span;
    if x / span < d {
      Scale(x / span + 1, d, span);
    }
  }

  // ----- moving the view -----

  /** The offset of a view of `view` rows over `total` rows, rows [top, end) in sight if followed. */
  function Followed(v: View, follow: string, top: int, end: int, total: int, view: int): int {
    var moved :=
      if !((follow != v.follow || !v.loose) && top >= 0) then v.offset
      else if top < v.offset then top
      else if end > v.offset + view then end - view
      else v.offset;
    Max(0, Min(moved, total - view))
  }

  function Committed(v: View, follow: string, top: int, end: int, total: int, view: int): View {
    View(Followed(v, follow, top, end, total, view), total, view, follow, if follow != v.follow then false else v.loose)
  }

  /** The offsets a view of `view` rows over `total` rows may have. */
  predicate Possible(offset: int, total: int, view: int) { 0 <= offset <= Max(0, total - view) }

  ghost predicate Shows(offset: int, view: int, top: int, end: int) { offset <= top && end <= offset + view }

  function Distance(a: int, b: int): int { if a >= b then a - b else b - a }

  /** The offset is always possible; a followed range that fits is shown, moving the view as little as possible. */
  lemma FollowedShowsRange(v: View, follow: string, top: int, end: int, total: int, view: int)
    requires v.offset >= 0
    ensures var r := Followed(v, follow, top, end, total, view);
            && Possible(r, total, view)
            && ((follow != v.follow || !v.loose) && 0 <= top <= end <= total && end - top <= view ==>
                  Shows(r, view, top, end)
                  && forall o | Possible(o, total, view) && Shows(o, view, top, end) ::
                     Distance(r, v.offset) <= Distance(o, v.offset))
            && ((follow == v.follow && v.loose) || top < 0 ==>
                  forall o | Possible(o, total, view) :: Distance(r, v.offset) <= Distance(o, v.offset))
            && ((follow != v.follow || !v.loose) && 0 <= top <= end <= total && end - top > view >= 0 ==>
                  r == if top < v.offset then top else if end > v.offset + view then end - view else v.offset)
  {
  }

  function ScrolledBy(v: View, delta: int): View {
    if v.total <= v.view then v
    else v.(offset := Max(0, Min(v.offset + delta, v.total - v.view)), loose := true)
  }

  /** What the wheel scrolled to stays until the followed account changes. */
  lemma WheelSticks(v: View, delta: int, top: int, end: int)
    requires v.total > v.view
    ensures Committed(ScrolledBy(v, delta), v.follow, top, end, v.total, v.view) == ScrolledBy(v, delta)
  {
  }

  class TuiScroll {
    var offset: int
    var total: int
    var view: int
    var follow: string
    var loose: bool

    function State(): View
      reads this
    {
      View(offset, total, view, follow, loose)
    }

    constructor ()
      ensures State() == View(0, 0, 0, "", false)
    {
      offset, total, view, follow, loose := 0, 0, 0, "", false;
    }

    /** Only a commit stores the result. */
    method ScrollTo(newFollow: string, top: int, end: int, newTotal: int, newView: int, commit: bool) returns (r: int)
      modifies this
      ensures r == old(Followed(State(), newFollow, top, end, newTotal, newView))
      ensures State() == if commit then old(Committed(State(), newFollow, top, end, newTotal, newView))
              else old(State())
      ensures commit ==>
                && offset == r && total == newTotal && view == newView && follow == newFollow
                && (loose <==> old(loose) && newFollow == old(follow))
    {
      r := offset;
      if (newFollow != follow || !loose) && top >= 0 {
        if top < r {
          r := top;
        } else if end > r + newView {
          r := end - newView;
        }
      }
      r := Max(0, Min(r, newTotal - newView));
      if commit {
        if newFollow != follow {
          loose := false;
        }
        offset, total, view, follow := r, newTotal, newView, newFollow;
      }
    }

    /** False when nothing is out of sight. */
    method ScrollBy(delta: int) returns (moved: bool)
      modifies this`offset, this`loose
      ensures State() == ScrolledBy(old(State()), delta)
      ensures moved <==> total > view
      ensures moved ==>
                && loose
                && (old(offset) + delta < 0 ==> offset == 0)
                && (0 <= old(offset) + delta <= total - view ==> offset == old(offset) + delta)
                && (old(offset) + delta > total - view ==> offset == total - view)
      ensures !moved ==> offset == old(offset) && loose == old(loose)
    {
      if total <= view {
        return false;
      }
      offset := Max(0, Min(offset + delta, total - view));
      loose := true;
      return true;
    }

    /** Scrolls the view so that its thumb's top sits at row `at`. */
    method ScrollToThumb(at: int)
      modifies this`offset, this`loose
      ensures old(total <= view) ==> State() == old(State())
      ensures old(total > view) ==> InRange(offset, total, view) && loose
      ensures old(total > view > 0 && 0 <= at <= view - ThumbSize(total, view)) ==>
                ScrollThumb(offset, total, view).0 == at
      ensures old(total > view > 0 && at < 0) ==> offset == 0
      ensures old(total > view > 0 && at > view - ThumbSize(total, view)) ==> offset == total - view
    {
      if total <= view {
        return;
      }
      if view > 0 && 0 <= at <= view - ThumbSize(total, view) {
        DraggedThumbStays(State(), at);
      } else if view > 0 {
        DraggedPastTheTrack(State(), at);
      }
      var size := ScrollThumb(offset, total, view).1;
      var span := Max(1, view - size);
      offset := Max(0, Min(total - view, Quot(at * (total - view) + span / 2, span)));
      loose := true;
    }
  }
}
