/**
  `useScrollProgress`: the page-scroll progress and the progress of an
  element through the viewport, each clamped into `[0, 1]`. Scroll
  positions and rectangles are the event's inputs; `None` stands for the
  NaN that the element formula produces when the window height and the
  element's top are both zero.
 */
module ScrollProgress {
  import opened Text

  /** `Math.min(Math.max(x, 0), 1)`. */
  function Clamp(x: real): (r: real)
    ensures 0.0 <= r <= 1.0
    ensures x <= 0.0 ==> r == 0.0
    ensures x >= 1.0 ==> r == 1.0
  {
    var lo := if x >= 0.0 then x else 0.0;
    if lo <= 1.0 then lo else 1.0
  }

  /** The clamp leaves values in `[0, 1]` alone and is idempotent. */
  lemma ClampIdentity(x: real)
    ensures 0.0 <= x <= 1.0 <==> Clamp(x) == x
    ensures Clamp(Clamp(x)) == Clamp(x)
  {
  }

  /** The clamp is monotone. */
  lemma ClampMonotone(x: real, y: real)
    requires x <= y
    ensures Clamp(x) <= Clamp(y)
  {
  }

  /** Page mode (lines 22-26): the scrolled fraction of the scrollable
      height, 0 when the page does not scroll. */
  function PageProgress(scrollY: real, scrollHeight: real, innerHeight: real): (p: real)
    ensures 0.0 <= p <= 1.0
    ensures scrollHeight - innerHeight <= 0.0 ==> p == 0.0
    ensures scrollHeight - innerHeight > 0.0 && 0.0 <= scrollY <= scrollHeight - innerHeight ==>
      p * (scrollHeight - innerHeight) == scrollY
  {
    var docHeight := scrollHeight - innerHeight;
    var raw := if docHeight > 0.0 then scrollY / docHeight else 0.0;
    Clamp(raw)
  }

  /** Element mode (lines 42-43 and 57-58): `1 - top / windowHeight`,
      clamped. The division is not guarded: with a zero window height it
      is an infinity of the sign of `top` (clamped to 0 or 1) or, when
      `top` is zero too, NaN. */
  function ElementProgress(top: real, windowHeight: real): (p: Option<real>)
    ensures p.Some? ==> 0.0 <= p.value <= 1.0
    ensures p.None? <==> windowHeight == 0.0 && top == 0.0
    ensures windowHeight > 0.0 && 0.0 <= top <= windowHeight ==>
      p == Some(1.0 - top / windowHeight)
  {
    if windowHeight == 0.0 then
      if top < 0.0 then Some(1.0) else if top > 0.0 then Some(0.0) else None
    else
      assert windowHeight > 0.0 && 0.0 <= top <= windowHeight ==> 0.0 <= top / windowHeight <= 1.0 by {
        if windowHeight > 0.0 && 0.0 <= top <= windowHeight {
          FractionInUnit(top, windowHeight);
        }
      }
      Some(Clamp(1.0 - top / windowHeight))
  }

  /** A part of a positive whole is a fraction in `[0, 1]`. */
  lemma FractionInUnit(part: real, whole: real)
    requires 0.0 < whole && 0.0 <= part <= whole
    ensures 0.0 <= part / whole <= 1.0
  {
  }

  /** The lower the element's top edge, the less progress: element
      progress never increases as `top` grows. */
  lemma ElementMonotone(top1: real, top2: real, windowHeight: real)
    requires windowHeight > 0.0 && top1 <= top2
    ensures ElementProgress(top1, windowHeight).value >= ElementProgress(top2, windowHeight).value
  {
    QuotientMonotone(top1, top2, windowHeight);
    ClampMonotone(1.0 - top2 / windowHeight, 1.0 - top1 / windowHeight);
  }

  /** An element whose top is at or below the window's bottom edge has made
      no progress; one whose top has reached the top edge is done. */
  lemma ElementEnds(top: real, windowHeight: real)
    requires windowHeight > 0.0
    ensures top >= windowHeight ==> ElementProgress(top, windowHeight) == Some(0.0)
    ensures top <= 0.0 ==> ElementProgress(top, windowHeight) == Some(1.0)
  {
    if top >= windowHeight {
      QuotientAtLeastOne(top, windowHeight);
    }
    if top <= 0.0 {
      QuotientNonPositive(top, windowHeight);
    }
  }

  /** A quotient whose dividend is at least its positive divisor is at least one. */
  lemma QuotientAtLeastOne(a: real, b: real)
    requires 0.0 < b <= a
    ensures a / b >= 1.0
  {
    assert a / b * b == a;
  }

  /** A non-positive dividend over a positive divisor is non-positive. */
  lemma QuotientNonPositive(a: real, b: real)
    requires 0.0 < b && a <= 0.0
    ensures a / b <= 0.0
  {
    assert a / b * b == a;
  }

  /** Dividing by a positive number keeps order. */
  lemma QuotientMonotone(a1: real, a2: real, b: real)
    requires 0.0 < b && a1 <= a2
    ensures a1 / b <= a2 / b
  {
    assert a1 / b * b == a1 && a2 / b * b == a2;
  }

  /** The hook's state; `None` is a NaN progress. */
  datatype State = State(progress: Option<real>, inView: bool)

  const Initial: State := State(Some(0.0), false)

  /** A scroll in page mode, an observer entry in element mode, and a
      scroll in element mode. */
  datatype Event =
    | PageScroll(scrollY: real, scrollHeight: real, innerHeight: real)
    | Entry(isIntersecting: bool, top: real, windowHeight: real)
    | ElementScroll(top: real, windowHeight: real)

  function Step(s: State, e: Event): (t: State)
    ensures e.Entry? ==> t.inView == e.isIntersecting
    ensures e.Entry? && !e.isIntersecting ==> t.progress == s.progress
    ensures !e.Entry? ==> t.inView == s.inView
  {
    match e
    case PageScroll(y, sh, ih) => s.(progress := Some(PageProgress(y, sh, ih)))
    case Entry(hit, top, wh) =>
      if hit then State(ElementProgress(top, wh), true) else s.(inView := false)
    case ElementScroll(top, wh) => s.(progress := ElementProgress(top, wh))
  }

  ghost predicate InRange(s: State) {
    s.progress.Some? ==> 0.0 <= s.progress.value <= 1.0
  }

  /** Positive window heights: the condition under which the progress is
      never NaN. */
  ghost predicate PositiveHeight(e: Event) {
    match e
    case PageScroll(_, _, _) => true
    case Entry(_, _, wh) => wh > 0.0
    case ElementScroll(_, wh) => wh > 0.0
  }

  function Run(evs: seq<Event>): State {
    if evs == [] then Initial else Step(Run(evs[..|evs| - 1]), evs[|evs| - 1])
  }

  /** Every stored progress is in `[0, 1]` or NaN, and with positive window
      heights it is never NaN. */
  lemma {:induction false} RunInRange(evs: seq<Event>)
    ensures InRange(Run(evs))
    ensures (forall k :: 0 <= k < |evs| ==> PositiveHeight(evs[k])) ==> Run(evs).progress.Some?
  {
    if evs != [] {
      RunInRange(evs[..|evs| - 1]);
    }
  }
}
