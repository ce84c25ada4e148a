/**
  The custom cursor of `Cursor.tsx`: when it is drawn, where, and when it
  shows its hover shape. DOM targets are a small element datatype with
  their ancestor chain; resize, mouse-move, mouse-over and mouse-out are
  events. The spring animations are left out: the drawing holds the
  targets the springs move toward.
 */
module Cursor {
  import opened Text

  /** An element: its upper-case `tagName` and its classes. */
  datatype Element = Element(tag: string, classes: set<string>)

  /** An event target and its ancestors, nearest first. */
  datatype Target = Target(self: Element, ancestors: seq<Element>)

  /** The target followed by its ancestors: the elements `closest`
      searches, in order. */
  function Chain(t: Target): (es: seq<Element>)
    ensures |es| == |t.ancestors| + 1 && es[0] == t.self
    ensures forall k :: 0 <= k < |t.ancestors| ==> es[k + 1] == t.ancestors[k]
  {
    [t.self] + t.ancestors
  }

  /** `closest` for a tag selector: the position in `es` of the first
      element with that tag, or `None` (null). */
  function Closest(es: seq<Element>, tag: string): (r: Option<nat>)
    ensures r.Some? ==> r.value < |es| && es[r.value].tag == tag
    ensures r.Some? ==> forall k :: 0 <= k < r.value ==> es[k].tag != tag
    ensures r.None? <==> forall k :: 0 <= k < |es| ==> es[k].tag != tag
  {
    if es == [] then None
    else if es[0].tag == tag then Some(0)
    else
      match Closest(es[1..], tag)
      case None =>
        assert forall k :: 1 <= k < |es| ==> es[k] == es[1..][k - 1];
        None
      case Some(j) => Some(j + 1)
  }

  /** The condition of `handleMouseOver` (lines 29-35), term by term. */
  predicate HoverCondition(t: Target) {
    || t.self.tag == "A"
    || t.self.tag == "BUTTON"
    || Closest(Chain(t), "A").Some?
    || Closest(Chain(t), "BUTTON").Some?
    || "interactive" in t.self.classes
  }

  /** The reference notion: the target or an ancestor is a link or a
      button, or the target has the class `interactive`. */
  predicate Interactive(t: Target) {
    || (exists k :: 0 <= k < |Chain(t)| && Chain(t)[k].tag in {"A", "BUTTON"})
    || "interactive" in t.self.classes
  }

  /** The handler's condition is exactly the reference notion: the two
      explicit tag tests add nothing to the `closest` tests. */
  lemma HoverConditionIsInteractive(t: Target)
    ensures HoverCondition(t) <==> Interactive(t)
  {
    var es := Chain(t);
    if Interactive(t) && "interactive" !in t.self.classes {
      var k :| 0 <= k < |es| && es[k].tag in {"A", "BUTTON"};
      if es[k].tag == "A" {
        assert Closest(es, "A").Some?;
      } else {
        assert Closest(es, "BUTTON").Some?;
      }
    }
    if HoverCondition(t) && "interactive" !in t.self.classes {
      if t.self.tag == "A" || t.self.tag == "BUTTON" {
        assert es[0].tag in {"A", "BUTTON"};
      } else if Closest(es, "A").Some? {
        assert es[Closest(es, "A").value].tag in {"A", "BUTTON"};
      } else {
        assert es[Closest(es, "BUTTON").value].tag in {"A", "BUTTON"};
      }
    }
  }

  /** The viewport width below which the cursor is not drawn. */
  const MobileWidth: int := 768

  /** `checkMobile`. */
  function IsMobile(innerWidth: int, touch: bool): bool {
    innerWidth < MobileWidth || touch
  }

  /** `isHovering`, `isVisible`, `isMobile`. */
  datatype State = State(hovering: bool, visible: bool, mobile: bool)

  /** The state right after mount: `checkMobile` has run once. */
  function Mounted(innerWidth: int, touch: bool): State {
    State(false, false, IsMobile(innerWidth, touch))
  }

  datatype Event =
    | Resize(innerWidth: int, touch: bool)
    | MouseMove
    | MouseOver(target: Target)
    | MouseOut

  /** One event. The move listener is registered with `once`, and a set
      flag stays set; a mouse-over on anything that is not interactive
      leaves the hover flag as it was. */
  function Step(s: State, e: Event): (t: State)
    ensures s.visible ==> t.visible
    ensures e.MouseMove? ==> t.visible
    ensures !e.MouseMove? ==> t.visible == s.visible
    ensures e.MouseOver? ==> (t.hovering <==> s.hovering || Interactive(e.target))
    ensures e.MouseOut? ==> !t.hovering
    ensures e.Resize? ==> t.mobile == IsMobile(e.innerWidth, e.touch) && t.hovering == s.hovering
  {
    HoverConditionOfEvent(e);
    match e
    case Resize(w, touch) => s.(mobile := IsMobile(w, touch))
    case MouseMove => s.(visible := true)
    case MouseOver(target) => if HoverCondition(target) then s.(hovering := true) else s
    case MouseOut => s.(hovering := false)
  }

  /** `HoverConditionIsInteractive` for the target of an event. */
  lemma HoverConditionOfEvent(e: Event)
    ensures e.MouseOver? ==> (HoverCondition(e.target) <==> Interactive(e.target))
  {
    if e.MouseOver? {
      HoverConditionIsInteractive(e.target);
    }
  }

  /** What is drawn: the diamond and the dot positions and the diamond's
      hover shape (scale, rotation in degrees, rounded). */
  datatype Drawing = Drawing(
    diamondX: real, diamondY: real, dotX: real, dotY: real,
    scale: real, rotate: real, round: bool)

  /** Nothing is drawn on a mobile device or before the first mouse move;
      otherwise the diamond is centred 12 px and the dot 4 px up and left
      of the pointer. */
  function Render(s: State, x: real, y: real): (d: Option<Drawing>)
    ensures d.None? <==> s.mobile || !s.visible
    ensures d.Some? ==> d.value.diamondX == x - 12.0 && d.value.diamondY == y - 12.0
    ensures d.Some? ==> d.value.dotX == x - 4.0 && d.value.dotY == y - 4.0
    ensures d.Some? ==> (d.value.round <==> s.hovering)
  {
    if s.mobile || !s.visible then None
    else
      Some(Drawing(x - 12.0, y - 12.0, x - 4.0, y - 4.0,
        if s.hovering then 1.5 else 1.0,
        if s.hovering then 0.0 else 45.0,
        s.hovering))
  }

  function Run(s: State, evs: seq<Event>): State {
    if evs == [] then s else Step(Run(s, evs[..|evs| - 1]), evs[|evs| - 1])
  }

  /** The cursor appears at the first mouse move and never disappears
      again unless the viewport becomes a mobile one. */
  lemma {:induction false} VisibleAfterMove(s: State, evs: seq<Event>)
    requires exists k :: 0 <= k < |evs| && evs[k] == MouseMove
    ensures Run(s, evs).visible
  {
    var last := |evs| - 1;
    if evs[last] != MouseMove {
      var k :| 0 <= k < |evs| && evs[k] == MouseMove;
      assert evs[..last][k] == MouseMove;
      VisibleAfterMove(s, evs[..last]);
    }
  }

  /** A resize to a narrow or touch viewport hides the cursor whatever the
      other flags, and a resize to a wide viewport without touch shows it
      again once the mouse has moved: the mobile test is the only
      condition a resize changes. */
  lemma ResizeDecidesDrawing(s: State, w: int, touch: bool, x: real, y: real)
    ensures w < MobileWidth || touch ==> Render(Step(s, Resize(w, touch)), x, y).None?
    ensures w >= MobileWidth && !touch && s.visible ==> Render(Step(s, Resize(w, touch)), x, y).Some?
  {
  }

  /** Before any mouse move nothing is drawn, whatever else happens. */
  lemma {:induction false} HiddenBeforeMove(w: int, touch: bool, evs: seq<Event>, x: real, y: real)
    requires forall k :: 0 <= k < |evs| ==> evs[k] != MouseMove
    ensures !Run(Mounted(w, touch), evs).visible
    ensures Render(Run(Mounted(w, touch), evs), x, y).None?
  {
    if evs != [] {
      var init := evs[..|evs| - 1];
      assert forall k :: 0 <= k < |init| ==> init[k] == evs[k];
      HiddenBeforeMove(w, touch, init, x, y);
    }
  }
}
