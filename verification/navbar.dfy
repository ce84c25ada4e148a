/**
  The navigation bar's own state (`NavBar.tsx`): the scrolled flag, the
  mobile menu, and what the vision-mode switch shows. Scrolling into a
  section is the browser's and is left out.
 */
module NavBar {

  import VisionMode

  datatype NavLink = NavLink(name: string, href: string)

  const NavLinks: seq<NavLink> := [
    NavLink("Home", "#hero"), NavLink("About", "#about"), NavLink("Skills", "#skills"),
    NavLink("Projects", "#projects"), NavLink("Experience", "#experience"), NavLink("Contact", "#contact")
  ]

  /** The scroll offset beyond which the bar gets its background. */
  const ScrollThreshold: real := 50.0

  /** `isScrolled`, `isMobileMenuOpen`. */
  datatype State = State(scrolled: bool, menuOpen: bool)

  const Initial: State := State(false, false)

  datatype Event = Scroll(scrollY: real) | NavClick(href: string) | Hamburger

  function Step(s: State, e: Event): (t: State)
    ensures e.Scroll? ==> (t.scrolled <==> e.scrollY > ScrollThreshold) && t.menuOpen == s.menuOpen
    ensures e.NavClick? ==> !t.menuOpen && t.scrolled == s.scrolled
    ensures e.Hamburger? ==> t.menuOpen == !s.menuOpen && t.scrolled == s.scrolled
  {
    match e
    case Scroll(y) => s.(scrolled := y > ScrollThreshold)
    case NavClick(_) => s.(menuOpen := false)
    case Hamburger => s.(menuOpen := !s.menuOpen)
  }

  /** Two presses of the hamburger give back the state. */
  lemma HamburgerTwice(s: State)
    ensures Step(Step(s, Hamburger), Hamburger) == s
  {
  }

  /** A nav click closes the menu whether it was open or not, and a second
      click changes nothing more. */
  lemma NavClickIdempotent(s: State, h1: string, h2: string)
    ensures Step(Step(s, NavClick(h1)), NavClick(h2)) == Step(s, NavClick(h1))
    ensures Step(s.(menuOpen := true), NavClick(h1)) == Step(s.(menuOpen := false), NavClick(h1))
  {
  }

  /** The mobile links rendered: all of them while the menu is open, none
      otherwise. */
  function MobileLinks(s: State): (ls: seq<NavLink>)
    ensures s.menuOpen ==> ls == NavLinks
    ensures !s.menuOpen ==> ls == []
  {
    if s.menuOpen then NavLinks else []
  }

  /** The switch's knob position and its screen-reader text. */
  datatype Switch = Switch(knobX: int, srText: string)

  function VisionSwitch(visionMode: bool): (sw: Switch)
    ensures sw.knobX == 22 <==> visionMode
    ensures sw.knobX == 2 <==> !visionMode
    ensures sw.srText == (if visionMode then "Disable" else "Enable") + " Vision Mode"
  {
    if visionMode then Switch(22, "Disable Vision Mode") else Switch(2, "Enable Vision Mode")
  }

  /** The switch's text names what a press of it does: "Enable" exactly
      when `toggleVisionMode` turns the mode, and with it the body class,
      on; "Disable" exactly when it turns them off. After the press the
      switch shows the other knob position and text. */
  lemma SwitchNamesPress(s: VisionMode.State)
    ensures VisionSwitch(s.visionMode).srText[..6] == "Enable" <==> VisionMode.Toggle(s).visionMode
    ensures VisionSwitch(s.visionMode).srText[..7] == "Disable" <==> !VisionMode.Toggle(s).visionMode
    ensures VisionSwitch(s.visionMode).srText[..6] == "Enable" <==> VisionMode.VisionClass in VisionMode.Toggle(s).body
    ensures VisionSwitch(VisionMode.Toggle(s).visionMode) != VisionSwitch(s.visionMode)
  {
    var text := VisionSwitch(s.visionMode).srText;
    if s.visionMode {
      assert text[..7] == "Disable";
      assert text[..6][0] == 'D';
    } else {
      assert text[..6] == "Enable";
      assert text[..7][0] == 'E';
    }
  }

  function Run(evs: seq<Event>): State {
    if evs == [] then Initial else Step(Run(evs[..|evs| - 1]), evs[|evs| - 1])
  }

  /** After any events the menu is open exactly when the hamburger has
      been pressed an odd number of times since the last nav click. */
  function PressesSinceClick(evs: seq<Event>): nat {
    if evs == [] then 0
    else
      match evs[|evs| - 1]
      case Hamburger => PressesSinceClick(evs[..|evs| - 1]) + 1
      case NavClick(_) => 0
      case Scroll(_) => PressesSinceClick(evs[..|evs| - 1])
  }

  lemma {:induction false} MenuParity(evs: seq<Event>)
    ensures Run(evs).menuOpen <==> PressesSinceClick(evs) % 2 == 1
  {
    if evs != [] {
      MenuParity(evs[..|evs| - 1]);
    }
  }

  /** The mobile menu follows the event history: all six links show
      exactly when the hamburger was pressed an odd number of times since
      the last nav click, and clicking any shown link empties the menu. */
  lemma {:induction false} MobileLinksFromHistory(evs: seq<Event>)
    ensures MobileLinks(Run(evs)) == (if PressesSinceClick(evs) % 2 == 1 then NavLinks else [])
    ensures forall l :: l in MobileLinks(Run(evs)) ==> MobileLinks(Run(evs + [NavClick(l.href)])) == []
  {
    MenuParity(evs);
    forall l | l in MobileLinks(Run(evs))
      ensures MobileLinks(Run(evs + [NavClick(l.href)])) == []
    {
      var after := evs + [NavClick(l.href)];
      assert after[..|after| - 1] == evs;
    }
  }
}
