/**
  The hero section's logic (`Hero.tsx`): how many particles the
  background network gets at a given viewport width, and how the name is
  split into one letter per span. The status counter animation is left
  out.
 */
module Hero {
  import Particles

  const Name := "ANKIT DAS"

  const Nbsp: char := '\U{00A0}'

  /** The viewport width below which fewer particles are drawn. */
  const NarrowWidth: int := 768

  /** `handleResize` (line 19). */
  function ParticleCount(innerWidth: int): (n: nat)
    ensures n == 15 <==> innerWidth < NarrowWidth
    ensures n == 40 <==> innerWidth >= NarrowWidth
  {
    if innerWidth < NarrowWidth then 15 else 40
  }

  /** `particleCount` starts at 40 (line 15) and the resize handler runs
      once right away on mount (line 22); after that each resize sets it. */
  datatype State = State(particleCount: nat)

  const Initial: State := State(40)

  /** Every resize, and the handler's first run, set the count for the
      width at that moment. */
  function Resize(s: State, innerWidth: int): (t: State)
    ensures t.particleCount == ParticleCount(innerWidth)
  {
    State(ParticleCount(innerWidth))
  }

  /** The state after the mount-time run of the resize handler. It differs
      from the initial state exactly on narrow screens. */
  function Mount(innerWidth: int): (s: State)
    ensures s.particleCount == ParticleCount(innerWidth)
    ensures s == Initial <==> innerWidth >= NarrowWidth
  {
    Resize(Initial, innerWidth)
  }

  /** The network's props: the count and the fixed connection distance and
      repel radius (lines 53-57). */
  function NetworkConfig(s: State): (c: Particles.Config)
    ensures c.particleCount == s.particleCount
    ensures c.connectionDistance == Particles.DefaultConfig.connectionDistance
    ensures c.mouseRepelRadius == Particles.DefaultConfig.mouseRepelRadius
  {
    Particles.Config(s.particleCount, 150.0, 100.0)
  }

  /** On a wide screen the hero's network is the network's default. */
  lemma WideScreenIsDefault(w: int)
    requires w >= NarrowWidth
    ensures NetworkConfig(Mount(w)) == Particles.DefaultConfig
  {
  }

  /** The count only depends on the last width seen: the mounted value at
      the initial width is overwritten by every resize. */
  lemma ResizeForgets(w0: int, w1: int)
    ensures Resize(Mount(w0), w1) == Mount(w1)
  {
  }

  /** The network configurations rendered from mount until the first
      resize: the first render uses the initial count; the mount-time
      handler's `setParticleCount` renders again only when it changes the
      count, since React skips a state update to an equal value. */
  function MountRenders(innerWidth: int): (cs: seq<Particles.Config>) {
    var first := NetworkConfig(Initial);
    var mounted := NetworkConfig(Mount(innerWidth));
    if mounted == first then [first] else [first, mounted]
  }

  /** The first network always has 40 particles and the last has the count
      for the width; a narrow screen gets two distinct configurations, so
      the network is set up twice (its effect depends on the count), while a
      wide screen gets one. */
  lemma MountRendersSequence(w: int)
    ensures MountRenders(w)[0].particleCount == 40
    ensures MountRenders(w)[|MountRenders(w)| - 1].particleCount == ParticleCount(w)
    ensures |MountRenders(w)| == 2 <==> w < NarrowWidth
    ensures w < NarrowWidth ==> MountRenders(w)[0] != MountRenders(w)[1]
  {
    if w < NarrowWidth {
      assert NetworkConfig(Mount(w)).particleCount == 15;
    }
  }

  /** A letter as rendered (line 97): a space becomes a non-breaking space
      so the span keeps its width; everything else is itself. */
  function ShownLetter(c: char): (r: char)
    ensures c == ' ' ==> r == Nbsp
    ensures c != ' ' ==> r == c
  {
    if c == ' ' then Nbsp else c
  }

  /** `name.split('')` mapped through `ShownLetter`: one span per
      character. */
  function Letters(name: string): (ls: seq<char>)
    ensures |ls| == |name|
    ensures forall k :: 0 <= k < |name| ==> ls[k] == ShownLetter(name[k])
  {
    seq(|name|, k requires 0 <= k < |name| => ShownLetter(name[k]))
  }

  /** Mapping back non-breaking spaces to spaces recovers the name, as long
      as the name holds no non-breaking space of its own. */
  function Unshow(ls: seq<char>): (name: string)
    ensures |name| == |ls|
    ensures forall k :: 0 <= k < |ls| ==> name[k] == (if ls[k] == Nbsp then ' ' else ls[k])
  {
    seq(|ls|, k requires 0 <= k < |ls| => if ls[k] == Nbsp then ' ' else ls[k])
  }

  lemma {:induction false} LettersRoundTrip(name: string)
    requires forall k :: 0 <= k < |name| ==> name[k] != Nbsp
    ensures Unshow(Letters(name)) == name
  {
    var back := Unshow(Letters(name));
    forall k | 0 <= k < |name|
      ensures back[k] == name[k]
    {
      assert Letters(name)[k] == ShownLetter(name[k]);
    }
  }

  /** The hero's name gives nine spans, the sixth a non-breaking space. */
  lemma NameLetters()
    ensures |Letters(Name)| == 9
    ensures Letters(Name)[5] == Nbsp
    ensures forall k :: 0 <= k < 9 && k != 5 ==> Letters(Name)[k] == Name[k]
  {
  }
}
