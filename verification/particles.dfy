/**
  The particle field of `ParticleNetwork.tsx`, over mathematical reals.

  `Math.random()` draws are inputs (`Draw`), `Math.sqrt` is the parameter
  `sqrt`: the step itself is defined for any function, the bounds on the
  output need only that it is non-negative on non-negative inputs, and the
  lemmas about distances assume it is the exact square root (`IsSqrt`).
  One call of `animate` is `Animate`, a pure function from the particles
  before the frame to the particles after it and the lines drawn; the
  method `AnimateInPlace` follows the source's in-place loops and is
  proved to compute the same frame.
 */
module Particles {
  import opened Text

  datatype Particle = Particle(x: real, y: real, vx: real, vy: real, radius: real)

  /** The component's props that the simulation uses; colours are left out. */
  datatype Config = Config(particleCount: nat, connectionDistance: real, mouseRepelRadius: real)

  /** The props' defaults (line 22-24). */
  const DefaultConfig := Config(40, 150.0, 100.0)

  const Damping: real := 0.99
  const RepelScale: real := 0.5

  datatype Pointer = Pointer(x: real, y: real)

  /** The pointer before the first `mousemove`. */
  const PointerAtStart := Pointer(-1000.0, -1000.0)

  ghost predicate SqrtNonNeg(sqrt: real -> real) {
    forall v :: 0.0 <= v ==> 0.0 <= sqrt(v)
  }

  ghost predicate IsSqrt(sqrt: real -> real) {
    forall v :: 0.0 <= v ==> 0.0 <= sqrt(v) && sqrt(v) * sqrt(v) == v
  }

  /** `dx * dx + dy * dy`, the argument of `Math.sqrt`. */
  function Norm2(dx: real, dy: real): (r: real)
    ensures 0.0 <= r
  {
    dx * dx + dy * dy
  }

  function Dist(sqrt: real -> real, dx: real, dy: real): real {
    sqrt(Norm2(dx, dy))
  }

  /** The distance between two particles. */
  function PairDist(p: Particle, q: Particle, sqrt: real -> real): (d: real)
    ensures SqrtNonNeg(sqrt) ==> 0.0 <= d
  {
    Dist(sqrt, p.x - q.x, p.y - q.y)
  }

  /** `0 <= r < 1` scales `[0, w]` into itself, strictly below `w` when
      `w` is positive. */
  lemma ScaleUnit(r: real, w: real)
    requires 0.0 <= r < 1.0 && 0.0 <= w
    ensures 0.0 <= r * w <= w
    ensures 0.0 < w ==> r * w < w
  {
    assert 0.0 <= (1.0 - r) * w;
    if 0.0 < w {
      assert 0.0 < (1.0 - r) * w;
    }
  }

  /** `r * w` for a unit draw `r`: a point of `[0, w]`. */
  function Scale(r: real, w: real): (v: real)
    requires 0.0 <= r < 1.0 && 0.0 <= w
    ensures 0.0 <= v <= w && (0.0 < w ==> v < w)
  {
    ScaleUnit(r, w);
    r * w
  }

  // ---------------------------------------------------------------------
  // initParticles

  /** The five `Math.random()` results one particle consumes, in order. */
  datatype Draw = Draw(x: real, y: real, vx: real, vy: real, radius: real)

  predicate UnitDraw(d: Draw) {
    && 0.0 <= d.x < 1.0 && 0.0 <= d.y < 1.0
    && 0.0 <= d.vx < 1.0 && 0.0 <= d.vy < 1.0
    && 0.0 <= d.radius < 1.0
  }

  /** What a freshly created particle satisfies on a `width` by `height`
      canvas. */
  predicate Fresh(p: Particle, width: real, height: real) {
    && 0.0 <= p.x <= width && (0.0 < width ==> p.x < width)
    && 0.0 <= p.y <= height && (0.0 < height ==> p.y < height)
    && -0.25 <= p.vx < 0.25 && -0.25 <= p.vy < 0.25
    && 1.0 <= p.radius < 3.0
  }

  function Spawn(d: Draw, width: real, height: real): (p: Particle)
    requires UnitDraw(d) && 0.0 <= width && 0.0 <= height
    ensures Fresh(p, width, height)
  {
    Particle(Scale(d.x, width), Scale(d.y, height), (d.vx - 0.5) * 0.5, (d.vy - 0.5) * 0.5, d.radius * 2.0 + 1.0)
  }

  /** `initParticles`: exactly `count` particles, each fresh. */
  function InitParticles(count: nat, width: real, height: real, draws: seq<Draw>): (ps: seq<Particle>)
    requires |draws| == count && 0.0 <= width && 0.0 <= height
    requires forall k :: 0 <= k < |draws| ==> UnitDraw(draws[k])
    ensures |ps| == count
    ensures forall k :: 0 <= k < count ==> Fresh(ps[k], width, height)
  {
    seq(count, k requires 0 <= k < count => Spawn(draws[k], width, height))
  }

  // ---------------------------------------------------------------------
  // One particle's update

  /** Whether the pointer pushes `p`: its distance is in (0, R). */
  predicate Repels(p: Particle, m: Pointer, repelRadius: real, sqrt: real -> real) {
    var d := Dist(sqrt, p.x - m.x, p.y - m.y);
    d < repelRadius && d > 0.0
  }

  /** The magnitude of the push, `(R - d) / R * 0.5`. */
  function RepelFactor(repelRadius: real, d: real): (k: real)
    requires 0.0 < d < repelRadius
    ensures 0.0 < k < RepelScale
  {
    (repelRadius - d) / repelRadius * RepelScale
  }

  /** The repulsion phase: the velocity gains `(dx/d, dy/d)` times the
      factor; only the velocity changes, and only when the pointer
      repels. */
  function Repel(p: Particle, m: Pointer, repelRadius: real, sqrt: real -> real): (q: Particle)
    ensures q.x == p.x && q.y == p.y && q.radius == p.radius
    ensures !Repels(p, m, repelRadius, sqrt) ==> q == p
    ensures Repels(p, m, repelRadius, sqrt) ==>
      var d := Dist(sqrt, p.x - m.x, p.y - m.y);
      && q.vx == p.vx + (p.x - m.x) / d * RepelFactor(repelRadius, d)
      && q.vy == p.vy + (p.y - m.y) / d * RepelFactor(repelRadius, d)
  {
    var dx := p.x - m.x;
    var dy := p.y - m.y;
    var d := Dist(sqrt, dx, dy);
    if d < repelRadius && d > 0.0 then
      var force := (repelRadius - d) / repelRadius;
      p.(vx := p.vx + (dx / d) * force * RepelScale, vy := p.vy + (dy / d) * force * RepelScale)
    else
      p
  }

  lemma PositiveQuotient(a: real, b: real, k: real)
    requires 0.0 < b && 0.0 < k
    ensures 0.0 < a ==> 0.0 < a / b * k
    ensures a < 0.0 ==> a / b * k < 0.0
    ensures a == 0.0 ==> a / b * k == 0.0
  {
    if 0.0 < a {
      assert 0.0 < a / b;
    } else if a < 0.0 {
      assert a / b < 0.0;
    }
  }

  /** The push points away from the pointer on each axis: the change of
      each velocity component has the sign of the particle's offset from
      the pointer on that axis. */
  lemma RepelPointsAway(p: Particle, m: Pointer, repelRadius: real, sqrt: real -> real)
    requires Repels(p, m, repelRadius, sqrt)
    ensures var q := Repel(p, m, repelRadius, sqrt);
      && (q.vx > p.vx <==> p.x > m.x) && (q.vx < p.vx <==> p.x < m.x)
      && (q.vy > p.vy <==> p.y > m.y) && (q.vy < p.vy <==> p.y < m.y)
  {
    var dx := p.x - m.x;
    var dy := p.y - m.y;
    var d := Dist(sqrt, dx, dy);
    var k := RepelFactor(repelRadius, d);
    var force := (repelRadius - d) / repelRadius;
    assert force * RepelScale == k;
    assert (dx / d) * force * RepelScale == dx / d * k;
    assert (dy / d) * force * RepelScale == dy / d * k;
    PositiveQuotient(dx, d, k);
    PositiveQuotient(dy, d, k);
  }

  /** A particle exactly under the pointer is not pushed: the zero distance
      is excluded, so nothing is divided by zero. */
  lemma NoPushAtPointer(p: Particle, m: Pointer, repelRadius: real, sqrt: real -> real)
    requires IsSqrt(sqrt)
    requires p.x == m.x && p.y == m.y
    ensures Repel(p, m, repelRadius, sqrt) == p
  {
    var s := Dist(sqrt, 0.0, 0.0);
    assert Norm2(0.0, 0.0) == 0.0;
    assert s * s == 0.0;
  }

  /** The damping phase. */
  function Damp(p: Particle): (q: Particle)
    ensures q.x == p.x && q.y == p.y && q.radius == p.radius
  {
    p.(vx := p.vx * Damping, vy := p.vy * Damping)
  }

  function Abs(v: real): real {
    if v < 0.0 then -v else v
  }

  /** Damping strictly shrinks every non-zero velocity component. */
  lemma DampShrinks(v: real)
    ensures Abs(v * Damping) <= Abs(v)
    ensures v != 0.0 ==> Abs(v * Damping) < Abs(v)
  {
  }

  /** The boundary check of one coordinate: below 0 jumps to `extent`, then
      above `extent` jumps to 0. The two tests run in order, so a negative
      coordinate lands exactly on `extent`: the range is closed. */
  function Wrap(v: real, extent: real): (r: real)
    ensures 0.0 <= extent ==> 0.0 <= r <= extent
    ensures 0.0 <= extent && v < 0.0 ==> r == extent
    ensures 0.0 <= extent && extent < v ==> r == 0.0
    ensures 0.0 <= v <= extent ==> r == v
  {
    var a := if v < 0.0 then extent else v;
    if a > extent then 0.0 else a
  }

  /** Wrapping a coordinate already on the canvas changes nothing, so
      wrapping twice is wrapping once. */
  lemma WrapIdempotent(v: real, extent: real)
    requires 0.0 <= extent
    ensures Wrap(Wrap(v, extent), extent) == Wrap(v, extent)
  {
  }

  predicate OnCanvas(p: Particle, width: real, height: real) {
    0.0 <= p.x <= width && 0.0 <= p.y <= height
  }

  /** One particle's update in `animate`: repulsion, damping, an explicit
      Euler step, and the boundary check. */
  function Move(p: Particle, m: Pointer, cfg: Config, width: real, height: real, sqrt: real -> real): (q: Particle)
    ensures 0.0 <= width && 0.0 <= height ==> OnCanvas(q, width, height)
    ensures q.radius == p.radius
    ensures !Repels(p, m, cfg.mouseRepelRadius, sqrt) ==> q.vx == p.vx * Damping && q.vy == p.vy * Damping
  {
    var r := Damp(Repel(p, m, cfg.mouseRepelRadius, sqrt));
    Particle(Wrap(r.x + r.vx, width), Wrap(r.y + r.vy, height), r.vx, r.vy, r.radius)
  }

  /** The velocity after an update is the repelled velocity damped once,
      and each coordinate takes one Euler step with that new velocity:
      it is the old coordinate plus the velocity when that lands on the
      canvas, the extent when it falls below 0, and 0 when it passes the
      extent. */
  lemma MoveEulerStep(p: Particle, m: Pointer, cfg: Config, width: real, height: real, sqrt: real -> real)
    ensures var q := Move(p, m, cfg, width, height, sqrt);
      var r := Repel(p, m, cfg.mouseRepelRadius, sqrt);
      && q.vx == r.vx * Damping && q.vy == r.vy * Damping
      && (0.0 <= p.x + q.vx <= width ==> q.x == p.x + q.vx)
      && (0.0 <= p.y + q.vy <= height ==> q.y == p.y + q.vy)
      && (0.0 <= width && p.x + q.vx < 0.0 ==> q.x == width)
      && (0.0 <= height && p.y + q.vy < 0.0 ==> q.y == height)
      && (0.0 <= width && width < p.x + q.vx ==> q.x == 0.0)
      && (0.0 <= height && height < p.y + q.vy ==> q.y == 0.0)
  {
  }

  /** Without the pointer's push, a frame multiplies each velocity
      component by 0.99 and never increases its size. */
  lemma UndisturbedSlowsDown(p: Particle, m: Pointer, cfg: Config, width: real, height: real, sqrt: real -> real)
    requires !Repels(p, m, cfg.mouseRepelRadius, sqrt)
    ensures var q := Move(p, m, cfg, width, height, sqrt);
      && Abs(q.vx) <= Abs(p.vx) && (p.vx != 0.0 ==> Abs(q.vx) < Abs(p.vx))
      && Abs(q.vy) <= Abs(p.vy) && (p.vy != 0.0 ==> Abs(q.vy) < Abs(p.vy))
  {
    DampShrinks(p.vx);
    DampShrinks(p.vy);
  }

  /** A repel radius of 0 or less never pushes. */
  lemma DisabledRepulsion(p: Particle, m: Pointer, cfg: Config, width: real, height: real, sqrt: real -> real)
    requires cfg.mouseRepelRadius <= 0.0
    ensures Move(p, m, cfg, width, height, sqrt).vx == p.vx * Damping
    ensures Move(p, m, cfg, width, height, sqrt).vy == p.vy * Damping
  {
    assert !Repels(p, m, cfg.mouseRepelRadius, sqrt);
  }

  /** `n` frames of one particle with a fixed pointer. */
  function MoveN(p: Particle, m: Pointer, cfg: Config, width: real, height: real, sqrt: real -> real, n: nat): Particle {
    if n == 0 then p else Move(MoveN(p, m, cfg, width, height, sqrt, n - 1), m, cfg, width, height, sqrt)
  }

  /** A velocity component damped `n` times. */
  function Decay(v: real, n: nat): real {
    if n == 0 then v else Decay(v, n - 1) * Damping
  }

  function Pow(b: real, n: nat): real {
    if n == 0 then 1.0 else b * Pow(b, n - 1)
  }

  lemma MulShift(a: real, b: real, c: real)
    ensures a * b * c == a * (c * b)
  {
  }

  /** Damping `n` times scales by 0.99 to the power `n`. */
  lemma {:induction false} DecayIsPower(v: real, n: nat)
    ensures Decay(v, n) == v * Pow(Damping, n)
  {
    if n > 0 {
      DecayIsPower(v, n - 1);
      MulShift(v, Pow(Damping, n - 1), Damping);
    }
  }

  /** Repeated damping never grows a component and, once applied, strictly
      shrinks a non-zero one. */
  lemma {:induction false} DecayShrinks(v: real, n: nat)
    ensures Abs(Decay(v, n)) <= Abs(v)
    ensures n > 0 && v != 0.0 ==> Abs(Decay(v, n)) < Abs(v)
  {
    if n > 0 {
      DecayShrinks(v, n - 1);
      DampShrinks(Decay(v, n - 1));
    }
  }

  /** With repulsion switched off (radius at most 0), after `n` frames each
      velocity component is the initial one damped `n` times. */
  lemma {:induction false} VelocityDecays(p: Particle, m: Pointer, cfg: Config, width: real, height: real, sqrt: real -> real, n: nat)
    requires cfg.mouseRepelRadius <= 0.0
    ensures MoveN(p, m, cfg, width, height, sqrt, n).vx == Decay(p.vx, n)
    ensures MoveN(p, m, cfg, width, height, sqrt, n).vy == Decay(p.vy, n)
  {
    if n > 0 {
      VelocityDecays(p, m, cfg, width, height, sqrt, n - 1);
      DisabledRepulsion(MoveN(p, m, cfg, width, height, sqrt, n - 1), m, cfg, width, height, sqrt);
    }
  }

  // ---------------------------------------------------------------------
  // Connections

  /** A line from particle `i` (already moved) to particle `j`, with the
      endpoints in the order `moveTo`/`lineTo` use them. */
  datatype Line = Line(i: nat, j: nat, x1: real, y1: real, x2: real, y2: real, opacity: real)

  predicate Close(p: Particle, q: Particle, c: real, sqrt: real -> real) {
    PairDist(p, q, sqrt) < c
  }

  function LineBetween(i: nat, j: nat, p: Particle, q: Particle, c: real, sqrt: real -> real): Line
    requires c != 0.0
  {
    Line(i, j, p.x, p.y, q.x, q.y, 1.0 - PairDist(p, q, sqrt) / c)
  }

  /** What a drawn line is: for a pair `i < j` whose distance, from the new
      position of `i` to the old position of `j`, is below `c`, with
      opacity `1 - d/c`. */
  ghost predicate ValidLine(l: Line, news: seq<Particle>, olds: seq<Particle>, c: real, sqrt: real -> real) {
    && l.i < l.j < |olds| && l.i < |news|
    && Close(news[l.i], olds[l.j], c, sqrt)
    && c != 0.0
    && l == LineBetween(l.i, l.j, news[l.i], olds[l.j], c, sqrt)
  }

  ghost predicate HasLine(ls: seq<Line>, i: nat, j: nat) {
    exists k :: 0 <= k < |ls| && ls[k].i == i && ls[k].j == j
  }

  /** Lines are listed in the order of their pairs, so no pair appears twice. */
  predicate PairOrdered(ls: seq<Line>) {
    forall k1, k2 :: 0 <= k1 < k2 < |ls| ==>
      ls[k1].i < ls[k2].i || (ls[k1].i == ls[k2].i && ls[k1].j < ls[k2].j)
  }

  /** The inner loop: lines from particle `i`, at its new position `p`, to
      the particles `j..` at their old positions. */
  function LinesFrom(i: nat, p: Particle, olds: seq<Particle>, j: nat, c: real, sqrt: real -> real): seq<Line>
    requires SqrtNonNeg(sqrt)
    decreases |olds| - j
  {
    if j >= |olds| then []
    else if PairDist(p, olds[j], sqrt) < c then
      [LineBetween(i, j, p, olds[j], c, sqrt)] + LinesFrom(i, p, olds, j + 1, c, sqrt)
    else
      LinesFrom(i, p, olds, j + 1, c, sqrt)
  }

  /** Every line of `ls` joins `i` to a particle from `j` on that is close
      to `p`, with opacity `1 - d/c`. */
  ghost predicate RowSound(ls: seq<Line>, i: nat, p: Particle, olds: seq<Particle>, j: nat, c: real, sqrt: real -> real) {
    forall k :: 0 <= k < |ls| ==>
      && ls[k].i == i && j <= ls[k].j < |olds|
      && Close(p, olds[ls[k].j], c, sqrt) && c != 0.0
      && ls[k] == LineBetween(i, ls[k].j, p, olds[ls[k].j], c, sqrt)
  }

  /** Each line of the inner loop joins `i` to a later particle that is
      close enough, with opacity `1 - d/c`. */
  lemma {:induction false} LinesFromSound(i: nat, p: Particle, olds: seq<Particle>, j: nat, c: real, sqrt: real -> real)
    requires SqrtNonNeg(sqrt)
    decreases |olds| - j
    ensures RowSound(LinesFrom(i, p, olds, j, c, sqrt), i, p, olds, j, c, sqrt)
  {
    if j < |olds| {
      LinesFromSound(i, p, olds, j + 1, c, sqrt);
      var rest := LinesFrom(i, p, olds, j + 1, c, sqrt);
      var ls := LinesFrom(i, p, olds, j, c, sqrt);
      if PairDist(p, olds[j], sqrt) < c {
        assert ls == [LineBetween(i, j, p, olds[j], c, sqrt)] + rest;
        assert forall k :: 1 <= k < |ls| ==> ls[k] == rest[k - 1];
      }
    }
  }

  /** The inner loop visits `j` in increasing order. */
  lemma {:induction false} LinesFromOrdered(i: nat, p: Particle, olds: seq<Particle>, j: nat, c: real, sqrt: real -> real)
    requires SqrtNonNeg(sqrt)
    decreases |olds| - j
    ensures PairOrdered(LinesFrom(i, p, olds, j, c, sqrt))
  {
    if j < |olds| {
      LinesFromOrdered(i, p, olds, j + 1, c, sqrt);
      LinesFromSound(i, p, olds, j + 1, c, sqrt);
      var rest := LinesFrom(i, p, olds, j + 1, c, sqrt);
      var ls := LinesFrom(i, p, olds, j, c, sqrt);
      if PairDist(p, olds[j], sqrt) < c {
        assert ls == [LineBetween(i, j, p, olds[j], c, sqrt)] + rest;
        assert forall k :: 1 <= k < |ls| ==> ls[k] == rest[k - 1];
      }
    }
  }

  /** The inner loop misses no close particle. */
  lemma {:induction false} LinesFromComplete(i: nat, p: Particle, olds: seq<Particle>, j: nat, c: real, sqrt: real -> real)
    requires SqrtNonNeg(sqrt)
    decreases |olds| - j
    ensures forall jj {:trigger HasLine(LinesFrom(i, p, olds, j, c, sqrt), i, jj)} :: j <= jj < |olds| && Close(p, olds[jj], c, sqrt) ==>
      HasLine(LinesFrom(i, p, olds, j, c, sqrt), i, jj)
  {
    if j < |olds| {
      LinesFromComplete(i, p, olds, j + 1, c, sqrt);
      var rest := LinesFrom(i, p, olds, j + 1, c, sqrt);
      var ls := LinesFrom(i, p, olds, j, c, sqrt);
      forall jj | j <= jj < |olds| && Close(p, olds[jj], c, sqrt)
        ensures HasLine(ls, i, jj)
      {
        if jj == j {
          assert ls[0].i == i && ls[0].j == j;
        } else {
          assert HasLine(rest, i, jj);
          var k :| 0 <= k < |rest| && rest[k].i == i && rest[k].j == jj;
          if PairDist(p, olds[j], sqrt) < c {
            assert ls == [LineBetween(i, j, p, olds[j], c, sqrt)] + rest;
            assert ls[k + 1] == rest[k];
          } else {
            assert ls[k] == rest[k];
          }
        }
      }
    }
  }

  /** The outer loop from particle `i` on. */
  function AllLines(news: seq<Particle>, olds: seq<Particle>, i: nat, c: real, sqrt: real -> real): seq<Line>
    requires SqrtNonNeg(sqrt) && |news| == |olds|
    decreases |news| - i
  {
    if i >= |news| then []
    else LinesFrom(i, news[i], olds, i + 1, c, sqrt) + AllLines(news, olds, i + 1, c, sqrt)
  }

  /** Every line of `ls` is valid and starts at particle `i` or later. */
  ghost predicate AllValid(ls: seq<Line>, news: seq<Particle>, olds: seq<Particle>, i: nat, c: real, sqrt: real -> real) {
    forall k :: 0 <= k < |ls| ==> i <= ls[k].i && ValidLine(ls[k], news, olds, c, sqrt)
  }

  /** Every line the outer loop draws from particle `i` on is valid. */
  lemma {:induction false} AllLinesSound(news: seq<Particle>, olds: seq<Particle>, i: nat, c: real, sqrt: real -> real)
    requires SqrtNonNeg(sqrt) && |news| == |olds|
    decreases |news| - i
    ensures AllValid(AllLines(news, olds, i, c, sqrt), news, olds, i, c, sqrt)
  {
    if i < |news| {
      AllLinesSound(news, olds, i + 1, c, sqrt);
      LinesFromSound(i, news[i], olds, i + 1, c, sqrt);
      var head := LinesFrom(i, news[i], olds, i + 1, c, sqrt);
      var rest := AllLines(news, olds, i + 1, c, sqrt);
      var ls := head + rest;
      assert forall k :: 0 <= k < |head| ==> ls[k] == head[k];
      assert forall k :: |head| <= k < |ls| ==> ls[k] == rest[k - |head|];
    }
  }

  /** Pairs come out in lexicographic order, so none is drawn twice. */
  lemma {:induction false} AllLinesOrdered(news: seq<Particle>, olds: seq<Particle>, i: nat, c: real, sqrt: real -> real)
    requires SqrtNonNeg(sqrt) && |news| == |olds|
    decreases |news| - i
    ensures PairOrdered(AllLines(news, olds, i, c, sqrt))
  {
    if i < |news| {
      AllLinesOrdered(news, olds, i + 1, c, sqrt);
      LinesFromOrdered(i, news[i], olds, i + 1, c, sqrt);
      LinesFromSound(i, news[i], olds, i + 1, c, sqrt);
      AllLinesSound(news, olds, i + 1, c, sqrt);
      var head := LinesFrom(i, news[i], olds, i + 1, c, sqrt);
      var rest := AllLines(news, olds, i + 1, c, sqrt);
      var ls := head + rest;
      assert forall k :: 0 <= k < |head| ==> ls[k] == head[k] && ls[k].i == i;
      assert forall k :: |head| <= k < |ls| ==> ls[k] == rest[k - |head|] && i < ls[k].i;
    }
  }

  /** Every close pair `i <= ii < jj` gets its line. */
  lemma {:induction false} AllLinesComplete(news: seq<Particle>, olds: seq<Particle>, i: nat, c: real, sqrt: real -> real)
    requires SqrtNonNeg(sqrt) && |news| == |olds|
    decreases |news| - i
    ensures forall ii, jj {:trigger HasLine(AllLines(news, olds, i, c, sqrt), ii, jj)} ::
      i <= ii < jj < |olds| && Close(news[ii], olds[jj], c, sqrt) ==> HasLine(AllLines(news, olds, i, c, sqrt), ii, jj)
  {
    if i < |news| {
      AllLinesComplete(news, olds, i + 1, c, sqrt);
      LinesFromComplete(i, news[i], olds, i + 1, c, sqrt);
      var head := LinesFrom(i, news[i], olds, i + 1, c, sqrt);
      var rest := AllLines(news, olds, i + 1, c, sqrt);
      var ls := head + rest;
      forall ii, jj | i <= ii < jj < |olds| && Close(news[ii], olds[jj], c, sqrt)
        ensures HasLine(ls, ii, jj)
      {
        if ii == i {
          assert HasLine(head, ii, jj);
          var k :| 0 <= k < |head| && head[k].i == ii && head[k].j == jj;
          assert ls[k] == head[k];
        } else {
          assert HasLine(rest, ii, jj);
          var k :| 0 <= k < |rest| && rest[k].i == ii && rest[k].j == jj;
          assert ls[|head| + k] == rest[k];
        }
      }
    }
  }

  /** Every drawn line has opacity in (0, 1]. */
  lemma OpacityInRange(l: Line, news: seq<Particle>, olds: seq<Particle>, c: real, sqrt: real -> real)
    requires SqrtNonNeg(sqrt)
    requires ValidLine(l, news, olds, c, sqrt)
    ensures 0.0 < l.opacity <= 1.0
  {
    var d := PairDist(news[l.i], olds[l.j], sqrt);
    assert 0.0 <= d < c;
    assert 0.0 <= d / c < 1.0;
  }

  /** With a connection distance of 0 or less the inner loop draws
      nothing: no distance is negative. */
  lemma {:induction false} NoLinesFromWhenDisabled(i: nat, p: Particle, olds: seq<Particle>, j: nat, c: real, sqrt: real -> real)
    requires SqrtNonNeg(sqrt) && c <= 0.0
    decreases |olds| - j
    ensures LinesFrom(i, p, olds, j, c, sqrt) == []
  {
    if j < |olds| {
      NoLinesFromWhenDisabled(i, p, olds, j + 1, c, sqrt);
    }
  }

  /** With a connection distance of 0 or less no line is ever drawn. */
  lemma {:induction false} NoLinesWhenDisabled(news: seq<Particle>, olds: seq<Particle>, i: nat, c: real, sqrt: real -> real)
    requires SqrtNonNeg(sqrt) && |news| == |olds| && c <= 0.0
    decreases |news| - i
    ensures AllLines(news, olds, i, c, sqrt) == []
  {
    if i < |news| {
      NoLinesFromWhenDisabled(i, news[i], olds, i + 1, c, sqrt);
      NoLinesWhenDisabled(news, olds, i + 1, c, sqrt);
    }
  }

  // ---------------------------------------------------------------------
  // The frame

  datatype Frame = Frame(particles: seq<Particle>, lines: seq<Line>)

  function MoveAll(ps: seq<Particle>, m: Pointer, cfg: Config, width: real, height: real, sqrt: real -> real): (news: seq<Particle>)
    ensures |news| == |ps|
    ensures forall k :: 0 <= k < |ps| ==> news[k] == Move(ps[k], m, cfg, width, height, sqrt)
  {
    seq(|ps|, k requires 0 <= k < |ps| => Move(ps[k], m, cfg, width, height, sqrt))
  }

  /** One call of `animate`. Each particle is updated on its own, so the
      frame neither adds, removes nor reorders particles; every particle
      ends on the canvas; and a line is drawn for the pair `i < j` exactly
      when the new position of `i` and the old position of `j` are closer
      than the connection distance, each pair at most once. */
  function Animate(ps: seq<Particle>, m: Pointer, cfg: Config, width: real, height: real, sqrt: real -> real): (f: Frame)
    requires SqrtNonNeg(sqrt)
    ensures |f.particles| == |ps|
    ensures forall k :: 0 <= k < |ps| ==> f.particles[k] == Move(ps[k], m, cfg, width, height, sqrt)
    ensures 0.0 <= width && 0.0 <= height ==>
      forall k :: 0 <= k < |ps| ==> OnCanvas(f.particles[k], width, height)
    ensures forall k :: 0 <= k < |f.lines| ==> ValidLine(f.lines[k], f.particles, ps, cfg.connectionDistance, sqrt)
    ensures forall i, j {:trigger HasLine(f.lines, i, j)} :: 0 <= i < j < |ps| ==>
      (Close(f.particles[i], ps[j], cfg.connectionDistance, sqrt) <==> HasLine(f.lines, i, j))
    ensures PairOrdered(f.lines)
  {
    var news := MoveAll(ps, m, cfg, width, height, sqrt);
    var ls := AllLines(news, ps, 0, cfg.connectionDistance, sqrt);
    AllLinesSound(news, ps, 0, cfg.connectionDistance, sqrt);
    AllLinesOrdered(news, ps, 0, cfg.connectionDistance, sqrt);
    AllLinesComplete(news, ps, 0, cfg.connectionDistance, sqrt);
    forall i, j | 0 <= i < j < |ps| && HasLine(ls, i, j)
      ensures Close(news[i], ps[j], cfg.connectionDistance, sqrt)
    {
      var k :| 0 <= k < |ls| && ls[k].i == i && ls[k].j == j;
    }
    Frame(news, ls)
  }

  /** One step of the inner loop, unfolded. */
  lemma LinesFromStep(i: nat, p: Particle, olds: seq<Particle>, j: nat, c: real, sqrt: real -> real)
    requires SqrtNonNeg(sqrt) && j < |olds|
    ensures LinesFrom(i, p, olds, j, c, sqrt) == Emit(i, p, olds, j, c, sqrt) + LinesFrom(i, p, olds, j + 1, c, sqrt)
  {
  }

  /** The line, if any, for the pair (`i`, `j`). */
  function Emit(i: nat, p: Particle, olds: seq<Particle>, j: nat, c: real, sqrt: real -> real): seq<Line>
    requires SqrtNonNeg(sqrt) && j < |olds|
  {
    if PairDist(p, olds[j], sqrt) < c then [LineBetween(i, j, p, olds[j], c, sqrt)] else []
  }

  /** The lines the inner loop has drawn when it reaches `hi`, having
      started at `lo`: built by appending, as the loop does. */
  function RowPrefix(i: nat, p: Particle, olds: seq<Particle>, lo: nat, hi: nat, c: real, sqrt: real -> real): seq<Line>
    requires SqrtNonNeg(sqrt) && lo <= hi <= |olds|
    decreases hi - lo
  {
    if hi == lo then [] else RowPrefix(i, p, olds, lo, hi - 1, c, sqrt) + Emit(i, p, olds, hi - 1, c, sqrt)
  }

  /** What the inner loop has drawn plus what is left to draw is the whole
      row: the appending loop and the recursive definition agree. */
  lemma {:induction false} RowSplit(i: nat, p: Particle, olds: seq<Particle>, lo: nat, hi: nat, c: real, sqrt: real -> real)
    requires SqrtNonNeg(sqrt) && lo <= hi <= |olds|
    decreases hi - lo
    ensures RowPrefix(i, p, olds, lo, hi, c, sqrt) + LinesFrom(i, p, olds, hi, c, sqrt) == LinesFrom(i, p, olds, lo, c, sqrt)
  {
    if hi > lo {
      RowSplit(i, p, olds, lo, hi - 1, c, sqrt);
      LinesFromStep(i, p, olds, hi - 1, c, sqrt);
      var a := RowPrefix(i, p, olds, lo, hi - 1, c, sqrt);
      var e := Emit(i, p, olds, hi - 1, c, sqrt);
      var b := LinesFrom(i, p, olds, hi, c, sqrt);
      assert (a + e) + b == a + (e + b);
    }
  }

  /** The inner loop of `animate`, reading the particle array as it stands:
      entries after `i` are still the old ones. */
  method ConnectFrom(i: nat, p: Particle, next: seq<Particle>, olds: seq<Particle>, c: real, sqrt: real -> real)
    returns (lines: seq<Line>)
    requires SqrtNonNeg(sqrt) && |next| == |olds| && i < |olds|
    requires forall k :: i < k < |olds| ==> next[k] == olds[k]
    ensures lines == LinesFrom(i, p, olds, i + 1, c, sqrt)
  {
    lines := [];
    var j := i + 1;
    while j < |next|
      invariant i + 1 <= j <= |next|
      invariant lines == RowPrefix(i, p, olds, i + 1, j, c, sqrt)
    {
      var other := next[j];
      assert other == olds[j];
      var d := PairDist(p, other, sqrt);
      if d < c {
        lines := lines + [Line(i, j, p.x, p.y, other.x, other.y, 1.0 - d / c)];
      }
      assert lines == RowPrefix(i, p, olds, i + 1, j, c, sqrt) + Emit(i, p, olds, j, c, sqrt);
      j := j + 1;
    }
    RowSplit(i, p, olds, i + 1, |olds|, c, sqrt);
  }

  /** One step of the outer loop, unfolded. */
  lemma AllLinesStep(news: seq<Particle>, olds: seq<Particle>, i: nat, c: real, sqrt: real -> real)
    requires SqrtNonNeg(sqrt) && |news| == |olds| && i < |news|
    ensures AllLines(news, olds, i, c, sqrt) ==
      LinesFrom(i, news[i], olds, i + 1, c, sqrt) + AllLines(news, olds, i + 1, c, sqrt)
  {
  }

  /** The lines the outer loop has drawn before particle `hi`. */
  function FramePrefix(news: seq<Particle>, olds: seq<Particle>, hi: nat, c: real, sqrt: real -> real): seq<Line>
    requires SqrtNonNeg(sqrt) && |news| == |olds| && hi <= |news|
  {
    if hi == 0 then [] else FramePrefix(news, olds, hi - 1, c, sqrt) + LinesFrom(hi - 1, news[hi - 1], olds, hi, c, sqrt)
  }

  /** The outer loop's appending and the recursive `AllLines` agree. */
  lemma {:induction false} FrameSplit(news: seq<Particle>, olds: seq<Particle>, hi: nat, c: real, sqrt: real -> real)
    requires SqrtNonNeg(sqrt) && |news| == |olds| && hi <= |news|
    ensures FramePrefix(news, olds, hi, c, sqrt) + AllLines(news, olds, hi, c, sqrt) == AllLines(news, olds, 0, c, sqrt)
  {
    if hi > 0 {
      FrameSplit(news, olds, hi - 1, c, sqrt);
      AllLinesStep(news, olds, hi - 1, c, sqrt);
      var a := FramePrefix(news, olds, hi - 1, c, sqrt);
      var e := LinesFrom(hi - 1, news[hi - 1], olds, hi, c, sqrt);
      var b := AllLines(news, olds, hi, c, sqrt);
      assert (a + e) + b == a + (e + b);
    }
  }

  /** The source's loops: particle `i` is updated in place, then compared
      with every later particle, which has not been updated yet. */
  method AnimateInPlace(ps: seq<Particle>, m: Pointer, cfg: Config, width: real, height: real, sqrt: real -> real)
    returns (next: seq<Particle>, lines: seq<Line>)
    requires SqrtNonNeg(sqrt)
    ensures Frame(next, lines) == Animate(ps, m, cfg, width, height, sqrt)
  {
    ghost var news := MoveAll(ps, m, cfg, width, height, sqrt);
    next, lines := Loops(ps, news, m, cfg, width, height, sqrt);
    LoopsMakeFrame(ps, m, cfg, width, height, sqrt, next, lines);
  }

  /** The outer loop: after it every particle has moved, and the lines are
      those of every row in order. */
  method Loops(ps: seq<Particle>, ghost news: seq<Particle>, m: Pointer, cfg: Config, width: real, height: real, sqrt: real -> real)
    returns (next: seq<Particle>, lines: seq<Line>)
    requires SqrtNonNeg(sqrt) && |news| == |ps|
    requires forall k :: 0 <= k < |ps| ==> news[k] == Move(ps[k], m, cfg, width, height, sqrt)
    ensures next == news
    ensures lines == FramePrefix(news, ps, |ps|, cfg.connectionDistance, sqrt)
  {
    var c := cfg.connectionDistance;
    next := ps;
    lines := [];
    var i := 0;
    while i < |next|
      invariant 0 <= i <= |ps| && |next| == |ps|
      invariant next == news[..i] + ps[i..]
      invariant lines == FramePrefix(news, ps, i, c, sqrt)
    {
      next, lines := UpdateAndConnect(i, next, lines, ps, news, m, cfg, width, height, sqrt);
      i := i + 1;
    }
    assert news[..i] + ps[i..] == news;
  }

  /** One pass of the outer loop: particle `i` moves, then its lines to
      the later, not yet moved, particles are appended. */
  method UpdateAndConnect(i: nat, next: seq<Particle>, lines: seq<Line>, ps: seq<Particle>, ghost news: seq<Particle>,
                          m: Pointer, cfg: Config, width: real, height: real, sqrt: real -> real)
    returns (next': seq<Particle>, lines': seq<Line>)
    requires SqrtNonNeg(sqrt) && |news| == |ps| && i < |ps|
    requires forall k :: 0 <= k < |ps| ==> news[k] == Move(ps[k], m, cfg, width, height, sqrt)
    requires next == news[..i] + ps[i..]
    requires lines == FramePrefix(news, ps, i, cfg.connectionDistance, sqrt)
    ensures next' == news[..i + 1] + ps[i + 1..]
    ensures lines' == FramePrefix(news, ps, i + 1, cfg.connectionDistance, sqrt)
  {
    assert next[i] == ps[i];
    var p := Move(next[i], m, cfg, width, height, sqrt);
    next' := next[i := p];
    assert next' == news[..i + 1] + ps[i + 1..];
    var more := ConnectFrom(i, p, next', ps, cfg.connectionDistance, sqrt);
    lines' := lines + more;
  }

  /** The particles and lines the loops produce are the frame `Animate`
      describes. */
  lemma LoopsMakeFrame(ps: seq<Particle>, m: Pointer, cfg: Config, width: real, height: real, sqrt: real -> real,
                       next: seq<Particle>, lines: seq<Line>)
    requires SqrtNonNeg(sqrt)
    requires next == MoveAll(ps, m, cfg, width, height, sqrt)
    requires lines == FramePrefix(next, ps, |ps|, cfg.connectionDistance, sqrt)
    ensures Frame(next, lines) == Animate(ps, m, cfg, width, height, sqrt)
  {
    var news := next;
    PrefixIsAll(news, ps, cfg.connectionDistance, sqrt);
    assert Animate(ps, m, cfg, width, height, sqrt) == Frame(news, AllLines(news, ps, 0, cfg.connectionDistance, sqrt));
  }

  /** After the last particle the loop's lines are all of `AllLines`. */
  lemma PrefixIsAll(news: seq<Particle>, olds: seq<Particle>, c: real, sqrt: real -> real)
    requires SqrtNonNeg(sqrt) && |news| == |olds|
    ensures FramePrefix(news, olds, |news|, c, sqrt) == AllLines(news, olds, 0, c, sqrt)
  {
    FrameSplit(news, olds, |news|, c, sqrt);
    assert AllLines(news, olds, |news|, c, sqrt) == [];
    assert FramePrefix(news, olds, |news|, c, sqrt) + [] == FramePrefix(news, olds, |news|, c, sqrt);
  }



  /** The exact square root of 2500 is 50. */
  lemma SqrtOf2500(sqrt: real -> real)
    requires IsSqrt(sqrt)
    ensures sqrt(2500.0) == 50.0
  {
    var s := sqrt(2500.0);
    assert s * s == 2500.0 && 0.0 <= s;
    assert (s - 50.0) * (s + 50.0) == 0.0;
    ZeroProduct(s - 50.0, s + 50.0);
  }

  lemma ZeroProduct(a: real, b: real)
    requires a * b == 0.0
    ensures a == 0.0 || b == 0.0
  {
  }

  /** A particle at rest, on the canvas, with repulsion switched off,
      stays exactly where it is. */
  lemma RestingParticleStays(p: Particle, m: Pointer, cfg: Config, width: real, height: real, sqrt: real -> real)
    requires cfg.mouseRepelRadius <= 0.0 && p.vx == 0.0 && p.vy == 0.0
    requires OnCanvas(p, width, height)
    ensures Move(p, m, cfg, width, height, sqrt) == p
  {
    assert !Repels(p, m, cfg.mouseRepelRadius, sqrt);
  }

  /** Two particles at rest 50 apart, no pointer push, connection distance
      100: the particles stay where they are and exactly one line is
      drawn, of opacity 1/2. */
  lemma TwoParticleScenario(sqrt: real -> real)
    requires IsSqrt(sqrt)
    ensures var ps := [Particle(0.0, 0.0, 0.0, 0.0, 1.0), Particle(50.0, 0.0, 0.0, 0.0, 1.0)];
      var f := Animate(ps, PointerAtStart, Config(2, 100.0, 0.0), 800.0, 600.0, sqrt);
      && f.particles == ps
      && |f.lines| == 1 && f.lines[0].opacity == 0.5
  {
    var ps := [Particle(0.0, 0.0, 0.0, 0.0, 1.0), Particle(50.0, 0.0, 0.0, 0.0, 1.0)];
    var cfg := Config(2, 100.0, 0.0);
    var news := MoveAll(ps, PointerAtStart, cfg, 800.0, 600.0, sqrt);
    RestingParticleStays(ps[0], PointerAtStart, cfg, 800.0, 600.0, sqrt);
    RestingParticleStays(ps[1], PointerAtStart, cfg, 800.0, 600.0, sqrt);
    assert news == ps;
    SqrtOf2500(sqrt);
    assert Norm2(0.0 - 50.0, 0.0 - 0.0) == 2500.0;
    assert PairDist(ps[0], ps[1], sqrt) == 50.0;
    LinesFromStep(0, ps[0], ps, 1, 100.0, sqrt);
    AllLinesStep(ps, ps, 0, 100.0, sqrt);
    AllLinesStep(ps, ps, 1, 100.0, sqrt);
    var ls := AllLines(ps, ps, 0, 100.0, sqrt);
    assert ls == [LineBetween(0, 1, ps[0], ps[1], 100.0, sqrt)];
  }
}
