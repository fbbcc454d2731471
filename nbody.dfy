/**
  The physics core of the solar-system simulation: three-component vectors,
  point-mass bodies, the pairwise gravitational acceleration pass, the
  velocity-Verlet integrator with its buffer of previous accelerations, the
  one-off momentum (barycenter) correction, the circular-orbit planet
  factory, the initial solar system and the five-sub-step frame.

  Units are those of the program: solar masses, astronomical units, years,
  with G = 4 pi^2. Every double is a real; `std::sqrt` is the oracle
  parameter `sqrt` (see RealMath.Root), assumed exact only by the lemmas
  that need it.
 */
module NBody {
  import opened RealMath

  /** Gravitational constant in AU^3 / (solar mass * year^2): the program's
      `4 * M_PI * M_PI`, i.e. 4 pi^2 as the double it evaluates to, written
      to 16 significant digits. */
  const G: real := 39.47841760435743
  /** Fixed integration step, in years. */
  const DT: real := 0.0005
  /** Added to every separation so that coincident bodies do not divide by zero. */
  const EPS: real := 1e-10
  /** Integration sub-steps per rendered frame. */
  const SUB_STEPS: nat := 5

  // ---------------------------------------------------------------------
  // Vector arithmetic

  datatype Vec3 = Vec3(x: real, y: real, z: real)

  const Zero: Vec3 := Vec3(0.0, 0.0, 0.0)

  function Add(a: Vec3, b: Vec3): (r: Vec3) {
    Vec3(a.x + b.x, a.y + b.y, a.z + b.z)
  }

  function Sub(a: Vec3, b: Vec3): (r: Vec3) {
    Vec3(a.x - b.x, a.y - b.y, a.z - b.z)
  }

  function Neg(a: Vec3): (r: Vec3) {
    Vec3(-a.x, -a.y, -a.z)
  }

  /** Both `v * s` and `s * v` of the program: each component times `s`. */
  function Scale(a: Vec3, s: real): (r: Vec3) {
    Vec3(a.x * s, a.y * s, a.z * s)
  }

  /** `v / s`; dividing by zero is the caller's business, so it is excluded. */
  function Div(a: Vec3, s: real): (r: Vec3)
    requires s != 0.0
    ensures Scale(r, s) == a
  {
    Vec3(a.x / s, a.y / s, a.z / s)
  }

  function NormSq(v: Vec3): (r: real) {
    v.x * v.x + v.y * v.y + v.z * v.z
  }

  /** Euclidean length, through the square-root oracle. */
  function Norm(v: Vec3, sqrt: real -> real): (r: real)
    ensures r >= 0.0
  {
    Root(sqrt, NormSq(v))
  }

  /** With an exact oracle, Norm is the Euclidean length. */
  lemma NormExact(v: Vec3, sqrt: real -> real)
    requires IsSqrt(sqrt)
    ensures Norm(v, sqrt) * Norm(v, sqrt) == NormSq(v)
  {
    RootExact(sqrt, NormSq(v));
  }

  lemma NormSymmetric(a: Vec3, b: Vec3, sqrt: real -> real)
    ensures Norm(Sub(b, a), sqrt) == Norm(Sub(a, b), sqrt)
  {
    assert NormSq(Sub(b, a)) == NormSq(Sub(a, b));
  }

  /** Adding b and then subtracting it again gives back a: the operators
      are exact inverses over the reals. */
  lemma AddSubCancel(a: Vec3, b: Vec3)
    ensures Sub(Add(a, b), b) == a
  {
  }

  // --- Vector algebra used by the proofs ---

  lemma ScaleAdd(a: Vec3, b: Vec3, c: real)
    ensures Scale(Add(a, b), c) == Add(Scale(a, c), Scale(b, c))
  {
  }

  lemma AddZeroPair(b: Vec3, c: Vec3)
    requires Add(b, c) == Zero
    ensures Add(Add(Zero, c), b) == Zero
  {
  }

  lemma AddSwapMiddle(a: Vec3, b: Vec3, c: Vec3, d: Vec3)
    ensures Add(Add(a, b), Add(c, d)) == Add(Add(a, c), Add(b, d))
  {
  }

  // ---------------------------------------------------------------------
  // Bodies and their sums

  datatype Body = Body(mass: real, pos: Vec3, vel: Vec3, acc: Vec3)

  /** Sum of the masses, accumulated front to back. */
  function TotalMass(s: seq<Body>): (m: real)
    decreases |s|
  {
    if |s| == 0 then 0.0 else TotalMass(s[..|s| - 1]) + s[|s| - 1].mass
  }

  /** Sum of mass times velocity, accumulated front to back. */
  function TotalMomentum(s: seq<Body>): (p: Vec3)
    ensures (forall k :: 0 <= k < |s| ==> s[k].vel == Zero) ==> p == Zero
    decreases |s|
  {
    if |s| == 0 then Zero
    else Add(TotalMomentum(s[..|s| - 1]), Scale(s[|s| - 1].vel, s[|s| - 1].mass))
  }

  /** Sum of mass times acceleration (the system's net force). */
  function MassWeightedAcc(s: seq<Body>): (a: Vec3)
    decreases |s|
  {
    if |s| == 0 then Zero
    else Add(MassWeightedAcc(s[..|s| - 1]), Scale(s[|s| - 1].acc, s[|s| - 1].mass))
  }

  function Accelerations(s: seq<Body>): (r: seq<Vec3>)
    ensures |r| == |s| && forall k :: 0 <= k < |s| ==> r[k] == s[k].acc
  {
    seq(|s|, k requires 0 <= k < |s| => s[k].acc)
  }

  // ---------------------------------------------------------------------
  // Pairwise gravitation

  /** Regularised separation of two positions: never zero. */
  function Separation(p: Vec3, q: Vec3, sqrt: real -> real): (d: real)
    ensures d >= EPS > 0.0
  {
    Norm(Sub(q, p), sqrt) + EPS
  }

  /** The cube in the denominator of the force law is positive. */
  function InvCube(d: real): (r: real)
    requires d > 0.0
    ensures r > 0.0 && r * (d * d * d) == 1.0
  {
    1.0 / (d * d * d)
  }

  /** Acceleration per unit of attracting mass felt at `p` from a body at `q`:
      G (q - p) / (|q - p| + EPS)^3. */
  function Force(p: Vec3, q: Vec3, sqrt: real -> real): (f: Vec3)
    ensures exists c: real :: c > 0.0 && f == Scale(Sub(q, p), c)
    ensures p == q ==> f == Zero
  {
    var c := G * InvCube(Separation(p, q, sqrt));
    PositiveMultiple(p, q, c);
    Scale(Sub(q, p), c)
  }

  /** A positive multiple of the separation, which vanishes when the
      two positions coincide. */
  lemma PositiveMultiple(p: Vec3, q: Vec3, c: real)
    requires c > 0.0
    ensures exists k: real :: k > 0.0 && Scale(Sub(q, p), c) == Scale(Sub(q, p), k)
    ensures p == q ==> Scale(Sub(q, p), c) == Zero
  {
    if p == q {
      assert Sub(q, p) == Zero;
      ScaleZero(c);
    }
    var k := c;
    assert k > 0.0 && Scale(Sub(q, p), c) == Scale(Sub(q, p), k);
  }

  lemma ForceAntisymmetric(p: Vec3, q: Vec3, sqrt: real -> real)
    ensures Force(q, p, sqrt) == Neg(Force(p, q, sqrt))
  {
    NormSymmetric(p, q, sqrt);
    var c := G * InvCube(Separation(p, q, sqrt));
    assert G * InvCube(Separation(q, p, sqrt)) == c;
    assert Sub(p, q) == Neg(Sub(q, p));
  }

  /** Acceleration of body `k` caused by body `j`. */
  function PairAccel(bs: seq<Body>, k: nat, j: nat, sqrt: real -> real): (a: Vec3)
    requires k < |bs| && j < |bs|
  {
    Scale(Force(bs[k].pos, bs[j].pos, sqrt), bs[j].mass)
  }

  /** Action and reaction: the mass-weighted accelerations one pair gives
      each other cancel. */
  lemma ActionReaction(bs: seq<Body>, i: nat, j: nat, sqrt: real -> real)
    requires i < |bs| && j < |bs|
    ensures Add(Scale(PairAccel(bs, i, j, sqrt), bs[i].mass),
                Scale(PairAccel(bs, j, i, sqrt), bs[j].mass)) == Zero
  {
    ForceAntisymmetric(bs[i].pos, bs[j].pos, sqrt);
    PairCancel(PairAccel(bs, i, j, sqrt), Force(bs[i].pos, bs[j].pos, sqrt),
               PairAccel(bs, j, i, sqrt), bs[i].mass, bs[j].mass);
  }

  /** m_i (m_j f) and m_j (m_i (-f)) cancel. */
  lemma PairCancel(u: Vec3, f: Vec3, v: Vec3, mi: real, mj: real)
    requires u == Scale(f, mj) && v == Scale(Neg(f), mi)
    ensures Add(Scale(u, mi), Scale(v, mj)) == Zero
  {
    assert f.x * mj * mi + -f.x * mi * mj == 0.0;
    assert f.y * mj * mi + -f.y * mi * mj == 0.0;
    assert f.z * mj * mi + -f.z * mi * mj == 0.0;
  }

  /** Sum over j < m, j != k, of the acceleration body j gives body k. */
  function NetAccelUpTo(bs: seq<Body>, k: nat, m: nat, sqrt: real -> real): (a: Vec3)
    requires k < |bs| && m <= |bs|
    decreases m
  {
    if m == 0 then Zero
    else if m - 1 == k then NetAccelUpTo(bs, k, m - 1, sqrt)
    else Add(NetAccelUpTo(bs, k, m - 1, sqrt), PairAccel(bs, k, m - 1, sqrt))
  }

  /** Net gravitational acceleration on body k from every other body. */
  function NetAccel(bs: seq<Body>, k: nat, sqrt: real -> real): (a: Vec3)
    requires k < |bs|
    ensures |bs| == 1 ==> a == Zero
    ensures |bs| == 2 ==> a == PairAccel(bs, k, 1 - k, sqrt)
  {
    NetAccelOfFew(bs, k, sqrt);
    NetAccelUpTo(bs, k, |bs|, sqrt)
  }

  lemma NetAccelOfFew(bs: seq<Body>, k: nat, sqrt: real -> real)
    requires k < |bs|
    ensures |bs| == 1 ==> NetAccelUpTo(bs, k, 1, sqrt) == Zero
    ensures |bs| == 2 ==> NetAccelUpTo(bs, k, 2, sqrt) == PairAccel(bs, k, 1 - k, sqrt)
  {
    if |bs| == 2 {
      var f := PairAccel(bs, k, 1 - k, sqrt);
      assert Add(Zero, f) == f;
      if k == 0 {
        assert NetAccelUpTo(bs, k, 1, sqrt) == Zero;
      } else {
        assert NetAccelUpTo(bs, k, 1, sqrt) == Add(Zero, f);
      }
    }
  }

  /** The bodies with every acceleration replaced by its net value. */
  function WithAccelerations(bs: seq<Body>, sqrt: real -> real): (r: seq<Body>)
    ensures |r| == |bs|
    ensures forall k :: 0 <= k < |bs| ==>
      r[k].mass == bs[k].mass && r[k].pos == bs[k].pos && r[k].vel == bs[k].vel
  {
    seq(|bs|, k requires 0 <= k < |bs| => bs[k].(acc := NetAccel(bs, k, sqrt)))
  }

  /** Accelerations agree with the positions: what each Verlet step needs on entry. */
  ghost predicate Consistent(bs: seq<Body>, sqrt: real -> real)
  {
    forall k :: 0 <= k < |bs| ==> bs[k].acc == NetAccel(bs, k, sqrt)
  }

  lemma {:induction false} NetAccelUpToFrame(bs: seq<Body>, cs: seq<Body>, k: nat, m: nat, sqrt: real -> real)
    requires k < |bs| == |cs| && m <= |bs|
    requires forall t :: 0 <= t < |bs| ==> bs[t].mass == cs[t].mass && bs[t].pos == cs[t].pos
    ensures NetAccelUpTo(bs, k, m, sqrt) == NetAccelUpTo(cs, k, m, sqrt)
    decreases m
  {
    if m > 0 {
      NetAccelUpToFrame(bs, cs, k, m - 1, sqrt);
    }
  }

  /** Accelerations depend on masses and positions only. */
  lemma NetAccelFrame(bs: seq<Body>, cs: seq<Body>, sqrt: real -> real)
    requires |bs| == |cs|
    requires forall t :: 0 <= t < |bs| ==> bs[t].mass == cs[t].mass && bs[t].pos == cs[t].pos
    ensures forall k :: 0 <= k < |bs| ==> NetAccel(bs, k, sqrt) == NetAccel(cs, k, sqrt)
  {
    forall k | 0 <= k < |bs| ensures NetAccel(bs, k, sqrt) == NetAccel(cs, k, sqrt) {
      NetAccelUpToFrame(bs, cs, k, |bs|, sqrt);
    }
  }

  /** Recomputing the accelerations yields a consistent system. */
  lemma WithAccelerationsConsistent(bs: seq<Body>, sqrt: real -> real)
    ensures Consistent(WithAccelerations(bs, sqrt), sqrt)
  {
    NetAccelFrame(WithAccelerations(bs, sqrt), bs, sqrt);
  }

  /** With no other body around, nothing accelerates. */
  lemma FewBodiesFeelNothing(bs: seq<Body>, sqrt: real -> real)
    requires |bs| <= 1
    ensures forall k :: 0 <= k < |bs| ==> WithAccelerations(bs, sqrt)[k].acc == Zero
  {
    if |bs| == 1 {
      assert NetAccelUpTo(bs, 0, 1, sqrt) == NetAccelUpTo(bs, 0, 0, sqrt);
    }
  }

  // --- Newton's third law for the whole system ---

  /** Sum over k < n of m_k times NetAccelUpTo(k, m). */
  ghost function WeightedNetSum(bs: seq<Body>, n: nat, m: nat, sqrt: real -> real): (w: Vec3)
    requires n <= |bs| && m <= |bs|
    decreases n
  {
    if n == 0 then Zero
    else Add(WeightedNetSum(bs, n - 1, m, sqrt), Scale(NetAccelUpTo(bs, n - 1, m, sqrt), bs[n - 1].mass))
  }

  /** Sum over k < n of m_k times the acceleration body j gives body k. */
  ghost function WeightedColumn(bs: seq<Body>, n: nat, j: nat, sqrt: real -> real): (w: Vec3)
    requires n <= |bs| && j < |bs|
    decreases n
  {
    if n == 0 then Zero
    else Add(WeightedColumn(bs, n - 1, j, sqrt), Scale(PairAccel(bs, n - 1, j, sqrt), bs[n - 1].mass))
  }

  lemma {:induction false} ColumnSplit(bs: seq<Body>, n: nat, m: nat, sqrt: real -> real)
    requires n <= m < |bs|
    ensures WeightedNetSum(bs, n, m + 1, sqrt)
         == Add(WeightedNetSum(bs, n, m, sqrt), WeightedColumn(bs, n, m, sqrt))
    decreases n
  {
    if n > 0 {
      var k := n - 1;
      ColumnSplit(bs, k, m, sqrt);
      var a := WeightedNetSum(bs, k, m, sqrt);
      var c := WeightedColumn(bs, k, m, sqrt);
      var b := Scale(NetAccelUpTo(bs, k, m, sqrt), bs[k].mass);
      var d := Scale(PairAccel(bs, k, m, sqrt), bs[k].mass);
      assert NetAccelUpTo(bs, k, m + 1, sqrt) == Add(NetAccelUpTo(bs, k, m, sqrt), PairAccel(bs, k, m, sqrt));
      ScaleAdd(NetAccelUpTo(bs, k, m, sqrt), PairAccel(bs, k, m, sqrt), bs[k].mass);
      assert Scale(NetAccelUpTo(bs, k, m + 1, sqrt), bs[k].mass) == Add(b, d);
      assert WeightedNetSum(bs, n, m + 1, sqrt)
          == Add(WeightedNetSum(bs, k, m + 1, sqrt), Scale(NetAccelUpTo(bs, k, m + 1, sqrt), bs[k].mass));
      assert WeightedNetSum(bs, n, m, sqrt) == Add(a, b);
      assert WeightedColumn(bs, n, m, sqrt) == Add(c, d);
      AddSwapMiddle(a, c, b, d);
    }
  }

  lemma {:induction false} RowCancels(bs: seq<Body>, n: nat, t: nat, sqrt: real -> real)
    requires t <= n < |bs|
    ensures Add(Scale(NetAccelUpTo(bs, n, t, sqrt), bs[n].mass), WeightedColumn(bs, t, n, sqrt)) == Zero
    decreases t
  {
    if t > 0 {
      var u := t - 1;
      RowCancels(bs, n, u, sqrt);
      ActionReaction(bs, n, u, sqrt);
      RowStep(bs, n, u, sqrt);
      CancelPairs(Scale(NetAccelUpTo(bs, n, u, sqrt), bs[n].mass), Scale(PairAccel(bs, n, u, sqrt), bs[n].mass),
                  WeightedColumn(bs, u, n, sqrt), Scale(PairAccel(bs, u, n, sqrt), bs[u].mass));
    } else {
      assert NetAccelUpTo(bs, n, 0, sqrt) == Zero;
      assert WeightedColumn(bs, 0, n, sqrt) == Zero;
      ScaleZero(bs[n].mass);
    }
  }

  /** One more term of row n and of column n, for a body u other than n. */
  lemma RowStep(bs: seq<Body>, n: nat, u: nat, sqrt: real -> real)
    requires u < n < |bs|
    ensures Scale(NetAccelUpTo(bs, n, u + 1, sqrt), bs[n].mass)
         == Add(Scale(NetAccelUpTo(bs, n, u, sqrt), bs[n].mass), Scale(PairAccel(bs, n, u, sqrt), bs[n].mass))
    ensures WeightedColumn(bs, u + 1, n, sqrt)
         == Add(WeightedColumn(bs, u, n, sqrt), Scale(PairAccel(bs, u, n, sqrt), bs[u].mass))
  {
    ScaleAdd(NetAccelUpTo(bs, n, u, sqrt), PairAccel(bs, n, u, sqrt), bs[n].mass);
  }

  /** Scaling the zero vector gives the zero vector. */
  lemma ScaleZero(m: real)
    ensures Scale(Zero, m) == Zero
  {
    assert 0.0 * m == 0.0;
  }

  lemma CancelPairs(a: Vec3, b: Vec3, c: Vec3, d: Vec3)
    requires Add(a, c) == Zero && Add(b, d) == Zero
    ensures Add(Add(a, b), Add(c, d)) == Zero
  {
  }

  lemma {:induction false} DiagonalVanishes(bs: seq<Body>, n: nat, sqrt: real -> real)
    requires n <= |bs|
    ensures WeightedNetSum(bs, n, n, sqrt) == Zero
    decreases n
  {
    if n > 0 {
      var k := n - 1;
      DiagonalVanishes(bs, k, sqrt);
      ColumnSplit(bs, k, k, sqrt);
      RowCancels(bs, k, k, sqrt);
      var c := WeightedColumn(bs, k, k, sqrt);
      var b := Scale(NetAccelUpTo(bs, k, k, sqrt), bs[k].mass);
      assert NetAccelUpTo(bs, k, n, sqrt) == NetAccelUpTo(bs, k, k, sqrt);
      assert WeightedNetSum(bs, n, n, sqrt) == Add(WeightedNetSum(bs, k, n, sqrt), b);
      assert WeightedNetSum(bs, k, n, sqrt) == Add(Zero, c);
      AddZeroPair(b, c);
    }
  }

  lemma {:induction false} WeightedPrefix(bs: seq<Body>, n: nat, sqrt: real -> real)
    requires n <= |bs|
    ensures MassWeightedAcc(WithAccelerations(bs, sqrt)[..n]) == WeightedNetSum(bs, n, |bs|, sqrt)
    decreases n
  {
    if n > 0 {
      var w := WithAccelerations(bs, sqrt);
      assert w[..n][..n - 1] == w[..n - 1];
      WeightedPrefix(bs, n - 1, sqrt);
    }
  }

  /** Newton's third law: after the acceleration pass the mass-weighted
      accelerations of all bodies sum to zero. */
  lemma NewtonThirdLaw(bs: seq<Body>, sqrt: real -> real)
    ensures MassWeightedAcc(WithAccelerations(bs, sqrt)) == Zero
  {
    var w := WithAccelerations(bs, sqrt);
    assert w[..|bs|] == w;
    WeightedPrefix(bs, |bs|, sqrt);
    DiagonalVanishes(bs, |bs|, sqrt);
  }

  // --- The acceleration pass, in place ---

  /** How far body t's sum has progressed once the outer loop is at i and
      the inner loop at j: pairs (a, b), a < b, are done when a < i, or
      a == i and b < j. */
  function Progress(t: nat, i: nat, j: nat, n: nat): (p: nat) {
    if t < i then n else if t == i then j else if t < j then i + 1 else i
  }

  /** The bodies while the pair loop is at (i, j): each acceleration holds
      the partial sum over the pairs visited so far. */
  ghost function Stage(s: seq<Body>, i: nat, j: nat, sqrt: real -> real): (r: seq<Body>)
    requires i <= |s| && j <= |s|
    ensures |r| == |s|
  {
    seq(|s|, t requires 0 <= t < |s| => s[t].(acc := NetAccelUpTo(s, t, Progress(t, i, j, |s|), sqrt)))
  }

  /** After the reset, every partial sum is empty. */
  lemma StageStart(s: seq<Body>, sqrt: real -> real)
    ensures forall t :: 0 <= t < |s| ==> Stage(s, 0, 0, sqrt)[t] == s[t].(acc := Zero)
  {
  }

  /** Entering the inner loop at j = i + 1 changes nothing: body i has no pair with itself. */
  lemma StageEnter(s: seq<Body>, i: nat, sqrt: real -> real)
    requires i < |s|
    ensures Stage(s, i, i + 1, sqrt) == Stage(s, i, i, sqrt)
  {
    assert NetAccelUpTo(s, i, i + 1, sqrt) == NetAccelUpTo(s, i, i, sqrt);
  }

  /** Leaving the inner loop at j = n is entering the next outer iteration. */
  lemma StageLeave(s: seq<Body>, i: nat, sqrt: real -> real)
    requires i < |s|
    ensures Stage(s, i, |s|, sqrt) == Stage(s, i + 1, i + 1, sqrt)
  {
  }

  /** When the outer loop ends every body holds its net acceleration. */
  lemma StageDone(s: seq<Body>, sqrt: real -> real)
    ensures Stage(s, |s|, |s|, sqrt) == WithAccelerations(s, sqrt)
  {
  }

  lemma ReactionStep(a: Vec3, p: Vec3, q: Vec3, m: real, sqrt: real -> real)
    ensures Sub(a, Scale(Force(p, q, sqrt), m)) == Add(a, Scale(Force(q, p, sqrt), m))
  {
    ForceAntisymmetric(p, q, sqrt);
  }

  /** Visiting pair (i, j) adds m_j F to body i and subtracts m_i F from
      body j, where F is the force per unit mass pulling i towards j. */
  lemma StagePair(s: seq<Body>, i: nat, j: nat, sqrt: real -> real)
    requires i < j < |s|
    ensures var st := Stage(s, i, j, sqrt);
      var f := Force(s[i].pos, s[j].pos, sqrt);
      Stage(s, i, j + 1, sqrt)
        == st[i := st[i].(acc := Add(st[i].acc, Scale(f, s[j].mass)))]
             [j := st[j].(acc := Sub(st[j].acc, Scale(f, s[i].mass)))]
  {
    var st := Stage(s, i, j, sqrt);
    var f := Force(s[i].pos, s[j].pos, sqrt);
    ReactionStep(st[j].acc, s[i].pos, s[j].pos, s[i].mass, sqrt);
    assert NetAccelUpTo(s, i, j + 1, sqrt) == Add(NetAccelUpTo(s, i, j, sqrt), PairAccel(s, i, j, sqrt));
    assert NetAccelUpTo(s, j, i + 1, sqrt) == Add(NetAccelUpTo(s, j, i, sqrt), PairAccel(s, j, i, sqrt));
  }

  /** The body of the pair loop up to the update: separation vector,
      regularised distance, inverse cube, and the force per unit mass. */
  method PairForce(pi: Vec3, pj: Vec3, sqrt: real -> real) returns (force: Vec3)
    ensures force == Force(pi, pj, sqrt)
  {
    var r := Sub(pj, pi);
    var dist := Norm(r, sqrt) + EPS;
    var invDist3 := 1.0 / (dist * dist * dist);
    force := Scale(r, G * invDist3);
  }

  /** One pass of the inner loop: pair (i, j) updates both bodies. */
  method VisitPair(bodies: array<Body>, i: nat, j: nat, ghost s: seq<Body>, sqrt: real -> real)
    requires i < j < bodies.Length == |s|
    requires bodies[..] == Stage(s, i, j, sqrt)
    modifies bodies
    ensures bodies[..] == Stage(s, i, j + 1, sqrt)
  {
    assert bodies[i] == Stage(s, i, j, sqrt)[i] && bodies[j] == Stage(s, i, j, sqrt)[j];
    var force := PairForce(bodies[i].pos, bodies[j].pos, sqrt);
    StagePair(s, i, j, sqrt);
    bodies[i] := bodies[i].(acc := Add(bodies[i].acc, Scale(force, bodies[j].mass)));
    bodies[j] := bodies[j].(acc := Sub(bodies[j].acc, Scale(force, bodies[i].mass)));
  }

  /** The reset loop: every acceleration becomes zero, and that is the
      state before any pair has been visited. */
  method ResetAccelerations(bodies: array<Body>, ghost sqrt: real -> real)
    modifies bodies
    ensures bodies[..] == Stage(old(bodies[..]), 0, 0, sqrt)
  {
    ghost var s := bodies[..];
    var n := bodies.Length;
    var k := 0;
    while k < n
      invariant 0 <= k <= n
      invariant forall t :: 0 <= t < k ==> bodies[t] == s[t].(acc := Zero)
      invariant forall t :: k <= t < n ==> bodies[t] == s[t]
    {
      bodies[k] := bodies[k].(acc := Zero);
      k := k + 1;
    }
    StageStart(s, sqrt);
  }

  /** One pass of the outer loop: body i meets every body after it. */
  method VisitRow(bodies: array<Body>, i: nat, ghost s: seq<Body>, sqrt: real -> real)
    requires i < bodies.Length == |s|
    requires bodies[..] == Stage(s, i, i, sqrt)
    modifies bodies
    ensures bodies[..] == Stage(s, i + 1, i + 1, sqrt)
  {
    StageEnter(s, i, sqrt);
    var j := i + 1;
    while j < bodies.Length
      invariant i < j <= bodies.Length
      invariant bodies[..] == Stage(s, i, j, sqrt)
    {
      VisitPair(bodies, i, j, s, sqrt);
      j := j + 1;
    }
    StageLeave(s, i, sqrt);
  }

  /** `computeAccelerations`: resets every acceleration, then visits every
      pair i < j once, adding m_j F to body i and subtracting m_i F from
      body j. */
  method ComputeAccelerations(bodies: array<Body>, sqrt: real -> real)
    modifies bodies
    ensures bodies[..] == WithAccelerations(old(bodies[..]), sqrt)
  {
    ghost var s := bodies[..];
    ResetAccelerations(bodies, sqrt);
    var i := 0;
    while i < bodies.Length
      invariant 0 <= i <= bodies.Length
      invariant bodies[..] == Stage(s, i, i, sqrt)
    {
      VisitRow(bodies, i, s, sqrt);
      i := i + 1;
    }
    StageDone(s, sqrt);
  }

  // ---------------------------------------------------------------------
  // Velocity Verlet

  /** Step 1: x + v dt + a (dt^2 / 2), with the accelerations held on entry. */
  function Drift(s: seq<Body>): (r: seq<Body>)
    ensures |r| == |s|
  {
    seq(|s|, k requires 0 <= k < |s| =>
      s[k].(pos := Add(Add(s[k].pos, Scale(s[k].vel, DT)), Scale(s[k].acc, 0.5 * DT * DT))))
  }

  /** Step 3: v + (a_old + a_new) dt / 2, with a_old taken from `olds`. */
  function Kick(c: seq<Body>, olds: seq<Body>): (r: seq<Body>)
    requires |c| == |olds|
    ensures |r| == |c|
  {
    seq(|c|, k requires 0 <= k < |c| =>
      c[k].(vel := Add(c[k].vel, Scale(Add(olds[k].acc, c[k].acc), 0.5 * DT))))
  }

  /** One velocity-Verlet step of the whole system. */
  function VerletStep(s: seq<Body>, sqrt: real -> real): (r: seq<Body>)
    ensures |r| == |s|
    ensures forall k :: 0 <= k < |s| ==> r[k].mass == s[k].mass
  {
    Kick(WithAccelerations(Drift(s), sqrt), s)
  }

  /** What one step does to each body, and that it leaves the accelerations
      consistent with the new positions for the next step. */
  lemma VerletStepEffect(s: seq<Body>, sqrt: real -> real)
    ensures var r := VerletStep(s, sqrt);
      && |r| == |s|
      && Consistent(r, sqrt)
      && forall k :: 0 <= k < |s| ==>
        && r[k].mass == s[k].mass
        && r[k].pos == Add(Add(s[k].pos, Scale(s[k].vel, DT)), Scale(s[k].acc, 0.5 * DT * DT))
        && r[k].vel == Add(s[k].vel, Scale(Add(s[k].acc, r[k].acc), 0.5 * DT))
  {
    var d := Drift(s);
    var c := WithAccelerations(d, sqrt);
    var r := VerletStep(s, sqrt);
    WithAccelerationsConsistent(d, sqrt);
    NetAccelFrame(r, c, sqrt);
  }

  lemma {:induction false} MomentumFrame(s: seq<Body>, t: seq<Body>)
    requires |s| == |t|
    requires forall k :: 0 <= k < |s| ==> s[k].mass == t[k].mass && s[k].vel == t[k].vel
    ensures TotalMomentum(s) == TotalMomentum(t) && TotalMass(s) == TotalMass(t)
    decreases |s|
  {
    if |s| > 0 {
      MomentumFrame(s[..|s| - 1], t[..|t| - 1]);
    }
  }

  /** The algebra of one body's contribution to the kicked momentum. */
  lemma KickTerm(p: Vec3, x: Vec3, y: Vec3, v: Vec3, ao: Vec3, ac: Vec3, m: real, h: real)
    ensures Add(Add(p, Scale(Add(x, y), h)), Scale(Add(v, Scale(Add(ao, ac), h)), m))
         == Add(Add(p, Scale(v, m)), Scale(Add(Add(x, Scale(ao, m)), Add(y, Scale(ac, m))), h))
  {
    var a := Scale(Add(x, y), h);
    var b := Scale(Add(Scale(ao, m), Scale(ac, m)), h);
    ScaleAdd(v, Scale(Add(ao, ac), h), m);
    ScaleSwap(Add(ao, ac), h, m);
    ScaleAdd(ao, ac, m);
    assert Scale(Add(v, Scale(Add(ao, ac), h)), m) == Add(Scale(v, m), b);
    AddSwapMiddle(x, Scale(ao, m), y, Scale(ac, m));
    ScaleAdd(Add(x, y), Add(Scale(ao, m), Scale(ac, m)), h);
    assert Scale(Add(Add(x, Scale(ao, m)), Add(y, Scale(ac, m))), h) == Add(a, b);
    AddSwapMiddle(p, a, Scale(v, m), b);
  }

  lemma ScaleSwap(a: Vec3, h: real, m: real)
    ensures Scale(Scale(a, h), m) == Scale(Scale(a, m), h)
  {
  }

  lemma {:induction false} KickMomentum(c: seq<Body>, olds: seq<Body>)
    requires |c| == |olds|
    requires forall k :: 0 <= k < |c| ==> c[k].mass == olds[k].mass
    ensures TotalMomentum(Kick(c, olds))
         == Add(TotalMomentum(c), Scale(Add(MassWeightedAcc(olds), MassWeightedAcc(c)), 0.5 * DT))
    decreases |c|
  {
    if |c| == 0 {
      assert Kick(c, olds) == [];
      assert Add(Zero, Zero) == Zero;
      ScaleZero(0.5 * DT);
    } else {
      var n := |c| - 1;
      var kc := Kick(c, olds);
      KickPrefix(c, olds);
      KickMomentum(c[..n], olds[..n]);
      KickTerm(TotalMomentum(c[..n]), MassWeightedAcc(olds[..n]), MassWeightedAcc(c[..n]),
               c[n].vel, olds[n].acc, c[n].acc, c[n].mass, 0.5 * DT);
      SumsLast(kc);
      SumsLast(c);
      SumsLast(olds);
    }
  }

  /** Kicking a non-empty system kicks its prefix and then its last body. */
  lemma KickPrefix(c: seq<Body>, olds: seq<Body>)
    requires |c| == |olds| > 0
    ensures Kick(c, olds)[..|c| - 1] == Kick(c[..|c| - 1], olds[..|c| - 1])
    ensures Kick(c, olds)[|c| - 1].mass == c[|c| - 1].mass
    ensures Kick(c, olds)[|c| - 1].vel
         == Add(c[|c| - 1].vel, Scale(Add(olds[|c| - 1].acc, c[|c| - 1].acc), 0.5 * DT))
  {
    var n := |c| - 1;
    assert Kick(c, olds)[..n] == Kick(c[..n], olds[..n]);
  }

  /** The sums of a non-empty system are those of its prefix plus its last body. */
  lemma SumsLast(s: seq<Body>)
    requires |s| > 0
    ensures TotalMomentum(s) == Add(TotalMomentum(s[..|s| - 1]), Scale(s[|s| - 1].vel, s[|s| - 1].mass))
    ensures MassWeightedAcc(s) == Add(MassWeightedAcc(s[..|s| - 1]), Scale(s[|s| - 1].acc, s[|s| - 1].mass))
  {
  }

  /** In exact arithmetic one step leaves the total momentum unchanged when
      the accelerations were consistent on entry. */
  lemma VerletConservesMomentum(s: seq<Body>, sqrt: real -> real)
    requires Consistent(s, sqrt)
    ensures TotalMomentum(VerletStep(s, sqrt)) == TotalMomentum(s)
  {
    var d := Drift(s);
    var c := WithAccelerations(d, sqrt);
    KickMomentum(c, s);
    MomentumFrame(c, s);
    NewtonThirdLaw(d, sqrt);
    NewtonThirdLaw(s, sqrt);
    assert WithAccelerations(s, sqrt) == s;
  }

  /** `velocityVerlet` with its persistent buffer of previous accelerations
      (a function-local static in the program) made a field. */
  class Integrator {
    var oldAcc: seq<Vec3>

    constructor ()
      ensures oldAcc == []
    {
      oldAcc := [];
    }

    /** `std::vector::resize`: keeps the first n entries, pads with zero vectors. */
    static function Resized(v: seq<Vec3>, n: nat): (r: seq<Vec3>)
      ensures |r| == n
      ensures forall k :: 0 <= k < n && k < |v| ==> r[k] == v[k]
    {
      if n <= |v| then v[..n] else v + seq(n - |v|, _ => Zero)
    }

    method Step(bodies: array<Body>, sqrt: real -> real)
      modifies this, bodies
      ensures bodies[..] == VerletStep(old(bodies[..]), sqrt)
      ensures oldAcc == Accelerations(old(bodies[..]))
    {
      ghost var s := bodies[..];
      var n := bodies.Length;
      oldAcc := Resized(oldAcc, n);
      var i := 0;
      while i < n
        invariant 0 <= i <= n && |oldAcc| == n
        invariant forall k :: 0 <= k < i ==> oldAcc[k] == s[k].acc && bodies[k] == Drift(s)[k]
        invariant forall k :: i <= k < n ==> bodies[k] == s[k]
      {
        oldAcc := oldAcc[i := bodies[i].acc];
        bodies[i] := bodies[i].(pos :=
          Add(Add(bodies[i].pos, Scale(bodies[i].vel, DT)), Scale(bodies[i].acc, 0.5 * DT * DT)));
        i := i + 1;
      }
      assert bodies[..] == Drift(s);
      ComputeAccelerations(bodies, sqrt);
      ghost var c := bodies[..];
      i := 0;
      while i < n
        invariant 0 <= i <= n && |oldAcc| == n
        invariant forall k :: 0 <= k < n ==> oldAcc[k] == s[k].acc
        invariant forall k :: 0 <= k < i ==> bodies[k] == Kick(c, s)[k]
        invariant forall k :: i <= k < n ==> bodies[k] == c[k]
      {
        bodies[i] := bodies[i].(vel := Add(bodies[i].vel, Scale(Add(oldAcc[i], bodies[i].acc), 0.5 * DT)));
        i := i + 1;
      }
      assert bodies[..] == Kick(c, s);
      assert oldAcc == Accelerations(s);
    }
  }

  /** SUB_STEPS-fold and n-fold iteration of the step. */
  function Steps(s: seq<Body>, n: nat, sqrt: real -> real): (r: seq<Body>)
    ensures |r| == |s|
    ensures forall k :: 0 <= k < |s| ==> r[k].mass == s[k].mass
    decreases n
  {
    if n == 0 then s else VerletStep(Steps(s, n - 1, sqrt), sqrt)
  }

  /** Every step re-establishes the consistency the next one needs, so any
      number of steps ends in a consistent system. */
  lemma {:induction false} StepsConsistent(s: seq<Body>, n: nat, sqrt: real -> real)
    ensures |Steps(s, n, sqrt)| == |s|
    ensures n > 0 ==> Consistent(Steps(s, n, sqrt), sqrt)
    decreases n
  {
    if n > 0 {
      StepsConsistent(s, n - 1, sqrt);
      VerletStepEffect(Steps(s, n - 1, sqrt), sqrt);
    }
  }

  /** One rendered frame of the driver loop: SUB_STEPS integration steps. */
  method Frame(integrator: Integrator, bodies: array<Body>, sqrt: real -> real)
    modifies integrator, bodies
    ensures bodies[..] == Steps(old(bodies[..]), SUB_STEPS, sqrt)
  {
    ghost var s := bodies[..];
    for i := 0 to SUB_STEPS
      invariant bodies[..] == Steps(s, i, sqrt)
    {
      integrator.Step(bodies, sqrt);
    }
  }

  // ---------------------------------------------------------------------
  // Barycenter correction

  /** Every velocity minus the same vector c; nothing else changes. */
  function Shifted(s: seq<Body>, c: Vec3): (r: seq<Body>)
    ensures |r| == |s|
  {
    seq(|s|, k requires 0 <= k < |s| => s[k].(vel := Sub(s[k].vel, c)))
  }

  /** Velocity of the center of mass. */
  function Correction(s: seq<Body>): (c: Vec3)
    requires TotalMass(s) != 0.0
    ensures Scale(c, TotalMass(s)) == TotalMomentum(s)
  {
    Div(TotalMomentum(s), TotalMass(s))
  }

  function Recentered(s: seq<Body>): (r: seq<Body>)
    requires TotalMass(s) != 0.0
    ensures |r| == |s|
    ensures forall k :: 0 <= k < |s| ==>
      r[k].mass == s[k].mass && r[k].pos == s[k].pos && r[k].acc == s[k].acc
  {
    Shifted(s, Correction(s))
  }

  /** The algebra of one body's contribution to the shifted momentum. */
  lemma ShiftTerm(p: Vec3, v: Vec3, c: Vec3, total: real, m: real)
    ensures Add(Sub(p, Scale(c, total)), Scale(Sub(v, c), m)) == Sub(Add(p, Scale(v, m)), Scale(c, total + m))
  {
    ScaleSub(v, c, m);
    ScaleSplit(c, total, m);
    Regroup(p, Scale(c, total), Scale(v, m), Scale(c, m));
  }

  /** Scaling distributes over a difference. */
  lemma ScaleSub(v: Vec3, c: Vec3, m: real)
    ensures Scale(Sub(v, c), m) == Sub(Scale(v, m), Scale(c, m))
  {
    assert (v.x - c.x) * m == v.x * m - c.x * m;
    assert (v.y - c.y) * m == v.y * m - c.y * m;
    assert (v.z - c.z) * m == v.z * m - c.z * m;
  }

  /** Scaling by a sum of factors is the sum of the scalings. */
  lemma ScaleSplit(c: Vec3, total: real, m: real)
    ensures Scale(c, total + m) == Add(Scale(c, total), Scale(c, m))
  {
    assert c.x * (total + m) == c.x * total + c.x * m;
    assert c.y * (total + m) == c.y * total + c.y * m;
    assert c.z * (total + m) == c.z * total + c.z * m;
  }

  /** Regrouping a sum of differences. */
  lemma Regroup(p: Vec3, a: Vec3, b: Vec3, d: Vec3)
    ensures Add(Sub(p, a), Sub(b, d)) == Sub(Add(p, b), Add(a, d))
  {
  }

  lemma {:induction false} ShiftedSums(s: seq<Body>, c: Vec3)
    ensures TotalMass(Shifted(s, c)) == TotalMass(s)
    ensures TotalMomentum(Shifted(s, c)) == Sub(TotalMomentum(s), Scale(c, TotalMass(s)))
    decreases |s|
  {
    if |s| == 0 {
      assert Shifted(s, c) == [];
    } else {
      var n := |s| - 1;
      var sh := Shifted(s, c);
      assert sh[..n] == Shifted(s[..n], c);
      ShiftedSums(s[..n], c);
      ShiftTerm(TotalMomentum(s[..n]), s[n].vel, c, TotalMass(s[..n]), s[n].mass);
      assert TotalMomentum(sh) == Add(TotalMomentum(sh[..n]), Scale(sh[n].vel, sh[n].mass));
      assert TotalMass(sh) == TotalMass(sh[..n]) + sh[n].mass;
    }
  }

  /** After the correction the system's total momentum is zero, its mass is
      unchanged, and every velocity has moved by the same vector. */
  lemma RecenteredMomentumZero(s: seq<Body>)
    requires TotalMass(s) != 0.0
    ensures TotalMass(Recentered(s)) == TotalMass(s)
    ensures TotalMomentum(Recentered(s)) == Zero
  {
    ShiftedSums(s, Correction(s));
  }

  /** Applying the correction twice is applying it once. */
  lemma RecenterIdempotent(s: seq<Body>)
    requires TotalMass(s) != 0.0
    ensures TotalMass(Recentered(s)) != 0.0
    ensures Recentered(Recentered(s)) == Recentered(s)
  {
    RecenteredMomentumZero(s);
    var r := Recentered(s);
    assert Correction(r) == Zero;
    assert Shifted(r, Zero) == r;
  }

  /** The correction touches velocities only, so consistent accelerations stay consistent. */
  lemma RecenterKeepsConsistent(s: seq<Body>, sqrt: real -> real)
    requires TotalMass(s) != 0.0 && Consistent(s, sqrt)
    ensures Consistent(Recentered(s), sqrt)
  {
    NetAccelFrame(Recentered(s), s, sqrt);
  }

  /** `enforceBarycenter`: accumulates momentum and mass, then subtracts
      momentum / mass from every velocity. The program divides without a
      check, so a zero total mass is excluded. */
  method EnforceBarycenter(bodies: array<Body>)
    requires TotalMass(bodies[..]) != 0.0
    modifies bodies
    ensures bodies[..] == Recentered(old(bodies[..]))
  {
    ghost var s := bodies[..];
    var totalMomentum := Zero;
    var totalMass := 0.0;
    var n := bodies.Length;
    var i := 0;
    while i < n
      invariant 0 <= i <= n
      invariant totalMomentum == TotalMomentum(s[..i]) && totalMass == TotalMass(s[..i])
    {
      assert s[..i + 1][..i] == s[..i];
      totalMomentum := Add(totalMomentum, Scale(bodies[i].vel, bodies[i].mass));
      totalMass := totalMass + bodies[i].mass;
      i := i + 1;
    }
    assert s[..n] == s;
    var correction := Div(totalMomentum, totalMass);
    i := 0;
    while i < n
      invariant 0 <= i <= n
      invariant forall k :: 0 <= k < i ==> bodies[k] == s[k].(vel := Sub(s[k].vel, correction))
      invariant forall k :: i <= k < n ==> bodies[k] == s[k]
    {
      bodies[i] := bodies[i].(vel := Sub(bodies[i].vel, correction));
      i := i + 1;
    }
    assert bodies[..] == Recentered(s);
  }

  // ---------------------------------------------------------------------
  // Initial conditions

  /** `makePlanet`: a planet at (radius, 0, 0) moving along +y at the
      circular-orbit speed around one solar mass. The program leaves the
      acceleration uninitialised; it is overwritten before use, and the
      model starts it at zero. */
  function MakePlanet(mass: real, radius: real, sqrt: real -> real): (b: Body)
    requires radius != 0.0
    ensures b.mass == mass && b.pos == Vec3(radius, 0.0, 0.0) && b.acc == Zero
    ensures b.vel.x == 0.0 && b.vel.z == 0.0 && b.vel.y >= 0.0
  {
    Body(mass, Vec3(radius, 0.0, 0.0), Vec3(0.0, Root(sqrt, G / radius), 0.0), Zero)
  }

  /** With an exact square root the planet's speed v satisfies v^2 = G / r,
      so the centripetal acceleration v^2 / r equals the Sun's pull G * 1 / r^2. */
  lemma CircularOrbit(mass: real, radius: real, sqrt: real -> real)
    requires IsSqrt(sqrt) && radius > 0.0
    ensures var v := MakePlanet(mass, radius, sqrt).vel.y;
      v * v == G / radius && v * v / radius == G / (radius * radius)
  {
    RootExact(sqrt, G / radius);
    var v := MakePlanet(mass, radius, sqrt).vel.y;
    assert v * v == G / radius;
  }

  /** With an exact square root the planet's speed is the circular-orbit
      speed itself: the only non-negative u with u^2 = G / r. */
  lemma OrbitSpeedUnique(mass: real, radius: real, sqrt: real -> real, u: real)
    requires IsSqrt(sqrt) && radius > 0.0
    requires u >= 0.0 && u * u == G / radius
    ensures MakePlanet(mass, radius, sqrt).vel.y == u
  {
    RootUnique(sqrt, G / radius, u);
  }

  /** The sun at rest at the origin and the eight planets of the program. */
  function InitialBodies(sqrt: real -> real): (s: seq<Body>)
    ensures |s| == 9
  {
    [ Body(1.0, Zero, Zero, Zero),
      MakePlanet(1.66e-7, 0.39, sqrt),   // Mercury
      MakePlanet(2.45e-6, 0.72, sqrt),   // Venus
      MakePlanet(3.00e-6, 1.00, sqrt),   // Earth
      MakePlanet(3.23e-7, 1.52, sqrt),   // Mars
      MakePlanet(9.54e-4, 5.20, sqrt),   // Jupiter
      MakePlanet(2.86e-4, 9.58, sqrt),   // Saturn
      MakePlanet(4.36e-5, 19.2, sqrt),   // Uranus
      MakePlanet(5.15e-5, 30.1, sqrt)    // Neptune
    ]
  }

  /** With no negative mass, the total is at least the first body's mass. */
  lemma {:induction false} MassAtLeastFirst(s: seq<Body>)
    requires forall k :: 0 <= k < |s| ==> s[k].mass >= 0.0
    ensures TotalMass(s) >= 0.0
    ensures |s| > 0 ==> TotalMass(s) >= s[0].mass
    decreases |s|
  {
    if |s| > 0 {
      var n := |s| - 1;
      MassAtLeastFirst(s[..n]);
      if n > 0 {
        assert s[..n][0] == s[0];
      }
    }
  }

  /** The initial system weighs at least one solar mass, so the
      correction's division is safe. */
  lemma InitialMassPositive(sqrt: real -> real)
    ensures TotalMass(InitialBodies(sqrt)) >= 1.0
  {
    MassAtLeastFirst(InitialBodies(sqrt));
  }

  /** The set-up in `main`: build the bodies, compute accelerations, then
      remove the net momentum. */
  method Setup(sqrt: real -> real) returns (bodies: array<Body>)
    ensures fresh(bodies)
    ensures TotalMass(WithAccelerations(InitialBodies(sqrt), sqrt)) != 0.0
      && bodies[..] == Recentered(WithAccelerations(InitialBodies(sqrt), sqrt))
  {
    var s := InitialBodies(sqrt);
    bodies := new Body[|s|](k requires 0 <= k < |s| => s[k]);
    assert bodies[..] == s;
    ComputeAccelerations(bodies, sqrt);
    InitialMassPositive(sqrt);
    MomentumFrame(bodies[..], s);
    EnforceBarycenter(bodies);
  }

  /** After the set-up the system has zero momentum and consistent
      accelerations: it is ready for the first Verlet step. */
  lemma SetupReady(sqrt: real -> real)
    ensures var w := WithAccelerations(InitialBodies(sqrt), sqrt);
      && TotalMass(w) != 0.0
      && TotalMomentum(Recentered(w)) == Zero
      && Consistent(Recentered(w), sqrt)
  {
    var s := InitialBodies(sqrt);
    var w := WithAccelerations(s, sqrt);
    InitialMassPositive(sqrt);
    MomentumFrame(w, s);
    RecenteredMomentumZero(w);
    WithAccelerationsConsistent(s, sqrt);
    RecenterKeepsConsistent(w, sqrt);
  }
}
