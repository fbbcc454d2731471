/**
  Munch: two players steer discs around a window, collect particles that
  appear at random, and the game ends when the discs touch or a score
  reaches the winning threshold.

  Floats are modelled as reals. The keyboard, the frame clock, the window
  size and the random spawn roll and position are inputs of the methods;
  drawing, text and sounds are not modelled.
 */
module Munch {
  import opened RealMath

  const WIN_WIDTH: nat := 1200
  const WIN_HEIGHT: nat := 800
  const WIN_SCORE: int := 100
  const PLAYER_SPEED: real := 400.0
  const MAX_PARTICLES: nat := 50
  const PLAYER_RADIUS: real := 15.0
  const PARTICLE_RADIUS: real := 4.0
  /** A frame spawns a particle when the uniform roll in [0, 1) is below this. */
  const SPAWN_CHANCE: real := 0.01
  /** The longest time step one frame may integrate. */
  const MAX_DT: real := 0.1

  datatype Vec2 = Vec2(x: real, y: real)

  const BLUE_START: Vec2 := Vec2(100.0, WIN_HEIGHT as real / 2.0)
  const YELLOW_START: Vec2 := Vec2(WIN_WIDTH as real - 100.0, WIN_HEIGHT as real / 2.0)

  // ---------------------------------------------------------------------
  // Circle overlap
  // ---------------------------------------------------------------------

  /** Two discs overlap (or touch) when the squared distance of their
      centres is at most the squared sum of their radii. */
  function CheckCollision(a: Vec2, ra: real, b: Vec2, rb: real): (c: bool)
    ensures c <==> DistSq(a, b) <= (ra + rb) * (ra + rb)
    ensures a == b ==> c
  {
    var dx := a.x - b.x;
    var dy := a.y - b.y;
    var d := dx * dx + dy * dy;
    var r := ra + rb;
    d <= r * r
  }

  function DistSq(a: Vec2, b: Vec2): (d: real)
    ensures d >= 0.0
  {
    (a.x - b.x) * (a.x - b.x) + (a.y - b.y) * (a.y - b.y)
  }

  /** Swapping the two discs does not change the answer. */
  lemma CollisionSymmetric(a: Vec2, ra: real, b: Vec2, rb: real)
    ensures CheckCollision(a, ra, b, rb) == CheckCollision(b, rb, a, ra)
  {
    assert (a.x - b.x) * (a.x - b.x) == (b.x - a.x) * (b.x - a.x);
    assert (a.y - b.y) * (a.y - b.y) == (b.y - a.y) * (b.y - a.y);
  }

  /** For discs with a non-negative radius sum, the test is exactly "the
      Euclidean distance of the centres is at most the sum of the radii". */
  lemma CollisionIsDistance(sqrt: real -> real, a: Vec2, ra: real, b: Vec2, rb: real)
    requires IsSqrt(sqrt)
    requires ra + rb >= 0.0
    ensures CheckCollision(a, ra, b, rb) <==> Root(sqrt, DistSq(a, b)) <= ra + rb
  {
    RootLeIff(sqrt, DistSq(a, b), ra + rb);
  }

  // ---------------------------------------------------------------------
  // Players
  // ---------------------------------------------------------------------

  /** `std::clamp(v, lo, hi)`, which demands `lo <= hi`. */
  function Clamp(v: real, lo: real, hi: real): (r: real)
    requires lo <= hi
    ensures lo <= r <= hi
    ensures lo <= v <= hi ==> r == v
  {
    if v < lo then lo else if hi < v then hi else v
  }

  function Abs(x: real): (r: real) {
    if x < 0.0 then -x else x
  }

  /** The clamped value is the point of [lo, hi] nearest to v. */
  lemma ClampNearest(v: real, lo: real, hi: real, w: real)
    requires lo <= hi && lo <= w <= hi
    ensures Abs(Clamp(v, lo, hi) - v) <= Abs(w - v)
  {
  }

  /** One velocity component from the two opposing keys of an axis. */
  function AxisVelocity(negative: bool, positive: bool, speed: real): (r: real)
    ensures r == 0.0 || r == speed || r == -speed
    ensures negative == positive ==> r == 0.0
  {
    if negative == positive then 0.0 else if positive then speed else -speed
  }

  /** The keys of one player sampled in one frame. */
  datatype Keys = Keys(up: bool, down: bool, left: bool, right: bool)

  /** The velocity a player gets from its keys: screen y grows downwards. */
  function VelocityFor(k: Keys, speed: real): (v: Vec2)
    ensures v.x == (if k.right then speed else 0.0) - (if k.left then speed else 0.0)
    ensures v.y == (if k.down then speed else 0.0) - (if k.up then speed else 0.0)
  {
    Vec2(AxisVelocity(k.left, k.right, speed), AxisVelocity(k.up, k.down, speed))
  }

  /** Where `Player::move` puts a disc of radius r in a w x h window. */
  function Moved(p: Vec2, v: Vec2, dt: real, r: real, w: real, h: real): (q: Vec2)
    requires 2.0 * r <= w && 2.0 * r <= h
    ensures InBounds(q, r, w, h)
  {
    Vec2(Clamp(p.x + v.x * dt, r, w - r), Clamp(p.y + v.y * dt, r, h - r))
  }

  predicate InBounds(p: Vec2, r: real, w: real, h: real) {
    r <= p.x <= w - r && r <= p.y <= h - r
  }

  /** A move that ends inside the window is the plain step p + v dt:
      the clamp only acts at the walls. */
  lemma MovedFree(p: Vec2, v: Vec2, dt: real, r: real, w: real, h: real)
    requires 2.0 * r <= w && 2.0 * r <= h
    requires InBounds(Vec2(p.x + v.x * dt, p.y + v.y * dt), r, w, h)
    ensures Moved(p, v, dt, r, w, h) == Vec2(p.x + v.x * dt, p.y + v.y * dt)
  {
  }

  /** A disc already inside the window that has no velocity stays put. */
  lemma MovedStill(p: Vec2, dt: real, r: real, w: real, h: real)
    requires 2.0 * r <= w && 2.0 * r <= h
    requires InBounds(p, r, w, h)
    ensures Moved(p, Vec2(0.0, 0.0), dt, r, w, h) == p
  {
  }

  class Player {
    var pos: Vec2
    var velocity: Vec2
    const radius: real
    const speed: real
    var score: int

    constructor (startPos: Vec2, moveSpeed: real)
      ensures pos == startPos && velocity == Vec2(0.0, 0.0)
      ensures radius == PLAYER_RADIUS && speed == moveSpeed && score == 0
    {
      pos := startPos;
      velocity := Vec2(0.0, 0.0);
      radius := PLAYER_RADIUS;
      speed := moveSpeed;
      score := 0;
    }

    /** Resets the velocity, then lets each pressed key push it by the
        player's speed along its axis. */
    method HandleInput(k: Keys)
      modifies this
      ensures velocity == VelocityFor(k, speed)
      ensures pos == old(pos) && score == old(score)
    {
      velocity := Vec2(0.0, 0.0);
      if k.up { velocity := velocity.(y := velocity.y - speed); }
      if k.down { velocity := velocity.(y := velocity.y + speed); }
      if k.left { velocity := velocity.(x := velocity.x - speed); }
      if k.right { velocity := velocity.(x := velocity.x + speed); }
    }

    /** Advances the disc by its velocity and clamps it into the window,
        whose size is given in whole pixels. */
    method Move(dt: real, winW: nat, winH: nat)
      requires 2.0 * radius <= winW as real && 2.0 * radius <= winH as real
      modifies this
      ensures pos == Moved(old(pos), velocity, dt, radius, winW as real, winH as real)
      ensures InBounds(pos, radius, winW as real, winH as real)
      ensures velocity == old(velocity) && score == old(score)
    {
      var r, w, h := radius, winW as real, winH as real;
      var next := Vec2(pos.x + velocity.x * dt, pos.y + velocity.y * dt);
      next := next.(x := Clamp(next.x, r, w - r));
      next := next.(y := Clamp(next.y, r, h - r));
      assert next == Moved(pos, velocity, dt, r, w, h);
      pos := next;
    }
  }

  // ---------------------------------------------------------------------
  // Particles
  // ---------------------------------------------------------------------

  /** Which player picks up a particle: Blue is checked first. */
  datatype Claimant = Nobody | Blue | Yellow

  function Touches(player: Vec2, particle: Vec2): (t: bool) {
    CheckCollision(player, PLAYER_RADIUS, particle, PARTICLE_RADIUS)
  }

  function Claim(a: Vec2, b: Vec2, q: Vec2): (c: Claimant)
    ensures c == Blue <==> Touches(a, q)
    ensures c == Yellow <==> !Touches(a, q) && Touches(b, q)
    ensures c == Nobody <==> !Touches(a, q) && !Touches(b, q)
  {
    if Touches(a, q) then Blue else if Touches(b, q) then Yellow else Nobody
  }

  /** The elements of s, in order, that `cl` assigns to `who`. */
  function Sift<T>(s: seq<T>, cl: T -> Claimant, who: Claimant): (r: seq<T>) {
    if |s| == 0 then []
    else (if cl(s[0]) == who then [s[0]] else []) + Sift(s[1..], cl, who)
  }

  function Claimer(a: Vec2, b: Vec2): (cl: Vec2 -> Claimant) {
    q => Claim(a, b, q)
  }

  /** The particles of s, in order, that go to `who` when Blue is at a
      and Yellow at b. */
  function Claimed(s: seq<Vec2>, a: Vec2, b: Vec2, who: Claimant): (r: seq<Vec2>) {
    Sift(s, Claimer(a, b), who)
  }

  lemma {:induction false} SiftConcat<T>(s: seq<T>, t: seq<T>, cl: T -> Claimant, who: Claimant)
    ensures Sift(s + t, cl, who) == Sift(s, cl, who) + Sift(t, cl, who)
  {
    if |s| == 0 {
      assert s + t == t;
    } else {
      var head := if cl(s[0]) == who then [s[0]] else [];
      assert (s + t)[0] == s[0];
      assert (s + t)[1..] == s[1..] + t;
      assert Sift(s + t, cl, who) == head + Sift(s[1..] + t, cl, who);
      SiftConcat(s[1..], t, cl, who);
      assert Sift(s, cl, who) == head + Sift(s[1..], cl, who);
      assert head + (Sift(s[1..], cl, who) + Sift(t, cl, who))
             == (head + Sift(s[1..], cl, who)) + Sift(t, cl, who);
    }
  }

  lemma SiftOne<T>(q: T, cl: T -> Claimant, who: Claimant)
    ensures Sift([q], cl, who) == if cl(q) == who then [q] else []
  {
    assert [q][1..] == [];
  }

  /** The three claimants split every sequence: nothing is lost or
      counted twice. */
  lemma {:induction false} SiftPartition<T>(s: seq<T>, cl: T -> Claimant)
    ensures multiset(Sift(s, cl, Nobody)) + multiset(Sift(s, cl, Blue))
            + multiset(Sift(s, cl, Yellow)) == multiset(s)
    ensures |Sift(s, cl, Nobody)| + |Sift(s, cl, Blue)| + |Sift(s, cl, Yellow)| == |s|
  {
    if |s| == 0 {
      assert Sift(s, cl, Nobody) == [] && Sift(s, cl, Blue) == [] && Sift(s, cl, Yellow) == [];
    } else {
      var x, t := s[0], s[1..];
      SiftPartition(t, cl);
      PartitionCons(x, t, cl);
      assert [x] + t == s;
    }
  }

  /** The partition step: the first element goes to exactly one share. */
  lemma PartitionCons<T>(x: T, t: seq<T>, cl: T -> Claimant)
    requires multiset(Sift(t, cl, Nobody)) + multiset(Sift(t, cl, Blue))
             + multiset(Sift(t, cl, Yellow)) == multiset(t)
    ensures multiset(Sift([x] + t, cl, Nobody)) + multiset(Sift([x] + t, cl, Blue))
            + multiset(Sift([x] + t, cl, Yellow)) == multiset([x] + t)
    ensures |Sift([x] + t, cl, Nobody)| + |Sift([x] + t, cl, Blue)| + |Sift([x] + t, cl, Yellow)|
            == 1 + |Sift(t, cl, Nobody)| + |Sift(t, cl, Blue)| + |Sift(t, cl, Yellow)|
  {
    var n, bl, ye := Sift(t, cl, Nobody), Sift(t, cl, Blue), Sift(t, cl, Yellow);
    assert multiset([x] + t) == multiset{x} + multiset(t);
    assert ([x] + t)[1..] == t;
    match cl(x)
    case Nobody =>
      assert Sift([x] + t, cl, Nobody) == [x] + n;
      AddOneFirst(x, multiset(n), multiset(bl), multiset(ye));
    case Blue =>
      assert Sift([x] + t, cl, Blue) == [x] + bl;
      AddOneSecond(x, multiset(n), multiset(bl), multiset(ye));
    case Yellow =>
      assert Sift([x] + t, cl, Yellow) == [x] + ye;
      AddOneThird(x, multiset(n), multiset(bl), multiset(ye));
  }

  lemma AddOneFirst<T>(x: T, a: multiset<T>, b: multiset<T>, c: multiset<T>)
    ensures (multiset{x} + a) + b + c == multiset{x} + (a + b + c)
  {
  }

  lemma AddOneSecond<T>(x: T, a: multiset<T>, b: multiset<T>, c: multiset<T>)
    ensures a + (multiset{x} + b) + c == multiset{x} + (a + b + c)
  {
  }

  lemma AddOneThird<T>(x: T, a: multiset<T>, b: multiset<T>, c: multiset<T>)
    ensures a + b + (multiset{x} + c) == multiset{x} + (a + b + c)
  {
  }

  /** Every particle left over by the sweep touches neither player. */
  lemma {:induction false} SiftNobody(s: seq<Vec2>, a: Vec2, b: Vec2, q: Vec2)
    requires q in Claimed(s, a, b, Nobody)
    ensures q in s && !Touches(a, q) && !Touches(b, q)
  {
    assert |s| > 0;
    if q in Claimed(s[1..], a, b, Nobody) {
      SiftNobody(s[1..], a, b, q);
    } else {
      assert q == s[0] && Claim(a, b, q) == Nobody;
    }
  }

  /** A list with the same elements as the Nobody share of s has no
      particle touching either player. */
  lemma SweptClear(ps: seq<Vec2>, s: seq<Vec2>, a: Vec2, b: Vec2)
    requires multiset(ps) == multiset(Claimed(s, a, b, Nobody))
    ensures forall k :: 0 <= k < |ps| ==> !Touches(a, ps[k]) && !Touches(b, ps[k])
  {
    forall k | 0 <= k < |ps|
      ensures !Touches(a, ps[k]) && !Touches(b, ps[k])
    {
      assert ps[k] in multiset(ps);
      SiftNobody(s, a, b, ps[k]);
    }
  }

  /** A list with the same elements as the Nobody share of s holds some of
      the elements of s, and the Blue and Yellow shares together number
      what it lacks. */
  lemma SweepAccounting(ps: seq<Vec2>, s: seq<Vec2>, a: Vec2, b: Vec2)
    requires multiset(ps) == multiset(Claimed(s, a, b, Nobody))
    ensures multiset(ps) <= multiset(s)
    ensures |Claimed(s, a, b, Blue)| + |Claimed(s, a, b, Yellow)| == |s| - |ps|
  {
    SiftPartition(s, Claimer(a, b));
    assert |ps| == |multiset(ps)| == |Claimed(s, a, b, Nobody)|;
  }

  /** `ps` with element i replaced by the last one and the last one dropped. */
  function SwapPop<T>(ps: seq<T>, i: nat): (r: seq<T>)
    requires i < |ps|
    ensures |r| == |ps| - 1
  {
    ps[i := ps[|ps| - 1]][..|ps| - 1]
  }

  /** SwapPop removes exactly element i from the suffix that starts at i. */
  lemma SwapRemove<T>(ps: seq<T>, i: nat, cl: T -> Claimant, who: Claimant)
    requires i < |ps|
    ensures multiset(Sift(ps[i..], cl, who))
            == multiset(Sift(SwapPop(ps, i)[i..], cl, who)) + multiset(Sift([ps[i]], cl, who))
  {
    var n := |ps|;
    if i == n - 1 {
      SwapPopLast(ps, i);
    } else {
      SwapPopShape(ps, i);
      var x, mid, last := ps[i], ps[i + 1..n - 1], ps[n - 1];
      SiftRotate(x, mid, last, cl, who);
    }
  }

  lemma SwapPopLast<T>(ps: seq<T>, i: nat)
    requires i == |ps| - 1
    ensures ps[i..] == [ps[i]]
    ensures SwapPop(ps, i)[i..] == []
  {
  }

  lemma SwapPopShape<T>(ps: seq<T>, i: nat)
    requires i < |ps| - 1
    ensures ps[i..] == [ps[i]] + ps[i + 1..|ps| - 1] + [ps[|ps| - 1]]
    ensures SwapPop(ps, i)[i..] == [ps[|ps| - 1]] + ps[i + 1..|ps| - 1]
  {
  }

  lemma SiftRotate<T>(x: T, mid: seq<T>, last: T, cl: T -> Claimant, who: Claimant)
    ensures multiset(Sift([x] + mid + [last], cl, who))
            == multiset(Sift([last] + mid, cl, who)) + multiset(Sift([x], cl, who))
  {
    SiftConcat([x] + mid, [last], cl, who);
    SiftConcat([x], mid, cl, who);
    SiftConcat([last], mid, cl, who);
  }

  /** One removal step of the sweep: the suffix from i loses exactly the
      removed element, the prefix before i is untouched. */
  lemma RemoveStep<T>(ps: seq<T>, i: nat, cl: T -> Claimant)
    requires i < |ps| && cl(ps[i]) != Nobody
    ensures SwapPop(ps, i)[..i] == ps[..i]
    ensures multiset(Sift(SwapPop(ps, i)[i..], cl, Nobody)) == multiset(Sift(ps[i..], cl, Nobody))
    ensures |Sift(ps[i..], cl, Blue)|
            == |Sift(SwapPop(ps, i)[i..], cl, Blue)| + (if cl(ps[i]) == Blue then 1 else 0)
    ensures |Sift(ps[i..], cl, Yellow)|
            == |Sift(SwapPop(ps, i)[i..], cl, Yellow)| + (if cl(ps[i]) == Yellow then 1 else 0)
  {
    RemoveShare(ps, i, cl, Nobody);
    RemoveShare(ps, i, cl, Blue);
    RemoveShare(ps, i, cl, Yellow);
  }

  /** The share of one claimant in the suffix from i, before and after
      removing element i. */
  lemma RemoveShare<T>(ps: seq<T>, i: nat, cl: T -> Claimant, who: Claimant)
    requires i < |ps|
    ensures multiset(Sift(ps[i..], cl, who))
            == multiset(Sift(SwapPop(ps, i)[i..], cl, who))
               + (if cl(ps[i]) == who then multiset{ps[i]} else multiset{})
    ensures |Sift(ps[i..], cl, who)|
            == |Sift(SwapPop(ps, i)[i..], cl, who)| + (if cl(ps[i]) == who then 1 else 0)
  {
    SiftOne(ps[i], cl, who);
    SwapRemove(ps, i, cl, who);
    assert |multiset(Sift(ps[i..], cl, who))| == |Sift(ps[i..], cl, who)|;
    assert |multiset(Sift(SwapPop(ps, i)[i..], cl, who))| == |Sift(SwapPop(ps, i)[i..], cl, who)|;
  }

  /** One keeping step of the sweep: element i moves from the unexamined
      suffix to the examined prefix. */
  lemma KeepStep<T>(ps: seq<T>, i: nat, cl: T -> Claimant)
    requires i < |ps| && cl(ps[i]) == Nobody
    ensures multiset(ps[..i + 1]) + multiset(Sift(ps[i + 1..], cl, Nobody))
            == multiset(ps[..i]) + multiset(Sift(ps[i..], cl, Nobody))
    ensures |Sift(ps[i + 1..], cl, Blue)| == |Sift(ps[i..], cl, Blue)|
    ensures |Sift(ps[i + 1..], cl, Yellow)| == |Sift(ps[i..], cl, Yellow)|
  {
    assert ps[i..] == [ps[i]] + ps[i + 1..];
    assert ps[..i + 1] == ps[..i] + [ps[i]];
    SiftConcat([ps[i]], ps[i + 1..], cl, Nobody);
    SiftConcat([ps[i]], ps[i + 1..], cl, Blue);
    SiftConcat([ps[i]], ps[i + 1..], cl, Yellow);
    SiftOne(ps[i], cl, Nobody);
    SiftOne(ps[i], cl, Blue);
    SiftOne(ps[i], cl, Yellow);
  }

  /** Part way through the sweep of s0 with Blue at a and Yellow at b:
      the particles before i are kept ones, and each score plus what the
      particles from i on still owe that player is the given start score
      plus what the whole sweep owes. */
  ghost predicate Owed(ps: seq<Vec2>, i: nat, s0: seq<Vec2>, a: Vec2, b: Vec2,
                       n1: int, n2: int, score1: int, score2: int)
  {
    i <= |ps| <= |s0|
    && multiset(ps[..i]) + multiset(Claimed(ps[i..], a, b, Nobody))
       == multiset(Claimed(s0, a, b, Nobody))
    && n1 + |Claimed(ps[i..], a, b, Blue)| == score1 + |Claimed(s0, a, b, Blue)|
    && n2 + |Claimed(ps[i..], a, b, Yellow)| == score2 + |Claimed(s0, a, b, Yellow)|
  }

  /** The sweep removes element i, which one of the players touches, and
      credits that player. */
  lemma SweepRemove(ps: seq<Vec2>, i: nat, s0: seq<Vec2>, a: Vec2, b: Vec2,
                    n1: int, n2: int, score1: int, score2: int)
    requires i < |ps| && Claim(a, b, ps[i]) != Nobody
    requires Owed(ps, i, s0, a, b, n1, n2, score1, score2)
    ensures Owed(SwapPop(ps, i), i, s0, a, b,
                 n1 + (if Claim(a, b, ps[i]) == Blue then 1 else 0),
                 n2 + (if Claim(a, b, ps[i]) == Yellow then 1 else 0), score1, score2)
  {
    RemoveStep(ps, i, Claimer(a, b));
  }

  /** The sweep keeps element i, which neither player touches. */
  lemma SweepKeep(ps: seq<Vec2>, i: nat, s0: seq<Vec2>, a: Vec2, b: Vec2,
                  n1: int, n2: int, score1: int, score2: int)
    requires i < |ps| && Claim(a, b, ps[i]) == Nobody
    requires Owed(ps, i, s0, a, b, n1, n2, score1, score2)
    ensures Owed(ps, i + 1, s0, a, b, n1, n2, score1, score2)
  {
    KeepStep(ps, i, Claimer(a, b));
  }

  /** Before the sweep: everything is still owed. */
  lemma SweepStart(ps: seq<Vec2>, a: Vec2, b: Vec2)
    ensures multiset(ps[..0]) + multiset(Claimed(ps[0..], a, b, Nobody))
            == multiset(Claimed(ps, a, b, Nobody))
    ensures Claimed(ps[0..], a, b, Blue) == Claimed(ps, a, b, Blue)
    ensures Claimed(ps[0..], a, b, Yellow) == Claimed(ps, a, b, Yellow)
  {
    assert ps[..0] == [];
    assert ps[0..] == ps;
  }

  /** The sweep has looked at every element: nothing more is owed. */
  lemma SweepDone(ps: seq<Vec2>, i: nat, a: Vec2, b: Vec2)
    requires i == |ps|
    ensures multiset(ps[..i]) + multiset(Claimed(ps[i..], a, b, Nobody)) == multiset(ps)
    ensures |Claimed(ps[i..], a, b, Blue)| == 0 && |Claimed(ps[i..], a, b, Yellow)| == 0
  {
    assert ps[i..] == [];
    assert ps[..i] == ps;
  }

  /** Who would end the game, and how, at a given point. */
  datatype Outcome = Playing | BlueWins | YellowWins | Draw

  /** The players' discs touched: the higher score wins. */
  function CollisionOutcome(s1: int, s2: int): (o: Outcome)
    ensures o == BlueWins <==> s1 > s2
    ensures o == YellowWins <==> s2 > s1
    ensures o == Draw <==> s1 == s2
  {
    if s1 > s2 then BlueWins else if s2 > s1 then YellowWins else Draw
  }

  function Mirror(o: Outcome): (m: Outcome) {
    match o
    case BlueWins => YellowWins
    case YellowWins => BlueWins
    case _ => o
  }

  /** Exchanging the two scores exchanges the colour of the winner. */
  lemma CollisionOutcomeMirror(s1: int, s2: int)
    ensures CollisionOutcome(s2, s1) == Mirror(CollisionOutcome(s1, s2))
  {
  }

  /** A score reached the threshold: Blue is looked at first. */
  function ThresholdOutcome(s1: int, s2: int): (o: Outcome)
    requires s1 >= WIN_SCORE || s2 >= WIN_SCORE
    ensures o == BlueWins <==> s1 >= WIN_SCORE
    ensures o == YellowWins <==> s1 < WIN_SCORE && s2 >= WIN_SCORE
  {
    if s1 >= WIN_SCORE then BlueWins else YellowWins
  }

  /** One frame may spawn a particle when fewer than the cap are alive. */
  predicate SpawnAllowed(count: nat, roll: real) {
    count < MAX_PARTICLES && roll < SPAWN_CHANCE
  }

  /** The particle list after the spawn step: the old particles, followed
      by the new one at `at` when a spawn is allowed. */
  function Spawned(ps: seq<Vec2>, roll: real, at: Vec2): (r: seq<Vec2>)
    ensures |r| == |ps| + (if SpawnAllowed(|ps|, roll) then 1 else 0)
    ensures r[..|ps|] == ps
    ensures |r| > |ps| ==> r[|ps|] == at
  {
    if SpawnAllowed(|ps|, roll) then ps + [at] else ps
  }

  class Game {
    const p1: Player
    const p2: Player
    var particles: seq<Vec2>
    var gameOver: bool
    var dirtyScore: bool
    /** What the win banner shows while the game is over. */
    var outcome: Outcome

    ghost predicate Valid()
      reads this
    {
      p1 != p2 && |particles| <= MAX_PARTICLES
      && p1.radius == PLAYER_RADIUS && p2.radius == PLAYER_RADIUS
    }

    /** Blue starts on the left, Yellow on the right, both at mid height. */
    constructor ()
      ensures Valid() && fresh(p1) && fresh(p2)
      ensures p1.pos == BLUE_START && p2.pos == YELLOW_START
      ensures p1.score == 0 && p2.score == 0
      ensures p1.speed == PLAYER_SPEED && p2.speed == PLAYER_SPEED
      ensures particles == [] && !gameOver && !dirtyScore && outcome == Playing
    {
      p1 := new Player(BLUE_START, PLAYER_SPEED);
      p2 := new Player(YELLOW_START, PLAYER_SPEED);
      particles := [];
      gameOver := false;
      dirtyScore := false;
      outcome := Playing;
    }

    /** A key press: Space restarts a finished game; anything else, or any
        key while playing, changes nothing. */
    method KeyPressed(isSpace: bool)
      requires Valid()
      modifies this, p1, p2
      ensures Valid()
      ensures old(gameOver) && isSpace ==>
        p1.score == 0 && p2.score == 0 && p1.pos == BLUE_START && p2.pos == YELLOW_START
        && particles == [] && dirtyScore && !gameOver
      ensures !(old(gameOver) && isSpace) ==>
        p1.score == old(p1.score) && p2.score == old(p2.score)
        && p1.pos == old(p1.pos) && p2.pos == old(p2.pos)
        && particles == old(particles) && dirtyScore == old(dirtyScore)
        && gameOver == old(gameOver)
      ensures outcome == old(outcome)
      ensures p1.velocity == old(p1.velocity) && p2.velocity == old(p2.velocity)
    {
      if gameOver && isSpace {
        p1.score := 0;
        p2.score := 0;
        p1.pos := BLUE_START;
        p2.pos := YELLOW_START;
        particles := [];
        dirtyScore := true;
        gameOver := false;
      }
    }

    /** Appends a particle at `at` when the cap allows it and the roll is
        below the spawn chance. */
    method Spawn(roll: real, at: Vec2)
      requires Valid()
      modifies this
      ensures Valid()
      ensures particles == Spawned(old(particles), roll, at)
      ensures gameOver == old(gameOver) && dirtyScore == old(dirtyScore)
      ensures outcome == old(outcome)
    {
      if |particles| < MAX_PARTICLES && roll < SPAWN_CHANCE {
        particles := particles + [at];
      }
    }

    /** The two collision tests of the sweep for the particle at q: Blue
        is tried first, and the player who touches it scores one. */
    method Credit(q: Vec2) returns (collected: bool)
      requires p1 != p2 && p1.radius == PLAYER_RADIUS && p2.radius == PLAYER_RADIUS
      modifies p1`score, p2`score
      ensures collected <==> Claim(p1.pos, p2.pos, q) != Nobody
      ensures p1.score == old(p1.score) + (if Claim(p1.pos, p2.pos, q) == Blue then 1 else 0)
      ensures p2.score == old(p2.score) + (if Claim(p1.pos, p2.pos, q) == Yellow then 1 else 0)
    {
      collected := false;
      if CheckCollision(p1.pos, p1.radius, q, PARTICLE_RADIUS) {
        p1.score := p1.score + 1;
        collected := true;
      } else if CheckCollision(p2.pos, p2.radius, q, PARTICLE_RADIUS) {
        p2.score := p2.score + 1;
        collected := true;
      }
    }

    /** One step of the sweep at index i: a touched particle is credited
        and replaced by the last one, an untouched one is stepped over. */
    method SweepStep(i: nat, ghost s0: seq<Vec2>, ghost score1: int, ghost score2: int)
      returns (next: nat)
      requires p1 != p2 && p1.radius == PLAYER_RADIUS && p2.radius == PLAYER_RADIUS
      requires i < |particles|
      requires Owed(particles, i, s0, p1.pos, p2.pos, p1.score, p2.score, score1, score2)
      modifies this`particles, this`dirtyScore, p1`score, p2`score
      ensures Owed(particles, next, s0, p1.pos, p2.pos, p1.score, p2.score, score1, score2)
      ensures |particles| - next < |old(particles)| - i
      ensures (next == i && |particles| == |old(particles)| - 1 && dirtyScore)
              || (next == i + 1 && particles == old(particles) && dirtyScore == old(dirtyScore))
    {
      var a, b := p1.pos, p2.pos;
      ghost var n1, n2 := p1.score, p2.score;
      ghost var who := Claim(a, b, particles[i]);
      var collected := Credit(particles[i]);
      assert p1.score == n1 + (if who == Blue then 1 else 0);
      assert p2.score == n2 + (if who == Yellow then 1 else 0);
      if collected {
        SweepRemove(particles, i, s0, a, b, n1, n2, score1, score2);
        dirtyScore := true;
        particles := SwapPop(particles, i);
        next := i;
      } else {
        SweepKeep(particles, i, s0, a, b, n1, n2, score1, score2);
        next := i + 1;
      }
    }

    /** The collection sweep: a particle touched by Blue (checked first) or
        else by Yellow scores for that player and is replaced by the last
        particle, which is then examined at the same index. */
    method CollectParticles()
      requires Valid()
      modifies this`particles, this`dirtyScore, p1`score, p2`score
      ensures Valid()
      ensures p1.pos == old(p1.pos) && p2.pos == old(p2.pos)
      ensures p1.velocity == old(p1.velocity) && p2.velocity == old(p2.velocity)
      ensures multiset(particles) == multiset(Claimed(old(particles), p1.pos, p2.pos, Nobody))
      ensures p1.score == old(p1.score) + |Claimed(old(particles), p1.pos, p2.pos, Blue)|
      ensures p2.score == old(p2.score) + |Claimed(old(particles), p1.pos, p2.pos, Yellow)|
      ensures forall k :: 0 <= k < |particles| ==>
                !Touches(p1.pos, particles[k]) && !Touches(p2.pos, particles[k])
      ensures multiset(particles) <= multiset(old(particles))
      ensures (p1.score - old(p1.score)) + (p2.score - old(p2.score))
              == |old(particles)| - |particles|
      ensures dirtyScore == (old(dirtyScore) || |particles| < |old(particles)|)
      ensures gameOver == old(gameOver) && outcome == old(outcome)
    {
      ghost var s0 := particles;
      ghost var score1 := p1.score;
      ghost var score2 := p2.score;
      SweepStart(particles, p1.pos, p2.pos);
      var i: nat := 0;
      while i < |particles|
        invariant i <= |particles| <= |s0|
        invariant p1.pos == old(p1.pos) && p2.pos == old(p2.pos)
        invariant Owed(particles, i, s0, p1.pos, p2.pos, p1.score, p2.score, score1, score2)
        invariant dirtyScore == (old(dirtyScore) || |particles| < |s0|)
        decreases |particles| - i
      {
        i := SweepStep(i, s0, score1, score2);
      }
      SweepDone(particles, i, p1.pos, p2.pos);
      SweptClear(particles, s0, p1.pos, p2.pos);
      SweepAccounting(particles, s0, p1.pos, p2.pos);
    }

    /** One pass of the game loop: the key press of the frame, then, unless
        the game is over, spawn, steer, move, the players' collision test,
        the collection sweep, the score threshold and the
        score-display refresh. */
    method Frame(spacePressed: bool, elapsed: real, roll: real, spawnAt: Vec2,
                 keys1: Keys, keys2: Keys, winW: nat, winH: nat)
      requires Valid()
      requires 2.0 * PLAYER_RADIUS <= winW as real && 2.0 * PLAYER_RADIUS <= winH as real
      modifies this, p1, p2
      ensures Valid()
      ensures old(gameOver) && !spacePressed ==>
        particles == old(particles) && gameOver && outcome == old(outcome)
        && p1.pos == old(p1.pos) && p2.pos == old(p2.pos)
        && p1.score == old(p1.score) && p2.score == old(p2.score)
        && p1.velocity == old(p1.velocity) && p2.velocity == old(p2.velocity)
        && dirtyScore == old(dirtyScore)
      ensures !gameOver ==> !dirtyScore
      ensures !(old(gameOver) && !spacePressed) ==>
        // The frame plays, from the restarted state when Space ended a
        // finished game and from the state on entry otherwise.
        var restart := old(gameOver);
        var from1 := if restart then BLUE_START else old(p1.pos);
        var from2 := if restart then YELLOW_START else old(p2.pos);
        var base1 := if restart then 0 else old(p1.score);
        var base2 := if restart then 0 else old(p2.score);
        var start := if restart then [] else old(particles);
        var count := |start|;
        var spawned := Spawned(start, roll, spawnAt);
        var dt := Min(elapsed, MAX_DT);
        && !dirtyScore
        && multiset(particles) == multiset(Claimed(spawned, p1.pos, p2.pos, Nobody))
        && p1.score == base1 + |Claimed(spawned, p1.pos, p2.pos, Blue)|
        && p2.score == base2 + |Claimed(spawned, p1.pos, p2.pos, Yellow)|
        && p1.score >= base1 && p2.score >= base2
        && (p1.score - base1) + (p2.score - base2) + |particles|
           == count + (if SpawnAllowed(count, roll) then 1 else 0)
        && (forall k :: 0 <= k < |particles| ==>
              !Touches(p1.pos, particles[k]) && !Touches(p2.pos, particles[k]))
        && p1.velocity == VelocityFor(keys1, p1.speed)
        && p2.velocity == VelocityFor(keys2, p2.speed)
        && p1.pos == Moved(from1, p1.velocity, dt, PLAYER_RADIUS, winW as real, winH as real)
        && p2.pos == Moved(from2, p2.velocity, dt, PLAYER_RADIUS, winW as real, winH as real)
        && (gameOver <==> CheckCollision(p1.pos, PLAYER_RADIUS, p2.pos, PLAYER_RADIUS)
                          || p1.score >= WIN_SCORE || p2.score >= WIN_SCORE)
        && (p1.score >= WIN_SCORE || p2.score >= WIN_SCORE ==>
              outcome == ThresholdOutcome(p1.score, p2.score))
        && (p1.score < WIN_SCORE && p2.score < WIN_SCORE && gameOver ==>
              outcome == CollisionOutcome(base1, base2))
    {
      KeyPressed(spacePressed);
      var dt := Min(elapsed, MAX_DT);
      if !gameOver {
        Update(dt, roll, spawnAt, keys1, keys2, winW, winH);
      }
    }

    /** The body of the game loop while playing, with step `dt`. */
    method Update(dt: real, roll: real, spawnAt: Vec2, keys1: Keys, keys2: Keys,
                  winW: nat, winH: nat)
      requires Valid() && !gameOver
      requires 2.0 * PLAYER_RADIUS <= winW as real && 2.0 * PLAYER_RADIUS <= winH as real
      modifies this, p1, p2
      ensures Valid() && !dirtyScore
      ensures var spawned := Spawned(old(particles), roll, spawnAt);
        multiset(particles) == multiset(Claimed(spawned, p1.pos, p2.pos, Nobody))
        && p1.score == old(p1.score) + |Claimed(spawned, p1.pos, p2.pos, Blue)|
        && p2.score == old(p2.score) + |Claimed(spawned, p1.pos, p2.pos, Yellow)|
      ensures p1.score >= old(p1.score) && p2.score >= old(p2.score)
      ensures (p1.score - old(p1.score)) + (p2.score - old(p2.score)) + |particles|
              == |old(particles)| + (if SpawnAllowed(|old(particles)|, roll) then 1 else 0)
      ensures forall k :: 0 <= k < |particles| ==>
                !Touches(p1.pos, particles[k]) && !Touches(p2.pos, particles[k])
      ensures p1.velocity == VelocityFor(keys1, p1.speed)
      ensures p2.velocity == VelocityFor(keys2, p2.speed)
      ensures p1.pos == Moved(old(p1.pos), p1.velocity, dt, PLAYER_RADIUS, winW as real, winH as real)
      ensures p2.pos == Moved(old(p2.pos), p2.velocity, dt, PLAYER_RADIUS, winW as real, winH as real)
      ensures gameOver <==> CheckCollision(p1.pos, PLAYER_RADIUS, p2.pos, PLAYER_RADIUS)
                            || p1.score >= WIN_SCORE || p2.score >= WIN_SCORE
      ensures p1.score >= WIN_SCORE || p2.score >= WIN_SCORE ==>
                outcome == ThresholdOutcome(p1.score, p2.score)
      ensures p1.score < WIN_SCORE && p2.score < WIN_SCORE && gameOver ==>
                outcome == CollisionOutcome(old(p1.score), old(p2.score))
    {
      Spawn(roll, spawnAt);
      p1.HandleInput(keys1);
      p2.HandleInput(keys2);
      p1.Move(dt, winW, winH);
      p2.Move(dt, winW, winH);
      Resolve();
    }

    /** The part of the playing frame after the moves: the players'
        collision test, the collection sweep, the score threshold and the
        score-display refresh. */
    method Resolve()
      requires Valid() && !gameOver
      modifies this`particles, this`dirtyScore, this`gameOver, this`outcome, p1`score, p2`score
      ensures Valid() && !dirtyScore
      ensures multiset(particles) == multiset(Claimed(old(particles), p1.pos, p2.pos, Nobody))
      ensures p1.score == old(p1.score) + |Claimed(old(particles), p1.pos, p2.pos, Blue)|
      ensures p2.score == old(p2.score) + |Claimed(old(particles), p1.pos, p2.pos, Yellow)|
      ensures p1.score >= old(p1.score) && p2.score >= old(p2.score)
      ensures (p1.score - old(p1.score)) + (p2.score - old(p2.score)) + |particles| == |old(particles)|
      ensures forall k :: 0 <= k < |particles| ==>
                !Touches(p1.pos, particles[k]) && !Touches(p2.pos, particles[k])
      ensures gameOver <==> CheckCollision(p1.pos, PLAYER_RADIUS, p2.pos, PLAYER_RADIUS)
                            || p1.score >= WIN_SCORE || p2.score >= WIN_SCORE
      ensures p1.score >= WIN_SCORE || p2.score >= WIN_SCORE ==>
                outcome == ThresholdOutcome(p1.score, p2.score)
      ensures p1.score < WIN_SCORE && p2.score < WIN_SCORE && gameOver ==>
                outcome == CollisionOutcome(old(p1.score), old(p2.score))
    {
      if CheckCollision(p1.pos, p1.radius, p2.pos, p2.radius) {
        gameOver := true;
        outcome := CollisionOutcome(p1.score, p2.score);
      }
      CollectParticles();
      if p1.score >= WIN_SCORE || p2.score >= WIN_SCORE {
        gameOver := true;
        outcome := ThresholdOutcome(p1.score, p2.score);
      }
      if dirtyScore || gameOver {
        dirtyScore := false;
      }
    }
  }
}
