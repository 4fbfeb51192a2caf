/** The enemy of main.js as a value: what `reset`, `update`,
    `hideTemporarily`, `onShot` and `isHit` compute, and what they promise.
    The class Enemies.Enemy is proved against these functions. */
module EnemyModel {
  import opened GameMath

  /** `type`: 'zombie' moves in a straight line, 'momia' on a circle. */
  datatype Kind = Zombie | Momia

  /** Every field an enemy carries. A zombie never reads the orbit fields and
      a momia never reads vx/vy; whichever the game leaves unset is 0.0 here. */
  datatype EnemyState = EnemyState(
    kind: Kind,
    size: int,
    x: real, y: real,
    vx: real, vy: real,
    centerX: real, centerY: real, radius: real, angle: real, angularSpeed: real,
    visible: bool,
    disappearTimer: real)

  /** The range of `Math.cos(a)` and of `Math.sin(a)`. */
  predicate IsTrig(c: real) {
    -1.0 <= c <= 1.0
  }

  /** The draws behind a new orbit: centre, radius and signed angular speed. */
  datatype OrbitDraws = OrbitDraws(uCenterX: real, uCenterY: real, uRadius: real, uSpin: real, uSign: real) {
    predicate Valid() {
      IsUnit(uCenterX) && IsUnit(uCenterY) && IsUnit(uRadius) && IsUnit(uSpin) && IsUnit(uSign)
    }
  }

  /** The draws `reset()` consumes. A zombie's heading is given by the cosine
      and sine of its random angle; the angle itself is never stored. */
  datatype ResetDraws = ResetDraws(
    ux: real, uy: real,
    uSpeed: real, cosHeading: real, sinHeading: real,
    orbit: OrbitDraws, uAngle: real)
  {
    predicate Valid() {
      IsUnit(ux) && IsUnit(uy) && IsUnit(uSpeed) && IsTrig(cosHeading) && IsTrig(sinHeading)
      && orbit.Valid() && IsUnit(uAngle)
    }
  }

  /** The draws one `update(dt)` may consume: the cosine and sine of a
      momia's new angle, the re-centre roll and its orbit, the hide roll and
      its timer, and the draws for a respawn. */
  datatype TickDraws = TickDraws(
    cosAngle: real, sinAngle: real,
    uRecentre: real, recentre: OrbitDraws,
    uHide: real, uHideTimer: real,
    respawn: ResetDraws)
  {
    predicate Valid() {
      IsTrig(cosAngle) && IsTrig(sinAngle) && IsUnit(uRecentre) && recentre.Valid()
      && IsUnit(uHide) && IsUnit(uHideTimer) && respawn.Valid()
    }
  }

  /** Chance thresholds, per tick, of main.js:107, 115 and 122. */
  const ZombieHideChance: real := 0.0008
  const RecentreChance: real := 0.001
  const MomiaHideChance: real := 0.0006

  /** The distance a velocity covers in `dt` seconds (`v * dt * 60 / 16`). */
  function Advance(v: real, dt: real): real {
    v * dt * 60.0 / 16.0
  }

  /** A fresh orbit: centre inset by 100px, radius in [30, maxRadius),
      speed in [0.01, maxSpin) with a random sign. */
  function Orbit(s: EnemyState, o: OrbitDraws, maxRadius: real, maxSpin: real): EnemyState
    requires o.Valid() && 30.0 <= maxRadius && 0.01 <= maxSpin
  {
    s.(centerX := Rand(o.uCenterX, 100.0, W - 100.0),
       centerY := Rand(o.uCenterY, 100.0, H - 100.0),
       radius := Rand(o.uRadius, 30.0, maxRadius),
       angularSpeed := Rand(o.uSpin, 0.01, maxSpin) * Sign(o.uSign))
  }

  /** A cosine or sine scaled by a length: one component of a velocity or of
      an orbit offset. */
  function Component(c: real, length: real): (r: real)
    ensures -1.0 <= c <= 1.0 && 0.0 <= length ==> -length <= r <= length
  {
    ScaledTrig(c, length);
    c * length
  }

  lemma ScaledTrig(c: real, length: real)
    ensures -1.0 <= c <= 1.0 && 0.0 <= length ==> -length <= c * length <= length
  {
    if -1.0 <= c <= 1.0 && 0.0 <= length {
      if c >= 0.0 {
        ProductNonNegative(c, length);
        ProductNonNegative(1.0 - c, length);
        assert length - c * length == (1.0 - c) * length;
      } else {
        ProductNonNegative(-c, length);
        ProductNonNegative(1.0 + c, length);
        assert length + c * length == (1.0 + c) * length;
      }
    }
  }

  /** `reset()`. */
  function Reset(s: EnemyState, d: ResetDraws): EnemyState
    requires d.Valid()
  {
    var placed := s.(x := Rand(d.ux, 50.0, W - 50.0), y := Rand(d.uy, 50.0, H - 50.0));
    var moving :=
      if s.kind == Zombie then
        var speed := Rand(d.uSpeed, 0.6, 2.0);
        placed.(vx := Component(d.cosHeading, speed), vy := Component(d.sinHeading, speed))
      else
        Orbit(placed, d.orbit, 90.0, 0.05).(angle := Rand(d.uAngle, 0.0, PI * 2.0));
    moving.(visible := true, disappearTimer := 0.0)
  }

  /** The enemy `new Enemy(type)` builds: a size drawn once, then `reset()`. */
  function Fresh(kind: Kind, uSize: real, d: ResetDraws): EnemyState
    requires IsUnit(uSize) && d.Valid()
  {
    var blank := EnemyState(kind, SizeDraw(uSize), 0.0, 0.0, 0.0, 0.0, 0.0, 0.0, 0.0, 0.0, 0.0, true, 0.0);
    Reset(blank, d)
  }

  /** `hideTemporarily()`. */
  function HideTemporarily(s: EnemyState, u: real): EnemyState
    requires IsUnit(u)
  {
    s.(visible := false, disappearTimer := Rand(u, 0.8, 2.5))
  }

  /** `onShot()`. */
  function OnShot(s: EnemyState, u: real): EnemyState
    requires IsUnit(u)
  {
    s.(visible := false, disappearTimer := Rand(u, 0.6, 2.0))
  }

  /** `update(dt)`. */
  function Update(s: EnemyState, dt: real, d: TickDraws): EnemyState
    requires d.Valid()
  {
    if !s.visible then CountDown(s, dt, d)
    else if s.kind == Zombie then Walk(s, dt, d)
    else Circle(s, dt, d)
  }

  /** The hidden branch of `update(dt)`: the timer runs down, and the enemy
      respawns once it is used up. */
  function CountDown(s: EnemyState, dt: real, d: TickDraws): EnemyState
    requires d.Valid()
  {
    var counted := s.(disappearTimer := s.disappearTimer - dt);
    if counted.disappearTimer <= 0.0 then Reset(counted, d.respawn) else counted
  }

  /** A velocity component after a zombie step to coordinate `p` on a side of
      length `side`: reversed inside the 10px edge band. */
  function Bounce(v: real, p: real, side: real): real {
    if p < 10.0 || p > side - 10.0 then v * -1.0 else v
  }

  /** The zombie branch of `update(dt)`: a straight step that bounces off the
      edges, then perhaps a temporary hide. */
  function Walk(s: EnemyState, dt: real, d: TickDraws): EnemyState
    requires d.Valid()
  {
    var nx := s.x + Advance(s.vx, dt);
    var ny := s.y + Advance(s.vy, dt);
    var moved := s.(x := nx, y := ny, vx := Bounce(s.vx, nx, W), vy := Bounce(s.vy, ny, H));
    if d.uHide < ZombieHideChance then HideTemporarily(moved, d.uHideTimer) else moved
  }

  /** The momia branch of `update(dt)`: a step along the orbit, perhaps a new
      orbit, then perhaps a temporary hide. */
  function Circle(s: EnemyState, dt: real, d: TickDraws): EnemyState
    requires d.Valid()
  {
    var na := s.angle + Advance(s.angularSpeed, dt);
    var circled := s.(angle := na,
                      x := s.centerX + Component(d.cosAngle, s.radius),
                      y := s.centerY + Component(d.sinAngle, s.radius));
    var recentred := if d.uRecentre < RecentreChance then Orbit(circled, d.recentre, 110.0, 0.06) else circled;
    if d.uHide < MomiaHideChance then HideTemporarily(recentred, d.uHideTimer) else recentred
  }

  /** The radius of the circular hitbox: three quarters of half the size,
      never less than three quarters of 20px. */
  function HitRadius(size: int): (r: real)
    ensures 15.0 <= r
    ensures r == 15.0 || r == (size as real) * 0.375
    ensures (size as real) * 0.375 <= r
  {
    Max(size as real / 2.0, 20.0) * 0.75
  }

  /** `isHit(mx, my)`, with the distance compared through its square. */
  predicate IsHit(s: EnemyState, mx: real, my: real) {
    s.visible && DistanceSquared(mx, my, s.x, s.y) <= HitRadius(s.size) * HitRadius(s.size)
  }

  /** What every enemy satisfies between operations: the size drawn at
      creation, a cleared timer while shown, a pending timer while hidden,
      and the ranges of its motion parameters. */
  predicate Wellformed(s: EnemyState) {
    50 <= s.size <= 89
    && (s.visible ==> s.disappearTimer == 0.0)
    && (!s.visible ==> 0.0 < s.disappearTimer < 2.5)
    && (s.kind == Zombie ==> Abs(s.vx) <= 2.0 && Abs(s.vy) <= 2.0)
    && (s.kind == Momia ==>
          30.0 <= s.radius <= 110.0 && 0.01 <= Abs(s.angularSpeed) <= 0.06
          && 100.0 <= s.centerX <= W - 100.0 && 100.0 <= s.centerY <= H - 100.0)
  }

  // ---------------------------------------------------------------- hit test

  /** A hidden enemy is never hit; a shown one is hit exactly when the point
      lies within the hitbox radius (the boundary counts). `d` is the
      Euclidean distance `distance(mx, my, x, y)` computes. */
  lemma {:induction false} HitIffWithinRadius(s: EnemyState, mx: real, my: real, d: real)
    requires 0.0 <= d && d * d == DistanceSquared(mx, my, s.x, s.y)
    ensures !s.visible ==> !IsHit(s, mx, my)
    ensures s.visible ==> (IsHit(s, mx, my) <==> d <= HitRadius(s.size))
  {
    SquareCompare(d, DistanceSquared(mx, my, s.x, s.y), HitRadius(s.size));
  }

  /** A click exactly on a shown enemy's position hits it. */
  lemma {:induction false} CentreIsHit(s: EnemyState)
    requires s.visible
    ensures IsHit(s, s.x, s.y)
  {
    SquareNonNegative(HitRadius(s.size));
  }

  // ------------------------------------------------------------ respawning

  /** `reset()` shows the enemy with a cleared timer inside the inset spawn
      rectangle, keeps its kind and size, and draws motion parameters in the
      kind's ranges. */
  lemma {:induction false} ResetSpawns(s: EnemyState, d: ResetDraws)
    requires d.Valid()
    ensures var r := Reset(s, d);
      r.visible && r.disappearTimer == 0.0 && r.kind == s.kind && r.size == s.size
      && 50.0 <= r.x < W - 50.0 && 50.0 <= r.y < H - 50.0
      && (s.kind == Zombie ==> Abs(r.vx) <= 2.0 && Abs(r.vy) <= 2.0)
      && (s.kind == Momia ==>
            100.0 <= r.centerX < W - 100.0 && 100.0 <= r.centerY < H - 100.0
            && 30.0 <= r.radius < 90.0 && 0.01 <= Abs(r.angularSpeed) < 0.05
            && 0.0 <= r.angle < PI * 2.0)
  {
    if s.kind == Momia {
      SignedSpeed(d.orbit.uSpin, d.orbit.uSign, 0.05);
    }
  }

  /** The signed angular speed of a fresh orbit has its magnitude in
      [0.01, maxSpin). */
  lemma SignedSpeed(uSpin: real, uSign: real, maxSpin: real)
    requires IsUnit(uSpin) && 0.01 < maxSpin
    ensures 0.01 <= Abs(Rand(uSpin, 0.01, maxSpin) * Sign(uSign)) < maxSpin
  {
  }

  /** A new enemy is shown, wellformed, of the requested kind, with a size in
      [50, 89] and a spawn point inside the inset rectangle. */
  lemma {:induction false} FreshIsWellformed(kind: Kind, uSize: real, d: ResetDraws)
    requires IsUnit(uSize) && d.Valid()
    ensures var r := Fresh(kind, uSize, d);
      Wellformed(r) && r.kind == kind && r.visible && 50 <= r.size <= 89
      && 50.0 <= r.x < W - 50.0 && 50.0 <= r.y < H - 50.0
  {
    var blank := EnemyState(kind, SizeDraw(uSize), 0.0, 0.0, 0.0, 0.0, 0.0, 0.0, 0.0, 0.0, 0.0, true, 0.0);
    ResetSpawns(blank, d);
  }

  // --------------------------------------------------------------- hiding

  /** `hideTemporarily()` hides the enemy for [0.8, 2.5) seconds and touches
      nothing but the visibility and the timer. */
  lemma {:induction false} HideTemporarilyHides(s: EnemyState, u: real)
    requires IsUnit(u)
    ensures var r := HideTemporarily(s, u);
      !r.visible && 0.8 <= r.disappearTimer < 2.5
      && r.(visible := s.visible, disappearTimer := s.disappearTimer) == s
  {
  }

  /** `onShot()` hides the enemy for [0.6, 2.0) seconds and touches nothing
      but the visibility and the timer, whatever state it was in. */
  lemma {:induction false} OnShotHides(s: EnemyState, u: real)
    requires IsUnit(u)
    ensures var r := OnShot(s, u);
      !r.visible && 0.6 <= r.disappearTimer < 2.0
      && r.(visible := s.visible, disappearTimer := s.disappearTimer) == s
      && !IsHit(r, s.x, s.y)
  {
  }

  // ------------------------------------------------------------- updating

  /** A hidden enemy stays where it is while its timer counts down by `dt`,
      and respawns, shown, inside the spawn rectangle once the timer reaches
      zero. */
  lemma {:induction false} HiddenUpdate(s: EnemyState, dt: real, d: TickDraws)
    requires d.Valid() && !s.visible
    ensures var r := Update(s, dt, d);
      r.kind == s.kind && r.size == s.size
      && (s.disappearTimer - dt > 0.0 ==>
            !r.visible && r.disappearTimer == s.disappearTimer - dt && r.x == s.x && r.y == s.y
            && r.(disappearTimer := s.disappearTimer) == s)
      && (s.disappearTimer - dt <= 0.0 ==>
            r.visible && r.disappearTimer == 0.0
            && 50.0 <= r.x < W - 50.0 && 50.0 <= r.y < H - 50.0)
  {
    ResetSpawns(s.(disappearTimer := s.disappearTimer - dt), d.respawn);
  }

  /** A shown zombie moves by `v * dt * 60 / 16` on each axis, reverses each
      velocity component exactly when its new coordinate lies within 10px of
      (or beyond) that axis's edges, keeps each component's magnitude, and
      hides only when the hide roll is under 0.0008. */
  lemma {:induction false} ZombieUpdate(s: EnemyState, dt: real, d: TickDraws)
    requires d.Valid() && s.visible && s.kind == Zombie
    ensures var r := Update(s, dt, d);
      r.x == s.x + Advance(s.vx, dt) && r.y == s.y + Advance(s.vy, dt)
      && ((r.x < 10.0 || r.x > W - 10.0) ==> r.vx == -s.vx)
      && (!(r.x < 10.0 || r.x > W - 10.0) ==> r.vx == s.vx)
      && ((r.y < 10.0 || r.y > H - 10.0) ==> r.vy == -s.vy)
      && (!(r.y < 10.0 || r.y > H - 10.0) ==> r.vy == s.vy)
      && Abs(r.vx) == Abs(s.vx) && Abs(r.vy) == Abs(s.vy)
      && r.kind == s.kind && r.size == s.size
      && (r.visible <==> d.uHide >= ZombieHideChance)
      && (!r.visible ==> 0.8 <= r.disappearTimer < 2.5)
      && (r.visible ==> r.disappearTimer == s.disappearTimer)
  {
  }

  /** A shown momia advances its angle by `angularSpeed * dt * 60 / 16` and
      stands inside the bounding square of the orbit it had at the start of
      the tick (the position is taken before any re-centre); only a re-centre roll under
      0.001 draws a new orbit (centre inset by 100px, radius in [30, 110),
      |angularSpeed| in [0.01, 0.06)), and only a hide roll under 0.0006
      hides it. */
  lemma {:induction false} MomiaUpdate(s: EnemyState, dt: real, d: TickDraws)
    requires d.Valid() && s.visible && s.kind == Momia && 0.0 <= s.radius
    ensures var r := Update(s, dt, d);
      r.angle == s.angle + Advance(s.angularSpeed, dt)
      && s.centerX - s.radius <= r.x <= s.centerX + s.radius
      && s.centerY - s.radius <= r.y <= s.centerY + s.radius
      && r.kind == s.kind && r.size == s.size
      && (d.uRecentre >= RecentreChance ==>
            r.centerX == s.centerX && r.centerY == s.centerY
            && r.radius == s.radius && r.angularSpeed == s.angularSpeed)
      && (d.uRecentre < RecentreChance ==>
            100.0 <= r.centerX < W - 100.0 && 100.0 <= r.centerY < H - 100.0
            && 30.0 <= r.radius < 110.0 && 0.01 <= Abs(r.angularSpeed) < 0.06)
      && (r.visible <==> d.uHide >= MomiaHideChance)
      && (!r.visible ==> 0.8 <= r.disappearTimer < 2.5)
  {
    SignedSpeed(d.recentre.uSpin, d.recentre.uSign, 0.06);
  }

  /** A zombie within 10px of the left edge, heading left, heads right after
      one tick of non-negative length. */
  lemma {:induction false} BounceOffLeftEdge(s: EnemyState, dt: real, d: TickDraws)
    requires d.Valid() && s.visible && s.kind == Zombie
    requires s.x == 5.0 && s.vx < 0.0 && 0.0 <= dt
    ensures Update(s, dt, d).vx > 0.0
  {
    ProductNonNegative(-s.vx, dt);
    assert Advance(s.vx, dt) == -((-s.vx) * dt) * 60.0 / 16.0;
  }

  /** The enemy after the ticks `dts` of successive frames, oldest first,
      each with its own draws. */
  function Run(s: EnemyState, dts: seq<real>, ds: seq<TickDraws>): EnemyState
    requires |dts| == |ds| && forall i :: 0 <= i < |ds| ==> ds[i].Valid()
    decreases |dts|
  {
    if dts == [] then s
    else Update(Run(s, dts[..|dts| - 1], ds[..|ds| - 1]), dts[|dts| - 1], ds[|ds| - 1])
  }

  /** The time the ticks `dts` add up to. */
  function Elapsed(dts: seq<real>): real
    decreases |dts|
  {
    if dts == [] then 0.0 else Elapsed(dts[..|dts| - 1]) + dts[|dts| - 1]
  }

  /** While the time elapsed stays below a hidden enemy's timer, after every
      tick, the enemy stays hidden and in place and its timer has run down by
      exactly the time elapsed. */
  lemma {:induction false} StaysHidden(s: EnemyState, dts: seq<real>, ds: seq<TickDraws>)
    requires |dts| == |ds| && forall i :: 0 <= i < |ds| ==> ds[i].Valid()
    requires !s.visible
    requires forall k :: 0 < k <= |dts| ==> Elapsed(dts[..k]) < s.disappearTimer
    ensures var r := Run(s, dts, ds);
      !r.visible && r.disappearTimer == s.disappearTimer - Elapsed(dts)
      && r.(disappearTimer := s.disappearTimer) == s
  {
    if dts != [] {
      var n := |dts|;
      var earlier := dts[..n - 1];
      forall k | 0 < k <= n - 1
        ensures Elapsed(earlier[..k]) < s.disappearTimer
      {
        assert earlier[..k] == dts[..k];
      }
      StaysHidden(s, earlier, ds[..n - 1]);
      var before := Run(s, earlier, ds[..n - 1]);
      assert dts[..n] == dts;
      HiddenUpdate(before, dts[n - 1], ds[n - 1]);
    }
  }

  /** On the tick where the time elapsed first reaches a hidden enemy's
      timer, the enemy comes back shown, with a cleared timer, inside the
      spawn rectangle, with its kind and size. */
  lemma {:induction false} ComesBack(s: EnemyState, dts: seq<real>, ds: seq<TickDraws>)
    requires |dts| == |ds| && forall i :: 0 <= i < |ds| ==> ds[i].Valid()
    requires !s.visible && dts != []
    requires forall k :: 0 < k < |dts| ==> Elapsed(dts[..k]) < s.disappearTimer
    requires s.disappearTimer <= Elapsed(dts)
    ensures var r := Run(s, dts, ds);
      r.visible && r.disappearTimer == 0.0 && r.kind == s.kind && r.size == s.size
      && 50.0 <= r.x < W - 50.0 && 50.0 <= r.y < H - 50.0
  {
    var n := |dts|;
    var earlier := dts[..n - 1];
    forall k | 0 < k <= n - 1
      ensures Elapsed(earlier[..k]) < s.disappearTimer
    {
      assert earlier[..k] == dts[..k];
    }
    StaysHidden(s, earlier, ds[..n - 1]);
    HiddenUpdate(Run(s, dts[..n - 1], ds[..n - 1]), dts[n - 1], ds[n - 1]);
  }

  /** The shot round trip: after `onShot()` the enemy stays hidden, frame
      after frame, until the frames' time first reaches its timer; on that
      frame it is back, shown, inside the spawn rectangle. */
  lemma {:induction false} ShotThenRespawn(s: EnemyState, u: real, dts: seq<real>, ds: seq<TickDraws>)
    requires IsUnit(u) && |dts| == |ds| && forall i :: 0 <= i < |ds| ==> ds[i].Valid()
    requires dts != [] && forall k :: 0 < k < |dts| ==> Elapsed(dts[..k]) < OnShot(s, u).disappearTimer
    ensures forall k :: 0 < k < |dts| ==> !Run(OnShot(s, u), dts[..k], ds[..k]).visible
    ensures OnShot(s, u).disappearTimer <= Elapsed(dts) ==>
      var r := Run(OnShot(s, u), dts, ds);
      r.visible && r.disappearTimer == 0.0 && r.kind == s.kind && r.size == s.size
      && 50.0 <= r.x < W - 50.0 && 50.0 <= r.y < H - 50.0
  {
    var shot := OnShot(s, u);
    forall k | 0 < k < |dts|
      ensures !Run(shot, dts[..k], ds[..k]).visible
    {
      var prefix := dts[..k];
      forall j | 0 < j <= k
        ensures Elapsed(prefix[..j]) < shot.disappearTimer
      {
        assert prefix[..j] == dts[..j];
      }
      StaysHidden(shot, dts[..k], ds[..k]);
    }
    if shot.disappearTimer <= Elapsed(dts) {
      ComesBack(shot, dts, ds);
    }
  }

  // ------------------------------------------------------------ invariant

  /** Every tick of non-negative length keeps an enemy wellformed. */
  lemma {:induction false} UpdateKeepsWellformed(s: EnemyState, dt: real, d: TickDraws)
    requires d.Valid() && Wellformed(s) && 0.0 <= dt
    ensures Wellformed(Update(s, dt, d))
  {
    if !s.visible {
      HiddenUpdate(s, dt, d);
      if s.disappearTimer - dt <= 0.0 {
        ResetSpawns(s.(disappearTimer := s.disappearTimer - dt), d.respawn);
      }
    } else if s.kind == Zombie {
      ZombieUpdate(s, dt, d);
    } else {
      MomiaUpdate(s, dt, d);
    }
  }

  /** A shot keeps an enemy wellformed. */
  lemma {:induction false} OnShotKeepsWellformed(s: EnemyState, u: real)
    requires IsUnit(u) && Wellformed(s)
    ensures Wellformed(OnShot(s, u))
  {
    OnShotHides(s, u);
  }
}
