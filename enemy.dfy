/** `class Enemy` of main.js: an object whose methods update its fields in
    place. Each method is proved to leave the object in the state the
    matching EnemyModel function computes. */
module Enemies {
  import opened GameMath
  import opened EnemyModel

  class Enemy {
    const kind: Kind
    const size: int
    var x: real
    var y: real
    var vx: real
    var vy: real
    var centerX: real
    var centerY: real
    var radius: real
    var angle: real
    var angularSpeed: real
    var visible: bool
    var disappearTimer: real

    /** The enemy's fields as a value. */
    function State(): EnemyState
      reads this
    {
      EnemyState(kind, size, x, y, vx, vy, centerX, centerY, radius, angle, angularSpeed, visible, disappearTimer)
    }

    /** `new Enemy(type)`: draws the size, then resets. */
    constructor (enemyKind: Kind, uSize: real, d: ResetDraws)
      requires IsUnit(uSize) && d.Valid()
      ensures State() == Fresh(enemyKind, uSize, d)
    {
      kind := enemyKind;
      size := SizeDraw(uSize);
      x, y, vx, vy := 0.0, 0.0, 0.0, 0.0;
      centerX, centerY, radius, angle, angularSpeed := 0.0, 0.0, 0.0, 0.0, 0.0;
      visible, disappearTimer := true, 0.0;
      new;
      Reset(d);
      visible := true;
      disappearTimer := 0.0;
    }

    /** `reset()`. */
    method Reset(d: ResetDraws)
      requires d.Valid()
      modifies this
      ensures State() == EnemyModel.Reset(old(State()), d)
    {
      x := Rand(d.ux, 50.0, W - 50.0);
      y := Rand(d.uy, 50.0, H - 50.0);
      if kind == Zombie {
        var speed := Rand(d.uSpeed, 0.6, 2.0);
        vx := Component(d.cosHeading, speed);
        vy := Component(d.sinHeading, speed);
      } else {
        centerX := Rand(d.orbit.uCenterX, 100.0, W - 100.0);
        centerY := Rand(d.orbit.uCenterY, 100.0, H - 100.0);
        radius := Rand(d.orbit.uRadius, 30.0, 90.0);
        angle := Rand(d.uAngle, 0.0, PI * 2.0);
        angularSpeed := Rand(d.orbit.uSpin, 0.01, 0.05) * Sign(d.orbit.uSign);
      }
      visible := true;
      disappearTimer := 0.0;
    }

    /** `update(dt)`. */
    method Update(dt: real, d: TickDraws)
      requires d.Valid()
      modifies this
      ensures State() == EnemyModel.Update(old(State()), dt, d)
    {
      if !visible {
        CountDown(dt, d);
      } else if kind == Zombie {
        Walk(dt, d);
      } else {
        Circle(dt, d);
      }
    }

    /** The hidden branch of `update(dt)`. */
    method CountDown(dt: real, d: TickDraws)
      requires d.Valid()
      modifies this
      ensures State() == EnemyModel.CountDown(old(State()), dt, d)
    {
      disappearTimer := disappearTimer - dt;
      if disappearTimer <= 0.0 {
        Reset(d.respawn);
      }
    }

    /** The zombie branch of `update(dt)`. */
    method Walk(dt: real, d: TickDraws)
      requires d.Valid()
      modifies this
      ensures State() == EnemyModel.Walk(old(State()), dt, d)
    {
      x := x + Advance(vx, dt);
      y := y + Advance(vy, dt);
      if x < 10.0 || x > W - 10.0 {
        vx := vx * -1.0;
      }
      if y < 10.0 || y > H - 10.0 {
        vy := vy * -1.0;
      }
      if d.uHide < ZombieHideChance {
        HideTemporarily(d.uHideTimer);
      }
    }

    /** The momia branch of `update(dt)`. */
    method Circle(dt: real, d: TickDraws)
      requires d.Valid()
      modifies this
      ensures State() == EnemyModel.Circle(old(State()), dt, d)
    {
      angle := angle + Advance(angularSpeed, dt);
      x := centerX + Component(d.cosAngle, radius);
      y := centerY + Component(d.sinAngle, radius);
      if d.uRecentre < RecentreChance {
        centerX := Rand(d.recentre.uCenterX, 100.0, W - 100.0);
        centerY := Rand(d.recentre.uCenterY, 100.0, H - 100.0);
        radius := Rand(d.recentre.uRadius, 30.0, 110.0);
        angularSpeed := Rand(d.recentre.uSpin, 0.01, 0.06) * Sign(d.recentre.uSign);
      }
      if d.uHide < MomiaHideChance {
        HideTemporarily(d.uHideTimer);
      }
    }

    /** `hideTemporarily()`. */
    method HideTemporarily(u: real)
      requires IsUnit(u)
      modifies this
      ensures State() == EnemyModel.HideTemporarily(old(State()), u)
    {
      visible := false;
      disappearTimer := Rand(u, 0.8, 2.5);
    }

    /** `isHit(mx, my)`. */
    predicate IsHit(mx: real, my: real)
      reads this
    {
      EnemyModel.IsHit(State(), mx, my)
    }

    /** `onShot()`. */
    method OnShot(u: real)
      requires IsUnit(u)
      modifies this
      ensures State() == EnemyModel.OnShot(old(State()), u)
    {
      visible := false;
      disappearTimer := Rand(u, 0.6, 2.0);
    }
  }
}
