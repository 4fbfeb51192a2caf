/** The module-level game state of main.js (`running`, `score`, `lastTime`,
    `enemies`) and the functions that drive it: `populateEnemies`, `loop`,
    `update`, `canvasClick`, `startGame`, `pauseGame` and `resetGame`. */
module Session {
  import opened Wrappers
  import opened GameMath
  import opened EnemyModel
  import opened Enemies

  /** The draws behind one `new Enemy(type)` of `populateEnemies`: the kind
      roll, the size draw and the draws of the first `reset()`. */
  datatype SpawnDraws = SpawnDraws(uKind: real, uSize: real, reset: ResetDraws) {
    predicate Valid() {
      IsUnit(uKind) && IsUnit(uSize) && reset.Valid()
    }
  }

  /** Share of zombies among new enemies (main.js:165). */
  const ZombieShare: real := 0.55

  /** The number of enemies every call site asks for. */
  const EnemyCount: nat := 8

  /** `populateEnemies`' kind roll. */
  function KindDraw(u: real): Kind {
    if u < ZombieShare then Zombie else Momia
  }

  /** Points for shooting an enemy of kind `k`. */
  function Points(k: Kind): int {
    if k == Zombie then 10 else 15
  }

  /** The states of a list of enemies, index by index. */
  function StatesOf(es: seq<Enemy>): (r: seq<EnemyState>)
    reads es
    ensures |r| == |es|
    ensures forall i {:trigger r[i]} :: 0 <= i < |es| ==> r[i] == es[i].State()
  {
    if es == [] then [] else StatesOf(es[..|es| - 1]) + [es[|es| - 1].State()]
  }

  /** The enemy a click at (mx, my) shoots: the one with the highest index
      among those hit, or none when nothing is hit. */
  function HighestHit(states: seq<EnemyState>, mx: real, my: real): (r: Option<nat>)
    ensures r.Some? ==> r.value < |states| && IsHit(states[r.value], mx, my)
    ensures r.Some? ==> forall j :: r.value < j < |states| ==> !IsHit(states[j], mx, my)
    ensures r.None? ==> forall j :: 0 <= j < |states| ==> !IsHit(states[j], mx, my)
    decreases |states|
  {
    if states == [] then None
    else if IsHit(states[|states| - 1], mx, my) then Some(|states| - 1)
    else HighestHit(states[..|states| - 1], mx, my)
  }

  /** The hit index is determined by its description: an index that is hit
      and has no hit enemy above it is the one HighestHit picks. */
  lemma {:induction false} HighestHitUnique(states: seq<EnemyState>, mx: real, my: real, i: nat)
    requires i < |states| && IsHit(states[i], mx, my)
    requires forall j :: i < j < |states| ==> !IsHit(states[j], mx, my)
    ensures HighestHit(states, mx, my) == Some(i)
  {
    if i < |states| - 1 {
      HighestHitUnique(states[..|states| - 1], mx, my, i);
    }
  }

  /** A click on the exact position of a shown enemy with no hit enemy above
      it selects that enemy. */
  lemma {:induction false} CentreClickShoots(states: seq<EnemyState>, i: nat)
    requires i < |states| && states[i].visible
    requires forall j :: i < j < |states| ==> !IsHit(states[j], states[i].x, states[i].y)
    ensures HighestHit(states, states[i].x, states[i].y) == Some(i)
  {
    CentreIsHit(states[i]);
    HighestHitUnique(states, states[i].x, states[i].y, i);
  }

  /** `!lastTime`: JavaScript treats both `null` and `0` as no reference. */
  predicate NoReference(lastTime: Option<real>) {
    lastTime == None || lastTime == Some(0.0)
  }

  /** The `dt` one frame of `loop(timestamp)` simulates, in seconds, given
      the previous frame's timestamp in milliseconds. */
  function FrameDelta(lastTime: Option<real>, timestamp: real): (dt: real)
    ensures dt <= 0.05
    ensures NoReference(lastTime) ==> dt == 0.0
    ensures !NoReference(lastTime) && lastTime.value <= timestamp ==> 0.0 <= dt
    ensures !NoReference(lastTime) && timestamp - lastTime.value <= 50.0 ==>
              dt == (timestamp - lastTime.value) / 1000.0
    ensures !NoReference(lastTime) && timestamp - lastTime.value >= 50.0 ==> dt == 0.05
  {
    var reference := if NoReference(lastTime) then timestamp else lastTime.value;
    Min(0.05, (timestamp - reference) / 1000.0)
  }

  /** A frame one second after the previous one simulates only 0.05s. */
  lemma {:induction false} LongFrameIsCapped(previous: real)
    requires previous != 0.0
    ensures FrameDelta(Some(previous), previous + 1000.0) == 0.05
  {
  }

  class Game {
    var running: bool
    var score: int
    var lastTime: Option<real>
    var enemies: seq<Enemy>

    /** What every operation keeps: a non-negative score and distinct enemy
        objects whose sizes were drawn in [50, 89]. */
    ghost predicate Valid()
      reads this
    {
      0 <= score
      && (forall i, j :: 0 <= i < j < |enemies| ==> enemies[i] != enemies[j])
      && (forall i :: 0 <= i < |enemies| ==> 50 <= enemies[i].size <= 89)
    }

    /** The state main.js starts with, before the images load. */
    constructor ()
      ensures Valid()
      ensures !running && score == 0 && lastTime == None && enemies == []
    {
      running := false;
      score := 0;
      lastTime := None;
      enemies := [];
    }

    /** `populateEnemies(count)`: replaces the enemy list by `count` new
        enemies. */
    method PopulateEnemies(count: nat, draws: seq<SpawnDraws>)
      requires Valid()
      requires |draws| == count && forall i :: 0 <= i < count ==> draws[i].Valid()
      modifies this
      ensures Valid()
      ensures running == old(running) && score == old(score) && lastTime == old(lastTime)
      ensures |enemies| == count
      ensures forall i :: 0 <= i < count ==>
                draws[i].Valid() && fresh(enemies[i]) && enemies[i].kind == KindDraw(draws[i].uKind)
                && enemies[i].State() == Fresh(KindDraw(draws[i].uKind), draws[i].uSize, draws[i].reset)
    {
      enemies := [];
      for i := 0 to count
        invariant |enemies| == i
        invariant running == old(running) && score == old(score) && lastTime == old(lastTime)
        invariant Valid()
        invariant forall k :: 0 <= k < i ==>
                    fresh(enemies[k]) && enemies[k].kind == KindDraw(draws[k].uKind)
                    && enemies[k].State() == Fresh(KindDraw(draws[k].uKind), draws[k].uSize, draws[k].reset)
      {
        var kind := KindDraw(draws[i].uKind);
        var e := new Enemy(kind, draws[i].uSize, draws[i].reset);
        FreshIsWellformed(kind, draws[i].uSize, draws[i].reset);
        enemies := enemies + [e];
      }
    }

    /** `update(dt)`: advances every enemy by `dt`, in list order. */
    method Update(dt: real, draws: seq<TickDraws>)
      requires Valid()
      requires |draws| == |enemies| && forall i :: 0 <= i < |draws| ==> draws[i].Valid()
      modifies enemies
      ensures forall i :: 0 <= i < |enemies| ==>
                enemies[i].State() == EnemyModel.Update(old(enemies[i].State()), dt, draws[i])
    {
      for i := 0 to |enemies|
        invariant forall k :: 0 <= k < i ==>
                    enemies[k].State() == EnemyModel.Update(old(enemies[k].State()), dt, draws[k])
        invariant forall k :: i <= k < |enemies| ==> enemies[k].State() == old(enemies[k].State())
      {
        enemies[i].Update(dt, draws[i]);
      }
    }

    /** `loop(timestamp)`: while running, takes the frame reference, computes
        the capped `dt` and advances every enemy; otherwise does nothing. */
    method Loop(timestamp: real, draws: seq<TickDraws>)
      requires Valid()
      requires |draws| == |enemies| && forall i :: 0 <= i < |draws| ==> draws[i].Valid()
      modifies this, enemies
      ensures Valid()
      ensures enemies == old(enemies) && running == old(running) && score == old(score)
      ensures !running ==> lastTime == old(lastTime)
      ensures !running ==> forall i :: 0 <= i < |enemies| ==> enemies[i].State() == old(enemies[i].State())
      ensures running ==> lastTime == Some(timestamp)
      ensures running ==> forall i :: 0 <= i < |enemies| ==>
                enemies[i].State() == EnemyModel.Update(old(enemies[i].State()), FrameDelta(old(lastTime), timestamp), draws[i])
    {
      if !running {
        return;
      }
      if NoReference(lastTime) {
        lastTime := Some(timestamp);
      }
      var dt := Min(0.05, (timestamp - lastTime.value) / 1000.0);
      lastTime := Some(timestamp);
      Update(dt, draws);
    }

    /** `canvasClick` at canvas point (mx, my): while running, shoots the hit
        enemy with the highest index, if any, and scores its points. */
    method Click(mx: real, my: real, u: real) returns (hit: bool)
      requires Valid() && IsUnit(u)
      modifies this, enemies
      ensures Valid()
      ensures enemies == old(enemies) && running == old(running) && lastTime == old(lastTime)
      ensures var target := if old(running) then HighestHit(old(StatesOf(enemies)), mx, my) else None;
              hit == target.Some?
              && score == old(score) + (if target.Some? then Points(enemies[target.value].kind) else 0)
              && forall k :: 0 <= k < |enemies| ==>
                   enemies[k].State() == if target == Some(k) then OnShot(old(enemies[k].State()), u)
                                         else old(enemies[k].State())
    {
      hit := false;
      if !running {
        return;
      }
      ghost var before := StatesOf(enemies);
      var target := FindHit(mx, my, before);
      assert forall k :: 0 <= k < |enemies| ==> enemies[k].State() == old(enemies[k].State());
      if target.Some? {
        Shoot(target.value, u);
        hit := true;
      }
    }

    /** The search of `canvasClick`: scans the enemies from the last one
        down and stops at the first one hit, so it finds the hit enemy with
        the highest index. */
    method FindHit(mx: real, my: real, ghost states: seq<EnemyState>) returns (target: Option<nat>)
      requires states == StatesOf(enemies)
      ensures target == HighestHit(states, mx, my)
    {
      target := None;
      var i := |enemies|;
      while i > 0
        invariant 0 <= i <= |enemies|
        invariant forall j :: i <= j < |enemies| ==> !IsHit(states[j], mx, my)
      {
        i := i - 1;
        if enemies[i].IsHit(mx, my) {
          HighestHitUnique(states, mx, my, i);
          return Some(i);
        }
      }
      assert HighestHit(states, mx, my) == None;
    }

    /** The hit branch of `canvasClick`: shoots enemy `i` and adds its
        kind's points to the score; no other enemy changes. */
    method Shoot(i: nat, u: real)
      requires Valid() && IsUnit(u) && i < |enemies|
      modifies this, enemies[i]
      ensures Valid()
      ensures enemies == old(enemies) && running == old(running) && lastTime == old(lastTime)
      ensures score == old(score) + Points(enemies[i].kind)
      ensures enemies[i].State() == OnShot(old(enemies[i].State()), u)
      ensures forall k :: 0 <= k < |enemies| && k != i ==> enemies[k].State() == old(enemies[k].State())
    {
      var enemy := enemies[i];
      enemy.OnShot(u);
      score := score + Points(enemy.kind);
      forall k | 0 <= k < |enemies| && k != i
        ensures enemies[k].State() == old(enemies[k].State())
      {
        assert enemies[k] != enemy;
      }
    }

    /** A click, in a running game, on the position of a shown enemy with no
        hit enemy above it: that enemy is shot and hidden, and the score rises
        by 10 for a zombie or 15 for a momia. */
    method ClickOnEnemy(i: nat, u: real) returns (hit: bool)
      requires Valid() && IsUnit(u) && i < |enemies|
      modifies this, enemies
      ensures Valid() && enemies == old(enemies)
      ensures var before := old(StatesOf(enemies));
        old(running) && before[i].visible
        && (forall j :: i < j < |before| ==> !IsHit(before[j], before[i].x, before[i].y)) ==>
          hit && !enemies[i].visible
          && score == old(score) + (if before[i].kind == Zombie then 10 else 15)
    {
      ghost var before := StatesOf(enemies);
      var mx, my := enemies[i].x, enemies[i].y;
      assert mx == before[i].x && my == before[i].y;
      hit := Click(mx, my, u);
      if old(running) && before[i].visible
         && forall j :: i < j < |before| ==> !IsHit(before[j], mx, my)
      {
        CentreClickShoots(before, i);
        assert enemies[i].State() == OnShot(before[i], u);
      }
    }

    /** `startGame()`: starts a stopped game with no frame reference; a
        running game is left as it is. */
    method StartGame()
      requires Valid()
      modifies this
      ensures Valid()
      ensures running
      ensures old(running) ==> lastTime == old(lastTime)
      ensures !old(running) ==> lastTime == None
      ensures score == old(score) && enemies == old(enemies)
    {
      if running {
        return;
      }
      running := true;
      lastTime := None;
    }

    /** `pauseGame()`: stops a running game; a stopped one is left as it is. */
    method PauseGame()
      requires Valid()
      modifies this
      ensures Valid()
      ensures !running
      ensures score == old(score) && enemies == old(enemies) && lastTime == old(lastTime)
    {
      if !running {
        return;
      }
      running := false;
    }

    /** `resetGame()`: stops the game, zeroes the score and repopulates eight
        enemies, whatever the state before. */
    method ResetGame(draws: seq<SpawnDraws>)
      requires Valid()
      requires |draws| == EnemyCount && forall i :: 0 <= i < EnemyCount ==> draws[i].Valid()
      modifies this
      ensures Valid()
      ensures !running && score == 0 && lastTime == old(lastTime)
      ensures |enemies| == EnemyCount
      ensures forall i :: 0 <= i < EnemyCount ==>
                draws[i].Valid() && fresh(enemies[i])
                && enemies[i].State() == Fresh(KindDraw(draws[i].uKind), draws[i].uSize, draws[i].reset)
    {
      running := false;
      score := 0;
      PopulateEnemies(EnemyCount, draws);
    }
  }
}
