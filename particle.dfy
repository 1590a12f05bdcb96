/** A single spark on the track [0, 1000]: it ages every tick, slows down
    with age-coupled friction, fades, bounces off the ends and dies once its
    power is spent. */
module Particles {

  const TrackEnd: int := 1000
  const SpawnPower: int := 255
  const MaxLife: int := 220
  /** Bounds of the drawn spawn velocity; the upper bound is exclusive. */
  const MinSpawnSpeed: int := -200
  const MaxSpawnSpeed: int := 200

  function Abs(x: int): nat {
    if x < 0 then -x else x
  }

  /** C's integer `/` by a positive divisor: the quotient rounded toward
      zero, so its magnitude is that of the dividend's and its sign follows
      the dividend. */
  function TruncDiv(a: int, b: int): (q: int)
    requires b > 0
    ensures Abs(q) == Abs(a) / b
    ensures a >= 0 ==> q >= 0
    ensures a <= 0 ==> q <= 0
  {
    DivNonneg(Abs(a), b);
    if a < 0 then -(Abs(a) / b) else Abs(a) / b
  }

  /** Euclidean division of a non-negative number by a positive one is
      non-negative. */
  lemma DivNonneg(x: int, b: int)
    requires x >= 0 && b > 0
    ensures x / b >= 0
  {
    var q, r := x / b, x % b;
    assert x == q * b + r && 0 <= r < b;
  }

  datatype ParticleState = ParticleState(pos: int, sp: int, life: int, power: int, alive: bool)

  /** The state `Spawn(pos)` leaves when the drawn velocity is `v`. */
  function Spawned(pos: int, v: int): (r: ParticleState)
    requires MinSpawnSpeed <= v < MaxSpawnSpeed
    ensures r.alive && r.pos == pos && r.sp == v && r.power == SpawnPower
    ensures r.life + Abs(v) == MaxLife
    ensures 20 <= r.life <= MaxLife
  {
    ParticleState(pos, v, MaxLife - Abs(v), SpawnPower, true)
  }

  /** Friction: a step of `life / 10` toward zero from a positive speed, and
      away from zero in the positive direction otherwise (also at rest). */
  function Friction(sp: int, life: int): (r: int)
    ensures life >= 0 && sp > 0 ==> r == sp - life / 10
    ensures life >= 0 && sp <= 0 ==> r == sp + life / 10
    ensures life >= 0 ==> Abs(r - sp) == life / 10
  {
    if sp > 0 then sp - TruncDiv(life, 10) else sp + TruncDiv(life, 10)
  }

  /** The movement half of a surviving tick: the float step `pos += sp / 7.0`
      truncated back to `int`, which is `(7 * pos + sp) / 7` rounded toward
      zero; then clamping to the track with an inelastic bounce. */
  function Advance(pos: int, sp: int): (r: (int, int))
    ensures 0 <= r.0 <= TrackEnd
    ensures var p := TruncDiv(7 * pos + sp, 7);
      if 0 <= p <= TrackEnd then r == (p, sp)
      else r.0 == (if p > TrackEnd then TrackEnd else 0) && r.1 == -TruncDiv(sp, 2)
    ensures r.0 != TruncDiv(7 * pos + sp, 7) ==> Abs(r.1) == Abs(sp) / 2
  {
    var p := TruncDiv(7 * pos + sp, 7);
    if p > TrackEnd then (TrackEnd, 0 - TruncDiv(sp, 2))
    else if p < 0 then (0, 0 - TruncDiv(sp, 2))
    else (p, sp)
  }

  /** From inside the track a bounce always turns the particle back inward. */
  lemma BounceTurnsInward(pos: int, sp: int)
    requires 0 <= pos <= TrackEnd
    ensures var r := Advance(pos, sp);
      (TruncDiv(7 * pos + sp, 7) > TrackEnd ==> r.0 == TrackEnd && r.1 <= 0)
      && (TruncDiv(7 * pos + sp, 7) < 0 ==> r.0 == 0 && r.1 >= 0)
  {
    var p := TruncDiv(7 * pos + sp, 7);
    if p > TrackEnd {
      assert sp > 0;
    } else if p < 0 {
      assert sp < 0;
    }
  }

  /** The truncated step is not `pos + sp / 7` in integers: from 5 at speed
      -3 the particle moves to 4. */
  lemma AdvanceIsNotIntegerStep()
    ensures Advance(5, -3) == (4, -3)
    ensures 5 + TruncDiv(-3, 7) == 5
  {
  }

  /** From 990 at speed 140 the particle hits the far end and bounces back at
      half speed. */
  lemma BounceExample()
    ensures Advance(990, 140) == (TrackEnd, -70)
  {
  }

  /** One `Tick`. */
  function Step(s: ParticleState): ParticleState {
    if !s.alive then s
    else
      var life := s.life + 1;
      // the gravity pull past the bend point is compiled out (USE_GRAVITY 0)
      var sp' := Friction(s.sp, life);
      var power := 100 - life;
      if power <= 0 then
        ParticleState(s.pos, sp', life, power, false)
      else
        var (pos, sp'') := Advance(s.pos, sp');
        ParticleState(pos, sp'', life, power, true)
  }

  /** What one tick does: nothing to a dead particle; a live one ages by
      one and its power follows its life; it dies exactly when that power is
      spent, and then stays where it was; otherwise it moves by `Advance`
      and ends on the track. */
  lemma StepFacts(s: ParticleState)
    ensures var r := Step(s);
      && (!s.alive ==> r == s)
      && (s.alive ==> r.life == s.life + 1 && r.power == 100 - r.life)
      && (s.alive ==> (r.alive <==> r.power > 0))
      && (s.alive && !r.alive ==> r.pos == s.pos && r.sp == Friction(s.sp, r.life))
      && (s.alive && r.alive ==> (r.pos, r.sp) == Advance(s.pos, Friction(s.sp, r.life)))
      && (r.alive ==> 0 <= r.pos <= TrackEnd)
  {
  }

  /** A tick that spends the power kills the particle where it stands. */
  lemma StepKills(s: ParticleState, sp: int)
    requires s.alive && s.life + 1 >= 100 && sp == Friction(s.sp, s.life + 1)
    ensures Step(s) == ParticleState(s.pos, sp, s.life + 1, 100 - (s.life + 1), false)
  {
  }

  /** A tick that leaves power moves the particle by `Advance`. */
  lemma StepMoves(s: ParticleState, sp: int, moved: (int, int))
    requires s.alive && s.life + 1 < 100 && sp == Friction(s.sp, s.life + 1)
    requires moved == Advance(s.pos, sp)
    ensures Step(s) == ParticleState(moved.0, moved.1, s.life + 1, 100 - (s.life + 1), true)
  {
  }

  /** `k` ticks in a row. */
  function Steps(s: ParticleState, k: nat): ParticleState
    decreases k
  {
    if k == 0 then s else Steps(Step(s), k - 1)
  }

  /** Once dead, a particle stays dead and unchanged however often it ticks. */
  lemma {:induction false} DeadStaysDead(s: ParticleState, k: nat)
    requires !s.alive
    ensures Steps(s, k) == s
    decreases k
  {
    if k > 0 {
      DeadStaysDead(Step(s), k - 1);
    }
  }

  /** The power bound every live particle keeps: at most `100 - life` after a
      tick, and 255 against a life of at least 20 at spawn. */
  predicate PowerBounded(s: ParticleState) {
    s.power >= 100 - s.life
  }

  /** Power drops strictly on every live tick, and the bound is kept. */
  lemma PowerDecreases(s: ParticleState)
    requires s.alive && PowerBounded(s)
    ensures Step(s).power < s.power
    ensures PowerBounded(Step(s))
  {
  }

  /** A live particle whose power bound is at most `k` ticks from zero is
      dead after `k` ticks. */
  lemma {:induction false} DeadWithin(s: ParticleState, k: nat)
    requires k >= 1 && s.life + k >= 100
    ensures !Steps(s, k).alive
    decreases k
  {
    var t := Step(s);
    if !t.alive {
      DeadStaysDead(t, k - 1);
    } else {
      assert s.alive && t.life == s.life + 1;
      DeadWithin(t, k - 1);
    }
  }

  /** A live particle survives every tick while its life stays below 100. */
  lemma {:induction false} AliveFor(s: ParticleState, k: nat)
    requires s.alive && s.life + k < 100
    ensures Steps(s, k).alive && Steps(s, k).life == s.life + k
    decreases k
  {
    if k > 0 {
      var t := Step(s);
      assert t.alive && t.life == s.life + 1 by {
        YoungSurvives(s);
      }
      assert Steps(s, k) == Steps(t, k - 1);
      AliveFor(t, k - 1);
    }
  }

  /** A live particle whose life is below 99 survives its next tick. */
  lemma YoungSurvives(s: ParticleState)
    requires s.alive && s.life + 1 < 100
    ensures Step(s).alive && Step(s).life == s.life + 1
  {
  }

  /** Every spawned particle is dead after 80 ticks ... */
  lemma SpawnedDiesWithin80(pos: int, v: int)
    requires MinSpawnSpeed <= v < MaxSpawnSpeed
    ensures !Steps(Spawned(pos, v), 80).alive
  {
    DeadWithin(Spawned(pos, v), 80);
  }

  /** ... and 80 is tight: at speed -200 it is still alive after 79. */
  lemma FastestSpawnLives79(pos: int)
    ensures Steps(Spawned(pos, MinSpawnSpeed), 79).alive
  {
    AliveFor(Spawned(pos, MinSpawnSpeed), 79);
  }

  /** A particle spawned at rest starts with life 220 and dies on its first
      tick. */
  lemma RestingSpawnDiesAtOnce(pos: int)
    ensures !Step(Spawned(pos, 0)).alive && Step(Spawned(pos, 0)).pos == pos
  {
  }

  /** A particle on the track never leaves it, however many ticks pass. */
  predicate OnTrack(s: ParticleState) {
    0 <= s.pos <= TrackEnd
  }

  lemma {:induction false} StaysOnTrack(s: ParticleState, k: nat)
    requires OnTrack(s)
    ensures OnTrack(Steps(s, k))
    decreases k
  {
    if k > 0 {
      StaysOnTrack(Step(s), k - 1);
    }
  }

  /** After its first tick a particle is on the track wherever it spawned,
      and stays there. */
  lemma {:induction false} OnTrackAfterFirstTick(s: ParticleState, k: nat)
    requires s.alive && k >= 1 && Steps(s, k).alive
    ensures OnTrack(Steps(s, k))
  {
    var t := Step(s);
    if !t.alive {
      DeadStaysDead(t, k - 1);
    } else {
      StaysOnTrack(t, k - 1);
    }
  }

  class Particle {
    var pos: int
    var power: int
    var life: int
    var alive: bool
    var sp: int

    ghost function State(): ParticleState
      reads this
    {
      ParticleState(pos, sp, life, power, alive)
    }

    /** A zero-initialised slot of the particle pool: dead. */
    constructor ()
      ensures State() == ParticleState(0, 0, 0, 0, false)
    {
      pos, power, life, alive, sp := 0, 0, 0, false, 0;
    }

    /** `Spawn(pos)`; `v` is the velocity drawn by `random(-200, 200)`. */
    method Spawn(pos: int, v: int)
      requires MinSpawnSpeed <= v < MaxSpawnSpeed
      modifies this
      ensures State() == Spawned(pos, v)
    {
      this.pos := pos;
      sp := v;
      power := SpawnPower;
      alive := true;
      life := MaxLife - Abs(sp);
    }

    method Tick()
      modifies this
      ensures State() == Step(old(State()))
    {
      ghost var before := State();
      if alive {
        life := life + 1;
        if sp > 0 {
          sp := sp - TruncDiv(life, 10);
        } else {
          sp := sp + TruncDiv(life, 10);
        }
        // the gravity pull past the bend point is compiled out (USE_GRAVITY 0)
        assert sp == Friction(before.sp, life);
        power := 100 - life;
        if power <= 0 {
          Kill();
          StepKills(before, sp);
        } else {
          ghost var slowed := sp;
          ghost var moved := Advance(pos, sp);
          pos := TruncDiv(7 * pos + sp, 7);
          if pos > TrackEnd {
            pos := TrackEnd;
            sp := 0 - TruncDiv(sp, 2);
          } else if pos < 0 {
            pos := 0;
            sp := 0 - TruncDiv(sp, 2);
          }
          assert (pos, sp) == moved;
          StepMoves(before, slowed, moved);
        }
      }
    }

    method Alive() returns (a: bool)
      ensures a == alive
    {
      a := alive;
    }

    /** Marks the particle dead; nothing else changes, so a second call is a
        no-op. */
    method Kill()
      modifies this`alive
      ensures !alive
    {
      alive := false;
    }
  }
}
