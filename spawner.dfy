/** An enemy spawner: the place, cadence, speed and direction of the enemies
    it releases, and when it was last armed. Deciding when the next enemy is
    due, and moving enemies, belong to the game loop. */
module Spawners {

  import opened Platform

  class Spawner {
    var pos: int
    var rate: int
    var sp: int
    var dir: int
    var lastSpawned: int
    var delayOnce: int
    var alive: bool

    /** A zero-initialised slot of the spawner pool: inert. */
    constructor ()
      ensures !alive
      ensures pos == 0 && rate == 0 && sp == 0 && dir == 0
      ensures lastSpawned == 0 && delayOnce == 0
    {
      pos, rate, sp, dir := 0, 0, 0, 0;
      lastSpawned, delayOnce := 0, 0;
      alive := false;
    }

    /** `Spawn`; `now` is the value `millis()` returns at the call. */
    method Spawn(pos: int, rateMs: int, speed: int, dir: int, startOffsetMs: int, now: int)
      requires IsMillis(now)
      modifies this
      ensures alive
      ensures this.pos == pos && rate == rateMs && sp == speed && this.dir == dir
      ensures delayOnce == startOffsetMs
      ensures lastSpawned == now && IsMillis(lastSpawned)
    {
      this.pos := pos;
      rate := rateMs;
      sp := speed;
      this.dir := dir;
      lastSpawned := now;
      delayOnce := startOffsetMs;
      alive := true;
    }

    /** Marks the spawner dead; every other field keeps its value, so a second
        call is a no-op. */
    method Kill()
      modifies this`alive
      ensures !alive
    {
      alive := false;
    }

    method Alive() returns (a: bool)
      ensures a == alive
    {
      a := alive;
    }
  }
}
