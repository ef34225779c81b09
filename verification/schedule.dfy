/**
  The rollback schedule of `src/main.rs`: one frame runs the velocity update, then movement,
  with the frame counter increment in the same stage, and afterwards the checksum stage.
  GGRS may re-run frames during a rollback; since a frame is a function of the round state and
  the input table, a replay from the same state with the same inputs gives the same result.
 */
module Schedule {
  import opened Config
  import opened Float
  import opened Round
  import opened Checksum

  /** The rollback-registered state of a round: the frame counter and the actors. */
  datatype RoundState = RoundState(frameCount: FrameCount, actors: seq<Actor>)

  /** One rollback frame. */
  function Tick(s: RoundState, inputs: InputTable, ops: F32Ops): (r: RoundState)
    requires Covers(s.actors, inputs) && SqrtExact(ops.sqrt)
    ensures r.frameCount == IncreaseFrameCount(s.frameCount)
    ensures |r.actors| == |s.actors|
    ensures forall i :: 0 <= i < |r.actors| ==>
              && r.actors[i].handle == s.actors[i].handle
              && r.actors[i].vel == UpdateVelocity(s.actors[i].vel, inputs[s.actors[i].handle].0, ops.sqrt)
              && r.actors[i].pos == MoveActor(s.actors[i].(vel := r.actors[i].vel)).pos
              && r.actors[i].checksum == ActorChecksum(r.actors[i], ops.toLeBytes)
    ensures forall i :: 0 <= i < |r.actors| ==> InArena(r.actors[i]) && SpeedLimited(r.actors[i])
  {
    var steered := UpdateVelocities(s.actors, inputs, ops.sqrt);
    var moved := MovePlayers(steered);
    RoundState(IncreaseFrameCount(s.frameCount), ChecksumPlayers(moved, ops.toLeBytes))
  }

  /** The actor lies in the square arena, z aside. */
  predicate InArena(a: Actor) {
    -BOUNDS <= a.pos.x <= BOUNDS && -BOUNDS <= a.pos.y <= BOUNDS
  }

  predicate SpeedLimited(a: Actor) {
    SquaredSpeed(a.vel) <= MAX_SPEED * MAX_SPEED
  }

  /** Every frame's table covers every actor's handle. */
  predicate CoversAll(actors: seq<Actor>, frames: seq<InputTable>) {
    forall t :: 0 <= t < |frames| ==> Covers(actors, frames[t])
  }

  /** Two actor lists with the same handles, slot by slot. */
  predicate SameHandles(a: seq<Actor>, b: seq<Actor>) {
    |a| == |b| && forall i :: 0 <= i < |a| ==> a[i].handle == b[i].handle
  }

  lemma CoversTransfer(a: seq<Actor>, b: seq<Actor>, frames: seq<InputTable>)
    requires SameHandles(a, b) && CoversAll(a, frames)
    ensures CoversAll(b, frames)
  {
    forall t | 0 <= t < |frames|
      ensures Covers(b, frames[t])
    {
      assert Covers(a, frames[t]);
    }
  }

  /** Run one frame per input table, in order. The actor list keeps its length and handles, and
      after at least one frame every actor is in the arena and within the speed limit. */
  function RunTicks(s: RoundState, frames: seq<InputTable>, ops: F32Ops): (r: RoundState)
    requires CoversAll(s.actors, frames) && SqrtExact(ops.sqrt)
    ensures SameHandles(s.actors, r.actors)
    ensures |frames| > 0 ==> forall i :: 0 <= i < |r.actors| ==> InArena(r.actors[i]) && SpeedLimited(r.actors[i])
    decreases |frames|
  {
    if |frames| == 0 then s
    else
      var next := Tick(s, frames[0], ops);
      CoversTransfer(s.actors, next.actors, frames);
      assert CoversAll(next.actors, frames[1..]);
      RunTicks(next, frames[1..], ops)
  }

  /** Running j frames and then the rest from the intermediate state is running them all. */
  lemma {:induction false} RunTicksSplit(s: RoundState, a: seq<InputTable>, b: seq<InputTable>, ops: F32Ops)
    requires CoversAll(s.actors, a + b) && SqrtExact(ops.sqrt)
    ensures CoversAll(s.actors, a) && CoversAll(RunTicks(s, a, ops).actors, b)
    ensures RunTicks(s, a + b, ops) == RunTicks(RunTicks(s, a, ops), b, ops)
    decreases |a|
  {
    assert forall t :: 0 <= t < |a| ==> (a + b)[t] == a[t];
    assert forall t :: 0 <= t < |b| ==> (a + b)[|a| + t] == b[t];
    assert CoversAll(s.actors, a);
    assert CoversAll(s.actors, b);
    CoversTransfer(s.actors, RunTicks(s, a, ops).actors, b);
    if |a| > 0 {
      var next := Tick(s, a[0], ops);
      assert (a + b)[0] == a[0];
      assert (a + b)[1..] == a[1..] + b;
      CoversTransfer(s.actors, next.actors, a + b);
      assert CoversAll(next.actors, (a + b)[1..]);
      RunTicksSplit(next, a[1..], b, ops);
    } else {
      assert a + b == b;
    }
  }

  /** After k frames the counter has advanced by k, modulo 2^32. */
  lemma {:induction false} FrameAfterTicks(s: RoundState, frames: seq<InputTable>, ops: F32Ops)
    requires CoversAll(s.actors, frames) && SqrtExact(ops.sqrt)
    ensures RunTicks(s, frames, ops).frameCount.frame as int
              == (s.frameCount.frame as int + |frames|) % 0x1_0000_0000
    decreases |frames|
  {
    if |frames| > 0 {
      var next := Tick(s, frames[0], ops);
      CoversTransfer(s.actors, next.actors, frames);
      assert CoversAll(next.actors, frames[1..]);
      FrameAfterTicks(next, frames[1..], ops);
      var f := s.frameCount.frame as int;
      assert next.frameCount.frame as int == (f + 1) % 0x1_0000_0000;
      ModSucc(f, |frames| - 1);
    }
  }

  lemma ModSucc(f: int, k: nat)
    requires 0 <= f < 0x1_0000_0000
    ensures ((f + 1) % 0x1_0000_0000 + k) % 0x1_0000_0000 == (f + 1 + k) % 0x1_0000_0000
  {
    if f + 1 == 0x1_0000_0000 {
      assert (f + 1) % 0x1_0000_0000 == 0;
      assert f + 1 + k == 0x1_0000_0000 + k;
    }
  }

  /** A frame in which no key is held. */
  predicate Idle(inputs: InputTable) {
    forall h :: 0 <= h < |inputs| ==> inputs[h].0 == Input(0)
  }

  /** An actor at rest. */
  predicate AtRest(a: Actor) {
    a.vel == Velocity(0.0, 0.0)
  }

  /** With no key held, actors at rest inside the arena stay exactly where they are and at rest,
      however many frames run. */
  lemma {:induction false} IdleRun(s: RoundState, frames: seq<InputTable>, ops: F32Ops)
    requires CoversAll(s.actors, frames) && SqrtExact(ops.sqrt)
    requires forall t :: 0 <= t < |frames| ==> Idle(frames[t])
    requires forall i :: 0 <= i < |s.actors| ==> AtRest(s.actors[i]) && InArena(s.actors[i])
    ensures forall i :: 0 <= i < |s.actors| ==>
              var a := RunTicks(s, frames, ops).actors[i];
              AtRest(a) && a.pos == s.actors[i].pos
    decreases |frames|
  {
    if |frames| > 0 {
      var next := Tick(s, frames[0], ops);
      forall i | 0 <= i < |s.actors|
        ensures AtRest(next.actors[i]) && next.actors[i].pos == s.actors[i].pos
      {
        var a := s.actors[i];
        assert frames[0][a.handle].0 == Input(0);
        IdleStep(a, ops);
      }
      CoversTransfer(s.actors, next.actors, frames);
      assert CoversAll(next.actors, frames[1..]);
      IdleRun(next, frames[1..], ops);
    }
  }

  /** Freshly spawned players on the spawn circle are at rest inside the arena: the circle's
      radius, PLANE_SIZE / 4, is well inside BOUNDS. */
  lemma SpawnedAtRestInArena(spawnAt: nat -> (real, real))
    requires OnSpawnCircle(spawnAt)
    ensures forall i :: 0 <= i < |SpawnPlayers(spawnAt)| ==>
              AtRest(SpawnPlayers(spawnAt)[i]) && InArena(SpawnPlayers(spawnAt)[i])
  {
    var r := SpawnPlayers(spawnAt);
    forall i | 0 <= i < |r|
      ensures AtRest(r[i]) && InArena(r[i])
    {
      var (x, y) := spawnAt(i);
      CircleBound(x, y);
      CircleBound(y, x);
    }
  }

  /** A coordinate of a point on the spawn circle is at most its radius in size. */
  lemma CircleBound(x: real, y: real)
    requires x * x + y * y == SPAWN_RADIUS * SPAWN_RADIUS
    ensures -SPAWN_RADIUS <= x <= SPAWN_RADIUS
  {
  }

  /** In a round that has just been set up, the players stay at rest where they spawned for
      any number of frames in which no key is held. */
  lemma SpawnedRoundIdles(spawnAt: nat -> (real, real), frames: seq<InputTable>, ops: F32Ops)
    requires OnSpawnCircle(spawnAt) && SqrtExact(ops.sqrt)
    requires forall t :: 0 <= t < |frames| ==> |frames[t]| == NUM_PLAYERS && Idle(frames[t])
    ensures forall i :: 0 <= i < NUM_PLAYERS ==>
              var a := RunTicks(RoundState(SetupRound(), SpawnPlayers(spawnAt)), frames, ops).actors[i];
              AtRest(a) && a.pos == Vec3(spawnAt(i).0, spawnAt(i).1, 0.0)
  {
    var s := RoundState(SetupRound(), SpawnPlayers(spawnAt));
    forall t | 0 <= t < |frames|
      ensures Covers(s.actors, frames[t])
    {
      SpawnCovered(spawnAt, frames[t]);
    }
    SpawnedAtRestInArena(spawnAt);
    IdleRun(s, frames, ops);
  }

  lemma IdleStep(a: Actor, ops: F32Ops)
    requires SqrtExact(ops.sqrt) && AtRest(a) && InArena(a)
    ensures UpdateVelocity(a.vel, Input(0), ops.sqrt) == Velocity(0.0, 0.0)
    ensures MoveActor(a).pos == a.pos
  {
    assert SteerVelocity(a.vel, Input(0)) == Velocity(0.0, 0.0);
  }

  function Min(a: real, b: real): real {
    if a <= b then a else b
  }

  /** A frame in which every player holds only the up key. */
  predicate UpOnly(inputs: InputTable) {
    forall h :: 0 <= h < |inputs| ==> inputs[h].0 == Input(INPUT_UP)
  }

  /** Every frame is one in which every player holds only the up key. */
  predicate UpFrames(frames: seq<InputTable>) {
    forall t :: 0 <= t < |frames| ==> UpOnly(frames[t])
  }

  /** Every actor is inside the arena with no x speed. */
  predicate UpReady(actors: seq<Actor>) {
    forall i :: 0 <= i < |actors| ==> actors[i].vel.x == 0.0 && InArena(actors[i])
  }

  /** Slot by slot, `after` is `before` moved k steps of `MOVEMENT_SPEED` up, stopped by the
      wall, with x unchanged. */
  predicate RisenBy(before: seq<Actor>, after: seq<Actor>, k: nat) {
    && |after| == |before|
    && forall i :: 0 <= i < |before| ==>
         && after[i].pos.x == before[i].pos.x
         && after[i].pos.y == Min(before[i].pos.y + MOVEMENT_SPEED * k as real, BOUNDS)
  }

  /** Holding up from a standstill in x: each frame moves the actor `MOVEMENT_SPEED` further
      up until it stops at the arena wall; x does not change. */
  lemma {:induction false} HoldUpRun(s: RoundState, frames: seq<InputTable>, ops: F32Ops)
    requires CoversAll(s.actors, frames) && SqrtExact(ops.sqrt)
    requires UpFrames(frames) && UpReady(s.actors)
    ensures RisenBy(s.actors, RunTicks(s, frames, ops).actors, |frames|)
    decreases |frames|
  {
    if |frames| == 0 {
      assert forall i :: 0 <= i < |s.actors| ==> InArena(s.actors[i]);
    } else {
      var next := Tick(s, frames[0], ops);
      HoldUpTick(s, frames[0], ops);
      CoversTransfer(s.actors, next.actors, frames);
      assert CoversAll(next.actors, frames[1..]);
      assert UpFrames(frames[1..]) by {
        forall t | 0 <= t < |frames| - 1 ensures UpOnly(frames[1..][t]) {
          assert frames[1..][t] == frames[t + 1];
        }
      }
      var rest := RunTicks(next, frames[1..], ops);
      assert RunTicks(s, frames, ops) == rest;
      HoldUpRun(next, frames[1..], ops);
      HoldUpCombine(s.actors, next.actors, rest.actors, |frames| - 1);
    }
  }

  /** One frame up followed by k more frames up is k + 1 frames up. */
  lemma HoldUpCombine(s: seq<Actor>, next: seq<Actor>, rest: seq<Actor>, k: nat)
    requires RisenBy(s, next, 1) && RisenBy(next, rest, k)
    ensures RisenBy(s, rest, k + 1)
  {
    forall i | 0 <= i < |s|
      ensures rest[i].pos.y == Min(s[i].pos.y + MOVEMENT_SPEED * (k + 1) as real, BOUNDS)
    {
      MinShift(s[i].pos.y, k);
    }
  }

  lemma HoldUpTick(s: RoundState, inputs: InputTable, ops: F32Ops)
    requires Covers(s.actors, inputs) && SqrtExact(ops.sqrt) && UpOnly(inputs) && UpReady(s.actors)
    ensures var next := Tick(s, inputs, ops);
            RisenBy(s.actors, next.actors, 1) && UpReady(next.actors)
  {
    var next := Tick(s, inputs, ops);
    forall i | 0 <= i < |s.actors|
      ensures next.actors[i].vel.x == 0.0
      ensures next.actors[i].pos.x == s.actors[i].pos.x
      ensures next.actors[i].pos.y == Min(s.actors[i].pos.y + MOVEMENT_SPEED * 1 as real, BOUNDS)
    {
      var a := s.actors[i];
      assert inputs[a.handle].0 == Input(INPUT_UP);
      HoldUpStep(a, ops);
    }
  }

  lemma MinShift(y: real, k: nat)
    ensures Min(Min(y + MOVEMENT_SPEED, BOUNDS) + MOVEMENT_SPEED * k as real, BOUNDS)
            == Min(y + MOVEMENT_SPEED * (k + 1) as real, BOUNDS)
  {
  }

  lemma HoldUpStep(a: Actor, ops: F32Ops)
    requires SqrtExact(ops.sqrt) && a.vel.x == 0.0 && InArena(a)
    ensures UpdateVelocity(a.vel, Input(INPUT_UP), ops.sqrt) == Velocity(0.0, MOVEMENT_SPEED)
    ensures var m := MoveActor(a.(vel := Velocity(0.0, MOVEMENT_SPEED)));
            m.pos.x == a.pos.x && m.pos.y == Min(a.pos.y + MOVEMENT_SPEED, BOUNDS)
  {
    assert SteerVelocity(a.vel, Input(INPUT_UP)) == Velocity(0.0, MOVEMENT_SPEED);
  }
}
