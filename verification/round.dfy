/**
  The round of `src/round.rs`: the 4-bit input encoder, the velocity rule with its speed
  clamp, movement with the arena clamp, the frame counter, and spawning.
 */
module Round {
  import opened Common
  import opened Config
  import opened Float

  const INPUT_UP: bv8 := 0x1
  const INPUT_DOWN: bv8 := 0x2
  const INPUT_LEFT: bv8 := 0x4
  const INPUT_RIGHT: bv8 := 0x8

  const PLAYER_SIZE: real := 50.0
  const MOVEMENT_SPEED: real := 5.0
  const MAX_SPEED: real := 5.0
  const FRICTION: real := 0.9
  const PLANE_SIZE: real := 720.0
  const CUBE_SIZE: real := 0.2

  /** Half the side of the square the actors are kept in. It is computed from `CUBE_SIZE`,
      not from the sprite size `PLAYER_SIZE`. */
  const BOUNDS: real := (PLANE_SIZE - CUBE_SIZE) * 0.5

  /** The keys the encoder looks at; every other key is `Other`. */
  datatype KeyCode = W | A | S | D | Other(code: nat)

  /** One player's command for one frame: the GGRS input type, a single byte. */
  datatype Input = Input(inp: bv8)

  /** How GGRS resolved an input; the simulation never looks at it. */
  datatype InputStatus = Confirmed | Predicted | Disconnected

  /** The per-frame input table: entry h belongs to player handle h. */
  type InputTable = seq<(Input, InputStatus)>

  datatype Vec3 = Vec3(x: real, y: real, z: real)

  datatype Velocity = Velocity(x: real, y: real)

  /** A player entity: its handle, its transform translation, its velocity, and its checksum
      component. */
  datatype Actor = Actor(handle: nat, pos: Vec3, vel: Velocity, checksum: u16)

  /** The frame counter resource. */
  datatype FrameCount = FrameCount(frame: u32)

  /** Whether the bit `mask` is set in `input`. */
  predicate Held(input: Input, mask: bv8) {
    input.inp & mask != 0
  }

  /** The keys an input byte says are held. */
  function HeldKeys(input: Input): set<KeyCode> {
    (if Held(input, INPUT_UP) then {W} else {})
    + (if Held(input, INPUT_LEFT) then {A} else {})
    + (if Held(input, INPUT_DOWN) then {S} else {})
    + (if Held(input, INPUT_RIGHT) then {D} else {})
  }

  /** `input`: or-s one bit per held key into a zero byte, in the order W, A, S, D. The
      player handle is accepted and ignored. */
  function EncodeInput(handle: nat, pressed: set<KeyCode>): (r: Input)
    ensures Held(r, INPUT_UP) <==> W in pressed
    ensures Held(r, INPUT_DOWN) <==> S in pressed
    ensures Held(r, INPUT_LEFT) <==> A in pressed
    ensures Held(r, INPUT_RIGHT) <==> D in pressed
    ensures r.inp < 16
  {
    var inp: bv8 := 0;
    var inp := if W in pressed then inp | INPUT_UP else inp;
    var inp := if A in pressed then inp | INPUT_LEFT else inp;
    var inp := if S in pressed then inp | INPUT_DOWN else inp;
    var inp := if D in pressed then inp | INPUT_RIGHT else inp;
    Input(inp)
  }

  /** Decoding an encoded input gives back exactly the held movement keys, whichever handle
      asked for it. */
  lemma EncodeThenDecode(handle: nat, pressed: set<KeyCode>)
    ensures HeldKeys(EncodeInput(handle, pressed)) == pressed * {W, A, S, D}
    ensures EncodeInput(handle, pressed) == EncodeInput(0, pressed)
  {
    var r := EncodeInput(handle, pressed);
    forall k | k in pressed * {W, A, S, D}
      ensures k in HeldKeys(r)
    {
    }
  }

  /** Every byte below 16 is the encoding of the keys it decodes to. */
  lemma DecodeThenEncode(input: Input)
    requires input.inp < 16
    ensures EncodeInput(0, HeldKeys(input)) == input
  {
    var r := EncodeInput(0, HeldKeys(input));
    assert Held(r, INPUT_UP) == Held(input, INPUT_UP);
    assert Held(r, INPUT_DOWN) == Held(input, INPUT_DOWN);
    assert Held(r, INPUT_LEFT) == Held(input, INPUT_LEFT);
    assert Held(r, INPUT_RIGHT) == Held(input, INPUT_RIGHT);
    BitsDetermineNibble(r.inp, input.inp);
  }

  lemma BitsDetermineNibble(a: bv8, b: bv8)
    requires a < 16 && b < 16
    requires (a & 1 != 0) == (b & 1 != 0) && (a & 2 != 0) == (b & 2 != 0)
    requires (a & 4 != 0) == (b & 4 != 0) && (a & 8 != 0) == (b & 8 != 0)
    ensures a == b
  {
  }

  /** One velocity component under one pair of opposite keys: set (not added) when exactly one
      is held, damped by friction when neither is, left alone when both are. */
  function AxisRule(c: real, plus: bool, minus: bool): (r: real)
    ensures plus && !minus ==> r == MOVEMENT_SPEED
    ensures !plus && minus ==> r == -MOVEMENT_SPEED
    ensures !plus && !minus ==> r == c * FRICTION
    ensures plus && minus ==> r == c
  {
    var c := if plus && !minus then MOVEMENT_SPEED else c;
    var c := if !plus && minus then -MOVEMENT_SPEED else c;
    if !plus && !minus then c * FRICTION else c
  }

  /** The key part of `update_velocities`: up/down drive `y`, right/left drive `x`. */
  function SteerVelocity(v: Velocity, input: Input): (r: Velocity)
    ensures r.y == AxisRule(v.y, Held(input, INPUT_UP), Held(input, INPUT_DOWN))
    ensures r.x == AxisRule(v.x, Held(input, INPUT_RIGHT), Held(input, INPUT_LEFT))
  {
    Velocity(
      AxisRule(v.x, Held(input, INPUT_RIGHT), Held(input, INPUT_LEFT)),
      AxisRule(v.y, Held(input, INPUT_UP), Held(input, INPUT_DOWN)))
  }

  /** Holding both keys of an axis keeps that component, unlike holding neither. */
  lemma OppositeKeysKeepComponent(v: Velocity)
    ensures SteerVelocity(v, Input(INPUT_UP | INPUT_DOWN)).y == v.y
    ensures v.y != 0.0 ==> SteerVelocity(v, Input(0)).y != v.y
    ensures SteerVelocity(v, Input(INPUT_LEFT | INPUT_RIGHT)).x == v.x
    ensures v.x != 0.0 ==> SteerVelocity(v, Input(0)).x != v.x
  {
  }

  function SquaredSpeed(v: Velocity): real {
    v.x * v.x + v.y * v.y
  }

  /** The speed clamp: above `MAX_SPEED` both components are scaled by `MAX_SPEED / mag`,
      which keeps the direction and lands exactly on `MAX_SPEED`; otherwise nothing changes. */
  function ClampSpeed(v: Velocity, sqrt: real -> real): (r: Velocity)
    requires SqrtExact(sqrt)
    ensures SquaredSpeed(r) <= MAX_SPEED * MAX_SPEED
    ensures SquaredSpeed(v) <= MAX_SPEED * MAX_SPEED ==> r == v
    ensures SquaredSpeed(v) > MAX_SPEED * MAX_SPEED ==>
              && SquaredSpeed(r) == MAX_SPEED * MAX_SPEED
              && r.x * v.y == r.y * v.x
              && r.x * v.x + r.y * v.y > 0.0
  {
    var s := SquaredSpeed(v);
    assert 0.0 <= s by { SquaresNonNegative(v); }
    var mag := sqrt(s);
    if mag > MAX_SPEED then
      var factor := MAX_SPEED / mag;
      ScaledToMaxSpeed(v, mag, factor);
      Velocity(v.x * factor, v.y * factor)
    else
      assert s <= MAX_SPEED * MAX_SPEED by { RootBound(s, mag); }
      v
  }

  lemma SquaresNonNegative(v: Velocity)
    ensures 0.0 <= SquaredSpeed(v)
  {
    assert 0.0 <= v.x * v.x;
    assert 0.0 <= v.y * v.y;
  }

  lemma RootBound(s: real, mag: real)
    requires 0.0 <= mag && mag * mag == s && mag <= MAX_SPEED
    ensures s <= MAX_SPEED * MAX_SPEED
  {
    calc {
      s;
    ==
      mag * mag;
    <=
      mag * MAX_SPEED;
    <=
      MAX_SPEED * MAX_SPEED;
    }
  }

  lemma ScaledToMaxSpeed(v: Velocity, mag: real, factor: real)
    requires mag > MAX_SPEED && mag * mag == SquaredSpeed(v) && factor == MAX_SPEED / mag
    ensures SquaredSpeed(Velocity(v.x * factor, v.y * factor)) == MAX_SPEED * MAX_SPEED
    ensures SquaredSpeed(v) > MAX_SPEED * MAX_SPEED
    ensures (v.x * factor) * v.y == (v.y * factor) * v.x
    ensures (v.x * factor) * v.x + (v.y * factor) * v.y > 0.0
  {
    assert factor * mag == MAX_SPEED;
    assert factor > 0.0;
    calc {
      SquaredSpeed(Velocity(v.x * factor, v.y * factor));
      (v.x * factor) * (v.x * factor) + (v.y * factor) * (v.y * factor);
      factor * factor * (v.x * v.x + v.y * v.y);
      factor * factor * (mag * mag);
      (factor * mag) * (factor * mag);
    }
    assert mag * mag > MAX_SPEED * MAX_SPEED by {
      assert mag * mag > mag * MAX_SPEED;
      assert mag * MAX_SPEED > MAX_SPEED * MAX_SPEED;
    }
    assert (v.x * factor) * v.x + (v.y * factor) * v.y == factor * SquaredSpeed(v);
  }

  /** Clamping twice is clamping once: a clamped velocity is already within the limit. */
  lemma ClampSpeedIdempotent(v: Velocity, sqrt: real -> real)
    requires SqrtExact(sqrt)
    ensures ClampSpeed(ClampSpeed(v, sqrt), sqrt) == ClampSpeed(v, sqrt)
  {
  }

  /** The whole per-actor velocity update: key rule, then speed clamp. */
  function UpdateVelocity(v: Velocity, input: Input, sqrt: real -> real): (r: Velocity)
    requires SqrtExact(sqrt)
    ensures SquaredSpeed(r) <= MAX_SPEED * MAX_SPEED
  {
    ClampSpeed(SteerVelocity(v, input), sqrt)
  }

  /** Every actor's handle indexes the input table. */
  predicate Covers(actors: seq<Actor>, inputs: InputTable) {
    forall i :: 0 <= i < |actors| ==> actors[i].handle < |inputs|
  }

  /** `update_velocities`: each actor reads the input at its own handle and changes only its
      velocity. */
  function UpdateVelocities(actors: seq<Actor>, inputs: InputTable, sqrt: real -> real): (r: seq<Actor>)
    requires Covers(actors, inputs) && SqrtExact(sqrt)
    ensures |r| == |actors|
    ensures forall i :: 0 <= i < |r| ==>
              r[i] == actors[i].(vel := UpdateVelocity(actors[i].vel, inputs[actors[i].handle].0, sqrt))
    ensures forall i :: 0 <= i < |r| ==> SquaredSpeed(r[i].vel) <= MAX_SPEED * MAX_SPEED
  {
    seq(|actors|, i requires 0 <= i < |actors| =>
      actors[i].(vel := UpdateVelocity(actors[i].vel, inputs[actors[i].handle].0, sqrt)))
  }

  /** The status half of every input pair is never consulted: two tables that agree on the
      inputs give the same velocities. */
  lemma StatusIgnored(actors: seq<Actor>, t1: InputTable, t2: InputTable, sqrt: real -> real)
    requires Covers(actors, t1) && Covers(actors, t2) && SqrtExact(sqrt)
    requires |t1| == |t2| && forall h :: 0 <= h < |t1| ==> t1[h].0 == t2[h].0
    ensures UpdateVelocities(actors, t1, sqrt) == UpdateVelocities(actors, t2, sqrt)
  {
  }

  /** `f32::clamp`. */
  function Clamp(x: real, lo: real, hi: real): (r: real)
    requires lo <= hi
    ensures lo <= r <= hi
    ensures lo <= x <= hi ==> r == x
    ensures x < lo ==> r == lo
    ensures x > hi ==> r == hi
  {
    if x < lo then lo else if x > hi then hi else x
  }

  /** `move_players` for one actor: add the velocity to x and y, then clamp each to the arena. */
  function MoveActor(a: Actor): (r: Actor)
    ensures r == a.(pos := r.pos)
    ensures r.pos.z == a.pos.z
    ensures -BOUNDS <= r.pos.x <= BOUNDS && -BOUNDS <= r.pos.y <= BOUNDS
    ensures -BOUNDS <= a.pos.x + a.vel.x <= BOUNDS ==> r.pos.x == a.pos.x + a.vel.x
    ensures -BOUNDS <= a.pos.y + a.vel.y <= BOUNDS ==> r.pos.y == a.pos.y + a.vel.y
    ensures a.pos.x + a.vel.x > BOUNDS ==> r.pos.x == BOUNDS
    ensures a.pos.x + a.vel.x < -BOUNDS ==> r.pos.x == -BOUNDS
    ensures a.pos.y + a.vel.y > BOUNDS ==> r.pos.y == BOUNDS
    ensures a.pos.y + a.vel.y < -BOUNDS ==> r.pos.y == -BOUNDS
  {
    var x := Clamp(a.pos.x + a.vel.x, -BOUNDS, BOUNDS);
    var y := Clamp(a.pos.y + a.vel.y, -BOUNDS, BOUNDS);
    a.(pos := Vec3(x, y, a.pos.z))
  }

  function MovePlayers(actors: seq<Actor>): (r: seq<Actor>)
    ensures |r| == |actors|
    ensures forall i :: 0 <= i < |r| ==> r[i] == MoveActor(actors[i])
  {
    seq(|actors|, i requires 0 <= i < |actors| => MoveActor(actors[i]))
  }

  /** Because the bound comes from `CUBE_SIZE`, an actor driven into a wall stops with its
      centre almost on the edge of the plane, so part of its sprite hangs over the edge. */
  lemma WallOverhang(a: Actor)
    requires a.pos.x + a.vel.x >= BOUNDS
    ensures MoveActor(a).pos.x == BOUNDS
    ensures MoveActor(a).pos.x + PLAYER_SIZE / 2.0 > PLANE_SIZE / 2.0
  {
  }

  /** `increase_frame_count`: `frame += 1` on a u32, wrapping past `u32::MAX`. */
  function IncreaseFrameCount(f: FrameCount): (r: FrameCount)
    ensures f.frame < U32_MAX ==> r.frame as int == f.frame as int + 1
    ensures f.frame == U32_MAX ==> r.frame == 0
  {
    FrameCount(((f.frame as int + 1) % 0x1_0000_0000) as u32)
  }

  /** `setup_round`: a fresh frame counter. */
  function SetupRound(): (r: FrameCount)
    ensures r.frame == 0
  {
    FrameCount(0)
  }

  /** Player i sits in slot i: the handles are exactly 0..n-1, in order. */
  predicate HandlesAreSlots(actors: seq<Actor>) {
    forall i :: 0 <= i < |actors| ==> actors[i].handle == i
  }

  /** `spawn_players`: one actor per handle 0..NUM_PLAYERS-1, at rest, on the plane z = 0, at
      the spawn point `spawnAt` gives for its handle, with a default checksum. */
  function SpawnPlayers(spawnAt: nat -> (real, real)): (r: seq<Actor>)
    ensures |r| == NUM_PLAYERS
    ensures HandlesAreSlots(r)
    ensures forall i :: 0 <= i < |r| ==>
              && r[i].vel == Velocity(0.0, 0.0)
              && r[i].pos == Vec3(spawnAt(i).0, spawnAt(i).1, 0.0)
              && r[i].checksum == 0
  {
    seq(NUM_PLAYERS, h requires 0 <= h < NUM_PLAYERS => Actor(h, Vec3(spawnAt(h).0, spawnAt(h).1, 0.0), Velocity(0.0, 0.0), 0))
  }

  /** The radius of the circle `spawn_players` places the players on. */
  const SPAWN_RADIUS: real := PLANE_SIZE / 4.0

  /** A spawn function that puts every handle on the spawn circle, as `r·cos θ, r·sin θ`
      does. */
  predicate OnSpawnCircle(spawnAt: nat -> (real, real)) {
    forall h: nat :: h < NUM_PLAYERS ==>
      spawnAt(h).0 * spawnAt(h).0 + spawnAt(h).1 * spawnAt(h).1 == SPAWN_RADIUS * SPAWN_RADIUS
  }

  /** Spawned actors fit the input table GGRS hands out, one entry per player. */
  lemma SpawnCovered(spawnAt: nat -> (real, real), inputs: InputTable)
    requires |inputs| == NUM_PLAYERS
    ensures Covers(SpawnPlayers(spawnAt), inputs)
  {
  }
}
