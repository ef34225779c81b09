/**
  `checksum_players` of `src/checksum.rs`: every frame each actor's checksum component is
  overwritten with the Fletcher checksum of a fixed 20-byte record of its state.
 */
module Checksum {
  import opened Common
  import opened Float
  import opened Round
  import opened Fletcher

  /** The record: translation x, y, z, then velocity x, y, each as four little-endian bytes. */
  function Record(pos: Vec3, vel: Velocity, le: real -> Le4): (bytes: seq<u8>)
    ensures |bytes| == 20
    ensures bytes[0..4] == le(pos.x)
    ensures bytes[4..8] == le(pos.y)
    ensures bytes[8..12] == le(pos.z)
    ensures bytes[12..16] == le(vel.x)
    ensures bytes[16..20] == le(vel.y)
  {
    le(pos.x) + le(pos.y) + le(pos.z) + le(vel.x) + le(vel.y)
  }

  /** Field k of a record is the k-th four-byte block. */
  function Field(bytes: seq<u8>, k: nat): seq<u8>
    requires 4 * k + 4 <= |bytes|
  {
    bytes[4 * k..4 * k + 4]
  }

  /** The record can be read back field by field, so two actors with different encoded
      fields have different records. */
  lemma RecordFields(pos: Vec3, vel: Velocity, le: real -> Le4)
    ensures Field(Record(pos, vel, le), 0) == le(pos.x)
    ensures Field(Record(pos, vel, le), 1) == le(pos.y)
    ensures Field(Record(pos, vel, le), 2) == le(pos.z)
    ensures Field(Record(pos, vel, le), 3) == le(vel.x)
    ensures Field(Record(pos, vel, le), 4) == le(vel.y)
  {
  }

  /** The checksum one actor's current state gets. */
  function ActorChecksum(a: Actor, le: real -> Le4): (r: u16)
    ensures r as int / 256 == Weighted(Record(a.pos, a.vel, le)) % 255
    ensures r as int % 256 == Total(Record(a.pos, a.vel, le)) % 255
  {
    Checksum16(Record(a.pos, a.vel, le))
  }

  /** `checksum_players`: every actor keeps all of its state but the checksum, which is
      replaced by the checksum of its current record. */
  function ChecksumPlayers(actors: seq<Actor>, le: real -> Le4): (r: seq<Actor>)
    ensures |r| == |actors|
    ensures forall i :: 0 <= i < |r| ==>
              r[i] == actors[i].(checksum := Checksum16(Record(actors[i].pos, actors[i].vel, le)))
  {
    seq(|actors|, i requires 0 <= i < |actors| => actors[i].(checksum := ActorChecksum(actors[i], le)))
  }

  /** The stored checksum is recomputed from scratch: the previous checksum values have no
      influence on the new ones. */
  lemma FromScratch(a1: seq<Actor>, a2: seq<Actor>, le: real -> Le4)
    requires |a1| == |a2|
    requires forall i :: 0 <= i < |a1| ==> a1[i] == a2[i].(checksum := a1[i].checksum)
    ensures ChecksumPlayers(a1, le) == ChecksumPlayers(a2, le)
  {
  }

  /** Recomputing is idempotent: a second pass changes nothing. */
  lemma ChecksumIdempotent(actors: seq<Actor>, le: real -> Le4)
    ensures ChecksumPlayers(ChecksumPlayers(actors, le), le) == ChecksumPlayers(actors, le)
  {
  }
}
