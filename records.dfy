/** The records the game replicates through the shared store, as plain values.
    Field names follow the JavaScript objects they model. */
module Records {

  datatype Option<T> = None | Some(value: T)

  /** A value drawn from Math.random: a real in [0, 1). */
  type Unit = u: real | 0.0 <= u < 1.0

  /** Player ids, lobby codes, bullet push keys and pickup ids are all strings. */
  type Id = string

  datatype Vec = Vec(x: real, y: real)

  /** A player record (main.js createPlayer). Health and shield are counted in
      half-hearts: full health is 10, a full shield 6. */
  datatype Player = Player(
    id: Id,
    name: string,
    x: real, y: real,
    vx: real, vy: real,
    dir: real,
    speed: real,
    weapon: string,
    healthHalves: int,
    shieldHalves: int,
    alive: bool,
    score: int)

  /** A bullet record (main.js tryShoot); `born` is the shooter's clock in ms. */
  datatype Bullet = Bullet(x: real, y: real, vx: real, vy: real, owner: Id, damage: int, born: real)

  datatype PickupKind = Orb | Shield

  datatype Pickup = Pickup(id: Id, x: real, y: real, kind: PickupKind)

  /** The host keeps the time of its last spawn as a number under the key
      "lastSpawn" of the very map that holds the pickups, so an entry of that map
      is either a pickup or that time stamp. */
  datatype PickupSlot = Item(pickup: Pickup) | Stamp(time: real)

  const LAST_SPAWN_KEY: string := "lastSpawn"

  /** One client's input intent (main.js state.inputs). */
  datatype Inputs = Inputs(up: bool, down: bool, left: bool, right: bool, mouse: bool, mx: real, my: real)

  /** A lobby record. `startedAt` and `hostId` are absent until written. */
  datatype Lobby = Lobby(
    code: string,
    mapIndex: int,
    createdAt: real,
    started: bool,
    startedAt: Option<real>,
    hostId: Option<Id>)

  /** A local-only cosmetic particle; `life` is the remaining lifetime in ms. */
  datatype Particle = Particle(x: real, y: real, vx: real, vy: real, life: real)
}
