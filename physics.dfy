/** What one frame of main.js does to each kind of entity, stated as functions
    of the entity tables, plus the read-only scans the frame runs. The class in
    game.dfy performs these steps in place and is proved against them. */
module Physics {
  import opened Records
  import opened Rules

  /** A player's collision box is 32 x 32, centred on its position. */
  const HALF_BOX: real := 16.0
  const BOX: real := 32.0
  /** A bullet's collision box is 4 x 4, centred on its position. */
  const BULLET_HALF: real := 2.0
  const BULLET_BOX: real := 4.0
  /** A bullet hits a player whose centre is closer than 20 (squared: 400). */
  const HIT_RADIUS_SQ: real := 400.0
  /** A player collects a pickup closer than 26 (squared: 676). */
  const PICKUP_RADIUS_SQ: real := 676.0
  /** The host collects bullets older than this many ms. */
  const BULLET_TTL: real := 2000.0
  /** The host spawns a pickup at most once per this many ms. */
  const SPAWN_INTERVAL: real := 6000.0
  /** Each blood burst has this many particles. */
  const BLOOD_PARTICLES: nat := 6
  /** Math.random draws per blood particle: angle, two speeds, lifetime. */
  const DRAWS_PER_PARTICLE: nat := 4

  function Sq(a: real): real { a * a }

  // ---------------------------------------------------------------- walls

  /** Some wall of the map collides with the box (x, y, w, h). */
  predicate Blocked(walls: seq<Rect>, x: real, y: real, w: real, h: real)
  {
    exists i :: 0 <= i < |walls| && CollideRect(walls[i], x, y, w, h)
  }

  /** The bullet step's wall scan, which stops at the first wall that collides. */
  method ScanWalls(walls: seq<Rect>, x: real, y: real, w: real, h: real) returns (hit: bool)
    ensures hit <==> Blocked(walls, x, y, w, h)
  {
    hit := false;
    var i := 0;
    while i < |walls|
      invariant 0 <= i <= |walls| && !hit
      invariant forall j :: 0 <= j < i ==> !CollideRect(walls[j], x, y, w, h)
    {
      if CollideRect(walls[i], x, y, w, h) {
        hit := true;
        break;
      }
      i := i + 1;
    }
  }

  // ---------------------------------------------------------------- movement

  /** stepPlayer for one player. Only the local player moves: (dx, dy) is its
      key direction normalised and scaled by its speed, and `aim` the angle to
      the mouse. X is tried first, then Y against the already settled X; an axis
      whose step would make the box touch a wall keeps its old coordinate; both
      coordinates are then clamped into the playfield. */
  function Stepped(p: Player, local: bool, dx: real, dy: real, aim: real, walls: seq<Rect>, c: Screen): (r: Player)
    ensures InPlayfield(c, r.x, r.y)
    ensures r == p.(x := r.x, y := r.y, dir := r.dir)
    ensures !local ==> r.x == Clamp(p.x, INSET, c.width - INSET) && r.y == Clamp(p.y, INSET, c.height - INSET)
                       && r.dir == p.dir
    ensures local ==> r.dir == aim
    ensures local && Blocked(walls, p.x + dx - HALF_BOX, p.y - HALF_BOX, BOX, BOX) ==>
              r.x == Clamp(p.x, INSET, c.width - INSET)
    ensures local && Blocked(walls, r.x - HALF_BOX, p.y + dy - HALF_BOX, BOX, BOX) ==>
              r.y == Clamp(p.y, INSET, c.height - INSET)
    ensures local && !Blocked(walls, p.x + dx - HALF_BOX, p.y - HALF_BOX, BOX, BOX) ==>
              r.x == Clamp(p.x + dx, INSET, c.width - INSET)
    ensures local && !Blocked(walls, r.x - HALF_BOX, p.y + dy - HALF_BOX, BOX, BOX) ==>
              r.y == Clamp(p.y + dy, INSET, c.height - INSET)
  {
    var mx := if local then dx else 0.0;
    var my := if local then dy else 0.0;
    var nx := if Blocked(walls, p.x + mx - HALF_BOX, p.y - HALF_BOX, BOX, BOX) then p.x else p.x + mx;
    var x := Clamp(nx, INSET, c.width - INSET);
    var ny := if Blocked(walls, x - HALF_BOX, p.y + my - HALF_BOX, BOX, BOX) then p.y else p.y + my;
    var y := Clamp(ny, INSET, c.height - INSET);
    p.(x := x, y := y, dir := if local then aim else p.dir)
  }

  /** The box of a player standing at (x, y) is clear of every wall. */
  predicate Clear(walls: seq<Rect>, x: real, y: real)
  {
    !Blocked(walls, x - HALF_BOX, y - HALF_BOX, BOX, BOX)
  }

  /** Axis-separated movement never walks into a wall: a player whose box is
      clear and whose step stays inside the playfield ends the frame clear. */
  lemma StepStaysClear(p: Player, local: bool, dx: real, dy: real, aim: real, walls: seq<Rect>, c: Screen)
    requires Clear(walls, p.x, p.y) && InPlayfield(c, p.x, p.y)
    requires local ==> InPlayfield(c, p.x + dx, p.y + dy)
    ensures Clear(walls, Stepped(p, local, dx, dy, aim, walls, c).x, Stepped(p, local, dx, dy, aim, walls, c).y)
  {
    var r := Stepped(p, local, dx, dy, aim, walls, c);
    var mx := if local then dx else 0.0;
    var my := if local then dy else 0.0;
    assert InPlayfield(c, p.x + mx, p.y + my);
    var nx := if Blocked(walls, p.x + mx - HALF_BOX, p.y - HALF_BOX, BOX, BOX) then p.x else p.x + mx;
    assert r.x == nx;
    assert Clear(walls, r.x, p.y);
  }

  /** Sliding: with X blocked and Y free, the player still moves along Y. */
  lemma SlidesAlongWall(p: Player, dx: real, dy: real, aim: real, walls: seq<Rect>, c: Screen)
    requires InPlayfield(c, p.x, p.y + dy)
    requires Blocked(walls, p.x + dx - HALF_BOX, p.y - HALF_BOX, BOX, BOX)
    requires Clear(walls, p.x, p.y + dy)
    ensures Stepped(p, true, dx, dy, aim, walls, c).x == p.x
    ensures Stepped(p, true, dx, dy, aim, walls, c).y == p.y + dy
  {
  }

  // ---------------------------------------------------------------- shooting

  /** tryShoot's gate: the player is the local one, its weapon is in the table,
      the mouse is down and the cooldown has passed since the last shot. */
  predicate CanFire(p: Player, me: Id, mouse: bool, lastShoot: real, now: real)
  {
    p.id == me && p.weapon in WEAPONS && mouse && now - lastShoot >= WEAPONS[p.weapon].cooldown
  }

  /** One pellet flying along the unit vector d (cos and sin of the aim plus
      spread), starting 20 ahead of the shooter. */
  function Shot(p: Player, w: Weapon, now: real, d: Vec): (b: Bullet)
    ensures b.owner == p.id && b.damage == w.damage && b.born == now
  {
    Bullet(p.x + d.x * 20.0, p.y + d.y * 20.0, d.x * w.speed, d.y * w.speed, p.id, w.damage, now)
  }

  /** The bullets of one shot: one per pellet, the i-th flying along dirs(i). */
  function Volley(p: Player, w: Weapon, now: real, dirs: nat -> Vec): (shots: seq<Bullet>)
    ensures |shots| == w.pellets
    ensures forall i :: 0 <= i < |shots| ==>
              shots[i].owner == p.id && shots[i].damage == w.damage && shots[i].born == now
  {
    var shots := seq(w.pellets, i requires 0 <= i < w.pellets => Shot(p, w, now, dirs(i)));
    assert forall i :: 0 <= i < |shots| ==> shots[i] == Shot(p, w, now, dirs(i));
    shots
  }

  // ---------------------------------------------------------------- bullets

  /** The bullet after one frame of flight. */
  function Moved(b: Bullet): Bullet
  {
    b.(x := b.x + b.vx, y := b.y + b.vy)
  }

  /** The bullet's box touches a wall. */
  predicate InWall(walls: seq<Rect>, b: Bullet)
  {
    Blocked(walls, b.x - BULLET_HALF, b.y - BULLET_HALF, BULLET_BOX, BULLET_BOX)
  }

  /** The player `id` can be hit by bullet b of owner `owner`: it is alive, it
      is not the owner, and its centre is within 20 of the bullet. */
  predicate Hittable(players: map<Id, Player>, id: Id, owner: Id, b: Bullet)
  {
    id in players && players[id].alive && id != owner &&
    Sq(players[id].x - b.x) + Sq(players[id].y - b.y) < HIT_RADIUS_SQ
  }

  /** The first position at or after `from` in the iteration order whose player
      the bullet hits, or |order| when there is none. */
  function FirstHit(players: map<Id, Player>, order: seq<Id>, owner: Id, b: Bullet, from: nat): (j: nat)
    requires from <= |order|
    ensures from <= j <= |order|
    ensures j < |order| ==> Hittable(players, order[j], owner, b)
    ensures forall i :: from <= i < j ==> !Hittable(players, order[i], owner, b)
    decreases |order| - from
  {
    if from == |order| then from
    else if Hittable(players, order[from], owner, b) then from
    else FirstHit(players, order, owner, b, from + 1)
  }

  /** The bullet step's player scan, which stops at the first player hit. */
  method FindTarget(players: map<Id, Player>, order: seq<Id>, owner: Id, b: Bullet) returns (j: nat)
    ensures j == FirstHit(players, order, owner, b, 0)
  {
    j := 0;
    while j < |order|
      invariant j <= |order|
      invariant FirstHit(players, order, owner, b, j) == FirstHit(players, order, owner, b, 0)
    {
      var id := order[j];
      if Hittable(players, id, owner, b) {
        break;
      }
      j := j + 1;
    }
  }

  /** `order` lists every key of `players` exactly once (a for-in loop). */
  predicate Enumerates<V>(order: seq<Id>, m: map<Id, V>)
  {
    (forall i :: 0 <= i < |order| ==> order[i] in m) &&
    (forall id :: id in m ==> id in order) &&
    (forall i, j :: 0 <= i < j < |order| ==> order[i] != order[j])
  }

  datatype Fate = HitWall | HitPlayer(target: Id) | Flying

  /** What happens to a bullet in one frame: it moves; if its box then touches
      a wall it is deleted; otherwise it hits the first player in iteration
      order that it can hit, or keeps flying. */
  function BulletFate(b: Bullet, owner: Id, walls: seq<Rect>, players: map<Id, Player>, order: seq<Id>): Fate
  {
    var m := Moved(b);
    if InWall(walls, m) then HitWall
    else
      var j := FirstHit(players, order, owner, m, 0);
      if j < |order| then HitPlayer(order[j]) else Flying
  }

  /** A bullet stops at a wall exactly when its moved box touches one; a hit
      player can be hit and comes first in iteration order among those that
      can; a bullet flying on can hit nobody. */
  lemma BulletFateMeans(b: Bullet, owner: Id, walls: seq<Rect>, players: map<Id, Player>, order: seq<Id>)
    ensures var f := BulletFate(b, owner, walls, players, order);
            && (f.HitWall? <==> InWall(walls, Moved(b)))
            && (f.HitPlayer? ==>
                  && Hittable(players, f.target, owner, Moved(b))
                  && exists j :: 0 <= j < |order| && order[j] == f.target &&
                       forall i :: 0 <= i < j ==> !Hittable(players, order[i], owner, Moved(b)))
            && (f.Flying? && Enumerates(order, players) ==>
                  forall id :: id in players ==> !Hittable(players, id, owner, Moved(b)))
  {
    var f := BulletFate(b, owner, walls, players, order);
    if f.Flying? && Enumerates(order, players) {
      MissesAll(players, order, owner, Moved(b));
    }
  }

  /** A scan that finds nobody over an enumeration of the players means no
      player can be hit. */
  lemma MissesAll(players: map<Id, Player>, order: seq<Id>, owner: Id, b: Bullet)
    requires Enumerates(order, players) && FirstHit(players, order, owner, b, 0) == |order|
    ensures forall id :: id in players ==> !Hittable(players, id, owner, b)
  {
    forall id | id in players
      ensures !Hittable(players, id, owner, b)
    {
      var i :| 0 <= i < |order| && order[i] == id;
    }
  }

  /** Player records that differ at most in health, shield and `alive`, with
      neither health nor shield gone up: what bullets may do to a player. */
  predicate Wounded(before: Player, after: Player)
  {
    after == before.(healthHalves := after.healthHalves, shieldHalves := after.shieldHalves, alive := after.alive) &&
    after.healthHalves <= Max(0, before.healthHalves) &&
    after.shieldHalves <= Max(0, before.shieldHalves) &&
    (after.alive ==> before.alive)
  }

  lemma WoundedByDamage(p: Player, halves: nat)
    ensures Wounded(p, Damaged(p, halves))
  {
  }

  lemma WoundedTransitive(a: Player, b: Player, c: Player)
    requires Wounded(a, b) && Wounded(b, c)
    ensures Wounded(a, c)
  {
  }

  // ---------------------------------------------------------------- host duties

  predicate Expired(b: Bullet, now: real)
  {
    now - b.born > BULLET_TTL
  }

  /** The host's bullet collection: every bullet older than the time-to-live is
      deleted, every owner entry stays (possibly empty). */
  function Collected(bullets: map<Id, map<Id, Bullet>>, now: real): (r: map<Id, map<Id, Bullet>>)
    ensures r.Keys == bullets.Keys
    ensures forall o, k :: o in r && k in r[o] ==> k in bullets[o] && r[o][k] == bullets[o][k]
    ensures forall o, k :: o in r && k in r[o] ==> !Expired(r[o][k], now)
    ensures forall o, k :: o in bullets && k in bullets[o] && !Expired(bullets[o][k], now) ==> k in r[o]
  {
    map o | o in bullets :: Unexpired(bullets[o], now)
  }

  function Unexpired(m: map<Id, Bullet>, now: real): (r: map<Id, Bullet>)
    ensures forall k :: k in r <==> k in m && !Expired(m[k], now)
    ensures forall k :: k in r ==> r[k] == m[k]
  {
    map k | k in m && !Expired(m[k], now) :: m[k]
  }

  /** hostTick's test `!pickups.lastSpawn || now - pickups.lastSpawn > 6000`:
      an absent stamp or a stamp of 0 (falsy) is due; a pickup stored under the
      stamp's key makes the difference NaN, which is never due. */
  predicate SpawnDue(pickups: map<Id, PickupSlot>, now: real)
  {
    LAST_SPAWN_KEY !in pickups ||
    (pickups[LAST_SPAWN_KEY].Stamp? &&
     (pickups[LAST_SPAWN_KEY].time == 0.0 || now - pickups[LAST_SPAWN_KEY].time > SPAWN_INTERVAL))
  }

  /** The type roll: Math.random() < 0.6 gives an orb, anything else a shield. */
  function KindFor(roll: Unit): PickupKind
  {
    if roll < 0.6 then Orb else Shield
  }

  /** The keys the pickup pass treats as pickups. */
  function PickupKeys(pickups: map<Id, PickupSlot>): set<Id>
  {
    set k | k in pickups.Keys && k != LAST_SPAWN_KEY && pickups[k].Item?
  }

  /** A spawn: stamp the time under "lastSpawn" and store the pickup under its
      id (at most 6 characters, so never the stamp's key). */
  function WithSpawn(pickups: map<Id, PickupSlot>, now: real, pk: Pickup): (r: map<Id, PickupSlot>)
    requires |pk.id| <= 6
    ensures r.Keys == pickups.Keys + {LAST_SPAWN_KEY, pk.id}
    ensures r[LAST_SPAWN_KEY] == Stamp(now) && r[pk.id] == Item(pk)
    ensures forall k :: k in pickups && k != LAST_SPAWN_KEY && k != pk.id ==> r[k] == pickups[k]
    ensures PickupKeys(r) == PickupKeys(pickups) + {pk.id}
  {
    assert pk.id != LAST_SPAWN_KEY by { assert |LAST_SPAWN_KEY| == 9; }
    pickups[LAST_SPAWN_KEY := Stamp(now)][pk.id := Item(pk)]
  }

  /** Spawning is rate-limited: after a spawn at a nonzero time `now`, no spawn
      is due again until more than 6000 ms have passed. */
  lemma SpawnRateLimited(pickups: map<Id, PickupSlot>, now: real, pk: Pickup, later: real)
    requires |pk.id| <= 6 && now != 0.0
    ensures SpawnDue(WithSpawn(pickups, now, pk), later) <==> later - now > SPAWN_INTERVAL
  {
    assert WithSpawn(pickups, now, pk)[LAST_SPAWN_KEY] == Stamp(now);
  }

  // ---------------------------------------------------------------- pickups

  /** A player's centre is closer than 26 to the pickup. */
  predicate Touches(p: Player, pk: Pickup)
  {
    Sq(p.x - pk.x) + Sq(p.y - pk.y) < PICKUP_RADIUS_SQ
  }

  /** Some player touches pickup pk. */
  predicate Reached(players: map<Id, Player>, pk: Pickup)
  {
    exists id :: id in players && Touches(players[id], pk)
  }

  /** Pickup keys some player touches: all of them are deleted this frame. */
  function Claimed(pickups: map<Id, PickupSlot>, players: map<Id, Player>): set<Id>
  {
    set k | k in PickupKeys(pickups) && Reached(players, pickups[k].pickup)
  }

  /** The pickups of a kind that player p touches. */
  function TouchedOf(pickups: map<Id, PickupSlot>, p: Player, kind: PickupKind): set<Id>
  {
    set k | k in PickupKeys(pickups) && pickups[k].pickup.kind == kind && Touches(p, pickups[k].pickup)
  }

  /** The shield after n shield pickups, each giving min(6, s + 1). */
  function Boosted(s: int, n: nat): (r: int)
    ensures n == 0 ==> r == s
    ensures n > 0 ==> r <= MAX_SHIELD && (s < MAX_SHIELD ==> r > s)
    ensures 0 <= s <= MAX_SHIELD ==> 0 <= r <= MAX_SHIELD
  {
    if n == 0 then s else Min(MAX_SHIELD, s + n)
  }

  /** One more shield pickup on top of n. */
  lemma BoostedStep(s: int, n: nat)
    ensures Min(MAX_SHIELD, Boosted(s, n) + 1) == Boosted(s, n + 1)
  {
  }

  // ---------------------------------------------------------------- particles

  /** The j-th draw block of a blood particle: the direction comes from the
      angle draw (heading(j) is its cosine and sine), each speed component is
      1 + 2u and the lifetime 500 + 400u for the following draws. */
  function Splash(x: real, y: real, rng: nat -> Unit, heading: nat -> Vec, j: nat): (q: Particle)
    ensures q.x == x && q.y == y
    ensures 500.0 <= q.life < 900.0
  {
    Particle(x, y,
             heading(j).x * (1.0 + rng(j + 1) * 2.0),
             heading(j).y * (1.0 + rng(j + 2) * 2.0),
             500.0 + Scale(rng(j + 3), 400.0))
  }

  /** spawnBlood(x, y): six particles at (x, y), using the draws from `from` on. */
  function Blood(x: real, y: real, rng: nat -> Unit, heading: nat -> Vec, from: nat): (s: seq<Particle>)
    ensures |s| == BLOOD_PARTICLES
    ensures forall i :: 0 <= i < |s| ==> s[i].x == x && s[i].y == y && 500.0 <= s[i].life < 900.0
  {
    seq(BLOOD_PARTICLES, i requires 0 <= i < BLOOD_PARTICLES => Splash(x, y, rng, heading, from + DRAWS_PER_PARTICLE * i))
  }

  /** A particle after one frame of `dt` ms. */
  function Aged(q: Particle, dt: real): Particle
  {
    q.(x := q.x + q.vx, y := q.y + q.vy, life := q.life - dt)
  }

  /** particles.filter(p => p.life > 0), order kept. */
  function Survivors(s: seq<Particle>): (r: seq<Particle>)
    ensures |r| <= |s|
    ensures forall i :: 0 <= i < |r| ==> r[i].life > 0.0
    ensures forall q :: q in r <==> q in s && q.life > 0.0
  {
    if s == [] then []
    else
      assert s == [s[0]] + s[1..];
      (if s[0].life > 0.0 then [s[0]] else []) + Survivors(s[1..])
  }

  /** The filter keeps every particle with life left as often as it occurs, and drops the rest. */
  lemma {:induction false} SurvivorsCount(s: seq<Particle>, q: Particle)
    ensures multiset(Survivors(s))[q] == if q.life > 0.0 then multiset(s)[q] else 0
  {
    if s != [] {
      assert s == [s[0]] + s[1..];
      SurvivorsCount(s[1..], q);
    }
  }

  /** The filter keeps order: filtering a concatenation concatenates the filtered parts. */
  lemma {:induction false} SurvivorsAppend(s: seq<Particle>, t: seq<Particle>)
    ensures Survivors(s + t) == Survivors(s) + Survivors(t)
  {
    if s == [] {
      assert s + t == t;
    } else {
      var u, head := s + t, if s[0].life > 0.0 then [s[0]] else [];
      assert u[0] == s[0] && u[1..] == s[1..] + t;
      SurvivorsAppend(s[1..], t);
      calc {
        Survivors(u);
        head + Survivors(s[1..] + t);
        head + (Survivors(s[1..]) + Survivors(t));
        (head + Survivors(s[1..])) + Survivors(t);
      }
    }
  }

  /** Every particle aged by dt. */
  function AgedAll(s: seq<Particle>, dt: real): seq<Particle>
  {
    seq(|s|, i requires 0 <= i < |s| => Aged(s[i], dt))
  }

  /** Filtering keeps a sequence whose particles all have life left. */
  lemma {:induction false} AliveSurvive(s: seq<Particle>)
    requires forall i :: 0 <= i < |s| ==> s[i].life > 0.0
    ensures Survivors(s) == s
  {
    if s != [] {
      AliveSurvive(s[1..]);
      assert s == [s[0]] + s[1..];
    }
  }

  /** Particles with more than dt ms left all survive ageing by dt. */
  lemma LongLivedSurvive(s: seq<Particle>, dt: real)
    requires forall i :: 0 <= i < |s| ==> s[i].life > dt
    ensures Survivors(AgedAll(s, dt)) == AgedAll(s, dt)
  {
    AliveSurvive(AgedAll(s, dt));
  }
}
