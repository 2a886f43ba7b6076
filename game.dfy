/** The client's simulation state (the `state` object of main.js) and the
    frame steps that update it in place. Writes the client hands to the shared
    store are appended to `outbox`, in the order main.js issues them. */
module Game {
  import opened Records
  import opened Rules
  import opened Physics

  /** A fire-and-forget write to the shared store. */
  datatype Publish =
    | SetPlayer(id: Id, player: Player)
    | PushBullet(owner: Id, bullet: Bullet)
    | WritePickups(pickups: map<Id, PickupSlot>)

  /** One pushBullet per bullet, in order. */
  function Pushes(owner: Id, shots: seq<Bullet>): (w: seq<Publish>)
    ensures |w| == |shots|
    ensures forall i :: 0 <= i < |w| ==> w[i] == PushBullet(owner, shots[i])
  {
    seq(|shots|, i requires 0 <= i < |shots| => PushBullet(owner, shots[i]))
  }

  /** Pushing two volleys one after the other writes the pushes of each, in order. */
  lemma PushesAppend(owner: Id, a: seq<Bullet>, b: seq<Bullet>)
    ensures Pushes(owner, a + b) == Pushes(owner, a) + Pushes(owner, b)
  {
    var w := Pushes(owner, a) + Pushes(owner, b);
    forall i | 0 <= i < |a| + |b|
      ensures Pushes(owner, a + b)[i] == w[i]
    {
      if i >= |a| {
        assert w[i] == Pushes(owner, b)[i - |a|];
      }
    }
  }

  /** The pickup table of the most recent writePickups in `out`, if any. */
  function LatestPickups(out: seq<Publish>): Option<map<Id, PickupSlot>>
  {
    if out == [] then None
    else if out[|out| - 1].WritePickups? then Some(out[|out| - 1].pickups)
    else LatestPickups(out[..|out| - 1])
  }

  lemma LatestAfterWrite(out: seq<Publish>, m: map<Id, PickupSlot>)
    ensures LatestPickups(out + [WritePickups(m)]) == Some(m)
  {
  }

  /** The record of the most recent setPlayer for id in `out`, if any. */
  function LatestRecord(out: seq<Publish>, id: Id): Option<Player>
  {
    if out == [] then None
    else if out[|out| - 1].SetPlayer? && out[|out| - 1].id == id then Some(out[|out| - 1].player)
    else LatestRecord(out[..|out| - 1], id)
  }

  /** Every setPlayer in `out` from position `from` on publishes the local player. */
  predicate LocalRecordsFrom(out: seq<Publish>, from: nat, me: Id)
  {
    forall i :: from <= i < |out| && out[i].SetPlayer? ==> out[i].id == me
  }

  /** The writes of one pickup claim by player id, now p, leaving table m: the
      player's record when it is the local one, then the table. */
  function ClaimWrites(id: Id, me: Id, p: Player, m: map<Id, PickupSlot>): seq<Publish>
  {
    (if id == me then [SetPlayer(id, p)] else []) + [WritePickups(m)]
  }

  /** The writes appended to out0 that make out: only the local player's
      record is ever published, and the local player's latest record is
      `mine` when given, and otherwise what it was in out0. */
  predicate WritesSince(out0: seq<Publish>, out: seq<Publish>, me: Id, mine: Option<Player>)
  {
    && out0 <= out
    && LocalRecordsFrom(out, |out0|, me)
    && LatestRecord(out, me) == (if mine.Some? then mine else LatestRecord(out0, me))
  }

  lemma RecordAfterTable(out: seq<Publish>, m: map<Id, PickupSlot>, id: Id)
    ensures LatestRecord(out + [WritePickups(m)], id) == LatestRecord(out, id)
  {
    assert (out + [WritePickups(m)])[..|out|] == out;
  }

  lemma RecordAfterRecord(out: seq<Publish>, j: Id, p: Player, id: Id)
    ensures LatestRecord(out + [SetPlayer(j, p)], id) == if j == id then Some(p) else LatestRecord(out, id)
  {
    assert (out + [SetPlayer(j, p)])[..|out|] == out;
  }

  /** The players of the claim loop for pickup pk, the keys in `todo` not yet
      visited: those are untouched, the others have had their effect. */
  predicate PickedSoFar(players0: map<Id, Player>, players: map<Id, Player>, todo: set<Id>, pk: Pickup)
  {
    && todo <= players.Keys && players.Keys == players0.Keys
    && (forall id :: id in todo ==> players[id] == players0[id])
    && (forall id :: id in players && id !in todo ==> PickedUp(players0[id], players[id], pk))
  }

  /** Visiting player id keeps PickedSoFar. */
  lemma PickedStep(players0: map<Id, Player>, before: map<Id, Player>, after: map<Id, Player>, todo: set<Id>, id: Id, pk: Pickup)
    requires PickedSoFar(players0, before, todo, pk) && id in todo
    requires after.Keys == before.Keys && forall i :: i in after && i != id ==> after[i] == before[i]
    requires PickedUp(players0[id], after[id], pk)
    ensures PickedSoFar(players0, after, todo - {id}, pk)
  {
  }

  /** The local player's record as the claim loop for pk leaves it, when the
      local player has been visited (is not in `todo`) and touched pk. */
  function LocalClaim(players0: map<Id, Player>, players: map<Id, Player>, todo: set<Id>, pk: Pickup, me: Id): Option<Player>
  {
    if me in players0 && me in players && me !in todo && Touches(players0[me], pk) then Some(players[me]) else None
  }

  /** One pickup key k of the pickup pass, as far as the writes go: the
      claim loop's writes extend the pass's, and the local record is the
      current one when the local player has touched k or an earlier key. */
  lemma PassWritesStep(pickups0: map<Id, PickupSlot>, players0: map<Id, Player>, before: map<Id, Player>,
                       after: map<Id, Player>, out0: seq<Publish>, out: seq<Publish>, out2: seq<Publish>,
                       me: Id, done: set<Id>, k: Id)
    requires k in PickupKeys(pickups0)
    requires before.Keys == players0.Keys && after.Keys == players0.Keys
    requires me in players0 ==> before[me].x == players0[me].x && before[me].y == players0[me].y
    requires me in players0 ==> PickedUp(before[me], after[me], pickups0[k].pickup)
    requires WritesSince(out0, out, me, LocalPass(pickups0, players0, before, done, me))
    requires WritesSince(out, out2, me, LocalClaim(before, after, {}, pickups0[k].pickup, me))
    ensures WritesSince(out0, out2, me, LocalPass(pickups0, players0, after, done + {k}, me))
  {
    var pk := pickups0[k].pickup;
    WritesSinceChain(out0, out, out2, me, LocalPass(pickups0, players0, before, done, me), LocalClaim(before, after, {}, pk, me));
    if me in players0 {
      TouchesSomeGrow(pickups0, players0[me], done, k);
      assert Touches(before[me], pk) == Touches(players0[me], pk);
    }
  }

  /** Writes since a and then since b are writes since a; the local record
      is the later one when the later writes publish one. */
  lemma WritesSinceChain(a: seq<Publish>, b: seq<Publish>, c: seq<Publish>, me: Id, x: Option<Player>, y: Option<Player>)
    requires WritesSince(a, b, me, x) && WritesSince(b, c, me, y)
    ensures WritesSince(a, c, me, if y.Some? then y else x)
  {
    forall i | |a| <= i < |c| && c[i].SetPlayer?
      ensures c[i].id == me
    {
      if i < |b| {
        assert c[i] == b[i];
      }
    }
  }

  /** Some pickup among the keys in `done` that p touches. */
  predicate TouchesSome(pickups: map<Id, PickupSlot>, p: Player, done: set<Id>)
  {
    exists k :: k in done && k in PickupKeys(pickups) && Touches(p, pickups[k].pickup)
  }

  lemma TouchesSomeGrow(pickups: map<Id, PickupSlot>, p: Player, done: set<Id>, k: Id)
    ensures TouchesSome(pickups, p, done + {k}) <==>
            TouchesSome(pickups, p, done) || (k in PickupKeys(pickups) && Touches(p, pickups[k].pickup))
  {
    if TouchesSome(pickups, p, done + {k}) {
      var j :| j in done + {k} && j in PickupKeys(pickups) && Touches(p, pickups[j].pickup);
      if j != k {
        assert j in done;
      }
    }
    if TouchesSome(pickups, p, done) {
      var j :| j in done && j in PickupKeys(pickups) && Touches(p, pickups[j].pickup);
      assert j in done + {k};
    }
    if k in PickupKeys(pickups) && Touches(p, pickups[k].pickup) {
      assert k in done + {k};
    }
  }

  /** The local player's record as the pickup pass leaves it, when the local
      player touched one of the pickups under the keys in `done`. */
  function LocalPass(pickups0: map<Id, PickupSlot>, players0: map<Id, Player>, players: map<Id, Player>, done: set<Id>, me: Id): Option<Player>
  {
    if me in players0 && me in players && TouchesSome(pickups0, players0[me], done) then Some(players[me]) else None
  }

  /** A claim's writes keep WritesSince, with the claimer's new record as the
      local one when the claimer is local, and leave the claim's table last. */
  lemma ClaimStep(out0: seq<Publish>, out: seq<Publish>, me: Id, mine: Option<Player>, id: Id, p: Player, m: map<Id, PickupSlot>)
    requires WritesSince(out0, out, me, mine)
    ensures WritesSince(out0, out + ClaimWrites(id, me, p, m), me, if id == me then Some(p) else mine)
    ensures LatestPickups(out + ClaimWrites(id, me, p, m)) == Some(m)
  {
    var mid := out + (if id == me then [SetPlayer(id, p)] else []);
    assert out + ClaimWrites(id, me, p, m) == mid + [WritePickups(m)];
    if id == me {
      RecordAfterRecord(out, id, p, me);
    } else {
      assert mid == out;
    }
    RecordAfterTable(mid, m, me);
    LatestAfterWrite(mid, m);
  }

  /** What the pickup pass may do to player p (now q) for pickup pk: nothing
      unless p touches it; a shield adds one half up to 6; an orb hands out a
      weapon of the upgrade pool. */
  predicate PickedUp(p: Player, q: Player, pk: Pickup)
  {
    && q == p.(weapon := q.weapon, shieldHalves := q.shieldHalves)
    && (!Touches(p, pk) ==> q == p)
    && (Touches(p, pk) && pk.kind == Shield ==> q.shieldHalves == Min(MAX_SHIELD, p.shieldHalves + 1) && q.weapon == p.weapon)
    && (Touches(p, pk) && pk.kind == Orb ==> q.weapon in UPGRADE_POOL && q.shieldHalves == p.shieldHalves)
  }

  /** A bullet that is clear of every wall and of every player it could hit. */
  predicate Cleared(b: Bullet, owner: Id, walls: seq<Rect>, players: map<Id, Player>)
  {
    !InWall(walls, b) && forall id :: id in players ==> !Hittable(players, id, owner, b)
  }

  /** The table `after` is `before` with some players wounded. */
  predicate AllWounded(before: map<Id, Player>, after: map<Id, Player>)
  {
    after.Keys == before.Keys && forall id :: id in after ==> Wounded(before[id], after[id])
  }

  lemma AllWoundedSelf(m: map<Id, Player>)
    ensures AllWounded(m, m)
  {
  }

  lemma DamageWounds(m: map<Id, Player>, id: Id, halves: nat)
    requires id in m
    ensures AllWounded(m, m[id := Damaged(m[id], halves)])
  {
    WoundedByDamage(m[id], halves);
  }

  lemma WoundedChain(a: map<Id, Player>, b: map<Id, Player>, c: map<Id, Player>)
    requires AllWounded(a, b) && AllWounded(b, c)
    ensures AllWounded(a, c)
  {
    forall id | id in c
      ensures Wounded(a[id], c[id])
    {
      WoundedTransitive(a[id], b[id], c[id]);
    }
  }

  /** Two tables with the same players at the same places reach the same pickups. */
  lemma SamePlaces(a: map<Id, Player>, b: map<Id, Player>, pk: Pickup)
    requires a.Keys == b.Keys
    requires forall id :: id in a ==> a[id].x == b[id].x && a[id].y == b[id].y
    ensures Reached(a, pk) <==> Reached(b, pk)
  {
    if Reached(a, pk) {
      var id :| id in a && Touches(a[id], pk);
      assert Touches(b[id], pk);
    }
    if Reached(b, pk) {
      var id :| id in b && Touches(b[id], pk);
      assert Touches(a[id], pk);
    }
  }

  /** Wounds move nobody and revive nobody, so a bullet clear of the players
      before is clear of them after. */
  lemma ClearedStays(b: Bullet, owner: Id, walls: seq<Rect>, before: map<Id, Player>, after: map<Id, Player>)
    requires AllWounded(before, after)
    requires Cleared(b, owner, walls, before)
    ensures Cleared(b, owner, walls, after)
  {
    forall id | id in after
      ensures !Hittable(after, id, owner, b)
    {
      assert !Hittable(before, id, owner, b);
      assert after[id].x == before[id].x && after[id].y == before[id].y;
    }
  }

  /** The draws one bullet hit on v uses up: a burst of six particles for the
      hit, and another before it when the hit kills. */
  function HitDraws(v: Player): nat
  {
    if Kills(v, 1) then 2 * BLOOD_PARTICLES * DRAWS_PER_PARTICLE else BLOOD_PARTICLES * DRAWS_PER_PARTICLE
  }

  /** The blood of one bullet hit on v, from draw `from` on: the death burst
      first when the hit kills, then the hit's own burst, every particle at v
      and four draws each. */
  function HitBlood(v: Player, rng: nat -> Unit, heading: nat -> Vec, from: nat): (s: seq<Particle>)
    ensures |s| * DRAWS_PER_PARTICLE == HitDraws(v)
    ensures forall i :: 0 <= i < |s| ==> s[i].x == v.x && s[i].y == v.y
  {
    var dead := Kills(v, 1);
    (if dead then Blood(v.x, v.y, rng, heading, from) else [])
    + Blood(v.x, v.y, rng, heading, from + if dead then BLOOD_PARTICLES * DRAWS_PER_PARTICLE else 0)
  }

  /** A bullet whose moved box is clear of the walls and of every player flies on. */
  lemma ClearedFlies(b: Bullet, owner: Id, walls: seq<Rect>, players: map<Id, Player>, order: seq<Id>)
    requires Cleared(Moved(b), owner, walls, players)
    ensures BulletFate(b, owner, walls, players, order) == Flying
  {
    var j := FirstHit(players, order, owner, Moved(b), 0);
    if j < |order| {
      assert false;
    }
  }

  /** Every bullet in `list` is one of `start` moved one frame, and is clear of
      the walls and of every player it could hit. */
  predicate SteppedClear(start: map<Id, Bullet>, list: map<Id, Bullet>, o: Id, walls: seq<Rect>, players: map<Id, Player>)
  {
    forall k :: k in list ==> k in start && list[k] == Moved(start[k]) && Cleared(list[k], o, walls, players)
  }

  lemma SteppedClearStays(start: map<Id, Bullet>, list: map<Id, Bullet>, o: Id, walls: seq<Rect>,
                          before: map<Id, Player>, after: map<Id, Player>)
    requires AllWounded(before, after) && SteppedClear(start, list, o, walls, before)
    ensures SteppedClear(start, list, o, walls, after)
  {
    forall k | k in list
      ensures Cleared(list[k], o, walls, after)
    {
      ClearedStays(list[k], o, walls, before, after);
    }
  }

  /** The keys of `list` whose bullet, once moved, is clear of the walls and of
      every player it could hit. */
  function ClearKeys(list: map<Id, Bullet>, o: Id, walls: seq<Rect>, players: map<Id, Player>): (r: set<Id>)
    ensures forall k :: k in r <==> k in list && Cleared(Moved(list[k]), o, walls, players)
  {
    set k | k in list && Cleared(Moved(list[k]), o, walls, players)
  }

  /** Wounds only shrink the set of players a bullet can hit, so the clear keys
      before are clear after. */
  lemma ClearKeysStay(list: map<Id, Bullet>, o: Id, walls: seq<Rect>, before: map<Id, Player>, after: map<Id, Player>)
    requires AllWounded(before, after)
    ensures ClearKeys(list, o, walls, before) <= ClearKeys(list, o, walls, after)
  {
    forall k | k in ClearKeys(list, o, walls, before)
      ensures k in ClearKeys(list, o, walls, after)
    {
      ClearedStays(Moved(list[k]), o, walls, before, after);
    }
  }

  /** One key of the per-owner bullet loop: the keys already stepped stay moved
      and clear while the players are wounded, and the key just stepped joins them. */
  lemma OwnerStep(start: map<Id, Bullet>, list: map<Id, Bullet>, after: map<Id, Bullet>, keys: set<Id>, k: Id,
                  o: Id, walls: seq<Rect>, before: map<Id, Player>, players: map<Id, Player>)
    requires list.Keys <= start.Keys
    requires forall k' :: k' in list && k' !in keys ==> list[k'] == Moved(start[k']) && Cleared(list[k'], o, walls, before)
    requires AllWounded(before, players)
    requires k in keys && k in start && k in list && list[k] == start[k]
    requires after.Keys <= list.Keys
    requires forall k' :: k' in after && k' != k ==> after[k'] == list[k']
    requires k in after ==> after[k] == Moved(list[k]) && Cleared(after[k], o, walls, players)
    ensures forall k' :: k' in after && k' !in keys - {k} ==> after[k'] == Moved(start[k']) && Cleared(after[k'], o, walls, players)
  {
    forall k' | k' in after && k' !in keys - {k}
      ensures after[k'] == Moved(start[k']) && Cleared(after[k'], o, walls, players)
    {
      if k' != k {
        ClearedStays(list[k'], o, walls, before, players);
      }
    }
  }

  /** One owner of the outer bullet loop: the owners already stepped stay
      stepped and clear while the players are wounded, and keep their clear
      keys; the owner just stepped joins them. */
  lemma OwnersStep(start: map<Id, map<Id, Bullet>>, table: map<Id, map<Id, Bullet>>, after: map<Id, map<Id, Bullet>>,
                   owners: set<Id>, o: Id, walls: seq<Rect>,
                   players0: map<Id, Player>, before: map<Id, Player>, players: map<Id, Player>)
    requires table.Keys == start.Keys && o in owners && o in table && table[o] == start[o]
    requires forall o' :: o' in table && o' !in owners ==> SteppedClear(start[o'], table[o'], o', walls, before)
    requires forall o' :: o' in start && o' !in owners ==> ClearKeys(start[o'], o', walls, players0) <= table[o'].Keys
    requires AllWounded(players0, before) && AllWounded(before, players)
    requires o in after && after == table[o := after[o]]
    requires SteppedClear(table[o], after[o], o, walls, players)
    requires ClearKeys(table[o], o, walls, before) <= after[o].Keys
    ensures forall o' :: o' in after && o' !in owners - {o} ==> SteppedClear(start[o'], after[o'], o', walls, players)
    ensures forall o' :: o' in start && o' !in owners - {o} ==> ClearKeys(start[o'], o', walls, players0) <= after[o'].Keys
  {
    ClearKeysStay(start[o], o, walls, players0, before);
    forall o' | o' in after && o' !in owners
      ensures SteppedClear(start[o'], after[o'], o', walls, players)
    {
      SteppedClearStays(start[o'], table[o'], o', walls, before, players);
    }
  }

  /** The pickups of a kind that player p touches, among the keys in `done`. */
  function TouchedIn(pickups: map<Id, PickupSlot>, p: Player, kind: PickupKind, done: set<Id>): set<Id>
  {
    set k | k in done && k in PickupKeys(pickups) && pickups[k].pickup.kind == kind && Touches(p, pickups[k].pickup)
  }

  /** The claimed pickup keys among the keys in `done`. */
  function ClaimedIn(pickups: map<Id, PickupSlot>, players: map<Id, Player>, done: set<Id>): set<Id>
  {
    set k | k in done && k in PickupKeys(pickups) && Reached(players, pickups[k].pickup)
  }

  /** Once every key is visited, the counts are the whole pass's. */
  lemma AllVisited(pickups: map<Id, PickupSlot>, players: map<Id, Player>)
    ensures ClaimedIn(pickups, players, pickups.Keys) == Claimed(pickups, players)
    ensures forall p: Player, kind :: TouchedIn(pickups, p, kind, pickups.Keys) == TouchedOf(pickups, p, kind)
  {
  }

  /** Visiting key k out of `todo` moves it to the visited keys. */
  lemma VisitedOne(all: set<Id>, todo: set<Id>, k: Id)
    requires k in todo && todo <= all
    ensures (all - todo) + {k} == all - (todo - {k})
  {
  }

  /** What the whole pickup pass does to player p (now q), counting only the
      pickup keys in `done`: one shield half per shield touched, capped at 6,
      and a weapon from the upgrade pool when an orb was touched. */
  predicate GainedFrom(p: Player, q: Player, pickups: map<Id, PickupSlot>, done: set<Id>)
  {
    && q == p.(weapon := q.weapon, shieldHalves := q.shieldHalves)
    && q.shieldHalves == Boosted(p.shieldHalves, |TouchedIn(pickups, p, Shield, done)|)
    && (TouchedIn(pickups, p, Orb, done) == {} ==> q.weapon == p.weapon)
    && (TouchedIn(pickups, p, Orb, done) != {} ==> q.weapon in UPGRADE_POOL)
  }

  /** Counting one more pickup key k adds k to the touched set exactly when
      it is of that kind and p touches it. */
  lemma TouchedGrow(pickups: map<Id, PickupSlot>, p: Player, kind: PickupKind, done: set<Id>, k: Id)
    requires k in PickupKeys(pickups) && k !in done
    ensures var pk := pickups[k].pickup;
            TouchedIn(pickups, p, kind, done + {k}) ==
              TouchedIn(pickups, p, kind, done) + (if pk.kind == kind && Touches(p, pk) then {k} else {})
  {
  }

  /** One more pickup key k handled by ClaimPickup: the shield count. */
  lemma ShieldStep(p: Player, q: Player, r: Player, pickups: map<Id, PickupSlot>, done: set<Id>, k: Id)
    requires k in PickupKeys(pickups) && k !in done
    requires Touches(q, pickups[k].pickup) == Touches(p, pickups[k].pickup)
    requires q.shieldHalves == Boosted(p.shieldHalves, |TouchedIn(pickups, p, Shield, done)|)
    requires PickedUp(q, r, pickups[k].pickup)
    ensures r.shieldHalves == Boosted(p.shieldHalves, |TouchedIn(pickups, p, Shield, done + {k})|)
  {
    var pk := pickups[k].pickup;
    var before := TouchedIn(pickups, p, Shield, done);
    TouchedGrow(pickups, p, Shield, done, k);
    if Touches(p, pk) && pk.kind == Shield {
      assert k !in before;
      assert |before + {k}| == |before| + 1;
      BoostedStep(p.shieldHalves, |before|);
    } else {
      assert r.shieldHalves == q.shieldHalves;
    }
  }

  /** One more pickup key k handled by ClaimPickup: the weapon. */
  lemma WeaponStep(p: Player, q: Player, r: Player, pickups: map<Id, PickupSlot>, done: set<Id>, k: Id)
    requires k in PickupKeys(pickups) && k !in done
    requires Touches(q, pickups[k].pickup) == Touches(p, pickups[k].pickup)
    requires TouchedIn(pickups, p, Orb, done) == {} ==> q.weapon == p.weapon
    requires TouchedIn(pickups, p, Orb, done) != {} ==> q.weapon in UPGRADE_POOL
    requires PickedUp(q, r, pickups[k].pickup)
    ensures TouchedIn(pickups, p, Orb, done + {k}) == {} ==> r.weapon == p.weapon
    ensures TouchedIn(pickups, p, Orb, done + {k}) != {} ==> r.weapon in UPGRADE_POOL
  {
    TouchedGrow(pickups, p, Orb, done, k);
  }

  /** One more pickup key k handled by ClaimPickup extends GainedFrom to k. */
  lemma GainStep(p: Player, q: Player, r: Player, pickups: map<Id, PickupSlot>, done: set<Id>, k: Id)
    requires k in PickupKeys(pickups) && k !in done
    requires GainedFrom(p, q, pickups, done)
    requires PickedUp(q, r, pickups[k].pickup)
    ensures GainedFrom(p, r, pickups, done + {k})
  {
    assert q.x == p.x && q.y == p.y;
    assert Touches(q, pickups[k].pickup) == Touches(p, pickups[k].pickup);
    ShieldStep(p, q, r, pickups, done, k);
    WeaponStep(p, q, r, pickups, done, k);
  }

  /** Counting one more key k adds k to the claimed keys exactly when it is
      a pickup some player reaches. */
  /** GainStep for every player of the table at once. */
  lemma GainsStep(players0: map<Id, Player>, before: map<Id, Player>, after: map<Id, Player>,
                  pickups: map<Id, PickupSlot>, done: set<Id>, k: Id)
    requires k in PickupKeys(pickups) && k !in done
    requires before.Keys == players0.Keys && after.Keys == players0.Keys
    requires forall id :: id in before ==> GainedFrom(players0[id], before[id], pickups, done)
    requires forall id :: id in after ==> PickedUp(before[id], after[id], pickups[k].pickup)
    ensures forall id :: id in after ==> GainedFrom(players0[id], after[id], pickups, done + {k})
  {
    forall id | id in after
      ensures GainedFrom(players0[id], after[id], pickups, done + {k})
    {
      GainStep(players0[id], before[id], after[id], pickups, done, k);
    }
  }

  /** SkipStep for every player of the table at once. */
  lemma SkipsStep(players0: map<Id, Player>, players: map<Id, Player>, pickups: map<Id, PickupSlot>, done: set<Id>, k: Id)
    requires k !in PickupKeys(pickups)
    requires players.Keys == players0.Keys
    requires forall id :: id in players ==> GainedFrom(players0[id], players[id], pickups, done)
    ensures forall id :: id in players ==> GainedFrom(players0[id], players[id], pickups, done + {k})
  {
    forall id | id in players
      ensures GainedFrom(players0[id], players[id], pickups, done + {k})
    {
      SkipStep(players0[id], players[id], pickups, done, k);
    }
  }

  /** The state of the pickup pass (tables pickups, players, outbox, draws),
      started from pickups0, players0, outbox0 and draws0, once the keys in
      `done` are visited: the claimed keys are gone; each player has the
      effects of the pickups it touched; with nothing claimed nothing is
      written and no draw is used, and otherwise the table written last is
      the current one; only the local player's record is written, and its
      latest write is its current record when it touched something. */
  ghost predicate PassAfter(pickups: map<Id, PickupSlot>, players: map<Id, Player>, outbox: seq<Publish>, draws: nat,
                            me: Id, pickups0: map<Id, PickupSlot>, players0: map<Id, Player>, outbox0: seq<Publish>,
                            draws0: nat, done: set<Id>)
  {
    && pickups == pickups0 - ClaimedIn(pickups0, players0, done)
    && players.Keys == players0.Keys
    && (forall id :: id in players ==> GainedFrom(players0[id], players[id], pickups0, done))
    && (ClaimedIn(pickups0, players0, done) == {} ==> outbox == outbox0 && draws == draws0)
    && (ClaimedIn(pickups0, players0, done) != {} ==> LatestPickups(outbox) == Some(pickups))
    && WritesSince(outbox0, outbox, me, LocalPass(pickups0, players0, players, done, me))
    && draws0 <= draws
  }

  /** A key that holds no pickup is visited without any change. */
  lemma SkipKey(pickups: map<Id, PickupSlot>, players: map<Id, Player>, outbox: seq<Publish>, draws: nat,
                me: Id, pickups0: map<Id, PickupSlot>, players0: map<Id, Player>, outbox0: seq<Publish>,
                draws0: nat, done: set<Id>, k: Id)
    requires PassAfter(pickups, players, outbox, draws, me, pickups0, players0, outbox0, draws0, done)
    requires k !in PickupKeys(pickups0)
    ensures PassAfter(pickups, players, outbox, draws, me, pickups0, players0, outbox0, draws0, done + {k})
  {
    ClaimedGrow(pickups0, players0, done, k);
    if me in players0 {
      TouchesSomeGrow(pickups0, players0[me], done, k);
    }
    SkipsStep(players0, players, pickups0, done, k);
    assert ClaimedIn(pickups0, players0, done + {k}) == ClaimedIn(pickups0, players0, done);
  }

  /** The pickup pass moves nobody. */
  lemma GainsKeepPlaces(players0: map<Id, Player>, players: map<Id, Player>, pickups: map<Id, PickupSlot>, done: set<Id>)
    requires players.Keys == players0.Keys
    requires forall id :: id in players ==> GainedFrom(players0[id], players[id], pickups, done)
    ensures forall id :: id in players0 ==> players0[id].x == players[id].x && players0[id].y == players[id].y
  {
  }

  lemma ClaimedGrow(pickups: map<Id, PickupSlot>, players: map<Id, Player>, done: set<Id>, k: Id)
    ensures ClaimedIn(pickups, players, done + {k}) ==
              ClaimedIn(pickups, players, done) +
              (if k in PickupKeys(pickups) && Reached(players, pickups[k].pickup) then {k} else {})
  {
  }

  /** Overwriting one entry twice keeps the last value. */
  lemma UpdateTwice<V>(m: map<Id, V>, key: Id, a: V, b: V)
    ensures m[key := a][key := b] == m[key := b]
  {
  }

  /** Deleting one more key. */
  lemma MinusMore<V>(m: map<Id, V>, a: set<Id>, b: set<Id>)
    ensures (m - a) - b == m - (a + b)
  {
  }

  /** A key that is not a pickup changes nothing the pass counts. */
  lemma SkipStep(p: Player, q: Player, pickups: map<Id, PickupSlot>, done: set<Id>, k: Id)
    requires k !in PickupKeys(pickups)
    requires GainedFrom(p, q, pickups, done)
    ensures GainedFrom(p, q, pickups, done + {k})
  {
    assert TouchedIn(pickups, p, Shield, done + {k}) == TouchedIn(pickups, p, Shield, done);
    assert TouchedIn(pickups, p, Orb, done + {k}) == TouchedIn(pickups, p, Orb, done);
  }

  class GameState {
    /** WIDTH and HEIGHT. */
    const canvas: Screen
    /** The local player's id (state.me.id). */
    const me: Id
    /** Math.random, as the stream of its draws inside per-entity loops. */
    const rng: nat -> Unit
    /** Cosine and sine of the angle made from draw j (2 pi times rng(j)). */
    const heading: nat -> Vec
    /** How many draws of the stream are used up. */
    var draws: nat

    var hostId: Option<Id>
    var started: bool
    var mapIndex: int
    var players: map<Id, Player>
    /** Bullets by owner id, then by push key. */
    var bullets: map<Id, map<Id, Bullet>>
    /** Pickups by id, plus the spawn time stamp under "lastSpawn". */
    var pickups: map<Id, PickupSlot>
    var particles: seq<Particle>
    var lastShoot: real
    var inputs: Inputs
    /** Running respawn timers, oldest first, each holding the record it captured.
        All run for the same 1500 ms, so they fire in this order. */
    var respawns: seq<Player>
    var outbox: seq<Publish>

    constructor (canvas: Screen, me: Id, rng: nat -> Unit, heading: nat -> Vec)
      ensures this.canvas == canvas && this.me == me && this.rng == rng && this.heading == heading
      ensures draws == 0 && hostId == None && !started && mapIndex == 0
      ensures players == map[] && bullets == map[] && pickups == map[] && particles == []
      ensures lastShoot == 0.0 && inputs == Inputs(false, false, false, false, false, 0.0, 0.0)
      ensures respawns == [] && outbox == []
    {
      this.canvas := canvas;
      this.me := me;
      this.rng := rng;
      this.heading := heading;
      draws := 0;
      hostId := None;
      started := false;
      mapIndex := 0;
      players := map[];
      bullets := map[];
      pickups := map[];
      particles := [];
      lastShoot := 0.0;
      inputs := Inputs(false, false, false, false, false, 0.0, 0.0);
      respawns := [];
      outbox := [];
    }

    // -------------------------------------------------------------- movement

    /** stepPlayer(players[id]): the two wall loops, the clamps and the aim. */
    method StepPlayer(id: Id, dx: real, dy: real, aim: real, walls: seq<Rect>)
      requires id in players
      modifies this`players
      ensures players == old(players)[id := Stepped(old(players)[id], old(players)[id].id == me, dx, dy, aim, walls, canvas)]
    {
      var p := players[id];
      var mx, my := 0.0, 0.0;
      if p.id == me {
        mx, my := dx, dy;
      }
      var nx := p.x + mx;
      var i := 0;
      while i < |walls|
        invariant 0 <= i <= |walls|
        invariant nx == if Blocked(walls[..i], p.x + mx - HALF_BOX, p.y - HALF_BOX, BOX, BOX) then p.x else p.x + mx
      {
        if CollideRect(walls[i], p.x + mx - HALF_BOX, p.y - HALF_BOX, BOX, BOX) {
          nx := p.x;
        }
        assert walls[..i + 1][i] == walls[i];
        i := i + 1;
      }
      assert walls[..i] == walls;
      var x := Clamp(nx, INSET, canvas.width - INSET);
      var ny := p.y + my;
      i := 0;
      while i < |walls|
        invariant 0 <= i <= |walls|
        invariant ny == if Blocked(walls[..i], x - HALF_BOX, p.y + my - HALF_BOX, BOX, BOX) then p.y else p.y + my
      {
        if CollideRect(walls[i], x - HALF_BOX, p.y + my - HALF_BOX, BOX, BOX) {
          ny := p.y;
        }
        assert walls[..i + 1][i] == walls[i];
        i := i + 1;
      }
      assert walls[..i] == walls;
      var y := Clamp(ny, INSET, canvas.height - INSET);
      p := p.(x := x, y := y);
      if p.id == me {
        p := p.(dir := aim);
      }
      players := players[id := p];
    }

    /** The first loop of physics: every player is stepped. */
    method StepPlayers(dx: real, dy: real, aim: real, walls: seq<Rect>)
      modifies this`players
      ensures players.Keys == old(players).Keys
      ensures forall id :: id in players ==>
                players[id] == Stepped(old(players)[id], old(players)[id].id == me, dx, dy, aim, walls, canvas)
    {
      var todo := players.Keys;
      while todo != {}
        invariant todo <= players.Keys && players.Keys == old(players).Keys
        invariant forall id :: id in players && id !in todo ==>
                    players[id] == Stepped(old(players)[id], old(players)[id].id == me, dx, dy, aim, walls, canvas)
        invariant forall id :: id in todo ==> players[id] == old(players)[id]
        decreases todo
      {
        var id :| id in todo;
        StepPlayer(id, dx, dy, aim, walls);
        todo := todo - {id};
      }
    }

    // -------------------------------------------------------------- shooting

    /** tryShoot(p, now): when the gate opens, stamp the shot time and push one
        bullet per pellet, the i-th along dirs(i). */
    method TryShoot(p: Player, now: real, dirs: nat -> Vec) returns (fired: bool)
      modifies this`lastShoot, this`outbox
      ensures fired == CanFire(p, me, inputs.mouse, old(lastShoot), now)
      ensures fired ==> lastShoot == now &&
                        outbox == old(outbox) + Pushes(p.id, Volley(p, WEAPONS[p.weapon], now, dirs))
      ensures !fired ==> lastShoot == old(lastShoot) && outbox == old(outbox)
    {
      fired := false;
      if p.id != me {
        return;
      }
      if p.weapon !in WEAPONS {
        return;
      }
      var wpn := WEAPONS[p.weapon];
      if !inputs.mouse {
        return;
      }
      if now - lastShoot < wpn.cooldown {
        return;
      }
      lastShoot := now;
      fired := true;
      ghost var shots := Volley(p, wpn, now, dirs);
      var i := 0;
      while i < wpn.pellets
        invariant 0 <= i <= wpn.pellets
        invariant lastShoot == now
        invariant outbox == old(outbox) + Pushes(p.id, shots[..i])
      {
        assert shots[..i + 1] == shots[..i] + [Shot(p, wpn, now, dirs(i))];
        PushesAppend(p.id, shots[..i], [Shot(p, wpn, now, dirs(i))]);
        outbox := outbox + [PushBullet(p.id, Shot(p, wpn, now, dirs(i)))];
        i := i + 1;
      }
      assert shots[..i] == shots;
    }

    // -------------------------------------------------------------- damage

    /** spawnBlood(x, y): six particles, four draws each. */
    method SpawnBlood(x: real, y: real)
      modifies this`particles, this`draws
      ensures particles == old(particles) + Blood(x, y, rng, heading, old(draws))
      ensures draws == old(draws) + 24
    {
      ghost var burst := Blood(x, y, rng, heading, draws);
      var i := 0;
      while i < BLOOD_PARTICLES
        invariant 0 <= i <= BLOOD_PARTICLES
        invariant draws == old(draws) + 4 * i
        invariant particles == old(particles) + burst[..i]
      {
        assert burst[..i + 1] == burst[..i] + [Splash(x, y, rng, heading, draws)];
        particles := particles + [Splash(x, y, rng, heading, draws)];
        draws := draws + DRAWS_PER_PARTICLE;
        i := i + 1;
      }
      assert burst[..i] == burst;
    }

    /** damagePlayer(players[id], halves): the shield soaks first, health is
        floored at 0, and at 0 the player dies, bleeds and a respawn timer starts
        holding the dead record. */
    method DamagePlayer(id: Id, halves: nat)
      requires id in players
      modifies this`players, this`particles, this`draws, this`respawns
      ensures players == old(players)[id := Damaged(old(players)[id], halves)]
      ensures Kills(old(players)[id], halves) ==>
                && particles == old(particles) + Blood(old(players)[id].x, old(players)[id].y, rng, heading, old(draws))
                && draws == old(draws) + 24
                && respawns == old(respawns) + [players[id]]
      ensures !Kills(old(players)[id], halves) ==>
                particles == old(particles) && draws == old(draws) && respawns == old(respawns)
    {
      var p := players[id];
      var remaining := halves;
      if p.shieldHalves > 0 {
        var absorb := Min(p.shieldHalves, remaining);
        p := p.(shieldHalves := p.shieldHalves - absorb);
        remaining := remaining - absorb;
      }
      if remaining > 0 {
        p := p.(healthHalves := Max(0, p.healthHalves - remaining));
        if p.healthHalves == 0 {
          p := p.(alive := false);
          SpawnBlood(p.x, p.y);
          respawns := respawns + [p];
        }
      }
      players := players[id := p];
    }

    /** The oldest respawn timer fires: the player gets a new spawn point, full
        health, no shield, life and the pistol, and the record is published
        whoever owns it. When the player has left the table meanwhile, the
        captured record is published all the same. */
    method Respawn(u: Unit, v: Unit)
      requires respawns != []
      modifies this`players, this`respawns, this`outbox
      ensures var c := old(respawns)[0];
              var pos := RandomSpawn(canvas, u, v);
              var r := Respawned(if c.id in old(players) then old(players)[c.id] else c, pos);
              && respawns == old(respawns)[1..]
              && players == (if c.id in old(players) then old(players)[c.id := r] else old(players))
              && outbox == old(outbox) + [SetPlayer(c.id, r)]
    {
      var c := respawns[0];
      respawns := respawns[1..];
      var pos := RandomSpawn(canvas, u, v);
      var r: Player;
      if c.id in players {
        r := Respawned(players[c.id], pos);
        players := players[c.id := r];
      } else {
        r := Respawned(c, pos);
      }
      outbox := outbox + [SetPlayer(c.id, r)];
    }
    // -------------------------------------------------------------- host duties

    /** hostTick(now): when a spawn is due, stamp the time, add a pickup with
        id `id` at a random spawn point, of kind KindFor(roll), and write the
        table; then delete every bullet older than 2000 ms. */
    method HostTick(now: real, id: Id, u: Unit, v: Unit, roll: Unit)
      requires |id| <= 6
      modifies this`pickups, this`bullets, this`outbox
      ensures var pos := RandomSpawn(canvas, u, v);
              var spawned := WithSpawn(old(pickups), now, Pickup(id, pos.x, pos.y, KindFor(roll)));
              && (SpawnDue(old(pickups), now) ==> pickups == spawned && outbox == old(outbox) + [WritePickups(spawned)])
              && (!SpawnDue(old(pickups), now) ==> pickups == old(pickups) && outbox == old(outbox))
      ensures bullets == Collected(old(bullets), now)
    {
      SpawnPickup(now, id, u, v, roll);
      CollectBullets(now);
    }

    /** The spawn half of hostTick. */
    method SpawnPickup(now: real, id: Id, u: Unit, v: Unit, roll: Unit)
      requires |id| <= 6
      modifies this`pickups, this`outbox
      ensures var pos := RandomSpawn(canvas, u, v);
              var spawned := WithSpawn(old(pickups), now, Pickup(id, pos.x, pos.y, KindFor(roll)));
              && (SpawnDue(old(pickups), now) ==> pickups == spawned && outbox == old(outbox) + [WritePickups(spawned)])
              && (!SpawnDue(old(pickups), now) ==> pickups == old(pickups) && outbox == old(outbox))
    {
      if SpawnDue(pickups, now) {
        var pos := RandomSpawn(canvas, u, v);
        pickups := WithSpawn(pickups, now, Pickup(id, pos.x, pos.y, KindFor(roll)));
        outbox := outbox + [WritePickups(pickups)];
      }
    }

    /** The cleanup half of hostTick: each owner's list is walked and every
        bullet older than 2000 ms deleted from it. */
    method CollectBullets(now: real)
      modifies this`bullets
      ensures bullets == Collected(old(bullets), now)
    {
      var owners := bullets.Keys;
      while owners != {}
        invariant owners <= bullets.Keys && bullets.Keys == old(bullets).Keys
        invariant forall o :: o in owners ==> bullets[o] == old(bullets)[o]
        invariant forall o :: o in bullets && o !in owners ==> bullets[o] == Unexpired(old(bullets)[o], now)
        decreases owners
      {
        var o :| o in owners;
        var list := PrunedList(bullets[o], now);
        bullets := bullets[o := list];
        owners := owners - {o};
      }
      assert bullets == Collected(old(bullets), now);
    }

    /** The inner loop of the cleanup, over one owner's list. */
    method PrunedList(list0: map<Id, Bullet>, now: real) returns (list: map<Id, Bullet>)
      ensures list == Unexpired(list0, now)
    {
      list := list0;
      var keys := list.Keys;
      while keys != {}
        invariant keys <= list.Keys
        invariant forall k :: k in list ==> k in list0 && list[k] == list0[k]
        invariant forall k :: k in list0 && (k in keys || !Expired(list0[k], now)) ==> k in list
        invariant forall k :: k in list && k !in keys ==> !Expired(list[k], now)
        decreases keys
      {
        var k :| k in keys;
        if now - list[k].born > BULLET_TTL {
          list := list - {k};
        }
        keys := keys - {k};
      }
    }

    // -------------------------------------------------------------- bullets

    /** A bullet hits player id: one half-heart of damage, blood at the
        victim, and the victim's record published when it is the local one. */
    method Wound(id: Id)
      requires id in players
      modifies this`players, this`particles, this`draws, this`respawns, this`outbox
      ensures var v := old(players)[id];
              var dead := Kills(v, 1);
              && players == old(players)[id := Damaged(v, 1)]
              && particles == old(particles) + HitBlood(v, rng, heading, old(draws))
              && draws == old(draws) + HitDraws(v)
              && respawns == old(respawns) + (if dead then [Damaged(v, 1)] else [])
              && outbox == old(outbox) + (if id == me then [SetPlayer(me, Damaged(v, 1))] else [])
      ensures AllWounded(old(players), players)
      ensures old(particles) <= particles && old(respawns) <= respawns && old(outbox) <= outbox
    {
      ghost var v, particles0, draws0 := players[id], particles, draws;
      DamageWounds(players, id, 1);
      DamagePlayer(id, 1);
      ghost var particles1, draws1 := particles, draws;
      assert particles1 == particles0 + (if Kills(v, 1) then Blood(v.x, v.y, rng, heading, draws0) else []);
      assert draws1 == draws0 + (if Kills(v, 1) then BLOOD_PARTICLES * DRAWS_PER_PARTICLE else 0);
      SpawnBlood(players[id].x, players[id].y);
      assert particles == particles0 + HitBlood(v, rng, heading, draws0);
      if id == me {
        outbox := outbox + [SetPlayer(me, players[id])];
      }
    }

    /** The player scan of the bullet step, for the bullet under `key` of
        `owner`, which has already moved: the first player in `order` it can hit
        is wounded and the bullet deleted; with no such player nothing changes. */
    method Strike(owner: Id, key: Id, order: seq<Id>)
      requires owner in bullets && key in bullets[owner]
      modifies this`bullets, this`players, this`particles, this`draws, this`respawns, this`outbox
      ensures var b := old(bullets)[owner][key];
              var j := FirstHit(old(players), order, owner, b, 0);
              && (j == |order| ==>
                    && bullets == old(bullets) && players == old(players) && particles == old(particles)
                    && draws == old(draws) && respawns == old(respawns) && outbox == old(outbox))
              && (j < |order| ==>
                    var v := old(players)[order[j]];
                    && bullets == old(bullets)[owner := old(bullets)[owner] - {key}]
                    && players == old(players)[order[j] := Damaged(v, 1)]
                    && particles == old(particles) + HitBlood(v, rng, heading, old(draws))
                    && draws == old(draws) + HitDraws(v)
                    && respawns == old(respawns) + (if Kills(v, 1) then [Damaged(v, 1)] else [])
                    && outbox == old(outbox) + (if order[j] == me then [SetPlayer(me, Damaged(v, 1))] else []))
      ensures AllWounded(old(players), players)
      ensures old(particles) <= particles && old(respawns) <= respawns && old(outbox) <= outbox
    {
      AllWoundedSelf(players);
      var j := FindTarget(players, order, owner, bullets[owner][key]);
      if j < |order| {
        var id := order[j];
        Wound(id);
        bullets := bullets[owner := bullets[owner] - {key}];
      }
    }

    /** The bullet step of physics for bullet `key` of `owner`, the players
        scanned in `order`: move it; delete it if it is in a wall; else the
        first player it can hit takes one half-heart, bleeds, the bullet is
        deleted, and a hit on the local player is published. */
    method StepBullet(owner: Id, key: Id, walls: seq<Rect>, order: seq<Id>)
      requires owner in bullets && key in bullets[owner]
      modifies this`bullets, this`players, this`particles, this`draws, this`respawns, this`outbox
      ensures var b := old(bullets)[owner][key];
              var fate := BulletFate(b, owner, walls, old(players), order);
              && (fate.Flying? ==> bullets == old(bullets)[owner := old(bullets)[owner][key := Moved(b)]])
              && (!fate.Flying? ==> bullets == old(bullets)[owner := old(bullets)[owner] - {key}])
              && (!fate.HitPlayer? ==>
                    && players == old(players) && particles == old(particles) && draws == old(draws)
                    && respawns == old(respawns) && outbox == old(outbox))
              && (fate.HitPlayer? ==>
                    var v := old(players)[fate.target];
                    && players == old(players)[fate.target := Damaged(v, 1)]
                    && particles == old(particles) + HitBlood(v, rng, heading, old(draws))
                    && draws == old(draws) + HitDraws(v)
                    && respawns == old(respawns) + (if Kills(v, 1) then [Damaged(v, 1)] else [])
                    && outbox == old(outbox) + (if fate.target == me then [SetPlayer(me, Damaged(v, 1))] else []))
      ensures AllWounded(old(players), players)
      ensures old(particles) <= particles && old(respawns) <= respawns && old(outbox) <= outbox
      ensures owner in bullets && bullets == old(bullets)[owner := bullets[owner]]
      ensures old(bullets)[owner].Keys - {key} <= bullets[owner].Keys <= old(bullets)[owner].Keys
      ensures Cleared(Moved(old(bullets)[owner][key]), owner, walls, old(players)) ==> key in bullets[owner]
      ensures forall k :: k in bullets[owner] && k != key ==> bullets[owner][k] == old(bullets)[owner][k]
      ensures key in bullets[owner] ==> bullets[owner][key] == Moved(old(bullets)[owner][key])
      ensures key in bullets[owner] && Enumerates(order, old(players)) ==> Cleared(bullets[owner][key], owner, walls, players)
    {
      AllWoundedSelf(players);
      var stopped := Advance(owner, key, walls);
      if !stopped {
        ghost var b := bullets[owner][key];
        assert bullets[owner][key := b] == bullets[owner];
        assert old(bullets)[owner][key := b] - {key} == old(bullets)[owner] - {key};
        Strike(owner, key, order);
        if Cleared(b, owner, walls, old(players)) {
          ClearedFlies(old(bullets)[owner][key], owner, walls, old(players), order);
        }
        if key in bullets[owner] && Enumerates(order, old(players)) {
          MissesAll(old(players), order, owner, b);
        }
      }
    }

    /** The first half of the bullet step: the bullet moves by its velocity
        and is deleted when its box then touches a wall. */
    method Advance(owner: Id, key: Id, walls: seq<Rect>) returns (stopped: bool)
      requires owner in bullets && key in bullets[owner]
      modifies this`bullets
      ensures var b := Moved(old(bullets)[owner][key]);
              && stopped == InWall(walls, b)
              && bullets == old(bullets)[owner := if stopped then old(bullets)[owner] - {key}
                                                  else old(bullets)[owner][key := b]]
    {
      var b := bullets[owner][key];
      b := b.(x := b.x + b.vx, y := b.y + b.vy);
      bullets := bullets[owner := bullets[owner][key := b]];
      stopped := ScanWalls(walls, b.x - BULLET_HALF, b.y - BULLET_HALF, BULLET_BOX, BULLET_BOX);
      if stopped {
        bullets := bullets[owner := bullets[owner] - {key}];
        assert bullets[owner] == old(bullets)[owner] - {key};
      }
    }

    /** The inner bullet loop of physics, over the keys of one owner. */
    method StepOwner(o: Id, walls: seq<Rect>, order: seq<Id>)
      requires o in bullets && Enumerates(order, players)
      modifies this`bullets, this`players, this`particles, this`draws, this`respawns, this`outbox
      ensures o in bullets && bullets == old(bullets)[o := bullets[o]]
      ensures SteppedClear(old(bullets)[o], bullets[o], o, walls, players)
      ensures forall k :: k in old(bullets)[o] && InWall(walls, Moved(old(bullets)[o][k])) ==> k !in bullets[o]
      ensures ClearKeys(old(bullets)[o], o, walls, old(players)) <= bullets[o].Keys
      ensures AllWounded(old(players), players)
      ensures old(particles) <= particles && old(respawns) <= respawns && old(outbox) <= outbox
    {
      AllWoundedSelf(players);
      var keys := bullets[o].Keys;
      ghost var clear := ClearKeys(old(bullets)[o], o, walls, old(players));
      while keys != {}
        invariant o in bullets && bullets == old(bullets)[o := bullets[o]]
        invariant keys <= bullets[o].Keys <= old(bullets)[o].Keys
        invariant forall k :: k in keys ==> bullets[o][k] == old(bullets)[o][k]
        invariant forall k :: k in bullets[o] && k !in keys ==>
                    bullets[o][k] == Moved(old(bullets)[o][k]) && Cleared(bullets[o][k], o, walls, players)
        invariant clear - keys <= bullets[o].Keys
        invariant AllWounded(old(players), players) && Enumerates(order, players)
        invariant old(particles) <= particles && old(respawns) <= respawns && old(outbox) <= outbox
        decreases keys
      {
        var k :| k in keys;
        ghost var before, list := players, bullets[o];
        if k in clear {
          ClearedStays(Moved(list[k]), o, walls, old(players), before);
        }
        StepBullet(o, k, walls, order);
        UpdateTwice(old(bullets), o, list, bullets[o]);
        OwnerStep(old(bullets)[o], list, bullets[o], keys, k, o, walls, before, players);
        WoundedChain(old(players), before, players);
        keys := keys - {k};
      }
    }

    /** The bullet loop of physics over every owner and key. Afterwards every
        bullet left has moved exactly one frame and is clear of the walls and of
        every player it could hit, and players have at most been wounded. */
    method StepBullets(walls: seq<Rect>, order: seq<Id>)
      requires Enumerates(order, players)
      modifies this`bullets, this`players, this`particles, this`draws, this`respawns, this`outbox
      ensures bullets.Keys == old(bullets).Keys
      ensures forall o :: o in bullets ==> SteppedClear(old(bullets)[o], bullets[o], o, walls, players)
      ensures forall o, k :: o in old(bullets) && k in old(bullets)[o] && InWall(walls, Moved(old(bullets)[o][k])) ==>
                k !in bullets[o]
      ensures forall o :: o in old(bullets) ==> ClearKeys(old(bullets)[o], o, walls, old(players)) <= bullets[o].Keys
      ensures AllWounded(old(players), players)
      ensures old(particles) <= particles && old(respawns) <= respawns && old(outbox) <= outbox
    {
      AllWoundedSelf(players);
      var owners := bullets.Keys;
      while owners != {}
        invariant owners <= bullets.Keys && bullets.Keys == old(bullets).Keys
        invariant forall o :: o in owners ==> bullets[o] == old(bullets)[o]
        invariant forall o :: o in bullets && o !in owners ==> SteppedClear(old(bullets)[o], bullets[o], o, walls, players)
        invariant forall o :: o in old(bullets) && o !in owners ==>
                    ClearKeys(old(bullets)[o], o, walls, old(players)) <= bullets[o].Keys
        invariant AllWounded(old(players), players) && Enumerates(order, players)
        invariant old(particles) <= particles && old(respawns) <= respawns && old(outbox) <= outbox
        decreases owners
      {
        var o :| o in owners;
        ghost var before, table := players, bullets;
        StepOwner(o, walls, order);
        OwnersStep(old(bullets), table, bullets, owners, o, walls, old(players), before, players);
        WoundedChain(old(players), before, players);
        owners := owners - {o};
      }
    }

    // -------------------------------------------------------------- pickups

    /** The body of the pickup pass for player id touching the pickup under
        key k: the effect, the deletion, the local player's record, the table. */
    method Collect(id: Id, k: Id, pk: Pickup)
      requires id in players
      modifies this`pickups, this`players, this`draws, this`outbox
      ensures players.Keys == old(players).Keys
      ensures forall i :: i in players && i != id ==> players[i] == old(players)[i]
      ensures pk.kind == Shield ==> players[id] == old(players)[id].(shieldHalves := Min(MAX_SHIELD, old(players)[id].shieldHalves + 1))
      ensures pk.kind == Orb ==> players[id] == old(players)[id].(weapon := players[id].weapon) && players[id].weapon in UPGRADE_POOL
      ensures pk.kind == Orb ==> players[id].weapon == UpgradeFor(rng(old(draws))) && draws == old(draws) + 1
      ensures pk.kind == Shield ==> draws == old(draws)
      ensures pickups == old(pickups) - {k}
      ensures outbox == old(outbox) + ClaimWrites(id, me, players[id], pickups)
      ensures LatestPickups(outbox) == Some(pickups)
    {
      var p := players[id];
      if pk.kind == Orb {
        p := p.(weapon := UpgradeFor(rng(draws)));
        draws := draws + 1;
      } else {
        p := p.(shieldHalves := Min(MAX_SHIELD, p.shieldHalves + 1));
      }
      players := players[id := p];
      pickups := pickups - {k};
      if id == me {
        outbox := outbox + [SetPlayer(id, p)];
      }
      LatestAfterWrite(outbox, pickups);
      outbox := outbox + [WritePickups(pickups)];
      assert outbox == old(outbox) + ClaimWrites(id, me, p, pickups);
    }

    /** The inner loop of the pickup pass for the pickup under key k: every
        player touching it gets its effect (a weapon draw for an orb, a shield
        half for a shield), the key is deleted, and for each such player the
        table is written, after the player's own record when it is local. */
    method ClaimPickup(k: Id)
      requires k in PickupKeys(pickups)
      modifies this`pickups, this`players, this`draws, this`outbox
      ensures var pk := old(pickups)[k].pickup;
              && players.Keys == old(players).Keys
              && (forall id :: id in players ==> PickedUp(old(players)[id], players[id], pk))
              && pickups == (if Reached(old(players), pk) then old(pickups) - {k} else old(pickups))
              && (Reached(old(players), pk) ==> LatestPickups(outbox) == Some(pickups))
              && (!Reached(old(players), pk) ==> outbox == old(outbox) && draws == old(draws))
              && WritesSince(old(outbox), outbox, me, LocalClaim(old(players), players, {}, pk, me))
              && old(draws) <= draws
    {
      var pk := pickups[k].pickup;
      var todo := players.Keys;
      ghost var hit := false;
      while todo != {}
        invariant ClaimLoop(k, pk, old(players), old(pickups), old(outbox), old(draws), todo, hit)
        decreases todo
      {
        var id :| id in todo;
        hit := VisitPlayer(id, k, pk, old(players), old(pickups), old(outbox), old(draws), todo, hit);
        todo := todo - {id};
      }
    }

    /** The state of the claim loop for the pickup pk under key k, with the
        players in `todo` still to visit and `hit` telling whether a visited
        player touched it: visited players have had their effect and the rest
        are untouched; the key is deleted once hit; before the first hit
        nothing is written and no draw is used, and after it the table written
        last is the current one; only the local player's record is written. */
    ghost predicate ClaimLoop(k: Id, pk: Pickup, players0: map<Id, Player>, pickups0: map<Id, PickupSlot>,
                              outbox0: seq<Publish>, draws0: nat, todo: set<Id>, hit: bool)
      reads this
    {
      && PickedSoFar(players0, players, todo, pk)
      && (hit ==> Reached(players0, pk))
      && (!hit ==> forall id :: id in players && id !in todo ==> !Touches(players0[id], pk))
      && pickups == (if hit then pickups0 - {k} else pickups0)
      && (hit ==> LatestPickups(outbox) == Some(pickups))
      && (!hit ==> outbox == outbox0 && draws == draws0)
      && WritesSince(outbox0, outbox, me, LocalClaim(players0, players, todo, pk, me))
      && draws0 <= draws
    }

    /** One visit of the claim loop, to player id: the pickup's effect, the
        deletion and the writes when the player touches it, nothing otherwise. */
    method VisitPlayer(id: Id, k: Id, pk: Pickup, ghost players0: map<Id, Player>, ghost pickups0: map<Id, PickupSlot>,
                       ghost outbox0: seq<Publish>, ghost draws0: nat, ghost todo: set<Id>, ghost hit: bool)
        returns (ghost hit': bool)
      requires id in todo
      requires ClaimLoop(k, pk, players0, pickups0, outbox0, draws0, todo, hit)
      modifies this`pickups, this`players, this`draws, this`outbox
      ensures hit' == (hit || Touches(players0[id], pk))
      ensures ClaimLoop(k, pk, players0, pickups0, outbox0, draws0, todo - {id}, hit')
    {
      ghost var before := players;
      hit' := hit;
      if Touches(players[id], pk) {
        ghost var out, mine := outbox, LocalClaim(players0, players, todo, pk, me);
        Collect(id, k, pk);
        ClaimStep(outbox0, out, me, mine, id, players[id], pickups);
        assert PickedUp(players0[id], players[id], pk);
        PickedStep(players0, before, players, todo, id, pk);
        hit' := true;
      } else {
        assert PickedUp(players0[id], players[id], pk);
        PickedStep(players0, before, players, todo, id, pk);
      }
    }

    /** One round of the pickup pass, for key k, stated against the tables
        the pass started from (pickups0, players0, outbox0) and the keys
        `done` already visited. */
    method ResolveKey(k: Id, ghost pickups0: map<Id, PickupSlot>, ghost players0: map<Id, Player>,
                      ghost outbox0: seq<Publish>, ghost draws0: nat, ghost done: set<Id>)
      requires k in pickups0 && k !in done
      requires PassState(pickups0, players0, outbox0, draws0, done)
      modifies this`pickups, this`players, this`draws, this`outbox
      ensures PassState(pickups0, players0, outbox0, draws0, done + {k})
    {
      if k != LAST_SPAWN_KEY && pickups[k].Item? {
        ResolveItem(k, pickups0, players0, outbox0, draws0, done);
      } else {
        SkipKey(pickups, players, outbox, draws, me, pickups0, players0, outbox0, draws0, done, k);
      }
    }

    /** ResolveKey for a key that holds a pickup: the claim loop runs on it. */
    method ResolveItem(k: Id, ghost pickups0: map<Id, PickupSlot>, ghost players0: map<Id, Player>,
                       ghost outbox0: seq<Publish>, ghost draws0: nat, ghost done: set<Id>)
      requires k in PickupKeys(pickups0) && k !in done
      requires PassState(pickups0, players0, outbox0, draws0, done)
      modifies this`pickups, this`players, this`draws, this`outbox
      ensures PassState(pickups0, players0, outbox0, draws0, done + {k})
    {
      ClaimedGrow(pickups0, players0, done, k);
      ghost var before, out := players, outbox;
      var pk := pickups[k].pickup;
      GainsKeepPlaces(players0, before, pickups0, done);
      SamePlaces(players0, before, pk);
      ClaimPickup(k);
      PassWritesStep(pickups0, players0, before, players, outbox0, out, outbox, me, done, k);
      GainsStep(players0, before, players, pickups0, done, k);
      if Reached(before, pk) {
        MinusMore(pickups0, ClaimedIn(pickups0, players0, done), {k});
      } else {
        assert ClaimedIn(pickups0, players0, done + {k}) == ClaimedIn(pickups0, players0, done);
      }
    }

    /** PassAfter on the current tables. */
    ghost predicate PassState(pickups0: map<Id, PickupSlot>, players0: map<Id, Player>, outbox0: seq<Publish>,
                              draws0: nat, done: set<Id>)
      reads this
    {
      PassAfter(pickups, players, outbox, draws, me, pickups0, players0, outbox0, draws0, done)
    }

    /** The pickup pass of physics: every pickup some player touches is gone,
        every touching player got its effects, and when anything was claimed the
        last table written is the new one. */
    method ResolvePickups()
      modifies this`pickups, this`players, this`draws, this`outbox
      ensures pickups == old(pickups) - Claimed(old(pickups), old(players))
      ensures players.Keys == old(players).Keys
      ensures forall id :: id in players ==> GainedFrom(old(players)[id], players[id], old(pickups), old(pickups).Keys)
      ensures Claimed(old(pickups), old(players)) == {} ==> outbox == old(outbox)
      ensures Claimed(old(pickups), old(players)) != {} ==> LatestPickups(outbox) == Some(pickups)
      ensures WritesSince(old(outbox), outbox, me, LocalPass(old(pickups), old(players), players, old(pickups).Keys, me))
      ensures old(draws) <= draws && (Claimed(old(pickups), old(players)) == {} ==> draws == old(draws))
    {
      ghost var pickups0, players0, outbox0, draws0 := pickups, players, outbox, draws;
      var todo := pickups.Keys;
      ghost var done: set<Id> := {};
      while todo != {}
        invariant todo <= pickups0.Keys && done == pickups0.Keys - todo
        invariant PassState(pickups0, players0, outbox0, draws0, done)
        decreases todo
      {
        var k :| k in todo;
        ResolveKey(k, pickups0, players0, outbox0, draws0, done);
        VisitedOne(pickups0.Keys, todo, k);
        todo := todo - {k};
        done := done + {k};
      }
      assert done == pickups0.Keys;
      AllVisited(pickups0, players0);
    }

    // -------------------------------------------------------------- particles

    /** The particle fade of physics: each particle drifts by its velocity and
        loses dt ms of life; those with no life left are dropped, order kept. */
    method AgeParticles(dt: real)
      modifies this`particles
      ensures particles == Survivors(AgedAll(old(particles), dt))
    {
      var i := 0;
      while i < |particles|
        invariant 0 <= i <= |particles| == |old(particles)|
        invariant forall j :: 0 <= j < i ==> particles[j] == Aged(old(particles)[j], dt)
        invariant forall j :: i <= j < |particles| ==> particles[j] == old(particles)[j]
      {
        var q := particles[i];
        particles := particles[i := q.(x := q.x + q.vx, y := q.y + q.vy, life := q.life - dt)];
        i := i + 1;
      }
      assert particles == AgedAll(old(particles), dt);
      particles := Survivors(particles);
    }

    // -------------------------------------------------------------- snapshots

    /** The lobby listener: an absent lobby is ignored; otherwise the map index
        and started flag are taken over, and the host id only when the lobby
        names one, so a known host is never forgotten. */
    method ApplyLobby(lob: Option<Lobby>)
      modifies this`mapIndex, this`hostId, this`started
      ensures lob.None? ==> mapIndex == old(mapIndex) && hostId == old(hostId) && started == old(started)
      ensures lob.Some? ==>
                && mapIndex == lob.value.mapIndex
                && started == lob.value.started
                && hostId == (if lob.value.hostId.Some? && lob.value.hostId.value != "" then lob.value.hostId else old(hostId))
      ensures old(hostId).Some? ==> hostId.Some?
    {
      if lob.None? {
        return;
      }
      var l := lob.value;
      mapIndex := l.mapIndex;
      if l.hostId.Some? && l.hostId.value != "" {
        hostId := l.hostId;
      }
      started := l.started;
    }

    /** The players listener: the local table becomes the snapshot. */
    method ApplyPlayers(snapshot: map<Id, Player>)
      modifies this`players
      ensures players == snapshot
    {
      players := snapshot;
    }

    /** The bullets listener: the local table becomes the snapshot. */
    method ApplyBullets(snapshot: map<Id, map<Id, Bullet>>)
      modifies this`bullets
      ensures bullets == snapshot
    {
      bullets := snapshot;
    }

    /** The pickups listener: the local table becomes the snapshot. */
    method ApplyPickups(snapshot: map<Id, PickupSlot>)
      modifies this`pickups
      ensures pickups == snapshot
    {
      pickups := snapshot;
    }
  }
}
