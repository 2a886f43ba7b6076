# Arena shooter: game rules and lobby protocol in Dafny

This project models the rule engine of a browser top-down shooter (`main.js`)
and its lobby protocol (`net.js`). The protocol runs over a shared realtime
key/value store. Nothing here runs; the models are proved with the Dafny
verifier.

- `records.dfy`: module `Records`. The replicated records: player, bullet,
  pickup slot (a pickup, or the host's `lastSpawn` time stamp kept under its
  own key), lobby, inputs and particle.
- `rules.dfy`: module `Rules`. The pure rules:
  - `clamp`, `collideRect`, the weapon table and upgrade pool;
  - `randomSpawn`, `createPlayer`;
  - damage with shields first, then the respawn reset;
  - normalisation of the typed join code.
- `physics.dfy`: module `Physics`. Reference definitions for one frame:
  - the movement step with wall rejection per axis and clamping;
  - the fire gate and volley;
  - a bullet's fate (wall, first hittable player, or flight);
  - bullet expiry and the pickup spawn schedule;
  - how shield pickups add up;
  - blood particles and particle ageing.
- `game.dfy`: module `Game`. Class `GameState` is the client's `state` object.
  - Its methods change the player, bullet, pickup and particle tables in place,
    as `stepPlayer`, `tryShoot`, `damagePlayer`, `hostTick`, `physics` and the
    snapshot handlers of `bindRoom` do.
  - Each method's contract ties the new state to the reference definitions.
  - Writes to the store are appended to `outbox` in the order the client
    issues them.
- `net.dfy`: module `Net`. Class `Store` holds the database tree as nested maps.
  - Each `net.js` operation is one method on it.
  - Each method is specified by a transition function on the value
    `StoreState`.
  - An empty node disappears, as it does in the database.
  - Disconnect cleanup is a set of registered paths.

Randomness, time and the map's walls are parameters. `Math.random` draws made
inside per-entity loops (blood particles, the orb upgrade) come from a stream
`rng` plus a draw counter. Trigonometry (`Math.hypot`, `atan2`, `cos`/`sin`)
is left out: directions and per-step displacements are inputs.

## Model

| member | source | states |
|---|---|---|
| Rules.Clamp | main.js:56 | the result lies in `[lo, hi]`; a value inside is kept, a value below gives `lo`, one above gives `hi` |
| Rules.CollideMeansShared | main.js:126-128 | for rectangles of non-negative size, `collideRect` is true iff the two closed rectangles share a point, so touching edges collide |
| Rules.CollideSymmetric | main.js:126-128 | the overlap test gives the same answer with the rectangles swapped |
| Rules.UpgradeFor | main.js:382 | the weapon an orb picks is in `UPGRADE_POOL`, is a known weapon, and is never `"pistol"` |
| Rules.RandomSpawn | main.js:86-88 | spawn points lie in `[160, W-160) x [160, H-160)` |
| Rules.CreatePlayer | main.js:91-103 | a new player has id, name and spawn position as given, full health 10, shield 0, `alive`, pistol, speed 3, zero velocity, direction and score |
| Rules.Damaged | main.js:194-205 | the shield drops by `min(shield, d)`; health drops by the rest, floored at 0, and is unchanged when `d <= shield`; `alive` is cleared exactly when health reaches 0; nothing else changes; health in `[0,10]` and shield in `[0,6]` are kept |
| Rules.Respawned | main.js:209-211 | a respawn sets health 10, shield 0, `alive` and pistol at the new position and changes nothing else |
| Rules.RespawnRestoresNewPlayer | main.js:208-213 | after any damage, a respawned player has the loadout of a freshly created one; the damage taken beforehand leaves no trace |
| Rules.OneMoreHit | main.js:194-205 | a further 1-half hit after `n` halves of damage equals `n + 1` halves at once |
| Rules.HitsAddUp | main.js:194-205 | `n` successive 1-half bullet hits equal one hit of `n` halves |
| Rules.HitsToDeath | main.js:194-205 | a living player survives exactly `shield + health - 1` single hits; the shield soaks the first ones and health is untouched while it lasts |
| Rules.ThreeHitsUnshielded | main.js:194-205 | three hits on a fresh, unshielded player leave health 7 and the player alive |
| Rules.LettersOfUpper | main.js:440 | the A-Z letters in a character's full Unicode upper case: the letter itself for ASCII, up to three for sharp s and the Latin ligatures, none for every other character |
| Rules.UpperLetters | main.js:440 | upper-casing and dropping non-letters yields only A-Z, at most three per input character |
| Rules.NormaliseJoinCode | main.js:440-441 | a join code is accepted iff at least four letters remain after filtering; the accepted code is four A-Z letters and is the prefix of the filtered text |
| Rules.LowerCaseCodeAccepted | main.js:440-441 | a code typed in lower case is accepted as its upper-case form |
| Rules.CodeAccepted | main.js:440-441 | a well-formed four-letter code is accepted unchanged |
| Rules.ExpandedLettersJoin | main.js:440-441 | characters that upper-case to several letters count as all of them: two sharp s join lobby SSSS, and the ffi ligature followed by x joins FFIX |
| Physics.ScanWalls | main.js:344-348 | the wall loop reports a hit iff some wall of the map collides with the box |
| Physics.Stepped | main.js:131-158 | the player ends inside `[96, W-96] x [96, H-96]`; only x, y and dir change; a non-local player is only clamped; a blocked axis keeps its old coordinate before clamping, and an unblocked axis moves by the displacement before clamping (y tested at the new x); the local player's dir is the aim |
| Physics.StepStaysClear | main.js:145-152 | a player standing clear of every wall and inside the playfield, whose step (when local) stays inside the playfield, is still clear of every wall after the step |
| Physics.SlidesAlongWall | main.js:145-152 | when only the x move is blocked, the player keeps x and still moves along y |
| Physics.Shot | main.js:174-177 | each bullet has the shooter as owner, the weapon's damage and `born = now` |
| Physics.Volley | main.js:169-179 | a volley has exactly `pellets` bullets, each owned by the shooter, with the weapon's damage and `born = now` |
| Physics.FirstHit | main.js:352-357 | the search stops at the first player in iteration order who is alive, not the owner and within 20 px; every player before that one is not hittable |
| Physics.FindTarget | main.js:352-367 | the player loop finds the first hittable player, or none |
| Physics.BulletFateMeans | main.js:340-367 | a moved bullet hits a wall iff its 4x4 box overlaps a wall; otherwise it hits the first hittable player; when it flies on, no player in the table is hittable |
| Physics.MissesAll | main.js:352-357 | when the search over all players finds nobody, no player is within reach |
| Physics.WoundedByDamage | main.js:194-216 | damage never raises health or shield, never revives, and touches no other field |
| Physics.Collected | main.js:230-236 | bullet cleanup keeps every owner entry and every bullet aged at most 2000 ms, unchanged, and removes every older one |
| Physics.Unexpired | main.js:231-234 | for one owner, exactly the unexpired bullets remain, unchanged |
| Physics.WithSpawn | main.js:221-226 | a spawn adds exactly the new pickup, stamps `lastSpawn = now` and leaves every other entry alone; the pickup keys grow by exactly the new id |
| Physics.SpawnRateLimited | main.js:221-222 | after a spawn at a nonzero time `now` (a zero stamp reads as "never spawned"), with a pickup id of at most six characters, the next spawn is due exactly when more than 6000 ms have passed |
| Physics.Boosted | main.js:385 | `n` shield pickups never push the shield past 6 and raise a shield below 6; none leave it unchanged |
| Physics.BoostedStep | main.js:385 | one more shield pickup is `min(6, s + 1)` of the shield so far |
| Physics.Splash | main.js:185-190 | a blood particle starts at the wound with a life in `[500, 900)` ms |
| Physics.Blood | main.js:183-192 | a splash is six particles, all at the wound, each with a life in `[500, 900)` ms |
| Physics.Survivors | main.js:398 | the filter keeps exactly the particles with life left, all of them, and no others |
| Physics.SurvivorsCount | main.js:398 | each particle with life left is kept as many times as it occurs, and every other one is dropped |
| Physics.SurvivorsAppend | main.js:398 | the filter keeps order: filtering a concatenation concatenates the filtered parts |
| Physics.AliveSurvive | main.js:398 | the filter keeps a list in which every particle has life left |
| Physics.LongLivedSurvive | main.js:395-398 | particles with more than `dt` ms left all survive one frame of ageing |
| Game.Pushes | main.js:178 | a volley produces one pushBullet per bullet, in order, under the shooter's id |
| Game.PushesAppend | main.js:169-179 | the pushes of two volleys in a row are the pushes of the first followed by those of the second, which is what lets the pellet loop write them one at a time |
| Game.DamageWounds | main.js:194-216 | damaging one player leaves the table's ids alone and wounds no one else |
| Game.GameState.constructor | main.js:69-81 | the initial local state: no host, not started, map 0, empty tables, `lastShoot = 0`, all inputs off |
| Game.GameState.StepPlayer | main.js:131-158 | the player's entry becomes its movement step; only the local player moves or aims |
| Game.GameState.StepPlayers | main.js:333-335 | every player of the table is stepped; ids are kept |
| Game.GameState.TryShoot | main.js:161-180 | it fires iff the player is local, its weapon is known, the mouse is down and the cooldown has passed; firing sets `lastShoot = now` and pushes exactly the volley; otherwise nothing changes |
| Game.GameState.SpawnBlood | main.js:183-192 | the six new particles are appended after the old ones; 24 random draws are used |
| Game.GameState.DamagePlayer | main.js:194-216 | the player's entry is damaged; on a kill, blood is spawned and a respawn is queued with the dead record; otherwise particles, draws and timers are unchanged |
| Game.GameState.Respawn | main.js:208-213 | the oldest timer fires: that player is reset at a random spawn point and published |
| Game.GameState.HostTick | main.js:219-237 | a pickup is added, stamped and published iff a spawn is due; otherwise pickups and writes are unchanged; expired bullets are deleted locally and not republished |
| Game.GameState.SpawnPickup | main.js:221-228 | spawns and publishes exactly when due |
| Game.GameState.CollectBullets | main.js:230-236 | the bullet table becomes its cleaned-up form |
| Game.GameState.PrunedList | main.js:231-235 | one owner's list loses exactly its expired bullets |
| Game.HitBlood | main.js:359-365 | a hit's blood is six particles at the victim for the hit and six more for a kill, four draws each |
| Game.ClearedFlies | main.js:341-368 | a bullet whose moved box is clear of the walls and of every player flies on |
| Game.GameState.Wound | main.js:359-365 | the hit player loses one half; blood is spawned for the hit, and again for a kill; a kill queues a respawn; the local player's new record is published |
| Game.GameState.Strike | main.js:352-367 | the moved bullet damages at most one player, the first hittable one, which bleeds (the exact particles and draws) and is published when local, and the bullet is deleted; it flies on and nothing changes when nobody is hit |
| Game.GameState.StepBullet | main.js:338-369 | a bullet in a wall is deleted and hurts nobody; otherwise it hits at most the first living non-owner in reach, which is damaged, bleeds (the exact particles and draws), is published when local, and the bullet is deleted; a bullet clear of walls and players flies on, moved; no other bullet changes |
| Game.GameState.Advance | main.js:340-349 | the bullet moves by its velocity and is deleted iff its box overlaps a wall |
| Game.GameState.StepOwner | main.js:338-369 | every surviving bullet of the owner has moved one step and is clear of walls and of every player; a bullet moved into a wall is gone; a bullet whose moved box was clear of walls and players is still there; players are only ever wounded |
| Game.GameState.StepBullets | main.js:337-370 | every owner entry stays; every bullet left has moved one step and is clear of walls and players; a bullet moved into a wall is gone and one moved clear of everything stays; players are only wounded; particles, timers and writes only grow |
| Game.GameState.Collect | main.js:380-389 | one player takes the effect and no other player changes: a shield gives `min(6, s + 1)` and uses no draw; an orb gives `UPGRADE_POOL` at the next draw, a pool weapon, and uses exactly that draw; the key is deleted; the writes are exactly the player's record when it is the local one, then the pickup table |
| Game.GameState.ClaimPickup | main.js:375-391 | every player touching the pickup gets its effect, since the loop does not stop after the first, and every other player is unchanged; the key is deleted, and the table written last is the current one, iff someone touched it; with nobody touching, nothing is written and no draw is used; earlier writes are kept, every new player record names the local player, and the local player's latest record is its new one when it touched the pickup; draws never go back |
| Game.GameState.VisitPlayer | main.js:376-390 | one turn of the claim loop keeps its state: visited touching players have their effect, unvisited ones are untouched, the key is deleted after the first hit, only local records are written and the latest is current, and `hit` records whether this player touched the pickup |
| Game.GameState.ResolveKey | main.js:373-391 | one round of the pickup pass keeps the pass state for the visited keys plus this one: deletions, accumulated effects, writes and draws |
| Game.GameState.ResolveItem | main.js:375-391 | the round for a key holding a pickup keeps the pass state, through the claim loop |
| Game.SkipKey | main.js:374 | a key holding no pickup (`lastSpawn`) is visited with no change to the pass state |
| Game.ClaimStep | main.js:388-389 | one claim's writes extend the earlier ones with only local records, make the claiming player's record the latest one when it is local, and end with the current pickup table |
| Game.GameState.ResolvePickups | main.js:373-392 | exactly the pickups some player touches are deleted; `lastSpawn` is never a pickup; each player's shield is raised once per touched shield, capped at 6; an orb gives a pool weapon; nothing else changes; the final table is published iff something was taken; with nothing taken no draw is used; earlier writes are kept, every new player record is the local player's, and its latest record is its final one when it touched any pickup |
| Game.GameState.AgeParticles | main.js:395-398 | every particle moves and ages by `dt`; exactly those with life left remain, in order |
| Game.GameState.ApplyLobby | main.js:403-412 | a lobby snapshot sets map and started; the host id is replaced only by a non-empty one, so a known host is never forgotten; a missing lobby changes nothing |
| Game.GameState.ApplyPlayers | main.js:413-416 | a players snapshot replaces the table wholesale |
| Game.GameState.ApplyBullets | main.js:417-419 | a bullets snapshot replaces the table wholesale |
| Game.GameState.ApplyPickups | main.js:420-422 | a pickups snapshot replaces the table wholesale |
| Net.Put | net.js:69-71 | a set of `<code>/<id>` stores the value there and changes no other child |
| Net.Remove | net.js:49-54 | a remove of `<code>/<id>` deletes that child only and leaves no empty node |
| Net.RemoveTwice | net.js:49-54 | removing a child twice is removing it once |
| Net.LetterAt | net.js:11 | each draw gives a letter A-Z |
| Net.CodeFrom | net.js:8-13 | randCode's result is four letters A-Z |
| Net.RandCode | net.js:8-13 | the loop builds the code of its four draws, one letter per draw |
| Net.CodeReachable | net.js:8-13 | every four-letter code can be drawn |
| Net.DrawnCodeJoins | net.js:8-13 | a drawn code passes the join form's normalisation unchanged |
| Net.ChosenFreeOrExhausted | net.js:17-23 | the chosen code is one of the 51 candidates; it is in use only if all 50 checked candidates were |
| Net.FindCode | net.js:17-23 | the search loop returns the as-written choice after between 1 and 50 existence checks |
| Net.FreeCode | net.js:17-23 | the intended allocation returns a well-formed code not in use, or reports exhaustion only when all 50 candidates are taken |
| Net.FindFreeCode | net.js:17-23 | the corrected loop computes that allocation |
| Net.NewLobby | net.js:24-26 | the written lobby has the code, map index and creation time, `started = false`, no `startedAt` and no host |
| Net.Created | net.js:24-27 | createLobby writes the lobby under its code and touches nothing else |
| Net.Admission | net.js:33-40 | the join is refused with "not found" iff there is no lobby, with "already started" iff it is started, and with "full" iff it already has 10 players, in that order |
| Net.Admitted | net.js:41-46 | a passed join stores the player, marks presence true and arms cleanup for presence, player, bullets and inputs; no other entry changes; no empty node appears; started lobbies stay started |
| Net.Left | net.js:49-54 | leave deletes the player's presence, record, bullets and inputs and nothing else |
| Net.Started | net.js:56-58 | startMatch sets `started` and `startedAt`, keeps code, map, creation time and host, and touches no other lobby |
| Net.HostSet | net.js:88-90 | setHost changes only the lobby's `hostId` |
| Net.BulletPushed | net.js:75-78 | pushBullet adds one bullet under the owner's push key and touches no other owner |
| Net.BulletsCleared | net.js:79-81 | clearBullets deletes all of one owner's bullets and nothing else |
| Net.PickupsWritten | net.js:82-84 | writePickups replaces the lobby's pickup table, and deletes it when the table is empty |
| Net.PlayerSet | net.js:69-71 | setPlayer replaces one player record only |
| Net.InputsSet | net.js:72-74 | setInputs replaces one player's inputs only |
| Net.JoinKeepsCapacity | net.js:36-41 | an admitted join never takes any lobby past 10 players |
| Net.EleventhPlayerRejected | net.js:38-40 | a joinable lobby with 10 players refuses the next one as full |
| Net.JoinAfterStartRejected | net.js:35 | after startMatch, every join to that lobby is refused as already started |
| Net.HostKeepsAdmission | net.js:88-90 | setting the host of an existing lobby does not change whether a join is admitted |
| Net.StartTwice | net.js:56-58 | starting twice equals starting once at the later time |
| Net.LeaveIdempotent | net.js:49-54 | leaving twice leaves the same store as leaving once |
| Net.LeaveUndoesJoin | net.js:41-54 | a join followed by a leave restores the store, apart from the armed hooks |
| Net.ClearUndoesPush | net.js:75-81 | clearBullets erases whatever pushBullet added for that owner |
| Net.ZeroDrawsGiveAAAA | net.js:8-13 | draws of 0 give the code "AAAA" |
| Net.CreateCanResetStartedLobby | net.js:15-29 | as written, createLobby can pick a started lobby's code and reset that lobby to not started |
| Net.CheckedCreateKeepsLobbies | net.js:15-29 | the corrected allocation leaves every existing lobby as it was |
| Net.Store.CreateLobby | net.js:15-29 | createLobby returns the as-written choice, a well-formed code, and writes the new lobby there |
| Net.Store.CreateLobbyChecked | net.js:15-29 | the corrected createLobby writes a new lobby under a free code, or changes nothing and reports exhaustion |
| Net.Store.JoinLobby | net.js:31-47 | joinLobby returns the first failing check and then writes nothing; otherwise it performs the admitted writes |
| Net.Store.LeaveLobby | net.js:49-54 | the store becomes the leave transition of the old one |
| Net.Store.StartMatch | net.js:56-58 | the store becomes the start transition of the old one |
| Net.Store.SetHost | net.js:88-90 | the store becomes the host transition of the old one |
| Net.Store.PushBullet | net.js:75-78 | the store becomes the push transition of the old one |
| Net.Store.ClearBullets | net.js:79-81 | the store becomes the clear transition of the old one |
| Net.Store.WritePickups | net.js:82-84 | the store becomes the pickup-write transition of the old one |
| Net.Store.SetPlayer | net.js:69-71 | the store becomes the player-write transition of the old one |
| Net.Store.SetInputs | net.js:72-74 | the store becomes the inputs-write transition of the old one |

## Left out

- Rendering, DOM, menu wiring, the animation-frame loop and `fit` (main.js:3-53, 239-329, 426-492) are presentation. Only the join-code expression at main.js:440-441 is modelled.
- `updateInputs` and the key and mouse listeners (main.js:105-123) are browser events and are not modelled. The `inputs` field is set by the constructor only. `TryShoot` reads its `mouse` flag. The movement step does not read it: `StepPlayer` and `StepPlayers` take the displacement `dx, dy` and the aim as parameters. main.js:133-142 computes the displacement from the direction keys, normalised with `Math.hypot` and scaled by the speed, and main.js:155-157 computes the aim from the mouse position with `atan2`.
- Trigonometry and floating point: the normalisation by `Math.hypot` and the aim by `atan2` (main.js:140-142, 156) are not modelled. `StepPlayer` takes the displacement and the aim as inputs. Bullet directions, including the random spread (main.js:170-175), are a parameter `dirs`. Blood headings come from a stream. Positions and times are exact reals, so floating-point rounding is not modelled.
- `Math.random` is a parameter or a stream. This covers the spawn point, the pickup type roll, the pickup id and the orb upgrade. The pickup id is any string of at most six characters, which is what `toString(36).slice(2,8)` yields.
- The map's walls come from `maps.js`, which is not part of this model. They are a parameter.
- The order in which the source iterates the players table is a parameter `order`. `StepBullet` states its fate-based result for any order and states bullets clear of every player when `order` lists the table.
- The `isHost()` guard and the frame loop that decide when `hostTick` and `physics` run (main.js:83, 464-481) are not modelled. Every method may be called at any time.
- The 1500 ms `setTimeout` of the respawn (main.js:208-213) is a queue of pending respawns. All timers have the same delay, so they fire oldest first. `Respawn` fires the oldest one.
- Game.GameState.Respawn: the source's closure mutates the captured object, whether or not a later snapshot has replaced the table entry. The model resets the current table entry when the id is still present. Otherwise it publishes the captured record reset. Sharing of that stale object is not modelled.
- Game.GameState.StepBullets: states which bullets remain and where: a bullet whose moved box is in a wall is gone, a bullet whose moved box is clear of walls and of every player at the start of the frame is still there, and every bullet left has moved one frame and is clear. Players are only wounded. It does not state which player a bullet hits, nor the exact particles, timers and writes, after a frame with several hits, because each hit changes who the later bullets can hit. `StepBullet` states all of these for one bullet.
- Game.GameState.StepOwner: weaker in the same way as `StepBullets`.
- Game.GameState.ResolvePickups: an orb's weapon is stated as a member of the pool. Which member it is depends on the random draw.
- Game.GameState.ClaimPickup: weaker in the same way as `ResolvePickups`.
- Game.GameState.StepPlayer: the aim is an input, because `atan2` is left out.
- Subscriptions (`onPlayers`, `onLobby`, `onBullets`, `onPickups`) are not modelled. Their handlers are the `Apply*` methods.
- The actual firing of disconnect cleanup is not modelled. Registered hooks are a set of paths. As in the source, `leaveLobby` does not cancel them.
- App initialisation, async ordering, transport failures and races between clients are not modelled. Joins are not atomic in the source: a race at capacity is accepted there and not modelled here.
- The push key of `pushBullet` (net.js:76) is a parameter.
- The `hostName` argument of `createLobby` is unused by the source, and so by the model.
- An `update()` on a missing lobby code creates a node with only the updated fields. The model fills the absent fields with empty or zero values (`BARE_LOBBY`).
- `createLobby` never fails: after 50 taken candidates it uses a 51st code unchecked. `Net.Store.CreateLobby` models that. `Net.Store.CreateLobbyChecked` models a variant that reports exhaustion instead (see Findings).

## Findings

| source | as written | input that shows it | evidently intended | confidence | as-written member | corrected member |
|---|---|---|---|---|---|---|
| net.js:17-27 | after 50 occupied candidates, createLobby takes a 51st code it never checks. It `set()`s a fresh lobby there, which replaces any lobby already using that code. | lobby "AAAA" exists and is started, and every `Math.random` draw is 0, so every candidate is "AAAA". The started match is reset to `started = false` and becomes joinable. | allocation reports exhaustion rather than reuse a code, and no existing lobby is overwritten | not executed; needs 51 colliding draws | Net.CreateCanResetStartedLobby | Net.FreeCode |
