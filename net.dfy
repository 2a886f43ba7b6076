/** The lobby protocol of net.js over an in-memory store. The store holds the
    node tree of the realtime database as nested maps keyed by lobby code and
    player id; a node left with no children disappears, as it does in the
    database. Each store operation is a method on `Store` and is specified by a
    transition function on the value `StoreState`. */
module Net {
  import opened Records
  import opened Rules

  const LOBBY_LIMIT: nat := 10
  /** How many candidate codes createLobby checks before it gives up looking. */
  const CODE_ATTEMPTS: nat := 50

  datatype JoinError = LobbyNotFound | MatchAlreadyStarted | LobbyFull

  /** The outcome of a code allocation that reports exhaustion. */
  datatype Allocation = Allocated(code: string) | AllocationExhausted

  /** The four per-player branches that joinLobby arms disconnect cleanup on. */
  datatype Table = PresenceTable | PlayersTable | BulletsTable | InputsTable

  /** A registered disconnect hook: `<table>/<code>/<id>` is removed on disconnect. */
  datatype Hook = Hook(table: Table, code: string, id: Id)

  datatype StoreState = StoreState(
    lobbies: map<string, Lobby>,
    players: map<string, map<Id, Player>>,
    presence: map<string, map<Id, bool>>,
    bullets: map<string, map<Id, map<Id, Bullet>>>,
    inputs: map<string, map<Id, Inputs>>,
    pickups: map<string, map<Id, PickupSlot>>,
    hooks: set<Hook>)

  // ---------------------------------------------------------------- nested nodes

  /** The child `<code>/<id>` of a two-level node, if present. */
  function Get<V>(m: map<string, map<Id, V>>, code: string, id: Id): Option<V>
  {
    if code in m && id in m[code] then Some(m[code][id]) else None
  }

  /** No empty node is stored. */
  predicate Pruned<V>(m: map<string, map<Id, V>>)
  {
    forall c :: c in m ==> m[c] != map[]
  }

  /** set() on `<code>/<id>`. */
  function Put<V>(m: map<string, map<Id, V>>, code: string, id: Id, v: V): (r: map<string, map<Id, V>>)
    ensures Get(r, code, id) == Some(v)
    ensures forall c, i :: c != code || i != id ==> Get(r, c, i) == Get(m, c, i)
    ensures Pruned(m) ==> Pruned(r)
  {
    m[code := (if code in m then m[code] else map[])[id := v]]
  }

  /** remove() on `<code>/<id>`; a code node left empty goes too. */
  function Remove<V>(m: map<string, map<Id, V>>, code: string, id: Id): (r: map<string, map<Id, V>>)
    ensures Get(r, code, id) == None
    ensures forall c, i :: c != code || i != id ==> Get(r, c, i) == Get(m, c, i)
    ensures Pruned(m) ==> Pruned(r)
  {
    if code !in m then m
    else
      var rest := m[code] - {id};
      if rest == map[] then
        assert forall i :: i in m[code] && i != id ==> i in rest;
        m - {code}
      else m[code := rest]
  }

  /** Removing twice is removing once. */
  lemma RemoveTwice<V>(m: map<string, map<Id, V>>, code: string, id: Id)
    ensures Remove(Remove(m, code, id), code, id) == Remove(m, code, id)
  {
    if code in m && m[code] - {id} != map[] {
      var rest := m[code] - {id};
      assert rest - {id} == rest;
    }
  }

  /** Removing an absent child changes nothing in a pruned node. */
  lemma RemoveAbsent<V>(m: map<string, map<Id, V>>, code: string, id: Id)
    requires Pruned(m) && Get(m, code, id) == None
    ensures Remove(m, code, id) == m
  {
    if code in m {
      assert m[code] - {id} == m[code];
      assert m[code := m[code]] == m;
    }
  }

  /** A removal wipes out an earlier set() of the same child. */
  lemma RemoveAfterPut<V>(m: map<string, map<Id, V>>, code: string, id: Id, v: V)
    ensures Remove(Put(m, code, id, v), code, id) == Remove(m, code, id)
  {
    var inner := if code in m then m[code] else map[];
    assert inner[id := v] - {id} == inner - {id};
    if code !in m {
      assert inner - {id} == map[];
      assert m[code := map[]] - {code} == m;
    }
  }

  /** The disconnect cleanup joinLobby arms for one player. */
  function HooksFor(code: string, id: Id): set<Hook>
  {
    {Hook(PresenceTable, code, id), Hook(PlayersTable, code, id),
     Hook(BulletsTable, code, id), Hook(InputsTable, code, id)}
  }

  // ---------------------------------------------------------------- store invariants

  /** The store keeps no empty node, as the database does. */
  ghost predicate Valid(s: StoreState)
  {
    && Pruned(s.players) && Pruned(s.presence) && Pruned(s.bullets)
    && Pruned(s.inputs) && Pruned(s.pickups)
    && forall c, o :: Get(s.bullets, c, o).Some? ==> Get(s.bullets, c, o).value != map[]
  }

  /** A started lobby stays started. */
  predicate StartedKept(s: StoreState, r: StoreState)
  {
    forall c :: c in s.lobbies && s.lobbies[c].started ==> c in r.lobbies && r.lobbies[c].started
  }

  function PlayerCount(s: StoreState, code: string): nat
  {
    if code in s.players then |s.players[code]| else 0
  }

  /** No lobby holds more than LOBBY_LIMIT players. */
  predicate WithinCapacity(s: StoreState)
  {
    forall c :: c in s.players ==> |s.players[c]| <= LOBBY_LIMIT
  }

  // ---------------------------------------------------------------- lobby codes

  /** letters[Math.floor(u * 26)] for the alphabet A-Z. */
  function LetterAt(u: Unit): (c: char)
    ensures IsLetter(c)
    ensures c as int - 'A' as int == (u * 26.0).Floor
  {
    var k := (u * 26.0).Floor;
    ('A' as int + k) as char
  }

  /** The code randCode builds from draws from, from + 1, from + 2, from + 3. */
  function CodeFrom(draw: nat -> Unit, from: nat): (s: string)
    ensures IsCode(s)
  {
    var s := seq(4, i requires 0 <= i < 4 => LetterAt(draw(from + i)));
    assert forall i :: 0 <= i < 4 ==> s[i] == LetterAt(draw(from + i));
    s
  }

  /** randCode: four letters appended one at a time. */
  method RandCode(draw: nat -> Unit, from: nat) returns (s: string)
    ensures s == CodeFrom(draw, from)
  {
    s := "";
    for i := 0 to 4
      invariant |s| == i
      invariant forall j :: 0 <= j < i ==> s[j] == LetterAt(draw(from + j))
    {
      s := s + [LetterAt(draw(from + i))];
    }
  }

  /** Every code can come out of randCode. */
  lemma CodeReachable(c: string)
    requires IsCode(c)
    ensures exists draw: nat -> Unit :: CodeFrom(draw, 0) == c
  {
    var draw: nat -> Unit := (j: nat) => if j < |c| then (c[j] as int - 'A' as int) as real / 26.0 else 0.0;
    forall i | 0 <= i < 4 ensures LetterAt(draw(i)) == c[i] {
      var k := c[i] as int - 'A' as int;
      assert draw(i) * 26.0 == k as real;
    }
    assert CodeFrom(draw, 0) == c;
  }

  /** A code drawn by randCode is accepted by the join form unchanged. */
  lemma DrawnCodeJoins(draw: nat -> Unit, from: nat)
    ensures NormaliseJoinCode(CodeFrom(draw, from)) == Some(CodeFrom(draw, from))
  {
    CodeAccepted(CodeFrom(draw, from));
  }

  /** The n-th randCode call of createLobby. */
  function Candidate(draw: nat -> Unit, n: nat): string
  {
    CodeFrom(draw, 4 * n)
  }

  /** createLobby's choice as written: the first free candidate among the first
      CODE_ATTEMPTS, otherwise the next candidate, which is never checked. */
  function ChosenCode(taken: set<string>, draw: nat -> Unit, n: nat): (c: string)
    requires n <= CODE_ATTEMPTS
    decreases CODE_ATTEMPTS - n
  {
    if n == CODE_ATTEMPTS || Candidate(draw, n) !in taken then Candidate(draw, n)
    else ChosenCode(taken, draw, n + 1)
  }

  /** The chosen code is a candidate; it is free unless every checked candidate was taken. */
  lemma {:induction false} ChosenFreeOrExhausted(taken: set<string>, draw: nat -> Unit, n: nat)
    requires n <= CODE_ATTEMPTS
    ensures IsCode(ChosenCode(taken, draw, n))
    ensures exists j :: n <= j <= CODE_ATTEMPTS && ChosenCode(taken, draw, n) == Candidate(draw, j)
    ensures ChosenCode(taken, draw, n) in taken ==>
              forall j :: n <= j < CODE_ATTEMPTS ==> Candidate(draw, j) in taken
    decreases CODE_ATTEMPTS - n
  {
    if n < CODE_ATTEMPTS && Candidate(draw, n) in taken {
      ChosenFreeOrExhausted(taken, draw, n + 1);
    }
  }

  /** createLobby's search loop as written. `checks` counts existence checks. */
  method FindCode(taken: set<string>, draw: nat -> Unit) returns (code: string, checks: nat)
    ensures code == ChosenCode(taken, draw, 0)
    ensures 1 <= checks <= CODE_ATTEMPTS
  {
    code := RandCode(draw, 0);
    var tries := 0;
    checks := 0;
    while tries < CODE_ATTEMPTS
      invariant tries <= CODE_ATTEMPTS && checks == tries
      invariant code == Candidate(draw, tries)
      invariant ChosenCode(taken, draw, tries) == ChosenCode(taken, draw, 0)
    {
      checks := checks + 1;
      if code !in taken {
        break;
      }
      tries := tries + 1;
      code := RandCode(draw, 4 * tries);
    }
  }

  /** Code allocation as evidently intended: the first free candidate among the
      first CODE_ATTEMPTS, or exhaustion. */
  function FreeCode(taken: set<string>, draw: nat -> Unit, n: nat): (r: Allocation)
    requires n <= CODE_ATTEMPTS
    ensures r.Allocated? ==> IsCode(r.code) && r.code !in taken
    ensures r.AllocationExhausted? ==> forall j :: n <= j < CODE_ATTEMPTS ==> Candidate(draw, j) in taken
    decreases CODE_ATTEMPTS - n
  {
    if n == CODE_ATTEMPTS then AllocationExhausted
    else if Candidate(draw, n) !in taken then Allocated(Candidate(draw, n))
    else FreeCode(taken, draw, n + 1)
  }

  /** The corrected search loop. */
  method FindFreeCode(taken: set<string>, draw: nat -> Unit) returns (r: Allocation)
    ensures r == FreeCode(taken, draw, 0)
  {
    var tries := 0;
    r := AllocationExhausted;
    while tries < CODE_ATTEMPTS
      invariant tries <= CODE_ATTEMPTS
      invariant FreeCode(taken, draw, tries) == FreeCode(taken, draw, 0)
    {
      var code := RandCode(draw, 4 * tries);
      if code !in taken {
        r := Allocated(code);
        return;
      }
      tries := tries + 1;
    }
  }

  // ---------------------------------------------------------------- transitions

  /** The lobby record createLobby writes. */
  function NewLobby(code: string, mapIndex: int, now: real): (l: Lobby)
    ensures l.code == code && l.mapIndex == mapIndex && l.createdAt == now
    ensures !l.started && l.startedAt == None && l.hostId == None
  {
    Lobby(code, mapIndex, now, false, None, None)
  }

  /** The lobby node an update() on a missing code creates: only the updated
      fields exist; the others read as absent (empty code, map 0, time 0). */
  const BARE_LOBBY: Lobby := Lobby("", 0, 0.0, false, None, None)

  /** createLobby's write: set() of the whole lobby node. */
  function Created(s: StoreState, code: string, mapIndex: int, now: real): (r: StoreState)
    ensures r.lobbies == s.lobbies[code := NewLobby(code, mapIndex, now)]
    ensures r.(lobbies := s.lobbies) == s
  {
    s.(lobbies := s.lobbies[code := NewLobby(code, mapIndex, now)])
  }

  /** joinLobby's checks, in the order it makes them. */
  function Admission(s: StoreState, code: string): (err: Option<JoinError>)
    ensures err == Some(LobbyNotFound) <==> code !in s.lobbies
    ensures err == Some(MatchAlreadyStarted) <==> code in s.lobbies && s.lobbies[code].started
    ensures err == Some(LobbyFull) <==>
              code in s.lobbies && !s.lobbies[code].started && PlayerCount(s, code) >= LOBBY_LIMIT
  {
    if code !in s.lobbies then Some(LobbyNotFound)
    else if s.lobbies[code].started then Some(MatchAlreadyStarted)
    else if code in s.players && |s.players[code]| >= LOBBY_LIMIT then Some(LobbyFull)
    else None
  }

  /** joinLobby's writes once the checks pass: the player record, the four
      disconnect hooks, then presence. */
  function Admitted(s: StoreState, code: string, p: Player): (r: StoreState)
    ensures Get(r.players, code, p.id) == Some(p) && Get(r.presence, code, p.id) == Some(true)
    ensures r.hooks == s.hooks + HooksFor(code, p.id)
    ensures forall c, i :: c != code || i != p.id ==>
              Get(r.players, c, i) == Get(s.players, c, i) && Get(r.presence, c, i) == Get(s.presence, c, i)
    ensures r.(players := s.players, presence := s.presence, hooks := s.hooks) == s
    ensures Valid(s) ==> Valid(r)
    ensures StartedKept(s, r)
  {
    s.(players := Put(s.players, code, p.id, p),
       hooks := s.hooks + HooksFor(code, p.id),
       presence := Put(s.presence, code, p.id, true))
  }

  /** leaveLobby: presence, player record, bullets and inputs of the player go. */
  function Left(s: StoreState, code: string, id: Id): (r: StoreState)
    ensures Get(r.presence, code, id) == None && Get(r.players, code, id) == None
    ensures Get(r.bullets, code, id) == None && Get(r.inputs, code, id) == None
    ensures forall c, i :: c != code || i != id ==>
              && Get(r.presence, c, i) == Get(s.presence, c, i)
              && Get(r.players, c, i) == Get(s.players, c, i)
              && Get(r.bullets, c, i) == Get(s.bullets, c, i)
              && Get(r.inputs, c, i) == Get(s.inputs, c, i)
    ensures r.(presence := s.presence, players := s.players, bullets := s.bullets, inputs := s.inputs) == s
    ensures Valid(s) ==> Valid(r)
    ensures StartedKept(s, r)
  {
    s.(presence := Remove(s.presence, code, id),
       players := Remove(s.players, code, id),
       bullets := Remove(s.bullets, code, id),
       inputs := Remove(s.inputs, code, id))
  }

  /** startMatch: update() of started and startedAt. */
  function Started(s: StoreState, code: string, now: real): (r: StoreState)
    ensures code in r.lobbies && r.lobbies[code].started && r.lobbies[code].startedAt == Some(now)
    ensures code in s.lobbies ==>
              var l, k := s.lobbies[code], r.lobbies[code];
              k.code == l.code && k.mapIndex == l.mapIndex && k.createdAt == l.createdAt && k.hostId == l.hostId
    ensures r.lobbies - {code} == s.lobbies - {code}
    ensures r.(lobbies := s.lobbies) == s
    ensures StartedKept(s, r)
  {
    var l := if code in s.lobbies then s.lobbies[code] else BARE_LOBBY;
    s.(lobbies := s.lobbies[code := l.(started := true, startedAt := Some(now))])
  }

  /** setHost: update() of hostId. */
  function HostSet(s: StoreState, code: string, id: Id): (r: StoreState)
    ensures code in r.lobbies && r.lobbies[code].hostId == Some(id)
    ensures code in s.lobbies ==> r.lobbies[code].(hostId := s.lobbies[code].hostId) == s.lobbies[code]
    ensures r.lobbies - {code} == s.lobbies - {code}
    ensures r.(lobbies := s.lobbies) == s
    ensures StartedKept(s, r)
  {
    var l := if code in s.lobbies then s.lobbies[code] else BARE_LOBBY;
    s.(lobbies := s.lobbies[code := l.(hostId := Some(id))])
  }

  /** The bullets of one owner in one lobby. */
  function Owned(s: StoreState, code: string, owner: Id): map<Id, Bullet>
  {
    if code in s.bullets && owner in s.bullets[code] then s.bullets[code][owner] else map[]
  }

  /** pushBullet: set() of `bullets/<code>/<owner>/<key>` under a fresh push key. */
  function BulletPushed(s: StoreState, code: string, owner: Id, key: Id, b: Bullet): (r: StoreState)
    ensures Owned(r, code, owner) == Owned(s, code, owner)[key := b]
    ensures forall c, o :: c != code || o != owner ==> Get(r.bullets, c, o) == Get(s.bullets, c, o)
    ensures r.(bullets := s.bullets) == s
    ensures Valid(s) ==> Valid(r)
    ensures StartedKept(s, r)
  {
    var mine := Owned(s, code, owner)[key := b];
    assert key in mine;
    s.(bullets := Put(s.bullets, code, owner, mine))
  }

  /** clearBullets: remove() of `bullets/<code>/<owner>`. */
  function BulletsCleared(s: StoreState, code: string, owner: Id): (r: StoreState)
    ensures Owned(r, code, owner) == map[]
    ensures forall c, o :: c != code || o != owner ==> Get(r.bullets, c, o) == Get(s.bullets, c, o)
    ensures r.(bullets := s.bullets) == s
    ensures Valid(s) ==> Valid(r)
    ensures StartedKept(s, r)
  {
    s.(bullets := Remove(s.bullets, code, owner))
  }

  /** writePickups: set() of the whole pickup table; an empty table is no node. */
  function PickupsWritten(s: StoreState, code: string, table: map<Id, PickupSlot>): (r: StoreState)
    ensures table != map[] ==> code in r.pickups && r.pickups[code] == table
    ensures table == map[] ==> code !in r.pickups
    ensures r.pickups - {code} == s.pickups - {code}
    ensures r.(pickups := s.pickups) == s
    ensures Valid(s) ==> Valid(r)
    ensures StartedKept(s, r)
  {
    s.(pickups := if table == map[] then s.pickups - {code} else s.pickups[code := table])
  }

  /** setPlayer: set() of `players/<code>/<id>`. */
  function PlayerSet(s: StoreState, code: string, id: Id, p: Player): (r: StoreState)
    ensures Get(r.players, code, id) == Some(p)
    ensures forall c, i :: c != code || i != id ==> Get(r.players, c, i) == Get(s.players, c, i)
    ensures r.(players := s.players) == s
    ensures Valid(s) ==> Valid(r)
    ensures StartedKept(s, r)
  {
    s.(players := Put(s.players, code, id, p))
  }

  /** setInputs: set() of `inputs/<code>/<id>`. */
  function InputsSet(s: StoreState, code: string, id: Id, input: Inputs): (r: StoreState)
    ensures Get(r.inputs, code, id) == Some(input)
    ensures forall c, i :: c != code || i != id ==> Get(r.inputs, c, i) == Get(s.inputs, c, i)
    ensures r.(inputs := s.inputs) == s
    ensures Valid(s) ==> Valid(r)
    ensures StartedKept(s, r)
  {
    s.(inputs := Put(s.inputs, code, id, input))
  }

  // ---------------------------------------------------------------- protocol properties

  /** An admitted join never takes a lobby past LOBBY_LIMIT players. */
  lemma JoinKeepsCapacity(s: StoreState, code: string, p: Player)
    requires WithinCapacity(s) && Admission(s, code) == None
    ensures WithinCapacity(Admitted(s, code, p))
    ensures PlayerCount(Admitted(s, code, p), code) <= PlayerCount(s, code) + 1
  {
  }

  /** A full lobby turns the next player away and writes nothing. */
  lemma EleventhPlayerRejected(s: StoreState, code: string)
    requires code in s.lobbies && !s.lobbies[code].started
    requires PlayerCount(s, code) == LOBBY_LIMIT
    ensures Admission(s, code) == Some(LobbyFull)
  {
  }

  /** Once a match is started, joins are refused. */
  lemma JoinAfterStartRejected(s: StoreState, code: string, now: real)
    ensures Admission(Started(s, code, now), code) == Some(MatchAlreadyStarted)
  {
  }

  /** Setting the host of an existing lobby does not change who may join. */
  lemma HostKeepsAdmission(s: StoreState, code: string, id: Id, other: string)
    requires code in s.lobbies
    ensures Admission(HostSet(s, code, id), other) == Admission(s, other)
  {
  }

  /** startMatch twice is startMatch once, at the later time. */
  lemma StartTwice(s: StoreState, code: string, t1: real, t2: real)
    ensures Started(Started(s, code, t1), code, t2) == Started(s, code, t2)
  {
  }

  /** Leaving twice leaves the same store as leaving once. */
  lemma LeaveIdempotent(s: StoreState, code: string, id: Id)
    ensures Left(Left(s, code, id), code, id) == Left(s, code, id)
  {
    RemoveTwice(s.presence, code, id);
    RemoveTwice(s.players, code, id);
    RemoveTwice(s.bullets, code, id);
    RemoveTwice(s.inputs, code, id);
  }

  /** A player who joins and leaves again leaves the store as it was, apart from
      the disconnect hooks, which stay armed. */
  lemma LeaveUndoesJoin(s: StoreState, code: string, p: Player)
    requires Valid(s)
    requires Get(s.players, code, p.id) == None && Get(s.presence, code, p.id) == None
    requires Get(s.bullets, code, p.id) == None && Get(s.inputs, code, p.id) == None
    ensures Left(Admitted(s, code, p), code, p.id) == s.(hooks := s.hooks + HooksFor(code, p.id))
  {
    RemoveAfterPut(s.players, code, p.id, p);
    RemoveAbsent(s.players, code, p.id);
    RemoveAfterPut(s.presence, code, p.id, true);
    RemoveAbsent(s.presence, code, p.id);
    RemoveAbsent(s.bullets, code, p.id);
    RemoveAbsent(s.inputs, code, p.id);
  }

  /** clearBullets removes whatever pushBullet added for that owner. */
  lemma ClearUndoesPush(s: StoreState, code: string, owner: Id, key: Id, b: Bullet)
    ensures BulletsCleared(BulletPushed(s, code, owner, key, b), code, owner) == BulletsCleared(s, code, owner)
  {
    RemoveAfterPut(s.bullets, code, owner, Owned(s, code, owner)[key := b]);
  }

  /** A Math.random that keeps returning 0. */
  function ZeroDraws(j: nat): Unit
  {
    0.0
  }

  /** Draws of 0 make randCode yield "AAAA". */
  lemma ZeroDrawsGiveAAAA(n: nat)
    ensures Candidate(ZeroDraws, n) == "AAAA"
  {
    assert LetterAt(0.0) == 'A';
    var c := Candidate(ZeroDraws, n);
    assert forall i :: 0 <= i < 4 ==> c[i] == 'A';
  }

  /** As written, createLobby can pick a code that is in use when the first
      CODE_ATTEMPTS candidates all are, and its set() then resets that lobby:
      a started match becomes joinable again. */
  lemma CreateCanResetStartedLobby(s: StoreState, mapIndex: int, now: real)
    requires "AAAA" in s.lobbies && s.lobbies["AAAA"].started
    ensures ChosenCode(s.lobbies.Keys, ZeroDraws, 0) == "AAAA"
    ensures !StartedKept(s, Created(s, ChosenCode(s.lobbies.Keys, ZeroDraws, 0), mapIndex, now))
  {
    forall n: nat ensures Candidate(ZeroDraws, n) == "AAAA" {
      ZeroDrawsGiveAAAA(n);
    }
    ChosenFreeOrExhausted(s.lobbies.Keys, ZeroDraws, 0);
  }

  /** The corrected allocation never disturbs an existing lobby. */
  lemma CheckedCreateKeepsLobbies(s: StoreState, draw: nat -> Unit, mapIndex: int, now: real)
    requires FreeCode(s.lobbies.Keys, draw, 0).Allocated?
    ensures var r := Created(s, FreeCode(s.lobbies.Keys, draw, 0).code, mapIndex, now);
      forall c :: c in s.lobbies ==> c in r.lobbies && r.lobbies[c] == s.lobbies[c]
  {
  }

  // ---------------------------------------------------------------- the store

  /** The shared store as one client sees it through net.js. */
  class Store {
    var lobbies: map<string, Lobby>
    var players: map<string, map<Id, Player>>
    var presence: map<string, map<Id, bool>>
    var bullets: map<string, map<Id, map<Id, Bullet>>>
    var inputs: map<string, map<Id, Inputs>>
    var pickups: map<string, map<Id, PickupSlot>>
    /** The paths with disconnect cleanup armed. */
    var hooks: set<Hook>

    function State(): StoreState
      reads this
    {
      StoreState(lobbies, players, presence, bullets, inputs, pickups, hooks)
    }

    constructor ()
      ensures State() == StoreState(map[], map[], map[], map[], map[], map[], {})
      ensures Valid(State())
    {
      lobbies, players, presence, bullets, inputs := map[], map[], map[], map[], map[];
      pickups, hooks := map[], {};
    }

    /** createLobby as written. `hostName` is accepted and not used. The draws
        of Math.random are `draw`; Date.now() is `now`. */
    method CreateLobby(mapIndex: int, hostName: string, now: real, draw: nat -> Unit) returns (code: string)
      modifies this
      ensures code == ChosenCode(old(lobbies).Keys, draw, 0)
      ensures IsCode(code)
      ensures State() == Created(old(State()), code, mapIndex, now)
    {
      var checks;
      code, checks := FindCode(lobbies.Keys, draw);
      ChosenFreeOrExhausted(lobbies.Keys, draw, 0);
      lobbies := lobbies[code := NewLobby(code, mapIndex, now)];
    }

    /** createLobby as evidently intended: allocation fails rather than reuse a code. */
    method CreateLobbyChecked(mapIndex: int, now: real, draw: nat -> Unit) returns (r: Allocation)
      modifies this
      ensures r == FreeCode(old(lobbies).Keys, draw, 0)
      ensures r.Allocated? ==> r.code !in old(lobbies) && State() == Created(old(State()), r.code, mapIndex, now)
      ensures r.AllocationExhausted? ==> State() == old(State())
    {
      r := FindFreeCode(lobbies.Keys, draw);
      if r.Allocated? {
        lobbies := lobbies[r.code := NewLobby(r.code, mapIndex, now)];
      }
    }

    /** joinLobby: checks in order, writing nothing unless all pass. */
    method JoinLobby(code: string, player: Player) returns (err: Option<JoinError>)
      modifies this
      ensures err == Admission(old(State()), code)
      ensures err.Some? ==> State() == old(State())
      ensures err.None? ==> State() == Admitted(old(State()), code, player)
    {
      if code !in lobbies {
        return Some(LobbyNotFound);
      }
      if lobbies[code].started {
        return Some(MatchAlreadyStarted);
      }
      if code in players && |players[code]| >= LOBBY_LIMIT {
        return Some(LobbyFull);
      }
      players := Put(players, code, player.id, player);
      hooks := hooks + HooksFor(code, player.id);
      presence := Put(presence, code, player.id, true);
      err := None;
    }

    method LeaveLobby(code: string, id: Id)
      modifies this
      ensures State() == Left(old(State()), code, id)
    {
      presence := Remove(presence, code, id);
      players := Remove(players, code, id);
      bullets := Remove(bullets, code, id);
      inputs := Remove(inputs, code, id);
    }

    method StartMatch(code: string, now: real)
      modifies this
      ensures State() == Started(old(State()), code, now)
    {
      var l := if code in lobbies then lobbies[code] else BARE_LOBBY;
      lobbies := lobbies[code := l.(started := true, startedAt := Some(now))];
    }

    method SetHost(code: string, id: Id)
      modifies this
      ensures State() == HostSet(old(State()), code, id)
    {
      var l := if code in lobbies then lobbies[code] else BARE_LOBBY;
      lobbies := lobbies[code := l.(hostId := Some(id))];
    }

    /** `key` is the fresh push key the database generates. */
    method PushBullet(code: string, owner: Id, key: Id, b: Bullet)
      modifies this
      ensures State() == BulletPushed(old(State()), code, owner, key, b)
    {
      bullets := Put(bullets, code, owner, Owned(State(), code, owner)[key := b]);
    }

    method ClearBullets(code: string, owner: Id)
      modifies this
      ensures State() == BulletsCleared(old(State()), code, owner)
    {
      bullets := Remove(bullets, code, owner);
    }

    method WritePickups(code: string, table: map<Id, PickupSlot>)
      modifies this
      ensures State() == PickupsWritten(old(State()), code, table)
    {
      pickups := if table == map[] then pickups - {code} else pickups[code := table];
    }

    method SetPlayer(code: string, id: Id, p: Player)
      modifies this
      ensures State() == PlayerSet(old(State()), code, id, p)
    {
      players := Put(players, code, id, p);
    }

    method SetInputs(code: string, id: Id, input: Inputs)
      modifies this
      ensures State() == InputsSet(old(State()), code, id, input)
    {
      inputs := Put(inputs, code, id, input);
    }
  }
}
