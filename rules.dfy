/** The pure game rules of main.js: clamping, rectangle overlap, the weapon
    table, spawning, damage and respawn, and the join-code form. */
module Rules {
  import opened Records

  /** The canvas size WIDTH x HEIGHT. The playfield and spawn arithmetic assume
      more than 320 on each side. */
  datatype Canvas = Canvas(width: real, height: real)
  type Screen = c: Canvas | c.width > 320.0 && c.height > 320.0 witness Canvas(640.0, 480.0)

  /** A player stays this far from every canvas edge (stepPlayer's clamp). */
  const INSET: real := 96.0
  /** Spawn points keep this far from every canvas edge (randomSpawn). */
  const SPAWN_MARGIN: real := 160.0
  const MAX_HEALTH: int := 10
  const MAX_SHIELD: int := 6
  const DEFAULT_WEAPON: string := "pistol"

  function Min(a: int, b: int): int { if a <= b then a else b }
  function Max(a: int, b: int): int { if a >= b then a else b }
  function MinR(a: real, b: real): real { if a <= b then a else b }
  function MaxR(a: real, b: real): real { if a >= b then a else b }

  /** clamp(v, lo, hi) = max(lo, min(hi, v)). */
  function Clamp(v: real, lo: real, hi: real): (r: real)
    ensures lo <= hi ==> lo <= r <= hi
    ensures lo <= v <= hi ==> r == v
    ensures v < lo ==> r == lo
    ensures lo <= hi < v ==> r == hi
  {
    MaxR(lo, MinR(hi, v))
  }

  // ---------------------------------------------------------------- rectangles

  datatype Rect = Rect(x: real, y: real, w: real, h: real)

  /** (px, py) lies in the CLOSED rectangle r, edges included. */
  predicate Covers(r: Rect, px: real, py: real)
  {
    r.x <= px <= r.x + r.w && r.y <= py <= r.y + r.h
  }

  predicate Proper(r: Rect)
  {
    r.w >= 0.0 && r.h >= 0.0
  }

  /** Two closed rectangles share a point exactly when their intervals overlap on
      both axes. */
  lemma SharedPoint(a: Rect, b: Rect)
    requires Proper(a) && Proper(b)
    ensures (a.x <= b.x + b.w && b.x <= a.x + a.w && a.y <= b.y + b.h && b.y <= a.y + a.h)
            <==> exists px, py :: Covers(a, px, py) && Covers(b, px, py)
  {
    if a.x <= b.x + b.w && b.x <= a.x + a.w && a.y <= b.y + b.h && b.y <= a.y + a.h {
      var px, py := MaxR(a.x, b.x), MaxR(a.y, b.y);
      assert Covers(a, px, py) && Covers(b, px, py);
    }
  }

  /** collideRect(r, x, y, w, h): the wall r and the box (x, y, w, h) overlap
      or touch. */
  function CollideRect(r: Rect, x: real, y: real, w: real, h: real): bool
  {
    !(x + w < r.x || x > r.x + r.w || y + h < r.y || y > r.y + r.h)
  }

  /** Two rectangles of non-negative size collide exactly when they share a
      point, so boxes that only touch collide. */
  lemma CollideMeansShared(r: Rect, x: real, y: real, w: real, h: real)
    requires Proper(r) && Proper(Rect(x, y, w, h))
    ensures CollideRect(r, x, y, w, h) <==> exists px, py :: Covers(r, px, py) && Covers(Rect(x, y, w, h), px, py)
  {
    SharedPoint(r, Rect(x, y, w, h));
  }

  /** Overlap does not depend on which of the two rectangles is the wall. */
  lemma CollideSymmetric(a: Rect, b: Rect)
    ensures CollideRect(a, b.x, b.y, b.w, b.h) == CollideRect(b, a.x, a.y, a.w, a.h)
  {
  }

  // ---------------------------------------------------------------- weapons

  datatype Weapon = Weapon(name: string, cooldown: real, speed: real, damage: int, spread: real, pellets: nat)

  /** The WEAPONS table: cooldown in ms, projectile speed per frame, damage,
      angular spread and pellets per shot. */
  const WEAPONS: map<string, Weapon> := map[
    "pistol" := Weapon("Pistol", 350.0, 7.0, 1, 0.0, 1),
    "pistol_auto" := Weapon("Auto Pistol", 150.0, 7.0, 1, 0.04, 1),
    "ar_semi" := Weapon("AR (Semi)", 220.0, 9.0, 1, 0.02, 1),
    "ar_auto" := Weapon("AR (Auto)", 100.0, 9.0, 1, 0.03, 1),
    "shotgun" := Weapon("Shotgun", 650.0, 8.0, 1, 0.15, 6)]

  /** The weapons an orb can hand out. */
  const UPGRADE_POOL: seq<string> := ["pistol_auto", "ar_semi", "ar_auto", "shotgun"]

  /** UPGRADE_POOL[floor(u * |UPGRADE_POOL|)]: an orb always hands out a known
      weapon and never the default pistol. */
  function UpgradeFor(u: Unit): (w: string)
    ensures w in UPGRADE_POOL && w in WEAPONS && w != DEFAULT_WEAPON
  {
    var i := (u * |UPGRADE_POOL| as real).Floor;
    assert 0 <= i < |UPGRADE_POOL|;
    UPGRADE_POOL[i]
  }

  // ---------------------------------------------------------------- players

  /** randomSpawn: a uniformly drawn point at least 160 from every edge. */
  function RandomSpawn(c: Screen, u: Unit, v: Unit): (pos: Vec)
    ensures SPAWN_MARGIN <= pos.x < c.width - SPAWN_MARGIN
    ensures SPAWN_MARGIN <= pos.y < c.height - SPAWN_MARGIN
  {
    Vec(SPAWN_MARGIN + Scale(u, c.width - SPAWN_MARGIN - SPAWN_MARGIN),
        SPAWN_MARGIN + Scale(v, c.height - SPAWN_MARGIN - SPAWN_MARGIN))
  }

  /** A draw u in [0, 1) stretched over [0, k). */
  function Scale(u: Unit, k: real): (r: real)
    requires k > 0.0
    ensures 0.0 <= r < k
  {
    u * k
  }

  /** Health and shield within their ranges. */
  predicate Vital(p: Player)
  {
    0 <= p.healthHalves <= MAX_HEALTH && 0 <= p.shieldHalves <= MAX_SHIELD
  }

  /** The point (x, y) is inside the region stepPlayer clamps positions to. */
  predicate InPlayfield(c: Screen, x: real, y: real)
  {
    INSET <= x <= c.width - INSET && INSET <= y <= c.height - INSET
  }

  /** createPlayer, with the spawn point drawn by the caller. */
  function CreatePlayer(id: Id, name: string, pos: Vec): (p: Player)
    ensures p.id == id && p.name == name && p.x == pos.x && p.y == pos.y
    ensures p.alive && p.healthHalves == MAX_HEALTH && p.shieldHalves == 0 && Vital(p)
    ensures p.weapon == DEFAULT_WEAPON && p.weapon in WEAPONS
    ensures p.vx == 0.0 && p.vy == 0.0 && p.dir == 0.0 && p.speed == 3.0 && p.score == 0
  {
    Player(id, name, pos.x, pos.y, 0.0, 0.0, 0.0, 3.0, DEFAULT_WEAPON, MAX_HEALTH, 0, true, 0)
  }

  /** Half-hearts the shield soaks from a hit of `halves`; damagePlayer consults
      the shield only when it is positive. */
  function Absorbed(p: Player, halves: nat): nat
  {
    if p.shieldHalves > 0 then Min(p.shieldHalves, halves) else 0
  }

  /** The hit gets past the shield and leaves no health: damagePlayer clears
      `alive` and schedules a respawn. */
  predicate Kills(p: Player, halves: nat)
  {
    halves > Absorbed(p, halves) && p.healthHalves <= halves - Absorbed(p, halves)
  }

  /** damagePlayer(p, halves) without its side effects (blood and the respawn
      timer, which the caller performs when Kills holds). */
  function Damaged(p: Player, halves: nat): (r: Player)
    ensures r == p.(shieldHalves := r.shieldHalves, healthHalves := r.healthHalves, alive := r.alive)
    ensures p.shieldHalves >= 0 ==> r.shieldHalves == Max(0, p.shieldHalves - halves)
    ensures p.shieldHalves >= 0 ==>
              r.healthHalves == if halves <= p.shieldHalves then p.healthHalves
                                else Max(0, p.healthHalves - (halves - p.shieldHalves))
    ensures Kills(p, halves) ==> !r.alive && r.healthHalves == 0
    ensures !Kills(p, halves) ==> r.alive == p.alive
    ensures Vital(p) ==> Vital(r)
    ensures Vital(p) && p.alive && p.healthHalves > 0 ==> (r.alive <==> r.healthHalves > 0)
  {
    var absorb := Absorbed(p, halves);
    var remaining := halves - absorb;
    var soaked := p.(shieldHalves := p.shieldHalves - absorb);
    if remaining > 0 then
      var health := Max(0, p.healthHalves - remaining);
      soaked.(healthHalves := health, alive := if health == 0 then false else soaked.alive)
    else
      soaked
  }

  /** The respawn closure damagePlayer schedules: new spawn point, full health,
      no shield, alive, pistol. */
  function Respawned(p: Player, pos: Vec): (r: Player)
    ensures r.alive && r.healthHalves == MAX_HEALTH && r.shieldHalves == 0 && Vital(r)
    ensures r.weapon == DEFAULT_WEAPON && r.x == pos.x && r.y == pos.y
    ensures r == p.(x := r.x, y := r.y, healthHalves := r.healthHalves, shieldHalves := r.shieldHalves,
                    alive := r.alive, weapon := r.weapon)
  {
    p.(x := pos.x, y := pos.y, healthHalves := MAX_HEALTH, shieldHalves := 0, alive := true, weapon := DEFAULT_WEAPON)
  }

  /** A respawned player carries the loadout of a newly created one, whatever
      damage it took before. */
  lemma RespawnRestoresNewPlayer(p: Player, d: nat, pos: Vec)
    ensures var r := Respawned(Damaged(p, d), pos);
            var n := CreatePlayer(p.id, p.name, pos);
            r.id == n.id && r.x == n.x && r.y == n.y && r.healthHalves == n.healthHalves &&
            r.shieldHalves == n.shieldHalves && r.alive == n.alive && r.weapon == n.weapon
    ensures Respawned(Damaged(p, d), pos) == Respawned(p, pos)
  {
  }

  /** `n` bullets in a row, each dealing one half (physics calls damagePlayer(p, 1)). */
  function Hits(p: Player, n: nat): Player
  {
    if n == 0 then p else Damaged(Hits(p, n - 1), 1)
  }

  lemma OneMoreHit(p: Player, n: nat)
    requires p.shieldHalves >= 0 && p.healthHalves >= 0
    ensures Damaged(Damaged(p, n), 1) == Damaged(p, n + 1)
  {
  }

  /** Damage adds up: n single hits leave the player exactly as one hit of n. */
  lemma {:induction false} HitsAddUp(p: Player, n: nat)
    requires p.shieldHalves >= 0 && p.healthHalves >= 0
    ensures Hits(p, n) == Damaged(p, n)
  {
    if n > 0 {
      HitsAddUp(p, n - 1);
      OneMoreHit(p, n - 1);
    }
  }

  /** A living player survives exactly fewer than shield + health single hits;
      until then the shield is spent first. */
  lemma HitsToDeath(p: Player, n: nat)
    requires Vital(p) && p.alive && p.healthHalves > 0
    ensures Hits(p, n).alive <==> n < p.shieldHalves + p.healthHalves
    ensures n <= p.shieldHalves ==> Hits(p, n).healthHalves == p.healthHalves
    ensures Hits(p, n).shieldHalves == Max(0, p.shieldHalves - n)
  {
    HitsAddUp(p, n);
  }

  /** Three pistol hits on an unshielded full-health player: 10 -> 7, alive. */
  lemma ThreeHitsUnshielded(p: Player)
    requires p.alive && p.healthHalves == MAX_HEALTH && p.shieldHalves == 0
    ensures Hits(p, 3).healthHalves == 7 && Hits(p, 3).alive
  {
    HitsAddUp(p, 3);
  }

  // ---------------------------------------------------------------- join code

  predicate IsLetter(c: char)
  {
    'A' <= c <= 'Z'
  }

  /** A lobby code: four letters A-Z. */
  predicate IsCode(s: string)
  {
    |s| == 4 && forall i :: 0 <= i < |s| ==> IsLetter(s[i])
  }

  /** toUpperCase on an ASCII letter. */
  function ToUpper(c: char): char
  {
    if 'a' <= c <= 'z' then (c as int - 32) as char else c
  }

  function ToLower(c: char): char
  {
    if 'A' <= c <= 'Z' then (c as int + 32) as char else c
  }

  /** The letters A-Z that the upper case of c holds. toUpperCase maps each
      character on its own, by Unicode's full case mapping; besides the ASCII
      letters, seventeen characters have an upper case with A-Z letters in it,
      some of them several (sharp s to SS, the ligatures ff to FF and ffi to
      FFI) and some beside a mark that the filter then drops. */
  function LettersOfUpper(c: char): (r: string)
    ensures |r| <= 3
    ensures forall i :: 0 <= i < |r| ==> IsLetter(r[i])
  {
    if 'a' <= c <= 'z' || IsLetter(c) then [ToUpper(c)]
    else if c == '\U{00DF}' then "SS"    // sharp s
    else if c == '\U{0131}' then "I"     // dotless i
    else if c == '\U{0149}' then "N"     // n preceded by apostrophe
    else if c == '\U{017F}' then "S"     // long s
    else if c == '\U{01F0}' then "J"     // j with caron
    else if c == '\U{1E96}' then "H"     // h with line below
    else if c == '\U{1E97}' then "T"     // t with diaeresis
    else if c == '\U{1E98}' then "W"     // w with ring above
    else if c == '\U{1E99}' then "Y"     // y with ring above
    else if c == '\U{1E9A}' then "A"     // a with right half ring
    else if c == '\U{FB00}' then "FF"
    else if c == '\U{FB01}' then "FI"
    else if c == '\U{FB02}' then "FL"
    else if c == '\U{FB03}' then "FFI"
    else if c == '\U{FB04}' then "FFL"
    else if c == '\U{FB05}' || c == '\U{FB06}' then "ST"
    else []
  }

  /** s.toUpperCase().replace(/[^A-Z]/g, ""). */
  function UpperLetters(s: string): (r: string)
    ensures |r| <= 3 * |s|
    ensures forall i :: 0 <= i < |r| ==> IsLetter(r[i])
  {
    if s == [] then [] else LettersOfUpper(s[0]) + UpperLetters(s[1..])
  }

  /** The join form: upper-case, drop every non-letter, keep four characters,
      and reject the join unless exactly four remain. */
  function NormaliseJoinCode(raw: string): (code: Option<string>)
    ensures code.Some? ==> IsCode(code.value) && code.value <= UpperLetters(raw)
    ensures code.Some? <==> |UpperLetters(raw)| >= 4
  {
    var kept := UpperLetters(raw);
    var head := if |kept| <= 4 then kept else kept[..4];
    if |head| != 4 then None else Some(head)
  }

  /** ASCII letters written in either case survive the filter, upper-cased. */
  lemma {:induction false} LettersSurvive(s: string)
    requires forall i :: 0 <= i < |s| ==> 'a' <= s[i] <= 'z' || IsLetter(s[i])
    ensures UpperLetters(s) == seq(|s|, i requires 0 <= i < |s| => ToUpper(s[i]))
  {
    if s != [] {
      LettersSurvive(s[1..]);
    }
  }

  /** A code typed in lower case joins the lobby of that code. */
  lemma LowerCaseCodeAccepted(c: string)
    requires IsCode(c)
    ensures NormaliseJoinCode(seq(4, i requires 0 <= i < 4 => ToLower(c[i]))) == Some(c)
  {
    var typed := seq(4, i requires 0 <= i < 4 => ToLower(c[i]));
    LettersSurvive(typed);
    assert UpperLetters(typed) == c;
  }

  /** A well-formed code is accepted unchanged. */
  lemma CodeAccepted(c: string)
    requires IsCode(c)
    ensures NormaliseJoinCode(c) == Some(c)
  {
    LettersSurvive(c);
    assert UpperLetters(c) == c;
  }

  /** A code typed with sharp s or a ligature joins by its upper case:
      two sharp s make SSSS, and "ﬃx" makes FFIX. */
  lemma ExpandedLettersJoin()
    ensures NormaliseJoinCode("\U{00DF}\U{00DF}") == Some("SSSS")
    ensures NormaliseJoinCode("\U{FB03}x") == Some("FFIX")
  {
    var sharp: string := "\U{00DF}";
    assert UpperLetters(sharp) == "SS" + UpperLetters([]);
    assert (sharp + sharp)[1..] == sharp;
    assert UpperLetters(sharp + sharp) == "SSSS";
    assert "\U{00DF}\U{00DF}" == sharp + sharp;
    var x: string := "x";
    assert ToUpper('x') == 'X';
    assert UpperLetters(x) == "X" + UpperLetters([]);
    assert ("\U{FB03}" + x)[1..] == x;
    assert UpperLetters("\U{FB03}" + x) == "FFIX";
    assert "\U{FB03}x" == "\U{FB03}" + x;
  }
}
