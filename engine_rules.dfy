/**
 * The economy rules of the game server that act on single records: item
 * pickups, bullet hits, regeneration, the soft respawn, chat commands, bullet
 * placement, and the treasure scan.  The engine module applies them to its
 * maps.
 */
module EngineRules {
  import opened Options
  import opened Text

  type SocketId = string

  /** A position or velocity with integer coordinates (physics is not modelled). */
  datatype Vec = Vec(x: int, y: int)

  /** The two worlds; area code 1 (the outdoor planet) is Outdoor, everything else is treated as the lounge. */
  datatype Area = Outdoor | Lounge

  /** The item a player holds; NoItem is JavaScript's `false`. */
  datatype HeldItem = NoItem | Gun | Shovel | Bury | Beer | Controller | Water | Pizza | Bong

  /** Pickup kinds: heart (1), coin (2), bullet (3). */
  datatype ItemType = Heart | Coin | Ammo

  /** The direction flags (keys w, a, s, d); a flag is on when it equals 1. */
  datatype Inputs = Inputs(w: int, a: int, s: int, d: int)

  datatype Player = Player(
    socketId: SocketId,
    username: string,
    ip: string,
    area: Area,
    lookIndex: int,
    health: nat,
    item: HeldItem,
    bullets: nat,
    coins: nat,
    kills: nat,
    deaths: nat,
    timeOnline: nat,
    reloadTimestamp: int,
    pos: Vec,
    inputs: Option<Inputs>)

  /** What a connecting client sends (body size is physics and is dropped). */
  datatype Join = Join(id: SocketId, pos: Vec, username: string, ip: string, area: Area, lookIndex: int)

  datatype Bullet = Bullet(pos: Vec, velocity: Vec, direction: int, firedBy: SocketId)
  datatype Item = Item(pos: Vec, itemType: ItemType)
  datatype LooseCoin = LooseCoin(pos: Vec, droppedBy: SocketId)
  datatype Treasure = Treasure(buriedBy: string, pos: Vec, coins: nat)

  const START_HEALTH: nat := 3
  const MAX_HEALTH: nat := 3
  const RELOAD_INTERVAL: nat := 60000
  const RELOAD_BULLETS: nat := 3
  const MAX_ITEMS: nat := 25
  const BULLET_VELO: int := 5
  const DIG_RADIUS: int := 16
  const INVINCIBLE_HEALTH: nat := 1000000
  const LOUNGE_DOOR: Vec := Vec(256, 448)
  const OUTDOOR_DOOR: Vec := Vec(525, 325)

  /** Direction codes of the keys. */
  const KEY_W: int := 0
  const KEY_A: int := 1
  const KEY_S: int := 2
  const KEY_D: int := 3

  /** The health invariant that holds as long as no debug command is used. */
  predicate HealthInRange(p: Player) { p.health <= MAX_HEALTH }

  // ---------------------------------------------------------------------------
  // Joining

  /** A newly joined player: full health, empty hands and purse, clocks started at `now`. */
  function NewPlayer(j: Join, now: int): (p: Player)
    ensures p.socketId == j.id && p.username == j.username && p.ip == j.ip && p.area == j.area
    ensures p.pos == j.pos && p.health == START_HEALTH && HealthInRange(p) && p.item == NoItem
    ensures p.bullets == 0 && p.coins == 0 && p.kills == 0 && p.deaths == 0
    ensures p.timeOnline == 0 && p.reloadTimestamp == now && p.inputs == None
  {
    Player(j.id, j.username, j.ip, j.area, j.lookIndex, START_HEALTH, NoItem, 0, 0, 0, 0, 0, now, j.pos, None)
  }

  // ---------------------------------------------------------------------------
  // Pickups and hits

  /** The effect of picking up an item: exactly one counter moves by one; a heart never lifts health past 3. */
  function CollectItem(p: Player, t: ItemType): (r: Player)
    ensures t == Ammo ==> r == p.(bullets := p.bullets + 1)
    ensures t == Coin ==> r == p.(coins := p.coins + 1)
    ensures t == Heart && p.health < MAX_HEALTH ==> r == p.(health := p.health + 1)
    ensures t == Heart && p.health >= MAX_HEALTH ==> r == p
    ensures HealthInRange(p) ==> HealthInRange(r)
  {
    match t
    case Ammo => p.(bullets := p.bullets + 1)
    case Coin => p.(coins := p.coins + 1)
    case Heart => if p.health < MAX_HEALTH then p.(health := p.health + 1) else p
  }

  /**
   * The victim's own record after a bullet: nothing at health 0, otherwise one
   * point of health lost and a death counted when it reaches 0.
   */
  function Hit(p: Player): (r: Player)
    ensures p.health == 0 ==> r == p
    ensures p.health > 0 ==> r.health + 1 == p.health
    ensures p.health == 1 ==> r == p.(health := 0, deaths := p.deaths + 1)
    ensures p.health > 1 ==> r == p.(health := p.health - 1)
    ensures HealthInRange(p) ==> HealthInRange(r)
  {
    if p.health > 0 then
      var q := p.(health := p.health - 1);
      if q.health == 0 then q.(deaths := q.deaths + 1) else q
    else p
  }

  /** The shooter's record after a kill. */
  function CreditKill(p: Player): (r: Player)
    ensures r.kills == p.kills + 1
    ensures r.(kills := p.kills) == p
  {
    p.(kills := p.kills + 1)
  }

  // ---------------------------------------------------------------------------
  // Dropping coins

  /** How many coins a drop of `amount` actually scatters: only outdoors, only with a balance, at most the balance. */
  function DropCount(p: Player, amount: nat): (n: nat)
    ensures n <= p.coins && n <= amount
    ensures p.area != Outdoor || p.coins == 0 || amount == 0 ==> n == 0
    ensures p.area == Outdoor && amount <= p.coins ==> n == amount
    ensures p.area == Outdoor && amount >= p.coins ==> n == p.coins
  {
    if p.area == Outdoor && p.coins > 0 then
      if amount > p.coins then p.coins else amount
    else 0
  }

  // ---------------------------------------------------------------------------
  // Regeneration, movement and the soft respawn

  /** Whether the reload interval has strictly passed since the last reload. */
  predicate ReloadDue(p: Player, now: int)
  {
    now - p.reloadTimestamp > RELOAD_INTERVAL
  }

  /**
   * One tick of regeneration: time online grows by `deltat` and is never
   * reset; when a reload is due the player gains 3 bullets and one coin per
   * full minute of total time online, and the reload clock restarts.
   */
  function Regen(p: Player, deltat: nat, now: int): (r: Player)
    ensures r.timeOnline == p.timeOnline + deltat
    ensures ReloadDue(p, now) ==>
      && r.bullets == p.bullets + RELOAD_BULLETS
      && r.coins == p.coins + r.timeOnline / RELOAD_INTERVAL
      && r.reloadTimestamp == now
    ensures !ReloadDue(p, now) ==> r == p.(timeOnline := p.timeOnline + deltat)
    ensures r.health == p.health && r.kills == p.kills && r.deaths == p.deaths && r.area == p.area
  {
    var q := p.(timeOnline := p.timeOnline + deltat);
    if ReloadDue(q, now) then
      q.(bullets := q.bullets + RELOAD_BULLETS,
         coins := q.coins + q.timeOnline / RELOAD_INTERVAL,
         reloadTimestamp := now)
    else q
  }

  /** Because time online is never reset, each later reload grants at least as many coins as an earlier one. */
  lemma RegenGrantNeverShrinks(p: Player, d1: nat, t1: int, d2: nat, t2: int)
    requires ReloadDue(p, t1)
    requires ReloadDue(Regen(p, d1, t1), t2)
    ensures var q := Regen(p, d1, t1);
      Regen(q, d2, t2).coins - q.coins >= q.coins - p.coins
  {
    var q := Regen(p, d1, t1);
    var a, b := q.timeOnline, q.timeOnline + d2;
    assert b / RELOAD_INTERVAL >= a / RELOAD_INTERVAL by {
      DivMonotone(a, b, RELOAD_INTERVAL);
    }
  }

  lemma DivMonotone(a: nat, b: nat, d: nat)
    requires a <= b && d > 0
    ensures a / d <= b / d
  {
    var qa, qb := a / d, b / d;
    assert qa * d <= a;
    assert b < qb * d + d == (qb + 1) * d;
    MulCancel(qa, qb + 1, d);
  }

  lemma MulCancel(x: int, y: int, d: int)
    requires d > 0 && x * d < y * d
    ensures x < y
  {
  }

  /** Whether any direction flag is on. */
  predicate Moving(i: Inputs)
  {
    i.a == 1 || i.d == 1 || i.w == 1 || i.s == 1
  }

  /** A fainted player (health 0) who presses any direction is restored to full health at once. */
  function SoftRespawn(p: Player): (r: Player)
    ensures p.health == 0 && p.inputs.Some? && Moving(p.inputs.value) ==> r == p.(health := START_HEALTH)
    ensures !(p.health == 0 && p.inputs.Some? && Moving(p.inputs.value)) ==> r == p
    ensures HealthInRange(p) ==> HealthInRange(r)
  {
    if p.inputs.Some? && Moving(p.inputs.value) && p.health == 0 then p.(health := START_HEALTH) else p
  }

  /** One player's share of an engine tick: regeneration, then the input check. */
  function TickPlayer(p: Player, deltat: nat, now: int): (r: Player)
    ensures r.socketId == p.socketId && r.area == p.area && r.username == p.username && r.ip == p.ip
    ensures r.timeOnline == p.timeOnline + deltat
    ensures r.bullets >= p.bullets && r.coins >= p.coins
    ensures HealthInRange(p) ==> HealthInRange(r)
  {
    SoftRespawn(Regen(p, deltat, now))
  }

  // ---------------------------------------------------------------------------
  // Shooting

  /** Where a shot appears: 18 below/above for s/w, 16 right/left for d/a, on the player otherwise. */
  function BulletPos(pos: Vec, direction: int): Vec
  {
    if direction == KEY_S then Vec(pos.x, pos.y + 18)
    else if direction == KEY_D then Vec(pos.x + 16, pos.y)
    else if direction == KEY_W then Vec(pos.x, pos.y - 18)
    else if direction == KEY_A then Vec(pos.x - 16, pos.y)
    else pos
  }

  /** The velocity a shot is given; none is set for an unknown direction, so it stays at rest. */
  function BulletVelocity(direction: int): Vec
  {
    if direction == KEY_S then Vec(0, BULLET_VELO)
    else if direction == KEY_D then Vec(BULLET_VELO, 0)
    else if direction == KEY_W then Vec(0, -BULLET_VELO)
    else if direction == KEY_A then Vec(-BULLET_VELO, 0)
    else Vec(0, 0)
  }

  function Sign(n: int): int { if n > 0 then 1 else if n < 0 then -1 else 0 }

  /**
   * The muzzle offset is 18 down for s, 16 right for d, 18 up for w and 16
   * left for a; it points the way the bullet flies, and is zero exactly when
   * the direction is unknown, which is also when no velocity is set.
   */
  lemma MuzzleAlongVelocity(pos: Vec, direction: int)
    ensures var off := Vec(BulletPos(pos, direction).x - pos.x, BulletPos(pos, direction).y - pos.y);
      var v := BulletVelocity(direction);
      && (direction == KEY_S ==> off == Vec(0, 18))
      && (direction == KEY_D ==> off == Vec(16, 0))
      && (direction == KEY_W ==> off == Vec(0, -18))
      && (direction == KEY_A ==> off == Vec(-16, 0))
      && Sign(off.x) == Sign(v.x) && Sign(off.y) == Sign(v.y)
      && (off == Vec(0, 0) <==> !(0 <= direction <= 3))
      && (v == Vec(0, 0) <==> !(0 <= direction <= 3))
  {
  }

  /** The shooter's record after a successful shot. */
  function Fire(p: Player): (r: Player)
    requires p.bullets > 0
    ensures r.bullets + 1 == p.bullets
    ensures r.(bullets := p.bullets) == p
  {
    p.(bullets := p.bullets - 1)
  }

  /** Whether a shot is allowed: outdoors with at least one bullet. */
  predicate CanShoot(p: Player)
  {
    p.area == Outdoor && p.bullets > 0
  }

  // ---------------------------------------------------------------------------
  // Chat commands

  /** The item a toggle command names; "/gaming", "/game" and "/controller" are aliases. */
  function CommandItem(command: string): (r: Option<HeldItem>)
    ensures r.Some? ==> r.value != NoItem
  {
    if command == "/gun" then Some(Gun)
    else if command == "/shovel" then Some(Shovel)
    else if command == "/bury" then Some(Bury)
    else if command == "/beer" then Some(Beer)
    else if command == "/pizza" then Some(Pizza)
    else if command == "/bong" then Some(Bong)
    else if command == "/water" then Some(Water)
    else if command == "/gaming" || command == "/game" || command == "/controller" then Some(Controller)
    else None
  }

  /** Toggling puts the item away if it is held and takes it in hand otherwise. */
  function Toggle(current: HeldItem, it: HeldItem): (r: HeldItem)
    requires it != NoItem
    ensures r == it <==> current != it
    ensures r != it ==> r == NoItem
  {
    if current == it then NoItem else it
  }

  lemma ControllerAliases()
    ensures CommandItem("/gaming") == CommandItem("/game") == CommandItem("/controller") == Some(Controller)
  {
  }

  /**
   * Toggling the same item twice returns to where it started from empty
   * hands or from holding that item; from holding another item it ends with
   * empty hands, since the first toggle swaps the other item out.
   */
  lemma ToggleTwice(current: HeldItem, it: HeldItem)
    requires it != NoItem
    ensures current == NoItem || current == it ==> Toggle(Toggle(current, it), it) == current
    ensures current != NoItem && current != it ==> Toggle(Toggle(current, it), it) == NoItem
  {
  }

  // ---------------------------------------------------------------------------
  // Treasure

  /** A dig at `p` reaches a treasure at `t` when both coordinates are within 16, inclusive. */
  predicate InDigRange(p: Vec, t: Vec)
  {
    t.x - DIG_RADIUS <= p.x <= t.x + DIG_RADIUS && t.y - DIG_RADIUS <= p.y <= t.y + DIG_RADIUS
  }

  /** The record left by burying: the player's username, position and whole balance. */
  function BuriedTreasure(p: Player): (t: Treasure)
    ensures t.coins == p.coins && t.pos == p.pos && t.buriedBy == p.username
    ensures InDigRange(p.pos, t.pos)
  {
    Treasure(p.username, p.pos, p.coins)
  }

  /** What a dig leaves behind and what it claims, in claim order. */
  datatype DigResult = DigResult(remaining: seq<Treasure>, claimed: seq<Treasure>)

  /** The list after `splice(index, 1)`: the entry at `index` is taken out, an index past the end changes nothing. */
  function Splice(ts: seq<Treasure>, index: nat): (r: seq<Treasure>)
    ensures index < |ts| ==> |r| + 1 == |ts|
    ensures index < |ts| ==> forall k | 0 <= k < index :: r[k] == ts[k]
    ensures index < |ts| ==> forall k | index <= k < |r| :: r[k] == ts[k + 1]
    ensures index >= |ts| ==> r == ts
  {
    if index < |ts| then ts[..index] + ts[index + 1..] else ts
  }

  /** Splicing one entry out takes one copy out of the multiset and keeps the rest. */
  lemma SpliceMultiset(ts: seq<Treasure>, k: nat)
    requires k < |ts|
    ensures multiset(ts) == multiset(Splice(ts, k)) + multiset{ts[k]}
  {
    assert ts == ts[..k] + [ts[k]] + ts[k + 1..];
  }

  /**
   * The scan of the treasure list, index k of the original length len0: each
   * treasure in range is claimed and spliced out, and the scan then moves on to
   * index k + 1, so the treasure that slid into slot k is not looked at.
   */
  function DigScan(ts: seq<Treasure>, pos: Vec, k: nat, len0: nat): DigResult
    decreases len0 - k
  {
    if k >= len0 then DigResult(ts, [])
    else if k < |ts| && InDigRange(pos, ts[k].pos) then
      var rest := DigScan(Splice(ts, k), pos, k + 1, len0);
      DigResult(rest.remaining, [ts[k]] + rest.claimed)
    else DigScan(ts, pos, k + 1, len0)
  }

  /** The scan only claims treasure in range, and every treasure ends up either claimed or still buried, once. */
  lemma {:induction false} DigScanSound(ts: seq<Treasure>, pos: Vec, k: nat, len0: nat)
    ensures var r := DigScan(ts, pos, k, len0);
      && (forall t :: t in r.claimed ==> InDigRange(pos, t.pos))
      && multiset(r.remaining) + multiset(r.claimed) == multiset(ts)
    decreases len0 - k
  {
    if k < len0 {
      if k < |ts| && InDigRange(pos, ts[k].pos) {
        DigScanSound(Splice(ts, k), pos, k + 1, len0);
        SpliceMultiset(ts, k);
      } else {
        DigScanSound(ts, pos, k + 1, len0);
      }
    }
  }

  function Dig(ts: seq<Treasure>, pos: Vec): DigResult
  {
    DigScan(ts, pos, 0, |ts|)
  }

  /** The coins held by a list of treasures. */
  function SumCoins(ts: seq<Treasure>): nat
  {
    if ts == [] then 0 else SumCoins(ts[..|ts| - 1]) + ts[|ts| - 1].coins
  }

  lemma SumCoinsSnoc(ts: seq<Treasure>, t: Treasure)
    ensures SumCoins(ts + [t]) == SumCoins(ts) + t.coins
  {
    assert (ts + [t])[..|ts|] == ts;
  }

  /**
   * The balance after each claim, in order, starting from `coins`: what the
   * dig pushes to the coin leaderboard.
   */
  function RunningTotals(coins: nat, claimed: seq<Treasure>): (r: seq<nat>)
    ensures |r| == |claimed|
    ensures claimed != [] ==> r[|r| - 1] == coins + SumCoins(claimed)
  {
    if claimed == [] then []
    else RunningTotals(coins, claimed[..|claimed| - 1]) + [coins + SumCoins(claimed)]
  }

  /** One more claim appends the new balance to the running totals. */
  lemma RunningTotalsSnoc(coins: nat, claimed: seq<Treasure>, t: Treasure)
    ensures RunningTotals(coins, claimed + [t]) == RunningTotals(coins, claimed) + [coins + SumCoins(claimed) + t.coins]
  {
    assert (claimed + [t])[..|claimed|] == claimed;
    SumCoinsSnoc(claimed, t);
  }

  /** Nothing in range: the dig changes nothing. */
  lemma {:induction false} DigNoMatch(ts: seq<Treasure>, pos: Vec, k: nat, len0: nat)
    requires forall t :: t in ts ==> !InDigRange(pos, t.pos)
    ensures DigScan(ts, pos, k, len0) == DigResult(ts, [])
    decreases len0 - k
  {
    if k < len0 { DigNoMatch(ts, pos, k + 1, len0); }
  }

  /** Exactly one treasure in range: it is claimed and removed, and the rest stay in order. */
  lemma DigSingle(ts: seq<Treasure>, pos: Vec, i: nat)
    requires i < |ts| && InDigRange(pos, ts[i].pos)
    requires forall k :: 0 <= k < |ts| && k != i ==> !InDigRange(pos, ts[k].pos)
    ensures Dig(ts, pos) == DigResult(ts[..i] + ts[i + 1..], [ts[i]])
  {
    DigSingleFrom(ts, pos, i, 0);
  }

  /** Without its only treasure in range, none of the rest is in range. */
  lemma OthersOutOfRange(ts: seq<Treasure>, pos: Vec, i: nat)
    requires i < |ts|
    requires forall m :: 0 <= m < |ts| && m != i ==> !InDigRange(pos, ts[m].pos)
    ensures forall t :: t in ts[..i] + ts[i + 1..] ==> !InDigRange(pos, t.pos)
  {
    var rest := ts[..i] + ts[i + 1..];
    forall t | t in rest ensures !InDigRange(pos, t.pos) {
      var m :| 0 <= m < |rest| && rest[m] == t;
      if m < i { assert rest[m] == ts[m]; } else { assert rest[m] == ts[m + 1]; }
    }
  }

  lemma {:induction false} DigSingleFrom(ts: seq<Treasure>, pos: Vec, i: nat, k: nat)
    requires i < |ts| && InDigRange(pos, ts[i].pos) && k <= i
    requires forall m :: 0 <= m < |ts| && m != i ==> !InDigRange(pos, ts[m].pos)
    ensures DigScan(ts, pos, k, |ts|) == DigResult(ts[..i] + ts[i + 1..], [ts[i]])
    decreases i - k
  {
    if k < i {
      DigSingleFrom(ts, pos, i, k + 1);
    } else {
      OthersOutOfRange(ts, pos, i);
      DigNoMatch(ts[..i] + ts[i + 1..], pos, k + 1, |ts|);
    }
  }

  /** Two treasures in range next to each other: the scan claims the first and skips the second. */
  lemma DigSkipsNeighbour(a: Treasure, b: Treasure, pos: Vec)
    requires InDigRange(pos, a.pos) && InDigRange(pos, b.pos)
    ensures Dig([a, b], pos) == DigResult([b], [a])
  {
    assert [a, b][..0] + [a, b][1..] == [b];
    assert DigScan([b], pos, 1, 2) == DigResult([b], []);
  }

  /**
   * Burying and then digging on the same spot (with no other treasure in
   * range) claims exactly the buried hoard, restoring the balance.
   */
  lemma BuryThenDig(p: Player, ts: seq<Treasure>)
    requires forall t :: t in ts ==> !InDigRange(p.pos, t.pos)
    ensures var r := Dig(ts + [BuriedTreasure(p)], p.pos);
      && r == DigResult(ts, [BuriedTreasure(p)])
      && SumCoins(r.claimed) == p.coins
  {
    var all := ts + [BuriedTreasure(p)];
    forall k | 0 <= k < |all| && k != |ts| ensures !InDigRange(p.pos, all[k].pos) {
      assert all[k] == ts[k];
    }
    DigSingle(all, p.pos, |ts|);
    assert all[..|ts|] + all[|ts| + 1..] == ts;
  }
}
