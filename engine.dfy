/**
 * The game server's engine: the world it holds (see EngineWorld) and the
 * leaderboard it reports to, with one method per operation of the server.
 * Physics, randomness, the clock, ids and all broadcasts are outside the
 * model: positions, spawned items and `now` arrive as parameters, and fresh
 * ids come from a counter in the world.
 */
module GameEngine {
  import opened Options
  import opened Leaderboard
  import opened EngineRules
  import opened EngineWorld

  /** Sends one statistic to a board. */
  method Record(board: Board, r: Report)
    requires board.Valid()
    modifies board.coins, board.kills, board.deaths
    ensures board.Valid()
    ensures board.Current() == old(board.Current()).Add(r)
  {
    var _ := board.AddStats(r.stat, r.line);
  }

  /**
   * The forEach of a tick: each player in join order regenerates, reports its
   * coins to the board when a reload happens, and gets the soft respawn check.
   */
  method TickPlayers(board: Board, order: seq<SocketId>, ps: map<SocketId, Player>, deltat: nat, now: int)
    returns (qs: map<SocketId, Player>)
    requires board.Valid()
    requires forall k | 0 <= k < |order| :: order[k] in ps
    modifies board.coins, board.kills, board.deaths
    ensures board.Valid()
    ensures qs == TickAll(ps, order, deltat, now)
    ensures board.Current() == TickStandings(old(board.Current()), ps, order, deltat, now)
  {
    ghost var base := board.Current();
    qs := ps;
    var i := 0;
    while i < |order|
      invariant 0 <= i <= |order|
      invariant board.Valid()
      invariant qs == TickAll(ps, order[..i], deltat, now)
      invariant board.Current() == TickStandings(base, ps, order[..i], deltat, now)
    {
      var id := order[i];
      TickStep(base, ps, order, i, deltat, now);
      var p := qs[id];
      var q := Regen(p, deltat, now);
      if ReloadDue(p, now) {
        Record(board, Report(Coins, Line(q, q.coins)));
      }
      qs := qs[id := SoftRespawn(q)];
      i := i + 1;
    }
    assert order[..i] == order;
  }

  /** A whole tick of the world: prepared, then every player visited in join order, posting to the board. */
  method TickWorld(board: Board, w: World, newDay: bool, now: int, spawn: Item) returns (w': World)
    requires board.Valid() && Consistent(w) && now >= w.clock
    modifies board.coins, board.kills, board.deaths
    ensures board.Valid() && Consistent(w')
    ensures w' == Tick(w, newDay, now, spawn)
    ensures board.Current() == TickPosts(old(board.Current()), w, now)
  {
    var deltat := Elapsed(w, now);
    TickedKeepsConsistent(w, newDay, now, spawn);
    var ps := TickPlayers(board, w.joinOrder, w.players, deltat, now);
    w' := Prepared(w, newDay, now, spawn).(players := ps);
  }

  class Engine {
    var world: World
    var leaderboard: Board

    function Standings(): Standings
      reads this, leaderboard.coins, leaderboard.kills, leaderboard.deaths
    {
      leaderboard.Current()
    }

    ghost predicate Valid()
      reads this, leaderboard.coins, leaderboard.kills, leaderboard.deaths
    {
      leaderboard.Valid() && Consistent(world)
    }

    /** An engine with no players, started at `now` with a board for `today`. */
    constructor (today: Date, now: int)
      ensures Valid()
      ensures world == EmptyWorld(now)
      ensures Standings() == EmptyStandings() && leaderboard.date == Yyyymmdd(today)
    {
      world := EmptyWorld(now);
      leaderboard := new Board(today);
    }

    /** Sends one statistic to the leaderboard. */
    method Post(r: Report)
      requires leaderboard.Valid()
      modifies leaderboard.coins, leaderboard.kills, leaderboard.deaths
      ensures leaderboard.Valid()
      ensures Standings() == old(Standings()).Add(r)
    {
      Record(leaderboard, r);
    }

    // -------------------------------------------------------------------------
    // Joining and leaving

    /** A connecting player is added once; a second join under the same id does nothing. */
    method AddPlayer(j: Join, now: int)
      requires Valid()
      modifies this`world
      ensures Valid()
      ensures j.id in old(world.players) ==> world == old(world)
      ensures j.id !in old(world.players) ==> world == Joined(old(world), NewPlayer(j, now))
      ensures j.id in world.players
    {
      if j.id !in world.players {
        var p := NewPlayer(j, now);
        JoinKeepsConsistent(world, p);
        var outdoor, lounge := world.outdoorWorld, world.loungeWorld;
        if p.area == Outdoor {
          outdoor := outdoor + {j.id};
        } else {
          lounge := lounge + {j.id};
        }
        world := world.(players := world.players[j.id := p], joinOrder := world.joinOrder + [j.id],
                        outdoorWorld := outdoor, loungeWorld := lounge);
      }
    }

    /**
     * A disconnect: the record goes and the display name is returned; only the
     * outdoor world is asked to drop the body.  An unknown id returns None.
     */
    method RemovePlayer(id: SocketId) returns (r: Option<string>)
      requires Valid()
      modifies this`world
      ensures Valid()
      ensures id !in old(world.players) ==> r == None && world == old(world)
      ensures id in old(world.players) ==>
        && r == Some(DisplayName(old(world.players[id].username)))
        && world == Left(old(world), id)
      ensures id !in world.players
    {
      if id in world.players {
        LeaveKeepsConsistent(world, id);
        r := Some(DisplayName(world.players[id].username));
        world := world.(players := world.players - {id}, joinOrder := Without(world.joinOrder, id),
                        outdoorWorld := world.outdoorWorld - {id});
      } else {
        r := None;
      }
    }

    // -------------------------------------------------------------------------
    // Moving, looking and steering

    method EnterLounge(id: SocketId)
      requires Valid()
      modifies this`world
      ensures Valid()
      ensures id !in old(world.players) ==> world == old(world)
      ensures id in old(world.players) ==> world == Entered(old(world), id)
    {
      if id in world.players {
        var p := world.players[id].(area := Lounge, pos := LOUNGE_DOOR);
        PlacedIn(world, id);
        MoveKeepsConsistent(world, p);
        world := world.(players := world.players[id := p],
                        outdoorWorld := world.outdoorWorld - {id}, loungeWorld := world.loungeWorld + {id});
      }
    }

    method ExitLounge(id: SocketId)
      requires Valid()
      modifies this`world
      ensures Valid()
      ensures id !in old(world.players) ==> world == old(world)
      ensures id in old(world.players) ==> world == Exited(old(world), id)
    {
      if id in world.players {
        var p := world.players[id].(area := Outdoor, pos := OUTDOOR_DOOR);
        PlacedIn(world, id);
        MoveKeepsConsistent(world, p);
        world := world.(players := world.players[id := p],
                        outdoorWorld := world.outdoorWorld + {id}, loungeWorld := world.loungeWorld - {id});
      }
    }

    /** The latest inputs of a player, kept for the next tick. */
    method UpdatePlayer(id: SocketId, inputs: Option<Inputs>)
      requires Valid()
      modifies this`world
      ensures Valid()
      ensures id !in old(world.players) ==> world == old(world)
      ensures id in old(world.players) ==>
        world == old(world).(players := old(world.players)[id := old(world.players[id]).(inputs := inputs)])
    {
      if id in world.players {
        var p := world.players[id].(inputs := inputs);
        UpdateKeepsConsistent(world, id, p);
        world := world.(players := world.players[id := p]);
      }
    }

    method SetPlayerLook(id: SocketId, lookIndex: int)
      requires Valid()
      modifies this`world
      ensures Valid()
      ensures id !in old(world.players) ==> world == old(world)
      ensures id in old(world.players) ==>
        world == old(world).(players := old(world.players)[id := old(world.players[id]).(lookIndex := lookIndex)])
    {
      if id in world.players {
        var p := world.players[id].(lookIndex := lookIndex);
        UpdateKeepsConsistent(world, id, p);
        world := world.(players := world.players[id := p]);
      }
    }

    // -------------------------------------------------------------------------
    // Pickups, hits and dropped coins

    /** A player picks up an item: one counter moves, and a picked-up coin is reported. */
    method CollectedItem(id: SocketId, t: ItemType)
      requires Valid() && id in world.players
      modifies this`world, leaderboard.coins, leaderboard.kills, leaderboard.deaths
      ensures Valid()
      ensures world == old(world).(players := old(world.players)[id := CollectItem(old(world.players[id]), t)])
      ensures t == Coin ==> Standings() == old(Standings()).Add(Report(Coins, Line(world.players[id], world.players[id].coins)))
      ensures t != Coin ==> Standings() == old(Standings())
    {
      var p := world.players[id];
      var q := CollectItem(p, t);
      UpdateKeepsConsistent(world, id, q);
      world := world.(players := world.players[id := q]);
      if t == Coin {
        Post(Report(Coins, Line(q, q.coins)));
      }
    }

    /**
     * Scatters up to `amount` coins (never more than the balance) from an
     * outdoor player with a balance, each under a fresh id and tagged with the
     * dropper.
     */
    method DropCoins(id: SocketId, amount: nat)
      requires Valid()
      modifies this`world
      ensures Valid()
      ensures id !in old(world.players) ==> world == old(world)
      ensures id in old(world.players) ==> world == Dropped(old(world), id, DropCount(old(world.players[id]), amount))
    {
      if id in world.players && world.players[id].area == Outdoor && world.players[id].coins > 0 {
        var w := world;
        var p := w.players[id];
        var n := if amount > p.coins then p.coins else amount;
        DropKeepsConsistent(w, id, n);
        var coins := ScatterCoins(w.looseCoins, w.nextId, n, LooseCoin(p.pos, id));
        DroppedFields(w, id, n, coins);
        world := w.(players := w.players[id := p.(coins := p.coins - n)], looseCoins := coins, nextId := w.nextId + n);
      } else if id in world.players {
        NothingDropped(world, id);
      }
    }

    /** The expiry or pickup of a loose coin, whether or not it still exists. */
    method RemoveLooseCoin(id: nat)
      requires Valid()
      modifies this`world
      ensures Valid()
      ensures world == old(world).(looseCoins := old(world.looseCoins) - {id})
    {
      world := world.(looseCoins := world.looseCoins - {id});
    }

    /** The removal of an item, whether or not it still exists. */
    method RemoveItem(id: nat)
      requires Valid()
      modifies this`world
      ensures Valid()
      ensures world == old(world).(items := old(world.items) - {id})
    {
      world := world.(items := world.items - {id});
    }

    /**
     * A bullet hits a player (see HitWorld and HitStandings).  When the
     * shooter is gone the death feed line reads a missing record: `crashed`
     * reports that the handler throws at that point, after the state below is
     * reached.
     */
    method HitByBullet(victim: SocketId, firedBy: SocketId) returns (crashed: bool)
      requires Valid() && victim in world.players
      modifies this`world, leaderboard.coins, leaderboard.kills, leaderboard.deaths
      ensures Valid()
      ensures world == HitWorld(old(world), victim, firedBy)
      ensures victim in world.players
      ensures Standings() == HitStandings(old(Standings()), old(world), world, victim, firedBy)
      ensures crashed <==> old(world.players[victim].health) == 1 && firedBy !in old(world.players)
    {
      var p := world.players[victim];
      crashed := false;
      if p.health > 0 {
        var q := Hit(p);
        UpdateKeepsConsistent(world, victim, q);
        world := world.(players := world.players[victim := q]);
        if q.health == 0 {
          crashed := Faint(victim, firedBy);
        }
      }
    }

    /** The fainting part of a hit: the death is reported, the coins dropped, the shooter credited. */
    method Faint(victim: SocketId, firedBy: SocketId) returns (crashed: bool)
      requires Valid() && victim in world.players && world.players[victim].health == 0
      modifies this`world, leaderboard.coins, leaderboard.kills, leaderboard.deaths
      ensures Valid()
      ensures
        var d := Dropped(old(world), victim, DropCount(old(world.players[victim]), old(world.players[victim].coins)));
        world == d.(players := Credited(d.players, firedBy))
      ensures victim in world.players
      ensures
        var t := old(Standings()).Add(Report(Deaths, Line(world.players[victim], world.players[victim].deaths)));
        && (firedBy in world.players ==> Standings() == t.Add(Report(Kills, Line(world.players[firedBy], world.players[firedBy].kills))))
        && (firedBy !in world.players ==> Standings() == t)
      ensures crashed <==> firedBy !in old(world.players)
    {
      var p := world.players[victim];
      Post(Report(Deaths, Line(p, p.deaths)));
      DropCoins(victim, p.coins);
      crashed := false;
      if firedBy in world.players {
        var s := CreditKill(world.players[firedBy]);
        CreditKeepsConsistent(world, firedBy);
        world := world.(players := world.players[firedBy := s]);
        Post(Report(Kills, Line(s, s.kills)));
      } else {
        crashed := true;
      }
    }

    // -------------------------------------------------------------------------
    // Shooting, spawning, and chat commands

    /** A shot from an outdoor player with bullets: the new bullet, or None when the shot is refused. */
    method ShootBullet(id: SocketId, direction: int) returns (b: Option<Bullet>)
      requires Valid()
      modifies this`world
      ensures Valid()
      ensures b.Some? <==> id in old(world.players) && CanShoot(old(world.players[id]))
      ensures b.None? ==> world == old(world)
      ensures b.Some? ==>
        && world == Shot(old(world), id, direction)
        && b.value == world.bullets[old(world.nextId)]
    {
      if id in world.players && world.players[id].area == Outdoor && world.players[id].bullets > 0 {
        var p := world.players[id];
        ShotKeepsConsistent(world, id, direction);
        var bullet := Bullet(BulletPos(p.pos, direction), BulletVelocity(direction), direction, p.socketId);
        world := world.(players := world.players[id := p.(bullets := p.bullets - 1)],
                        bullets := world.bullets[world.nextId := bullet], nextId := world.nextId + 1);
        b := Some(bullet);
      } else {
        b := None;
      }
    }

    /** A new item, placed by the caller, while fewer than 25 exist. */
    method SpawnRandomItem(it: Item)
      requires Valid()
      modifies this`world
      ensures Valid()
      ensures world == Spawned(old(world), it)
    {
      SpawnKeepsConsistent(world, it);
      if |world.items| < MAX_ITEMS {
        world := world.(items := world.items[world.nextId := it], nextId := world.nextId + 1);
      }
    }

    /** A chat command: toggles return the item now held; everything else returns None. */
    method ExecuteCommand(id: SocketId, command: string) returns (r: Option<HeldItem>)
      requires Valid()
      modifies this`world
      ensures Valid()
      ensures id !in old(world.players) ==> world == old(world)
      ensures id in old(world.players) ==> world == Commanded(old(world), id, command)
      ensures r.Some? <==> id in old(world.players) && CommandItem(command).Some?
      ensures r.Some? ==> id in world.players && r.value == world.players[id].item
    {
      r := None;
      if id in world.players {
        CommandKeepsConsistent(world, id, command);
        var p := world.players[id];
        var named := CommandItem(command);
        if named.Some? {
          var q := p.(item := Toggle(p.item, named.value));
          world := world.(players := world.players[id := q]);
          r := Some(q.item);
        } else if command == "/reset$" {
          world := world.(items := map[]);
        } else if command == "/bullets$" {
          world := world.(players := world.players[id := p.(bullets := p.bullets + 5)]);
        } else if command == "/invincible$" {
          world := world.(players := world.players[id := p.(health := INVINCIBLE_HEALTH)]);
        }
      }
    }

    // -------------------------------------------------------------------------
    // Treasure

    /** An outdoor player buries the whole balance where it stands. */
    method BuryTreasure(id: SocketId)
      requires Valid()
      modifies this`world
      ensures Valid()
      ensures id in old(world.players) && old(world.players[id].area) == Outdoor ==> world == Buried(old(world), id)
      ensures !(id in old(world.players) && old(world.players[id].area) == Outdoor) ==> world == old(world)
    {
      if id in world.players && world.players[id].area == Outdoor {
        var p := world.players[id];
        var t := Treasure(p.username, p.pos, p.coins);
        BuryKeepsConsistent(world, id);
        world := world.(players := world.players[id := p.(coins := p.coins - t.coins)], treasures := world.treasures + [t]);
      }
    }

    /** A claimed treasure: its coins are credited, the entry at `index` is spliced out, and the balance is reported. */
    method FoundTreasure(id: SocketId, t: Treasure, index: nat)
      requires Valid()
      modifies this`world, leaderboard.coins, leaderboard.kills, leaderboard.deaths
      ensures Valid()
      ensures id !in old(world.players) ==> world == old(world) && Standings() == old(Standings())
      ensures id in old(world.players) ==>
        && world == Found(old(world), id, t, index)
        && Standings() == old(Standings()).Add(Report(Coins, Line(world.players[id], world.players[id].coins)))
    {
      if id in world.players {
        var p := world.players[id];
        var q := p.(coins := p.coins + t.coins);
        UpdateKeepsConsistent(world, id, q);
        world := world.(players := world.players[id := q], treasures := Splice(world.treasures, index));
        Post(Report(Coins, Line(q, q.coins)));
      }
    }

    /**
     * An outdoor player digs: the forEach over the treasure list, claiming
     * each treasure in range as it goes (see DigScan for the entry it skips).
     */
    method DigForTreasure(id: SocketId)
      requires Valid()
      modifies this`world, leaderboard.coins, leaderboard.kills, leaderboard.deaths
      ensures Valid()
      ensures !(id in old(world.players) && old(world.players[id].area) == Outdoor) ==>
        world == old(world) && Standings() == old(Standings())
      ensures id in old(world.players) && old(world.players[id].area) == Outdoor ==>
        && world == Dug(old(world), id)
        && Standings() == DigStandings(old(Standings()), old(world.players[id]), old(world.players[id].coins),
                                       Dig(old(world.treasures), old(world.players[id].pos)).claimed)
    {
      if id in world.players && world.players[id].area == Outdoor {
        ghost var w0 := world;
        ghost var t0 := Standings();
        ghost var claimed: seq<Treasure> := [];
        var pos := world.players[id].pos;
        var len0 := |world.treasures|;
        DigStarts(world, id);
        var k := 0;
        while k < len0
          invariant k <= len0
          invariant Valid() && id in w0.players
          invariant world == Digging(w0, id, world.treasures, claimed)
          invariant DigOnTrack(w0, id, world.treasures, claimed, k)
          invariant Standings() == DigStandings(t0, w0.players[id], w0.players[id].coins, claimed)
        {
          claimed := DigSlot(id, pos, k, w0, t0, claimed);
          k := k + 1;
        }
        DigEnds(w0, id, world.treasures, claimed);
      }
    }

    /** One pass of the forEach: slot `k` is claimed when its treasure is in range, and the scan stays on track. */
    method DigSlot(id: SocketId, pos: Vec, k: nat, ghost w0: World, ghost t0: Standings, ghost claimed: seq<Treasure>)
      returns (ghost claimed': seq<Treasure>)
      requires Valid() && t0.WellFormed() && id in w0.players && pos == w0.players[id].pos && k < |w0.treasures|
      requires world == Digging(w0, id, world.treasures, claimed)
      requires DigOnTrack(w0, id, world.treasures, claimed, k)
      requires Standings() == DigStandings(t0, w0.players[id], w0.players[id].coins, claimed)
      modifies this`world, leaderboard.coins, leaderboard.kills, leaderboard.deaths
      ensures Valid()
      ensures world == Digging(w0, id, world.treasures, claimed')
      ensures DigOnTrack(w0, id, world.treasures, claimed', k + 1)
      ensures Standings() == DigStandings(t0, w0.players[id], w0.players[id].coins, claimed')
    {
      if k < |world.treasures| && InDigRange(pos, world.treasures[k].pos) {
        var t := world.treasures[k];
        ghost var cur := world.treasures;
        DigClaims(w0, id, cur, claimed, k);
        FoundTreasure(id, t, k);
        DigStandingsSnoc(t0, w0.players[id], w0.players[id].coins, claimed, t, world.players[id]);
        claimed' := claimed + [t];
      } else {
        DigPasses(w0, id, world.treasures, claimed, k);
        claimed' := claimed;
      }
    }

    // -------------------------------------------------------------------------
    // The tick

    /**
     * One engine tick, only while somebody is connected: the board is swapped
     * for a new one on a new day (and the treasure is cleared), the clock
     * advances to `now`, an item is spawned while fewer than 25 exist, and
     * every player is visited in join order.
     */
    method Update(today: Date, now: int, spawn: Item)
      requires Valid() && now >= world.clock
      modifies this`world, this`leaderboard, leaderboard.coins, leaderboard.kills, leaderboard.deaths
      ensures Valid()
      ensures |old(world.players)| == 0 ==>
        world == old(world) && leaderboard == old(leaderboard) && Standings() == old(Standings())
      ensures |old(world.players)| > 0 ==>
        var newDay := Yyyymmdd(today) != old(leaderboard.date);
        && world == Tick(old(world), newDay, now, spawn)
        && leaderboard.date == Yyyymmdd(today)
        && Standings() == TickPosts(if newDay then EmptyStandings() else old(Standings()), old(world), now)
    {
      if |world.players| > 0 {
        var w := world;
        var newDay := Yyyymmdd(today) != leaderboard.date;
        leaderboard := leaderboard.CheckForReset(today);
        world := TickWorld(leaderboard, w, newDay, now, spawn);
      }
    }

    // -------------------------------------------------------------------------
    // Collisions

    /**
     * The handler of the outdoor world's collision events, for the first pair
     * of an event: the bullet block, then the item block, then the coin block
     * (see Collision and the lemmas after it).  A hit that throws ends the
     * handler.
     */
    method CollisionStart(a: Body, b: Body) returns (crashed: bool)
      requires Valid() && InWorld(world, a) && InWorld(world, b)
      modifies this`world, leaderboard.coins, leaderboard.kills, leaderboard.deaths
      ensures Valid()
      ensures
        var r := Collision(old(world), old(Standings()), a, b);
        world == r.world && Standings() == r.standings && crashed == r.crashed
    {
      InWorldKnown(world, a);
      InWorldKnown(world, b);
      crashed := CollideBullets(a, b);
      if !crashed {
        CollideItems(a, b);
        CollideCoins(a, b);
      }
    }

    /** The bullet block of the handler: each bullet not meeting its own shooter is removed, and hurts the player it meets. */
    method CollideBullets(a: Body, b: Body) returns (crashed: bool)
      requires Valid() && Known(world, a) && Known(world, b)
      modifies this`world, leaderboard.coins, leaderboard.kills, leaderboard.deaths
      ensures Valid()
      ensures var r := BulletsCollide(old(world), old(Standings()), a, b);
        world == r.world && Standings() == r.standings && crashed == r.crashed
    {
      crashed := BulletMeetsPlayer(a, b);
      if !crashed {
        crashed := BulletMeetsPlayer(b, a);
      }
    }

    /** One side of the bullet block: `bullet`, when it is not meeting its own shooter, is removed and hits `other` when that is a player. */
    method BulletMeetsPlayer(bullet: Body, other: Body) returns (crashed: bool)
      requires Valid() && Known(world, other)
      modifies this`world, leaderboard.coins, leaderboard.kills, leaderboard.deaths
      ensures Valid()
      ensures var r := BulletMeets(old(world), old(Standings()), bullet, other);
        world == r.world && Standings() == r.standings && crashed == r.crashed
    {
      crashed := false;
      if Consumes(bullet, other) {
        world := world.(bullets := world.bullets - {bullet.bulletId});
        if other.PlayerBody? {
          crashed := HitByBullet(other.socketId, bullet.firedBy);
        }
      }
    }

    /** The item block of the handler: each item in the pair is removed, and collected by a player it meets. */
    method CollideItems(a: Body, b: Body)
      requires Valid() && Known(world, a) && Known(world, b)
      modifies this`world, leaderboard.coins, leaderboard.kills, leaderboard.deaths
      ensures Valid()
      ensures var r := ItemsCollide(old(world), old(Standings()), a, b);
        world == r.world && Standings() == r.standings
    {
      ItemMeets(a, b);
      ItemMeets(b, a);
    }

    /** One side of the item block: `item`, when it is an item, is removed and collected by `other` when that is a player. */
    method ItemMeets(item: Body, other: Body)
      requires Valid() && Known(world, other)
      modifies this`world, leaderboard.coins, leaderboard.kills, leaderboard.deaths
      ensures Valid()
      ensures var r := ItemTaken(old(world), old(Standings()), item, other);
        world == r.world && Standings() == r.standings
    {
      if item.ItemBody? {
        RemoveItem(item.itemId);
        if other.PlayerBody? { CollectedItem(other.socketId, item.itemType); }
      }
    }

    /** The coin block of the handler: a loose coin met by a player other than its dropper is removed and collected. */
    method CollideCoins(a: Body, b: Body)
      requires Valid() && Known(world, a) && Known(world, b)
      modifies this`world, leaderboard.coins, leaderboard.kills, leaderboard.deaths
      ensures Valid()
      ensures var r := CoinsCollide(old(world), old(Standings()), a, b);
        world == r.world && Standings() == r.standings
    {
      CoinMeets(a, b);
      CoinMeets(b, a);
    }

    /** One side of the coin block: `coin`, when `other` collects it, is removed and counted to `other`. */
    method CoinMeets(coin: Body, other: Body)
      requires Valid() && Known(world, other)
      modifies this`world, leaderboard.coins, leaderboard.kills, leaderboard.deaths
      ensures Valid()
      ensures var r := CoinTaken(old(world), old(Standings()), coin, other);
        world == r.world && Standings() == r.standings
    {
      if Collects(coin, other) {
        RemoveLooseCoin(coin.coinId);
        CollectedItem(other.socketId, Coin);
      }
    }
  }
}
