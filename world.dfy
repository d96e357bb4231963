/**
 * The game server's bookkeeping as a value: the players, bullets, loose
 * coins, items and buried treasure the engine holds, the two physics worlds
 * (as the sets of player ids with a body in them), the source of fresh ids
 * and the time of the last tick.  Every engine operation is a function from
 * the old world to the new one, and each keeps the world consistent.
 */
module EngineWorld {
  import opened Options
  import Text
  import opened Leaderboard
  import opened EngineRules

  // ---------------------------------------------------------------------------
  // The world and what every operation keeps

  datatype World = World(
    players: map<SocketId, Player>,
    /** The order in which the players' map was filled, which is the order a tick visits them. */
    joinOrder: seq<SocketId>,
    bullets: map<nat, Bullet>,
    looseCoins: map<nat, LooseCoin>,
    items: map<nat, Item>,
    treasures: seq<Treasure>,
    /** The players whose bodies are in the outdoor world. */
    outdoorWorld: set<SocketId>,
    /** The players whose bodies are in the lounge world. */
    loungeWorld: set<SocketId>,
    /** The source of fresh ids for bullets, coins and items. */
    nextId: nat,
    /** The time of the last tick. */
    clock: int)

  predicate NoDup<T(==)>(s: seq<T>)
  {
    forall a, b :: 0 <= a < b < |s| ==> s[a] != s[b]
  }

  lemma AppendAssoc<T>(a: seq<T>, b: seq<T>, c: seq<T>)
    ensures a + (b + c) == (a + b) + c
  {
  }

  /**
   * Where a player's record says it is: under its own id, in the join order,
   * with an outdoor body exactly when its area is outdoors, and with a lounge
   * body when its area is the lounge.
   */
  ghost predicate Placed(ps: map<SocketId, Player>, order: seq<SocketId>, outdoor: set<SocketId>, lounge: set<SocketId>, id: SocketId)
    requires id in ps
  {
    && ps[id].socketId == id
    && id in order
    && (id in outdoor <==> ps[id].area == Outdoor)
    && (ps[id].area == Lounge ==> id in lounge)
  }

  /** Every record is placed, the join order lists each player once and nobody else, and only players have outdoor bodies. */
  ghost predicate Seated(ps: map<SocketId, Player>, order: seq<SocketId>, outdoor: set<SocketId>, lounge: set<SocketId>)
  {
    && (forall id {:trigger Placed(ps, order, outdoor, lounge, id)} | id in ps :: Placed(ps, order, outdoor, lounge, id))
    && NoDup(order)
    && (forall k | 0 <= k < |order| :: order[k] in ps)
    && outdoor <= ps.Keys
  }

  /** The players are seated, at most 25 items exist, and every id in use was handed out. */
  ghost predicate Consistent(w: World)
  {
    && Seated(w.players, w.joinOrder, w.outdoorWorld, w.loungeWorld)
    && |w.items| <= MAX_ITEMS
    && (forall k | k in w.bullets :: k < w.nextId)
    && (forall k | k in w.looseCoins :: k < w.nextId)
    && (forall k | k in w.items :: k < w.nextId)
  }

  /** A consistent world knows each player under its own id and in its own world. */
  lemma PlacedIn(w: World, id: SocketId)
    requires Consistent(w) && id in w.players
    ensures w.players[id].socketId == id && id in w.joinOrder
    ensures id in w.outdoorWorld <==> w.players[id].area == Outdoor
  {
    assert Placed(w.players, w.joinOrder, w.outdoorWorld, w.loungeWorld, id);
  }

  /** The world with no players, bullets, coins, items or treasure. */
  function EmptyWorld(now: int): (w: World)
    ensures Consistent(w)
  {
    World(map[], [], map[], map[], map[], [], {}, {}, 0, now)
  }

  /** Changing one record, keeping its id and area, keeps the world consistent. */
  lemma UpdateKeepsConsistent(w: World, id: SocketId, p: Player)
    requires Consistent(w) && id in w.players
    requires p.socketId == w.players[id].socketId && p.area == w.players[id].area
    ensures Consistent(w.(players := w.players[id := p]))
  {
    var w' := w.(players := w.players[id := p]);
    forall x | x in w'.players ensures Placed(w'.players, w'.joinOrder, w'.outdoorWorld, w'.loungeWorld, x) {
      assert Placed(w.players, w.joinOrder, w.outdoorWorld, w.loungeWorld, x);
    }
  }

  /** Replacing every record by one with the same id and area keeps the world consistent. */
  lemma ReshapeKeepsConsistent(w: World, ps: map<SocketId, Player>)
    requires Consistent(w) && ps.Keys == w.players.Keys
    requires forall id | id in ps :: ps[id].socketId == w.players[id].socketId && ps[id].area == w.players[id].area
    ensures Consistent(w.(players := ps))
  {
    var w' := w.(players := ps);
    forall x | x in w'.players ensures Placed(w'.players, w'.joinOrder, w'.outdoorWorld, w'.loungeWorld, x) {
      assert Placed(w.players, w.joinOrder, w.outdoorWorld, w.loungeWorld, x);
    }
  }

  // ---------------------------------------------------------------------------
  // Joining, leaving, and moving between the worlds

  /** The world a new player joins: a record, a place at the end of the join order, and a body in its area. */
  function Joined(w: World, p: Player): World
  {
    var id := p.socketId;
    w.(players := w.players[id := p],
       joinOrder := w.joinOrder + [id],
       outdoorWorld := if p.area == Outdoor then w.outdoorWorld + {id} else w.outdoorWorld,
       loungeWorld := if p.area == Outdoor then w.loungeWorld else w.loungeWorld + {id})
  }

  lemma JoinKeepsConsistent(w: World, p: Player)
    requires Consistent(w) && p.socketId !in w.players
    ensures Consistent(Joined(w, p))
  {
    var id := p.socketId;
    var w' := Joined(w, p);
    var order := w'.joinOrder;
    assert id !in w.joinOrder;
    forall a, b | 0 <= a < b < |order| ensures order[a] != order[b] {
      if b == |w.joinOrder| { assert order[a] == w.joinOrder[a]; }
    }
    forall k | 0 <= k < |order| ensures order[k] in w'.players {
      if k < |w.joinOrder| { assert order[k] == w.joinOrder[k]; }
    }
    forall x | x in w'.players ensures Placed(w'.players, w'.joinOrder, w'.outdoorWorld, w'.loungeWorld, x) {
      if x != id { assert Placed(w.players, w.joinOrder, w.outdoorWorld, w.loungeWorld, x); }
    }
  }

  /** The join order with one id taken out, the others kept in order. */
  function Without(s: seq<SocketId>, id: SocketId): (r: seq<SocketId>)
    ensures forall x :: x in r <==> x in s && x != id
    ensures NoDup(s) ==> NoDup(r)
    ensures |r| <= |s|
  {
    if s == [] then []
    else
      var rest := Without(s[1..], id);
      if s[0] == id then rest
      else
        assert NoDup(s) ==> s[0] !in rest;
        [s[0]] + rest
  }

  /** The world a player leaves: the record, the join-order place and the outdoor body go; a lounge body stays. */
  function Left(w: World, id: SocketId): World
  {
    w.(players := w.players - {id},
       joinOrder := Without(w.joinOrder, id),
       outdoorWorld := w.outdoorWorld - {id})
  }

  lemma LeaveKeepsConsistent(w: World, id: SocketId)
    requires Consistent(w)
    ensures Consistent(Left(w, id))
  {
    var w' := Left(w, id);
    forall k | 0 <= k < |w'.joinOrder| ensures w'.joinOrder[k] in w'.players {
      assert w'.joinOrder[k] in w'.joinOrder;
    }
    forall x | x in w'.players ensures Placed(w'.players, w'.joinOrder, w'.outdoorWorld, w'.loungeWorld, x) {
      assert Placed(w.players, w.joinOrder, w.outdoorWorld, w.loungeWorld, x);
    }
  }

  /** Leaving and joining again puts the player at the end of the join order, with a fresh record. */
  lemma RejoinGoesLast(w: World, p: Player)
    requires Consistent(w) && p.socketId in w.players
    ensures var w' := Joined(Left(w, p.socketId), p);
      && w'.players[p.socketId] == p
      && w'.joinOrder[|w'.joinOrder| - 1] == p.socketId
      && |w'.joinOrder| == |w.joinOrder|
      && w'.players.Keys == w.players.Keys
  {
    PlacedIn(w, p.socketId);
    WithoutPresent(w.joinOrder, p.socketId);
  }

  /** Taking out an id that is there, once, shortens the list by one. */
  lemma {:induction false} WithoutPresent(s: seq<SocketId>, id: SocketId)
    requires NoDup(s) && id in s
    ensures |Without(s, id)| + 1 == |s|
  {
    if s[0] == id {
      assert id !in s[1..];
      WithoutAbsent(s[1..], id);
    } else {
      assert NoDup(s[1..]);
      WithoutPresent(s[1..], id);
    }
  }

  /** Taking out an id that is not there changes nothing. */
  lemma {:induction false} WithoutAbsent(s: seq<SocketId>, id: SocketId)
    requires id !in s
    ensures Without(s, id) == s
  {
    if s != [] {
      WithoutAbsent(s[1..], id);
      assert [s[0]] + s[1..] == s;
    }
  }

  /** The world after a player's body moves into the world of the record's (new) area. */
  function Moved(w: World, p: Player): World
  {
    var id := p.socketId;
    w.(players := w.players[id := p],
       outdoorWorld := if p.area == Outdoor then w.outdoorWorld + {id} else w.outdoorWorld - {id},
       loungeWorld := if p.area == Outdoor then w.loungeWorld - {id} else w.loungeWorld + {id})
  }

  lemma MoveKeepsConsistent(w: World, p: Player)
    requires Consistent(w) && p.socketId in w.players
    ensures Consistent(Moved(w, p))
  {
    var w' := Moved(w, p);
    forall x | x in w'.players ensures Placed(w'.players, w'.joinOrder, w'.outdoorWorld, w'.loungeWorld, x) {
      assert Placed(w.players, w.joinOrder, w.outdoorWorld, w.loungeWorld, x);
    }
  }

  /** Entering the lounge: the area changes and the player stands at the lounge door. */
  function Entered(w: World, id: SocketId): World
    requires id in w.players
  {
    Moved(w, w.players[id].(area := Lounge, pos := LOUNGE_DOOR))
  }

  /** Leaving the lounge: the area changes and the player stands at the outdoor door. */
  function Exited(w: World, id: SocketId): World
    requires id in w.players
  {
    Moved(w, w.players[id].(area := Outdoor, pos := OUTDOOR_DOOR))
  }

  /** After entering, the body is in the lounge world only; after exiting, in the outdoor world only. */
  lemma DoorsSwapWorlds(w: World, id: SocketId)
    requires Consistent(w) && id in w.players
    ensures var e := Entered(w, id);
      && id !in e.outdoorWorld && id in e.loungeWorld && e.players[id].pos == LOUNGE_DOOR
      && id in Exited(e, id).outdoorWorld && id !in Exited(e, id).loungeWorld
      && Exited(e, id).players[id].pos == OUTDOOR_DOOR
    ensures Exited(Entered(w, id), id).players.Keys == w.players.Keys
  {
    PlacedIn(w, id);
  }

  // ---------------------------------------------------------------------------
  // Fresh ids for dropped coins

  /** `m` with `n` copies of `c` added under the ids `from`, `from + 1`, ..., in that order. */
  function Scatter(m: map<nat, LooseCoin>, from: nat, n: nat, c: LooseCoin): map<nat, LooseCoin>
  {
    if n == 0 then m else Scatter(m, from, n - 1, c)[from + n - 1 := c]
  }

  /** The scattered map holds the old ids and exactly the `n` new ones, each new one holding `c`. */
  lemma {:induction false} ScatterContents(m: map<nat, LooseCoin>, from: nat, n: nat, c: LooseCoin)
    ensures forall k :: k in Scatter(m, from, n, c) <==> k in m || from <= k < from + n
    ensures forall k :: k in Scatter(m, from, n, c) ==>
      Scatter(m, from, n, c)[k] == if from <= k < from + n then c else m[k]
  {
    if n > 0 { ScatterContents(m, from, n - 1, c); }
  }

  /** With all old ids below `from`, the new ids are fresh and the map grows by exactly `n`. */
  lemma {:induction false} ScatterSize(m: map<nat, LooseCoin>, from: nat, n: nat, c: LooseCoin)
    requires forall k :: k in m ==> k < from
    ensures |Scatter(m, from, n, c)| == |m| + n
  {
    if n > 0 {
      ScatterSize(m, from, n - 1, c);
      ScatterContents(m, from, n - 1, c);
      AddFreshKey(Scatter(m, from, n - 1, c), from + n - 1, c);
    }
  }

  /** Adding an absent key grows a map by one. */
  lemma AddFreshKey<V>(m: map<nat, V>, k: nat, v: V)
    requires k !in m
    ensures |m[k := v]| == |m| + 1
  {
  }

  /** The coin-drop loop: `n` copies of `coin` under the ids `from`, `from + 1`, ... */
  method ScatterCoins(m: map<nat, LooseCoin>, from: nat, n: nat, coin: LooseCoin) returns (r: map<nat, LooseCoin>)
    ensures r == Scatter(m, from, n, coin)
  {
    r := m;
    var i := 0;
    while i < n
      invariant 0 <= i <= n
      invariant r == Scatter(m, from, i, coin)
    {
      r := r[from + i := coin];
      i := i + 1;
    }
  }

  /** The world after `n` of a player's coins are scattered under fresh ids, tagged with the player. */
  function Dropped(w: World, id: SocketId, n: nat): World
    requires id in w.players && n <= w.players[id].coins
  {
    var p := w.players[id];
    w.(players := w.players[id := p.(coins := p.coins - n)],
       looseCoins := Scatter(w.looseCoins, w.nextId, n, LooseCoin(p.pos, id)),
       nextId := w.nextId + n)
  }

  /** A drop of `n` coins, field by field, given the scattered map. */
  lemma DroppedFields(w: World, id: SocketId, n: nat, coins: map<nat, LooseCoin>)
    requires id in w.players && n <= w.players[id].coins
    requires coins == Scatter(w.looseCoins, w.nextId, n, LooseCoin(w.players[id].pos, id))
    ensures Dropped(w, id, n) ==
      w.(players := w.players[id := w.players[id].(coins := w.players[id].coins - n)], looseCoins := coins, nextId := w.nextId + n)
  {
  }

  /** A drop of nothing leaves the world as it was. */
  lemma NothingDropped(w: World, id: SocketId)
    requires id in w.players
    ensures Dropped(w, id, 0) == w
  {
    assert w.players[id := w.players[id].(coins := w.players[id].coins - 0)] == w.players;
  }

  lemma DropKeepsConsistent(w: World, id: SocketId, n: nat)
    requires Consistent(w) && id in w.players && n <= w.players[id].coins
    ensures Consistent(Dropped(w, id, n))
  {
    var w' := Dropped(w, id, n);
    ScatterContents(w.looseCoins, w.nextId, n, LooseCoin(w.players[id].pos, id));
    forall x | x in w'.players ensures Placed(w'.players, w'.joinOrder, w'.outdoorWorld, w'.loungeWorld, x) {
      assert Placed(w.players, w.joinOrder, w.outdoorWorld, w.loungeWorld, x);
    }
  }

  /** A drop moves coins from the purse to the ground one for one: none is created or lost. */
  lemma DropConservesCoins(w: World, id: SocketId, n: nat)
    requires Consistent(w) && id in w.players && n <= w.players[id].coins
    ensures Dropped(w, id, n).players[id].coins + |Dropped(w, id, n).looseCoins| == w.players[id].coins + |w.looseCoins|
  {
    ScatterSize(w.looseCoins, w.nextId, n, LooseCoin(w.players[id].pos, id));
  }

  // ---------------------------------------------------------------------------
  // What the engine reports to the leaderboard

  /** The leaderboard line for a player. */
  function Line(p: Player, value: nat): Statline
  {
    Statline(p.username, p.ip, value)
  }

  /** How a player is named in feed messages and on leaving. */
  function DisplayName(username: string): (r: string)
    ensures r != ""
    ensures username != "" ==> r == username
    ensures username == "" ==> r == "[anonymous]"
  {
    if username == "" then "[anonymous]" else username
  }

  // ---------------------------------------------------------------------------
  // Bullet hits

  /** The shooter's kill is credited only if the shooter is still connected. */
  function Credited(ps: map<SocketId, Player>, firedBy: SocketId): (r: map<SocketId, Player>)
    ensures r.Keys == ps.Keys
  {
    if firedBy in ps then ps[firedBy := CreditKill(ps[firedBy])] else ps
  }

  /** The world after a player loses a health point. */
  function Wounded(w: World, victim: SocketId): World
    requires victim in w.players
  {
    w.(players := w.players[victim := Hit(w.players[victim])])
  }

  /**
   * The world after a bullet hits `victim`: nothing at health 0; one health
   * point lost otherwise; on fainting the victim's coins are also dropped and
   * the shooter, if connected, is credited a kill.
   */
  function HitWorld(w: World, victim: SocketId, firedBy: SocketId): World
    requires victim in w.players
  {
    var p := w.players[victim];
    if p.health == 0 then w
    else if p.health > 1 then Wounded(w, victim)
    else
      var q := Hit(p);
      var d := Dropped(Wounded(w, victim), victim, DropCount(q, q.coins));
      d.(players := Credited(d.players, firedBy))
  }

  /**
   * What a hit reports, given the world `w'` after it: on fainting, the
   * victim's new death count, then the connected shooter's new kill count.
   */
  function HitStandings(t: Standings, w: World, w': World, victim: SocketId, firedBy: SocketId): (u: Standings)
    requires t.WellFormed() && victim in w.players && victim in w'.players
    ensures u.WellFormed()
  {
    if w.players[victim].health != 1 then t
    else
      var d := t.Add(Report(Deaths, Line(w'.players[victim], w'.players[victim].deaths)));
      if firedBy in w'.players then d.Add(Report(Kills, Line(w'.players[firedBy], w'.players[firedBy].kills)))
      else d
  }

  lemma CreditKeepsConsistent(w: World, firedBy: SocketId)
    requires Consistent(w)
    ensures Consistent(w.(players := Credited(w.players, firedBy)))
  {
    if firedBy in w.players {
      UpdateKeepsConsistent(w, firedBy, CreditKill(w.players[firedBy]));
    }
  }

  /** A hit takes one health point from a victim that has any, and touches nobody but the victim and the shooter. */
  lemma HitTakesOneHealth(w: World, victim: SocketId, firedBy: SocketId)
    requires victim in w.players
    ensures HitWorld(w, victim, firedBy).players.Keys == w.players.Keys
    ensures w.players[victim].health == 0 ==> HitWorld(w, victim, firedBy) == w
    ensures w.players[victim].health > 0 ==>
      HitWorld(w, victim, firedBy).players[victim].health == w.players[victim].health - 1
    ensures forall id | id in w.players && id != victim && id != firedBy ::
      HitWorld(w, victim, firedBy).players[id] == w.players[id]
  {
    var p := w.players[victim];
    if p.health > 0 {
      var q := Hit(p);
      var ps := HitPlayers(w, victim, firedBy);
      assert ps.Keys == w.players.Keys;
      assert ps[victim].health == q.health;
      assert forall id | id in w.players && id != victim && id != firedBy :: ps[id] == w.players[id];
    }
  }

  /** The players after a hit on a victim with health left: the victim wounded, robbed of its drop, and the shooter credited on fainting. */
  function HitPlayers(w: World, victim: SocketId, firedBy: SocketId): (ps: map<SocketId, Player>)
    requires victim in w.players && w.players[victim].health > 0
    ensures ps == HitWorld(w, victim, firedBy).players
  {
    var q := Hit(w.players[victim]);
    if q.health > 0 then w.players[victim := q]
    else Credited(w.players[victim := q.(coins := q.coins - DropCount(q, q.coins))], firedBy)
  }

  /**
   * Fainting outdoors turns the whole balance into loose coins at the
   * victim's position, each tagged with the victim, and keeps every coin
   * already lying there; the victim's deaths and the connected shooter's
   * kills go up by one.
   */
  lemma FaintConservesCoins(w: World, victim: SocketId, firedBy: SocketId)
    requires Consistent(w) && victim in w.players && w.players[victim].health == 1
    ensures var w' := HitWorld(w, victim, firedBy); var p := w.players[victim];
      && w'.players[victim].deaths == p.deaths + 1
      && w'.players[victim].health == 0
      && (p.area == Outdoor ==> w'.players[victim].coins == 0 && |w'.looseCoins| == |w.looseCoins| + p.coins)
      && (p.area != Outdoor ==> w'.players[victim].coins == p.coins && w'.looseCoins == w.looseCoins)
      && (forall k | k in w.looseCoins :: k in w'.looseCoins && w'.looseCoins[k] == w.looseCoins[k])
      && (forall k | k in w'.looseCoins && k !in w.looseCoins :: w'.looseCoins[k] == LooseCoin(p.pos, victim))
      && (firedBy in w.players && firedBy != victim ==>
            w'.players[firedBy].kills == w.players[firedBy].kills + 1)
  {
    var p := w.players[victim];
    var q := Hit(p);
    ScatterSize(w.looseCoins, w.nextId, DropCount(q, q.coins), LooseCoin(p.pos, victim));
    ScatterContents(w.looseCoins, w.nextId, DropCount(q, q.coins), LooseCoin(p.pos, victim));
  }

  // ---------------------------------------------------------------------------
  // Shooting, items, and chat commands

  /** The bullet a shot creates: placed by the muzzle offset, moving in the shot's direction. */
  function ShotBullet(p: Player, direction: int): Bullet
  {
    Bullet(BulletPos(p.pos, direction), BulletVelocity(direction), direction, p.socketId)
  }

  /** The world after a shot: one bullet fewer in the magazine, one more in flight under a fresh id. */
  function Shot(w: World, id: SocketId, direction: int): World
    requires id in w.players && CanShoot(w.players[id])
  {
    var p := w.players[id];
    w.(players := w.players[id := Fire(p)],
       bullets := w.bullets[w.nextId := ShotBullet(p, direction)],
       nextId := w.nextId + 1)
  }

  lemma ShotKeepsConsistent(w: World, id: SocketId, direction: int)
    requires Consistent(w) && id in w.players && CanShoot(w.players[id])
    ensures Consistent(Shot(w, id, direction))
  {
    UpdateKeepsConsistent(w, id, Fire(w.players[id]));
  }

  /**
   * A shot adds exactly one bullet, placed at the shooter's muzzle position,
   * moving in the shot's direction and fired by the shooter, and keeps every
   * other bullet.
   */
  lemma ShotAddsOneBullet(w: World, id: SocketId, direction: int)
    requires Consistent(w) && id in w.players && CanShoot(w.players[id])
    ensures var w' := Shot(w, id, direction);
      && |w'.bullets| == |w.bullets| + 1
      && w.nextId !in w.bullets && w.nextId in w'.bullets
      && w'.bullets[w.nextId].pos == BulletPos(w.players[id].pos, direction)
      && w'.bullets[w.nextId].velocity == BulletVelocity(direction)
      && w'.bullets[w.nextId].direction == direction
      && w'.bullets[w.nextId].firedBy == id
      && (forall k | k in w.bullets :: k in w'.bullets && w'.bullets[k] == w.bullets[k])
      && w'.players[id].bullets + 1 == w.players[id].bullets
  {
    PlacedIn(w, id);
    AddFreshKey(w.bullets, w.nextId, ShotBullet(w.players[id], direction));
  }

  /** A spawned item under the next id, while fewer than 25 exist. */
  function Spawned(w: World, it: Item): World
  {
    if |w.items| < MAX_ITEMS then w.(items := w.items[w.nextId := it], nextId := w.nextId + 1) else w
  }

  lemma SpawnKeepsConsistent(w: World, it: Item)
    requires Consistent(w)
    ensures Consistent(Spawned(w, it))
    ensures |w.items| < MAX_ITEMS ==> |Spawned(w, it).items| == |w.items| + 1
  {
    if |w.items| < MAX_ITEMS {
      AddFreshKey(w.items, w.nextId, it);
    }
  }

  /** What a chat command does to the world: a toggle, clearing the items, five bullets, or debug health. */
  function Commanded(w: World, id: SocketId, command: string): World
    requires id in w.players
  {
    var p := w.players[id];
    var named := CommandItem(command);
    if named.Some? then w.(players := w.players[id := p.(item := Toggle(p.item, named.value))])
    else if command == "/reset$" then w.(items := map[])
    else if command == "/bullets$" then w.(players := w.players[id := p.(bullets := p.bullets + 5)])
    else if command == "/invincible$" then w.(players := w.players[id := p.(health := INVINCIBLE_HEALTH)])
    else w
  }

  lemma CommandKeepsConsistent(w: World, id: SocketId, command: string)
    requires Consistent(w) && id in w.players
    ensures Consistent(Commanded(w, id, command))
  {
    var p := w.players[id];
    var named := CommandItem(command);
    if named.Some? {
      UpdateKeepsConsistent(w, id, p.(item := Toggle(p.item, named.value)));
    } else if command == "/bullets$" {
      UpdateKeepsConsistent(w, id, p.(bullets := p.bullets + 5));
    } else if command == "/invincible$" {
      UpdateKeepsConsistent(w, id, p.(health := INVINCIBLE_HEALTH));
    }
  }

  /**
   * A toggle command changes only the player's held item; "/bullets$" adds
   * five bullets and "/invincible$" sets health to 1000000, each to the
   * commanding player only; "/smoke" and any unknown command change nothing;
   * only "/reset$" touches the items, and every command leaves the other
   * players as they were.
   */
  lemma CommandEffects(w: World, id: SocketId, command: string)
    requires id in w.players
    ensures var w' := Commanded(w, id, command);
      && w'.players.Keys == w.players.Keys
      && (CommandItem(command).Some? ==>
            w'.players[id] == w.players[id].(item := Toggle(w.players[id].item, CommandItem(command).value)))
      && (CommandItem(command).None? && command == "/bullets$" ==>
            w'.players[id] == w.players[id].(bullets := w.players[id].bullets + 5))
      && (CommandItem(command).None? && command == "/invincible$" ==>
            w'.players[id] == w.players[id].(health := INVINCIBLE_HEALTH))
      && (command == "/reset$" ==> w'.players == w.players)
      && (forall o | o in w.players && o != id :: w'.players[o] == w.players[o])
      && (CommandItem(command).None? && command !in {"/reset$", "/bullets$", "/invincible$"} ==> w' == w)
      && (command != "/reset$" ==> w'.items == w.items)
      && (command == "/reset$" ==> w'.items == map[])
      && (command != "/invincible$" && HealthInRange(w.players[id]) ==> HealthInRange(w'.players[id]))
  {
    var p := w.players[id];
    var named := CommandItem(command);
    if named.Some? {
      assert Commanded(w, id, command) == w.(players := w.players[id := p.(item := Toggle(p.item, named.value))]);
    } else if command == "/bullets$" {
      assert Commanded(w, id, command) == w.(players := w.players[id := p.(bullets := p.bullets + 5)]);
    } else if command == "/invincible$" {
      assert Commanded(w, id, command).items == w.items;
    }
  }

  // ---------------------------------------------------------------------------
  // Treasure

  /** The world after a player buries the whole balance at its position. */
  function Buried(w: World, id: SocketId): World
    requires id in w.players
  {
    var p := w.players[id];
    w.(players := w.players[id := p.(coins := 0)], treasures := w.treasures + [BuriedTreasure(p)])
  }

  lemma BuryKeepsConsistent(w: World, id: SocketId)
    requires Consistent(w) && id in w.players
    ensures Consistent(Buried(w, id))
  {
    UpdateKeepsConsistent(w, id, w.players[id].(coins := 0));
  }

  /** The world after `foundTreasure`: the treasure's coins are credited and the entry at `index` is spliced out. */
  function Found(w: World, id: SocketId, t: Treasure, index: nat): World
    requires id in w.players
  {
    var p := w.players[id];
    w.(players := w.players[id := p.(coins := p.coins + t.coins)], treasures := Splice(w.treasures, index))
  }

  /** The world after a whole dig: every claimed treasure is credited and spliced out. */
  function Dug(w: World, id: SocketId): World
    requires id in w.players
  {
    var p := w.players[id];
    var r := Dig(w.treasures, p.pos);
    w.(players := w.players[id := p.(coins := p.coins + SumCoins(r.claimed))], treasures := r.remaining)
  }

  /** The coin reports a dig makes: the balance after each claim, from `coins`, in claim order. */
  function DigStandings(t: Standings, p: Player, coins: nat, claimed: seq<Treasure>): (u: Standings)
    requires t.WellFormed()
    ensures u.WellFormed()
    ensures u.kills == t.kills && u.deaths == t.deaths
  {
    if claimed == [] then t
    else DigStandings(t, p, coins, claimed[..|claimed| - 1]).Add(Report(Coins, Line(p, coins + SumCoins(claimed))))
  }

  /** The world part-way through a dig: `claimed` credited to the digger, `cur` still buried. */
  function Digging(w: World, id: SocketId, cur: seq<Treasure>, claimed: seq<Treasure>): World
    requires id in w.players
  {
    var p := w.players[id];
    w.(players := w.players[id := p.(coins := p.coins + SumCoins(claimed))], treasures := cur)
  }

  /** After the slots before `k`, with `claimed` taken and `cur` left, the rest of the scan completes the dig of `w`. */
  ghost predicate DigOnTrack(w: World, id: SocketId, cur: seq<Treasure>, claimed: seq<Treasure>, k: nat)
    requires id in w.players
  {
    var rest := DigScan(cur, w.players[id].pos, k, |w.treasures|);
    Dig(w.treasures, w.players[id].pos) == DigResult(rest.remaining, claimed + rest.claimed)
  }

  lemma DigStarts(w: World, id: SocketId)
    requires id in w.players
    ensures Digging(w, id, w.treasures, []) == w
    ensures DigOnTrack(w, id, w.treasures, [], 0)
  {
    assert w.players[id := w.players[id].(coins := w.players[id].coins + 0)] == w.players;
    assert [] + Dig(w.treasures, w.players[id].pos).claimed == Dig(w.treasures, w.players[id].pos).claimed;
  }

  /** Claiming the treasure in slot `k` is `foundTreasure` on the part-way world, and keeps the scan on track. */
  lemma DigClaims(w: World, id: SocketId, cur: seq<Treasure>, claimed: seq<Treasure>, k: nat)
    requires id in w.players && DigOnTrack(w, id, cur, claimed, k)
    requires k < |w.treasures| && k < |cur| && InDigRange(w.players[id].pos, cur[k].pos)
    ensures Found(Digging(w, id, cur, claimed), id, cur[k], k) == Digging(w, id, Splice(cur, k), claimed + [cur[k]])
    ensures DigOnTrack(w, id, Splice(cur, k), claimed + [cur[k]], k + 1)
  {
    ClaimCredits(w, id, cur, claimed, k);
    var pos := w.players[id].pos;
    ClaimStep(cur, pos, k, |w.treasures|, claimed);
  }

  lemma ClaimStep(cur: seq<Treasure>, pos: Vec, k: nat, len0: nat, claimed: seq<Treasure>)
    requires k < len0 && k < |cur| && InDigRange(pos, cur[k].pos)
    ensures var r := DigScan(cur, pos, k, len0); var rest := DigScan(Splice(cur, k), pos, k + 1, len0);
      && r.remaining == rest.remaining
      && claimed + r.claimed == (claimed + [cur[k]]) + rest.claimed
  {
    var rest := DigScan(Splice(cur, k), pos, k + 1, len0);
    assert claimed + ([cur[k]] + rest.claimed) == (claimed + [cur[k]]) + rest.claimed;
  }

  lemma ClaimCredits(w: World, id: SocketId, cur: seq<Treasure>, claimed: seq<Treasure>, k: nat)
    requires id in w.players && k < |cur|
    ensures Found(Digging(w, id, cur, claimed), id, cur[k], k) == Digging(w, id, Splice(cur, k), claimed + [cur[k]])
  {
    var p := w.players[id];
    var claimed' := claimed + [cur[k]];
    SumCoinsSnoc(claimed, cur[k]);
    var d := Digging(w, id, cur, claimed);
    assert d.players[id] == p.(coins := p.coins + SumCoins(claimed));
    var f := Found(d, id, cur[k], k);
    assert f.players == w.players[id := p.(coins := p.coins + SumCoins(claimed'))];
  }

  /** A slot out of range (or past the shrunken end) is passed over. */
  lemma DigPasses(w: World, id: SocketId, cur: seq<Treasure>, claimed: seq<Treasure>, k: nat)
    requires id in w.players && DigOnTrack(w, id, cur, claimed, k) && k < |w.treasures|
    requires !(k < |cur| && InDigRange(w.players[id].pos, cur[k].pos))
    ensures DigOnTrack(w, id, cur, claimed, k + 1)
  {
  }

  /** Once every original slot has been looked at, the part-way world is the dug world. */
  lemma DigEnds(w: World, id: SocketId, cur: seq<Treasure>, claimed: seq<Treasure>)
    requires id in w.players && DigOnTrack(w, id, cur, claimed, |w.treasures|)
    ensures claimed == Dig(w.treasures, w.players[id].pos).claimed
    ensures Digging(w, id, cur, claimed) == Dug(w, id)
  {
    assert claimed + [] == claimed;
  }

  /** One more claim adds one coin report, for the balance after it. */
  lemma DigStandingsSnoc(t: Standings, p: Player, coins: nat, claimed: seq<Treasure>, tr: Treasure, q: Player)
    requires t.WellFormed() && q.username == p.username && q.ip == p.ip && q.coins == coins + SumCoins(claimed + [tr])
    ensures DigStandings(t, p, coins, claimed + [tr])
         == DigStandings(t, p, coins, claimed).Add(Report(Coins, Line(q, q.coins)))
  {
    assert (claimed + [tr])[..|claimed + [tr]| - 1] == claimed;
    assert Line(p, coins + SumCoins(claimed + [tr])) == Line(q, q.coins);
  }

  /** The coins in a concatenation of treasure lists. */
  lemma {:induction false} SumCoinsAppend(a: seq<Treasure>, b: seq<Treasure>)
    ensures SumCoins(a + b) == SumCoins(a) + SumCoins(b)
  {
    if b == [] {
      assert a + b == a;
    } else {
      var b' := b[..|b| - 1];
      assert (a + b)[..|a + b| - 1] == a + b';
      assert (a + b)[|a + b| - 1] == b[|b| - 1];
      SumCoinsAppend(a, b');
    }
  }

  /** The coins of a list with one more treasure in front. */
  lemma SumCoinsCons(t: Treasure, s: seq<Treasure>)
    ensures SumCoins([t] + s) == t.coins + SumCoins(s)
  {
    SumCoinsAppend([t], s);
    assert [t][..0] == [];
  }

  /** Splicing an entry out loses exactly its coins. */
  lemma SpliceCoins(ts: seq<Treasure>, k: nat)
    requires k < |ts|
    ensures SumCoins(Splice(ts, k)) + ts[k].coins == SumCoins(ts)
  {
    var front, back := ts[..k], ts[k + 1..];
    SplitAt(ts, k);
    SumCoinsAppend(front, [ts[k]] + back);
    SumCoinsCons(ts[k], back);
    SumCoinsAppend(front, back);
  }

  lemma SplitAt(ts: seq<Treasure>, k: nat)
    requires k < |ts|
    ensures ts == ts[..k] + ([ts[k]] + ts[k + 1..])
  {
  }

  /** The scan neither creates nor destroys coins: what is claimed plus what remains is what was buried. */
  lemma {:induction false} DigScanCoins(ts: seq<Treasure>, pos: Vec, k: nat, len0: nat)
    ensures SumCoins(DigScan(ts, pos, k, len0).remaining) + SumCoins(DigScan(ts, pos, k, len0).claimed) == SumCoins(ts)
    decreases len0 - k
  {
    if k >= len0 {
    } else if k < |ts| && InDigRange(pos, ts[k].pos) {
      DigScanCoins(Splice(ts, k), pos, k + 1, len0);
      SpliceCoins(ts, k);
      SumCoinsCons(ts[k], DigScan(Splice(ts, k), pos, k + 1, len0).claimed);
    } else {
      DigScanCoins(ts, pos, k + 1, len0);
    }
  }

  /** Burying and digging move coins between purses and the ground without creating any. */
  lemma TreasureConservesCoins(w: World, id: SocketId)
    requires id in w.players
    ensures Buried(w, id).players[id].coins + SumCoins(Buried(w, id).treasures)
         == w.players[id].coins + SumCoins(w.treasures)
    ensures Dug(w, id).players[id].coins + SumCoins(Dug(w, id).treasures)
         == w.players[id].coins + SumCoins(w.treasures)
  {
    SumCoinsSnoc(w.treasures, BuriedTreasure(w.players[id]));
    DigScanCoins(w.treasures, w.players[id].pos, 0, |w.treasures|);
  }

  lemma DigKeepsConsistent(w: World, id: SocketId)
    requires Consistent(w) && id in w.players
    ensures Consistent(Dug(w, id))
  {
    var p := w.players[id];
    UpdateKeepsConsistent(w, id, p.(coins := p.coins + SumCoins(Dig(w.treasures, p.pos).claimed)));
  }

  // ---------------------------------------------------------------------------
  // A tick's walk over the players

  /** The players after the tick has visited those in `order`, in that order (an id without a record is passed over). */
  function TickAll(ps: map<SocketId, Player>, order: seq<SocketId>, deltat: nat, now: int): map<SocketId, Player>
  {
    if order == [] then ps
    else
      var last := order[|order| - 1];
      var q := TickAll(ps, order[..|order| - 1], deltat, now);
      if last in q then q[last := TickPlayer(q[last], deltat, now)] else q
  }

  /** The standings after the visits in `order` have posted their reload coins, in the order they were made. */
  function TickStandings(t: Standings, ps: map<SocketId, Player>, order: seq<SocketId>, deltat: nat, now: int): (u: Standings)
    requires t.WellFormed()
    ensures u.WellFormed()
    ensures u.kills == t.kills && u.deaths == t.deaths
  {
    if order == [] then t
    else
      var prefix := order[..|order| - 1];
      var last := order[|order| - 1];
      var u := TickStandings(t, ps, prefix, deltat, now);
      var q := TickAll(ps, prefix, deltat, now);
      if last in q && ReloadDue(q[last], now) then
        u.Add(Report(Coins, Line(Regen(q[last], deltat, now), Regen(q[last], deltat, now).coins)))
      else u
  }

  /** A tick neither adds nor removes players. */
  lemma {:induction false} TickAllKeys(ps: map<SocketId, Player>, order: seq<SocketId>, deltat: nat, now: int)
    ensures TickAll(ps, order, deltat, now).Keys == ps.Keys
  {
    if order != [] {
      TickAllKeys(ps, order[..|order| - 1], deltat, now);
    }
  }

  /** The time since the last tick. */
  function Elapsed(w: World, now: int): nat
    requires now >= w.clock
  {
    now - w.clock
  }

  /** The world after a whole engine tick: prepared, then every player visited in join order. */
  function Tick(w: World, newDay: bool, now: int, spawn: Item): World
    requires now >= w.clock
  {
    Prepared(w, newDay, now, spawn).(players := TickAll(w.players, w.joinOrder, Elapsed(w, now), now))
  }

  /** The standings after a whole engine tick has posted the reload coins of its visits to `t`. */
  function TickPosts(t: Standings, w: World, now: int): (u: Standings)
    requires t.WellFormed() && now >= w.clock
  {
    TickStandings(t, w.players, w.joinOrder, Elapsed(w, now), now)
  }

  /** A whole tick, preparation and visits, keeps the world consistent. */
  lemma TickedKeepsConsistent(w: World, newDay: bool, now: int, spawn: Item)
    requires Consistent(w) && now >= w.clock
    ensures Consistent(Tick(w, newDay, now, spawn))
  {
    PrepareKeepsConsistent(w, newDay, now, spawn);
    TickKeepsConsistent(Prepared(w, newDay, now, spawn), Elapsed(w, now), now);
  }

  /** One more visit of the walk: the next listed player is ticked, and posts its coins when a reload is due. */
  lemma TickStep(t: Standings, ps: map<SocketId, Player>, order: seq<SocketId>, i: nat, deltat: nat, now: int)
    requires t.WellFormed() && i < |order| && order[i] in ps
    ensures var q := TickAll(ps, order[..i], deltat, now);
      && order[i] in q
      && TickAll(ps, order[..i + 1], deltat, now) == q[order[i] := TickPlayer(q[order[i]], deltat, now)]
      && var r := Regen(q[order[i]], deltat, now);
      TickStandings(t, ps, order[..i + 1], deltat, now) ==
        if ReloadDue(q[order[i]], now) then TickStandings(t, ps, order[..i], deltat, now).Add(Report(Coins, Line(r, r.coins)))
        else TickStandings(t, ps, order[..i], deltat, now)
  {
    assert order[..i + 1][..i] == order[..i];
    TickAllKeys(ps, order[..i], deltat, now);
  }

  /** Visiting a list without repeats ticks each listed player exactly once, from its record before the tick. */
  lemma {:induction false} TickAllOnce(ps: map<SocketId, Player>, order: seq<SocketId>, deltat: nat, now: int, id: SocketId)
    requires forall k | 0 <= k < |order| :: order[k] in ps
    requires NoDup(order) && id in ps
    ensures id in TickAll(ps, order, deltat, now)
    ensures TickAll(ps, order, deltat, now)[id] == if id in order then TickPlayer(ps[id], deltat, now) else ps[id]
  {
    TickAllKeys(ps, order, deltat, now);
    if order != [] {
      var prefix := order[..|order| - 1];
      var last := order[|order| - 1];
      assert NoDup(prefix);
      assert last !in prefix;
      assert order == prefix + [last];
      TickAllOnce(ps, prefix, deltat, now, id);
      TickAllOnce(ps, prefix, deltat, now, last);
    }
  }

  /** A tick of the whole join order keeps the world consistent. */
  lemma TickKeepsConsistent(w: World, deltat: nat, now: int)
    requires Consistent(w)
    ensures Consistent(w.(players := TickAll(w.players, w.joinOrder, deltat, now)))
  {
    var qs := TickAll(w.players, w.joinOrder, deltat, now);
    TickAllKeys(w.players, w.joinOrder, deltat, now);
    forall id | id in qs ensures qs[id].socketId == w.players[id].socketId && qs[id].area == w.players[id].area {
      TickAllOnce(w.players, w.joinOrder, deltat, now, id);
    }
    ReshapeKeepsConsistent(w, qs);
  }

  /** In a consistent world a tick visits every player exactly once. */
  lemma TickVisitsEveryone(w: World, deltat: nat, now: int, id: SocketId)
    requires Consistent(w) && id in w.players
    ensures id in TickAll(w.players, w.joinOrder, deltat, now)
    ensures TickAll(w.players, w.joinOrder, deltat, now)[id] == TickPlayer(w.players[id], deltat, now)
  {
    PlacedIn(w, id);
    TickAllOnce(w.players, w.joinOrder, deltat, now, id);
  }

  /** The world as an engine tick leaves it before the players are visited: treasure cleared on a new day, clock set, an item spawned. */
  function Prepared(w: World, newDay: bool, now: int, spawn: Item): World
  {
    Spawned(w.(treasures := if newDay then [] else w.treasures, clock := now), spawn)
  }

  lemma PrepareKeepsConsistent(w: World, newDay: bool, now: int, spawn: Item)
    requires Consistent(w)
    ensures Consistent(Prepared(w, newDay, now, spawn))
    ensures Prepared(w, newDay, now, spawn).players == w.players
    ensures Prepared(w, newDay, now, spawn).joinOrder == w.joinOrder
  {
    SpawnKeepsConsistent(w.(treasures := if newDay then [] else w.treasures, clock := now), spawn);
  }

  // ---------------------------------------------------------------------------
  // Collisions

  /** A body in a collision: a player, a bullet, an item, a loose coin, or a wall or block. */
  datatype Body =
    | PlayerBody(socketId: SocketId)
    | BulletBody(bulletId: nat, firedBy: SocketId)
    | ItemBody(itemId: nat, itemType: ItemType)
    | CoinBody(coinId: nat, droppedBy: SocketId)
    | StaticBody

  function SocketOf(b: Body): Option<SocketId>
  {
    if b.PlayerBody? then Some(b.socketId) else None
  }

  /** The bullet `a` is used up by `b` unless `b` is the player who fired it. */
  predicate Consumes(a: Body, b: Body)
  {
    a.BulletBody? && SocketOf(b) != Some(a.firedBy)
  }

  /** The loose coin `a` is picked up by the player `b` unless `b` dropped it. */
  predicate Collects(a: Body, b: Body)
  {
    a.CoinBody? && b.PlayerBody? && a.droppedBy != b.socketId
  }

  /** Only player bodies take part in the outdoor world as players. */
  predicate InWorld(w: World, b: Body)
  {
    b.PlayerBody? ==> b.socketId in w.outdoorWorld
  }

  /** A player body names a connected player; any other body names nobody. */
  predicate Known(w: World, b: Body)
  {
    b.PlayerBody? ==> b.socketId in w.players
  }

  /** In a consistent world every body in the outdoor world is known. */
  lemma InWorldKnown(w: World, b: Body)
    requires Consistent(w) && InWorld(w, b)
    ensures Known(w, b)
  {
  }

  /** What the collision handler leaves: the world, the board, and whether a hit threw. */
  datatype Collided = Collided(world: World, standings: Standings, crashed: bool)

  /**
   * One side of the bullet block: a bullet not meeting its own shooter is
   * removed, and when it meets a player that player takes the hit (HitWorld,
   * HitStandings).  A hit that faints its victim throws when the shooter is
   * gone.
   */
  function BulletMeets(w: World, t: Standings, bullet: Body, other: Body): (r: Collided)
    requires t.WellFormed() && Known(w, other)
    ensures r.world.players.Keys == w.players.Keys && r.standings.WellFormed()
  {
    if !Consumes(bullet, other) then Collided(w, t, false)
    else
      var w1 := w.(bullets := w.bullets - {bullet.bulletId});
      if !other.PlayerBody? then Collided(w1, t, false)
      else
        var v := other.socketId;
        HitTakesOneHealth(w1, v, bullet.firedBy);
        var w2 := HitWorld(w1, v, bullet.firedBy);
        Collided(w2, HitStandings(t, w1, w2, v, bullet.firedBy), w1.players[v].health == 1 && bullet.firedBy !in w1.players)
  }

  /** A player collects an item type: its record changes as CollectItem says, and a coin is reported with the new balance. */
  function Collected(w: World, t: Standings, id: SocketId, it: ItemType): (r: Collided)
    requires t.WellFormed() && id in w.players
    ensures r.world.players.Keys == w.players.Keys && r.standings.WellFormed() && !r.crashed
  {
    var q := CollectItem(w.players[id], it);
    Collided(w.(players := w.players[id := q]), if it == Coin then t.Add(Report(Coins, Line(q, q.coins))) else t, false)
  }

  /** One side of the item block: an item is removed, and collected when the other body is a player. */
  function ItemTaken(w: World, t: Standings, item: Body, other: Body): (r: Collided)
    requires t.WellFormed() && Known(w, other)
    ensures r.world.players.Keys == w.players.Keys && r.standings.WellFormed() && !r.crashed
  {
    if !item.ItemBody? then Collided(w, t, false)
    else
      var w1 := w.(items := w.items - {item.itemId});
      if other.PlayerBody? then Collected(w1, t, other.socketId, item.itemType) else Collided(w1, t, false)
  }

  /** One side of the coin block: a loose coin met by a player other than its dropper is removed and collected. */
  function CoinTaken(w: World, t: Standings, coin: Body, other: Body): (r: Collided)
    requires t.WellFormed() && Known(w, other)
    ensures r.world.players.Keys == w.players.Keys && r.standings.WellFormed() && !r.crashed
  {
    if Collects(coin, other) then Collected(w.(looseCoins := w.looseCoins - {coin.coinId}), t, other.socketId, Coin)
    else Collided(w, t, false)
  }

  /** The bullet block: `a`'s side, then, unless that threw, `b`'s side. */
  function BulletsCollide(w: World, t: Standings, a: Body, b: Body): (r: Collided)
    requires t.WellFormed() && Known(w, a) && Known(w, b)
    ensures r.world.players.Keys == w.players.Keys && r.standings.WellFormed()
  {
    var r1 := BulletMeets(w, t, a, b);
    if r1.crashed then r1 else BulletMeets(r1.world, r1.standings, b, a)
  }

  /** The item block: `a`'s side, then `b`'s side. */
  function ItemsCollide(w: World, t: Standings, a: Body, b: Body): (r: Collided)
    requires t.WellFormed() && Known(w, a) && Known(w, b)
    ensures r.world.players.Keys == w.players.Keys && r.standings.WellFormed() && !r.crashed
  {
    var r1 := ItemTaken(w, t, a, b);
    ItemTaken(r1.world, r1.standings, b, a)
  }

  /** The coin block: `a`'s side, then `b`'s side. */
  function CoinsCollide(w: World, t: Standings, a: Body, b: Body): (r: Collided)
    requires t.WellFormed() && Known(w, a) && Known(w, b)
    ensures r.world.players.Keys == w.players.Keys && r.standings.WellFormed() && !r.crashed
  {
    var r1 := CoinTaken(w, t, a, b);
    CoinTaken(r1.world, r1.standings, b, a)
  }

  /** The whole handler for one pair: bullets, then items, then coins; a hit that throws ends it. */
  function Collision(w: World, t: Standings, a: Body, b: Body): (r: Collided)
    requires t.WellFormed() && Known(w, a) && Known(w, b)
    ensures r.world.players.Keys == w.players.Keys && r.standings.WellFormed()
  {
    var r1 := BulletsCollide(w, t, a, b);
    if r1.crashed then r1
    else
      var r2 := ItemsCollide(r1.world, r1.standings, a, b);
      CoinsCollide(r2.world, r2.standings, a, b)
  }

  /** `w'` keeps `w`'s worlds, join order and treasure, and has no bullet or item `w` lacked. */
  ghost predicate Framed(w: World, w': World)
  {
    && w'.outdoorWorld == w.outdoorWorld && w'.loungeWorld == w.loungeWorld
    && w'.joinOrder == w.joinOrder && w'.treasures == w.treasures
    && w'.bullets.Keys <= w.bullets.Keys && w'.items.Keys <= w.items.Keys
  }

  lemma BulletMeetsFrames(w: World, t: Standings, bullet: Body, other: Body)
    requires t.WellFormed() && Known(w, other)
    ensures var r := BulletMeets(w, t, bullet, other);
      Framed(w, r.world) && (Consumes(bullet, other) ==> bullet.bulletId !in r.world.bullets)
  {
  }

  lemma ItemTakenFrames(w: World, t: Standings, item: Body, other: Body)
    requires t.WellFormed() && Known(w, other)
    ensures var r := ItemTaken(w, t, item, other);
      && Framed(w, r.world) && r.world.bullets == w.bullets && r.world.looseCoins == w.looseCoins
      && (item.ItemBody? ==> item.itemId !in r.world.items)
  {
  }

  lemma CoinTakenFrames(w: World, t: Standings, coin: Body, other: Body)
    requires t.WellFormed() && Known(w, other)
    ensures var r := CoinTaken(w, t, coin, other);
      && Framed(w, r.world) && r.world.bullets == w.bullets && r.world.items == w.items
      && r.world.looseCoins.Keys <= w.looseCoins.Keys
      && (Collects(coin, other) ==> coin.coinId !in r.world.looseCoins)
  {
  }

  /**
   * The handler never moves a body between worlds, reorders the players or
   * touches the treasure; bullets and items only disappear; a bullet not
   * meeting its shooter is gone, and so, unless a hit threw first, is every
   * item of the pair and every loose coin collected.
   */
  lemma CollisionFrames(w: World, t: Standings, a: Body, b: Body)
    requires t.WellFormed() && Known(w, a) && Known(w, b)
    ensures var r := Collision(w, t, a, b);
      && Framed(w, r.world)
      && (Consumes(a, b) ==> a.bulletId !in r.world.bullets)
      && (!r.crashed && Consumes(b, a) ==> b.bulletId !in r.world.bullets)
      && (!r.crashed && a.ItemBody? ==> a.itemId !in r.world.items)
      && (!r.crashed && b.ItemBody? ==> b.itemId !in r.world.items)
      && (!r.crashed && Collects(a, b) ==> a.coinId !in r.world.looseCoins)
      && (!r.crashed && Collects(b, a) ==> b.coinId !in r.world.looseCoins)
  {
    var r1 := BulletMeets(w, t, a, b);
    BulletMeetsFrames(w, t, a, b);
    if !r1.crashed {
      var r2 := BulletMeets(r1.world, r1.standings, b, a);
      BulletMeetsFrames(r1.world, r1.standings, b, a);
      if !r2.crashed {
        var r3 := ItemTaken(r2.world, r2.standings, a, b);
        ItemTakenFrames(r2.world, r2.standings, a, b);
        var r4 := ItemTaken(r3.world, r3.standings, b, a);
        ItemTakenFrames(r3.world, r3.standings, b, a);
        var r5 := CoinTaken(r4.world, r4.standings, a, b);
        CoinTakenFrames(r4.world, r4.standings, a, b);
        CoinTakenFrames(r5.world, r5.standings, b, a);
      }
    }
  }

  /**
   * A bullet meeting a player other than its shooter, in either order: the
   * bullet is removed and the player takes the hit, which costs one health
   * point when there is any; nothing else happens in the handler.
   */
  lemma BulletHitsPlayer(w: World, t: Standings, bullet: Body, player: Body)
    requires t.WellFormed() && bullet.BulletBody? && player.PlayerBody? && player.socketId in w.players
    requires bullet.firedBy != player.socketId
    ensures var w1 := w.(bullets := w.bullets - {bullet.bulletId});
      var v := player.socketId;
      var w2 := HitWorld(w1, v, bullet.firedBy);
      var r := Collided(w2, HitStandings(t, w1, w2, v, bullet.firedBy), w.players[v].health == 1 && bullet.firedBy !in w.players);
      && Collision(w, t, bullet, player) == r
      && Collision(w, t, player, bullet) == r
      && bullet.bulletId !in r.world.bullets
      && (w.players[v].health > 0 ==> r.world.players[v].health == w.players[v].health - 1)
  {
    var w1 := w.(bullets := w.bullets - {bullet.bulletId});
    HitTakesOneHealth(w1, player.socketId, bullet.firedBy);
  }

  /** A bullet meeting its own shooter, in either order, changes nothing. */
  lemma OwnBulletPasses(w: World, t: Standings, bullet: Body, player: Body)
    requires t.WellFormed() && bullet.BulletBody? && player.PlayerBody? && player.socketId in w.players
    requires bullet.firedBy == player.socketId
    ensures Collision(w, t, bullet, player) == Collided(w, t, false)
    ensures Collision(w, t, player, bullet) == Collided(w, t, false)
  {
  }

  /**
   * An item meeting a player, in either order: the item is removed, the
   * player's record changes as CollectItem says, and a coin-type item is
   * reported to the coins list with the new balance; other types leave the
   * board alone.
   */
  lemma ItemPickedUp(w: World, t: Standings, item: Body, player: Body)
    requires t.WellFormed() && item.ItemBody? && player.PlayerBody? && player.socketId in w.players
    ensures var id := player.socketId;
      var q := CollectItem(w.players[id], item.itemType);
      var r := Collided(w.(items := w.items - {item.itemId}, players := w.players[id := q]),
                        if item.itemType == Coin then t.Add(Report(Coins, Line(q, q.coins))) else t, false);
      && Collision(w, t, item, player) == r
      && Collision(w, t, player, item) == r
  {
  }

  /** Two items meeting both disappear; the players and the board are unchanged. */
  lemma ItemsMeet(w: World, t: Standings, a: Body, b: Body)
    requires t.WellFormed() && a.ItemBody? && b.ItemBody?
    ensures Collision(w, t, a, b) == Collided(w.(items := w.items - {a.itemId} - {b.itemId}), t, false)
  {
  }

  /**
   * A loose coin meeting a player, in either order: a player other than the
   * dropper removes it, gains one coin and is reported with the new balance;
   * the dropper leaves it lying and nothing changes.
   */
  lemma CoinPickedUp(w: World, t: Standings, coin: Body, player: Body)
    requires t.WellFormed() && coin.CoinBody? && player.PlayerBody? && player.socketId in w.players
    ensures var id := player.socketId;
      var q := CollectItem(w.players[id], Coin);
      var r := if coin.droppedBy == id then Collided(w, t, false)
        else Collided(w.(looseCoins := w.looseCoins - {coin.coinId}, players := w.players[id := q]),
                      t.Add(Report(Coins, Line(q, q.coins))), false);
      && Collision(w, t, coin, player) == r
      && Collision(w, t, player, coin) == r
      && (coin.droppedBy != id ==> q.coins == w.players[id].coins + 1)
  {
  }

  /** Bodies that are neither bullets, items nor coins meeting each other change nothing. */
  lemma InertMeet(w: World, t: Standings, a: Body, b: Body)
    requires t.WellFormed() && Known(w, a) && Known(w, b)
    requires (a.PlayerBody? || a.StaticBody?) && (b.PlayerBody? || b.StaticBody?)
    ensures Collision(w, t, a, b) == Collided(w, t, false)
  {
  }

  // ---------------------------------------------------------------------------
  // The leaderboard as the clients receive it

  /** The display form of one list: "name - number" for scores above zero, "" for the rest. */
  function RenderList(s: seq<Entry>): (r: seq<string>)
    ensures |r| == |s|
    ensures forall k :: 0 <= k < |s| ==> (r[k] == "" <==> s[k].number == 0)
    ensures forall k :: 0 <= k < |s| && s[k].number > 0 ==>
      r[k] == s[k].username + " - " + Text.NatToString(s[k].number)
  {
    seq(|s|, k requires 0 <= k < |s| =>
      if s[k].number > 0 then s[k].username + " - " + Text.NatToString(s[k].number) else "")
  }

  datatype Display = Display(coins: seq<string>, kills: seq<string>, deaths: seq<string>)

  function Render(t: Standings): (d: Display)
    ensures |d.coins| == |t.coins| && |d.kills| == |t.kills| && |d.deaths| == |t.deaths|
  {
    Display(RenderList(t.coins), RenderList(t.kills), RenderList(t.deaths))
  }

  /** A displayed score can be read back: the text after the name and " - " is the number. */
  lemma RenderedScoreReadsBack(s: seq<Entry>, k: nat)
    requires k < |s| && s[k].number > 0
    ensures var line := RenderList(s)[k];
      && |line| > |s[k].username| + 3
      && line[..|s[k].username|] == s[k].username
      && Text.AllDigits(line[|s[k].username| + 3..])
      && Text.ParseNat(line[|s[k].username| + 3..]) == s[k].number
  {
    var u := s[k].username;
    var line := RenderList(s)[k];
    assert line == u + " - " + Text.NatToString(s[k].number);
    assert line[|u| + 3..] == Text.NatToString(s[k].number);
    assert line[..|u|] == u;
    Text.ParseNatToString(s[k].number);
  }
}
