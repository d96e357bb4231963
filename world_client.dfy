/**
 * The browser client's bookkeeping around the world server connection: the
 * registry of event listeners, the queue of messages written while offline,
 * and the translation of each game snapshot into the events the game scene
 * listens for (the split into the local and the remote players, bullet
 * directions, item spawn/remove diffing and the coin sparkle check).  The
 * socket itself is an append-only log of the messages handed to it.
 */
module WorldClient {
  import opened Options
  import EngineRules
  import EngineWorld

  // ---------------------------------------------------------------------------
  // Listeners

  type Event = string

  /** A function registered by a caller, known only by its identity. */
  datatype Callback = Callback(id: nat)

  /**
   * What the registry holds: a callback registered directly, or the wrapper
   * `once` builds around one, a fresh function that removes itself after
   * calling the callback.
   */
  datatype Listener = Direct(cb: Callback) | OnceWrapper(cb: Callback, tag: nat)

  /** The position of the first occurrence of `x`, or -1 (`indexOf`). */
  function IndexOf(s: seq<Listener>, x: Listener): (i: int)
    ensures -1 <= i < |s|
    ensures i >= 0 ==> s[i] == x && x !in s[..i]
    ensures i < 0 <==> x !in s
  {
    if s == [] then -1
    else if s[0] == x then 0
    else
      var j := IndexOf(s[1..], x);
      assert s == [s[0]] + s[1..];
      if j < 0 then -1
      else
        assert s[..j + 1] == [s[0]] + s[1..][..j];
        j + 1
  }

  /** The list after `splice(indexOf(x), 1)` when `x` occurs, and unchanged otherwise. */
  function RemoveFirst(s: seq<Listener>, x: Listener): seq<Listener>
  {
    var i := IndexOf(s, x);
    if i < 0 then s else s[..i] + s[i + 1..]
  }

  /** Removing a listener takes out exactly one copy of it, the first, and keeps the rest in order. */
  lemma RemoveFirstTakesOne(s: seq<Listener>, x: Listener)
    ensures x !in s ==> RemoveFirst(s, x) == s
    ensures x in s ==> multiset(RemoveFirst(s, x)) == multiset(s) - multiset{x} && |RemoveFirst(s, x)| == |s| - 1
    ensures x in s ==> exists i :: 0 <= i < |s| && s[i] == x && x !in s[..i] && RemoveFirst(s, x) == s[..i] + s[i + 1..]
  {
    if x in s {
      var i := IndexOf(s, x);
      assert s == s[..i] + [s[i]] + s[i + 1..];
    }
  }

  /** The listeners a forEach visits and what is left of the list after it. */
  datatype Fired = Fired(remaining: seq<Listener>, visited: seq<Listener>)

  /**
   * `forEach` over the listener list from index `k`, where the length was
   * read as `len0` when the scan began: each listener still present at its
   * index is called, and a once-wrapper splices itself out, so the listener
   * after it moves into the visited slot and is skipped.
   */
  function EmitScan(ls: seq<Listener>, k: nat, len0: nat): (f: Fired)
    decreases len0 - k
  {
    if k >= len0 || k >= |ls| then Fired(ls, [])
    else
      var l := ls[k];
      var rest := EmitScan(if l.OnceWrapper? then RemoveFirst(ls, l) else ls, k + 1, len0);
      Fired(rest.remaining, [l] + rest.visited)
  }

  lemma EmitStep(ls: seq<Listener>, k: nat, len0: nat)
    requires k < len0 && k < |ls|
    ensures var rest := EmitScan(if ls[k].OnceWrapper? then RemoveFirst(ls, ls[k]) else ls, k + 1, len0);
      EmitScan(ls, k, len0) == Fired(rest.remaining, [ls[k]] + rest.visited)
  {
  }

  /** The callbacks behind a sequence of listeners. */
  function Targets(ls: seq<Listener>): (cs: seq<Callback>)
    ensures |cs| == |ls| && forall i | 0 <= i < |ls| :: cs[i] == ls[i].cb
  {
    if ls == [] then [] else [ls[0].cb] + Targets(ls[1..])
  }

  function Onces(ls: seq<Listener>): seq<Listener>
  {
    if ls == [] then [] else (if ls[0].OnceWrapper? then [ls[0]] else []) + Onces(ls[1..])
  }

  predicate NoOnces(ls: seq<Listener>)
  {
    forall i | 0 <= i < |ls| :: ls[i].Direct?
  }

  /** The registry after emitting `event`. */
  function AfterEmit(listeners: map<Event, seq<Listener>>, event: Event): map<Event, seq<Listener>>
  {
    if event in listeners then listeners[event := EmitScan(listeners[event], 0, |listeners[event]|).remaining]
    else listeners
  }

  /** The listeners an emit of `event` calls, in order. */
  function VisitedBy(listeners: map<Event, seq<Listener>>, event: Event): seq<Listener>
  {
    if event in listeners then EmitScan(listeners[event], 0, |listeners[event]|).visited else []
  }

  /** An emit removes from the list exactly the once-wrappers it called, and nothing else. */
  lemma {:induction false} EmitRemovesCalledOnces(ls: seq<Listener>, k: nat, len0: nat)
    ensures var f := EmitScan(ls, k, len0); multiset(f.remaining) + multiset(Onces(f.visited)) == multiset(ls)
    decreases len0 - k
  {
    if !(k >= len0 || k >= |ls|) {
      var l := ls[k];
      var ls' := if l.OnceWrapper? then RemoveFirst(ls, l) else ls;
      EmitRemovesCalledOnces(ls', k + 1, len0);
      EmitStep(ls, k, len0);
      var rest := EmitScan(ls', k + 1, len0);
      OncesCons(l, rest.visited);
      var one := if l.OnceWrapper? then multiset{l} else multiset{};
      ghost var a := multiset(rest.remaining);
      ghost var b := multiset(Onces(rest.visited));
      assert a + b == multiset(ls');
      assert multiset(Onces([l] + rest.visited)) == one + b;
      if l.OnceWrapper? {
        RemoveFirstTakesOne(ls, l);
      }
      assert multiset(ls') + one == multiset(ls);
    }
  }

  lemma OncesCons(l: Listener, ls: seq<Listener>)
    ensures multiset(Onces([l] + ls)) == (if l.OnceWrapper? then multiset{l} else multiset{}) + multiset(Onces(ls))
  {
    assert ([l] + ls)[1..] == ls;
  }

  /** Without once-wrappers an emit calls every listener from `k` on, in order, and leaves the list alone. */
  lemma {:induction false} EmitPlain(ls: seq<Listener>, k: nat)
    requires NoOnces(ls) && k <= |ls|
    ensures EmitScan(ls, k, |ls|) == Fired(ls, ls[k..])
    decreases |ls| - k
  {
    if k < |ls| {
      EmitPlain(ls, k + 1);
      assert ls[k..] == [ls[k]] + ls[k + 1..];
    }
  }

  /**
   * A once-listener added after plain ones is called after all of them on
   * the next emit and is gone afterwards, so the emit after that calls only
   * the plain ones.
   */
  lemma OnceRunsOnce(ls: seq<Listener>, w: Listener)
    requires NoOnces(ls) && w.OnceWrapper?
    ensures EmitScan(ls + [w], 0, |ls| + 1) == Fired(ls, ls + [w])
    ensures EmitScan(ls, 0, |ls|) == Fired(ls, ls)
  {
    OnceAtEnd(ls, w, 0);
    EmitPlain(ls, 0);
  }

  lemma {:induction false} OnceAtEnd(ls: seq<Listener>, w: Listener, k: nat)
    requires NoOnces(ls) && w.OnceWrapper? && k <= |ls|
    ensures EmitScan(ls + [w], k, |ls| + 1) == Fired(ls, (ls + [w])[k..])
    decreases |ls| - k
  {
    var s := ls + [w];
    if k < |ls| {
      assert s[k] == ls[k];
      OnceAtEnd(ls, w, k + 1);
      assert s[k..] == [s[k]] + s[k + 1..];
    } else {
      assert forall i | 0 <= i < |ls| :: ls[i] != w;
      assert IndexOf(s, w) == |ls| by { assert s[..|ls|] == ls; }
      assert RemoveFirst(s, w) == ls;
    }
  }

  /** A listener spliced out by a once-wrapper before it skips its successor: the listener after it is not called. */
  lemma OnceSkipsNext(a: Callback, t: nat, b: Callback)
    ensures EmitScan([OnceWrapper(a, t), Direct(b)], 0, 2) == Fired([Direct(b)], [OnceWrapper(a, t)])
  {
    var s := [OnceWrapper(a, t), Direct(b)];
    assert IndexOf(s, OnceWrapper(a, t)) == 0;
    assert RemoveFirst(s, OnceWrapper(a, t)) == [Direct(b)];
  }

  // ---------------------------------------------------------------------------
  // Messages

  /** What the client writes to the socket: the authentication message, or any other message. */
  datatype Message = Auth(token: Option<string>) | Outgoing(body: string)

  // ---------------------------------------------------------------------------
  // Game snapshots

  datatype Stats = Stats(coins: int)
  datatype Inputs = Inputs(w: int, a: int, s: int, d: int)

  /** A player as a snapshot carries it; a missing optional field is None. */
  datatype SnapPlayer = SnapPlayer(
    id: string, name: string, x: int, y: int,
    lookIndex: Option<int>, currentArea: Option<int>, currentItem: Option<string>,
    health: int, bullets: int, currentInputs: Option<Inputs>, stats: Option<Stats>)

  datatype SnapBullet = SnapBullet(id: string, x: int, y: int, vx: int, vy: int, playerId: string)
  datatype SnapCoin = SnapCoin(id: string, x: int, y: int)
  datatype SnapItem = SnapItem(id: string, x: int, y: int, itemType: int)
  datatype SnapTreasure = SnapTreasure(x: int, y: int)

  /** The announcements a snapshot may carry; any other kind is ignored. */
  datatype Broadcast =
    | FeedNews(data: string)
    | ChatLine(playerId: string, message: string)
    | PlayerActs(playerId: string, actions: string)
    | LookChange(playerId: string, lookIndex: int)
    | OtherBroadcast(kind: string)

  datatype Snapshot = Snapshot(
    players: seq<SnapPlayer>, bullets: seq<SnapBullet>, looseCoins: seq<SnapCoin>,
    items: seq<SnapItem>, treasures: seq<SnapTreasure>, broadcasts: seq<Broadcast>, tick: int)

  datatype RemoteView = RemoteView(
    playerId: string, username: string, x: int, y: int, lookIndex: int, currentArea: int,
    item: Option<string>, health: int, bullets: int, currentInputs: Inputs)

  datatype LocalView = LocalView(
    x: int, y: int, name: string, id: string, lookIndex: int, stats: Option<Stats>,
    health: int, bullets: int, currentItem: Option<string>)

  datatype BulletView = BulletView(bulletId: string, x: int, y: int, direction: int, playerId: string)
  datatype CoinView = CoinView(itemId: string, x: int, y: int)
  datatype ItemView = ItemView(itemId: string, x: int, y: int, itemType: int)

  datatype Converted = Converted(
    players: seq<RemoteView>, bullets: seq<BulletView>, coins: seq<CoinView>, you: Option<LocalView>, tick: int)

  datatype Action = Said(message: string) | Acted(actions: string) | Looked(lookIndex: int)

  /** The events a snapshot makes the client emit. */
  datatype ClientEvent =
    | StateEvent(state: Converted)
    | SnapshotEvent(state: Converted)
    | FeedEvent(data: string)
    | PlayerActionEvent(playerId: string, action: Action)
    | GetItems(items: seq<ItemView>)
    | SpawnItem(item: ItemView)
    | RemoveItem(itemId: string)
    | HealthUpdate(health: int)
    | BulletUpdate(bullets: int)
    | CoinUpdate(coins: int)

  /** JavaScript's `x || d` on an optional number: a missing value and 0 both give the default. */
  function OrDefault(v: Option<int>, d: int): (r: int)
    ensures v.Some? && v.value != 0 ==> r == v.value
    ensures v.None? || v.value == 0 ==> r == d
  {
    if v.Some? && v.value != 0 then v.value else d
  }

  /** `s || null` on an optional string: the empty string is falsy too. */
  function OrNull(v: Option<string>): (r: Option<string>)
    ensures r.Some? <==> v.Some? && v.value != ""
    ensures r.Some? ==> r == v
  {
    if v.Some? && v.value != "" then v else None
  }

  /**
   * A look index or area of 0 and an empty held item are falsy, so a remote
   * player's view is the same as when the snapshot leaves them out.
   */
  lemma FalsyFieldsLookMissing(p: SnapPlayer)
    ensures p.lookIndex == Some(0) ==> Remote(p) == Remote(p.(lookIndex := None))
    ensures p.currentArea == Some(0) ==> Remote(p) == Remote(p.(currentArea := None))
    ensures p.currentItem == Some("") ==> Remote(p) == Remote(p.(currentItem := None))
    ensures Remote(p.(lookIndex := None, currentArea := None)).lookIndex == 0
    ensures Remote(p.(lookIndex := None, currentArea := None)).currentArea == 1
  {
  }

  function Remote(p: SnapPlayer): RemoteView
  {
    RemoteView(p.id, p.name, p.x, p.y, OrDefault(p.lookIndex, 0), OrDefault(p.currentArea, 1),
               OrNull(p.currentItem), p.health, p.bullets, p.currentInputs.GetOr(Inputs(0, 0, 0, 0)))
  }

  function Local(p: SnapPlayer): LocalView
  {
    LocalView(p.x, p.y, p.name, p.id, OrDefault(p.lookIndex, 0), p.stats, p.health, p.bullets, p.currentItem)
  }

  predicate IsLocal(p: SnapPlayer, sessionID: Option<string>)
  {
    sessionID == Some(p.id)
  }

  /** The first snapshot player whose id is the session's (`find`). */
  function FindLocal(ps: seq<SnapPlayer>, sessionID: Option<string>): (r: Option<SnapPlayer>)
    ensures r.Some? ==> r.value in ps && IsLocal(r.value, sessionID)
    ensures r.None? ==> forall i | 0 <= i < |ps| :: !IsLocal(ps[i], sessionID)
  {
    if ps == [] then None
    else if IsLocal(ps[0], sessionID) then Some(ps[0])
    else FindLocal(ps[1..], sessionID)
  }

  /** The players other than the session's, in snapshot order (`filter`). */
  function Remotes(ps: seq<SnapPlayer>, sessionID: Option<string>): (r: seq<SnapPlayer>)
    ensures forall p :: p in r <==> p in ps && !IsLocal(p, sessionID)
    ensures |r| <= |ps|
  {
    if ps == [] then []
    else (if IsLocal(ps[0], sessionID) then [] else [ps[0]]) + Remotes(ps[1..], sessionID)
  }

  /** Everyone in the snapshot is either the local player, at most once found, or among the remotes. */
  lemma {:induction false} SplitIsTotal(ps: seq<SnapPlayer>, sessionID: Option<string>)
    ensures FindLocal(ps, sessionID).None? ==> Remotes(ps, sessionID) == ps
    ensures FindLocal(ps, sessionID).Some? ==> |Remotes(ps, sessionID)| < |ps|
  {
    if ps != [] {
      SplitIsTotal(ps[1..], sessionID);
      assert ps == [ps[0]] + ps[1..];
    }
  }

  /**
   * The direction drawn for a bullet from its velocity: vertical when the
   * vertical speed is strictly larger (0 up, 2 down), horizontal otherwise
   * (1 left, 3 right), so a tie, a standing bullet included, is drawn right.
   */
  function VelocityToDirection(vx: int, vy: int): (d: int)
    ensures 0 <= d <= 3
    ensures Abs(vy) > Abs(vx) ==> (d == 0 <==> vy < 0) && (d == 2 <==> vy >= 0)
    ensures Abs(vy) <= Abs(vx) ==> (d == 1 <==> vx < 0) && (d == 3 <==> vx >= 0)
  {
    if Abs(vy) > Abs(vx) then (if vy < 0 then 0 else 2)
    else (if vx < 0 then 1 else 3)
  }

  function Abs(n: int): nat { if n < 0 then -n else n }

  /**
   * A cross-check of two direction tables that never meet in the program
   * (the engine sends a direction, and the client reads velocities from a
   * different server): the client's velocity reading agrees with the engine's
   * key numbering for each known key, and no velocity at all reads as right.
   */
  lemma DirectionReadsBack(direction: int)
    ensures var v := EngineRules.BulletVelocity(direction);
      VelocityToDirection(v.x, v.y) == if 0 <= direction <= 3 then direction else EngineRules.KEY_D
  {
  }

  function BulletOf(b: SnapBullet): BulletView
  {
    BulletView(b.id, b.x, b.y, VelocityToDirection(b.vx, b.vy), b.playerId)
  }

  function MapBullets(bs: seq<SnapBullet>): (r: seq<BulletView>)
    ensures |r| == |bs| && forall i | 0 <= i < |bs| :: r[i] == BulletOf(bs[i])
  {
    if bs == [] then [] else [BulletOf(bs[0])] + MapBullets(bs[1..])
  }

  function MapRemotes(ps: seq<SnapPlayer>): (r: seq<RemoteView>)
    ensures |r| == |ps| && forall i | 0 <= i < |ps| :: r[i] == Remote(ps[i])
  {
    if ps == [] then [] else [Remote(ps[0])] + MapRemotes(ps[1..])
  }

  function MapCoins(cs: seq<SnapCoin>): (r: seq<CoinView>)
    ensures |r| == |cs| && forall i | 0 <= i < |cs| :: r[i] == CoinView(cs[i].id, cs[i].x, cs[i].y)
  {
    if cs == [] then [] else [CoinView(cs[0].id, cs[0].x, cs[0].y)] + MapCoins(cs[1..])
  }

  /** The state a snapshot is turned into for the game scene. */
  function Convert(s: Snapshot, sessionID: Option<string>): (c: Converted)
    ensures |c.players| == |Remotes(s.players, sessionID)| && |c.bullets| == |s.bullets| && |c.coins| == |s.looseCoins|
    ensures c.you.Some? ==> sessionID == Some(c.you.value.id)
  {
    var local := FindLocal(s.players, sessionID);
    Converted(MapRemotes(Remotes(s.players, sessionID)), MapBullets(s.bullets), MapCoins(s.looseCoins),
              if local.Some? then Some(Local(local.value)) else None, s.tick)
  }

  /** The converted remote players are exactly the snapshot players whose id differs from the session's. */
  lemma ConvertedRemotesAreOthers(s: Snapshot, sessionID: Option<string>)
    ensures forall r :: r in Convert(s, sessionID).players <==> exists p :: p in s.players && !IsLocal(p, sessionID) && r == Remote(p)
  {
    var remotes := Remotes(s.players, sessionID);
    var views := MapRemotes(remotes);
    assert Convert(s, sessionID).players == views;
    forall r | r in views ensures exists p :: p in s.players && !IsLocal(p, sessionID) && r == Remote(p) {
      var i :| 0 <= i < |views| && views[i] == r;
      assert remotes[i] in remotes;
    }
    forall p | p in s.players && !IsLocal(p, sessionID) ensures Remote(p) in views {
      assert p in remotes;
      var i :| 0 <= i < |remotes| && remotes[i] == p;
      assert views[i] == Remote(p);
    }
  }

  /** There is a local view exactly when some snapshot player has the session's id. */
  lemma ConvertedLocalIsSession(s: Snapshot, sessionID: Option<string>)
    ensures Convert(s, sessionID).you.Some? <==> exists i :: 0 <= i < |s.players| && IsLocal(s.players[i], sessionID)
  {
    var local := FindLocal(s.players, sessionID);
    if local.Some? {
      var i :| 0 <= i < |s.players| && s.players[i] == local.value;
    }
  }

  /** What one broadcast becomes: a feed line, a chat, an action or a look change; any other type is ignored. */
  function BroadcastEvent(b: Broadcast): (e: seq<ClientEvent>)
    ensures |e| <= 1 && (e == [] <==> b.OtherBroadcast?)
    ensures forall i | 0 <= i < |e| :: e[i].FeedEvent? || e[i].PlayerActionEvent?
    ensures b.FeedNews? <==> e != [] && e[0].FeedEvent?
    ensures b.FeedNews? ==> e[0].data == b.data
    ensures b.ChatLine? <==> e != [] && e[0].PlayerActionEvent? && e[0].action.Said?
    ensures b.PlayerActs? <==> e != [] && e[0].PlayerActionEvent? && e[0].action.Acted?
    ensures b.LookChange? <==> e != [] && e[0].PlayerActionEvent? && e[0].action.Looked?
    ensures e != [] && e[0].PlayerActionEvent? ==> !b.FeedNews? && !b.OtherBroadcast? && e[0].playerId == b.playerId
  {
    match b
    case FeedNews(d) => [FeedEvent(d)]
    case ChatLine(id, m) => [PlayerActionEvent(id, Said(m))]
    case PlayerActs(id, a) => [PlayerActionEvent(id, Acted(a))]
    case LookChange(id, n) => [PlayerActionEvent(id, Looked(n))]
    case OtherBroadcast(_) => []
  }

  /** The player actions and feed lines a snapshot's broadcasts become, in order. */
  function BroadcastEvents(bs: seq<Broadcast>): (es: seq<ClientEvent>)
    ensures |es| <= |bs|
    ensures forall i | 0 <= i < |es| :: es[i].FeedEvent? || es[i].PlayerActionEvent?
  {
    if bs == [] then [] else BroadcastEvent(bs[0]) + BroadcastEvents(bs[1..])
  }

  /**
   * The loop over the broadcasts handles them one at a time: the events of a
   * list followed by another are the first list's events followed by the
   * second's, and one broadcast yields exactly its own events.
   */
  lemma {:induction false} BroadcastEventsAppend(bs: seq<Broadcast>, cs: seq<Broadcast>)
    ensures BroadcastEvents(bs + cs) == BroadcastEvents(bs) + BroadcastEvents(cs)
    ensures |cs| == 1 ==> BroadcastEvents(cs) == BroadcastEvent(cs[0])
    decreases |bs|
  {
    if bs == [] {
      assert bs + cs == cs;
    } else {
      assert (bs + cs)[0] == bs[0];
      assert (bs + cs)[1..] == bs[1..] + cs;
      BroadcastEventsAppend(bs[1..], cs);
    }
    if |cs| == 1 {
      assert cs[1..] == [];
    }
  }

  // ---------------------------------------------------------------------------
  // Item diffing

  function ViewOf(it: SnapItem): ItemView
  {
    ItemView(it.id, it.x, it.y, it.itemType)
  }

  function MapItems(items: seq<SnapItem>): (r: seq<ItemView>)
    ensures |r| == |items| && forall i | 0 <= i < |items| :: r[i] == ViewOf(items[i])
  {
    if items == [] then [] else MapItems(items[..|items| - 1]) + [ViewOf(items[|items| - 1])]
  }

  predicate HasId(items: seq<SnapItem>, id: string)
  {
    exists i :: 0 <= i < |items| && items[i].id == id
  }

  /** A spawn for each snapshot item whose id was not tracked, in snapshot order. */
  function Spawns(items: seq<SnapItem>, last: map<string, SnapItem>): seq<ClientEvent>
  {
    if items == [] then []
    else
      var it := items[|items| - 1];
      Spawns(items[..|items| - 1], last) + if it.id in last then [] else [SpawnItem(ViewOf(it))]
  }

  /** A removal for each tracked id, in tracking order, that the snapshot no longer has. */
  function Removes(order: seq<string>, items: seq<SnapItem>): seq<ClientEvent>
  {
    if order == [] then []
    else
      var id := order[|order| - 1];
      Removes(order[..|order| - 1], items) + if HasId(items, id) then [] else [RemoveItem(id)]
  }

  /**
   * The item events of a snapshot: all items at once when nothing was
   * tracked and the snapshot has some, otherwise the spawns and then the
   * removals.
   */
  function ItemEvents(last: map<string, SnapItem>, order: seq<string>, items: seq<SnapItem>): seq<ClientEvent>
  {
    if |last| == 0 && |items| > 0 then [GetItems(MapItems(items))]
    else Spawns(items, last) + Removes(order, items)
  }

  /** The tracked items after refilling from `items`: each id once, in first-seen order, holding its last item. */
  datatype Tracked = Tracked(items: map<string, SnapItem>, order: seq<string>)

  function Track(items: seq<SnapItem>): Tracked
  {
    if items == [] then Tracked(map[], [])
    else
      var t := Track(items[..|items| - 1]);
      var it := items[|items| - 1];
      Tracked(t.items[it.id := it], if it.id in t.items then t.order else t.order + [it.id])
  }

  ghost predicate TrackedWell(t: Tracked)
  {
    EngineWorld.NoDup(t.order) && forall id :: id in t.order <==> id in t.items
  }

  /** After a snapshot the tracked ids are exactly the snapshot's, each once, mapped to the last item with that id. */
  lemma {:induction false} TrackHoldsSnapshot(items: seq<SnapItem>)
    ensures TrackedWell(Track(items))
    ensures forall id :: id in Track(items).items <==> HasId(items, id)
    ensures forall id | id in Track(items).items :: Track(items).items[id].id == id
  {
    if items != [] {
      var init := items[..|items| - 1];
      TrackHoldsSnapshot(init);
      forall id ensures HasId(items, id) <==> HasId(init, id) || items[|items| - 1].id == id {
        if HasId(items, id) {
          var i :| 0 <= i < |items| && items[i].id == id;
          if i < |init| { assert init[i].id == id; }
        }
        if HasId(init, id) {
          var i :| 0 <= i < |init| && init[i].id == id;
          assert items[i].id == id;
        }
      }
    }
  }

  /** `e` announces an item of the snapshot whose id was not tracked. */
  predicate SpawnFor(items: seq<SnapItem>, last: map<string, SnapItem>, e: ClientEvent)
  {
    exists i :: 0 <= i < |items| && items[i].id !in last && e == SpawnItem(ViewOf(items[i]))
  }

  /** Each spawn is for a snapshot item that was not tracked, and each such item gets one. */
  lemma {:induction false} SpawnsExact(items: seq<SnapItem>, last: map<string, SnapItem>)
    ensures forall e :: e in Spawns(items, last) <==> SpawnFor(items, last, e)
  {
    if items != [] {
      var init := items[..|items| - 1];
      var it := items[|items| - 1];
      SpawnsExact(init, last);
      forall e ensures SpawnFor(items, last, e) <==> SpawnFor(init, last, e) || (it.id !in last && e == SpawnItem(ViewOf(it)))
      {
        if SpawnFor(init, last, e) {
          var i :| 0 <= i < |init| && init[i].id !in last && e == SpawnItem(ViewOf(init[i]));
          assert items[i] == init[i];
        }
        if SpawnFor(items, last, e) {
          var i :| 0 <= i < |items| && items[i].id !in last && e == SpawnItem(ViewOf(items[i]));
          if i < |init| { assert init[i] == items[i]; }
        }
        if it.id !in last && e == SpawnItem(ViewOf(it)) {
          assert items[|items| - 1] == it;
        }
      }
    }
  }

  /** Exactly the tracked ids missing from the snapshot are removed. */
  lemma {:induction false} RemovesExact(order: seq<string>, items: seq<SnapItem>)
    ensures forall e :: e in Removes(order, items) <==> e.RemoveItem? && e.itemId in order && !HasId(items, e.itemId)
  {
    if order != [] {
      RemovesExact(order[..|order| - 1], items);
      assert order == order[..|order| - 1] + [order[|order| - 1]];
    }
  }

  /** With nothing tracked, a first non-empty snapshot announces all its items in a single event. */
  lemma FirstSnapshotGetsAll(items: seq<SnapItem>)
    requires |items| > 0
    ensures ItemEvents(map[], [], items) == [GetItems(MapItems(items))]
  {
  }

  // ---------------------------------------------------------------------------
  // The client

  class Client {
    var connected: bool
    var sessionID: Option<string>
    var jwt: Option<string>
    var listeners: map<Event, seq<Listener>>
    /** The source of fresh identities for once-wrappers. */
    var nextTag: nat
    var messageQueue: seq<Message>
    /** Every message handed to the socket, oldest first. */
    var sent: seq<Message>
    var lastItems: map<string, SnapItem>
    /** The insertion order of `lastItems`, which is the order a Map iterates in. */
    var lastItemOrder: seq<string>
    var lastCoinCount: Option<int>

    /**
     * The tracked items list their ids once each, and every once-wrapper
     * has a tag already handed out.
     */
    ghost predicate Valid()
      reads this
    {
      && TrackedWell(Tracked(lastItems, lastItemOrder))
      && (forall e, l | e in listeners && l in listeners[e] :: l.OnceWrapper? ==> l.tag < nextTag)
    }

    constructor ()
      ensures Valid()
      ensures !connected && sessionID == None && jwt == None && listeners == map[] && messageQueue == [] && sent == []
      ensures lastItems == map[] && lastItemOrder == [] && lastCoinCount == None
    {
      connected := false;
      sessionID := None;
      jwt := None;
      listeners := map[];
      nextTag := 0;
      messageQueue := [];
      sent := [];
      lastItems := map[];
      lastItemOrder := [];
      lastCoinCount := None;
    }

    /** Registers a listener at the end of the event's list, creating the list when the event is new. */
    method On(event: Event, l: Listener)
      requires Valid() && (l.OnceWrapper? ==> l.tag < nextTag)
      modifies this`listeners
      ensures Valid()
      ensures listeners == old(listeners)[event := (if event in old(listeners) then old(listeners)[event] else []) + [l]]
    {
      if event !in listeners {
        listeners := listeners[event := []];
      }
      listeners := listeners[event := listeners[event] + [l]];
    }

    /** Registers a fresh once-wrapper around `cb` and returns it. */
    method Once(event: Event, cb: Callback) returns (w: Listener)
      requires Valid()
      modifies this`listeners, this`nextTag
      ensures Valid()
      ensures w == OnceWrapper(cb, old(nextTag)) && nextTag == old(nextTag) + 1
      ensures forall e | e in old(listeners) :: w !in old(listeners)[e]
      ensures listeners == old(listeners)[event := (if event in old(listeners) then old(listeners)[event] else []) + [w]]
    {
      w := OnceWrapper(cb, nextTag);
      nextTag := nextTag + 1;
      On(event, w);
    }

    /** Without a listener, drops the whole event; with one, removes its first occurrence; an unknown event is left alone. */
    method Off(event: Event, l: Option<Listener>)
      requires Valid()
      modifies this`listeners
      ensures Valid()
      ensures event !in old(listeners) ==> listeners == old(listeners)
      ensures event in old(listeners) && l.None? ==> listeners == old(listeners) - {event}
      ensures event in old(listeners) && l.Some? ==> listeners == old(listeners)[event := RemoveFirst(old(listeners)[event], l.value)]
    {
      if event !in listeners { return; }
      if l.None? {
        listeners := listeners - {event};
        return;
      }
      var ls := listeners[event];
      var i := IndexOf(ls, l.value);
      if i > -1 {
        ghost var rest := ls[..i] + ls[i + 1..];
        assert forall x | x in rest :: x in ls by { assert ls == ls[..i] + [ls[i]] + ls[i + 1..]; }
        listeners := listeners[event := ls[..i] + ls[i + 1..]];
      } else {
        assert listeners[event := RemoveFirst(ls, l.value)] == listeners;
      }
    }

    /** Calls the event's listeners as `forEach` does, once-wrappers removing themselves; returns the callbacks called. */
    method Emit(event: Event) returns (invoked: seq<Callback>)
      requires Valid()
      modifies this`listeners
      ensures Valid()
      ensures listeners == AfterEmit(old(listeners), event)
      ensures invoked == Targets(VisitedBy(old(listeners), event))
    {
      invoked := [];
      if event !in listeners { return; }
      var ls := listeners[event];
      var remaining, visited := ForEachListener(ls);
      EmitKeepsListeners(ls);
      listeners := listeners[event := remaining];
      invoked := Targets(visited);
    }

    /** Writes a message to the socket when connected, and queues it otherwise. */
    method Send(m: Message)
      requires Valid()
      modifies this`messageQueue, this`sent
      ensures Valid()
      ensures connected ==> sent == old(sent) + [m] && messageQueue == old(messageQueue)
      ensures !connected ==> messageQueue == old(messageQueue) + [m] && sent == old(sent)
    {
      if !connected {
        messageQueue := messageQueue + [m];
        return;
      }
      sent := sent + [m];
    }

    /** On connecting: authenticate first, tell the listeners, then send everything queued, oldest first. */
    method HandleOpen() returns (invoked: seq<Callback>)
      requires Valid()
      modifies this`connected, this`messageQueue, this`sent, this`listeners
      ensures Valid() && connected && messageQueue == []
      ensures sent == old(sent) + [Auth(jwt)] + old(messageQueue)
      ensures listeners == AfterEmit(old(listeners), "connected")
      ensures invoked == Targets(VisitedBy(old(listeners), "connected"))
    {
      connected := true;
      Send(Auth(jwt));
      invoked := Emit("connected");
      Flush();
    }

    /** The flush loop: `shift` each queued message and send it, until the queue is empty. */
    method Flush()
      requires Valid() && connected
      modifies this`messageQueue, this`sent
      ensures Valid() && messageQueue == [] && sent == old(sent) + old(messageQueue)
    {
      ghost var queued := messageQueue;
      ghost var k := 0;
      while |messageQueue| > 0
        invariant Valid() && k <= |queued| && messageQueue == queued[k..]
        invariant sent == old(sent) + queued[..k]
        decreases |messageQueue|
      {
        var m := messageQueue[0];
        messageQueue := messageQueue[1..];
        assert queued[..k + 1] == queued[..k] + [m];
        Send(m);
        k := k + 1;
      }
      assert queued[..k] == queued;
    }

    /** Tracks the items of a snapshot and returns the item events it calls for. */
    method DiffItems(items: seq<SnapItem>) returns (events: seq<ClientEvent>)
      requires Valid()
      modifies this`lastItems, this`lastItemOrder
      ensures Valid()
      ensures events == ItemEvents(old(lastItems), old(lastItemOrder), items)
      ensures Tracked(lastItems, lastItemOrder) == Track(items)
    {
      if |lastItems| == 0 && |items| > 0 {
        events := [GetItems(MapItems(items))];
      } else {
        var spawns := CollectSpawns(items, lastItems);
        var removes := CollectRemoves(lastItemOrder, items);
        events := spawns + removes;
      }
      var t := Refill(items);
      lastItems := t.items;
      lastItemOrder := t.order;
      TrackHoldsSnapshot(items);
    }

    /** Sends the local player's stat updates and moves the coin baseline on (see LocalEvents). */
    method LocalUpdates(local: Option<SnapPlayer>) returns (events: seq<ClientEvent>)
      modifies this`lastCoinCount
      ensures events == LocalEvents(old(lastCoinCount), local)
      ensures lastCoinCount == CoinBaseline(old(lastCoinCount), local)
    {
      events := [];
      if local.Some? {
        var p := local.value;
        events := [HealthUpdate(p.health), BulletUpdate(p.bullets)];
        if p.stats.Some? {
          var newCoins := p.stats.value.coins;
          if lastCoinCount.None? {
            lastCoinCount := Some(newCoins);
          } else if newCoins > lastCoinCount.value {
            events := events + [CoinUpdate(newCoins)];
          }
          lastCoinCount := Some(newCoins);
        }
      }
    }

    /**
     * A "gameSnapshot" message: the converted state (as "state" and as
     * "gameSnapshot"), then the broadcasts, the item events and the local
     * player's updates, in that order.
     */
    method HandleGameSnapshot(s: Snapshot) returns (events: seq<ClientEvent>)
      requires Valid()
      modifies this`lastItems, this`lastItemOrder, this`lastCoinCount
      ensures Valid()
      ensures var c := Convert(s, sessionID); var local := FindLocal(s.players, sessionID);
        events == [StateEvent(c), SnapshotEvent(c)] + BroadcastEvents(s.broadcasts)
                  + ItemEvents(old(lastItems), old(lastItemOrder), s.items) + LocalEvents(old(lastCoinCount), local)
      ensures Tracked(lastItems, lastItemOrder) == Track(s.items)
      ensures lastCoinCount == CoinBaseline(old(lastCoinCount), FindLocal(s.players, sessionID))
    {
      var c := Convert(s, sessionID);
      var local := FindLocal(s.players, sessionID);
      var items := DiffItems(s.items);
      var updates := LocalUpdates(local);
      events := [StateEvent(c), SnapshotEvent(c)] + BroadcastEvents(s.broadcasts) + items + updates;
    }
  }

  /** The coin count remembered after a snapshot: the local player's, when it carries stats. */
  function CoinBaseline(last: Option<int>, local: Option<SnapPlayer>): Option<int>
  {
    if local.Some? && local.value.stats.Some? then Some(local.value.stats.value.coins) else last
  }

  /** The local player's stat events: health and bullets, then a coin update when the count went up. */
  function LocalEvents(last: Option<int>, local: Option<SnapPlayer>): seq<ClientEvent>
  {
    if local.None? then []
    else
      var p := local.value;
      [HealthUpdate(p.health), BulletUpdate(p.bullets)]
      + if p.stats.Some? && last.Some? && p.stats.value.coins > last.value then [CoinUpdate(p.stats.value.coins)] else []
  }

  /**
   * A coin update is sent exactly when both this and an earlier snapshot
   * carried a count and the count went up; the first count is only
   * recorded, and health and bullets are always sent first.
   */
  lemma CoinUpdateOnlyOnIncrease(last: Option<int>, local: Option<SnapPlayer>, n: int)
    ensures CoinUpdate(n) in LocalEvents(last, local) <==>
      local.Some? && local.value.stats.Some? && last.Some? && n == local.value.stats.value.coins && n > last.value
    ensures last.None? ==> forall e | e in LocalEvents(last, local) :: !e.CoinUpdate?
    ensures local.Some? ==> LocalEvents(last, local)[..2] == [HealthUpdate(local.value.health), BulletUpdate(local.value.bullets)]
  {
  }

  /** Two snapshots with a rising count: the first sets the baseline silently, the second sparkles. */
  lemma SecondRiseSparkles(p: SnapPlayer, q: SnapPlayer)
    requires p.stats.Some? && q.stats.Some? && q.stats.value.coins > p.stats.value.coins
    ensures var b := CoinBaseline(None, Some(p));
      && LocalEvents(None, Some(p)) == [HealthUpdate(p.health), BulletUpdate(p.bullets)]
      && CoinUpdate(q.stats.value.coins) in LocalEvents(b, Some(q))
  {
    CoinUpdateOnlyOnIncrease(CoinBaseline(None, Some(p)), Some(q), q.stats.value.coins);
  }

  /** The spawn loop: one event per snapshot item whose id is not tracked. */
  method CollectSpawns(items: seq<SnapItem>, last: map<string, SnapItem>) returns (events: seq<ClientEvent>)
    ensures events == Spawns(items, last)
  {
    events := [];
    var k := 0;
    while k < |items|
      invariant k <= |items| && events == Spawns(items[..k], last)
    {
      assert items[..k + 1][..k] == items[..k];
      if items[k].id !in last {
        events := events + [SpawnItem(ViewOf(items[k]))];
      }
      k := k + 1;
    }
    assert items[..k] == items;
  }

  /** The removal loop over the tracked ids, in insertion order. */
  method CollectRemoves(order: seq<string>, items: seq<SnapItem>) returns (events: seq<ClientEvent>)
    ensures events == Removes(order, items)
  {
    events := [];
    var j := 0;
    while j < |order|
      invariant j <= |order| && events == Removes(order[..j], items)
    {
      assert order[..j + 1][..j] == order[..j];
      if !HasIdAt(items, order[j]) {
        events := events + [RemoveItem(order[j])];
      }
      j := j + 1;
    }
    assert order[..j] == order;
  }

  /** The refill loop: clear the tracked items, then set each snapshot item under its id. */
  method Refill(items: seq<SnapItem>) returns (t: Tracked)
    ensures t == Track(items)
  {
    var m: map<string, SnapItem> := map[];
    var order: seq<string> := [];
    var k := 0;
    while k < |items|
      invariant k <= |items| && Tracked(m, order) == Track(items[..k])
    {
      var it := items[k];
      assert items[..k + 1][..k] == items[..k];
      if it.id !in m {
        order := order + [it.id];
      }
      m := m[it.id := it];
      k := k + 1;
    }
    assert items[..k] == items;
    t := Tracked(m, order);
  }

  /**
   * The forEach of an emit over one event's list: every listener found at
   * the current index is called, and a once-wrapper's `off` splices it out
   * of the same list.
   */
  method ForEachListener(ls: seq<Listener>) returns (remaining: seq<Listener>, visited: seq<Listener>)
    ensures Fired(remaining, visited) == EmitScan(ls, 0, |ls|)
  {
    var cur := ls;
    var len0 := |ls|;
    var k := 0;
    visited := [];
    while k < len0
      invariant k <= len0
      invariant EmitScan(ls, 0, len0) == Fired(EmitScan(cur, k, len0).remaining, visited + EmitScan(cur, k, len0).visited)
    {
      if k < |cur| {
        var l := cur[k];
        EmitStep(cur, k, len0);
        ghost var next := if l.OnceWrapper? then RemoveFirst(cur, l) else cur;
        ghost var rest := EmitScan(next, k + 1, len0);
        EngineWorld.AppendAssoc(visited, [l], rest.visited);
        visited := visited + [l];
        if l.OnceWrapper? {
          var i := IndexOf(cur, l);
          cur := cur[..i] + cur[i + 1..];
        }
        assert cur == next;
      }
      k := k + 1;
    }
    remaining := cur;
  }

  /** What an emit leaves in a list was already in it. */
  lemma EmitKeepsListeners(ls: seq<Listener>)
    ensures forall l | l in EmitScan(ls, 0, |ls|).remaining :: l in ls
  {
    EmitRemovesCalledOnces(ls, 0, |ls|);
    var f := EmitScan(ls, 0, |ls|);
    assert multiset(f.remaining) <= multiset(ls);
    forall l | l in f.remaining ensures l in ls {
      assert l in multiset(f.remaining);
    }
  }

  /** Whether some snapshot item has this id (the `Set.has` on the snapshot's ids). */
  function HasIdAt(items: seq<SnapItem>, id: string): (b: bool)
    ensures b <==> HasId(items, id)
  {
    if items == [] then false
    else items[|items| - 1].id == id || HasIdAt(items[..|items| - 1], id)
  }

  lemma TargetsSnoc(ls: seq<Listener>, l: Listener)
    ensures Targets(ls + [l]) == Targets(ls) + [l.cb]
  {
  }

  // ---------------------------------------------------------------------------
  // The legacy conversion

  datatype LegacyPlayer = LegacyPlayer(
    playerId: string, username: string, x: int, y: int, lookIndex: int,
    item: Option<string>, currentArea: int, stats: Option<Stats>)

  datatype LegacyState = LegacyState(
    players: seq<LegacyPlayer>, coins: seq<CoinView>, bullets: seq<BulletView>, treasures: seq<SnapTreasure>)

  /** The item type the legacy scene shows as a loose coin. */
  const COIN_ITEM_TYPE: int := 2

  function LegacyOf(p: SnapPlayer): LegacyPlayer
  {
    LegacyPlayer(p.id, p.name, p.x, p.y, OrDefault(p.lookIndex, 0), None, 1, p.stats)
  }

  function MapLegacy(ps: seq<SnapPlayer>): (r: seq<LegacyPlayer>)
    ensures |r| == |ps| && forall i | 0 <= i < |ps| :: r[i] == LegacyOf(ps[i])
  {
    if ps == [] then [] else [LegacyOf(ps[0])] + MapLegacy(ps[1..])
  }

  /** The items the legacy scene draws as coins (`filter` on the item type). */
  function CoinItems(items: seq<SnapItem>): (r: seq<SnapItem>)
    ensures forall it :: it in r <==> it in items && it.itemType == COIN_ITEM_TYPE
  {
    if items == [] then []
    else (if items[0].itemType == COIN_ITEM_TYPE then [items[0]] else []) + CoinItems(items[1..])
  }

  function LegacyBullets(bs: seq<SnapBullet>): (r: seq<BulletView>)
    ensures |r| == |bs|
    ensures forall i | 0 <= i < |bs| :: r[i] == BulletView(bs[i].id, bs[i].x, bs[i].y, 0, bs[i].playerId)
  {
    if bs == [] then [] else [BulletView(bs[0].id, bs[0].x, bs[0].y, 0, bs[0].playerId)] + LegacyBullets(bs[1..])
  }

  /**
   * The older scene's format: the remote players, one for one and in order,
   * each shown in area 1 holding nothing; the coin-typed items as coins; and
   * every bullet facing up.
   */
  function ConvertGameState(s: Snapshot, sessionID: Option<string>): (r: LegacyState)
    ensures var rs := Remotes(s.players, sessionID);
      && |r.players| == |rs|
      && (forall i | 0 <= i < |rs| :: r.players[i].playerId == rs[i].id && r.players[i].currentArea == 1 && r.players[i].item == None)
    ensures var cs := CoinItems(s.items);
      |r.coins| == |cs| && forall i | 0 <= i < |cs| :: r.coins[i].itemId == cs[i].id && cs[i] in s.items && cs[i].itemType == COIN_ITEM_TYPE
    ensures |r.bullets| == |s.bullets| && forall i | 0 <= i < |r.bullets| :: r.bullets[i].direction == 0 && r.bullets[i].bulletId == s.bullets[i].id
    ensures r.treasures == s.treasures
  {
    var cs := CoinItems(s.items);
    var coins := MapCoins(seq(|cs|, i requires 0 <= i < |cs| => SnapCoin(cs[i].id, cs[i].x, cs[i].y)));
    LegacyState(MapLegacy(Remotes(s.players, sessionID)), coins, LegacyBullets(s.bullets), s.treasures)
  }
}
