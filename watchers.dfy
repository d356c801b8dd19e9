/** The watcher registry: which observers follow which game. */
module Watchers {

  /** An observer connection, by identity. */
  type Observer = nat

  /** A game, by the identity of its player connection. */
  type GameId = int

  /** Game id to the observers currently watching that game. */
  type WatchMap = map<GameId, set<Observer>>

  predicate Watching(m: WatchMap, ws: Observer, g: GameId)
  {
    g in m && ws in m[g]
  }

  /** No observer is in two watcher sets. */
  ghost predicate Exclusive(m: WatchMap)
  {
    forall ws, g, h :: Watching(m, ws, g) && Watching(m, ws, h) ==> g == h
  }

  /** `ws` taken out of every watcher set; every key stays, even one whose
      set becomes empty. */
  function Discard(m: WatchMap, ws: Observer): (r: WatchMap)
    ensures r.Keys == m.Keys
    ensures forall g :: !Watching(r, ws, g)
    ensures forall o, g :: o != ws ==> (Watching(r, o, g) <==> Watching(m, o, g))
  {
    map g | g in m :: m[g] - {ws}
  }

  /** `ws` moved to the watcher set of `g`, which is created if missing. */
  function Subscribed(m: WatchMap, ws: Observer, g: GameId): (r: WatchMap)
    ensures r.Keys == m.Keys + {g}
    ensures forall h :: Watching(r, ws, h) <==> h == g
    ensures forall o, h :: o != ws ==> (Watching(r, o, h) <==> Watching(m, o, h))
  {
    var d := Discard(m, ws);
    var watchers := if g in d then d[g] else {};
    d[g := watchers + {ws}]
  }

  /** Removing an observer keeps the registry exclusive. */
  lemma DiscardKeepsExclusive(m: WatchMap, ws: Observer)
    requires Exclusive(m)
    ensures Exclusive(Discard(m, ws))
  {
  }

  /** Subscribing keeps the registry exclusive, whatever `ws` watched before. */
  lemma SubscribedKeepsExclusive(m: WatchMap, ws: Observer, g: GameId)
    requires Exclusive(m)
    ensures Exclusive(Subscribed(m, ws, g))
  {
  }

  /** Subscribing twice to the same game is the same as subscribing once. */
  lemma SubscribedIdempotent(m: WatchMap, ws: Observer, g: GameId)
    ensures Subscribed(Subscribed(m, ws, g), ws, g) == Subscribed(m, ws, g)
  {
    var once := Subscribed(m, ws, g);
    var twice := Subscribed(once, ws, g);
    assert twice.Keys == once.Keys;
    forall h | h in once
      ensures twice[h] == once[h]
    {
      forall o
        ensures o in twice[h] <==> o in once[h]
      {
        if o == ws {
          assert Watching(twice, ws, h) <==> h == g;
          assert Watching(once, ws, h) <==> h == g;
        } else {
          assert Watching(twice, o, h) <==> Watching(once, o, h);
        }
      }
    }
  }

  /** A later subscription replaces an earlier one. */
  lemma SubscribedOverrides(m: WatchMap, ws: Observer, g: GameId, h: GameId)
    ensures forall k :: Watching(Subscribed(Subscribed(m, ws, g), ws, h), ws, k) <==> k == h
  {
  }

  /** Proof helper: a non-empty set of game ids has a member, which lets
      Unsubscribe pick the next key to visit. */
  lemma SomeKey(s: set<GameId>)
    requires s != {}
    ensures exists g :: g in s
  {
    if forall g :: g !in s {
      assert false;
    }
  }

  /** The registry of one server process. */
  class WatchRegistry {
    var watchMap: WatchMap

    constructor()
      ensures watchMap == map[]
    {
      watchMap := map[];
    }

    /** Takes `ws` out of every watcher set, visiting the sets one by one:
        the first step of a subscription and the clean-up when the observer
        disconnects. */
    method Unsubscribe(ws: Observer)
      modifies this
      ensures watchMap == Discard(old(watchMap), ws)
    {
      var pending := watchMap.Keys;
      while pending != {}
        invariant watchMap.Keys == old(watchMap).Keys
        invariant forall g :: g in pending ==> g in watchMap && watchMap[g] == old(watchMap)[g]
        invariant forall g :: g in watchMap && g !in pending ==> watchMap[g] == old(watchMap)[g] - {ws}
        decreases pending
      {
        SomeKey(pending);
        var key :| key in pending;
        watchMap := watchMap[key := watchMap[key] - {ws}];
        pending := pending - {key};
      }
      ghost var discarded := Discard(old(watchMap), ws);
      assert watchMap.Keys == discarded.Keys;
      assert forall g :: g in watchMap ==> watchMap[g] == discarded[g];
    }

    /** Handles an observer's request to watch game `gameId`; `alive` is the
        set of games whose player is connected. Subscribes only to a live
        game and reports whether it did. */
    method Subscribe(ws: Observer, gameId: GameId, alive: set<GameId>) returns (subscribed: bool)
      modifies this
      ensures subscribed <==> gameId in alive
      ensures subscribed ==> watchMap == Subscribed(old(watchMap), ws, gameId)
      ensures !subscribed ==> watchMap == old(watchMap)
    {
      subscribed := gameId in alive;
      if subscribed {
        Unsubscribe(ws);
        var watchers := if gameId in watchMap then watchMap[gameId] else {};
        watchMap := watchMap[gameId := watchers + {ws}];
      }
    }
  }
}
