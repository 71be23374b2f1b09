/** Which source routes a frame can follow to its destination. */
module SourceRoute {
  import opened Types
  import opened Message
  import opened Downlink

  /** The frame, heard by non-master node `cur`, reaches its destination along its own route:
      each node acts as `classify` decides. */
  predicate Carried(msg: Msg, cur: Mac)
    decreases if msg.hopCount >= MAX_HOPS then 0 else MAX_HOPS - msg.hopCount
  {
    match Classified(msg, cur, false, msg.target == cur, msg.target == BROADCAST_MAC, false)
    case NotRouted => msg.target == cur
    case ForwardOnRoute(next) => Carried(Hopped(msg), next)
    case _ => false
  }

  function At(msg: Msg, i: nat): Msg
    requires i <= MAX_HOPS
  {
    msg.(hopCount := i)
  }

  /** The stretch of the route before the destination, which is never on it twice over. */
  function Stretch(msg: Msg): seq<Mac>
    requires msg.routeLen <= MAX_HOPS
  {
    PathOf(msg)[..PositionOn(PathOf(msg), msg.target)]
  }

  /** One step of a node other than the destination, at its first place on the route. */
  lemma CarriedStep(msg: Msg, h: nat, cur: Mac)
    requires 0 < msg.routeLen <= MAX_HOPS && msg.target != BROADCAST_MAC && h <= MAX_HOPS
    requires cur != msg.target && PositionOn(PathOf(msg), cur) < msg.routeLen
    ensures Carried(At(msg, h), cur)
       <==> h < MAX_HOPS
            && Carried(At(msg, h + 1), NextOnRoute(PathOf(msg), PositionOn(PathOf(msg), cur), msg.target))
  {
    assert PathOf(At(msg, h)) == PathOf(msg);
  }

  lemma {:induction false} DistinctStretchIsFollowed(msg: Msg, i: nat)
    requires 0 < msg.routeLen <= MAX_HOPS && msg.target != BROADCAST_MAC
    requires Distinct(Stretch(msg)) && i < |Stretch(msg)|
    ensures Carried(At(msg, i), PathOf(msg)[i])
    decreases |Stretch(msg)| - i
  {
    var path, s := PathOf(msg), Stretch(msg);
    assert s[i] == path[i] && path[i] != msg.target;
    assert PositionOn(path, path[i]) == i by {
      assert forall j :: 0 <= j < i ==> s[j] != s[i];
    }
    CarriedStep(msg, i, path[i]);
    var next := NextOnRoute(path, i, msg.target);
    if i + 1 < |s| {
      DistinctStretchIsFollowed(msg, i + 1);
    } else {
      assert next == msg.target;
    }
  }

  /** Where a node before place `j` sends the frame, when `path[j]` repeats `path[i]`. */
  lemma NextPlace(path: seq<Mac>, i: nat, j: nat, p: nat, target: Mac) returns (q: nat)
    requires i < j < |path| && path[i] == path[j] && p < j
    ensures PositionOn(path, path[p]) < |path|
    ensures q < j && NextOnRoute(path, PositionOn(path, path[p]), target) == path[q]
  {
    var first := PositionOn(path, path[p]);
    assert first <= p;
    q := if first + 1 < j then first + 1 else i;
  }

  /** Once `path[j]` repeats `path[i]`, no node before place `j` ever leads past it. */
  lemma {:induction false} LoopNeverLeaves(msg: Msg, i: nat, j: nat, h: nat, p: nat)
    requires 0 < msg.routeLen <= MAX_HOPS && msg.target != BROADCAST_MAC && h <= MAX_HOPS
    requires i < j < msg.routeLen && PathOf(msg)[i] == PathOf(msg)[j] && p < j
    requires forall k :: 0 <= k < j ==> PathOf(msg)[k] != msg.target
    ensures !Carried(At(msg, h), PathOf(msg)[p])
    decreases MAX_HOPS - h
  {
    hide Carried, PositionOn, NextOnRoute;
    var path := PathOf(msg);
    var q := NextPlace(path, i, j, p, msg.target);
    CarriedStep(msg, h, path[p]);
    if h < MAX_HOPS {
      LoopNeverLeaves(msg, i, j, h + 1, q);
    }
  }

  /** A frame reaches its destination along its route exactly when no node repeats before the
      destination's own place on it: a loop is never left, and the hop limit ends it. */
  lemma RouteUsableIff(msg: Msg)
    requires 0 < msg.routeLen <= MAX_HOPS && msg.hopCount == 0 && msg.target != BROADCAST_MAC
    ensures Carried(msg, PathOf(msg)[0]) <==> Distinct(Stretch(msg))
  {
    var path, s := PathOf(msg), Stretch(msg);
    assert At(msg, 0) == msg;
    if Distinct(s) {
      if s != [] {
        DistinctStretchIsFollowed(msg, 0);
      }
    } else {
      var i, j :| 0 <= i < j < |s| && s[i] == s[j];
      assert forall k :: 0 <= k < |s| ==> path[k] == s[k] != msg.target;
      LoopNeverLeaves(msg, i, j, 0, 0);
    }
  }
}
