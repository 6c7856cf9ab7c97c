/**
 * How DHT lookups for a router travel: relayed hop by hop to a router closer to the target,
 * or retried at a closer peer after one failed.
 */
module DhtRouting {
  import opened Bytes
  import opened DhtBucket

  datatype Decision = OwnContact | Forward(next: Key) | NotThere | TellCloser(next: Key)

  /** LookupRouterRelayed: what a router does with a lookup it is asked to relay. */
  ghost function Relay(ourKey: Key, nodes: set<Key>, requester: Key, target: Key, recursive: bool): (d: Decision) {
    if target == ourKey then OwnContact
    else
      match Nearest(nodes, target, {requester, ourKey})
      case None => NotThere
      case Some(next) =>
        if next == target then Forward(next)
        else if recursive then
          if Closer(target, next, ourKey) then Forward(next) else NotThere
        else TellCloser(next)
  }

  /**
   * When each decision is right, in terms of the nodes that could be asked: all known ones but
   * the asker and ourselves. The nearest of them is the one that is told or forwarded to.
   */
  ghost predicate Right(ourKey: Key, nodes: set<Key>, requester: Key, target: Key, recursive: bool, d: Decision) {
    var c := Candidates(nodes, target, {requester, ourKey});
    match d
    case OwnContact => target == ourKey
    case Forward(next) =>
      target != ourKey && IsNearest(target, c, next) && (next == target || (recursive && Closer(target, next, ourKey)))
    case TellCloser(next) => target != ourKey && IsNearest(target, c, next) && next != target && !recursive
    case NotThere =>
      && target != ourKey
      && (c == {} || (recursive && exists next :: IsNearest(target, c, next) && next != target
                                                  && !Closer(target, next, ourKey)))
  }

  /** Exactly one decision is right, and it is the one taken. */
  lemma RelayExact(ourKey: Key, nodes: set<Key>, requester: Key, target: Key, recursive: bool, d: Decision)
    ensures d == Relay(ourKey, nodes, requester, target, recursive) <==>
      Right(ourKey, nodes, requester, target, recursive, d)
  {
    var c := Candidates(nodes, target, {requester, ourKey});
    var n := Nearest(nodes, target, {requester, ourKey});
    if n.Some? {
      forall k | IsNearest(target, c, k)
        ensures k == n.value
      {
        NearestUnique(target, c, k, n.value);
      }
    }
  }

  method LookupRouterRelayed(ourKey: Key, nodes: set<Key>, requester: Key, target: Key, recursive: bool)
    returns (d: Decision)
    ensures d == Relay(ourKey, nodes, requester, target, recursive)
    ensures Right(ourKey, nodes, requester, target, recursive, d)
  {
    RelayExact(ourKey, nodes, requester, target, recursive, Relay(ourKey, nodes, requester, target, recursive));
    if target == ourKey {
      return OwnContact;
    }
    var found, next := FindCloseExcluding(nodes, target, {requester, ourKey});
    if !found {
      return NotThere;
    }
    NearestUnique(target, Candidates(nodes, target, {requester, ourKey}), next,
                  Nearest(nodes, target, {requester, ourKey}).value);
    if next == target {
      return Forward(next);
    } else if recursive {
      if Less(Xor(next, target), Xor(ourKey, target)) {
        return Forward(next);
      } else {
        return NotThere;
      }
    } else {
      return TellCloser(next);
    }
  }

  /** The target itself is closer than anything else. */
  lemma TargetCloser(target: Key, k: Key)
    requires k != target
    ensures Closer(target, target, k)
  {
    CloserTotal(target, target, k);
    if Closer(target, k, target) {
      SelfDistance(target);
      NothingBelowZero(Xor(k, target), Xor(target, target));
    }
  }

  lemma SelfDistance(target: Key)
    ensures forall i :: 0 <= i < KEY_SIZE ==> Xor(target, target)[i] == 0
  {
    forall i | 0 <= i < KEY_SIZE
      ensures Xor(target, target)[i] == 0
    {
      XorAt(target, target, i);
      XorSelf(target[i]);
    }
  }

  lemma XorSelf(x: bv8)
    ensures XorOctet(x, x) == 0
  {
  }

  lemma {:induction false} NothingBelowZero(a: seq<bv8>, zero: seq<bv8>)
    requires |a| == |zero| && forall i :: 0 <= i < |zero| ==> zero[i] == 0
    ensures !Less(a, zero)
  {
    if a != [] {
      NothingBelowZero(a[1..], zero[1..]);
    }
  }

  /** A relayed lookup goes to a router closer to the target, other than the asker. */
  lemma ForwardCloser(ourKey: Key, nodes: set<Key>, requester: Key, target: Key, recursive: bool)
    requires Relay(ourKey, nodes, requester, target, recursive).Forward?
    ensures var next := Relay(ourKey, nodes, requester, target, recursive).next;
      next in nodes && next != requester && Closer(target, next, ourKey)
  {
    if Relay(ourKey, nodes, requester, target, recursive).next == target {
      TargetCloser(target, ourKey);
    }
  }

  /** A lookup for a known router other than the asker is forwarded to that router, and no other lookup is. */
  lemma KnownTarget(ourKey: Key, nodes: set<Key>, requester: Key, target: Key, recursive: bool)
    ensures Relay(ourKey, nodes, requester, target, recursive) == Forward(target) <==>
      target in nodes && target != requester && target != ourKey
  {
    RelayExact(ourKey, nodes, requester, target, recursive, Forward(target));
    var c := Candidates(nodes, target, {requester, ourKey});
    SelfDistance(target);
    assert Xor(target, target)[0] != FAR[0];
    if target in c {
      forall x | x in c && x != target
        ensures Closer(target, target, x)
      {
        TargetCloser(target, x);
      }
    }
  }

  // ---------------------------------------------------------------- chains of peers

  ghost predicate Descending(target: Key, peers: seq<Key>) {
    forall i :: 0 <= i < |peers| - 1 ==> Closer(target, peers[i + 1], peers[i])
  }

  /** Each peer closer than the one before: each is closer than all before it, and none repeats. */
  lemma {:induction false} DescendingCloser(target: Key, peers: seq<Key>, i: nat, j: nat)
    requires Descending(target, peers) && i < j < |peers|
    ensures Closer(target, peers[j], peers[i]) && peers[i] != peers[j]
    decreases j
  {
    if i < j - 1 {
      DescendingCloser(target, peers, i, j - 1);
      CloserTransitive(target, peers[j], peers[j - 1], peers[i]);
    }
    CloserIrreflexive(target, peers[i]);
  }

  /** A chain of different peers out of a set is no longer than the set. */
  lemma {:induction false} DescendingBounded(target: Key, peers: seq<Key>, all: set<Key>)
    requires Descending(target, peers) && forall i :: 0 <= i < |peers| ==> peers[i] in all
    ensures |peers| <= |all|
  {
    if peers != [] {
      var init, last := peers[..|peers| - 1], peers[|peers| - 1];
      forall i | 0 <= i < |init|
        ensures init[i] in all - {last}
      {
        DescendingCloser(target, peers, i, |peers| - 1);
      }
      DescendingBounded(target, init, all - {last});
    }
  }

  /** One router of a relay chain: what it knows, who asked it and how. */
  datatype Hop = Hop(key: Key, nodes: set<Key>, requester: Key, recursive: bool)

  ghost predicate IsChain(target: Key, hops: seq<Hop>) {
    forall i :: 0 <= i < |hops| - 1 ==>
      Relay(hops[i].key, hops[i].nodes, hops[i].requester, target, hops[i].recursive) == Forward(hops[i + 1].key)
  }

  function Keys(hops: seq<Hop>): (k: seq<Key>)
    ensures |k| == |hops| && forall i :: 0 <= i < |hops| ==> k[i] == hops[i].key
  {
    if hops == [] then [] else Keys(hops[..|hops| - 1]) + [hops[|hops| - 1].key]
  }

  /**
   * Relaying terminates: along any chain of routers forwarding a lookup the distance to the
   * target strictly decreases, no router is visited twice, and the chain is no longer than
   * there are routers, whatever each of them knows.
   */
  lemma RelayTerminates(target: Key, hops: seq<Hop>, routers: set<Key>)
    requires IsChain(target, hops) && forall i :: 0 <= i < |hops| ==> hops[i].key in routers
    ensures forall i, j :: 0 <= i < j < |hops| ==>
      Closer(target, hops[j].key, hops[i].key) && hops[i].key != hops[j].key
    ensures |hops| <= |routers|
  {
    var peers := Keys(hops);
    forall i | 0 <= i < |peers| - 1
      ensures Closer(target, peers[i + 1], peers[i])
    {
      var hop := hops[i];
      assert Relay(hop.key, hop.nodes, hop.requester, target, hop.recursive) == Forward(hops[i + 1].key);
      ForwardCloser(hops[i].key, hops[i].nodes, hops[i].requester, target, hops[i].recursive);
    }
    forall i, j | 0 <= i < j < |hops|
      ensures Closer(target, hops[j].key, hops[i].key) && hops[i].key != hops[j].key
    {
      DescendingCloser(target, peers, i, j);
    }
    DescendingBounded(target, peers, routers);
  }

  // ---------------------------------------------------------------- iterative lookups

  ghost function DecisionOf(target: Key, hop: Hop): (d: Decision) {
    Relay(hop.key, hop.nodes, hop.requester, target, hop.recursive)
  }

  /** The asker follows what it is told from router to router. */
  ghost predicate IsIteration(target: Key, hops: seq<Hop>) {
    forall i :: 0 <= i < |hops| - 1 ==> DecisionOf(target, hops[i]) == TellCloser(hops[i + 1].key)
  }

  /**
   * An iterative lookup ends well at the first router that is the target or knows it: that
   * one answers or forwards to it, and no router before it was or did.
   */
  lemma IterationReaches(target: Key, hops: seq<Hop>)
    requires IsIteration(target, hops) && hops != [] && forall i :: 0 <= i < |hops| ==> hops[i].requester != target
    ensures var last := hops[|hops| - 1];
      && (last.key == target <==> DecisionOf(target, last) == OwnContact)
      && (last.key != target ==> (target in last.nodes <==> DecisionOf(target, last) == Forward(target)))
    ensures forall i :: 0 <= i < |hops| - 1 ==> hops[i].key != target && target !in hops[i].nodes
  {
    var last := hops[|hops| - 1];
    KnownTarget(last.key, last.nodes, last.requester, target, last.recursive);
    forall i | 0 <= i < |hops| - 1
      ensures hops[i].key != target && target !in hops[i].nodes
    {
      assert DecisionOf(target, hops[i]) == TellCloser(hops[i + 1].key);
      KnownTarget(hops[i].key, hops[i].nodes, hops[i].requester, target, hops[i].recursive);
    }
  }

  /** The router told to an asker is closer exactly when a recursive lookup would have been forwarded to it. */
  lemma ToldCloser(ourKey: Key, nodes: set<Key>, requester: Key, target: Key)
    requires Relay(ourKey, nodes, requester, target, false).TellCloser?
    ensures var next := Relay(ourKey, nodes, requester, target, false).next;
      Closer(target, next, ourKey) <==> Relay(ourKey, nodes, requester, target, true) == Forward(next)
  {
  }

  /** Without that an iterative lookup need not end: two routers that know only each other tell each other. */
  lemma IterationLoops(target: Key, a: Key, b: Key, requester: Key)
    requires a != b && target != a && target != b && requester != a && requester != b
    requires Xor(a, target) != FAR && Xor(b, target) != FAR
    ensures var there, back := Hop(a, {b}, requester, false), Hop(b, {a}, requester, false);
      IsIteration(target, [there, back, there])
  {
    OnlyOther(target, a, b, requester);
    OnlyOther(target, b, a, requester);
  }

  lemma OnlyOther(target: Key, a: Key, b: Key, requester: Key)
    requires a != b && target != a && target != b && requester != b && Xor(b, target) != FAR
    ensures DecisionOf(target, Hop(a, {b}, requester, false)) == TellCloser(b)
  {
    RelayExact(a, {b}, requester, target, false, TellCloser(b));
    assert Candidates({b}, target, {requester, a}) == {b};
  }

  // ---------------------------------------------------------------- trying the next peer

  datatype Retry = Retry(asked: set<Key>, peer: Option<Key>)

  /** AskNextPeer: note the failed peer, then take the suggested one or the closest not asked. */
  ghost function AskNext(target: Key, asked: set<Key>, nodes: set<Key>, prev: Key, suggested: Option<Key>): (r: Retry) {
    var tried := asked + {prev};
    match suggested
    case Some(p) => Retry(tried + {p}, Some(p))
    case None =>
      match Nearest(nodes, target, tried)
      case None => Retry(tried, None)
      case Some(p) => if Closer(target, prev, p) then Retry(tried, None) else Retry(tried + {p}, Some(p))
  }

  /** Which peer is asked next, and what is noted as asked, in terms of the nodes not asked yet. */
  ghost predicate RightRetry(
    target: Key, asked: set<Key>, nodes: set<Key>, prev: Key, suggested: Option<Key>, r: Retry) {
    var c := Candidates(nodes, target, asked + {prev});
    && r.asked == asked + {prev} + (if r.peer.Some? then {r.peer.value} else {})
    && match suggested
       case Some(p) => r.peer == Some(p)
       case None => (
         match r.peer
         case Some(p) => IsNearest(target, c, p) && !Closer(target, prev, p)
         case None => c == {} || exists p :: IsNearest(target, c, p) && Closer(target, prev, p))
  }

  lemma AskNextExact(target: Key, asked: set<Key>, nodes: set<Key>, prev: Key, suggested: Option<Key>, r: Retry)
    ensures r == AskNext(target, asked, nodes, prev, suggested) <==>
      RightRetry(target, asked, nodes, prev, suggested, r)
  {
    var c, n := Candidates(nodes, target, asked + {prev}), Nearest(nodes, target, asked + {prev});
    if n.Some? {
      forall k | IsNearest(target, c, k)
        ensures k == n.value
      {
        NearestUnique(target, c, k, n.value);
      }
    }
    assert asked + {prev} + {} == asked + {prev};
  }

  /** A peer chosen without a suggestion was not asked before and is closer than the failed one. */
  lemma AskNextCloser(target: Key, asked: set<Key>, nodes: set<Key>, prev: Key)
    requires AskNext(target, asked, nodes, prev, None).peer.Some?
    ensures var p := AskNext(target, asked, nodes, prev, None).peer.value;
      p in nodes && p !in asked && p != prev && Closer(target, p, prev)
  {
    CloserTotal(target, AskNext(target, asked, nodes, prev, None).peer.value, prev);
  }

  /**
   * Retrying terminates: each retry is a new lookup that has forgotten whom the earlier ones
   * asked, yet a chain of unsuggested retries never comes back to a peer.
   */
  lemma RetryTerminates(target: Key, peers: seq<Key>, asked: seq<set<Key>>, nodes: seq<set<Key>>, all: set<Key>)
    requires |asked| == |nodes| == |peers| && forall i :: 0 <= i < |peers| ==> peers[i] in all
    requires forall i :: 0 <= i < |peers| - 1 ==>
      AskNext(target, asked[i], nodes[i], peers[i], None).peer == Some(peers[i + 1])
    ensures forall i, j :: 0 <= i < j < |peers| ==> peers[i] != peers[j]
    ensures |peers| <= |all|
  {
    forall i | 0 <= i < |peers| - 1
      ensures Closer(target, peers[i + 1], peers[i])
    {
      assert AskNext(target, asked[i], nodes[i], peers[i], None).peer == Some(peers[i + 1]);
      AskNextCloser(target, asked[i], nodes[i], peers[i]);
    }
    forall i, j | 0 <= i < j < |peers|
      ensures peers[i] != peers[j]
    {
      DescendingCloser(target, peers, i, j);
    }
    DescendingBounded(target, peers, all);
  }
}
