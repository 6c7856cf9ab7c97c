/**
 * The address allocator of an exit node: identities get addresses of a range, the least
 * recently identified one loses its address and its sessions when the range is used up.
 */
module ExitEndpoint {
  import opened Bytes

  type PubKey = k: seq<Byte> | |k| == 32 witness Zeros(32)
  type PathID = seq<Byte>

  /** The largest time stamp, used to pin our own address. */
  const MAX_TIME: nat := 0xFFFF_FFFF_FFFF_FFFF

  datatype Exit = Exit(pk: PubKey, path: PathID, internet: bool, ip: nat)

  /** `lastUse` records when each identity was last looked up; the rest are the fields. */
  datatype Table = Table(
    us: PubKey, ifAddr: nat, highest: nat, next: nat,
    keyToIp: map<PubKey, nat>, ipToKey: map<nat, PubKey>, activity: map<nat, nat>,
    exits: seq<Exit>, lastUse: map<PubKey, nat>)

  datatype Op =
    | Identify(pk: PubKey, now: nat)
    | NewExit(pk: PubKey, path: PathID, internet: bool, now: nat)
    | RemoveExit(pk: PubKey, path: PathID)
    | Expire(dead: set<Exit>)

  /** After Start: only our own address is mapped, and pinned. */
  function Started(us: PubKey, ifAddr: nat, highest: nat): (t: Table) {
    Table(us, ifAddr, highest, ifAddr, map[us := ifAddr], map[ifAddr := us], map[ifAddr := MAX_TIME], [], map[])
  }

  function Without(exits: seq<Exit>, pk: PubKey): (r: seq<Exit>)
    ensures forall e :: e in r <==> e in exits && e.pk != pk
  {
    if exits == [] then []
    else
      var rest := Without(exits[..|exits| - 1], pk);
      if exits[|exits| - 1].pk == pk then rest else rest + [exits[|exits| - 1]]
  }

  function Alive(exits: seq<Exit>, dead: set<Exit>): (r: seq<Exit>)
    ensures forall e :: e in r <==> e in exits && e !in dead
  {
    if exits == [] then []
    else
      var rest := Alive(exits[..|exits| - 1], dead);
      if exits[|exits| - 1] in dead then rest else rest + [exits[|exits| - 1]]
  }

  function Give(t: Table, pk: PubKey, ip: nat, now: nat): (t': Table) {
    t.(keyToIp := t.keyToIp[pk := ip], ipToKey := t.ipToKey[ip := pk],
       activity := t.activity[ip := now], lastUse := t.lastUse[pk := now])
  }

  /** KickIdentOffExit: forget an identity, its address and all its sessions. */
  function Kick(t: Table, pk: PubKey): (t': Table)
    requires pk in t.keyToIp
  {
    t.(keyToIp := t.keyToIp - {pk}, ipToKey := t.ipToKey - {t.keyToIp[pk]}, exits := Without(t.exits, pk))
  }

  /** An address no other was active before; pinned ones are passed over. */
  ghost predicate Oldest(activity: map<nat, nat>, ip: nat) {
    ip in activity && activity[ip] < MAX_TIME && forall x :: x in activity ==> activity[ip] <= activity[x]
  }

  /** GetIPForIdent, with the choice among equally old addresses left open. */
  ghost predicate Identified(t: Table, t': Table, pk: PubKey, now: nat, ip: nat) {
    if pk in t.keyToIp then
      ip == t.keyToIp[pk] && t' == t.(activity := t.activity[ip := now], lastUse := t.lastUse[pk := now])
    else if t.next < t.highest then
      ip == t.next + 1 && t' == Give(t, pk, ip, now).(next := ip)
    else
      && Oldest(t.activity, ip) && ip in t.ipToKey && t.ipToKey[ip] in t.keyToIp
      && t' == Give(Kick(t, t.ipToKey[ip]), pk, ip, now)
  }

  ghost predicate Next(t: Table, op: Op, t': Table) {
    match op
    case Identify(pk, now) => exists ip :: Identified(t, t', pk, now, ip)
    case NewExit(pk, path, internet, now) =>
      exists m, ip :: Identified(t, m, pk, now, ip) && t' == m.(exits := m.exits + [Exit(pk, path, internet, ip)])
    case RemoveExit(pk, path) =>
      || (t' == t && forall e :: e in t.exits ==> !(e.pk == pk && e.path == path))
      || (exists i :: 0 <= i < |t.exits| && t.exits[i].pk == pk && t.exits[i].path == path &&
            t' == t.(exits := t.exits[..i] + t.exits[i + 1..]))
    case Expire(dead) => t' == t.(exits := Alive(t.exits, dead))
  }

  // ---------------------------------------------------------------- consistency

  ghost predicate Inverse(keyToIp: map<PubKey, nat>, ipToKey: map<nat, PubKey>) {
    && (forall pk :: pk in keyToIp ==> keyToIp[pk] in ipToKey && ipToKey[keyToIp[pk]] == pk)
    && (forall ip :: ip in ipToKey ==> ipToKey[ip] in keyToIp && keyToIp[ipToKey[ip]] == ip)
  }

  lemma InverseAdd(keyToIp: map<PubKey, nat>, ipToKey: map<nat, PubKey>, pk: PubKey, ip: nat)
    requires Inverse(keyToIp, ipToKey) && pk !in keyToIp && ip !in ipToKey
    ensures Inverse(keyToIp[pk := ip], ipToKey[ip := pk])
  {
  }

  lemma InverseDrop(keyToIp: map<PubKey, nat>, ipToKey: map<nat, PubKey>, pk: PubKey)
    requires Inverse(keyToIp, ipToKey) && pk in keyToIp
    ensures Inverse(keyToIp - {pk}, ipToKey - {keyToIp[pk]})
  {
  }

  /** The two maps are inverse, and their addresses are the active ones: a prefix of the range. */
  ghost predicate Consistent(t: Table) {
    && t.ifAddr < t.highest && t.ifAddr <= t.next <= t.highest
    && Inverse(t.keyToIp, t.ipToKey)
    && t.activity.Keys == t.ipToKey.Keys
    && (forall ip :: ip in t.ipToKey <==> t.ifAddr <= ip <= t.next)
    && (forall e :: e in t.exits ==> e.pk in t.keyToIp && t.keyToIp[e.pk] == e.ip)
  }

  /** Activity is the time the owner of the address was last looked up; only we can be pinned. */
  ghost predicate Tracked(t: Table) {
    && (forall ip :: ip in t.activity && ip in t.ipToKey ==>
         if t.ipToKey[ip] in t.lastUse then t.activity[ip] == t.lastUse[t.ipToKey[ip]]
         else t.ipToKey[ip] == t.us && ip == t.ifAddr && t.activity[ip] == MAX_TIME)
    && (forall pk :: pk in t.lastUse ==> t.lastUse[pk] < MAX_TIME)
    && (t.us !in t.lastUse ==> t.us in t.keyToIp && t.keyToIp[t.us] == t.ifAddr)
  }

  predicate OnTime(op: Op) {
    (op.Identify? || op.NewExit? ==> op.now < MAX_TIME)
  }

  lemma TouchKeeps(t: Table, t': Table, pk: PubKey, now: nat, ip: nat)
    requires Consistent(t) && Tracked(t) && now < MAX_TIME && pk in t.keyToIp && ip == t.keyToIp[pk]
    requires t' == t.(activity := t.activity[ip := now], lastUse := t.lastUse[pk := now])
    ensures Consistent(t') && Tracked(t')
  {
    assert t'.activity.Keys == t.activity.Keys;
  }

  lemma GrowKeeps(t: Table, t': Table, pk: PubKey, now: nat)
    requires Consistent(t) && Tracked(t) && now < MAX_TIME && pk !in t.keyToIp && t.next < t.highest
    requires t' == Give(t, pk, t.next + 1, now).(next := t.next + 1)
    ensures Consistent(t') && Tracked(t')
  {
    var ip := t.next + 1;
    assert ip !in t.ipToKey;
    GrowConsistent(t, t', pk, now, ip);
    GrowTracked(t, t', pk, now, ip);
  }

  lemma GrowConsistent(t: Table, t': Table, pk: PubKey, now: nat, ip: nat)
    requires Consistent(t) && pk !in t.keyToIp && ip == t.next + 1 <= t.highest && ip !in t.ipToKey
    requires t' == Give(t, pk, ip, now).(next := ip)
    ensures Consistent(t')
  {
    InverseAdd(t.keyToIp, t.ipToKey, pk, ip);
    assert t'.activity.Keys == t.activity.Keys + {ip};
    assert t'.ipToKey.Keys == t.ipToKey.Keys + {ip};
  }

  lemma GrowTracked(t: Table, t': Table, pk: PubKey, now: nat, ip: nat)
    requires Consistent(t) && Tracked(t) && now < MAX_TIME && pk !in t.keyToIp && ip !in t.ipToKey
    requires t' == Give(t, pk, ip, now).(next := ip)
    ensures Tracked(t')
  {
  }

  lemma IdentifiedKeeps(t: Table, t': Table, pk: PubKey, now: nat, ip: nat)
    requires Consistent(t) && Tracked(t) && Identified(t, t', pk, now, ip) && now < MAX_TIME
    ensures Consistent(t') && Tracked(t') && pk in t'.keyToIp && t'.keyToIp[pk] == ip
  {
    if pk in t.keyToIp {
      TouchKeeps(t, t', pk, now, ip);
    } else if t.next < t.highest {
      GrowKeeps(t, t', pk, now);
    } else {
      EvictKeeps(t, t', pk, now, ip);
    }
  }

  /** A lookup alone, or followed by the registration of a session for the same identity. */
  lemma LookupOf(t: Table, op: Op, t': Table) returns (m: Table, ip: nat)
    requires Next(t, op, t') && (op.Identify? || op.NewExit?)
    ensures Identified(t, m, op.pk, op.now, ip)
    ensures t' == if op.Identify? then m else m.(exits := m.exits + [Exit(op.pk, op.path, op.internet, ip)])
  {
    if op.Identify? {
      ip :| Identified(t, t', op.pk, op.now, ip);
      m := t';
    } else {
      m, ip :|
        Identified(t, m, op.pk, op.now, ip) && t' == m.(exits := m.exits + [Exit(op.pk, op.path, op.internet, ip)]);
    }
  }

  lemma ExitsKeep(t: Table, t': Table)
    requires Consistent(t) && Tracked(t) && t' == t.(exits := t'.exits)
    requires forall e :: e in t'.exits ==> e.pk in t.keyToIp && t.keyToIp[e.pk] == e.ip
    ensures Consistent(t') && Tracked(t')
  {
  }

  lemma EvictKeeps(t: Table, t': Table, pk: PubKey, now: nat, ip: nat)
    requires Consistent(t) && Tracked(t) && pk !in t.keyToIp && ip in t.ipToKey && now < MAX_TIME
    requires t.activity[ip] < MAX_TIME && t' == Give(Kick(t, t.ipToKey[ip]), pk, ip, now)
    ensures Consistent(t') && Tracked(t')
  {
    var victim := t.ipToKey[ip];
    assert t'.ipToKey == t.ipToKey[ip := pk];
    assert t'.activity.Keys == t'.ipToKey.Keys;
    InverseDrop(t.keyToIp, t.ipToKey, victim);
    InverseAdd(t.keyToIp - {victim}, t.ipToKey - {ip}, pk, ip);
    forall e | e in t'.exits
      ensures e.pk in t'.keyToIp && t'.keyToIp[e.pk] == e.ip
    {
      assert e in t.exits;
    }
  }

  lemma NextKeeps(t: Table, op: Op, t': Table)
    requires Consistent(t) && Tracked(t) && Next(t, op, t') && OnTime(op)
    ensures Consistent(t') && Tracked(t')
    ensures t'.us == t.us && t'.ifAddr == t.ifAddr && t'.highest == t.highest
  {
    if op.Identify? || op.NewExit? {
      LookupKeeps(t, op, t');
    } else {
      FewerExits(t, op, t');
      ExitsKeep(t, t');
    }
  }

  lemma LookupKeeps(t: Table, op: Op, t': Table)
    requires Consistent(t) && Tracked(t) && Next(t, op, t') && OnTime(op) && (op.Identify? || op.NewExit?)
    ensures Consistent(t') && Tracked(t')
    ensures t'.us == t.us && t'.ifAddr == t.ifAddr && t'.highest == t.highest
  {
    var m, ip := LookupOf(t, op, t');
    IdentifiedKeeps(t, m, op.pk, op.now, ip);
    IdentifiedFixed(t, m, op.pk, op.now, ip);
    if op.NewExit? {
      NewExitKeeps(m, Exit(op.pk, op.path, op.internet, ip));
    }
  }

  lemma IdentifiedFixed(t: Table, t': Table, pk: PubKey, now: nat, ip: nat)
    requires Identified(t, t', pk, now, ip)
    ensures t'.us == t.us && t'.ifAddr == t.ifAddr && t'.highest == t.highest
  {
  }

  lemma NewExitKeeps(t: Table, e: Exit)
    requires Consistent(t) && Tracked(t) && e.pk in t.keyToIp && t.keyToIp[e.pk] == e.ip
    ensures Consistent(t.(exits := t.exits + [e])) && Tracked(t.(exits := t.exits + [e]))
  {
    ExitsKeep(t, t.(exits := t.exits + [e]));
  }

  lemma FewerExits(t: Table, op: Op, t': Table)
    requires Next(t, op, t') && !op.Identify? && !op.NewExit?
    ensures t' == t.(exits := t'.exits) && forall e :: e in t'.exits ==> e in t.exits
  {
  }

  /** A run: the states and the operations between them. */
  ghost predicate IsRun(states: seq<Table>, ops: seq<Op>) {
    |states| == |ops| + 1 && forall i :: 0 <= i < |ops| ==> StepAt(states, ops, i)
  }

  ghost predicate StepAt(states: seq<Table>, ops: seq<Op>, i: nat)
    requires i < |ops| && i + 1 < |states|
  {
    Next(states[i], ops[i], states[i + 1]) && OnTime(ops[i])
  }

  lemma StartedConsistent(us: PubKey, ifAddr: nat, highest: nat)
    requires ifAddr < highest
    ensures Consistent(Started(us, ifAddr, highest)) && Tracked(Started(us, ifAddr, highest))
  {
    assert Started(us, ifAddr, highest).activity.Keys == {ifAddr};
  }

  lemma {:induction false} RunConsistent(
    us: PubKey, ifAddr: nat, highest: nat, states: seq<Table>, ops: seq<Op>, i: nat)
    requires ifAddr < highest && IsRun(states, ops) && states[0] == Started(us, ifAddr, highest) && i < |states|
    ensures Consistent(states[i]) && Tracked(states[i])
    ensures states[i].us == us && states[i].ifAddr == ifAddr && states[i].highest == highest
  {
    if i == 0 {
      StartedConsistent(us, ifAddr, highest);
    } else {
      RunConsistent(us, ifAddr, highest, states, ops, i - 1);
      StepKeeps(states, ops, i - 1);
    }
  }

  lemma StepKeeps(states: seq<Table>, ops: seq<Op>, i: nat)
    requires IsRun(states, ops) && i < |ops| && Consistent(states[i]) && Tracked(states[i])
    ensures Consistent(states[i + 1]) && Tracked(states[i + 1])
    ensures states[i + 1].us == states[i].us
    ensures states[i + 1].ifAddr == states[i].ifAddr && states[i + 1].highest == states[i].highest
  {
    assert StepAt(states, ops, i);
    NextKeeps(states[i], ops[i], states[i + 1]);
  }

  /**
   * In every reachable state: identities and addresses are in bijection, every session has
   * its identity's address, and so two identities never share an address.
   */
  lemma NoSharedAddress(us: PubKey, ifAddr: nat, highest: nat, states: seq<Table>, ops: seq<Op>, i: nat)
    requires ifAddr < highest && IsRun(states, ops) && states[0] == Started(us, ifAddr, highest) && i < |states|
    ensures var t := states[i];
      && (forall pk, ip :: (pk in t.keyToIp && t.keyToIp[pk] == ip) <==> (ip in t.ipToKey && t.ipToKey[ip] == pk))
      && t.activity.Keys == t.ipToKey.Keys
      && (forall pk, pk' :: pk in t.keyToIp && pk' in t.keyToIp && t.keyToIp[pk] == t.keyToIp[pk'] ==> pk == pk')
      && (forall e, e' :: e in t.exits && e' in t.exits && e.ip == e'.ip ==> e.pk == e'.pk)
  {
    RunConsistent(us, ifAddr, highest, states, ops, i);
    var t := states[i];
    forall pk, pk' | pk in t.keyToIp && pk' in t.keyToIp && t.keyToIp[pk] == t.keyToIp[pk']
      ensures pk == pk'
    {
      assert t.ipToKey[t.keyToIp[pk]] == pk;
    }
  }

  // ---------------------------------------------------------------- eviction

  /** A time of last use; our own address counts as just used until we are looked up. */
  function LastUse(t: Table, pk: PubKey): (u: nat) {
    if pk in t.lastUse then t.lastUse[pk] else MAX_TIME
  }

  /**
   * Eviction is by least recent use: an operation takes an identity's address only when every
   * address of the range is taken; the victim is the only one; nobody was looked up longer
   * ago; its sessions are gone and everybody else keeps address and sessions.
   */
  lemma EvictionIsLeastRecent(t: Table, op: Op, t': Table, victim: PubKey)
    requires Consistent(t) && Tracked(t) && Next(t, op, t') && OnTime(op)
    requires victim in t.keyToIp && victim !in t'.keyToIp
    ensures forall ip :: t.ifAddr <= ip <= t.highest ==> ip in t.ipToKey
    ensures forall pk :: pk in t.keyToIp ==> LastUse(t, victim) <= LastUse(t, pk)
    ensures victim in t.lastUse
    ensures forall e :: e in t'.exits ==> e.pk != victim
    ensures forall pk :: pk in t.keyToIp && pk != victim ==> pk in t'.keyToIp && t'.keyToIp[pk] == t.keyToIp[pk]
    ensures forall e :: e in t.exits && e.pk != victim ==> e in t'.exits
  {
    var m, ip := LookupOf(t, op, t');
    EvictedBy(t, m, op.pk, op.now, ip, victim);
    KickedOnly(t, victim, op.pk, ip, op.now);
  }

  lemma KickedOnly(t: Table, victim: PubKey, pk: PubKey, ip: nat, now: nat)
    requires victim in t.keyToIp && pk !in t.keyToIp
    ensures var m := Give(Kick(t, victim), pk, ip, now);
      && (forall e :: e in m.exits <==> e in t.exits && e.pk != victim)
      && (forall x :: x in t.keyToIp && x != victim ==> x in m.keyToIp && m.keyToIp[x] == t.keyToIp[x])
  {
  }

  lemma EvictedBy(t: Table, m: Table, pk: PubKey, now: nat, ip: nat, victim: PubKey)
    requires Consistent(t) && Tracked(t) && Identified(t, m, pk, now, ip)
    requires victim in t.keyToIp && victim !in m.keyToIp
    ensures t.next == t.highest && pk !in t.keyToIp && m == Give(Kick(t, victim), pk, ip, now)
    ensures victim in t.lastUse && forall x :: x in t.keyToIp ==> LastUse(t, victim) <= LastUse(t, x)
  {
    assert pk !in t.keyToIp && t.next == t.highest;
    assert victim == t.ipToKey[ip];
    forall x | x in t.keyToIp
      ensures LastUse(t, victim) <= LastUse(t, x)
    {
      assert t.keyToIp[x] in t.activity && t.activity[ip] <= t.activity[t.keyToIp[x]];
    }
  }

  // ---------------------------------------------------------------- use as the run tells it

  /** When an identity was last looked up, alone or for a new session. */
  function LastLookup(ops: seq<Op>, pk: PubKey): (u: Option<nat>) {
    if ops == [] then None
    else
      var op := ops[|ops| - 1];
      if (op.Identify? || op.NewExit?) && op.pk == pk then Some(op.now) else LastLookup(ops[..|ops| - 1], pk)
  }

  lemma UseStep(t: Table, op: Op, t': Table, pk: PubKey)
    requires Next(t, op, t')
    ensures if (op.Identify? || op.NewExit?) && op.pk == pk then pk in t'.lastUse && t'.lastUse[pk] == op.now
      else (pk in t'.lastUse <==> pk in t.lastUse) && (pk in t.lastUse ==> t'.lastUse[pk] == t.lastUse[pk])
  {
    if op.Identify? || op.NewExit? {
      var m, ip := LookupOf(t, op, t');
    }
  }

  /** The recorded use of an identity is its last lookup in the run. */
  ghost predicate UseIs(t: Table, ops: seq<Op>, pk: PubKey) {
    match LastLookup(ops, pk)
    case None => pk !in t.lastUse
    case Some(u) => pk in t.lastUse && t.lastUse[pk] == u
  }

  lemma {:induction false} UseIsLastLookup(
    us: PubKey, ifAddr: nat, highest: nat, states: seq<Table>, ops: seq<Op>, i: nat, pk: PubKey)
    requires IsRun(states, ops) && states[0] == Started(us, ifAddr, highest) && i < |states|
    ensures UseIs(states[i], ops[..i], pk)
  {
    if i > 0 {
      UseIsLastLookup(us, ifAddr, highest, states, ops, i - 1, pk);
      assert StepAt(states, ops, i - 1);
      UseStep(states[i - 1], ops[i - 1], states[i], pk);
      assert ops[..i][..i - 1] == ops[..i - 1];
    }
  }

  /** In every reachable state the activity of an address is the time its owner was last looked up in the run. */
  lemma ActivityIsLastLookup(
    us: PubKey, ifAddr: nat, highest: nat, states: seq<Table>, ops: seq<Op>, i: nat, ip: nat)
    requires ifAddr < highest && IsRun(states, ops) && states[0] == Started(us, ifAddr, highest) && i < |states|
    requires ip in states[i].ipToKey
    ensures ip in states[i].activity
    ensures match LastLookup(ops[..i], states[i].ipToKey[ip])
      case None => states[i].ipToKey[ip] == us && ip == ifAddr && states[i].activity[ip] == MAX_TIME
      case Some(u) => states[i].activity[ip] == u
  {
    RunConsistent(us, ifAddr, highest, states, ops, i);
    UseIsLastLookup(us, ifAddr, highest, states, ops, i, states[i].ipToKey[ip]);
  }

  /** In every run an evicted identity had been looked up, and no other that has an address had not been for longer. */
  lemma EvictedUnusedLongest(
    us: PubKey, ifAddr: nat, highest: nat, states: seq<Table>, ops: seq<Op>, i: nat, victim: PubKey, pk: PubKey)
    requires ifAddr < highest && IsRun(states, ops) && states[0] == Started(us, ifAddr, highest) && i < |ops|
    requires victim in states[i].keyToIp && victim !in states[i + 1].keyToIp && pk in states[i].keyToIp
    ensures LastLookup(ops[..i], victim).Some?
    ensures LastLookup(ops[..i], pk).Some? ==> LastLookup(ops[..i], victim).value <= LastLookup(ops[..i], pk).value
    ensures LastLookup(ops[..i], pk).None? ==> pk == us
  {
    RunConsistent(us, ifAddr, highest, states, ops, i);
    assert StepAt(states, ops, i);
    EvictionIsLeastRecent(states[i], ops[i], states[i + 1], victim);
    UseIsLastLookup(us, ifAddr, highest, states, ops, i, victim);
    UseIsLastLookup(us, ifAddr, highest, states, ops, i, pk);
    assert states[i].keyToIp[pk] in states[i].activity;
  }

  // ---------------------------------------------------------------- addresses and sessions

  /** The first address of the range nobody has. */
  ghost predicate FirstFree(t: Table, ip: nat) {
    t.ifAddr <= ip <= t.highest && ip !in t.ipToKey && forall x :: t.ifAddr <= x < ip ==> x in t.ipToKey
  }

  ghost predicate TookOver(t: Table, t': Table, pk: PubKey, victim: PubKey) {
    victim in t.keyToIp && t'.keyToIp == (t.keyToIp - {victim})[pk := t.keyToIp[victim]]
  }

  /**
   * What a lookup does to the addresses: an identity keeps its address; a new one gets the
   * first free one, and nobody else's changes; if none is free it takes over one.
   */
  lemma AddressAssigned(t: Table, op: Op, t': Table)
    requires Consistent(t) && Tracked(t) && Next(t, op, t') && OnTime(op) && (op.Identify? || op.NewExit?)
    ensures op.pk in t'.keyToIp
    ensures op.pk in t.keyToIp ==> t'.keyToIp == t.keyToIp
    ensures op.pk !in t.keyToIp && t.next < t.highest ==>
      FirstFree(t, t'.keyToIp[op.pk]) && t'.keyToIp == t.keyToIp[op.pk := t'.keyToIp[op.pk]]
    ensures op.pk !in t.keyToIp && t.next == t.highest ==> exists victim :: TookOver(t, t', op.pk, victim)
  {
    var m, ip := LookupOf(t, op, t');
    IdentifiedKeeps(t, m, op.pk, op.now, ip);
    if op.pk !in t.keyToIp && t.next == t.highest {
      var victim := t.ipToKey[ip];
      assert victim in t.keyToIp && t.keyToIp[victim] == ip;
      assert TookOver(t, t', op.pk, victim);
    }
  }

  lemma {:induction false} WithoutCounts(exits: seq<Exit>, pk: PubKey, e: Exit)
    ensures multiset(Without(exits, pk))[e] == if e.pk == pk then 0 else multiset(exits)[e]
  {
    if exits != [] {
      WithoutCounts(exits[..|exits| - 1], pk, e);
      assert exits == exits[..|exits| - 1] + [exits[|exits| - 1]];
    }
  }

  lemma {:induction false} AliveCounts(exits: seq<Exit>, dead: set<Exit>, e: Exit)
    ensures multiset(Alive(exits, dead))[e] == if e in dead then 0 else multiset(exits)[e]
  {
    if exits != [] {
      AliveCounts(exits[..|exits| - 1], dead, e);
      assert exits == exits[..|exits| - 1] + [exits[|exits| - 1]];
    }
  }

  /** Expiry keeps the order of the sessions that stay. */
  lemma {:induction false} AliveOrder(a: seq<Exit>, b: seq<Exit>, dead: set<Exit>)
    ensures Alive(a + b, dead) == Alive(a, dead) + Alive(b, dead)
  {
    if b == [] {
      assert a + b == a;
    } else {
      AliveOrder(a, b[..|b| - 1], dead);
      assert (a + b)[..|a + b| - 1] == a + b[..|b| - 1];
    }
  }

  /** How often a session is registered after an operation: evicted and expired ones not at all. */
  ghost function Expected(t: Table, op: Op, t': Table, e: Exit): (n: nat) {
    var kept := if e.pk in t.keyToIp && e.pk !in t'.keyToIp then 0 else multiset(t.exits)[e];
    match op
    case NewExit(pk, path, internet, _) =>
      kept + (if pk in t'.keyToIp && e == Exit(pk, path, internet, t'.keyToIp[pk]) then 1 else 0)
    case Expire(dead) => if e in dead then 0 else kept
    case _ => kept
  }

  /** One registration of a matching session was taken away, or there is none. */
  ghost predicate TookOne(before: seq<Exit>, after: seq<Exit>, pk: PubKey, path: PathID) {
    || (after == before && forall e :: e in before ==> !Matching(e, pk, path))
    || exists e :: e in before && Matching(e, pk, path) && multiset(after) == multiset(before) - multiset{e}
  }

  predicate Matching(e: Exit, pk: PubKey, path: PathID) {
    e.pk == pk && e.path == path
  }

  /** Sessions are neither lost nor doubled: what each operation adds and takes away, with multiplicity. */
  lemma SessionsConserved(t: Table, op: Op, t': Table)
    requires Consistent(t) && Tracked(t) && Next(t, op, t') && OnTime(op)
    ensures !op.RemoveExit? ==> forall e :: multiset(t'.exits)[e] == Expected(t, op, t', e)
    ensures op.RemoveExit? ==> TookOne(t.exits, t'.exits, op.pk, op.path)
  {
    match op
    case RemoveExit(pk, path) => OneRemoved(t, op, t');
    case Expire(dead) =>
      forall e
        ensures multiset(t'.exits)[e] == Expected(t, op, t', e)
      {
        AliveCounts(t.exits, dead, e);
      }
    case _ =>
      forall e
        ensures multiset(t'.exits)[e] == Expected(t, op, t', e)
      {
        LookupCounts(t, op, t', e);
      }
  }

  lemma OneRemoved(t: Table, op: Op, t': Table)
    requires Next(t, op, t') && op.RemoveExit?
    ensures TookOne(t.exits, t'.exits, op.pk, op.path)
  {
    if t' != t || exists e :: e in t.exits && Matching(e, op.pk, op.path) {
      var i :| 0 <= i < |t.exits| && t.exits[i].pk == op.pk && t.exits[i].path == op.path &&
        t' == t.(exits := t.exits[..i] + t.exits[i + 1..]);
      OneLess(t.exits, i);
      assert t.exits[i] in t.exits && Matching(t.exits[i], op.pk, op.path);
    }
  }

  lemma OneLess(s: seq<Exit>, i: nat)
    requires i < |s|
    ensures multiset(s[..i] + s[i + 1..]) == multiset(s) - multiset{s[i]}
  {
    assert s == s[..i] + [s[i]] + s[i + 1..];
  }

  lemma LookupCounts(t: Table, op: Op, t': Table, e: Exit)
    requires Consistent(t) && Tracked(t) && Next(t, op, t') && OnTime(op) && (op.Identify? || op.NewExit?)
    ensures multiset(t'.exits)[e] == Expected(t, op, t', e)
  {
    var m, ip := LookupOf(t, op, t');
    IdentifiedKeeps(t, m, op.pk, op.now, ip);
    IdentifiedCounts(t, m, op.pk, op.now, ip, e);
  }

  lemma IdentifiedCounts(t: Table, m: Table, pk: PubKey, now: nat, ip: nat, e: Exit)
    requires Consistent(t) && Identified(t, m, pk, now, ip)
    ensures multiset(m.exits)[e] == if e.pk in t.keyToIp && e.pk !in m.keyToIp then 0 else multiset(t.exits)[e]
  {
    if pk !in t.keyToIp && t.next == t.highest {
      WithoutCounts(t.exits, t.ipToKey[ip], e);
      if e.pk !in t.keyToIp {
        NotMapped(t, e);
      }
    }
  }

  lemma NotMapped(t: Table, e: Exit)
    requires Consistent(t) && e.pk !in t.keyToIp
    ensures multiset(t.exits)[e] == 0
  {
    assert e !in t.exits;
  }

  // ---------------------------------------------------------------- our own address

  /** The range is used up, we were ourselves looked up as an identity, and nobody was looked up longer ago. */
  ghost predicate AtRisk(t: Table) {
    && t.next == t.highest && t.us in t.lastUse
    && forall pk :: pk in t.keyToIp ==> LastUse(t, t.us) <= LastUse(t, pk)
  }

  /**
   * A lookup of an identity at a time can take our own address exactly when the identity has
   * none and our address is at risk.
   */
  lemma OwnAddressAtRisk(t: Table, pk: PubKey, now: nat)
    requires Consistent(t) && Tracked(t) && t.us in t.keyToIp && now < MAX_TIME
    ensures (exists t' :: Next(t, Identify(pk, now), t') && t.us !in t'.keyToIp) <==> pk !in t.keyToIp && AtRisk(t)
  {
    if pk !in t.keyToIp && AtRisk(t) {
      var ip := t.keyToIp[t.us];
      forall x | x in t.activity
        ensures t.activity[ip] <= t.activity[x]
      {
        assert t.ipToKey[x] in t.keyToIp && LastUse(t, t.us) <= LastUse(t, t.ipToKey[x]);
      }
      var t' := Give(Kick(t, t.us), pk, ip, now);
      assert Identified(t, t', pk, now, ip);
      assert Next(t, Identify(pk, now), t') && t.us !in t'.keyToIp;
    }
    forall t' | Next(t, Identify(pk, now), t') && t.us !in t'.keyToIp
      ensures pk !in t.keyToIp && AtRisk(t)
    {
      EvictionIsLeastRecent(t, Identify(pk, now), t', t.us);
      assert t.highest in t.ipToKey;
    }
  }

  /** A run in which we lose our own address: it is looked up, then two other identities are. */
  lemma OwnAddressLost(us: PubKey, a: PubKey, b: PubKey, ifAddr: nat, now: nat)
    returns (states: seq<Table>, ops: seq<Op>)
    requires us != a && us != b && a != b && now + 2 < MAX_TIME
    ensures IsRun(states, ops) && states[0] == Started(us, ifAddr, ifAddr + 1)
    ensures |ops| == 3 && us !in states[3].keyToIp && b in states[3].keyToIp && states[3].keyToIp[b] == ifAddr
  {
    var s1, s2, s3 := LosingTables(us, a, b, ifAddr, now);
    states := [Started(us, ifAddr, ifAddr + 1), s1, s2, s3];
    ops := [Identify(us, now), Identify(a, now + 1), Identify(b, now + 2)];
    LookupStep(states, ops, 0, ifAddr);
    LookupStep(states, ops, 1, ifAddr + 1);
    LookupStep(states, ops, 2, ifAddr);
    ThreeSteps(states, ops);
  }

  lemma LosingTables(us: PubKey, a: PubKey, b: PubKey, ifAddr: nat, now: nat) returns (s1: Table, s2: Table, s3: Table)
    requires us != a && us != b && a != b && now + 2 < MAX_TIME
    ensures Identified(Started(us, ifAddr, ifAddr + 1), s1, us, now, ifAddr)
    ensures Identified(s1, s2, a, now + 1, ifAddr + 1)
    ensures Identified(s2, s3, b, now + 2, ifAddr)
    ensures us !in s3.keyToIp && b in s3.keyToIp && s3.keyToIp[b] == ifAddr
  {
    s1 := Started(us, ifAddr, ifAddr + 1).(activity := map[ifAddr := now], lastUse := map[us := now]);
    s2 := Give(s1, a, ifAddr + 1, now + 1).(next := ifAddr + 1);
    s3 := Give(Kick(s2, us), b, ifAddr, now + 2);
    LastIsEvicted(s2, us, a, b, ifAddr, now);
  }

  lemma LookupStep(states: seq<Table>, ops: seq<Op>, i: nat, ip: nat)
    requires i < |ops| && i + 1 < |states| && ops[i].Identify? && ops[i].now < MAX_TIME
    requires Identified(states[i], states[i + 1], ops[i].pk, ops[i].now, ip)
    ensures StepAt(states, ops, i)
  {
  }

  lemma LastIsEvicted(t: Table, us: PubKey, a: PubKey, b: PubKey, ifAddr: nat, now: nat)
    requires us != a && us != b && a != b && now < MAX_TIME && t.next == t.highest
    requires t.keyToIp == map[us := ifAddr, a := ifAddr + 1] && t.ipToKey == map[ifAddr := us, ifAddr + 1 := a]
    requires t.activity == map[ifAddr := now, ifAddr + 1 := now + 1]
    ensures Identified(t, Give(Kick(t, us), b, ifAddr, now + 2), b, now + 2, ifAddr)
  {
    assert Oldest(t.activity, ifAddr);
  }

  lemma ThreeSteps(states: seq<Table>, ops: seq<Op>)
    requires |states| == 4 && |ops| == 3 && StepAt(states, ops, 0) && StepAt(states, ops, 1) && StepAt(states, ops, 2)
    ensures IsRun(states, ops)
  {
  }

  /** As long as our own key is never looked up, it keeps our address, in every run. */
  lemma {:induction false} OwnAddressKept(
    us: PubKey, ifAddr: nat, highest: nat, states: seq<Table>, ops: seq<Op>, i: nat)
    requires ifAddr < highest && IsRun(states, ops) && states[0] == Started(us, ifAddr, highest) && i < |states|
    requires forall j :: 0 <= j < |ops| && (ops[j].Identify? || ops[j].NewExit?) ==> ops[j].pk != us
    ensures us in states[i].keyToIp && states[i].keyToIp[us] == ifAddr && us !in states[i].lastUse
  {
    if i > 0 {
      OwnAddressKept(us, ifAddr, highest, states, ops, i - 1);
      RunConsistent(us, ifAddr, highest, states, ops, i - 1);
      assert StepAt(states, ops, i - 1);
      OwnAddressStep(states[i - 1], ops[i - 1], states[i], us, ifAddr);
    }
  }

  lemma OwnAddressStep(t: Table, op: Op, t': Table, us: PubKey, ifAddr: nat)
    requires Consistent(t) && Tracked(t) && Next(t, op, t') && OnTime(op) && t.us == us
    requires op.Identify? || op.NewExit? ==> op.pk != us
    requires us in t.keyToIp && t.keyToIp[us] == ifAddr && us !in t.lastUse
    ensures us in t'.keyToIp && t'.keyToIp[us] == ifAddr && us !in t'.lastUse
  {
    if op.Identify? || op.NewExit? {
      var m, ip := LookupOf(t, op, t');
    }
  }

  // ---------------------------------------------------------------- the endpoint object

  class ExitEndpoint {
    const us: PubKey
    const permitExit: bool
    const ifAddr: nat
    const highestAddr: nat
    var nextAddr: nat
    var keyToIp: map<PubKey, nat>
    var ipToKey: map<nat, PubKey>
    var ipActivity: map<nat, nat>
    var activeExits: seq<Exit>
    ghost var lastUse: map<PubKey, nat>

    ghost function View(): (t: Table)
      reads this
    {
      Table(us, ifAddr, highestAddr, nextAddr, keyToIp, ipToKey, ipActivity, activeExits, lastUse)
    }

    ghost predicate Valid()
      reads this
    {
      Consistent(View()) && Tracked(View())
    }

    constructor (us: PubKey, permitExit: bool, ifAddr: nat, highest: nat)
      requires ifAddr < highest
      ensures Valid() && View() == Started(us, ifAddr, highest) && this.permitExit == permitExit
    {
      this.us, this.permitExit, this.ifAddr, highestAddr, nextAddr := us, permitExit, ifAddr, highest, ifAddr;
      keyToIp, ipToKey, ipActivity := map[us := ifAddr], map[ifAddr := us], map[ifAddr := MAX_TIME];
      activeExits, lastUse := [], map[];
      new;
      StartedConsistent(us, ifAddr, highest);
    }

    /** The scan for the address that was active longest ago. */
    method FindOldest() returns (found: nat)
      requires Valid() && nextAddr == highestAddr
      ensures Oldest(ipActivity, found) && found in ipToKey
    {
      found := 0;
      var min := MAX_TIME;
      var todo := ipActivity.Keys;
      while todo != {}
        invariant todo <= ipActivity.Keys && min <= MAX_TIME
        invariant min < MAX_TIME ==> found in ipActivity && ipActivity[found] == min
        invariant forall ip :: ip in ipActivity && ip !in todo ==> min <= ipActivity[ip]
        decreases |todo|
      {
        var ip :| ip in todo;
        todo := todo - {ip};
        if ipActivity[ip] < min {
          found, min := ip, ipActivity[ip];
        }
      }
      assert nextAddr in ipToKey && nextAddr in ipActivity;
    }

    method KickIdentOffExit(pk: PubKey)
      requires pk in keyToIp
      modifies this`keyToIp, this`ipToKey, this`activeExits
      ensures View() == Kick(old(View()), pk)
    {
      var ip := keyToIp[pk];
      keyToIp := keyToIp - {pk};
      ipToKey := ipToKey - {ip};
      var kept, i := [], 0;
      while i < |activeExits|
        invariant 0 <= i <= |activeExits| && kept == Without(activeExits[..i], pk)
      {
        assert activeExits[..i + 1][..i] == activeExits[..i];
        if activeExits[i].pk != pk {
          kept := kept + [activeExits[i]];
        }
        i := i + 1;
      }
      assert activeExits[..i] == activeExits;
      activeExits := kept;
    }

    method AllocateNewAddress() returns (found: nat)
      requires Valid()
      modifies this`nextAddr, this`keyToIp, this`ipToKey, this`activeExits
      ensures if old(nextAddr) < highestAddr then
          found == old(nextAddr) + 1 && View() == old(View()).(next := found)
        else
          && Oldest(old(ipActivity), found) && found in old(ipToKey) && old(ipToKey)[found] in old(keyToIp)
          && View() == Kick(old(View()), old(ipToKey)[found])
    {
      if nextAddr < highestAddr {
        nextAddr := nextAddr + 1;
        return nextAddr;
      }
      found := FindOldest();
      KickIdentOffExit(ipToKey[found]);
    }

    method GetIPForIdent(pk: PubKey, now: nat) returns (found: nat)
      requires Valid() && now < MAX_TIME
      modifies this
      ensures Valid() && Identified(old(View()), View(), pk, now, found)
      ensures pk in keyToIp && keyToIp[pk] == found
    {
      if pk in keyToIp {
        found := keyToIp[pk];
      } else {
        found := AllocateNewAddress();
        keyToIp := keyToIp[pk := found];
        ipToKey := ipToKey[found := pk];
      }
      ipActivity := ipActivity[found := now];
      lastUse := lastUse[pk := now];
      IdentifiedKeeps(old(View()), View(), pk, now, found);
    }

    method AllocateNewExit(pk: PubKey, path: PathID, wantInternet: bool, now: nat) returns (ok: bool)
      requires Valid() && now < MAX_TIME
      modifies this
      ensures Valid() && ok == (permitExit || !wantInternet)
      ensures if ok then Next(old(View()), NewExit(pk, path, wantInternet, now), View()) else View() == old(View())
    {
      if wantInternet && !permitExit {
        return false;
      }
      var ip := GetIPForIdent(pk, now);
      ghost var mid := View();
      NewExitKeeps(mid, Exit(pk, path, wantInternet, ip));
      activeExits := activeExits + [Exit(pk, path, wantInternet, ip)];
      assert Identified(old(View()), mid, pk, now, ip);
      assert View() == mid.(exits := mid.exits + [Exit(pk, path, wantInternet, ip)]);
      return pk in keyToIp;
    }

    method RemoveOne(pk: PubKey, path: PathID)
      requires Valid()
      modifies this`activeExits
      ensures Valid() && Next(old(View()), RemoveExit(pk, path), View())
    {
      var i := 0;
      while i < |activeExits|
        invariant 0 <= i <= |activeExits| && activeExits == old(activeExits)
        invariant forall j :: 0 <= j < i ==> !(activeExits[j].pk == pk && activeExits[j].path == path)
      {
        if activeExits[i].pk == pk && activeExits[i].path == path {
          activeExits := activeExits[..i] + activeExits[i + 1..];
          assert View() == old(View()).(exits := old(activeExits)[..i] + old(activeExits)[i + 1..]);
          NextKeeps(old(View()), RemoveExit(pk, path), View());
          return;
        }
        i := i + 1;
      }
    }

    method Tick(dead: set<Exit>)
      requires Valid()
      modifies this`activeExits
      ensures Valid() && View() == old(View()).(exits := Alive(old(activeExits), dead))
    {
      var kept, i := [], 0;
      while i < |activeExits|
        invariant 0 <= i <= |activeExits| && kept == Alive(activeExits[..i], dead)
        invariant activeExits == old(activeExits)
      {
        assert activeExits[..i + 1][..i] == activeExits[..i];
        if activeExits[i] !in dead {
          kept := kept + [activeExits[i]];
        }
        i := i + 1;
      }
      assert activeExits[..i] == activeExits;
      activeExits := kept;
    }
  }
}
