/**
 * Pending DHT transactions: three tables (transactions by the peer asked, waiters by target,
 * timeouts by target) that must agree while lookups start, are answered, fail over and expire.
 */
module DhtTxHolder {
  import opened Bytes
  import opened DhtBucket
  import opened DhtRouting

  const REQUEST_TIMEOUT: nat := 30000

  /** A peer and the id of the request it was sent. */
  datatype Owner = Owner(node: Key, txid: nat)

  /** A transaction; values stand for whatever its kind of lookup finds. */
  datatype Lookup = Lookup(target: Key, asked: set<Key>, found: seq<nat>)

  /**
   * The tables, and records of what happened: every owner ever used, the replies sent per
   * transaction, the Start calls and the completed rounds per target, and when the current
   * round of a target was first asked for.
   */
  datatype Holder = Holder(
    waiting: map<Key, seq<Owner>>, timeouts: map<Key, nat>, tx: map<Owner, Lookup>,
    issued: set<Owner>, replies: map<Owner, seq<seq<nat>>>,
    starts: map<Key, nat>, rounds: map<Key, nat>, firstAsked: map<Key, nat>)

  const EMPTY := Holder(map[], map[], map[], {}, map[], map[], map[], map[])

  function Count(m: map<Key, nat>, k: Key): (n: nat) {
    if k in m then m[k] else 0
  }

  function Waiters(h: Holder, k: Key): (w: seq<Owner>) {
    if k in h.waiting then h.waiting[k] else []
  }

  function Replies(h: Holder, o: Owner): (r: seq<seq<nat>>) {
    RepliesTo(h.replies, o)
  }

  /** NewTX: register; only the first waiter of a target starts a request and sets its timeout. */
  function NewTx(h: Holder, o: Owner, l: Lookup, now: nat): (h': Holder) {
    var first := Waiters(h, l.target) == [];
    h.(tx := if o in h.tx then h.tx else h.tx[o := l],
       waiting := h.waiting[l.target := Waiters(h, l.target) + [o]],
       timeouts := if l.target in h.timeouts then h.timeouts else h.timeouts[l.target := now + REQUEST_TIMEOUT],
       issued := h.issued + {o},
       starts := if first then h.starts[l.target := Count(h.starts, l.target) + 1] else h.starts,
       firstAsked := if first then h.firstAsked[l.target := now] else h.firstAsked)
  }

  /** The values a transaction keeps: those it can validate. */
  function Valid(valid: nat -> bool, values: seq<nat>): (r: seq<nat>) {
    if values == [] then []
    else
      var rest := Valid(valid, values[..|values| - 1]);
      if valid(values[|values| - 1]) then rest + [values[|values| - 1]] else rest
  }

  /** The transactions waiting for some targets. */
  function Gone(h: Holder, keys: set<Key>): (s: set<Owner>) {
    set k, o | k in keys && k in h.waiting && o in h.waiting[k] && o in h.tx :: o
  }

  function RepliesTo(replies: map<Owner, seq<seq<nat>>>, o: Owner): (r: seq<seq<nat>>) {
    if o in replies then replies[o] else []
  }

  /** Each of some transactions replies with what it had found and what it accepts. */
  function AddReplies(replies: map<Owner, seq<seq<nat>>>, tx: map<Owner, Lookup>, told: set<Owner>,
                      values: seq<nat>, valid: nat -> bool): (r: map<Owner, seq<seq<nat>>>)
    requires told <= tx.Keys
  {
    map o | o in replies.Keys + told ::
      if o in told then RepliesTo(replies, o) + [tx[o].found + Valid(valid, values)] else RepliesTo(replies, o)
  }

  function AddRounds(rounds: map<Key, nat>, keys: set<Key>): (r: map<Key, nat>) {
    map k | k in rounds.Keys + keys :: Count(rounds, k) + if k in keys then 1 else 0
  }

  /** Inform with a reply, for all waiters of some targets at once, timeouts removed. */
  function Answer(h: Holder, keys: set<Key>, values: seq<nat>, valid: nat -> bool): (h': Holder) {
    h.(tx := h.tx - Gone(h, keys),
       replies := AddReplies(h.replies, h.tx, Gone(h, keys), values, valid),
       rounds := AddRounds(h.rounds, keys * h.waiting.Keys),
       waiting := h.waiting - keys,
       timeouts := h.timeouts - keys)
  }

  /** NotFound: ask the next peer in a further transaction, or tell all waiters there is nothing. */
  ghost function Miss(
    h: Holder, us: Key, from: Owner, suggested: Option<Key>, nodes: set<Key>, txid: nat, now: nat): (h': Holder)
  {
    if from !in h.tx then h
    else
      var l := h.tx[from];
      var r := AskNext(l.target, l.asked, nodes, from.node, suggested);
      var h1 := h.(tx := h.tx[from := l.(asked := r.asked)]);
      match r.peer
      case Some(p) => NewTx(h1, Owner(p, txid), Lookup(l.target, {us}, []), now)
      case None => Answer(h1, {l.target}, [], _ => true)
  }

  function Expired(h: Holder, now: nat): (s: set<Key>) {
    set k | k in h.timeouts && now > h.timeouts[k] && now - h.timeouts[k] >= REQUEST_TIMEOUT
  }

  function ExpireAll(h: Holder, now: nat): (h': Holder) {
    Answer(h, Expired(h, now), [], _ => true)
  }

  // ---------------------------------------------------------------- the invariant

  ghost predicate NoDup(s: seq<Owner>) {
    forall i, j :: 0 <= i < j < |s| ==> s[i] != s[j]
  }

  /** The waiters of a target are exactly its transactions, each once. */
  ghost predicate TargetOk(h: Holder, k: Key) {
    && NoDup(Waiters(h, k))
    && (forall o :: o in Waiters(h, k) <==> o in h.tx && h.tx[o].target == k)
    && (k in h.waiting <==> Waiters(h, k) != [])
    && (k in h.timeouts <==> k in h.waiting)
    && (k in h.timeouts ==> k in h.firstAsked && h.timeouts[k] == h.firstAsked[k] + REQUEST_TIMEOUT)
    && Count(h.starts, k) == Count(h.rounds, k) + if k in h.waiting then 1 else 0
  }

  /** A transaction is pending and unanswered, or gone and answered once. */
  ghost predicate OwnerOk(h: Holder, o: Owner) {
    && (o in h.tx ==> o in h.issued && Replies(h, o) == [])
    && (o in h.issued && o !in h.tx ==> |Replies(h, o)| == 1)
    && (o !in h.issued ==> Replies(h, o) == [])
  }

  ghost predicate Agree(h: Holder) {
    (forall k :: TargetOk(h, k)) && (forall o :: OwnerOk(h, o))
  }

  lemma NewTxAgrees(h: Holder, o: Owner, l: Lookup, now: nat)
    requires Agree(h) && o !in h.issued
    ensures Agree(NewTx(h, o, l, now))
  {
    var h' := NewTx(h, o, l, now);
    forall x
      ensures OwnerOk(h', x)
    {
      assert OwnerOk(h, x);
    }
    forall k
      ensures TargetOk(h', k)
    {
      assert TargetOk(h, k) && OwnerOk(h, o);
      NewTxTarget(h, o, l, now, k);
    }
  }

  lemma NewTxTarget(h: Holder, o: Owner, l: Lookup, now: nat, k: Key)
    requires TargetOk(h, k) && OwnerOk(h, o) && o !in h.issued
    ensures TargetOk(NewTx(h, o, l, now), k)
  {
    if k == l.target {
      assert Waiters(NewTx(h, o, l, now), k) == Waiters(h, k) + [o];
      assert o !in Waiters(h, k);
    }
  }

  lemma GoneIs(h: Holder, keys: set<Key>, o: Owner)
    requires Agree(h)
    ensures o in Gone(h, keys) <==> o in h.tx && h.tx[o].target in keys
  {
    if o in h.tx && h.tx[o].target in keys {
      var k := h.tx[o].target;
      assert TargetOk(h, k);
      assert o in Waiters(h, k);
    }
    if o in Gone(h, keys) {
      var k :| k in keys && k in h.waiting && o in h.waiting[k];
      assert TargetOk(h, k);
    }
  }

  lemma AnswerAgrees(h: Holder, keys: set<Key>, values: seq<nat>, valid: nat -> bool)
    requires Agree(h)
    ensures Agree(Answer(h, keys, values, valid))
  {
    var h' := Answer(h, keys, values, valid);
    forall o
      ensures OwnerOk(h', o)
    {
      GoneIs(h, keys, o);
      AnswerOwner(h, keys, values, valid, o);
    }
    forall k
      ensures TargetOk(h', k)
    {
      AnswerTarget(h, keys, values, valid, k);
    }
  }

  lemma AnswerOwner(h: Holder, keys: set<Key>, values: seq<nat>, valid: nat -> bool, o: Owner)
    requires Agree(h)
    ensures OwnerOk(Answer(h, keys, values, valid), o)
  {
    var h' := Answer(h, keys, values, valid);
    assert OwnerOk(h, o);
    if o in Gone(h, keys) {
      assert Replies(h', o) == [h.tx[o].found + Valid(valid, values)];
    } else {
      assert Replies(h', o) == Replies(h, o);
    }
  }

  lemma AnswerTarget(h: Holder, keys: set<Key>, values: seq<nat>, valid: nat -> bool, k: Key)
    requires Agree(h)
    ensures TargetOk(Answer(h, keys, values, valid), k)
  {
    var h' := Answer(h, keys, values, valid);
    assert TargetOk(h, k);
    assert Waiters(h', k) == if k in keys then [] else Waiters(h, k);
    forall o
      ensures o in Waiters(h', k) <==> o in h'.tx && h'.tx[o].target == k
    {
      GoneIs(h, keys, o);
    }
    assert Count(h'.rounds, k) == Count(h.rounds, k) + if k in keys && k in h.waiting then 1 else 0;
  }

  lemma MissAgrees(h: Holder, us: Key, from: Owner, suggested: Option<Key>, nodes: set<Key>, txid: nat, now: nat)
    requires Agree(h) && forall o :: o in h.issued ==> o.txid != txid
    ensures Agree(Miss(h, us, from, suggested, nodes, txid, now))
  {
    if from in h.tx {
      var l := h.tx[from];
      var r := AskNext(l.target, l.asked, nodes, from.node, suggested);
      var h1 := h.(tx := h.tx[from := l.(asked := r.asked)]);
      TouchAgrees(h, from, r.asked);
      match r.peer
      case Some(p) => NewTxAgrees(h1, Owner(p, txid), Lookup(l.target, {us}, []), now);
      case None => AnswerAgrees(h1, {l.target}, [], _ => true);
    }
  }

  lemma TouchAgrees(h: Holder, from: Owner, asked: set<Key>)
    requires Agree(h) && from in h.tx
    ensures Agree(h.(tx := h.tx[from := h.tx[from].(asked := asked)]))
  {
    var h1 := h.(tx := h.tx[from := h.tx[from].(asked := asked)]);
    forall k
      ensures TargetOk(h1, k)
    {
      assert TargetOk(h, k);
    }
    forall o
      ensures OwnerOk(h1, o)
    {
      assert OwnerOk(h, o);
    }
  }

  // ---------------------------------------------------------------- every run

  datatype Op =
    | New(o: Owner, l: Lookup, now: nat)
    | NotFound(from: Owner, suggested: Option<Key>, nodes: set<Key>, txid: nat, now: nat)
    | Found(key: Key, values: seq<nat>, valid: nat -> bool)
    | Sweep(now: nat)

  /** Request ids are never used twice. */
  ghost predicate FreshIds(h: Holder, op: Op) {
    match op
    case New(o, _, _) => o !in h.issued
    case NotFound(_, _, _, txid, _) => forall o :: o in h.issued ==> o.txid != txid
    case _ => true
  }

  ghost function Do(us: Key, h: Holder, op: Op): (h': Holder) {
    match op
    case New(o, l, now) => NewTx(h, o, l, now)
    case NotFound(from, suggested, nodes, txid, now) => Miss(h, us, from, suggested, nodes, txid, now)
    case Found(key, values, valid) => Answer(h, {key}, values, valid)
    case Sweep(now) => ExpireAll(h, now)
  }

  ghost function After(us: Key, run: seq<Op>): (h: Holder) {
    if run == [] then EMPTY else Do(us, After(us, run[..|run| - 1]), run[|run| - 1])
  }

  ghost predicate Legal(us: Key, run: seq<Op>) {
    run == [] || (Legal(us, run[..|run| - 1]) && FreshIds(After(us, run[..|run| - 1]), run[|run| - 1]))
  }

  lemma {:induction false} RunAgrees(us: Key, run: seq<Op>)
    requires Legal(us, run)
    ensures Agree(After(us, run))
  {
    if run == [] {
      forall k, o
        ensures TargetOk(EMPTY, k) && OwnerOk(EMPTY, o)
      {
      }
    } else {
      var h := After(us, run[..|run| - 1]);
      RunAgrees(us, run[..|run| - 1]);
      match run[|run| - 1]
      case New(o, l, now) => NewTxAgrees(h, o, l, now);
      case NotFound(from, suggested, nodes, txid, now) => MissAgrees(h, us, from, suggested, nodes, txid, now);
      case Found(key, values, valid) => AnswerAgrees(h, {key}, values, valid);
      case Sweep(now) => AnswerAgrees(h, Expired(h, now), [], _ => true);
    }
  }

  /**
   * In every run: the waiters index the transactions by target, their targets are those with
   * a timeout, and every transaction is pending without a reply or was replied to once.
   */
  lemma TablesAgree(us: Key, run: seq<Op>, k: Key, o: Owner)
    requires Legal(us, run)
    ensures var h := After(us, run);
      && (o in Waiters(h, k) <==> o in h.tx && h.tx[o].target == k)
      && NoDup(Waiters(h, k)) && h.waiting.Keys == h.timeouts.Keys
      && (o in h.issued ==> if o in h.tx then Replies(h, o) == [] else |Replies(h, o)| == 1)
  {
    RunAgrees(us, run);
    var h := After(us, run);
    assert TargetOk(h, k) && OwnerOk(h, o);
    forall x
      ensures x in h.waiting.Keys <==> x in h.timeouts.Keys
    {
      assert TargetOk(h, x);
    }
  }

  /** In every run exactly one Start is issued per round, a round ending when no waiter is left. */
  lemma OneStartPerRound(us: Key, run: seq<Op>, k: Key)
    requires Legal(us, run)
    ensures var h := After(us, run);
      Count(h.starts, k) == Count(h.rounds, k) + if Waiters(h, k) != [] then 1 else 0
  {
    RunAgrees(us, run);
    assert TargetOk(After(us, run), k);
  }

  /** In every run a lookup told to ask another peer starts no request: its own transaction still waits. */
  lemma RetryNotStarted(
    us: Key, run: seq<Op>, from: Owner, suggested: Option<Key>, nodes: set<Key>, txid: nat, now: nat)
    requires Legal(us, run)
    ensures Miss(After(us, run), us, from, suggested, nodes, txid, now).starts == After(us, run).starts
  {
    RunAgrees(us, run);
    var h := After(us, run);
    if from in h.tx {
      assert TargetOk(h, h.tx[from].target);
      assert from in Waiters(h, h.tx[from].target);
    }
  }

  /**
   * After a sweep every target still waiting was first asked for less than 60000 ms ago: the
   * timeout is set 30000 ms ahead and then has to be 30000 ms past.
   */
  lemma SweepBound(us: Key, run: seq<Op>, now: nat, k: Key)
    requires Legal(us, run)
    ensures var h := ExpireAll(After(us, run), now);
      Waiters(h, k) != [] ==> k in h.firstAsked && now < h.firstAsked[k] + 60000
    ensures var h := After(us, run);
      Waiters(h, k) != [] && k in h.firstAsked && now >= h.firstAsked[k] + 60000 ==> Waiters(ExpireAll(h, now), k) == []
  {
    RunAgrees(us, run);
    assert TargetOk(After(us, run), k);
  }

  /** A reply to a found value reaches every waiter of its target, with all it can validate. */
  lemma FoundReachesAll(us: Key, run: seq<Op>, key: Key, values: seq<nat>, valid: nat -> bool, o: Owner)
    requires Legal(us, run) && o in After(us, run).tx
    ensures var h, h' := After(us, run), Answer(After(us, run), {key}, values, valid);
      if h.tx[o].target == key then
        o !in h'.tx && Replies(h', o) == [h.tx[o].found + Valid(valid, values)]
      else
        o in h'.tx && h'.tx[o] == h.tx[o] && Replies(h', o) == []
  {
    RunAgrees(us, run);
    var h := After(us, run);
    assert OwnerOk(h, o);
    GoneIs(h, {key}, o);
    AnswerOwner(h, {key}, values, valid, o);
  }

  /** A transaction keeps a value as often as it was found, if it can validate it, and not otherwise. */
  lemma {:induction false} ValidCounts(valid: nat -> bool, values: seq<nat>, v: nat)
    ensures multiset(Valid(valid, values))[v] == if valid(v) then multiset(values)[v] else 0
  {
    if values != [] {
      var init, last := values[..|values| - 1], values[|values| - 1];
      ValidCounts(valid, init, v);
      assert values == init + [last];
    }
  }

  /** The values kept of two replies are those kept of the first and then those kept of the second. */
  lemma {:induction false} ValidOrder(valid: nat -> bool, a: seq<nat>, b: seq<nat>)
    ensures Valid(valid, a + b) == Valid(valid, a) + Valid(valid, b)
  {
    if b == [] {
      assert a + b == a;
    } else {
      var init, last := b[..|b| - 1], b[|b| - 1];
      ValidOrder(valid, a, init);
      assert (a + b)[..|a + b| - 1] == a + init;
    }
  }

  // ---------------------------------------------------------------- rounds in the run

  /** Somebody has been waiting for the target since operation j, and nobody before it. */
  ghost predicate WaitingSince(us: Key, run: seq<Op>, k: Key, j: nat) {
    && j < |run| && !WaitedAt(us, run, k, j)
    && forall i: nat :: j < i <= |run| ==> WaitedAt(us, run, k, i)
  }

  ghost predicate WaitedAt(us: Key, run: seq<Op>, k: Key, i: nat)
    requires i <= |run|
  {
    Waiters(After(us, run[..i]), k) != []
  }

  lemma WaitedBefore(us: Key, run: seq<Op>, k: Key, i: nat)
    requires i < |run|
    ensures WaitedAt(us, run[..|run| - 1], k, i) == WaitedAt(us, run, k, i)
  {
    assert run[..|run| - 1][..i] == run[..i];
  }

  lemma WaitedNow(us: Key, run: seq<Op>, k: Key)
    ensures WaitedAt(us, run, k, |run|) <==> Waiters(After(us, run), k) != []
  {
    assert run[..|run|] == run;
  }

  lemma StillWaiting(us: Key, run: seq<Op>, k: Key, j: nat)
    requires run != [] && WaitingSince(us, run[..|run| - 1], k, j) && WaitedAt(us, run, k, |run|)
    ensures WaitingSince(us, run, k, j)
  {
    WaitedBefore(us, run, k, j);
    forall i: nat | j < i <= |run|
      ensures WaitedAt(us, run, k, i)
    {
      WaitedOn(us, run, k, j, i);
    }
  }

  lemma WaitedOn(us: Key, run: seq<Op>, k: Key, j: nat, i: nat)
    requires run != [] && WaitingSince(us, run[..|run| - 1], k, j) && WaitedAt(us, run, k, |run|) && j < i <= |run|
    ensures WaitedAt(us, run, k, i)
  {
    if i < |run| {
      assert WaitedAt(us, run[..|run| - 1], k, i);
      WaitedBefore(us, run, k, i);
    }
  }

  lemma HasWaiter(h: Holder, o: Owner)
    requires Agree(h) && o in h.tx
    ensures Waiters(h, h.tx[o].target) != []
  {
    assert TargetOk(h, h.tx[o].target);
    assert o in Waiters(h, h.tx[o].target);
  }

  lemma RoundOpens(us: Key, h: Holder, op: Op, k: Key)
    requires Agree(h) && Waiters(h, k) == [] && Waiters(Do(us, h, op), k) != []
    ensures op.New? && op.l.target == k
    ensures k in Do(us, h, op).firstAsked && Do(us, h, op).firstAsked[k] == op.now
  {
    if op.NotFound? && op.from in h.tx {
      HasWaiter(h, op.from);
    }
  }

  lemma RoundGoesOn(us: Key, h: Holder, op: Op, k: Key)
    requires Agree(h) && Waiters(h, k) != [] && k in h.firstAsked
    ensures k in Do(us, h, op).firstAsked && Do(us, h, op).firstAsked[k] == h.firstAsked[k]
  {
  }

  /** The time noted for the current round of a target. */
  ghost predicate AskedAt(us: Key, run: seq<Op>, k: Key, at: nat) {
    var h := After(us, run);
    k in h.firstAsked && h.firstAsked[k] == at
  }

  lemma RoundStep(us: Key, run: seq<Op>, k: Key, at: nat)
    requires Legal(us, run) && run != [] && WaitedAt(us, run, k, |run|)
    ensures !WaitedAt(us, run, k, |run| - 1) ==>
      run[|run| - 1].New? && run[|run| - 1].l.target == k && AskedAt(us, run, k, run[|run| - 1].now)
    ensures WaitedAt(us, run, k, |run| - 1) && AskedAt(us, run[..|run| - 1], k, at) ==> AskedAt(us, run, k, at)
  {
    var init, last := run[..|run| - 1], run[|run| - 1];
    RunAgrees(us, init);
    WaitedNow(us, run, k);
    if WaitedAt(us, run, k, |run| - 1) {
      if AskedAt(us, init, k, at) {
        RoundGoesOn(us, After(us, init), last, k);
      }
    } else {
      RoundOpens(us, After(us, init), last, k);
    }
  }

  /** Every round was opened by a new transaction for the target, at the time noted. */
  lemma {:induction false} RoundBegins(us: Key, run: seq<Op>, k: Key) returns (j: nat)
    requires Legal(us, run) && WaitedAt(us, run, k, |run|)
    ensures WaitingSince(us, run, k, j) && run[j].New? && run[j].l.target == k && AskedAt(us, run, k, run[j].now)
  {
    if run == [] {
      assert false;
    } else if WaitedAt(us, run, k, |run| - 1) {
      WaitedBefore(us, run, k, |run| - 1);
      j := RoundBegins(us, run[..|run| - 1], k);
      RoundStep(us, run, k, run[j].now);
      StillWaiting(us, run, k, j);
    } else {
      j := |run| - 1;
      RoundStep(us, run, k, 0);
    }
  }

  /**
   * A sweep ends the wait for a target exactly when the transaction that began it is 60000 ms
   * old, however many joined since, and changes nothing about it before that.
   */
  lemma SweepExact(us: Key, run: seq<Op>, k: Key, j: nat, now: nat)
    requires Legal(us, run) && WaitingSince(us, run, k, j)
    ensures run[j].New? && run[j].l.target == k
    ensures Waiters(ExpireAll(After(us, run), now), k) ==
      if now >= run[j].now + 60000 then [] else Waiters(After(us, run), k)
  {
    WaitedNow(us, run, k);
    assert WaitedAt(us, run, k, |run|);
    var i := RoundBegins(us, run, k);
    assert i == j;
    RunAgrees(us, run);
    assert TargetOk(After(us, run), k);
  }

  /** What a transaction is told by an operation that ends the wait for some targets. */
  ghost predicate ToldIf(h: Holder, h': Holder, o: Owner, ended: bool)
    requires o in h.tx
  {
    if ended then o !in h'.tx && Replies(h', o) == [h.tx[o].found]
    else o in h'.tx && h'.tx[o] == h.tx[o] && Replies(h', o) == []
  }

  /** A sweep tells exactly the transactions of overdue targets what they have found. */
  lemma SweepTells(us: Key, run: seq<Op>, now: nat, o: Owner, j: nat)
    requires Legal(us, run) && o in After(us, run).tx && WaitingSince(us, run, After(us, run).tx[o].target, j)
    ensures run[j].New? && ToldIf(After(us, run), ExpireAll(After(us, run), now), o, now >= run[j].now + 60000)
  {
    var h := After(us, run);
    var k := h.tx[o].target;
    SweepExact(us, run, k, j, now);
    RunAgrees(us, run);
    AnswerAgrees(h, Expired(h, now), [], _ => true);
    assert TargetOk(h, k) && TargetOk(ExpireAll(h, now), k) && OwnerOk(h, o);
    GoneIs(h, Expired(h, now), o);
    EmptyAnswer(h, Expired(h, now), o);
  }

  /** An answer without values: a transaction of one of the targets replies with what it has found. */
  lemma EmptyAnswer(h: Holder, keys: set<Key>, o: Owner)
    requires Agree(h) && o in h.tx
    ensures ToldIf(h, Answer(h, keys, [], _ => true), o, h.tx[o].target in keys)
  {
    GoneIs(h, keys, o);
    assert OwnerOk(h, o);
    var h' := Answer(h, keys, [], _ => true);
    assert h.tx[o].found + [] == h.tx[o].found;
    if h.tx[o].target in keys {
      assert o in Gone(h, keys);
    } else {
      assert o !in Gone(h, keys);
    }
  }

  /** When a lookup finds nothing and has nobody left to ask, all who wait for its target are told. */
  lemma MissTells(us: Key, run: seq<Op>, from: Owner, nodes: set<Key>, txid: nat, now: nat, o: Owner)
    requires Legal(us, run) && from in After(us, run).tx && o in After(us, run).tx && o != from
    requires var l := After(us, run).tx[from]; AskNext(l.target, l.asked, nodes, from.node, None).peer == None
    ensures var h := After(us, run);
      ToldIf(h, Miss(h, us, from, None, nodes, txid, now), o, h.tx[o].target == h.tx[from].target)
    ensures var h := After(us, run);
      var h' := Miss(h, us, from, None, nodes, txid, now);
      from !in h'.tx && Replies(h', from) == [h.tx[from].found] && Waiters(h', h.tx[from].target) == []
  {
    RunAgrees(us, run);
    var h := After(us, run);
    var l := h.tx[from];
    var asked := AskNext(l.target, l.asked, nodes, from.node, None).asked;
    TouchAgrees(h, from, asked);
    var h1 := h.(tx := h.tx[from := l.(asked := asked)]);
    EmptyAnswer(h1, {l.target}, o);
    EmptyAnswer(h1, {l.target}, from);
  }

  /**
   * When there is another peer to ask, a further transaction for the same target joins the
   * waiters, which knows only us as asked; the failed and the chosen peer are noted in the
   * old one, and nobody is told anything.
   */
  lemma MissAsks(
    us: Key, run: seq<Op>, from: Owner, suggested: Option<Key>, nodes: set<Key>, txid: nat, now: nat, p: Key)
    requires Legal(us, run) && from in After(us, run).tx && forall o :: o in After(us, run).issued ==> o.txid != txid
    requires var l := After(us, run).tx[from]; AskNext(l.target, l.asked, nodes, from.node, suggested).peer == Some(p)
    ensures var h := After(us, run);
      var l, h' := h.tx[from], Miss(h, us, from, suggested, nodes, txid, now);
      && h'.tx == h.tx[from := l.(asked := l.asked + {from.node, p})][Owner(p, txid) := Lookup(l.target, {us}, [])]
      && Waiters(h', l.target) == Waiters(h, l.target) + [Owner(p, txid)]
      && h'.replies == h.replies && h'.starts == h.starts && h'.timeouts == h.timeouts
  {
    RunAgrees(us, run);
    var h := After(us, run);
    var l := h.tx[from];
    RetryNotStarted(us, run, from, suggested, nodes, txid, now);
    var r := AskNext(l.target, l.asked, nodes, from.node, suggested);
    AskNextExact(l.target, l.asked, nodes, from.node, suggested, r);
    assert r.asked == l.asked + {from.node, p};
    assert OwnerOk(h, Owner(p, txid)) && TargetOk(h, l.target);
    assert from in Waiters(h, l.target);
  }

  /** Registering an owner that has a transaction keeps that transaction; only the waiter is added. */
  lemma RegisteredTwice(h: Holder, o: Owner, l: Lookup, now: nat)
    requires o in h.tx
    ensures NewTx(h, o, l, now).tx == h.tx && Waiters(NewTx(h, o, l, now), l.target) == Waiters(h, l.target) + [o]
  {
  }

  // ---------------------------------------------------------------- the tables in place

  lemma MoreReplies(replies: map<Owner, seq<seq<nat>>>, tx: map<Owner, Lookup>, a: set<Owner>, b: set<Owner>,
                    values: seq<nat>, valid: nat -> bool)
    requires a <= tx.Keys && b <= tx.Keys && a !! b
    ensures AddReplies(AddReplies(replies, tx, a, values, valid), tx - a, b, values, valid)
         == AddReplies(replies, tx, a + b, values, valid)
  {
  }

  lemma OneMoreReply(replies: map<Owner, seq<seq<nat>>>, tx: map<Owner, Lookup>, told: set<Owner>, o: Owner,
                     values: seq<nat>, valid: nat -> bool)
    requires told <= tx.Keys && o in tx && o !in told
    ensures var r := AddReplies(replies, tx, told, values, valid);
      AddReplies(replies, tx, told + {o}, values, valid)
        == r[o := RepliesTo(r, o) + [tx[o].found + Valid(valid, values)]]
  {
  }

  lemma MoreRounds(rounds: map<Key, nat>, a: set<Key>, b: set<Key>)
    requires a !! b
    ensures AddRounds(AddRounds(rounds, a), b) == AddRounds(rounds, a + b)
  {
  }

  lemma MoreGone(h: Holder, keys: set<Key>, k: Key, valid: nat -> bool)
    requires Agree(h) && k !in keys
    ensures var rest := Gone(Answer(h, keys, [], valid), {k});
      Gone(h, keys) !! rest && rest <= h.tx.Keys && Gone(h, keys) + rest == Gone(h, keys + {k})
  {
    var h1 := Answer(h, keys, [], valid);
    AnswerAgrees(h, keys, [], valid);
    forall o
      ensures o in Gone(h1, {k}) <==> o in h.tx && h.tx[o].target == k
      ensures o in Gone(h, keys) <==> o in h.tx && h.tx[o].target in keys
      ensures o in Gone(h, keys + {k}) <==> o in h.tx && h.tx[o].target in keys + {k}
    {
      GoneIs(h, keys, o);
      GoneIs(h, keys + {k}, o);
      GoneIs(h1, {k}, o);
    }
  }

  /** Answering one more target after some others is answering them together. */
  lemma AnswerMore(h: Holder, keys: set<Key>, k: Key, valid: nat -> bool)
    requires Agree(h) && k !in keys
    ensures Answer(Answer(h, keys, [], valid), {k}, [], valid) == Answer(h, keys + {k}, [], valid)
  {
    var h1 := Answer(h, keys, [], valid);
    var rest := Gone(h1, {k});
    MoreGone(h, keys, k, valid);
    MoreReplies(h.replies, h.tx, Gone(h, keys), rest, [], valid);
    MoreRounds(h.rounds, keys * h.waiting.Keys, {k} * h1.waiting.Keys);
    assert (keys + {k}) * h.waiting.Keys == keys * h.waiting.Keys + {k} * h1.waiting.Keys;
    MinusTwice(h.tx, Gone(h, keys), rest);
    MinusTwice(h.waiting, keys, {k});
    MinusTwice(h.timeouts, keys, {k});
  }

  lemma MinusTwice<K, V>(m: map<K, V>, a: set<K>, b: set<K>)
    ensures m - a - b == m - (a + b)
  {
  }

  lemma AnswerNone(h: Holder, valid: nat -> bool)
    ensures Answer(h, {}, [], valid) == h
  {
    var h' := Answer(h, {}, [], valid);
    assert Gone(h, {}) == {} && {} * h.waiting.Keys == {};
    assert h'.tx == h.tx && h'.replies == h.replies && h'.rounds == h.rounds;
    assert h'.waiting == h.waiting && h'.timeouts == h.timeouts;
  }

  lemma GoneAll(h: Holder, k: Key)
    requires Agree(h)
    ensures NoDup(Waiters(h, k)) && (forall o :: o in Waiters(h, k) ==> o in h.tx)
    ensures Gone(h, {k}) == set o | o in Waiters(h, k)
  {
    assert TargetOk(h, k);
  }

  /** The tables when the sweep has still to look at some targets. */
  function SweepUpTo(h: Holder, now: nat, todo: set<Key>): (h': Holder) {
    Answer(h, Expired(h, now) - todo, [], _ => true)
  }

  lemma SweepStart(h: Holder, now: nat)
    ensures SweepUpTo(h, now, h.timeouts.Keys) == h
  {
    assert Expired(h, now) - h.timeouts.Keys == {};
    AnswerNone(h, _ => true);
  }

  lemma SweepStep(h: Holder, now: nat, todo: set<Key>, k: Key)
    requires Agree(h) && k in todo && todo <= h.timeouts.Keys
    ensures var cur := SweepUpTo(h, now, todo);
      && Agree(cur) && k in cur.timeouts && cur.timeouts[k] == h.timeouts[k]
      && SweepUpTo(h, now, todo - {k}) == if k in Expired(h, now) then Answer(cur, {k}, [], _ => true) else cur
  {
    var done := Expired(h, now) - todo;
    AnswerAgrees(h, done, [], _ => true);
    if k in Expired(h, now) {
      AnswerMore(h, done, k, _ => true);
      assert Expired(h, now) - (todo - {k}) == done + {k};
    } else {
      assert Expired(h, now) - (todo - {k}) == done;
    }
  }

  /** The pending transactions of one kind of lookup. */
  class TXHolder {
    var waiting: map<Key, seq<Owner>>
    var timeouts: map<Key, nat>
    var tx: map<Owner, Lookup>
    ghost var issued: set<Owner>
    ghost var replies: map<Owner, seq<seq<nat>>>
    ghost var starts: map<Key, nat>
    ghost var rounds: map<Key, nat>
    ghost var firstAsked: map<Key, nat>

    ghost function View(): (h: Holder)
      reads this
    {
      Holder(waiting, timeouts, tx, issued, replies, starts, rounds, firstAsked)
    }

    constructor ()
      ensures View() == EMPTY
    {
      waiting, timeouts, tx, issued := map[], map[], map[], {};
      replies, starts, rounds, firstAsked := map[], map[], map[], map[];
    }

    /** One more waiter of a target, and whether it is the first. */
    method Enlist(o: Owner, k: Key) returns (first: bool)
      modifies `waiting
      ensures waiting == old(waiting)[k := Waiters(old(View()), k) + [o]]
      ensures first <==> Waiters(old(View()), k) == []
    {
      var others := if k in waiting then waiting[k] else [];
      waiting := waiting[k := others + [o]];
      first := others == [];
    }

    /** NewTX: the caller sends the request exactly when start is returned. */
    method NewTX(askpeer: Owner, t: Lookup, now: nat) returns (start: bool)
      modifies this
      ensures View() == NewTx(old(View()), askpeer, t, now)
      ensures start <==> Waiters(old(View()), t.target) == []
    {
      if askpeer !in tx {
        tx := tx[askpeer := t];
      }
      issued := issued + {askpeer};
      start := Enlist(askpeer, t.target);
      if t.target !in timeouts {
        timeouts := timeouts[t.target := now + REQUEST_TIMEOUT];
      }
      if start {
        starts := starts[t.target := Count(starts, t.target) + 1];
        firstAsked := firstAsked[t.target := now];
      }
    }

    /** The values of a reply that a transaction accepts, in their order. */
    static method OnFound(t: Lookup, values: seq<nat>, valid: nat -> bool) returns (t': Lookup)
      ensures t' == t.(found := t.found + Valid(valid, values))
    {
      t' := t;
      for i := 0 to |values|
        invariant t' == t.(found := t.found + Valid(valid, values[..i]))
      {
        assert values[..i + 1][..i] == values[..i];
        if valid(values[i]) {
          t' := t'.(found := t'.found + [values[i]]);
        }
      }
      assert values[..|values|] == values;
    }

    /** Each waiter in turn takes the values it accepts, replies and is erased. */
    method Tell(told: seq<Owner>, values: seq<nat>, valid: nat -> bool)
      requires NoDup(told) && forall o :: o in told ==> o in tx
      modifies `tx, `replies
      ensures var all := set o | o in told;
        tx == old(tx) - all && replies == AddReplies(old(replies), old(tx), all, values, valid)
    {
      ghost var done: set<Owner> := {};
      for i := 0 to |told|
        invariant done == (set o | o in told[..i]) && done <= old(tx).Keys
        invariant tx == old(tx) - done
        invariant replies == AddReplies(old(replies), old(tx), done, values, valid)
      {
        var o := told[i];
        assert o in told && o !in told[..i];
        OneMoreReply(old(replies), old(tx), done, o, values, valid);
        var t := OnFound(tx[o], values, valid);
        replies := replies[o := RepliesTo(replies, o) + [t.found]];
        tx := tx - {o};
        done := done + {o};
      }
      assert told[..|told|] == told;
    }

    /** All waiters of a target told and forgotten, its timeout left. */
    method Settle(key: Key, values: seq<nat>, valid: nat -> bool)
      requires Agree(View())
      modifies `tx, `replies, `rounds, `waiting
      ensures var h := Answer(old(View()), {key}, values, valid);
        tx == h.tx && replies == h.replies && rounds == h.rounds && waiting == h.waiting
    {
      GoneAll(View(), key);
      Tell(if key in waiting then waiting[key] else [], values, valid);
      rounds := AddRounds(rounds, {key} * waiting.Keys);
      waiting := waiting - {key};
    }

    /** Inform, replying: every waiter of the target is told what was found and forgotten. */
    method Inform(key: Key, values: seq<nat>, valid: nat -> bool, removeTimeouts: bool)
      requires Agree(View())
      modifies this
      ensures var h := Answer(old(View()), {key}, values, valid);
        View() == if removeTimeouts then h else h.(timeouts := old(timeouts))
    {
      Settle(key, values, valid);
      if removeTimeouts {
        timeouts := timeouts - {key};
      }
    }

    /** NotFound: start is set when a further request is to be sent to the returned peer. */
    method NotFound(us: Key, from: Owner, suggested: Option<Key>, nodes: set<Key>, txid: nat, now: nat)
      returns (next: Option<Key>, start: bool)
      requires Agree(View()) && forall o :: o in issued ==> o.txid != txid
      modifies this
      ensures View() == Miss(old(View()), us, from, suggested, nodes, txid, now)
      ensures Agree(View()) && !start
      ensures if from !in old(tx) then next == None else var l := old(tx)[from];
        next == AskNext(l.target, l.asked, nodes, from.node, suggested).peer
    {
      ghost var h := View();
      MissAgrees(h, us, from, suggested, nodes, txid, now);
      next, start := None, false;
      if from in tx {
        var t := tx[from];
        var tried := t.asked + {from.node};
        match suggested {
          case Some(p) =>
            next := suggested;
          case None =>
            var found, p := FindCloseExcluding(nodes, t.target, tried);
            if found {
              NearestUnique(t.target, Candidates(nodes, t.target, tried), p, Nearest(nodes, t.target, tried).value);
              if !Less(Xor(from.node, t.target), Xor(p, t.target)) {
                next := Some(p);
              }
            }
        }
        var asked := if next.Some? then tried + {next.value} else tried;
        assert AskNext(t.target, t.asked, nodes, from.node, suggested) == Retry(asked, next);
        TouchAgrees(h, from, asked);
        assert TargetOk(h, t.target);
        tx := tx[from := t.(asked := asked)];
        match next {
          case Some(p) =>
            start := NewTX(Owner(p, txid), Lookup(t.target, {us}, []), now);
          case None =>
            Inform(t.target, [], _ => true, true);
        }
      }
    }

    /** Answer one target and erase its timeout. */
    method ExpireOne(k: Key, valid: nat -> bool)
      requires Agree(View())
      modifies this
      ensures View() == Answer(old(View()), {k}, [], valid) && Agree(View())
    {
      AnswerAgrees(View(), {k}, [], valid);
      Inform(k, [], valid, false);
      timeouts := timeouts - {k};
    }

    /** Expire: overdue targets are answered with what was found so far. */
    method Expire(now: nat)
      requires Agree(View())
      modifies this
      ensures View() == ExpireAll(old(View()), now)
    {
      ghost var h := View();
      var todo := timeouts.Keys;
      SweepStart(h, now);
      while todo != {}
        invariant todo <= h.timeouts.Keys && View() == SweepUpTo(h, now, todo)
        decreases |todo|
      {
        var k :| k in todo;
        SweepStep(h, now, todo, k);
        todo := todo - {k};
        if now > timeouts[k] && now - timeouts[k] >= REQUEST_TIMEOUT {
          ExpireOne(k, _ => true);
        }
      }
      assert Expired(h, now) - todo == Expired(h, now);
    }
  }
}
