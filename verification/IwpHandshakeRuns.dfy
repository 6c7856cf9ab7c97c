/**
 * What a ready session proves about the packets it was sent: in every run each phase of the
 * handshake was entered by exactly the packet that entitles to it, and two honest ends can
 * always complete it.
 */
module IwpHandshakeRuns {
  import opened Bytes
  import opened IwpHandshake

  // ---------------------------------------------------------------- sealed packets

  /** A packet is the sealing of a text under a key. */
  ghost predicate Sealing(c: Crypto, key: Octets, pkt: Octets, plain: Octets) {
    plain != [] && exists nonce :: |nonce| == NONCE_SIZE && pkt == Seal(c, key, nonce, plain)
  }

  /** A packet opens to a text exactly when it was made by sealing that text under the key. */
  lemma OpenExact(c: Crypto, key: Octets, pkt: Octets, plain: Octets)
    requires Laws(c)
    ensures Open(c, key, pkt) == Some(plain) <==> Sealing(c, key, pkt, plain)
  {
    if Open(c, key, pkt) == Some(plain) {
      Resealed(c, key, pkt, plain);
    }
    if Sealing(c, key, pkt, plain) {
      var nonce :| |nonce| == NONCE_SIZE && pkt == Seal(c, key, nonce, plain);
      Reopened(c, key, nonce, plain);
    }
  }

  /** The octets of a sealed packet: the keyed hash of all that follows, the nonce, the enciphered text. */
  lemma SealLayout(c: Crypto, key: Octets, nonce: Octets, plain: Octets)
    requires Laws(c) && |nonce| == 32
    ensures var pkt := Seal(c, key, nonce, plain);
      && |pkt| == 64 + |plain| && pkt[..32] == c.hmac(key, pkt[32..])
      && pkt[32..64] == nonce && pkt[64..] == c.cipher(key, nonce, plain)
  {
    var body := nonce + c.cipher(key, nonce, plain);
    assert |c.hmac(key, body)| == 32 && |c.cipher(key, nonce, plain)| == |plain|;
    assert Seal(c, key, nonce, plain)[32..] == body;
  }

  lemma Resealed(c: Crypto, key: Octets, pkt: Octets, plain: Octets)
    requires Laws(c) && Open(c, key, pkt) == Some(plain)
    ensures Sealing(c, key, pkt, plain)
  {
    var body := pkt[HMAC_SIZE..];
    var nonce, text := body[..NONCE_SIZE], body[NONCE_SIZE..];
    assert plain == c.cipher(key, nonce, text) && c.cipher(key, nonce, plain) == text && |plain| == |text|;
    assert body == nonce + text && pkt == pkt[..HMAC_SIZE] + body;
    assert |nonce| == NONCE_SIZE && pkt == Seal(c, key, nonce, plain);
  }

  lemma Reopened(c: Crypto, key: Octets, nonce: Octets, plain: Octets)
    requires Laws(c) && |nonce| == NONCE_SIZE && plain != []
    ensures Open(c, key, Seal(c, key, nonce, plain)) == Some(plain)
  {
    var body := nonce + c.cipher(key, nonce, plain);
    var pkt := c.hmac(key, body) + body;
    assert |c.hmac(key, body)| == HMAC_SIZE;
    assert pkt[..HMAC_SIZE] == c.hmac(key, body) && pkt[HMAC_SIZE..] == body;
    assert body[..NONCE_SIZE] == nonce && body[NONCE_SIZE..] == c.cipher(key, nonce, plain);
  }

  // ---------------------------------------------------------------- every run of an inbound session

  /**
   * An introduction sealed under the hash of our identity whose signature verifies; the
   * session takes over its identity and the key exchanged with its encryption key and nonce.
   */
  ghost predicate Introduces(c: Crypto, cfg: Config, a: HsAction, plain: Octets, shared: Octets, s: Hs) {
    && a.Packet? && Sealing(c, c.hash(cfg.identity), a.pkt, plain) && |plain| >= 160
    && c.verify(plain[..32], plain[..96], plain[96..160]) && s.expected == plain[..32]
    && c.mult(cfg.transportSk, plain[32..64]) == Some(shared)
    && s.key == c.keyed(plain[64..96], c.mix(plain[32..64], c.toPublic(cfg.transportSk), shared))
  }

  ghost predicate Introduced(c: Crypto, cfg: Config, a: HsAction, s: Hs) {
    exists plain, shared :: Introduces(c, cfg, a, plain, shared, s)
  }

  /** A packet sealed under the session key that begins with the session's token. */
  ghost predicate ReturnsToken(c: Crypto, a: HsAction, s: Hs) {
    && a.Packet?
    && exists plain :: Sealing(c, s.key, a.pkt, plain) && |plain| >= TOKEN_SIZE && plain[..TOKEN_SIZE] == s.token
  }

  ghost predicate HadIntro(c: Crypto, cfg: Config, run: seq<HsAction>, s: Hs) {
    exists i :: 0 <= i < |run| && Introduced(c, cfg, run[i], s)
  }

  /** The token came back after the introduction. */
  ghost predicate HadToken(c: Crypto, cfg: Config, run: seq<HsAction>, s: Hs) {
    exists i: nat :: i < |run| && TokenAt(c, cfg, run, s, i)
  }

  ghost predicate TokenAt(c: Crypto, cfg: Config, run: seq<HsAction>, s: Hs, i: nat)
    requires i < |run|
  {
    ReturnsToken(c, run[i], s) && HadIntro(c, cfg, run[..i], s)
  }

  /** The introduced identity's link introduction came after the token. */
  ghost predicate HadLim(c: Crypto, cfg: Config, run: seq<HsAction>, s: Hs) {
    exists i: nat :: i < |run| && LimAt(c, cfg, run, s, i)
  }

  ghost predicate LimAt(c: Crypto, cfg: Config, run: seq<HsAction>, s: Hs, i: nat)
    requires i < |run|
  {
    run[i] == Lim(s.expected) && HadToken(c, cfg, run[..i], s)
  }

  /** What an inbound session was sent before it got where it is. */
  ghost predicate Entitled(c: Crypto, cfg: Config, run: seq<HsAction>, s: Hs) {
    && (s.state == Introduction ==> HadIntro(c, cfg, run, s))
    && (s.state == LinkIntro ==> HadToken(c, cfg, run, s))
    && (s.state == Ready ==> HadLim(c, cfg, run, s))
  }

  /** Before the first phase the key is the hash of our identity; the token never changes. */
  ghost predicate Waiting(c: Crypto, cfg: Config, token: Octets, s: Hs) {
    && s.inbound && s.token == token && (Rank(s.state) == 0 ==> s.key == c.hash(cfg.identity))
  }

  /** What one action does to an inbound session that is not closed. */
  ghost predicate Advance(c: Crypto, cfg: Config, a: HsAction, s: Hs, s': Hs) {
    || (Rank(s'.state) == Rank(s.state) && (Rank(s.state) > 0 ==> s'.key == s.key && s'.expected == s.expected))
    || (Rank(s.state) == 0 && Rank(s'.state) == 1 && Introduced(c, cfg, a, s'))
    || (&& Rank(s.state) == 1 && Rank(s'.state) == 2
        && s'.key == s.key && s'.expected == s.expected && ReturnsToken(c, a, s'))
    || (&& Rank(s.state) == 2 && Rank(s'.state) == 3
        && s'.key == s.key && s'.expected == s.expected && a == Lim(s'.expected))
  }

  lemma IntroAdvances(c: Crypto, cfg: Config, token: Octets, s: Hs, a: HsAction)
    requires Laws(c) && Waiting(c, cfg, token, s) && s.state == Initial && a.Packet?
    ensures Advance(c, cfg, a, s, Recv(c, cfg, s, a.pkt, a.packetNonce).s)
    ensures Waiting(c, cfg, token, Recv(c, cfg, s, a.pkt, a.packetNonce).s)
  {
    var s' := Recv(c, cfg, s, a.pkt, a.packetNonce).s;
    if s'.state != Initial {
      var plain := Open(c, s.key, a.pkt).value;
      OpenExact(c, s.key, a.pkt, plain);
      var shared := c.mult(cfg.transportSk, plain[32..64]).value;
      assert Introduces(c, cfg, a, plain, shared, s');
    }
  }

  lemma TokenAdvances(c: Crypto, cfg: Config, token: Octets, s: Hs, a: HsAction)
    requires Laws(c) && Waiting(c, cfg, token, s) && s.state == Introduction && a.Packet?
    ensures Advance(c, cfg, a, s, Recv(c, cfg, s, a.pkt, a.packetNonce).s)
    ensures Waiting(c, cfg, token, Recv(c, cfg, s, a.pkt, a.packetNonce).s)
  {
    var s' := Recv(c, cfg, s, a.pkt, a.packetNonce).s;
    if s'.state != Introduction {
      var plain := Open(c, s.key, a.pkt).value;
      OpenExact(c, s.key, a.pkt, plain);
    }
  }

  lemma InboundAdvances(c: Crypto, cfg: Config, token: Octets, s: Hs, a: HsAction)
    requires Laws(c) && SessionOk(cfg, s) && Waiting(c, cfg, token, s) && May(s, a)
    requires !s.closeCalled && !Do(c, cfg, s, a).s.closeCalled
    ensures Advance(c, cfg, a, s, Do(c, cfg, s, a).s) && Waiting(c, cfg, token, Do(c, cfg, s, a).s)
  {
    if a.Packet? && s.state == Initial {
      IntroAdvances(c, cfg, token, s, a);
    } else if a.Packet? && s.state == Introduction {
      TokenAdvances(c, cfg, token, s, a);
    }
  }

  predicate SameKey(s: Hs, s': Hs) {
    s'.key == s.key && s'.expected == s.expected && s'.token == s.token
  }

  lemma IntroStays(c: Crypto, cfg: Config, run: seq<HsAction>, more: seq<HsAction>, s: Hs, s': Hs)
    requires HadIntro(c, cfg, run, s) && run <= more && SameKey(s, s')
    ensures HadIntro(c, cfg, more, s')
  {
    var i :| 0 <= i < |run| && Introduced(c, cfg, run[i], s);
    IntroducedSame(c, cfg, more[i], s, s');
  }

  lemma TokenStays(c: Crypto, cfg: Config, run: seq<HsAction>, more: seq<HsAction>, s: Hs, s': Hs)
    requires HadToken(c, cfg, run, s) && run <= more && SameKey(s, s')
    ensures HadToken(c, cfg, more, s')
  {
    var i: nat :| i < |run| && TokenAt(c, cfg, run, s, i);
    assert run[..i] == more[..i];
    IntroStays(c, cfg, run[..i], more[..i], s, s');
    assert TokenAt(c, cfg, more, s', i);
  }

  lemma LimStays(c: Crypto, cfg: Config, run: seq<HsAction>, more: seq<HsAction>, s: Hs, s': Hs)
    requires HadLim(c, cfg, run, s) && run <= more && SameKey(s, s')
    ensures HadLim(c, cfg, more, s')
  {
    var i: nat :| i < |run| && LimAt(c, cfg, run, s, i);
    assert run[..i] == more[..i];
    TokenStays(c, cfg, run[..i], more[..i], s, s');
    assert LimAt(c, cfg, more, s', i);
  }

  lemma EntitledStep(c: Crypto, cfg: Config, run: seq<HsAction>, s: Hs, s': Hs)
    requires run != [] && Entitled(c, cfg, run[..|run| - 1], s) && s.token == s'.token
    requires Advance(c, cfg, run[|run| - 1], s, s') && Rank(s'.state) <= 3
    ensures Entitled(c, cfg, run, s')
  {
    var init := run[..|run| - 1];
    match s.state
    case Introduction =>
      IntroStays(c, cfg, init, init, s, s');
      IntroStays(c, cfg, init, run, s, s');
      assert s'.state == LinkIntro ==> TokenAt(c, cfg, run, s', |run| - 1);
    case LinkIntro =>
      TokenStays(c, cfg, init, init, s, s');
      TokenStays(c, cfg, init, run, s, s');
      assert s'.state == Ready ==> LimAt(c, cfg, run, s', |run| - 1);
    case Ready => LimStays(c, cfg, init, run, s, s');
    case _ =>
  }

  lemma IntroducedSame(c: Crypto, cfg: Config, a: HsAction, s: Hs, s': Hs)
    requires Introduced(c, cfg, a, s) && s'.key == s.key && s'.expected == s.expected
    ensures Introduced(c, cfg, a, s')
  {
    var plain, shared :| Introduces(c, cfg, a, plain, shared, s);
    assert Introduces(c, cfg, a, plain, shared, s');
  }

  /**
   * In every run of an inbound session, whatever it is sent: until it is closed it is past
   * the introduction only if it was sent a signed one, in LinkIntro only if it was then sent
   * its token back under the exchanged key, and ready only if the introduced identity's link
   * introduction came after that.
   */
  lemma {:induction false} InboundEntitled(c: Crypto, cfg: Config, token: Octets, run: seq<HsAction>)
    requires Laws(c) && HsAfter(c, cfg, NewInbound(c, cfg, token), run).Some?
    ensures var s := HsAfter(c, cfg, NewInbound(c, cfg, token), run).value;
      !s.closeCalled ==> Entitled(c, cfg, run, s) && Waiting(c, cfg, token, s) && s.state != Closed
  {
    var start := NewInbound(c, cfg, token);
    var s' := HsAfter(c, cfg, start, run).value;
    RunKeeps(c, cfg, start, run);
    if run != [] && !s'.closeCalled {
      var init := run[..|run| - 1];
      var s := HsAfter(c, cfg, start, init).value;
      RunKeeps(c, cfg, start, init);
      InboundEntitled(c, cfg, token, init);
      DoKeeps(c, cfg, s, run[|run| - 1]);
      InboundAdvances(c, cfg, token, s, run[|run| - 1]);
      EntitledStep(c, cfg, run, s, s');
    }
  }

  /**
   * An inbound session waiting for its token moves on exactly for a packet sealed under its
   * key that begins with the token; nothing else of it changes, and nothing is sent.
   */
  lemma TokenExact(c: Crypto, cfg: Config, s: Hs, pkt: Octets, nonce: Octets)
    requires Laws(c) && s.inbound && s.state == Introduction && |s.token| == TOKEN_SIZE
    ensures var e := Recv(c, cfg, s, pkt, nonce);
      && (e.s.state == LinkIntro <==> exists plain :: Sealing(c, s.key, pkt, plain) && s.token <= plain)
      && e.s == s.(state := e.s.state) && (e.s.state == LinkIntro || e.s.state == Introduction) && e.sent == []
  {
    var e := Recv(c, cfg, s, pkt, nonce);
    if e.s.state == LinkIntro {
      var plain := Open(c, s.key, pkt).value;
      OpenExact(c, s.key, pkt, plain);
      assert Sealing(c, s.key, pkt, plain) && s.token <= plain;
    }
    forall plain | Sealing(c, s.key, pkt, plain) && s.token <= plain
      ensures e.s.state == LinkIntro
    {
      OpenExact(c, s.key, pkt, plain);
    }
  }

  /** A signed introduction under the given key, with a key exchange that works. */
  ghost predicate GoodIntro(c: Crypto, cfg: Config, key: Octets, pkt: Octets, plain: Octets) {
    && Sealing(c, key, pkt, plain) && |plain| >= 160
    && c.verify(plain[..32], plain[..96], plain[96..160]) && c.mult(cfg.transportSk, plain[32..64]).Some?
  }

  /**
   * A fresh inbound session moves on exactly for a signed introduction under its key, whose
   * identity and exchanged key it takes over and which it answers with its token under that
   * key. Otherwise it sends nothing and keeps key, token and state.
   */
  lemma IntroExact(c: Crypto, cfg: Config, s: Hs, pkt: Octets, nonce: Octets)
    requires Laws(c) && s.inbound && s.state == Initial
    ensures var e := Recv(c, cfg, s, pkt, nonce);
      && e.s.token == s.token && e.s.lim == s.lim && e.s.remote == s.remote
      && (e.s.state == Introduction <==> exists plain :: GoodIntro(c, cfg, s.key, pkt, plain))
      && (e.s.state == Introduction ==> e.sent == [Seal(c, e.s.key, nonce, s.token)])
      && (e.s.state != Introduction ==> e.sent == [] && e.s.key == s.key && e.s.state == Initial)
    ensures s.key == c.hash(cfg.identity) ==> forall plain :: GoodIntro(c, cfg, s.key, pkt, plain) ==>
      Introduces(c, cfg, Packet(pkt, nonce), plain, c.mult(cfg.transportSk, plain[32..64]).value,
                 Recv(c, cfg, s, pkt, nonce).s)
  {
    var e := Recv(c, cfg, s, pkt, nonce);
    if e.s.state == Introduction {
      var plain := Open(c, s.key, pkt).value;
      OpenExact(c, s.key, pkt, plain);
      assert GoodIntro(c, cfg, s.key, pkt, plain);
    }
    forall plain | GoodIntro(c, cfg, s.key, pkt, plain)
      ensures e.s.state == Introduction && Open(c, s.key, pkt) == Some(plain)
    {
      OpenExact(c, s.key, pkt, plain);
    }
  }

  /** Closing seals the farewell under the session key, once: a closed session sends nothing more. */
  lemma CloseOnce(c: Crypto, s: Hs, nonce: Octets, plain: Octets, nonce': Octets, plain': Octets)
    requires Laws(c) && s.state != Closed && |nonce| == NONCE_SIZE && plain != []
    ensures var e := CloseHs(c, s, nonce, plain);
      && e.s.state == Closed && |e.sent| == 1 && Open(c, s.key, e.sent[0]) == Some(plain)
      && CloseHs(c, e.s, nonce', plain').sent == [] && CloseHs(c, e.s, nonce', plain').s.state == Closed
  {
    Reopened(c, s.key, nonce, plain);
  }

  // ---------------------------------------------------------------- every run of an outbound session

  /** Our introduction was sent, and the key is the one exchanged with the dialled router if that worked. */
  ghost predicate Dialled(c: Crypto, cfg: Config, a: HsAction, s: Hs) {
    && a.Start?
    && match c.mult(cfg.encSk, cfg.dialledTransport)
       case None => s.key == c.hash(cfg.dialled)
       case Some(shared) => s.key == c.keyed(a.n, c.mix(c.toPublic(cfg.encSk), cfg.dialledTransport, shared))
  }

  ghost predicate HadDial(c: Crypto, cfg: Config, run: seq<HsAction>, s: Hs) {
    exists i :: 0 <= i < |run| && Dialled(c, cfg, run[i], s)
  }

  ghost predicate HadReply(c: Crypto, run: seq<HsAction>, s: Hs) {
    exists i :: 0 <= i < |run| && ReturnsToken(c, run[i], s)
  }

  ghost predicate OutboundEntitledTo(c: Crypto, cfg: Config, run: seq<HsAction>, s: Hs) {
    && (Rank(s.state) == 0 ==> s.key == c.hash(cfg.dialled))
    && (Rank(s.state) >= 1 ==> HadDial(c, cfg, run, s))
    && (Rank(s.state) >= 2 ==> HadReply(c, run, s))
    && (s.limSent || Rank(s.state) == 3 ==> Lim(cfg.dialled) in run)
    && (Rank(s.state) == 3 ==> LimResult(true) in run)
  }

  lemma DialStays(c: Crypto, cfg: Config, run: seq<HsAction>, more: seq<HsAction>, s: Hs, s': Hs)
    requires HadDial(c, cfg, run, s) && run <= more && s'.key == s.key
    ensures HadDial(c, cfg, more, s')
  {
    var i :| 0 <= i < |run| && Dialled(c, cfg, run[i], s);
    assert Dialled(c, cfg, more[i], s');
  }

  lemma ReplyStays(c: Crypto, run: seq<HsAction>, more: seq<HsAction>, s: Hs, s': Hs)
    requires HadReply(c, run, s) && run <= more && s'.key == s.key && s'.token == s.token
    ensures HadReply(c, more, s')
  {
    var i :| 0 <= i < |run| && ReturnsToken(c, run[i], s);
    assert ReturnsToken(c, more[i], s');
  }

  /** What one action does to an outbound session that is not closed. */
  ghost predicate OutboundAdvance(c: Crypto, cfg: Config, a: HsAction, s: Hs, s': Hs) {
    && (Rank(s.state) == 0 ==> s' == s || (s'.state == Introduction && Dialled(c, cfg, a, s')))
    && (Rank(s.state) > 0 ==> s'.key == s.key)
    && (Rank(s.state) >= 2 ==> s'.token == s.token)
    && (Rank(s.state) == 1 && Rank(s'.state) >= 2 ==> s'.state == LinkIntro && ReturnsToken(c, a, s'))
    && (s'.limSent ==> s.limSent || a == Lim(cfg.dialled))
    && (s'.state == Ready ==> s.state == Ready || (s.limSent && a == LimResult(true)))
  }

  lemma AckAdvances(c: Crypto, cfg: Config, s: Hs, a: HsAction)
    requires Laws(c) && a.Packet? && s.state == Introduction && !s.inbound
    ensures var s' := Recv(c, cfg, s, a.pkt, a.packetNonce).s;
      s'.key == s.key && (s' == s || (s'.state == LinkIntro && ReturnsToken(c, a, s')))
    ensures Recv(c, cfg, s, a.pkt, a.packetNonce).s.limSent == s.limSent
  {
    var s' := Recv(c, cfg, s, a.pkt, a.packetNonce).s;
    if s' != s {
      var plain := Open(c, s.key, a.pkt).value;
      OpenExact(c, s.key, a.pkt, plain);
      assert Sealing(c, s'.key, a.pkt, plain) && |plain| >= TOKEN_SIZE && plain[..TOKEN_SIZE] == s'.token;
    }
  }

  /**
   * An outbound session that sent its introduction moves on exactly for a packet sealed under
   * its key with 24 octets or more, of which it adopts and returns the first 24.
   */
  lemma ReplyExact(c: Crypto, cfg: Config, s: Hs, pkt: Octets, nonce: Octets)
    requires Laws(c) && !s.inbound && s.state == Introduction
    ensures var e := Recv(c, cfg, s, pkt, nonce);
      && (e.s.state == LinkIntro <==> exists plain :: Sealing(c, s.key, pkt, plain) && |plain| >= TOKEN_SIZE)
      && (e.s.state != LinkIntro ==> e.s == s && e.sent == [])
      && (forall plain :: Sealing(c, s.key, pkt, plain) && |plain| >= TOKEN_SIZE ==>
           && e.s == s.(token := plain[..TOKEN_SIZE], state := LinkIntro)
           && e.sent == [Seal(c, s.key, nonce, plain[..TOKEN_SIZE])])
  {
    var e := Recv(c, cfg, s, pkt, nonce);
    if e.s.state == LinkIntro {
      var plain := Open(c, s.key, pkt).value;
      OpenExact(c, s.key, pkt, plain);
      assert Sealing(c, s.key, pkt, plain) && |plain| >= TOKEN_SIZE;
    }
    forall plain | Sealing(c, s.key, pkt, plain) && |plain| >= TOKEN_SIZE
      ensures Open(c, s.key, pkt) == Some(plain) && |pkt| >= TOKEN_SIZE + OVERHEAD
    {
      OpenExact(c, s.key, pkt, plain);
      SealedSize(c, s.key, pkt, plain);
    }
  }

  lemma SealedSize(c: Crypto, key: Octets, pkt: Octets, plain: Octets)
    requires Laws(c) && Sealing(c, key, pkt, plain)
    ensures |pkt| == OVERHEAD + |plain|
  {
    var nonce :| |nonce| == NONCE_SIZE && pkt == Seal(c, key, nonce, plain);
  }

  lemma OutboundAdvances(c: Crypto, cfg: Config, s: Hs, a: HsAction)
    requires Laws(c) && May(s, a) && SessionOk(cfg, s) && !s.inbound && !s.closeCalled
    requires !Do(c, cfg, s, a).s.closeCalled && (Rank(s.state) == 0 ==> s.key == c.hash(cfg.dialled))
    ensures OutboundAdvance(c, cfg, a, s, Do(c, cfg, s, a).s)
  {
    if a.Packet? && s.state == Introduction {
      AckAdvances(c, cfg, s, a);
    }
  }

  lemma OutboundStep(c: Crypto, cfg: Config, run: seq<HsAction>, s: Hs, s': Hs)
    requires run != [] && OutboundEntitledTo(c, cfg, run[..|run| - 1], s)
    requires OutboundAdvance(c, cfg, run[|run| - 1], s, s') && Rank(s.state) <= Rank(s'.state) <= 3
    requires s.limSent ==> Rank(s.state) >= 1
    ensures OutboundEntitledTo(c, cfg, run, s')
  {
    var init, a := run[..|run| - 1], run[|run| - 1];
    assert run == init + [a] && a in run;
    if Rank(s.state) >= 1 {
      DialStays(c, cfg, init, run, s, s');
    }
    if Rank(s.state) >= 2 {
      ReplyStays(c, init, run, s, s');
    }
  }

  /**
   * In every run of an outbound session until it is closed: its key is the one exchanged with
   * the dialled router's key, it passed the introduction on a packet under that key which
   * carries its token, and it is ready only after the dialled identity's link introduction
   * and the delivery of its own.
   */
  lemma {:induction false} OutboundEntitled(c: Crypto, cfg: Config, run: seq<HsAction>)
    requires Laws(c) && HsAfter(c, cfg, NewOutbound(c, cfg), run).Some?
    ensures var s := HsAfter(c, cfg, NewOutbound(c, cfg), run).value;
      !s.closeCalled ==> OutboundEntitledTo(c, cfg, run, s) && s.state != Closed
  {
    var start := NewOutbound(c, cfg);
    var s' := HsAfter(c, cfg, start, run).value;
    RunKeeps(c, cfg, start, run);
    if run != [] && !s'.closeCalled {
      var init := run[..|run| - 1];
      var s := HsAfter(c, cfg, start, init).value;
      RunKeeps(c, cfg, start, init);
      OutboundEntitled(c, cfg, init);
      DoKeeps(c, cfg, s, run[|run| - 1]);
      OutboundAdvances(c, cfg, s, run[|run| - 1]);
      OutboundStep(c, cfg, run, s, s');
    }
  }

  // ---------------------------------------------------------------- two honest ends

  /** The client's token packet. */
  ghost predicate IsRequest(c: Crypto, p: Pairing, a: PairStep)
    requires Exchanged(c, p).Some?
  {
    && a.AtServer? && a.b.Packet?
    && exists plain :: Sealing(c, Exchanged(c, p).value, a.b.pkt, plain) && p.token <= plain
  }

  /** Over every run of two honest ends: a server past the introduction was sent its token back. */
  lemma {:induction false} ServerGotToken(c: Crypto, p: Pairing, run: seq<PairStep>)
    requires Honest(c, p) && PairAfter(c, p, run).Some? && Rank(PairAfter(c, p, run).value.server.state) >= 2
    ensures exists i :: 0 <= i < |run| && IsRequest(c, p, run[i])
  {
    if run != [] {
      var init, last := run[..|run| - 1], run[|run| - 1];
      var s := PairAfter(c, p, init).value;
      PairInvariant(c, p, init);
      if Rank(s.server.state) >= 2 {
        ServerGotToken(c, p, init);
        var i :| 0 <= i < |init| && IsRequest(c, p, init[i]);
        assert IsRequest(c, p, run[i]);
      } else {
        assert last.AtServer?;
        RequestSteps(c, p, s, last.b);
        assert IsRequest(c, p, run[|run| - 1]);
      }
    }
  }

  lemma RequestSteps(c: Crypto, p: Pairing, s: Pair, b: HsAction)
    requires Honest(c, p) && PairOk(c, p, s) && PairMay(p, s, AtServer(b)) && Rank(s.server.state) < 2
    requires Rank(Do(c, p.server, s.server, b).s.state) >= 2
    ensures IsRequest(c, p, AtServer(b))
  {
    if s.server.state == Introduction && b.Packet? {
      TokenExact(c, p.server, s.server, b.pkt, b.packetNonce);
    }
  }

  /** A run of steps that are all possible. */
  lemma OneMorePair(c: Crypto, p: Pairing, run: seq<PairStep>, step: PairStep) returns (run': seq<PairStep>, s': Pair)
    requires PairAfter(c, p, run).Some? && PairMay(p, PairAfter(c, p, run).value, step)
    ensures run' == run + [step] && PairAfter(c, p, run') == Some(s')
    ensures s' == PairDo(c, p, PairAfter(c, p, run).value, step)
  {
    run', s' := run + [step], PairDo(c, p, PairAfter(c, p, run).value, step);
    assert run'[..|run|] == run;
  }

  /** The introduction's signature is accepted. */
  ghost predicate Signed(c: Crypto, p: Pairing) {
    c.verify(p.client.identity, p.client.identity + c.toPublic(p.client.encSk) + p.n, p.signature)
  }

  /** The nonces of the three packets of the exchange. */
  datatype Nonces = Nonces(intro: Octets, reply: Octets, request: Octets)

  predicate NoncesOk(n: Nonces) {
    |n.intro| == |n.reply| == |n.request| == NONCE_SIZE
  }

  lemma ClientStarts(c: Crypto, p: Pairing, n: Nonces) returns (run: seq<PairStep>, s: Pair)
    requires Honest(c, p) && NoncesOk(n)
    ensures PairAfter(c, p, run) == Some(s) && s.client.state == Introduction && s.client.key == Exchanged(c, p).value
    ensures s.server == NewInbound(c, p.server, p.token) && s.client.remote == p.server.identity
    ensures s.client.lim == Outbound
    ensures Seal(c, FirstKey(c, p), n.intro, Intro(c, p.client, p.n, p.signature)) in s.up
  {
    var a := Start(p.n, p.signature, n.intro);
    run, s := OneMorePair(c, p, [], AtClient(a));
    assert Do(c, p.client, NewOutbound(c, p.client), a).sent ==
      [Seal(c, FirstKey(c, p), n.intro, Intro(c, p.client, p.n, p.signature))];
  }

  lemma IntroAccepted(c: Crypto, p: Pairing, s: Hs, nonce: Octets)
    requires Honest(c, p) && Signed(c, p)
    ensures var e := GotIntro(c, p.server, s, Intro(c, p.client, p.n, p.signature), nonce);
      && e.s.state == Introduction && e.s.key == Exchanged(c, p).value && e.s.expected == p.client.identity
      && e.s.token == s.token && e.s.lim == s.lim && e.s.inbound == s.inbound
      && e.sent == [Seal(c, e.s.key, nonce, s.token)]
  {
    var plain := Intro(c, p.client, p.n, p.signature);
    assert |c.toPublic(p.client.encSk)| == KEY_SIZE;
    assert |plain| == INTRO_SIZE;
    assert plain[..32] == p.client.identity && plain[32..64] == c.toPublic(p.client.encSk) && plain[64..96] == p.n;
    assert plain[..SIGNED_SIZE] == p.client.identity + c.toPublic(p.client.encSk) + p.n;
    assert plain[SIGNED_SIZE..INTRO_SIZE] == p.signature;
    DhAgrees(c, p.client.encSk, p.server.transportSk, p.n);
  }

  lemma ServerReplies(c: Crypto, p: Pairing, n: Nonces, run: seq<PairStep>, s: Pair)
    returns (run': seq<PairStep>, s': Pair)
    requires Honest(c, p) && Signed(c, p) && NoncesOk(n) && PairAfter(c, p, run) == Some(s)
    requires s.server == NewInbound(c, p.server, p.token)
    requires Seal(c, FirstKey(c, p), n.intro, Intro(c, p.client, p.n, p.signature)) in s.up
    ensures PairAfter(c, p, run') == Some(s') && s'.client == s.client
    ensures s'.server.inbound && s'.server.state == Introduction && s'.server.key == Exchanged(c, p).value
    ensures s'.server.expected == p.client.identity && s'.server.token == p.token && s'.server.lim == Inbound
    ensures Seal(c, Exchanged(c, p).value, n.reply, p.token) in s'.down
  {
    var pkt := Seal(c, FirstKey(c, p), n.intro, Intro(c, p.client, p.n, p.signature));
    run', s' := OneMorePair(c, p, run, AtServer(Packet(pkt, n.reply)));
    Reopened(c, FirstKey(c, p), n.intro, Intro(c, p.client, p.n, p.signature));
    IntroAccepted(c, p, s.server, n.reply);
    assert Do(c, p.server, s.server, Packet(pkt, n.reply)) ==
      GotIntro(c, p.server, s.server, Intro(c, p.client, p.n, p.signature), n.reply);
  }

  lemma ClientReturns(c: Crypto, p: Pairing, n: Nonces, run: seq<PairStep>, s: Pair)
    returns (run': seq<PairStep>, s': Pair)
    requires Honest(c, p) && NoncesOk(n) && PairAfter(c, p, run) == Some(s)
    requires !s.client.inbound && s.client.state == Introduction && s.client.key == Exchanged(c, p).value
    requires Seal(c, Exchanged(c, p).value, n.reply, p.token) in s.down
    ensures PairAfter(c, p, run') == Some(s') && s'.server == s.server
    ensures s'.client == s.client.(token := p.token, state := LinkIntro)
    ensures Seal(c, Exchanged(c, p).value, n.request, p.token) in s'.up
  {
    var k := Exchanged(c, p).value;
    var pkt := Seal(c, k, n.reply, p.token);
    Reopened(c, k, n.reply, p.token);
    assert |pkt| == OVERHEAD + TOKEN_SIZE;
    assert p.token[..TOKEN_SIZE] == p.token;
    run', s' := OneMorePair(c, p, run, AtClient(Packet(pkt, n.request)));
    assert Do(c, p.client, s.client, Packet(pkt, n.request)).sent == [Seal(c, k, n.request, p.token)];
  }

  lemma ServerAccepts(c: Crypto, p: Pairing, n: Nonces, run: seq<PairStep>, s: Pair)
    returns (run': seq<PairStep>, s': Pair)
    requires Honest(c, p) && NoncesOk(n) && PairAfter(c, p, run) == Some(s)
    requires s.server.inbound && s.server.state == Introduction && s.server.key == Exchanged(c, p).value
    requires s.server.token == p.token && Seal(c, Exchanged(c, p).value, n.request, p.token) in s.up
    ensures PairAfter(c, p, run') == Some(s') && s'.client == s.client
    ensures s'.server == s.server.(state := LinkIntro)
  {
    var k := Exchanged(c, p).value;
    var pkt := Seal(c, k, n.request, p.token);
    run', s' := OneMorePair(c, p, run, AtServer(Packet(pkt, n.request)));
    OpenExact(c, k, pkt, p.token);
    assert Sealing(c, k, pkt, p.token) && p.token <= p.token;
    TokenExact(c, p.server, s.server, pkt, n.request);
  }

  lemma IntrosExchanged(c: Crypto, p: Pairing, run: seq<PairStep>, s: Pair) returns (run': seq<PairStep>, s': Pair)
    requires PairAfter(c, p, run) == Some(s) && s.client.state == s.server.state == LinkIntro
    requires s.client.lim == Outbound && s.client.remote == p.server.identity
    requires s.server.lim == Inbound && s.server.expected == p.client.identity
    ensures PairAfter(c, p, run') == Some(s') && s'.client.state == s'.server.state == Ready
    ensures s'.client.key == s.client.key && s'.server.key == s.server.key
    ensures s'.client.remote == p.server.identity && s'.server.remote == p.client.identity
    ensures s'.client.established == s.client.established + 1 && s'.server.established == s.server.established + 1
  {
    var run1, s1 := OneMorePair(c, p, run, AtClient(Lim(p.server.identity)));
    var run2, s2 := OneMorePair(c, p, run1, AtServer(Lim(p.client.identity)));
    run', s' := OneMorePair(c, p, run2, AtClient(LimResult(true)));
  }

  /**
   * Two honest ends whose signature is accepted can complete the handshake: there is a run,
   * for any nonces, after which both are ready with the exchanged key and each other's identity.
   */
  lemma HandshakeCompletes(c: Crypto, p: Pairing, n: Nonces) returns (run: seq<PairStep>)
    requires Honest(c, p) && Signed(c, p) && NoncesOk(n)
    ensures PairAfter(c, p, run).Some?
    ensures var s := PairAfter(c, p, run).value;
      && s.client.state == s.server.state == Ready && s.client.key == s.server.key == Exchanged(c, p).value
      && s.client.remote == p.server.identity && s.server.remote == p.client.identity
  {
    var r1, s1 := ClientStarts(c, p, n);
    var r2, s2 := ServerReplies(c, p, n, r1, s1);
    PairInvariant(c, p, r2);
    var r3, s3 := ClientReturns(c, p, n, r2, s2);
    var r4, s4 := ServerAccepts(c, p, n, r3, s3);
    var s5;
    run, s5 := IntrosExchanged(c, p, r4, s4);
  }
}
