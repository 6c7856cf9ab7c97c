/**
 * The IWP handshake: an introduction sealed under a key anyone can compute, its answer and
 * the session request sealed under the Diffie-Hellman key, then link introductions (LIMs) in
 * the established session. The cryptographic primitives are uninterpreted functions.
 */
module IwpHandshake {
  import opened Bytes

  const KEY_SIZE: nat := 32
  const SIG_SIZE: nat := 64
  const NONCE_SIZE: nat := 32
  const HMAC_SIZE: nat := 32
  const TOKEN_SIZE: nat := 24
  const OVERHEAD: nat := HMAC_SIZE + NONCE_SIZE
  const SIGNED_SIZE: nat := KEY_SIZE + KEY_SIZE + NONCE_SIZE
  const INTRO_SIZE: nat := SIGNED_SIZE + SIG_SIZE

  type Octets = seq<Byte>

  /** cipher(key, nonce, text); hmac(key, text); mult is the scalar multiplication, which can fail. */
  datatype Crypto = Crypto(
    cipher: (Octets, Octets, Octets) -> Octets,
    hmac: (Octets, Octets) -> Octets,
    hash: Octets -> Octets,
    verify: (Octets, Octets, Octets) -> bool,
    toPublic: Octets -> Octets,
    mult: (Octets, Octets) -> Option<Octets>,
    mix: (Octets, Octets, Octets) -> Octets,
    keyed: (Octets, Octets) -> Octets)

  /** Sizes; the stream cipher undoes itself; equal keyed hashes come from equal keys; the curve commutes. */
  ghost predicate Laws(c: Crypto) {
    && (forall k, n, t {:trigger c.cipher(k, n, t)} ::
         |c.cipher(k, n, t)| == |t| && c.cipher(k, n, c.cipher(k, n, t)) == t)
    && (forall k, t {:trigger c.hmac(k, t)} :: |c.hmac(k, t)| == HMAC_SIZE)
    && (forall k, k', t {:trigger c.hmac(k, t), c.hmac(k', t)} ::
         |k| == |k'| == KEY_SIZE && c.hmac(k, t) == c.hmac(k', t) ==> k == k')
    && (forall t {:trigger c.hash(t)} :: |c.hash(t)| == KEY_SIZE)
    && (forall n, t {:trigger c.keyed(n, t)} :: |c.keyed(n, t)| == KEY_SIZE)
    && (forall s {:trigger c.toPublic(s)} :: |c.toPublic(s)| == KEY_SIZE)
    && (forall s, s' {:trigger c.mult(s, c.toPublic(s'))} :: c.mult(s, c.toPublic(s')) == c.mult(s', c.toPublic(s)))
  }

  // ---------------------------------------------------------------- sealed packets

  function Seal(c: Crypto, key: Octets, nonce: Octets, plain: Octets): (pkt: Octets) {
    var body := nonce + c.cipher(key, nonce, plain);
    c.hmac(key, body) + body
  }

  function Open(c: Crypto, key: Octets, pkt: Octets): (plain: Option<Octets>) {
    if |pkt| <= OVERHEAD then None
    else
      var body := pkt[HMAC_SIZE..];
      if c.hmac(key, body) != pkt[..HMAC_SIZE] then None
      else Some(c.cipher(key, body[..NONCE_SIZE], body[NONCE_SIZE..]))
  }

  /** A sealed packet opens to what was sealed under the same key, and under no other. */
  lemma OpenSeal(c: Crypto, key: Octets, other: Octets, nonce: Octets, plain: Octets)
    requires Laws(c) && |nonce| == NONCE_SIZE && plain != [] && |key| == |other| == KEY_SIZE
    ensures Open(c, other, Seal(c, key, nonce, plain)) == if other == key then Some(plain) else None
  {
    var body := nonce + c.cipher(key, nonce, plain);
    var pkt := c.hmac(key, body) + body;
    assert |c.hmac(key, body)| == HMAC_SIZE;
    assert pkt[..HMAC_SIZE] == c.hmac(key, body) && pkt[HMAC_SIZE..] == body;
    assert body[..NONCE_SIZE] == nonce && body[NONCE_SIZE..] == c.cipher(key, nonce, plain);
    if other != key {
      assert c.hmac(other, body) != c.hmac(key, body);
    }
  }

  // ---------------------------------------------------------------- key agreement

  function Dh(c: Crypto, clientPk: Octets, serverPk: Octets, them: Octets, us: Octets): (k: Option<Octets>) {
    match c.mult(us, them)
    case None => None
    case Some(shared) => Some(c.mix(clientPk, serverPk, shared))
  }

  function DhClient(c: Crypto, pk: Octets, sk: Octets, nonce: Octets): (k: Option<Octets>) {
    match Dh(c, c.toPublic(sk), pk, pk, sk)
    case None => None
    case Some(r) => Some(c.keyed(nonce, r))
  }

  function DhServer(c: Crypto, pk: Octets, sk: Octets, nonce: Octets): (k: Option<Octets>) {
    match Dh(c, pk, c.toPublic(sk), pk, sk)
    case None => None
    case Some(r) => Some(c.keyed(nonce, r))
  }

  /** The two directions of the key exchange agree, and fail together. */
  lemma DhAgrees(c: Crypto, clientSk: Octets, serverSk: Octets, nonce: Octets)
    requires Laws(c)
    ensures DhClient(c, c.toPublic(serverSk), clientSk, nonce) == DhServer(c, c.toPublic(clientSk), serverSk, nonce)
  {
    assert c.mult(clientSk, c.toPublic(serverSk)) == c.mult(serverSk, c.toPublic(clientSk));
  }

  // ---------------------------------------------------------------- one session

  datatype State = Initial | Introduction | LinkIntro | Ready | Closed

  /** Which handler the next LIM goes to. */
  datatype LimHandler = Inbound | Outbound | Renegotiate

  /** The secrets and the identity of a router, and whom an outbound session dials. */
  datatype Config = Config(
    identity: Octets, encSk: Octets, transportSk: Octets, dialled: Octets, dialledTransport: Octets)

  /**
   * `limSent` says that our LIM is on its way with a completion handler. The last three fields
   * record events: the identity whose introduction verified, the calls of
   * SessionEstablished, and whether Close was called.
   */
  datatype Hs = Hs(
    inbound: bool, state: State, key: Octets, token: Octets, expected: Octets, remote: Octets,
    lim: LimHandler, limSent: bool,
    verified: Option<Octets>, established: nat, closeCalled: bool)

  datatype HsStep = HsStep(s: Hs, sent: seq<Octets>)

  function NewOutbound(c: Crypto, cfg: Config): (s: Hs) {
    Hs(false, Initial, c.hash(cfg.dialled), Zeros(TOKEN_SIZE), Zeros(KEY_SIZE), cfg.dialled,
       Outbound, false, None, 0, false)
  }

  function NewInbound(c: Crypto, cfg: Config, token: Octets): (s: Hs) {
    Hs(true, Initial, c.hash(cfg.identity), token, Zeros(KEY_SIZE), Zeros(KEY_SIZE), Inbound, false, None, 0, false)
  }

  /** The introduction: our identity, our encryption key, a nonce and the signature of the three. */
  function Intro(c: Crypto, cfg: Config, n: Octets, signature: Octets): (plain: Octets) {
    cfg.identity + c.toPublic(cfg.encSk) + n + signature
  }

  /** GenerateAndSendIntro: sealed under the old key; then the key becomes the exchanged one. */
  function Begin(c: Crypto, cfg: Config, s: Hs, n: Octets, signature: Octets, nonce: Octets): (e: HsStep) {
    if s.inbound then HsStep(s, [])
    else
      var pkt := Seal(c, s.key, nonce, Intro(c, cfg, n, signature));
      var s' := s.(state := Introduction);
      match DhClient(c, cfg.dialledTransport, cfg.encSk, n)
      case None => HsStep(s', [pkt])
      case Some(k) => HsStep(s'.(key := k), [pkt])
  }

  /** HandleGotIntro, after decryption. The expected identity is stored before it is verified. */
  function GotIntro(c: Crypto, cfg: Config, s: Hs, plain: Octets, nonce: Octets): (e: HsStep) {
    if |plain| < INTRO_SIZE then HsStep(s, [])
    else
      var pk, onion, n := plain[..32], plain[32..64], plain[64..96];
      var s' := s.(expected := pk);
      if !c.verify(pk, plain[..SIGNED_SIZE], plain[SIGNED_SIZE..INTRO_SIZE]) then HsStep(s', [])
      else
        match DhServer(c, onion, cfg.transportSk, n)
        case None => HsStep(s'.(verified := Some(pk)), [])
        case Some(k) =>
          HsStep(s'.(verified := Some(pk), key := k, state := Introduction), [Seal(c, k, nonce, s.token)])
  }

  function GotIntroAck(c: Crypto, s: Hs, pkt: Octets, nonce: Octets): (e: HsStep) {
    if |pkt| < TOKEN_SIZE + OVERHEAD then HsStep(s, [])
    else
      match Open(c, s.key, pkt)
      case None => HsStep(s, [])
      case Some(plain) =>
        if |plain| < TOKEN_SIZE then HsStep(s, [])
        else HsStep(s.(token := plain[..TOKEN_SIZE], state := LinkIntro), [Seal(c, s.key, nonce, plain[..TOKEN_SIZE])])
  }

  /** Our LIM is then sent as a first message, without a completion handler. */
  function GotSessionRequest(c: Crypto, s: Hs, pkt: Octets): (e: HsStep) {
    match Open(c, s.key, pkt)
    case None => HsStep(s, [])
    case Some(plain) =>
      if |plain| < TOKEN_SIZE || plain[..TOKEN_SIZE] != s.token then HsStep(s, [])
      else HsStep(s.(state := LinkIntro), [])
  }

  /** Recv_LL: from LinkIntro on, packets go to the session's data handlers. */
  function Recv(c: Crypto, cfg: Config, s: Hs, pkt: Octets, nonce: Octets): (e: HsStep)
    requires !(s.state == Initial && !s.inbound)
  {
    match s.state
    case Initial => (
      match Open(c, s.key, pkt)
      case None => HsStep(s, [])
      case Some(plain) => GotIntro(c, cfg, s, plain, nonce))
    case Introduction => if s.inbound then GotSessionRequest(c, s, pkt) else GotIntroAck(c, s, pkt, nonce)
    case _ => HsStep(s, [])
  }

  /** A LIM of identity pk, its signature checked, reaches the current handler. */
  function GotLim(s: Hs, pk: Octets): (s': Hs) {
    match s.lim
    case Inbound =>
      if pk != s.expected then s
      else s.(state := Ready, lim := Renegotiate, remote := pk, established := s.established + 1)
    case Outbound =>
      if pk != s.remote then s else s.(remote := pk, lim := Renegotiate, limSent := true)
    case Renegotiate => s
  }

  /** The completion handler of our LIM, which fires at most once. */
  function LimDone(s: Hs, success: bool): (s': Hs)
    requires s.limSent
  {
    if success then s.(limSent := false, state := Ready, established := s.established + 1)
    else s.(limSent := false)
  }

  function CloseHs(c: Crypto, s: Hs, nonce: Octets, plain: Octets): (e: HsStep) {
    if s.state == Closed then HsStep(s.(closeCalled := true), [])
    else HsStep(s.(state := Closed, closeCalled := true), [Seal(c, s.key, nonce, plain)])
  }

  // ---------------------------------------------------------------- every run of one session

  datatype HsAction =
    | Start(n: Octets, signature: Octets, nonce: Octets)
    | Packet(pkt: Octets, packetNonce: Octets)
    | Lim(pk: Octets)
    | LimResult(success: bool)
    | Shut(shutNonce: Octets, plain: Octets)

  /** Start is called once on a fresh outbound session; LIMs reach sessions past the key exchange. */
  predicate May(s: Hs, a: HsAction) {
    match a
    case Start(n, _, nonce) => s.state == Initial && !s.inbound && |n| == NONCE_SIZE && |nonce| == NONCE_SIZE
    case Packet(_, nonce) => !(s.state == Initial && !s.inbound) && |nonce| == NONCE_SIZE
    case Lim(_) => s.state != Initial && s.state != Introduction
    case LimResult(_) => s.limSent
    case Shut(nonce, _) => |nonce| == NONCE_SIZE
  }

  function Do(c: Crypto, cfg: Config, s: Hs, a: HsAction): (e: HsStep)
    requires May(s, a)
  {
    match a
    case Start(n, signature, nonce) => Begin(c, cfg, s, n, signature, nonce)
    case Packet(pkt, nonce) => Recv(c, cfg, s, pkt, nonce)
    case Lim(pk) => HsStep(GotLim(s, pk), [])
    case LimResult(success) => HsStep(LimDone(s, success), [])
    case Shut(nonce, plain) => CloseHs(c, s, nonce, plain)
  }

  function Rank(s: State): (r: nat) {
    match s
    case Initial => 0
    case Introduction => 1
    case LinkIntro => 2
    case Ready => 3
    case Closed => 4
  }

  ghost predicate SessionOk(cfg: Config, s: Hs) {
    && (!s.inbound ==> s.remote == cfg.dialled && s.lim != Inbound)
    && (s.inbound ==> s.lim != Outbound && !s.limSent)
    && s.established + (if s.limSent then 1 else 0) <= 1
    && (s.lim != Renegotiate ==> s.established == 0 && !s.limSent)
    && (!s.closeCalled ==>
         && s.state != Closed
         && (Rank(s.state) < 2 ==> s.lim != Renegotiate)
         && (s.inbound && s.lim == Renegotiate ==> s.state == Ready && s.remote == s.expected && s.established == 1)
         && (s.inbound && s.state == Ready ==> s.lim == Renegotiate)
         && (s.inbound && Rank(s.state) >= 1 ==> s.verified == Some(s.expected)))
  }

  lemma DoKeeps(c: Crypto, cfg: Config, s: Hs, a: HsAction)
    requires SessionOk(cfg, s) && May(s, a)
    ensures SessionOk(cfg, Do(c, cfg, s, a).s)
    ensures !Do(c, cfg, s, a).s.closeCalled ==> Rank(s.state) <= Rank(Do(c, cfg, s, a).s.state)
    ensures s.closeCalled ==> Do(c, cfg, s, a).s.closeCalled
    ensures Do(c, cfg, s, a).s.inbound == s.inbound
  {
  }

  ghost function HsAfter(c: Crypto, cfg: Config, s: Hs, run: seq<HsAction>): (s': Option<Hs>) {
    if run == [] then Some(s)
    else
      match HsAfter(c, cfg, s, run[..|run| - 1])
      case None => None
      case Some(m) => if May(m, run[|run| - 1]) then Some(Do(c, cfg, m, run[|run| - 1]).s) else None
  }

  /** The invariant, and that states never go back before Close, over any run with any packets. */
  lemma {:induction false} RunKeeps(c: Crypto, cfg: Config, s: Hs, run: seq<HsAction>)
    requires SessionOk(cfg, s) && HsAfter(c, cfg, s, run).Some?
    ensures SessionOk(cfg, HsAfter(c, cfg, s, run).value)
    ensures HsAfter(c, cfg, s, run).value.inbound == s.inbound
    ensures !HsAfter(c, cfg, s, run).value.closeCalled ==>
      !s.closeCalled && Rank(s.state) <= Rank(HsAfter(c, cfg, s, run).value.state)
  {
    if run != [] {
      RunKeeps(c, cfg, s, run[..|run| - 1]);
      DoKeeps(c, cfg, HsAfter(c, cfg, s, run[..|run| - 1]).value, run[|run| - 1]);
    }
  }

  /**
   * Every run of an outbound session, whatever it is sent: SessionEstablished is called at
   * most once, and the identity is the dialled one.
   */
  lemma OutboundSession(c: Crypto, cfg: Config, run: seq<HsAction>)
    requires HsAfter(c, cfg, NewOutbound(c, cfg), run).Some?
    ensures var s := HsAfter(c, cfg, NewOutbound(c, cfg), run).value;
      s.established <= 1 && s.remote == cfg.dialled
  {
    RunKeeps(c, cfg, NewOutbound(c, cfg), run);
  }

  /**
   * Every run of an inbound session, whatever it is sent: SessionEstablished is called at
   * most once, and until Close is called a ready session has the identity whose
   * introduction verified.
   */
  lemma InboundSession(c: Crypto, cfg: Config, token: Octets, run: seq<HsAction>)
    requires HsAfter(c, cfg, NewInbound(c, cfg, token), run).Some?
    ensures var s := HsAfter(c, cfg, NewInbound(c, cfg, token), run).value;
      && s.established <= 1
      && (s.state == Ready && !s.closeCalled ==> s.verified == Some(s.remote) && s.established == 1)
  {
    RunKeeps(c, cfg, NewInbound(c, cfg, token), run);
  }

  // ---------------------------------------------------------------- two honest ends

  /** A client that dials this server, with the nonce and signature of its introduction. */
  datatype Pairing = Pairing(client: Config, server: Config, token: Octets, n: Octets, signature: Octets)

  /** Both ends and every packet they sent; any of it can arrive any number of times, or never. */
  datatype Pair = Pair(client: Hs, server: Hs, up: set<Octets>, down: set<Octets>)

  datatype PairStep =
    | AtClient(a: HsAction)
    | AtServer(b: HsAction)
    | ClientData(clientNonce: Octets, clientPlain: Octets)
    | ServerData(serverNonce: Octets, serverPlain: Octets)

  function FirstKey(c: Crypto, p: Pairing): (k: Octets) {
    c.hash(p.server.identity)
  }

  function Exchanged(c: Crypto, p: Pairing): (k: Option<Octets>) {
    DhClient(c, c.toPublic(p.server.transportSk), p.client.encSk, p.n)
  }

  /** The client dials the server's keys; the exchange succeeds and does not give the public first key. */
  ghost predicate Honest(c: Crypto, p: Pairing) {
    && Laws(c)
    && p.client.dialled == p.server.identity && p.client.dialledTransport == c.toPublic(p.server.transportSk)
    && |p.client.identity| == KEY_SIZE && |p.n| == NONCE_SIZE && |p.signature| == SIG_SIZE && |p.token| == TOKEN_SIZE
    && Exchanged(c, p).Some? && Exchanged(c, p).value != FirstKey(c, p)
  }

  function Fresh(c: Crypto, p: Pairing): (s: Pair) {
    Pair(NewOutbound(c, p.client), NewInbound(c, p.server, p.token), {}, {})
  }

  /** Neither end closes; each handles what the other sent; session data needs the exchanged key. */
  predicate PairMay(p: Pairing, s: Pair, step: PairStep) {
    match step
    case AtClient(a) =>
      && May(s.client, a) && !a.Shut?
      && (a.Start? ==> a.n == p.n && a.signature == p.signature)
      && (a.Packet? ==> a.pkt in s.down)
    case AtServer(b) => May(s.server, b) && !b.Shut? && (b.Packet? ==> b.pkt in s.up)
    case ClientData(nonce, plain) => Rank(s.client.state) >= 2 && |nonce| == NONCE_SIZE && plain != []
    case ServerData(nonce, plain) => Rank(s.server.state) >= 2 && |nonce| == NONCE_SIZE && plain != []
  }

  function PairDo(c: Crypto, p: Pairing, s: Pair, step: PairStep): (s': Pair)
    requires PairMay(p, s, step)
  {
    match step
    case AtClient(a) =>
      var e := Do(c, p.client, s.client, a);
      s.(client := e.s, up := s.up + (set x | x in e.sent))
    case AtServer(b) =>
      var e := Do(c, p.server, s.server, b);
      s.(server := e.s, down := s.down + (set x | x in e.sent))
    case ClientData(nonce, plain) => s.(up := s.up + {Seal(c, s.client.key, nonce, plain)})
    case ServerData(nonce, plain) => s.(down := s.down + {Seal(c, s.server.key, nonce, plain)})
  }

  ghost predicate IsIntro(c: Crypto, p: Pairing, pkt: Octets) {
    exists nonce :: |nonce| == NONCE_SIZE && pkt == Seal(c, FirstKey(c, p), nonce, Intro(c, p.client, p.n, p.signature))
  }

  ghost predicate IsSealed(c: Crypto, key: Octets, pkt: Octets) {
    exists nonce, plain :: |nonce| == NONCE_SIZE && plain != [] && pkt == Seal(c, key, nonce, plain)
  }

  ghost predicate IsToken(c: Crypto, key: Octets, token: Octets, pkt: Octets) {
    exists nonce :: |nonce| == NONCE_SIZE && pkt == Seal(c, key, nonce, token)
  }

  ghost predicate PairOk(c: Crypto, p: Pairing, s: Pair)
    requires Exchanged(c, p).Some?
  {
    var k, early := Exchanged(c, p).value, Rank(s.client.state) < 2;
    && SessionOk(p.client, s.client) && SessionOk(p.server, s.server)
    && !s.client.inbound && s.server.inbound && !s.client.closeCalled && !s.server.closeCalled
    && s.client.key == (if Rank(s.client.state) == 0 then FirstKey(c, p) else k)
    && s.server.key == (if Rank(s.server.state) == 0 then FirstKey(c, p) else k)
    && s.server.token == p.token && (!early ==> s.client.token == p.token)
    && (Rank(s.server.state) >= 1 ==> s.server.expected == p.client.identity)
    && (early ==> Rank(s.server.state) < 2)
    && (forall x :: x in s.up ==> IsIntro(c, p, x) || (!early && IsSealed(c, k, x)))
    && (forall x :: x in s.down ==> IsToken(c, k, p.token, x) || (Rank(s.server.state) >= 2 && IsSealed(c, k, x)))
  }

  lemma IntroOpens(c: Crypto, p: Pairing, pkt: Octets, key: Octets)
    requires Honest(c, p) && IsIntro(c, p, pkt) && |key| == KEY_SIZE
    ensures Open(c, key, pkt) == if key == FirstKey(c, p) then Some(Intro(c, p.client, p.n, p.signature)) else None
  {
    var nonce :| |nonce| == NONCE_SIZE && pkt == Seal(c, FirstKey(c, p), nonce, Intro(c, p.client, p.n, p.signature));
    OpenSeal(c, FirstKey(c, p), key, nonce, Intro(c, p.client, p.n, p.signature));
  }

  lemma SealedOpens(c: Crypto, key: Octets, pkt: Octets, other: Octets)
    requires Laws(c) && IsSealed(c, key, pkt) && |key| == |other| == KEY_SIZE
    ensures other != key ==> Open(c, other, pkt) == None
  {
    var nonce, plain :| |nonce| == NONCE_SIZE && plain != [] && pkt == Seal(c, key, nonce, plain);
    OpenSeal(c, key, other, nonce, plain);
  }

  lemma TokenOpens(c: Crypto, key: Octets, token: Octets, pkt: Octets)
    requires Laws(c) && |token| == TOKEN_SIZE && IsToken(c, key, token, pkt) && |key| == KEY_SIZE
    ensures Open(c, key, pkt) == Some(token)
  {
    var nonce :| |nonce| == NONCE_SIZE && pkt == Seal(c, key, nonce, token);
    OpenSeal(c, key, key, nonce, token);
  }

  /** The server's answer to the honest introduction: the exchanged key, if it verifies. */
  lemma IntroAnswered(c: Crypto, p: Pairing, s: Hs, nonce: Octets)
    requires Honest(c, p) && |nonce| == NONCE_SIZE
    ensures var e := GotIntro(c, p.server, s, Intro(c, p.client, p.n, p.signature), nonce);
      || (e.s.state == s.state && e.s.key == s.key && e.sent == [])
      || (&& e.s.state == Introduction && e.s.key == Exchanged(c, p).value && e.s.expected == p.client.identity
          && e.sent == [Seal(c, e.s.key, nonce, s.token)])
    ensures GotIntro(c, p.server, s, Intro(c, p.client, p.n, p.signature), nonce).s.token == s.token
  {
    var plain := Intro(c, p.client, p.n, p.signature);
    assert |c.toPublic(p.client.encSk)| == KEY_SIZE;
    assert |plain| == INTRO_SIZE;
    assert plain[..32] == p.client.identity && plain[32..64] == c.toPublic(p.client.encSk) && plain[64..96] == p.n;
    DhAgrees(c, p.client.encSk, p.server.transportSk, p.n);
  }

  /** What the server makes of the packets that can reach it before it has the token back. */
  lemma ServerEarly(c: Crypto, p: Pairing, s: Pair, b: HsAction)
    requires Honest(c, p) && PairOk(c, p, s) && PairMay(p, s, AtServer(b)) && b.Packet? && Rank(s.server.state) < 2
    ensures IsIntro(c, p, b.pkt) && Rank(s.server.state) == 0 ==>
      Open(c, s.server.key, b.pkt) == Some(Intro(c, p.client, p.n, p.signature))
    ensures IsIntro(c, p, b.pkt) && Rank(s.server.state) != 0 ==> Open(c, s.server.key, b.pkt) == None
    ensures !IsIntro(c, p, b.pkt) ==>
      Rank(s.client.state) >= 2 && (Rank(s.server.state) == 0 ==> Open(c, s.server.key, b.pkt) == None)
  {
    if IsIntro(c, p, b.pkt) {
      IntroOpens(c, p, b.pkt, s.server.key);
    } else {
      SealedOpens(c, Exchanged(c, p).value, b.pkt, s.server.key);
    }
  }

  lemma ServerSends(c: Crypto, p: Pairing, s: Pair, b: HsAction)
    requires Honest(c, p) && PairOk(c, p, s) && PairMay(p, s, AtServer(b))
    ensures var e := Do(c, p.server, s.server, b);
      forall x :: x in e.sent ==> IsToken(c, Exchanged(c, p).value, p.token, x)
  {
    if b.Packet? && Rank(s.server.state) < 2 {
      ServerEarly(c, p, s, b);
      if s.server.state == Initial && IsIntro(c, p, b.pkt) {
        IntroAnswered(c, p, s.server, b.packetNonce);
      }
    }
  }

  lemma ServerMoves(c: Crypto, p: Pairing, s: Pair, b: HsAction)
    requires Honest(c, p) && PairOk(c, p, s) && PairMay(p, s, AtServer(b))
    ensures var s' := Do(c, p.server, s.server, b).s;
      && s'.token == p.token && !s'.closeCalled
      && s'.key == (if Rank(s'.state) == 0 then FirstKey(c, p) else Exchanged(c, p).value)
      && (Rank(s'.state) >= 1 ==> s'.expected == p.client.identity)
      && (Rank(s.client.state) < 2 ==> Rank(s'.state) < 2)
  {
    if b.Packet? && Rank(s.server.state) < 2 {
      ServerEarly(c, p, s, b);
      if s.server.state == Initial && IsIntro(c, p, b.pkt) {
        IntroAnswered(c, p, s.server, b.packetNonce);
      }
    }
  }

  lemma ServerKeeps(c: Crypto, p: Pairing, s: Pair, b: HsAction)
    requires Honest(c, p) && PairOk(c, p, s) && PairMay(p, s, AtServer(b))
    ensures PairOk(c, p, PairDo(c, p, s, AtServer(b)))
  {
    DoKeeps(c, p.server, s.server, b);
    ServerSends(c, p, s, b);
    ServerMoves(c, p, s, b);
  }

  lemma ClientKeeps(c: Crypto, p: Pairing, s: Pair, a: HsAction)
    requires Honest(c, p) && PairOk(c, p, s) && PairMay(p, s, AtClient(a))
    ensures PairOk(c, p, PairDo(c, p, s, AtClient(a)))
  {
    var k := Exchanged(c, p).value;
    DoKeeps(c, p.client, s.client, a);
    var e := Do(c, p.client, s.client, a);
    if a.Start? {
      assert e.sent == [Seal(c, FirstKey(c, p), a.nonce, Intro(c, p.client, p.n, p.signature))];
      assert IsIntro(c, p, e.sent[0]);
    } else if a.Packet? && s.client.state == Introduction {
      TokenOpens(c, k, p.token, a.pkt);
      assert p.token[..TOKEN_SIZE] == p.token;
      assert e.sent == [] || (e.sent == [Seal(c, k, a.packetNonce, p.token)] && p.token != []);
      forall x | x in e.sent
        ensures IsSealed(c, k, x)
      {
      }
    }
  }

  lemma PairKeeps(c: Crypto, p: Pairing, s: Pair, step: PairStep)
    requires Honest(c, p) && PairOk(c, p, s) && PairMay(p, s, step)
    ensures PairOk(c, p, PairDo(c, p, s, step))
  {
    match step
    case AtClient(a) => ClientKeeps(c, p, s, a);
    case AtServer(b) => ServerKeeps(c, p, s, b);
    case ClientData(_, _) =>
    case ServerData(_, _) =>
  }

  ghost function PairAfter(c: Crypto, p: Pairing, run: seq<PairStep>): (s: Option<Pair>) {
    if run == [] then Some(Fresh(c, p))
    else
      match PairAfter(c, p, run[..|run| - 1])
      case None => None
      case Some(s) => if PairMay(p, s, run[|run| - 1]) then Some(PairDo(c, p, s, run[|run| - 1])) else None
  }

  lemma {:induction false} PairInvariant(c: Crypto, p: Pairing, run: seq<PairStep>)
    requires Honest(c, p) && PairAfter(c, p, run).Some?
    ensures PairOk(c, p, PairAfter(c, p, run).value)
  {
    if run != [] {
      PairInvariant(c, p, run[..|run| - 1]);
      PairKeeps(c, p, PairAfter(c, p, run[..|run| - 1]).value, run[|run| - 1]);
    }
  }

  /**
   * Agreement: over every run of two honest ends on a lossy, duplicating and reordering
   * network, ends that have both reached LinkIntro hold the same key, the exchanged one, and
   * the same token; the server does not get there before the client, and a ready session of
   * either end has the other's identity.
   */
  lemma HandshakeAgrees(c: Crypto, p: Pairing, run: seq<PairStep>)
    requires Honest(c, p) && PairAfter(c, p, run).Some?
    ensures var s := PairAfter(c, p, run).value;
      && (Rank(s.server.state) >= 2 ==> Rank(s.client.state) >= 2)
      && (Rank(s.client.state) >= 2 && Rank(s.server.state) >= 2 ==>
           && s.client.key == s.server.key == Exchanged(c, p).value
           && s.client.token == s.server.token)
      && (s.server.state == Ready ==> s.server.remote == p.client.identity)
      && s.client.remote == p.server.identity
  {
    PairInvariant(c, p, run);
  }

  /** The assumptions on the primitives and the pairing can be met. */
  lemma HonestPossible() returns (c: Crypto, p: Pairing)
    ensures Honest(c, p)
  {
    var ones: Octets := seq(KEY_SIZE, _ => 1);
    c := Crypto(
      (k: Octets, n: Octets, t: Octets) => t,
      (k: Octets, t: Octets) => if |k| == KEY_SIZE then k else ones,
      (t: Octets) => Zeros(KEY_SIZE),
      (k: Octets, t: Octets, z: Octets) => true,
      (k: Octets) => ones,
      (k: Octets, t: Octets) => Some([]),
      (k: Octets, n: Octets, t: Octets) => t,
      (n: Octets, t: Octets) => ones);
    var cfg := Config(ones, ones, ones, ones, ones);
    p := Pairing(cfg, cfg, Zeros(TOKEN_SIZE), ones, Zeros(SIG_SIZE));
    assert ones[0] != Zeros(KEY_SIZE)[0];
  }

  // ---------------------------------------------------------------- the session object

  /** The handshake fields of the session, updated in place; randomness comes as arguments. */
  class HandshakeSession {
    const c: Crypto
    const cfg: Config
    const inbound: bool
    var state: State
    var key: Octets
    var token: Octets
    var expected: Octets
    var remote: Octets
    var lim: LimHandler
    var limSent: bool
    var outgoing: seq<Octets>
    ghost var verified: Option<Octets>
    ghost var established: nat
    ghost var closeCalled: bool

    ghost function View(): (s: Hs)
      reads this
    {
      Hs(inbound, state, key, token, expected, remote, lim, limSent, verified, established, closeCalled)
    }

    constructor Dial(c: Crypto, cfg: Config)
      ensures View() == NewOutbound(c, cfg) && SessionOk(cfg, View()) && outgoing == []
      ensures this.c == c && this.cfg == cfg
    {
      this.c, this.cfg, inbound := c, cfg, false;
      state, key, token := Initial, c.hash(cfg.dialled), Zeros(TOKEN_SIZE);
      expected, remote, lim, limSent, outgoing := Zeros(KEY_SIZE), cfg.dialled, Outbound, false, [];
      verified, established, closeCalled := None, 0, false;
    }

    constructor Accept(c: Crypto, cfg: Config, token: Octets)
      ensures View() == NewInbound(c, cfg, token) && SessionOk(cfg, View()) && outgoing == []
      ensures this.c == c && this.cfg == cfg
    {
      this.c, this.cfg, inbound := c, cfg, true;
      state, key, this.token := Initial, c.hash(cfg.identity), token;
      expected, remote, lim, limSent, outgoing := Zeros(KEY_SIZE), Zeros(KEY_SIZE), Inbound, false, [];
      verified, established, closeCalled := None, 0, false;
    }

    method Begin(n: Octets, signature: Octets, nonce: Octets)
      requires SessionOk(cfg, View()) && May(View(), Start(n, signature, nonce))
      modifies this
      ensures SessionOk(cfg, View())
      ensures var e := Do(c, cfg, old(View()), Start(n, signature, nonce));
        View() == e.s && outgoing == old(outgoing) + e.sent
    {
      DoKeeps(c, cfg, View(), Start(n, signature, nonce));
      outgoing := outgoing + [Seal(c, key, nonce, Intro(c, cfg, n, signature))];
      state := Introduction;
      var k := DhClient(c, cfg.dialledTransport, cfg.encSk, n);
      if k.Some? {
        key := k.value;
      }
    }

    method RecvLL(pkt: Octets, nonce: Octets)
      requires SessionOk(cfg, View()) && May(View(), Packet(pkt, nonce))
      modifies this
      ensures SessionOk(cfg, View())
      ensures var e := Do(c, cfg, old(View()), Packet(pkt, nonce)); View() == e.s && outgoing == old(outgoing) + e.sent
    {
      DoKeeps(c, cfg, View(), Packet(pkt, nonce));
      match state
      case Initial =>
        var plain := Open(c, key, pkt);
        if plain.Some? {
          HandleGotIntro(plain.value, nonce);
        }
      case Introduction =>
        if inbound {
          HandleCreateSessionRequest(pkt);
        } else {
          HandleGotIntroAck(pkt, nonce);
        }
      case _ =>
    }

    method HandleGotIntro(plain: Octets, nonce: Octets)
      modifies this
      ensures var e := GotIntro(c, cfg, old(View()), plain, nonce); View() == e.s && outgoing == old(outgoing) + e.sent
    {
      if |plain| < INTRO_SIZE {
        return;
      }
      var onion, n := plain[32..64], plain[64..96];
      expected := plain[..32];
      if !c.verify(expected, plain[..SIGNED_SIZE], plain[SIGNED_SIZE..INTRO_SIZE]) {
        return;
      }
      verified := Some(expected);
      var k := DhServer(c, onion, cfg.transportSk, n);
      if k.None? {
        return;
      }
      key := k.value;
      outgoing := outgoing + [Seal(c, key, nonce, token)];
      state := Introduction;
    }

    method HandleGotIntroAck(pkt: Octets, nonce: Octets)
      modifies this
      ensures var e := GotIntroAck(c, old(View()), pkt, nonce); View() == e.s && outgoing == old(outgoing) + e.sent
    {
      var plain := Open(c, key, pkt);
      if |pkt| < TOKEN_SIZE + OVERHEAD || plain.None? || |plain.value| < TOKEN_SIZE {
        return;
      }
      token := plain.value[..TOKEN_SIZE];
      outgoing := outgoing + [Seal(c, key, nonce, token)];
      state := LinkIntro;
    }

    method HandleCreateSessionRequest(pkt: Octets)
      modifies this
      ensures var e := GotSessionRequest(c, old(View()), pkt); View() == e.s && outgoing == old(outgoing) + e.sent
    {
      var plain := Open(c, key, pkt);
      if plain.None? || |plain.value| < TOKEN_SIZE || plain.value[..TOKEN_SIZE] != token {
        return;
      }
      state := LinkIntro;
    }

    method GotLIM(pk: Octets)
      requires SessionOk(cfg, View()) && May(View(), Lim(pk))
      modifies this
      ensures SessionOk(cfg, View()) && View() == GotLim(old(View()), pk) && outgoing == old(outgoing)
    {
      DoKeeps(c, cfg, View(), Lim(pk));
      if lim == Inbound && pk == expected {
        state, lim, remote, established := Ready, Renegotiate, pk, established + 1;
      } else if lim == Outbound && pk == remote {
        lim, limSent := Renegotiate, true;
      }
    }

    /** The completion handler of our LIM. */
    method LimCompleted(success: bool)
      requires SessionOk(cfg, View()) && limSent
      modifies this
      ensures SessionOk(cfg, View()) && View() == LimDone(old(View()), success) && outgoing == old(outgoing)
    {
      DoKeeps(c, cfg, View(), LimResult(success));
      limSent := false;
      if success {
        state, established := Ready, established + 1;
      }
    }

    method Close(nonce: Octets, plain: Octets)
      requires SessionOk(cfg, View()) && |nonce| == NONCE_SIZE
      modifies this
      ensures SessionOk(cfg, View())
      ensures var e := CloseHs(c, old(View()), nonce, plain); View() == e.s && outgoing == old(outgoing) + e.sent
    {
      DoKeeps(c, cfg, View(), Shut(nonce, plain));
      closeCalled := true;
      if state != Closed {
        outgoing := outgoing + [Seal(c, key, nonce, plain)];
        state := Closed;
      }
    }
  }
}
