/**
  The node's table of connections: candidates that have not been promoted yet, established
  connections, the bounded queue of requested changes, the gauge of connected peers and the
  store of peers to reconnect to.
 */
module Connections {
  import opened Common

  type Token = nat

  datatype Addr = Addr(ip: nat, port: nat)

  datatype PeerType = Node | Bootstrapper

  /** The remote end of a connection. `selfId` is known once the handshake has been handled. */
  datatype Conn = Conn(token: Token, selfId: Option<nat>, addr: Addr, externalPort: nat, peerType: PeerType)

  function External(c: Conn): Addr {
    Addr(c.addr.ip, c.externalPort)
  }

  datatype BanId = BanIp(ip: nat) | BanSocket(addr: Addr)

  datatype Change =
    | Expulsion(token: Token)
    | NewConn(addr: Addr, peerType: PeerType, given: bool)
    | NewPeers(addrs: seq<Addr>)
    | Promotion(token: Token)
    | Removal(token: Token)
    | RemoveAll(tokens: seq<Token>)

  datatype Config = Config(disallowMultiplePeersOnIp: bool, hardConnectionLimit: nat, maxAllowedNodes: nat,
                           desiredNodes: nat, selfAddr: Addr, selfType: PeerType)

  /** `repeats` counts the handshakes handled on connections that had completed one before. */
  datatype Table = Table(candidates: map<Token, Conn>, connections: map<Token, Conn>, nextToken: Token,
                         changes: seq<Change>, softBans: set<BanId>, gauge: int, persisted: set<Addr>, repeats: nat)

  /** A node starts without connections, and with the peers that were stored when it last stopped. */
  function Initial(stored: set<Addr>): Table {
    Table(map[], map[], 1, [], {}, 0, stored, 0)
  }

  // ----- what the operations do, on values

  predicate SoftBanned(t: Table, addr: Addr) {
    BanIp(addr.ip) in t.softBans || BanSocket(addr) in t.softBans
  }

  /** A live connection that stands in the way of accepting one from `addr`. */
  predicate BlocksAccept(cfg: Config, c: Conn, addr: Addr) {
    && c.addr.ip == addr.ip
    && (cfg.disallowMultiplePeersOnIp || c.addr.port == addr.port || c.externalPort == addr.port)
  }

  /** A live connection that stands in the way of connecting to `addr`. */
  predicate BlocksConnect(cfg: Config, c: Conn, addr: Addr) {
    if cfg.disallowMultiplePeersOnIp then c.addr.ip == addr.ip else c.addr == addr || External(c) == addr
  }

  predicate AnyIn(m: map<Token, Conn>, p: Conn -> bool) {
    exists k :: k in m && p(m[k])
  }

  predicate AcceptRefused(cfg: Config, t: Table, addr: Addr, banned: bool) {
    || banned
    || (cfg.selfType == Node && |t.candidates| + |t.connections| >= cfg.hardConnectionLimit)
    || AnyIn(t.candidates, c => BlocksAccept(cfg, c, addr))
    || AnyIn(t.connections, c => BlocksAccept(cfg, c, addr))
    || SoftBanned(t, addr)
  }

  /** A fresh connection under the next token; it is recorded only if it could be registered with the poll. */
  function Admit(t: Table, addr: Addr, peerType: PeerType, registered: bool): Table {
    var c := Conn(t.nextToken, None, addr, addr.port, peerType);
    t.(nextToken := t.nextToken + 1,
       candidates := if registered then t.candidates[t.nextToken := c] else t.candidates)
  }

  function Accept(cfg: Config, t: Table, addr: Addr, banned: bool, registered: bool): Table {
    if AcceptRefused(cfg, t, addr, banned) then t else Admit(t, addr, Node, registered)
  }

  /** How an attempt to dial out ends. */
  datatype Dial = BannedAddr | Unreachable | NotRegistered | Dialled

  function NodeCount(connections: map<Token, Conn>): nat {
    |set k | k in connections && connections[k].peerType == Node|
  }

  predicate ConnectRefused(cfg: Config, t: Table, peerType: PeerType, addr: Addr, respectMax: bool, dial: Dial) {
    || (respectMax && peerType == Node && NodeCount(t.connections) % 0x1_0000 >= cfg.maxAllowedNodes)
    || cfg.selfAddr == addr
    || dial == BannedAddr
    || SoftBanned(t, addr)
    || AnyIn(t.connections, c => BlocksConnect(cfg, c, addr))
    || AnyIn(t.candidates, c => BlocksConnect(cfg, c, addr))
  }

  function Connect(cfg: Config, t: Table, peerType: PeerType, addr: Addr, respectMax: bool, dial: Dial): Table {
    if ConnectRefused(cfg, t, peerType, addr, respectMax, dial) then t
    else if dial == Unreachable then
      if peerType == Node then t.(softBans := t.softBans + {BanSocket(addr)}) else t
    else Admit(t, addr, peerType, dial == Dialled)
  }

  predicate Connected(cfg: Config, t: Table, peerType: PeerType, addr: Addr, respectMax: bool, dial: Dial) {
    !ConnectRefused(cfg, t, peerType, addr, respectMax, dial) && dial == Dialled
  }

  /** Dial discovered peers one after the other until enough nodes are connected to. */
  function ConnectAll(cfg: Config, t: Table, addrs: seq<Addr>, dials: seq<Dial>, count: nat): Table
    requires |dials| == |addrs|
    decreases |addrs|
  {
    if addrs == [] || count >= cfg.desiredNodes then t
    else
      var count' := if Connected(cfg, t, Node, addrs[0], true, dials[0]) then count + 1 else count;
      ConnectAll(cfg, Connect(cfg, t, Node, addrs[0], true, dials[0]), addrs[1..], dials[1..], count')
  }

  /** Requests beyond the capacity of the change queue are lost. */
  function Register(cfg: Config, t: Table, change: Change): Table {
    if |t.changes| < cfg.hardConnectionLimit then t.(changes := t.changes + [change]) else t
  }

  function Greeted(c: Conn, id: nat, port: nat): Conn {
    c.(selfId := Some(id), externalPort := port)
  }

  function Live(t: Table, k: Token): (c: Option<Conn>) {
    if k in t.candidates then Some(t.candidates[k])
    else if k in t.connections then Some(t.connections[k])
    else None
  }

  /** What a handshake does to the live connection `k` and to the gauge: it may be the first or a later one. */
  function Greet(t: Table, k: Token, id: nat, port: nat): Table
    requires Live(t, k).Some?
  {
    var c := Live(t, k).value;
    var t' := t.(gauge := t.gauge + 1, repeats := if c.selfId.Some? then t.repeats + 1 else t.repeats);
    if k in t.candidates then t'.(candidates := t.candidates[k := Greeted(c, id, port)])
    else t'.(connections := t.connections[k := Greeted(c, id, port)])
  }

  /** An accepted handshake: the connection then asks to be promoted. */
  function Handshake(cfg: Config, t: Table, k: Token, id: nat, port: nat): Table {
    if Live(t, k).None? then t else Register(cfg, Greet(t, k, id, port), Promotion(k))
  }

  function GaugeDrop(c: Conn): nat {
    if c.selfId.Some? then 1 else 0
  }

  function DropCandidate(t: Table, k: Token): Table {
    if k in t.candidates then
      t.(candidates := t.candidates - {k}, gauge := t.gauge - GaugeDrop(t.candidates[k]))
    else t
  }

  function DropConnection(t: Table, k: Token): Table {
    if k in t.connections then
      t.(connections := t.connections - {k}, gauge := t.gauge - GaugeDrop(t.connections[k]))
    else t
  }

  /** Shut down the connection with token `k`, whichever map it is in. */
  function RemoveConnection(t: Table, k: Token): Table {
    if k in t.candidates then DropCandidate(t, k) else DropConnection(t, k)
  }

  function Unpersist(t: Table, addrs: set<Addr>, stored: bool): Table {
    if stored then t.(persisted := t.persisted - addrs) else t
  }

  /** Removal of a connection; an established one is also taken out of the peer store. */
  function RemoveAndUnpersist(t: Table, k: Token, stored: bool): Table {
    var t' := RemoveConnection(t, k);
    if k !in t.candidates && k in t.connections then Unpersist(t', {External(t.connections[k])}, stored) else t'
  }

  function Expel(t: Table, k: Token, stored: bool): Table {
    match Live(t, k)
    case None => t
    case Some(c) =>
      var t' := RemoveAndUnpersist(t, k, stored);
      t'.(softBans := t'.softBans + {BanIp(c.addr.ip)})
  }

  function RemoveConnections(t: Table, tokens: seq<Token>): Table
    decreases |tokens|
  {
    if tokens == [] then t else RemoveConnections(RemoveConnection(t, tokens[0]), tokens[1..])
  }

  function RemovedExternals(t: Table, tokens: seq<Token>): set<Addr> {
    set k | k in t.connections && k in tokens :: External(t.connections[k])
  }

  predicate BlocksPromotion(c: Conn, addr: Addr) {
    c.addr == addr || External(c) == addr
  }

  /** A candidate becomes an established connection, or is dropped if its address is taken. */
  function Promote(t: Table, k: Token, stored: bool): Table {
    if k !in t.candidates then t
    else
      var c := t.candidates[k];
      if AnyIn(t.connections, e => BlocksPromotion(e, External(c))) then DropCandidate(t, k)
      else
        t.(candidates := t.candidates - {k},
           connections := t.connections[c.token := c],
           persisted := if stored then t.persisted + {External(c)} else t.persisted)
  }

  /**
    What the outside world does while a change is processed: whether the store works, also for
    each of several addresses to be removed, how dialling ends and how addresses are shuffled.
   */
  datatype World = World(stored: bool, failed: set<Addr>, dial: Dial, order: seq<Addr>, dials: seq<Dial>)

  function Apply(cfg: Config, t: Table, change: Change, w: World): Table
    requires |w.dials| == |w.order|
  {
    match change
    case NewConn(addr, peerType, given) => Connect(cfg, t, peerType, addr, !given, w.dial)
    case NewPeers(_) => ConnectAll(cfg, t, w.order, w.dials, NodeCount(t.connections))
    case Promotion(k) => Promote(t, k, w.stored)
    case Expulsion(k) => Expel(t, k, w.stored)
    case Removal(k) => RemoveAndUnpersist(t, k, w.stored)
    case RemoveAll(tokens) =>
      Unpersist(RemoveConnections(t, tokens), RemovedExternals(t, tokens) - w.failed, true)
  }

  // ----- invariants

  ghost predicate TokensOf(m: map<Token, Conn>, next: Token) {
    forall k :: k in m ==> 0 < k < next && m[k].token == k
  }

  /** Tokens are fresh and non-zero, and no connection is in both maps. */
  ghost predicate TokensOk(t: Table) {
    && 0 < t.nextToken
    && TokensOf(t.candidates, t.nextToken) && TokensOf(t.connections, t.nextToken)
    && t.candidates.Keys !! t.connections.Keys
  }

  /** A promotion is only ever requested for a connection whose handshake has been handled. */
  ghost predicate Processable(t: Table, change: Change) {
    change.Promotion? ==>
      change.token < t.nextToken && (change.token in t.candidates ==> t.candidates[change.token].selfId.Some?)
  }

  /** Established connections have completed the handshake, and so has every candidate up for promotion. */
  ghost predicate HandshakesOk(t: Table) {
    && (forall k :: k in t.connections ==> t.connections[k].selfId.Some?)
    && (forall change :: change in t.changes ==> Processable(t, change))
  }

  function All(t: Table): map<Token, Conn> {
    t.candidates + t.connections
  }

  /** No two live connections have the same remote address; with the restriction on, not even the same ip. */
  ghost predicate RemotesDistinct(cfg: Config, m: map<Token, Conn>) {
    forall j, k :: j in m && k in m && j != k ==>
      m[j].addr != m[k].addr && (cfg.disallowMultiplePeersOnIp ==> m[j].addr.ip != m[k].addr.ip)
  }

  function PostHandshake(m: map<Token, Conn>): set<Token> {
    set k | k in m && m[k].selfId.Some?
  }

  /** The gauge of connected peers counts the live post-handshake connections and every repeated handshake. */
  ghost predicate GaugeOk(t: Table) {
    t.gauge == |PostHandshake(t.candidates)| + |PostHandshake(t.connections)| + t.repeats
  }

  ghost predicate Inv(cfg: Config, t: Table) {
    TokensOk(t) && HandshakesOk(t) && RemotesDistinct(cfg, All(t)) && GaugeOk(t)
  }

  /** Established connections have pairwise distinct external addresses, and all are in the peer store. */
  ghost predicate ExternalsOk(t: Table) {
    && (forall j, k :: j in t.connections && k in t.connections && j != k ==>
          External(t.connections[j]) != External(t.connections[k]))
    && (forall k :: k in t.connections ==> External(t.connections[k]) in t.persisted)
  }

  // ----- each operation keeps the invariants

  lemma PostHandshakeWithout(m: map<Token, Conn>, k: Token)
    requires k in m
    ensures |PostHandshake(m - {k})| == |PostHandshake(m)| - GaugeDrop(m[k])
  {
    assert PostHandshake(m - {k}) == PostHandshake(m) - {k};
  }

  lemma PostHandshakeWith(m: map<Token, Conn>, k: Token, c: Conn)
    requires k !in m
    ensures |PostHandshake(m[k := c])| == |PostHandshake(m)| + GaugeDrop(c)
  {
    assert PostHandshake(m[k := c]) == if c.selfId.Some? then PostHandshake(m) + {k} else PostHandshake(m);
  }

  lemma PostHandshakeGreeted(m: map<Token, Conn>, k: Token, id: nat, port: nat)
    requires k in m
    ensures |PostHandshake(m[k := Greeted(m[k], id, port)])| == |PostHandshake(m)| + 1 - GaugeDrop(m[k])
  {
    var before, after := PostHandshake(m), PostHandshake(m[k := Greeted(m[k], id, port)]);
    assert after == before + {k};
    if k in before {
      assert after == before;
    }
  }

  /** Dropping connections, or changing anything but their remote addresses, keeps these distinct. */
  lemma RemotesShrink(cfg: Config, m: map<Token, Conn>, m': map<Token, Conn>)
    requires RemotesDistinct(cfg, m)
    requires forall k :: k in m' ==> k in m && m'[k].addr == m[k].addr
    ensures RemotesDistinct(cfg, m')
  {
  }

  lemma RemotesGrow(cfg: Config, m: map<Token, Conn>, k: Token, c: Conn)
    requires RemotesDistinct(cfg, m) && k !in m
    requires forall j :: j in m ==>
               m[j].addr != c.addr && (cfg.disallowMultiplePeersOnIp ==> m[j].addr.ip != c.addr.ip)
    ensures RemotesDistinct(cfg, m[k := c])
  {
  }

  lemma AdmitKeepsInv(cfg: Config, t: Table, addr: Addr, peerType: PeerType, registered: bool)
    requires Inv(cfg, t)
    requires forall k :: k in All(t) ==>
               All(t)[k].addr != addr && (cfg.disallowMultiplePeersOnIp ==> All(t)[k].addr.ip != addr.ip)
    ensures Inv(cfg, Admit(t, addr, peerType, registered))
  {
    hide RemotesDistinct, PostHandshake;
    var t' := Admit(t, addr, peerType, registered);
    if registered {
      var c := t'.candidates[t.nextToken];
      PostHandshakeWith(t.candidates, t.nextToken, c);
      RemotesGrow(cfg, All(t), t.nextToken, c);
      assert All(t') == All(t)[t.nextToken := c];
    }
  }

  lemma AcceptKeepsInv(cfg: Config, t: Table, addr: Addr, banned: bool, registered: bool)
    requires Inv(cfg, t)
    ensures Inv(cfg, Accept(cfg, t, addr, banned, registered))
  {
    hide Inv, Admit;
    if !AcceptRefused(cfg, t, addr, banned) {
      forall k | k in All(t)
        ensures All(t)[k].addr != addr && (cfg.disallowMultiplePeersOnIp ==> All(t)[k].addr.ip != addr.ip)
      {
        assert !BlocksAccept(cfg, All(t)[k], addr);
      }
      AdmitKeepsInv(cfg, t, addr, Node, registered);
    }
  }

  lemma ConnectKeepsInv(cfg: Config, t: Table, peerType: PeerType, addr: Addr, respectMax: bool, dial: Dial)
    requires Inv(cfg, t)
    ensures Inv(cfg, Connect(cfg, t, peerType, addr, respectMax, dial))
    ensures var t' := Connect(cfg, t, peerType, addr, respectMax, dial);
            t'.connections == t.connections && t'.persisted == t.persisted
  {
    hide Inv;
    StoreIndependent(cfg, t, t.persisted, t.softBans + {BanSocket(addr)});
    if !ConnectRefused(cfg, t, peerType, addr, respectMax, dial) && dial != Unreachable {
      forall k | k in All(t)
        ensures All(t)[k].addr != addr && (cfg.disallowMultiplePeersOnIp ==> All(t)[k].addr.ip != addr.ip)
      {
        assert !BlocksConnect(cfg, All(t)[k], addr);
      }
      AdmitKeepsInv(cfg, t, addr, peerType, dial == Dialled);
    }
  }

  lemma {:induction false} ConnectAllKeepsInv(cfg: Config, t: Table, addrs: seq<Addr>, dials: seq<Dial>, count: nat)
    requires Inv(cfg, t) && |dials| == |addrs|
    ensures Inv(cfg, ConnectAll(cfg, t, addrs, dials, count))
    ensures var t' := ConnectAll(cfg, t, addrs, dials, count);
            t'.connections == t.connections && t'.persisted == t.persisted
    decreases |addrs|
  {
    hide Inv, Connect, Connected;
    if addrs == [] || count >= cfg.desiredNodes {
    } else {
      ConnectKeepsInv(cfg, t, Node, addrs[0], true, dials[0]);
      var count' := if Connected(cfg, t, Node, addrs[0], true, dials[0]) then count + 1 else count;
      ConnectAllKeepsInv(cfg, Connect(cfg, t, Node, addrs[0], true, dials[0]), addrs[1..], dials[1..], count');
    }
  }

  /** Any request may be registered at any time, except that only a handshake asks for a promotion. */
  lemma RegisterKeepsInv(cfg: Config, t: Table, change: Change)
    requires Inv(cfg, t)
    requires Processable(t, change)
    ensures Inv(cfg, Register(cfg, t, change))
  {
  }

  lemma HandshakeKeepsInv(cfg: Config, t: Table, k: Token, id: nat, port: nat)
    requires Inv(cfg, t)
    ensures Inv(cfg, Handshake(cfg, t, k, id, port))
  {
    hide Inv, Register;
    var live := Live(t, k);
    if live.Some? {
      var t' := Greet(t, k, id, port);
      GreetKeepsInv(cfg, t, k, id, port);
      RegisterKeepsInv(cfg, t', Promotion(k));
    }
  }

  lemma GreetKeepsInv(cfg: Config, t: Table, k: Token, id: nat, port: nat)
    requires Inv(cfg, t) && Live(t, k).Some?
    ensures var t' := Greet(t, k, id, port);
            Inv(cfg, t') && Processable(t', Promotion(k))
  {
    hide TokensOk, HandshakesOk, RemotesDistinct, PostHandshake;
    GreetKeepsTokens(t, k, id, port);
    GreetKeepsHandshakes(t, k, id, port);
    RemotesShrink(cfg, All(t), All(Greet(t, k, id, port)));
    PostHandshakeGreeted(if k in t.candidates then t.candidates else t.connections, k, id, port);
  }

  lemma GreetKeepsTokens(t: Table, k: Token, id: nat, port: nat)
    requires TokensOk(t) && Live(t, k).Some?
    ensures TokensOk(Greet(t, k, id, port)) && k < t.nextToken
  {
  }

  lemma GreetKeepsHandshakes(t: Table, k: Token, id: nat, port: nat)
    requires HandshakesOk(t) && Live(t, k).Some?
    ensures HandshakesOk(Greet(t, k, id, port))
  {
  }

  lemma DropCandidateKeepsInv(cfg: Config, t: Table, k: Token)
    requires Inv(cfg, t)
    ensures Inv(cfg, DropCandidate(t, k))
  {
    hide RemotesDistinct, PostHandshake;
    if k in t.candidates {
      PostHandshakeWithout(t.candidates, k);
      RemotesShrink(cfg, All(t), All(DropCandidate(t, k)));
    }
  }

  lemma DropConnectionKeepsInv(cfg: Config, t: Table, k: Token)
    requires Inv(cfg, t)
    ensures Inv(cfg, DropConnection(t, k))
  {
    hide RemotesDistinct, PostHandshake;
    if k in t.connections {
      PostHandshakeWithout(t.connections, k);
      RemotesShrink(cfg, All(t), All(DropConnection(t, k)));
    }
  }

  lemma RemoveConnectionKeepsInv(cfg: Config, t: Table, k: Token)
    requires Inv(cfg, t)
    ensures var t' := RemoveConnection(t, k);
            && Inv(cfg, t')
            && t'.connections == t.connections - {k}
            && t'.persisted == t.persisted
  {
    hide Inv;
    DropCandidateKeepsInv(cfg, t, k);
    DropConnectionKeepsInv(cfg, t, k);
    TokensDisjoint(cfg, t, k);
  }

  lemma TokensDisjoint(cfg: Config, t: Table, k: Token)
    requires Inv(cfg, t)
    ensures k !in t.candidates || k !in t.connections
  {
  }

  lemma {:induction false} RemoveConnectionsKeepInv(cfg: Config, t: Table, tokens: seq<Token>)
    requires Inv(cfg, t)
    ensures var t' := RemoveConnections(t, tokens);
            && Inv(cfg, t')
            && t'.connections == t.connections - (set k | k in tokens)
            && t'.persisted == t.persisted
    decreases |tokens|
  {
    hide Inv, RemoveConnection;
    if tokens == [] {
    } else {
      RemoveConnectionKeepsInv(cfg, t, tokens[0]);
      RemoveConnectionsKeepInv(cfg, RemoveConnection(t, tokens[0]), tokens[1..]);
      assert tokens == [tokens[0]] + tokens[1..];
    }
  }

  lemma PromoteKeepsInv(cfg: Config, t: Table, k: Token, stored: bool)
    requires Inv(cfg, t) && Processable(t, Promotion(k))
    ensures Inv(cfg, Promote(t, k, stored))
  {
    hide TokensOk, HandshakesOk, RemotesDistinct, PostHandshake;
    DropCandidateKeepsInv(cfg, t, k);
    if k in t.candidates {
      PromoteKeepsTokens(t, k, stored);
      PromoteKeepsHandshakes(t, k, stored);
      RemotesShrink(cfg, All(t), All(Promote(t, k, stored)));
      PostHandshakeWithout(t.candidates, k);
      PostHandshakeWith(t.connections, k, t.candidates[k]);
    }
  }

  lemma PromoteKeepsTokens(t: Table, k: Token, stored: bool)
    requires TokensOk(t) && k in t.candidates
    ensures TokensOk(Promote(t, k, stored)) && t.candidates[k].token == k && k !in t.connections
  {
  }

  lemma PromoteKeepsHandshakes(t: Table, k: Token, stored: bool)
    requires HandshakesOk(t) && k in t.candidates && Processable(t, Promotion(k))
    ensures HandshakesOk(Promote(t, k, stored))
  {
  }

  /** Nothing in the invariant depends on the peer store or the soft bans. */
  lemma StoreIndependent(cfg: Config, t: Table, persisted: set<Addr>, bans: set<BanId>)
    requires Inv(cfg, t)
    ensures Inv(cfg, t.(persisted := persisted, softBans := bans))
  {
    hide RemotesDistinct, PostHandshake;
    assert All(t.(persisted := persisted, softBans := bans)) == All(t);
  }

  /** Processing a queued change, whatever it is and however stale. */
  lemma ApplyKeepsInv(cfg: Config, t: Table, change: Change, w: World)
    requires Inv(cfg, t) && Processable(t, change) && |w.dials| == |w.order|
    ensures Inv(cfg, Apply(cfg, t, change, w))
  {
    hide Inv, Connect, ConnectAll, Promote, RemoveConnections;
    var t' := Apply(cfg, t, change, w);
    match change
    case NewConn(addr, peerType, given) => ConnectKeepsInv(cfg, t, peerType, addr, !given, w.dial);
    case NewPeers(_) => ConnectAllKeepsInv(cfg, t, w.order, w.dials, NodeCount(t.connections));
    case Promotion(k) => PromoteKeepsInv(cfg, t, k, w.stored);
    case Expulsion(k) =>
      RemoveConnectionKeepsInv(cfg, t, k);
      StoreIndependent(cfg, RemoveConnection(t, k), t'.persisted, t'.softBans);
    case Removal(k) =>
      RemoveConnectionKeepsInv(cfg, t, k);
      StoreIndependent(cfg, RemoveConnection(t, k), t'.persisted, t'.softBans);
    case RemoveAll(tokens) =>
      RemoveConnectionsKeepInv(cfg, t, tokens);
      StoreIndependent(cfg, RemoveConnections(t, tokens), t'.persisted, RemoveConnections(t, tokens).softBans);
  }
}
