/**
  What the operations on the connection table do to each connection, address and ban, said in
  terms of the maps and sets themselves; and what an expulsion means for the rest of a run.
 */
module ConnectionEffects {
  import opened Common
  import opened Connections
  import opened ConnectionRuns

  // ----- admission

  /** No live connection uses the address; with the restriction on, none comes from the ip. */
  ghost predicate Unused(cfg: Config, m: map<Token, Conn>, addr: Addr) {
    forall k :: k in m && m[k].addr.ip == addr.ip ==>
      !cfg.disallowMultiplePeersOnIp && m[k].addr.port != addr.port && m[k].externalPort != addr.port
  }

  ghost predicate NotSoftBanned(t: Table, addr: Addr) {
    BanIp(addr.ip) !in t.softBans && BanSocket(addr) !in t.softBans
  }

  /**
    An incoming connection becomes a candidate under the next token, and nothing else changes,
    exactly if its address is not banned in any way, there is room, the address is unused and
    it can be registered.
   */
  lemma AcceptEffect(cfg: Config, t: Table, addr: Addr, banned: bool, registered: bool)
    ensures var free := && !banned
                        && (cfg.selfType == Node ==> |t.candidates| + |t.connections| < cfg.hardConnectionLimit)
                        && Unused(cfg, t.candidates, addr) && Unused(cfg, t.connections, addr)
                        && NotSoftBanned(t, addr);
            Accept(cfg, t, addr, banned, registered)
            == if !free then t
               else if !registered then t.(nextToken := t.nextToken + 1)
               else t.(nextToken := t.nextToken + 1,
                       candidates := t.candidates[t.nextToken := Conn(t.nextToken, None, addr, addr.port, Node)])
  {
    BlockingIsUse(cfg, t.candidates, addr);
    BlockingIsUse(cfg, t.connections, addr);
  }

  lemma BlockingIsUse(cfg: Config, m: map<Token, Conn>, addr: Addr)
    ensures AnyIn(m, c => BlocksAccept(cfg, c, addr)) <==> !Unused(cfg, m, addr)
    ensures AnyIn(m, c => BlocksConnect(cfg, c, addr)) <==> !Unused(cfg, m, addr)
  {
  }

  /** Dialling out: the same, and also not to ourselves, nor beyond the number of nodes allowed. */
  lemma ConnectEffect(cfg: Config, t: Table, peerType: PeerType, addr: Addr, respectMax: bool, dial: Dial)
    ensures var nodes := |set k | k in t.connections && t.connections[k].peerType == Node|;
            var free := && !(respectMax && peerType == Node && nodes % 0x1_0000 >= cfg.maxAllowedNodes)
                        && addr != cfg.selfAddr && dial != BannedAddr
                        && Unused(cfg, t.candidates, addr) && Unused(cfg, t.connections, addr)
                        && NotSoftBanned(t, addr);
            && (Connected(cfg, t, peerType, addr, respectMax, dial) <==> free && dial == Dialled)
            && Connect(cfg, t, peerType, addr, respectMax, dial)
               == if !free || (dial == Unreachable && peerType == Bootstrapper) then t
                  else if dial == Unreachable then t.(softBans := t.softBans + {BanSocket(addr)})
                  else if dial == NotRegistered then t.(nextToken := t.nextToken + 1)
                  else t.(nextToken := t.nextToken + 1,
                          candidates := t.candidates[t.nextToken := Conn(t.nextToken, None, addr, addr.port, peerType)])
  {
    BlockingIsUse(cfg, t.candidates, addr);
    BlockingIsUse(cfg, t.connections, addr);
  }

  /** Dialling all of `addrs`, one after the other, and how many of the attempts succeed. */
  function DialAll(cfg: Config, t: Table, addrs: seq<Addr>, dials: seq<Dial>): (Table, nat)
    requires |dials| == |addrs|
    decreases |addrs|
  {
    if addrs == [] then (t, 0)
    else
      var (last, n) := DialAll(cfg, Connect(cfg, t, Node, addrs[0], true, dials[0]), addrs[1..], dials[1..]);
      (last, n + if Connected(cfg, t, Node, addrs[0], true, dials[0]) then 1 else 0)
  }

  /** Discovered peers are dialled in order; it stops as soon as there are enough, and not before. */
  lemma {:induction false} ConnectAllEffect(cfg: Config, t: Table, addrs: seq<Addr>, dials: seq<Dial>, count: nat) returns (n: nat)
    requires |dials| == |addrs|
    ensures n <= |addrs| && DialAll(cfg, t, addrs[..n], dials[..n]).0 == ConnectAll(cfg, t, addrs, dials, count)
    ensures var reached := count + DialAll(cfg, t, addrs[..n], dials[..n]).1;
            && (n < |addrs| ==> reached >= cfg.desiredNodes)
            && (n > 0 ==> count < cfg.desiredNodes && reached <= cfg.desiredNodes)
    decreases |addrs|
  {
    hide Connect, Connected;
    if addrs == [] || count >= cfg.desiredNodes {
      n := 0;
    } else {
      var t' := Connect(cfg, t, Node, addrs[0], true, dials[0]);
      var count' := if Connected(cfg, t, Node, addrs[0], true, dials[0]) then count + 1 else count;
      var m := ConnectAllEffect(cfg, t', addrs[1..], dials[1..], count');
      n := m + 1;
      assert addrs[..n][1..] == addrs[1..][..m] && dials[..n][1..] == dials[1..][..m];
      assert addrs[..n][0] == addrs[0] && dials[..n][0] == dials[0];
    }
  }

  /**
    Requested connections: a given address is dialled however many nodes there are, any other
    only while there are fewer than allowed. Discovered peers count from the nodes established.
   */
  lemma DialEffect(cfg: Config, t: Table, w: World, addr: Addr, peerType: PeerType, addrs: seq<Addr>, max: nat)
    requires |w.dials| == |w.order|
    ensures var nodes := |set k | k in t.connections && t.connections[k].peerType == Node|;
            && Apply(cfg, t, NewConn(addr, peerType, true), w)
               == Apply(cfg.(maxAllowedNodes := max), t, NewConn(addr, peerType, true), w)
            && (peerType == Node && nodes % 0x1_0000 >= cfg.maxAllowedNodes ==>
                  Apply(cfg, t, NewConn(addr, peerType, false), w) == t)
            && (nodes % 0x1_0000 < cfg.maxAllowedNodes ==>
                  Apply(cfg, t, NewConn(addr, peerType, false), w) == Apply(cfg, t, NewConn(addr, peerType, true), w))
            && Apply(cfg, t, NewPeers(addrs), w) == ConnectAll(cfg, t, w.order, w.dials, nodes)
  {
    hide Unused, NotSoftBanned;
    ConnectEffect(cfg, t, peerType, addr, false, w.dial);
    ConnectEffect(cfg.(maxAllowedNodes := max), t, peerType, addr, false, w.dial);
    ConnectEffect(cfg, t, peerType, addr, true, w.dial);
    SameUse(cfg, max, t.candidates, addr);
    SameUse(cfg, max, t.connections, addr);
  }

  lemma SameUse(cfg: Config, max: nat, m: map<Token, Conn>, addr: Addr)
    ensures Unused(cfg.(maxAllowedNodes := max), m, addr) <==> Unused(cfg, m, addr)
  {
  }

  // ----- requests and handshakes

  /** A request joins the end of the queue, unless the queue holds as many as connections are allowed. */
  lemma RegisterEffect(cfg: Config, t: Table, change: Change)
    ensures var t' := Register(cfg, t, change);
            && t'.(changes := t.changes) == t
            && (|t.changes| < cfg.hardConnectionLimit ==> t'.changes == t.changes + [change])
            && (|t.changes| >= cfg.hardConnectionLimit ==> t'.changes == t.changes)
  {
  }

  /** A handshake records id and port of a live connection, counts it, and asks for its promotion. */
  lemma HandshakeEffect(cfg: Config, t: Table, k: Token, id: nat, port: nat)
    requires TokensOk(t)
    ensures var t' := Handshake(cfg, t, k, id, port);
            && (k !in t.candidates && k !in t.connections ==> t' == t)
            && (k in t.candidates || k in t.connections ==>
                  && t'.gauge == t.gauge + 1
                  && t'.changes == (if |t.changes| < cfg.hardConnectionLimit then t.changes + [Promotion(k)] else t.changes)
                  && Live(t', k) == Some(Live(t, k).value.(selfId := Some(id), externalPort := port)))
            && t'.candidates.Keys == t.candidates.Keys && t'.connections.Keys == t.connections.Keys
            && (forall j :: j in t.candidates && j != k ==> t'.candidates[j] == t.candidates[j])
            && (forall j :: j in t.connections && j != k ==> t'.connections[j] == t.connections[j])
            && t'.softBans == t.softBans && t'.persisted == t.persisted && t'.nextToken == t.nextToken
  {
  }

  // ----- queued changes

  /** Nothing has changed but the maps of connections, the gauge, the store and the bans. */
  ghost predicate OthersKept(t: Table, t': Table) {
    t'.nextToken == t.nextToken && t'.changes == t.changes && t'.repeats == t.repeats
  }

  /**
    An expulsion closes the connection, takes an established one out of the store and bans its
    ip; a removal does the same without the ban. All other connections, addresses and bans stay.
   */
  lemma RemovalEffect(cfg: Config, t: Table, k: Token, expelled: bool, w: World)
    requires TokensOk(t) && |w.dials| == |w.order|
    ensures var t' := Apply(cfg, t, if expelled then Expulsion(k) else Removal(k), w);
            && OthersKept(t, t')
            && t'.candidates == t.candidates - {k} && t'.connections == t.connections - {k}
            && t'.persisted == t.persisted - (if k in t.connections && w.stored then {External(t.connections[k])} else {})
            && t'.softBans == t.softBans + (if expelled && k in t.candidates then {BanIp(t.candidates[k].addr.ip)}
                                            else if expelled && k in t.connections then {BanIp(t.connections[k].addr.ip)}
                                            else {})
  {
    if k !in t.candidates {
      assert t.candidates - {k} == t.candidates;
    }
    if k !in t.connections {
      assert t.connections - {k} == t.connections;
    }
  }

  /** Removing many: exactly the listed connections go, and those of their addresses that the store does not fail on. */
  lemma RemoveAllEffect(cfg: Config, t: Table, tokens: seq<Token>, w: World)
    requires Inv(cfg, t) && |w.dials| == |w.order|
    ensures var t' := Apply(cfg, t, RemoveAll(tokens), w);
            && OthersKept(t, t') && t'.softBans == t.softBans
            && t'.candidates == t.candidates - (set k | k in tokens)
            && t'.connections == t.connections - (set k | k in tokens)
            && (forall a :: a in t'.persisted <==>
                  a in t.persisted && (a in w.failed || forall k :: k in t.connections && k in tokens ==> External(t.connections[k]) != a))
  {
    hide Inv;
    RemoveConnectionsKeepInv(cfg, t, tokens);
    RemoveConnectionsEffect(t, tokens);
  }

  lemma {:induction false} RemoveConnectionsEffect(t: Table, tokens: seq<Token>)
    ensures var t' := RemoveConnections(t, tokens);
            OthersKept(t, t') && t'.softBans == t.softBans && t'.candidates == t.candidates - (set k | k in tokens)
    decreases |tokens|
  {
    if tokens == [] {
      assert t.candidates - (set k | k in tokens) == t.candidates;
    } else {
      RemoveConnectionsEffect(RemoveConnection(t, tokens[0]), tokens[1..]);
      assert tokens == [tokens[0]] + tokens[1..];
      var t1 := RemoveConnection(t, tokens[0]);
      assert t1.candidates == t.candidates - {tokens[0]};
    }
  }

  /**
    A promotion moves a candidate to the established connections and into the store if no
    established connection uses its external address, and closes it otherwise.
   */
  lemma PromotionEffect(cfg: Config, t: Table, k: Token, w: World)
    requires TokensOk(t) && |w.dials| == |w.order|
    ensures var t' := Apply(cfg, t, Promotion(k), w);
            && OthersKept(t, t') && t'.softBans == t.softBans
            && t'.candidates == t.candidates - {k}
            && (k !in t.candidates ==> t'.connections == t.connections && t'.persisted == t.persisted)
            && (k in t.candidates ==>
                  var addr := Addr(t.candidates[k].addr.ip, t.candidates[k].externalPort);
                  if forall j :: j in t.connections ==> t.connections[j].addr != addr && External(t.connections[j]) != addr then
                    && t'.connections == t.connections[k := t.candidates[k]]
                    && t'.persisted == t.persisted + (if w.stored then {addr} else {})
                  else t'.connections == t.connections && t'.persisted == t.persisted)
  {
    if k !in t.candidates {
      assert t.candidates - {k} == t.candidates;
    } else {
      var addr := External(t.candidates[k]);
      assert AnyIn(t.connections, e => BlocksPromotion(e, addr))
        <==> exists j :: j in t.connections && BlocksPromotion(t.connections[j], addr);
    }
  }

  /** Closing a connection in housekeeping takes just that one out, and the gauge follows; the store is not touched. */
  lemma ClosingEffect(cfg: Config, t: Table, k: Token)
    ensures var t' := Next(cfg, t, CloseCandidate(k));
            t' == t.(candidates := t.candidates - {k},
                     gauge := t.gauge - if k in t.candidates && t.candidates[k].selfId.Some? then 1 else 0)
    ensures var t' := Next(cfg, t, CloseConnection(k));
            t' == t.(connections := t.connections - {k},
                     gauge := t.gauge - if k in t.connections && t.connections[k].selfId.Some? then 1 else 0)
    ensures forall keep :: Next(cfg, t, LiftSoftBans(keep)) == t.(softBans := t.softBans * keep)
  {
    if k !in t.candidates {
      assert t.candidates - {k} == t.candidates;
    }
    if k !in t.connections {
      assert t.connections - {k} == t.connections;
    }
  }

  // ----- an expelled ip stays out

  /** Every live connection from `ip` was already live, with the same remote address. */
  ghost predicate NobodyNewFrom(ip: nat, t: Table, t': Table) {
    forall k :: Live(t', k).Some? && Live(t', k).value.addr.ip == ip ==>
      Live(t, k).Some? && Live(t, k).value.addr == Live(t', k).value.addr
  }

  /** A step that does not lift the ban of `ip`. */
  predicate KeepsBan(s: Step, ip: nat) {
    s.LiftSoftBans? ==> BanIp(ip) in s.keep
  }

  lemma AdmissionFrom(cfg: Config, t: Table, t': Table, addr: Addr, peerType: PeerType, ip: nat)
    requires TokensOk(t) && BanIp(ip) in t.softBans && addr.ip != ip
    requires t'.connections == t.connections && t.softBans <= t'.softBans
    requires t'.candidates == t.candidates
             || t'.candidates == t.candidates[t.nextToken := Conn(t.nextToken, None, addr, addr.port, peerType)]
    ensures NobodyNewFrom(ip, t, t') && BanIp(ip) in t'.softBans
  {
  }

  lemma BannedNotAdmitted(cfg: Config, t: Table, ip: nat, addr: Addr, peerType: PeerType, respectMax: bool, dial: Dial)
    requires TokensOk(t) && BanIp(ip) in t.softBans
    ensures var t' := Connect(cfg, t, peerType, addr, respectMax, dial);
            NobodyNewFrom(ip, t, t') && BanIp(ip) in t'.softBans
  {
    hide TokensOk, NobodyNewFrom, Connect;
    ConnectEffect(cfg, t, peerType, addr, respectMax, dial);
    var t' := Connect(cfg, t, peerType, addr, respectMax, dial);
    if addr.ip == ip {
      SameLive(ip, t, t');
    } else {
      AdmissionFrom(cfg, t, t', addr, peerType, ip);
    }
  }

  lemma SameLive(ip: nat, t: Table, t': Table)
    requires t'.candidates == t.candidates && t'.connections == t.connections
    ensures NobodyNewFrom(ip, t, t')
  {
  }

  lemma FewerLive(ip: nat, t: Table, t': Table, gone: set<Token>)
    requires t'.candidates == t.candidates - gone && t'.connections == t.connections - gone
    ensures NobodyNewFrom(ip, t, t')
  {
  }

  lemma NobodyNewTransitive(ip: nat, a: Table, b: Table, c: Table)
    requires NobodyNewFrom(ip, a, b) && NobodyNewFrom(ip, b, c)
    ensures NobodyNewFrom(ip, a, c)
  {
  }

  lemma {:induction false} DialledNotAdmitted(cfg: Config, t: Table, ip: nat, addrs: seq<Addr>, dials: seq<Dial>, count: nat)
    requires Inv(cfg, t) && BanIp(ip) in t.softBans && |dials| == |addrs|
    ensures var t' := ConnectAll(cfg, t, addrs, dials, count);
            NobodyNewFrom(ip, t, t') && BanIp(ip) in t'.softBans
    decreases |addrs|
  {
    hide Inv, Connect, Connected, NobodyNewFrom;
    if addrs == [] || count >= cfg.desiredNodes {
      SameLive(ip, t, t);
    } else {
      var t1 := Connect(cfg, t, Node, addrs[0], true, dials[0]);
      var count' := if Connected(cfg, t, Node, addrs[0], true, dials[0]) then count + 1 else count;
      ConnectKeepsInv(cfg, t, Node, addrs[0], true, dials[0]);
      InvTokens(cfg, t);
      BannedNotAdmitted(cfg, t, ip, addrs[0], Node, true, dials[0]);
      DialledNotAdmitted(cfg, t1, ip, addrs[1..], dials[1..], count');
      NobodyNewTransitive(ip, t, t1, ConnectAll(cfg, t1, addrs[1..], dials[1..], count'));
    }
  }

  lemma InvTokens(cfg: Config, t: Table)
    requires Inv(cfg, t)
    ensures TokensOk(t)
  {
  }

  lemma PromotionNotNew(cfg: Config, t: Table, ip: nat, k: Token, w: World)
    requires TokensOk(t) && |w.dials| == |w.order|
    ensures NobodyNewFrom(ip, t, Apply(cfg, t, Promotion(k), w))
  {
    hide Apply;
    PromotionEffect(cfg, t, k, w);
  }

  lemma ChangeNotNew(cfg: Config, t: Table, ip: nat, change: Change, w: World)
    requires Inv(cfg, t) && BanIp(ip) in t.softBans && |w.dials| == |w.order|
    ensures var t' := Apply(cfg, t, change, w);
            NobodyNewFrom(ip, t, t') && BanIp(ip) in t'.softBans
  {
    hide Inv, TokensOk, NobodyNewFrom, OthersKept, Connect, ConnectAll, Promote, Expel, RemoveAndUnpersist, RemoveConnections;
    InvTokens(cfg, t);
    var t' := Apply(cfg, t, change, w);
    match change
    case NewConn(addr, peerType, given) => BannedNotAdmitted(cfg, t, ip, addr, peerType, !given, w.dial);
    case NewPeers(_) => DialledNotAdmitted(cfg, t, ip, w.order, w.dials, NodeCount(t.connections));
    case Promotion(k) =>
      PromotionNotNew(cfg, t, ip, k, w);
      PromotionEffect(cfg, t, k, w);
    case Expulsion(k) =>
      RemovalEffect(cfg, t, k, true, w);
      FewerLive(ip, t, t', {k});
    case Removal(k) =>
      RemovalEffect(cfg, t, k, false, w);
      FewerLive(ip, t, t', {k});
    case RemoveAll(tokens) =>
      RemoveAllEffect(cfg, t, tokens, w);
      FewerLive(ip, t, t', (set k | k in tokens));
  }

  lemma StepNotNew(cfg: Config, t: Table, ip: nat, s: Step)
    requires Inv(cfg, t) && Enabled(t, s) && BanIp(ip) in t.softBans && KeepsBan(s, ip)
    ensures var t' := Next(cfg, t, s);
            NobodyNewFrom(ip, t, t') && BanIp(ip) in t'.softBans
  {
    hide Inv, TokensOk, Connect, Apply, Handshake, Accept, NobodyNewFrom;
    InvTokens(cfg, t);
    var t' := Next(cfg, t, s);
    match s
    case Incoming(addr, banned, registered) =>
      AcceptEffect(cfg, t, addr, banned, registered);
      if addr.ip == ip {
        SameLive(ip, t, t');
      } else {
        AdmissionFrom(cfg, t, t', addr, Node, ip);
      }
    case Outgoing(peerType, addr, respectMax, dial) => BannedNotAdmitted(cfg, t, ip, addr, peerType, respectMax, dial);
    case Greeting(k, id, port) => GreetingNotNew(cfg, t, ip, k, id, port);
    case Request(change) => SameLive(ip, t, t');
    case ProcessNext(w) =>
      var t1 := t.(changes := t.changes[1..]);
      TakeChangeKeepsInv(cfg, t);
      SameLive(ip, t, t1);
      ChangeNotNew(cfg, t1, ip, t.changes[0], w);
      NobodyNewTransitive(ip, t, t1, t');
    case CloseCandidate(k) => ClosingNotNew(cfg, t, ip, k);
    case CloseConnection(k) => ClosingNotNew(cfg, t, ip, k);
    case LiftSoftBans(keep) => SameLive(ip, t, t');
  }

  lemma GreetingNotNew(cfg: Config, t: Table, ip: nat, k: Token, id: nat, port: nat)
    requires TokensOk(t)
    ensures var t' := Handshake(cfg, t, k, id, port);
            NobodyNewFrom(ip, t, t') && t'.softBans == t.softBans
  {
    hide Handshake;
    HandshakeEffect(cfg, t, k, id, port);
  }

  lemma ClosingNotNew(cfg: Config, t: Table, ip: nat, k: Token)
    requires Inv(cfg, t)
    ensures NobodyNewFrom(ip, t, DropCandidate(t, k)) && NobodyNewFrom(ip, t, DropConnection(t, k))
  {
    TokensDisjoint(cfg, t, k);
  }

  lemma {:induction false} BanHolds(cfg: Config, t: Table, ip: nat, steps: seq<Step>)
    requires Inv(cfg, t) && BanIp(ip) in t.softBans && Legal(cfg, t, steps)
    requires forall i :: 0 <= i < |steps| ==> KeepsBan(steps[i], ip)
    ensures var t' := Exec(cfg, t, steps);
            Inv(cfg, t') && NobodyNewFrom(ip, t, t') && BanIp(ip) in t'.softBans
    decreases |steps|
  {
    hide Inv, Next, Enabled, NobodyNewFrom, KeepsBan;
    if steps == [] {
      SameLive(ip, t, t);
    } else {
      var prev, last := steps[..|steps| - 1], steps[|steps| - 1];
      LegalPrefix(cfg, t, steps);
      assert forall i :: 0 <= i < |prev| ==> prev[i] == steps[i];
      BanHolds(cfg, t, ip, prev);
      var t1 := Exec(cfg, t, prev);
      StepKeepsInv(cfg, t1, last);
      StepNotNew(cfg, t1, ip, last);
      NobodyNewTransitive(ip, t, t1, Next(cfg, t1, last));
    }
  }

  /**
    After a live connection has been expelled, and until the ban of its ip is lifted: it is
    gone, and whatever happens, every live connection from its ip is one that was live before.
   */
  lemma ExpelledStaysOut(cfg: Config, t: Table, w: World, k: Token, steps: seq<Step>)
    requires Inv(cfg, t) && Enabled(t, ProcessNext(w)) && t.changes[0] == Expulsion(k) && Live(t, k).Some?
    requires Legal(cfg, Next(cfg, t, ProcessNext(w)), steps)
    requires forall i :: 0 <= i < |steps| ==> KeepsBan(steps[i], Live(t, k).value.addr.ip)
    ensures var ip := Live(t, k).value.addr.ip;
            var t' := Exec(cfg, Next(cfg, t, ProcessNext(w)), steps);
            && BanIp(ip) in t'.softBans
            && forall j :: Live(t', j).Some? && Live(t', j).value.addr.ip == ip ==>
                 j != k && Live(t, j).Some? && Live(t, j).value.addr == Live(t', j).value.addr
  {
    hide Inv, Apply, Legal, KeepsBan, OthersKept;
    var ip := Live(t, k).value.addr.ip;
    var t0 := t.(changes := t.changes[1..]);
    var t1 := Next(cfg, t, ProcessNext(w));
    StepKeepsInv(cfg, t, ProcessNext(w));
    TakeChangeKeepsInv(cfg, t);
    InvTokens(cfg, t0);
    RemovalEffect(cfg, t0, k, true, w);
    BanHolds(cfg, t1, ip, steps);
  }
}
