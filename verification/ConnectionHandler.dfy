/** The connection table as the node keeps it: maps, counters and the change queue, updated in place. */
module ConnectionHandlers {
  import opened Common
  import opened Connections
  import opened ConnectionRuns

  datatype AcceptResult =
    | Accepted(token: Token) | Banned | TooManyConnections | AlreadyConnectedToIP | DuplicateConnection
    | SoftBannedAddr | NotRegisteredWithPoll

  class ConnectionHandler {
    const cfg: Config
    var candidates: map<Token, Conn>
    var connections: map<Token, Conn>
    var nextToken: Token
    var changes: seq<Change>
    var softBans: set<BanId>
    var connectedPeers: int
    var persisted: set<Addr>
    ghost var repeats: nat

    ghost function Value(): Table
      reads this
    {
      Table(candidates, connections, nextToken, changes, softBans, connectedPeers, persisted, repeats)
    }

    constructor (cfg: Config, stored: set<Addr>)
      ensures Value() == Initial(stored) && this.cfg == cfg
      ensures Inv(cfg, Value())
    {
      this.cfg := cfg;
      candidates, connections, nextToken, changes := map[], map[], 1, [];
      softBans, connectedPeers, persisted, repeats := {}, 0, stored, 0;
      InitialIsFine(cfg, stored);
    }

    /** Admit an incoming connection as a candidate, or say why not. */
    method AcceptIncoming(addr: Addr, banned: bool, registered: bool) returns (r: AcceptResult)
      requires Inv(cfg, Value())
      modifies this`candidates, this`nextToken
      ensures Value() == Accept(cfg, old(Value()), addr, banned, registered) && Inv(cfg, Value())
      ensures r.Accepted? <==> !AcceptRefused(cfg, old(Value()), addr, banned) && registered
      ensures r.Accepted? ==> r.token == old(nextToken) && r.token in candidates && candidates[r.token].selfId.None?
      ensures var full := cfg.selfType == Node && old(|candidates|) + old(|connections|) >= cfg.hardConnectionLimit;
              var used := AnyIn(old(candidates), c => BlocksAccept(cfg, c, addr))
                          || AnyIn(old(connections), c => BlocksAccept(cfg, c, addr));
              && (r == Banned <==> banned)
              && (r == TooManyConnections <==> !banned && full)
              && (r == AlreadyConnectedToIP <==> !banned && !full && used && cfg.disallowMultiplePeersOnIp)
              && (r == DuplicateConnection <==> !banned && !full && used && !cfg.disallowMultiplePeersOnIp)
              && (r == SoftBannedAddr <==> !banned && !full && !used && SoftBanned(old(Value()), addr))
    {
      hide Inv;
      AcceptKeepsInv(cfg, Value(), addr, banned, registered);
      if banned {
        return Banned;
      }
      if cfg.selfType == Node && |candidates| + |connections| >= cfg.hardConnectionLimit {
        return TooManyConnections;
      }
      var blocked := AnyIn(candidates, c => BlocksAccept(cfg, c, addr)) || AnyIn(connections, c => BlocksAccept(cfg, c, addr));
      if blocked {
        return if cfg.disallowMultiplePeersOnIp then AlreadyConnectedToIP else DuplicateConnection;
      }
      if BanIp(addr.ip) in softBans || BanSocket(addr) in softBans {
        return SoftBannedAddr;
      }
      var token := nextToken;
      nextToken := nextToken + 1;
      if !registered {
        return NotRegisteredWithPoll;
      }
      candidates := candidates[token := Conn(token, None, addr, addr.port, Node)];
      return Accepted(token);
    }

    /** Dial out to `addr` and record the connection as a candidate. */
    method ConnectTo(peerType: PeerType, addr: Addr, respectMax: bool, dial: Dial) returns (ok: bool)
      requires Inv(cfg, Value())
      modifies this`candidates, this`nextToken, this`softBans
      ensures Value() == Connect(cfg, old(Value()), peerType, addr, respectMax, dial) && Inv(cfg, Value())
      ensures ok <==> Connected(cfg, old(Value()), peerType, addr, respectMax, dial)
    {
      hide Inv;
      ConnectKeepsInv(cfg, Value(), peerType, addr, respectMax, dial);
      if respectMax && peerType == Node {
        if NodeCount(connections) % 0x1_0000 >= cfg.maxAllowedNodes {
          return false;
        }
      }
      if cfg.selfAddr == addr || dial == BannedAddr || BanIp(addr.ip) in softBans || BanSocket(addr) in softBans {
        return false;
      }
      if AnyIn(connections, c => BlocksConnect(cfg, c, addr)) || AnyIn(candidates, c => BlocksConnect(cfg, c, addr)) {
        return false;
      }
      if dial == Unreachable {
        if peerType == Node {
          softBans := softBans + {BanSocket(addr)};
        }
        return false;
      }
      var token := nextToken;
      nextToken := nextToken + 1;
      if dial == NotRegistered {
        return false;
      }
      candidates := candidates[token := Conn(token, None, addr, addr.port, peerType)];
      return true;
    }

    /** Ask for a change; the request is lost if the queue is full. */
    method RegisterConnChange(change: Change)
      requires Inv(cfg, Value()) && Processable(Value(), change)
      modifies this`changes
      ensures Value() == Register(cfg, old(Value()), change) && Inv(cfg, Value())
    {
      hide Inv;
      RegisterKeepsInv(cfg, Value(), change);
      if |changes| < cfg.hardConnectionLimit {
        changes := changes + [change];
      }
    }

    /** Conclude the handshake of a live connection and ask for its promotion. */
    method PromoteToPostHandshake(k: Token, id: nat, port: nat)
      requires Inv(cfg, Value()) && (k in candidates || k in connections)
      modifies this`candidates, this`connections, this`connectedPeers, this`changes, this`repeats
      ensures Value() == Handshake(cfg, old(Value()), k, id, port) && Inv(cfg, Value())
    {
      hide Inv;
      GreetKeepsInv(cfg, Value(), k, id, port);
      ghost var again := Live(Value(), k).value.selfId.Some?;
      if k in candidates {
        candidates := candidates[k := candidates[k].(selfId := Some(id), externalPort := port)];
      } else {
        connections := connections[k := connections[k].(selfId := Some(id), externalPort := port)];
      }
      connectedPeers := connectedPeers + 1;
      repeats := if again then repeats + 1 else repeats;
      RegisterConnChange(Promotion(k));
    }

    /** The gauge follows every connection that is dropped. */
    method Drop(c: Conn)
      modifies this`connectedPeers
      ensures connectedPeers == old(connectedPeers) - GaugeDrop(c)
    {
      if c.selfId.Some? {
        connectedPeers := connectedPeers - 1;
      }
    }

    /** Close the connection with token `k`; tell what it was, if anything. */
    method Remove(k: Token) returns (removed: Option<(bool, Conn)>)
      requires Inv(cfg, Value())
      modifies this`candidates, this`connections, this`connectedPeers
      ensures Value() == RemoveConnection(old(Value()), k) && Inv(cfg, Value())
      ensures removed.Some? <==> k in old(candidates) || k in old(connections)
      ensures removed.Some? ==>
                removed.value == if k in old(candidates) then (false, old(candidates)[k]) else (true, old(connections)[k])
    {
      hide Inv;
      RemoveConnectionKeepsInv(cfg, Value(), k);
      if k in candidates {
        removed := Some((false, candidates[k]));
        candidates := candidates - {k};
        Drop(removed.value.1);
      } else if k in connections {
        removed := Some((true, connections[k]));
        connections := connections - {k};
        Drop(removed.value.1);
      } else {
        removed := None;
      }
    }

    /** Close all connections in `tokens` and collect the addresses of the established ones among them. */
    method RemoveMany(tokens: seq<Token>) returns (addrs: set<Addr>)
      requires Inv(cfg, Value())
      modifies this`candidates, this`connections, this`connectedPeers
      ensures Value() == RemoveConnections(old(Value()), tokens) && Inv(cfg, Value())
      ensures addrs == RemovedExternals(old(Value()), tokens)
    {
      hide Inv, RemoveConnection, RemovedExternals;
      addrs := {};
      ghost var before := Value();
      NothingRemoved(before);
      assert tokens[0..] == tokens;
      for i := 0 to |tokens|
        invariant RemoveConnections(before, tokens) == RemoveConnections(Value(), tokens[i..])
        invariant Inv(cfg, Value())
        invariant connections == before.connections - (set k | k in tokens[..i])
        invariant addrs == RemovedExternals(before, tokens[..i])
        invariant unchanged(`nextToken, `changes, `softBans, `persisted, `repeats)
      {
        assert tokens[i..][1..] == tokens[i + 1..];
        assert tokens[..i + 1] == tokens[..i] + [tokens[i]];
        OneMoreRemoved(before, tokens[..i], tokens[i]);
        RemoveConnectionKeepsInv(cfg, Value(), tokens[i]);
        TokensDisjoint(cfg, Value(), tokens[i]);
        var r := Remove(tokens[i]);
        if r.Some? && r.value.0 {
          addrs := addrs + {External(r.value.1)};
        }
      }
      assert tokens[..|tokens|] == tokens;
    }

    /** Process one queued change. */
    method ProcessConnChange(change: Change, w: World)
      requires Inv(cfg, Value()) && Processable(Value(), change) && |w.dials| == |w.order|
      modifies this`candidates, this`connections, this`connectedPeers, this`nextToken, this`softBans, this`persisted
      ensures Value() == Apply(cfg, old(Value()), change, w) && Inv(cfg, Value())
    {
      ApplyKeepsInv(cfg, Value(), change, w);
      hide Inv, Connect, ConnectAll, RemoveConnections, RemovedExternals;
      match change {
        case NewConn(addr, peerType, given) =>
          var ok := ConnectTo(peerType, addr, !given, w.dial);
        case NewPeers(_) =>
          ConnectMany(w.order, w.dials);
        case Promotion(k) =>
          PromoteCandidate(k, w.stored);
        case Expulsion(k) =>
          var r := Remove(k);
          if r.Some? {
            softBans := softBans + {BanIp(r.value.1.addr.ip)};
            if r.value.0 && w.stored {
              persisted := persisted - {External(r.value.1)};
            }
          }
        case Removal(k) =>
          var r := Remove(k);
          if r.Some? && r.value.0 && w.stored {
            persisted := persisted - {External(r.value.1)};
          }
        case RemoveAll(tokens) =>
          var addrs := RemoveMany(tokens);
          persisted := persisted - (addrs - w.failed);
      }
    }

    /** Move a candidate to the established connections, unless its address is already connected. */
    method PromoteCandidate(k: Token, stored: bool)
      requires Inv(cfg, Value()) && Processable(Value(), Promotion(k))
      modifies this`candidates, this`connections, this`connectedPeers, this`persisted
      ensures Value() == Promote(old(Value()), k, stored) && Inv(cfg, Value())
    {
      hide Inv;
      PromoteKeepsInv(cfg, Value(), k, stored);
      if k in candidates {
        var c := candidates[k];
        candidates := candidates - {k};
        var addr := External(c);
        if !AnyIn(connections, e => BlocksPromotion(e, addr)) {
          connections := connections[c.token := c];
          if stored {
            persisted := persisted + {addr};
          }
        } else {
          Drop(c);
        }
      }
    }

    /** Dial discovered peers until enough nodes are connected to. */
    method ConnectMany(order: seq<Addr>, dials: seq<Dial>)
      requires Inv(cfg, Value()) && |dials| == |order|
      modifies this`candidates, this`nextToken, this`softBans
      ensures Value() == ConnectAll(cfg, old(Value()), order, dials, NodeCount(old(connections))) && Inv(cfg, Value())
    {
      hide Inv, Connect, Connected;
      var count: nat := NodeCount(connections);
      ghost var goal := ConnectAll(cfg, Value(), order, dials, count);
      assert order[0..] == order && dials[0..] == dials;
      var i := 0;
      while i < |order|
        invariant 0 <= i <= |order|
        invariant goal == ConnectAll(cfg, Value(), order[i..], dials[i..], count) && Inv(cfg, Value())
      {
        if count >= cfg.desiredNodes {
          break;
        }
        assert order[i..][1..] == order[i + 1..] && dials[i..][1..] == dials[i + 1..];
        var ok := ConnectTo(Node, order[i], true, dials[i]);
        if ok {
          count := count + 1;
        }
        i := i + 1;
      }
    }

    /**
      The ids of the established peers, or of those of one type. Every established connection
      must have completed its handshake: its own id is unwrapped here.
     */
    method GetPeerStats(peerType: Option<PeerType>) returns (stats: seq<(Token, nat)>)
      requires Inv(cfg, Value())
      ensures Lists(stats, peerType, connections)
    {
      hide Inv, Lists;
      stats := [];
      var todo := connections.Keys;
      ListNone(peerType, connections);
      while todo != {}
        invariant todo <= connections.Keys
        invariant Lists(stats, peerType, connections - todo)
        decreases |todo|
      {
        var k :| k in todo;
        EstablishedHasId(cfg, Value(), k);
        ListOneMore(stats, peerType, connections, todo, k);
        if peerType.None? || peerType == Some(connections[k].peerType) {
          stats := stats + [(k, connections[k].selfId.value)];
        }
        todo := todo - {k};
      }
      assert connections - todo == connections;
    }

    // ----- runs

    method ProcessNextChange(w: World)
      requires Inv(cfg, Value()) && Enabled(Value(), ProcessNext(w))
      modifies this
      ensures Value() == Next(cfg, old(Value()), ProcessNext(w)) && Inv(cfg, Value())
    {
      hide Inv, Apply;
      TakeChangeKeepsInv(cfg, Value());
      var change := changes[0];
      changes := changes[1..];
      ProcessConnChange(change, w);
    }

    /** Close a candidate or an established connection, as housekeeping does. */
    method Close(k: Token, established: bool)
      requires Inv(cfg, Value())
      modifies this`candidates, this`connections, this`connectedPeers
      ensures Value() == (if established then DropConnection(old(Value()), k) else DropCandidate(old(Value()), k))
      ensures Inv(cfg, Value())
    {
      hide Inv;
      DropCandidateKeepsInv(cfg, Value(), k);
      DropConnectionKeepsInv(cfg, Value(), k);
      if established && k in connections {
        var c := connections[k];
        connections := connections - {k};
        Drop(c);
      } else if !established && k in candidates {
        var c := candidates[k];
        candidates := candidates - {k};
        Drop(c);
      }
    }

    /** One step of the poll loop, of one of its readers or of another thread. */
    method Perform(s: Step)
      requires Inv(cfg, Value()) && Enabled(Value(), s)
      modifies this
      ensures Value() == Next(cfg, old(Value()), s) && Inv(cfg, Value())
    {
      hide Inv, Accept, Connect, Handshake, Register, Apply, DropCandidate, DropConnection;
      StepKeepsInv(cfg, Value(), s);
      match s {
        case Incoming(addr, banned, registered) =>
          var r := AcceptIncoming(addr, banned, registered);
        case Outgoing(peerType, addr, respectMax, dial) =>
          var ok := ConnectTo(peerType, addr, respectMax, dial);
        case Greeting(k, id, port) => PromoteToPostHandshake(k, id, port);
        case Request(change) => RegisterConnChange(change);
        case ProcessNext(w) => ProcessNextChange(w);
        case CloseCandidate(k) => Close(k, false);
        case CloseConnection(k) => Close(k, true);
        case LiftSoftBans(keep) => softBans := softBans * keep;
      }
    }

    /**
      Any legal run, with the peers listed after every step: the object goes through the states
      of the run, and every listing unwraps the id of every established connection.
     */
    method Drive(steps: seq<Step>) returns (listings: seq<seq<(Token, nat)>>)
      requires Inv(cfg, Value()) && Legal(cfg, Value(), steps)
      modifies this
      ensures Value() == Exec(cfg, old(Value()), steps) && Inv(cfg, Value())
      ensures |listings| == |steps|
      ensures forall i :: 0 <= i < |steps| ==>
                Lists(listings[i], None, Exec(cfg, old(Value()), steps[..i + 1]).connections)
    {
      hide Inv, Next, Enabled, Lists;
      ghost var start := Value();
      listings := [];
      for n := 0 to |steps|
        invariant Value() == Exec(cfg, start, steps[..n]) && Inv(cfg, Value())
        invariant |listings| == n
        invariant forall i :: 0 <= i < n ==> Lists(listings[i], None, Exec(cfg, start, steps[..i + 1]).connections)
      {
        assert steps[..n + 1][..n] == steps[..n];
        Perform(steps[n]);
        var stats := GetPeerStats(None);
        listings := listings + [stats];
      }
      assert steps[..|steps|] == steps;
    }
  }

  /** Each connection of the type, or of any, is listed once, with the id of the peer. */
  ghost predicate Lists(stats: seq<(Token, nat)>, peerType: Option<PeerType>, connections: map<Token, Conn>) {
    && (forall i, j :: 0 <= i < j < |stats| ==> stats[i].0 != stats[j].0)
    && (forall k, id :: (k, id) in stats <==>
          && k in connections && connections[k].selfId == Some(id)
          && (peerType.None? || peerType == Some(connections[k].peerType)))
  }

  lemma ListNone(peerType: Option<PeerType>, connections: map<Token, Conn>)
    ensures Lists([], peerType, connections - connections.Keys)
  {
  }

  lemma ListOneMore(stats: seq<(Token, nat)>, peerType: Option<PeerType>, connections: map<Token, Conn>, todo: set<Token>,
                    k: Token)
    requires Lists(stats, peerType, connections - todo)
    requires k in todo && todo <= connections.Keys && connections[k].selfId.Some?
    ensures var c := connections[k];
            Lists(if peerType.None? || peerType == Some(c.peerType) then stats + [(k, c.selfId.value)] else stats,
                  peerType, connections - (todo - {k}))
  {
    assert connections - (todo - {k}) == (connections - todo)[k := connections[k]];
    forall i | 0 <= i < |stats| ensures stats[i].0 != k {
      assert (stats[i].0, stats[i].1) in stats;
    }
  }

  lemma EstablishedHasId(cfg: Config, t: Table, k: Token)
    requires Inv(cfg, t) && k in t.connections
    ensures t.connections[k].selfId.Some?
  {
  }

  lemma NothingRemoved(t: Table)
    ensures RemovedExternals(t, []) == {} && t.connections - (set k | k in []) == t.connections
  {
  }

  lemma OneMoreRemoved(t: Table, tokens: seq<Token>, k: Token)
    ensures RemovedExternals(t, tokens + [k])
            == RemovedExternals(t, tokens) + (if k in t.connections then {External(t.connections[k])} else {})
    ensures k in tokens && k in t.connections ==> External(t.connections[k]) in RemovedExternals(t, tokens)
  {
  }
}
