/** Runs of the connection table: the poll loop, its parallel readers and requests from other threads. */
module ConnectionRuns {
  import opened Common
  import opened Connections

  datatype Step =
    | Incoming(addr: Addr, banned: bool, registered: bool)
    | Outgoing(peerType: PeerType, addr: Addr, respectMax: bool, dial: Dial)
    | Greeting(k: Token, id: nat, port: nat)        // an accepted handshake, on any live connection
    | Request(change: Change)                       // by any thread, about any token
    | ProcessNext(w: World)                         // the poll loop takes the oldest queued change
    | CloseCandidate(k: Token)                      // housekeeping or shutdown
    | CloseConnection(k: Token)                     // housekeeping or shutdown
    | LiftSoftBans(keep: set<BanId>)

  ghost predicate Enabled(t: Table, s: Step) {
    match s
    case Greeting(k, _, _) => Live(t, k).Some?
    case Request(change) => !change.Promotion?
    case ProcessNext(w) =>
      && t.changes != [] && |w.dials| == |w.order|
      && (t.changes[0].NewPeers? ==> multiset(w.order) == multiset(t.changes[0].addrs))
    case _ => true
  }

  function Next(cfg: Config, t: Table, s: Step): Table {
    match s
    case Incoming(addr, banned, registered) => Accept(cfg, t, addr, banned, registered)
    case Outgoing(peerType, addr, respectMax, dial) => Connect(cfg, t, peerType, addr, respectMax, dial)
    case Greeting(k, id, port) => Handshake(cfg, t, k, id, port)
    case Request(change) => Register(cfg, t, change)
    case ProcessNext(w) =>
      if t.changes == [] || |w.dials| != |w.order| then t
      else Apply(cfg, t.(changes := t.changes[1..]), t.changes[0], w)
    case CloseCandidate(k) => DropCandidate(t, k)
    case CloseConnection(k) => DropConnection(t, k)
    case LiftSoftBans(keep) => t.(softBans := t.softBans * keep)
  }

  function Exec(cfg: Config, t: Table, steps: seq<Step>): Table {
    if steps == [] then t else Next(cfg, Exec(cfg, t, steps[..|steps| - 1]), steps[|steps| - 1])
  }

  ghost predicate Legal(cfg: Config, t: Table, steps: seq<Step>) {
    forall i :: 0 <= i < |steps| ==> Enabled(Exec(cfg, t, steps[..i]), steps[i])
  }

  lemma LegalPrefix(cfg: Config, t: Table, steps: seq<Step>)
    requires Legal(cfg, t, steps) && steps != []
    ensures var prev := steps[..|steps| - 1];
            Legal(cfg, t, prev) && Enabled(Exec(cfg, t, prev), steps[|steps| - 1])
  {
    var prev := steps[..|steps| - 1];
    assert forall i :: 0 <= i < |prev| ==> prev[..i] == steps[..i] && prev[i] == steps[i];
  }

  // ----- what every run keeps

  lemma TakeChangeKeepsInv(cfg: Config, t: Table)
    requires Inv(cfg, t) && t.changes != []
    ensures var t' := t.(changes := t.changes[1..]);
            Inv(cfg, t') && Processable(t', t.changes[0])
  {
    hide RemotesDistinct, PostHandshake;
    var t' := t.(changes := t.changes[1..]);
    assert All(t') == All(t);
    assert t.changes[0] in t.changes;
    forall change | change in t'.changes ensures Processable(t', change) {
      assert change in t.changes && Processable(t, change);
    }
  }

  lemma StepKeepsInv(cfg: Config, t: Table, s: Step)
    requires Inv(cfg, t) && Enabled(t, s)
    ensures Inv(cfg, Next(cfg, t, s))
  {
    hide Inv, Accept, Connect, Handshake, Register, Apply, DropCandidate, DropConnection;
    match s
    case Incoming(addr, banned, registered) => AcceptKeepsInv(cfg, t, addr, banned, registered);
    case Outgoing(peerType, addr, respectMax, dial) => ConnectKeepsInv(cfg, t, peerType, addr, respectMax, dial);
    case Greeting(k, id, port) => HandshakeKeepsInv(cfg, t, k, id, port);
    case Request(change) => RegisterKeepsInv(cfg, t, change);
    case ProcessNext(w) =>
      TakeChangeKeepsInv(cfg, t);
      ApplyKeepsInv(cfg, t.(changes := t.changes[1..]), t.changes[0], w);
    case CloseCandidate(k) => DropCandidateKeepsInv(cfg, t, k);
    case CloseConnection(k) => DropConnectionKeepsInv(cfg, t, k);
    case LiftSoftBans(keep) => StoreIndependent(cfg, t, t.persisted, t.softBans * keep);
  }

  lemma {:induction false} RunKeepsInv(cfg: Config, stored: set<Addr>, steps: seq<Step>)
    requires Legal(cfg, Initial(stored), steps)
    ensures Inv(cfg, Exec(cfg, Initial(stored), steps))
    decreases |steps|
  {
    hide Next, Enabled, Inv;
    if steps == [] {
      InitialIsFine(cfg, stored);
    } else {
      LegalPrefix(cfg, Initial(stored), steps);
      RunKeepsInv(cfg, stored, steps[..|steps| - 1]);
      StepKeepsInv(cfg, Exec(cfg, Initial(stored), steps[..|steps| - 1]), steps[|steps| - 1]);
    }
  }

  lemma InitialIsFine(cfg: Config, stored: set<Addr>)
    ensures Inv(cfg, Initial(stored)) && ExternalsOk(Initial(stored))
  {
    assert PostHandshake(map[]) == {};
    assert All(Initial(stored)) == map[];
  }

  /**
    In every reachable state, even with stale, repeated and lost change requests: every
    established connection has completed its handshake, so its peer id can be unwrapped.
   */
  lemma EstablishedHaveIds(cfg: Config, stored: set<Addr>, steps: seq<Step>, k: Token)
    requires Legal(cfg, Initial(stored), steps)
    requires k in Exec(cfg, Initial(stored), steps).connections
    ensures Exec(cfg, Initial(stored), steps).connections[k].selfId.Some?
  {
    RunKeepsInv(cfg, stored, steps);
  }

  /** There is at most one live connection to a remote address, and one per ip if that is configured. */
  lemma AtMostOneConnectionTo(cfg: Config, stored: set<Addr>, steps: seq<Step>, j: Token, k: Token)
    requires Legal(cfg, Initial(stored), steps)
    requires var t := Exec(cfg, Initial(stored), steps);
             && Live(t, j).Some? && Live(t, k).Some?
             && (if cfg.disallowMultiplePeersOnIp then Live(t, j).value.addr.ip == Live(t, k).value.addr.ip
                 else Live(t, j).value.addr == Live(t, k).value.addr)
    ensures j == k
  {
    RunKeepsInv(cfg, stored, steps);
    var t := Exec(cfg, Initial(stored), steps);
    assert All(t)[j] == Live(t, j).value && All(t)[k] == Live(t, k).value;
  }

  // ----- the gauge

  /** The number of handshakes that a run handles on connections already past theirs. */
  function Repeats(cfg: Config, stored: set<Addr>, steps: seq<Step>): nat {
    if steps == [] then 0
    else
      var prev, s := steps[..|steps| - 1], steps[|steps| - 1];
      var live := if s.Greeting? then Live(Exec(cfg, Initial(stored), prev), s.k) else None;
      Repeats(cfg, stored, prev) + (if live.Some? && live.value.selfId.Some? then 1 else 0)
  }

  lemma {:induction false} ConnectAllKeepsRepeats(cfg: Config, t: Table, addrs: seq<Addr>, dials: seq<Dial>, count: nat)
    requires |dials| == |addrs|
    ensures ConnectAll(cfg, t, addrs, dials, count).repeats == t.repeats
    decreases |addrs|
  {
    if addrs == [] || count >= cfg.desiredNodes {
    } else {
      var count' := if Connected(cfg, t, Node, addrs[0], true, dials[0]) then count + 1 else count;
      ConnectAllKeepsRepeats(cfg, Connect(cfg, t, Node, addrs[0], true, dials[0]), addrs[1..], dials[1..], count');
    }
  }

  lemma {:induction false} RemovalsKeepRepeats(t: Table, tokens: seq<Token>)
    ensures RemoveConnections(t, tokens).repeats == t.repeats
    decreases |tokens|
  {
    if tokens == [] {
    } else {
      RemovalsKeepRepeats(RemoveConnection(t, tokens[0]), tokens[1..]);
    }
  }

  lemma {:induction false} RepeatsCounted(cfg: Config, stored: set<Addr>, steps: seq<Step>)
    ensures Exec(cfg, Initial(stored), steps).repeats == Repeats(cfg, stored, steps)
    decreases |steps|
  {
    if steps == [] {
    } else {
      var prev, s := steps[..|steps| - 1], steps[|steps| - 1];
      RepeatsCounted(cfg, stored, prev);
      StepRepeats(cfg, Exec(cfg, Initial(stored), prev), s);
    }
  }

  lemma StepRepeats(cfg: Config, t: Table, s: Step)
    ensures Next(cfg, t, s).repeats
            == t.repeats + (if s.Greeting? && Live(t, s.k).Some? && Live(t, s.k).value.selfId.Some? then 1 else 0)
  {
    if s.ProcessNext? && t.changes != [] && |s.w.dials| == |s.w.order| {
      var t' := t.(changes := t.changes[1..]);
      ConnectAllKeepsRepeats(cfg, t', s.w.order, s.w.dials, NodeCount(t'.connections));
      if t.changes[0].RemoveAll? {
        RemovalsKeepRepeats(t', t.changes[0].tokens);
      }
    }
  }

  /** The gauge equals the number of live post-handshake connections exactly in runs without a repeated handshake. */
  lemma GaugeExact(cfg: Config, stored: set<Addr>, steps: seq<Step>)
    requires Legal(cfg, Initial(stored), steps)
    ensures var t := Exec(cfg, Initial(stored), steps);
            t.gauge == |PostHandshake(t.candidates)| + |PostHandshake(t.connections)| <==> Repeats(cfg, stored, steps) == 0
  {
    RunKeepsInv(cfg, stored, steps);
    RepeatsCounted(cfg, stored, steps);
  }

  // ----- external addresses and the peer store

  predicate AddressFree(t: Table, addr: Addr, except: Token) {
    forall j :: j in t.connections && j != except ==> External(t.connections[j]) != addr
  }

  /**
    What keeps external addresses distinct and stored. Two things can go wrong: an established
    connection greets again, announcing a port whose address is taken or not stored; or storing
    a promoted peer fails while its address is not stored yet.
   */
  ghost predicate Benign(t: Table, s: Step) {
    match s
    case Greeting(k, _, port) =>
      k !in t.candidates && k in t.connections ==>
        var addr := Addr(t.connections[k].addr.ip, port);
        AddressFree(t, addr, k) && addr in t.persisted
    case ProcessNext(w) =>
      t.changes != [] && t.changes[0].Promotion? && t.changes[0].token in t.candidates && !w.stored ==>
        var addr := External(t.candidates[t.changes[0].token]);
        AnyIn(t.connections, e => BlocksPromotion(e, addr)) || addr in t.persisted
    case _ => true
  }

  lemma GreetingExternals(cfg: Config, t: Table, k: Token, id: nat, port: nat)
    requires ExternalsOk(t) && Live(t, k).Some?
    ensures ExternalsOk(Handshake(cfg, t, k, id, port)) <==> Benign(t, Greeting(k, id, port))
  {
    var t' := Handshake(cfg, t, k, id, port);
    if k !in t.candidates {
      var addr := Addr(t.connections[k].addr.ip, port);
      assert External(t'.connections[k]) == addr;
      if ExternalsOk(t') {
        forall j | j in t.connections && j != k ensures External(t.connections[j]) != addr {
          assert External(t'.connections[j]) == External(t.connections[j]);
        }
      }
    }
  }

  lemma PromoteExternals(cfg: Config, t: Table, k: Token, stored: bool)
    requires Inv(cfg, t) && ExternalsOk(t)
    ensures var blocked := k in t.candidates && AnyIn(t.connections, e => BlocksPromotion(e, External(t.candidates[k])));
            ExternalsOk(Promote(t, k, stored))
            <==> (k !in t.candidates || stored || blocked || External(t.candidates[k]) in t.persisted)
  {
    hide RemotesDistinct, PostHandshake, HandshakesOk;
    if k in t.candidates {
      var c, t' := t.candidates[k], Promote(t, k, stored);
      if !AnyIn(t.connections, e => BlocksPromotion(e, External(c))) {
        assert forall j :: j in t.connections ==> !BlocksPromotion(t.connections[j], External(c));
        assert t'.connections[k] == c;
      }
    }
  }

  /** Taking connections out, and their addresses out of the store, leaves the others stored. */
  lemma RemovalExternals(t: Table, t': Table, gone: set<Token>)
    requires ExternalsOk(t)
    requires t'.connections == t.connections - gone
    requires t.persisted - (set k | k in t.connections && k in gone :: External(t.connections[k])) <= t'.persisted
    ensures ExternalsOk(t')
  {
  }

  lemma ApplyExternals(cfg: Config, t: Table, change: Change, w: World)
    requires Inv(cfg, t) && Processable(t, change) && |w.dials| == |w.order| && ExternalsOk(t)
    ensures !change.Promotion? ==> ExternalsOk(Apply(cfg, t, change, w))
  {
    hide Inv, Connect, ConnectAll, RemoveConnections, ExternalsOk;
    var t' := Apply(cfg, t, change, w);
    match change
    case NewConn(addr, peerType, given) =>
      ConnectKeepsInv(cfg, t, peerType, addr, !given, w.dial);
      SameExternals(t, t');
    case NewPeers(_) =>
      ConnectAllKeepsInv(cfg, t, w.order, w.dials, NodeCount(t.connections));
      SameExternals(t, t');
    case Promotion(k) =>
    case Expulsion(k) => RemoveOneExternals(cfg, t, t', k, w.stored);
    case Removal(k) => RemoveOneExternals(cfg, t, t', k, w.stored);
    case RemoveAll(tokens) =>
      RemoveConnectionsKeepInv(cfg, t, tokens);
      assert RemovedExternals(t, tokens)
          == set k | k in t.connections && k in (set j | j in tokens) :: External(t.connections[k]);
      RemovalExternals(t, t', (set k | k in tokens));
  }

  lemma RemoveOneExternals(cfg: Config, t: Table, t': Table, k: Token, stored: bool)
    requires Inv(cfg, t) && ExternalsOk(t)
    requires t'.connections == RemoveAndUnpersist(t, k, stored).connections
    requires t'.persisted == RemoveAndUnpersist(t, k, stored).persisted
    ensures ExternalsOk(t')
  {
    hide RemotesDistinct, PostHandshake, HandshakesOk;
    RemoveConnectionKeepsInv(cfg, t, k);
  }

  lemma SameExternals(t: Table, t': Table)
    requires ExternalsOk(t) && t'.connections == t.connections && t'.persisted == t.persisted
    ensures ExternalsOk(t')
  {
  }

  /** A step leaves the external addresses distinct and stored if and only if it is benign. */
  lemma StepExternals(cfg: Config, t: Table, s: Step)
    requires Inv(cfg, t) && Enabled(t, s) && ExternalsOk(t)
    ensures ExternalsOk(Next(cfg, t, s)) <==> Benign(t, s)
  {
    hide Inv, Connect, Apply, Handshake, ExternalsOk;
    match s
    case Incoming(addr, banned, registered) => SameExternals(t, Next(cfg, t, s));
    case Outgoing(peerType, addr, respectMax, dial) =>
      ConnectKeepsInv(cfg, t, peerType, addr, respectMax, dial);
      SameExternals(t, Next(cfg, t, s));
    case Greeting(k, id, port) => GreetingExternals(cfg, t, k, id, port);
    case Request(change) => SameExternals(t, Next(cfg, t, s));
    case ProcessNext(w) => ProcessExternals(cfg, t, w);
    case CloseCandidate(k) => SameExternals(t, Next(cfg, t, s));
    case CloseConnection(k) => RemovalExternals(t, Next(cfg, t, s), {k});
    case LiftSoftBans(keep) => SameExternals(t, Next(cfg, t, s));
  }

  lemma ProcessExternals(cfg: Config, t: Table, w: World)
    requires Inv(cfg, t) && Enabled(t, ProcessNext(w)) && ExternalsOk(t)
    ensures ExternalsOk(Next(cfg, t, ProcessNext(w))) <==> Benign(t, ProcessNext(w))
  {
    hide Inv, Promote, ExternalsOk;
    var t' := t.(changes := t.changes[1..]);
    TakeChangeKeepsInv(cfg, t);
    SameExternals(t, t');
    ApplyExternals(cfg, t', t.changes[0], w);
    if t.changes[0].Promotion? {
      PromoteExternals(cfg, t', t.changes[0].token, w.stored);
    }
  }

  /** In runs of benign steps, established connections have distinct external addresses, all of them stored. */
  lemma {:induction false} BenignRunsKeepExternals(cfg: Config, stored: set<Addr>, steps: seq<Step>)
    requires Legal(cfg, Initial(stored), steps)
    requires forall i :: 0 <= i < |steps| ==> Benign(Exec(cfg, Initial(stored), steps[..i]), steps[i])
    ensures ExternalsOk(Exec(cfg, Initial(stored), steps))
    decreases |steps|
  {
    hide Next, Enabled, Inv, Benign, ExternalsOk;
    if steps == [] {
      InitialIsFine(cfg, stored);
    } else {
      var prev := steps[..|steps| - 1];
      LegalPrefix(cfg, Initial(stored), steps);
      assert forall i :: 0 <= i < |prev| ==> prev[..i] == steps[..i] && prev[i] == steps[i];
      BenignRunsKeepExternals(cfg, stored, prev);
      RunKeepsInv(cfg, stored, prev);
      StepExternals(cfg, Exec(cfg, Initial(stored), prev), steps[|steps| - 1]);
    }
  }

  /** Over a run, they are so at every moment if and only if every step is benign. */
  lemma ExternalsThroughout(cfg: Config, stored: set<Addr>, steps: seq<Step>)
    requires Legal(cfg, Initial(stored), steps)
    ensures (forall i :: 0 <= i <= |steps| ==> ExternalsOk(Exec(cfg, Initial(stored), steps[..i])))
            <==> (forall i :: 0 <= i < |steps| ==> Benign(Exec(cfg, Initial(stored), steps[..i]), steps[i]))
  {
    hide Next, Enabled, Inv, Benign, ExternalsOk;
    if forall i :: 0 <= i < |steps| ==> Benign(Exec(cfg, Initial(stored), steps[..i]), steps[i]) {
      forall i | 0 <= i <= |steps| ensures ExternalsOk(Exec(cfg, Initial(stored), steps[..i])) {
        assert forall j :: 0 <= j < i ==> steps[..i][..j] == steps[..j] && steps[..i][j] == steps[j];
        BenignRunsKeepExternals(cfg, stored, steps[..i]);
      }
    } else {
      var i :| 0 <= i < |steps| && !Benign(Exec(cfg, Initial(stored), steps[..i]), steps[i]);
      assert forall j :: 0 <= j < i ==> steps[..i][..j] == steps[..j] && steps[..i][j] == steps[j];
      RunKeepsInv(cfg, stored, steps[..i]);
      assert steps[..i + 1][..i] == steps[..i] && steps[..i + 1][i] == steps[i];
      if ExternalsOk(Exec(cfg, Initial(stored), steps[..i])) {
        StepExternals(cfg, Exec(cfg, Initial(stored), steps[..i]), steps[i]);
      }
    }
  }

  /** A first handshake, or a change processed while the store works, or any other step. */
  predicate WellBehaved(t: Table, s: Step) {
    && (s.Greeting? ==> Live(t, s.k).Some? && Live(t, s.k).value.selfId.None?)
    && (s.ProcessNext? ==> s.w.stored)
  }

  /**
    With at most one handshake per connection and a store that does not fail: distinct stored
    external addresses, and a gauge that counts the live post-handshake connections.
   */
  lemma WellBehavedRuns(cfg: Config, stored: set<Addr>, steps: seq<Step>)
    requires Legal(cfg, Initial(stored), steps)
    requires forall i :: 0 <= i < |steps| ==> WellBehaved(Exec(cfg, Initial(stored), steps[..i]), steps[i])
    ensures var t := Exec(cfg, Initial(stored), steps);
            && ExternalsOk(t)
            && t.gauge == |PostHandshake(t.candidates)| + |PostHandshake(t.connections)|
  {
    forall i | 0 <= i < |steps| ensures Benign(Exec(cfg, Initial(stored), steps[..i]), steps[i]) {
      assert forall j :: 0 <= j < i ==> steps[..i][..j] == steps[..j] && steps[..i][j] == steps[j];
      RunKeepsInv(cfg, stored, steps[..i]);
    }
    BenignRunsKeepExternals(cfg, stored, steps);
    NoRepeats(cfg, stored, steps);
    GaugeExact(cfg, stored, steps);
  }

  lemma {:induction false} NoRepeats(cfg: Config, stored: set<Addr>, steps: seq<Step>)
    requires forall i :: 0 <= i < |steps| ==> WellBehaved(Exec(cfg, Initial(stored), steps[..i]), steps[i])
    ensures Repeats(cfg, stored, steps) == 0
    decreases |steps|
  {
    if steps == [] {
    } else {
      var prev := steps[..|steps| - 1];
      assert forall i :: 0 <= i < |prev| ==> prev[..i] == steps[..i] && prev[i] == steps[i];
      NoRepeats(cfg, stored, prev);
      assert WellBehaved(Exec(cfg, Initial(stored), prev), steps[|steps| - 1]);
    }
  }

  // ----- a repeated handshake really does break both claims

  lemma ExecOneMore(cfg: Config, t: Table, steps: seq<Step>, s: Step)
    requires Legal(cfg, t, steps) && Enabled(Exec(cfg, t, steps), s)
    ensures Legal(cfg, t, steps + [s])
    ensures Exec(cfg, t, steps + [s]) == Next(cfg, Exec(cfg, t, steps), s)
  {
    var all := steps + [s];
    assert all[..|all| - 1] == steps;
    forall i | 0 <= i < |all| ensures Enabled(Exec(cfg, t, all[..i]), all[i]) {
      if i < |steps| {
        assert all[..i] == steps[..i] && all[i] == steps[i];
      }
    }
  }

  function Peer(k: Token, id: Option<nat>, port: nat): Conn {
    Conn(k, id, Addr(1, 10 * k), port, Node)
  }

  function BothWaiting(stored: set<Addr>): Table {
    Initial(stored).(candidates := map[1 := Peer(1, None, 10), 2 := Peer(2, None, 20)], nextToken := 3)
  }

  function BothKnown(stored: set<Addr>): Table {
    BothWaiting(stored).(candidates := map[1 := Peer(1, Some(0), 10), 2 := Peer(2, Some(0), 20)],
                         changes := [Promotion(1), Promotion(2)], gauge := 2)
  }

  function BothEstablished(stored: set<Addr>): Table {
    BothKnown(stored).(candidates := map[], connections := BothKnown(stored).candidates, changes := [],
                       persisted := stored + {Addr(1, 10)} + {Addr(1, 20)})
  }

  const STORED := World(true, {}, Dialled, [], [])

  ghost predicate LeadsTo(cfg: Config, t: Table, a: Step, b: Step, t': Table) {
    Enabled(t, a) && Enabled(Next(cfg, t, a), b) && Next(cfg, Next(cfg, t, a), b) == t'
  }

  lemma TwoMore(cfg: Config, t: Table, steps: seq<Step>, a: Step, b: Step, t': Table)
    requires Legal(cfg, t, steps) && LeadsTo(cfg, Exec(cfg, t, steps), a, b, t')
    ensures Legal(cfg, t, steps + [a] + [b]) && Exec(cfg, t, steps + [a] + [b]) == t'
  {
    ExecOneMore(cfg, t, steps, a);
    ExecOneMore(cfg, t, steps + [a], b);
  }

  lemma BothAccepted(cfg: Config, stored: set<Addr>)
    requires !cfg.disallowMultiplePeersOnIp && cfg.hardConnectionLimit >= 3
    ensures LeadsTo(cfg, Initial(stored), Incoming(Addr(1, 10), false, true), Incoming(Addr(1, 20), false, true),
                    BothWaiting(stored))
  {
    var t := Next(cfg, Initial(stored), Incoming(Addr(1, 10), false, true));
    assert t.candidates == map[1 := Peer(1, None, 10)];
  }

  lemma BothGreeted(cfg: Config, stored: set<Addr>)
    requires cfg.hardConnectionLimit >= 3
    ensures LeadsTo(cfg, BothWaiting(stored), Greeting(1, 0, 10), Greeting(2, 0, 20), BothKnown(stored))
  {
    var t := Next(cfg, BothWaiting(stored), Greeting(1, 0, 10));
    assert Next(cfg, t, Greeting(2, 0, 20)).candidates == BothKnown(stored).candidates;
  }

  lemma BothPromoted(cfg: Config, stored: set<Addr>)
    ensures LeadsTo(cfg, BothKnown(stored), ProcessNext(STORED), ProcessNext(STORED), BothEstablished(stored))
  {
    var t := Next(cfg, BothKnown(stored), ProcessNext(STORED));
    assert t.connections == map[1 := Peer(1, Some(0), 10)] && t.changes == [Promotion(2)];
    assert Next(cfg, t, ProcessNext(STORED)).connections == BothEstablished(stored).connections;
  }

  /**
    Two peers behind one ip; the second announces the port of the first once both are
    established. Then two established connections have the same external address, and the
    gauge counts three connections where there are two.
   */
  lemma RepeatedHandshakeBreaks(cfg: Config, stored: set<Addr>) returns (steps: seq<Step>)
    requires !cfg.disallowMultiplePeersOnIp && cfg.hardConnectionLimit >= 3
    ensures Legal(cfg, Initial(stored), steps) && Repeats(cfg, stored, steps) == 1
    ensures var t := Exec(cfg, Initial(stored), steps);
            && t.connections.Keys == {1, 2} && External(t.connections[1]) == External(t.connections[2])
            && t.candidates == map[] && t.gauge == 3
  {
    hide Next, Exec, Legal, LeadsTo, Enabled, Repeats;
    var t0 := Initial(stored);
    NoSteps(cfg, t0);
    BothAccepted(cfg, stored);
    TwoMore(cfg, t0, [], Incoming(Addr(1, 10), false, true), Incoming(Addr(1, 20), false, true), BothWaiting(stored));
    steps := [] + [Incoming(Addr(1, 10), false, true)] + [Incoming(Addr(1, 20), false, true)];
    BothGreeted(cfg, stored);
    TwoMore(cfg, t0, steps, Greeting(1, 0, 10), Greeting(2, 0, 20), BothKnown(stored));
    steps := steps + [Greeting(1, 0, 10)] + [Greeting(2, 0, 20)];
    BothPromoted(cfg, stored);
    TwoMore(cfg, t0, steps, ProcessNext(STORED), ProcessNext(STORED), BothEstablished(stored));
    steps := steps + [ProcessNext(STORED)] + [ProcessNext(STORED)];
    AddressTaken(cfg, stored);
    ExecOneMore(cfg, t0, steps, Greeting(2, 0, 10));
    steps := steps + [Greeting(2, 0, 10)];
    RepeatsCounted(cfg, stored, steps);
  }

  lemma NoSteps(cfg: Config, t: Table)
    ensures Legal(cfg, t, []) && Exec(cfg, t, []) == t
  {
  }

  lemma AddressTaken(cfg: Config, stored: set<Addr>)
    ensures var t := Next(cfg, BothEstablished(stored), Greeting(2, 0, 10));
            && Enabled(BothEstablished(stored), Greeting(2, 0, 10)) && t.repeats == 1
            && t.connections.Keys == {1, 2} && External(t.connections[1]) == External(t.connections[2])
            && t.candidates == map[] && t.gauge == 3
  {
  }
}
