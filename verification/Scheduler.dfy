/**
  The worker threads that drain a high-priority and a low-priority queue of consensus
  messages: up to `limit` high-priority messages, then one low-priority message, and a blocking
  wait on both queues when they were found empty. Messages arrive at any time.
 */
module Scheduler {

  /** The limits of the inbound and the outbound worker, and the capacities of their low-priority queues. */
  const CONSENSUS_QUEUE_DEPTH_IN_HI: nat := 16 * 1024
  const CONSENSUS_QUEUE_DEPTH_IN_LO: nat := 32 * 1024
  const CONSENSUS_QUEUE_DEPTH_OUT_HI: nat := 8 * 1024
  const CONSENSUS_QUEUE_DEPTH_OUT_LO: nat := 16 * 1024

  datatype Msg = Relay(id: nat) | Stop

  /** Where the worker is in its loop. */
  datatype Place =
    | Top
    | Inner(round: nat)
    | TryLow(exhausted: bool)
    | Selecting
    | Halted

  /** The queues, and everything that has been taken from them so far. */
  datatype Worker = Worker(high: seq<Msg>, low: seq<Msg>, place: Place, takenHigh: seq<Msg>, takenLow: seq<Msg>)

  datatype Step = ArriveHigh(m: Msg) | ArriveLow(m: Msg) | Go | SelectHigh | SelectLow

  function TakeHigh(w: Worker, place: Place): Worker
    requires w.high != []
  {
    w.(high := w.high[1..], takenHigh := w.takenHigh + [w.high[0]], place := if w.high[0].Stop? then Halted else place)
  }

  function TakeLow(w: Worker): Worker
    requires w.low != []
  {
    w.(low := w.low[1..], takenLow := w.takenLow + [w.low[0]], place := if w.low[0].Stop? then Halted else Top)
  }

  predicate Enabled(w: Worker, t: Step) {
    match t
    case ArriveHigh(_) => true
    case ArriveLow(_) => true
    case Go => w.place != Selecting && w.place != Halted
    case SelectHigh => w.place == Selecting && w.high != []
    case SelectLow => w.place == Selecting && w.low != []
  }

  function Next(limit: nat, w: Worker, t: Step): Worker
    requires Enabled(w, t)
  {
    match t
    case ArriveHigh(m) => w.(high := w.high + [m])
    case ArriveLow(m) => w.(low := w.low + [m])
    case SelectHigh => TakeHigh(w, Top)
    case SelectLow => TakeLow(w)
    case Go =>
      match w.place
      case Top => w.(place := Inner(0))
      case Inner(round) =>
        if round >= limit then w.(place := TryLow(false))
        else if w.high != [] then TakeHigh(w, Inner(round + 1))
        else w.(place := TryLow(true))
      case TryLow(exhausted) =>
        if w.low != [] then TakeLow(w)
        else w.(place := if exhausted then Selecting else Top)
  }

  predicate Run(limit: nat, w: Worker, steps: seq<Step>, w': Worker)
    decreases |steps|
  {
    if steps == [] then w == w'
    else Enabled(w, steps[0]) && Run(limit, Next(limit, w, steps[0]), steps[1..], w')
  }

  // ----- what a pass takes

  /**
    Without arrivals, a pass takes the oldest high-priority messages, up to the limit, in order,
    and only then looks at the other queue; it notes that the queue was exhausted if there were
    fewer.
   */
  lemma {:induction false} InnerTakes(limit: nat, w: Worker) returns (steps: seq<Step>, w': Worker)
    requires w.place.Inner? && w.place.round <= limit
    requires forall m :: m in w.high ==> m.Relay?
    ensures Run(limit, w, steps, w') && forall t :: t in steps ==> t == Go
    ensures var n := if |w.high| < limit - w.place.round then |w.high| else limit - w.place.round;
            w' == w.(high := w.high[n..], takenHigh := w.takenHigh + w.high[..n],
                     place := TryLow(|w.high| < limit - w.place.round))
    decreases limit - w.place.round
  {
    hide Run, Next;
    var w1 := Next(limit, w, Go);
    InnerMove(limit, w);
    if w.place.round == limit || w.high == [] {
      steps, w' := [Go], w1;
      NoMoreSteps(limit, w1);
      GoFirst(limit, w, [], w1);
      assert [Go] + [] == [Go];
      assert w.high[..0] == [] && w.high[0..] == w.high && w.takenHigh + [] == w.takenHigh;
    } else {
      var rest;
      rest, w' := InnerTakes(limit, w1);
      steps := [Go] + rest;
      GoFirst(limit, w, rest, w');
      OneAndMore(w.takenHigh, w.high, |w'.takenHigh| - |w.takenHigh|);
    }
  }

  lemma InnerMove(limit: nat, w: Worker)
    requires w.place.Inner? && w.place.round <= limit
    requires forall m :: m in w.high ==> m.Relay?
    ensures Next(limit, w, Go)
            == if w.place.round == limit then w.(place := TryLow(false))
               else if w.high == [] then w.(place := TryLow(true))
               else w.(high := w.high[1..], takenHigh := w.takenHigh + [w.high[0]], place := Inner(w.place.round + 1))
  {
    if w.high != [] {
      assert w.high[0] in w.high;
    }
  }

  lemma OneAndMore(taken: seq<Msg>, high: seq<Msg>, n: nat)
    requires 0 < n <= |high|
    ensures taken + [high[0]] + high[1..][..n - 1] == taken + high[..n] && high[1..][n - 1..] == high[n..]
  {
  }

  lemma NoMoreSteps(limit: nat, w: Worker)
    ensures Run(limit, w, [], w)
  {
  }

  lemma GoFirst(limit: nat, w: Worker, rest: seq<Step>, w': Worker)
    requires Enabled(w, Go) && Run(limit, Next(limit, w, Go), rest, w')
    ensures Run(limit, w, [Go] + rest, w')
  {
    assert ([Go] + rest)[1..] == rest;
  }

  /**
    The other moves: a pass begins with no message taken, then tries one low-priority message,
    and waits on both queues only if both were found empty.
   */
  lemma OtherMoves(limit: nat, w: Worker)
    ensures w.place == Top ==> Next(limit, w, Go) == w.(place := Inner(0))
    ensures w.place.TryLow? && w.low != [] ==>
              Next(limit, w, Go) == w.(low := w.low[1..], takenLow := w.takenLow + [w.low[0]],
                                       place := if w.low[0] == Stop then Halted else Top)
    ensures w.place.TryLow? && w.low == [] ==>
              Next(limit, w, Go) == w.(place := if w.place.exhausted then Selecting else Top)
    ensures w.place == Selecting && w.high != [] ==>
              Next(limit, w, SelectHigh) == w.(high := w.high[1..], takenHigh := w.takenHigh + [w.high[0]],
                                               place := if w.high[0] == Stop then Halted else Top)
    ensures w.place == Selecting && w.low != [] ==>
              Next(limit, w, SelectLow) == w.(low := w.low[1..], takenLow := w.takenLow + [w.low[0]],
                                              place := if w.low[0] == Stop then Halted else Top)
  {
  }

  // ----- stopping

  /** A stop message among `taken` is the last. */
  ghost predicate StopIsLast(taken: seq<Msg>) {
    forall i :: 0 <= i < |taken| - 1 ==> taken[i] != Stop
  }

  /** The worker has halted exactly if it has taken a stop message, and that was the last message it took. */
  ghost predicate StopsOk(w: Worker) {
    && StopIsLast(w.takenHigh) && StopIsLast(w.takenLow)
    && !(Stop in w.takenHigh && Stop in w.takenLow)
    && (w.place == Halted <==> Stop in w.takenHigh || Stop in w.takenLow)
  }

  lemma {:induction false} StopHalts(limit: nat, w: Worker, steps: seq<Step>, w': Worker)
    requires Run(limit, w, steps, w') && StopsOk(w)
    ensures StopsOk(w')
    ensures w.place == Halted ==> w'.takenHigh == w.takenHigh && w'.takenLow == w.takenLow
    decreases |steps|
  {
    hide Run, StopsOk;
    if steps == [] {
      RunOfNothing(limit, w, w');
    } else {
      RunUnfolds(limit, w, steps, w');
      StepStops(limit, w, steps[0]);
      StopHalts(limit, Next(limit, w, steps[0]), steps[1..], w');
    }
  }

  lemma RunOfNothing(limit: nat, w: Worker, w': Worker)
    requires Run(limit, w, [], w')
    ensures w == w'
  {
  }

  lemma RunUnfolds(limit: nat, w: Worker, steps: seq<Step>, w': Worker)
    requires Run(limit, w, steps, w') && steps != []
    ensures Enabled(w, steps[0]) && Run(limit, Next(limit, w, steps[0]), steps[1..], w')
  {
  }

  lemma StepStops(limit: nat, w: Worker, t: Step)
    requires Enabled(w, t) && StopsOk(w)
    ensures StopsOk(Next(limit, w, t))
    ensures w.place == Halted ==> Next(limit, w, t) == w.(high := Next(limit, w, t).high, low := Next(limit, w, t).low)
  {
  }

  // ----- bounded overtaking

  /** How many high-priority messages can be taken from here before the worker looks at the low-priority queue. */
  function Budget(limit: nat, place: Place): nat {
    match place
    case Top => limit
    case Inner(round) => if round <= limit then limit - round else 0
    case TryLow(_) => 0
    case Selecting => limit + 1
    case Halted => 0
  }

  function Wait(limit: nat, ahead: nat, place: Place): nat {
    ahead * limit + Budget(limit, place)
  }

  lemma StepOvertakes(limit: nat, w: Worker, t: Step, ahead: nat)
    requires Enabled(w, t) && ahead < |w.low|
    ensures var w' := Next(limit, w, t);
            var lows := |w'.takenLow| - |w.takenLow|;
            && 0 <= lows <= 1
            && |w'.low| >= |w.low| - lows
            && (lows <= ahead ==>
                  |w'.takenHigh| + Wait(limit, ahead - lows, w'.place) <= |w.takenHigh| + Wait(limit, ahead, w.place))
  {
    var w' := Next(limit, w, t);
    if |w'.takenLow| > |w.takenLow| && ahead > 0 {
      OneFewer(limit, ahead);
    }
  }

  lemma OneFewer(limit: nat, ahead: nat)
    requires ahead > 0
    ensures (ahead - 1) * limit + limit == ahead * limit
  {
  }

  lemma {:induction false} RunOvertakes(limit: nat, w: Worker, steps: seq<Step>, w': Worker, ahead: nat)
    requires Run(limit, w, steps, w') && ahead < |w.low|
    ensures |w.takenLow| <= |w'.takenLow|
    ensures var lows := |w'.takenLow| - |w.takenLow|;
            lows <= ahead ==>
              |w'.takenHigh| + Wait(limit, ahead - lows, w'.place) <= |w.takenHigh| + Wait(limit, ahead, w.place)
    decreases |steps|
  {
    hide Next, Wait, Enabled;
    if steps == [] {
    } else {
      var w1 := Next(limit, w, steps[0]);
      StepOvertakes(limit, w, steps[0], ahead);
      var lows := |w1.takenLow| - |w.takenLow|;
      if lows <= ahead {
        RunOvertakes(limit, w1, steps[1..], w', ahead - lows);
      } else {
        TakenGrows(limit, w1, steps[1..], w');
      }
    }
  }

  lemma {:induction false} TakenGrows(limit: nat, w: Worker, steps: seq<Step>, w': Worker)
    requires Run(limit, w, steps, w')
    ensures w.takenLow <= w'.takenLow && w.takenHigh <= w'.takenHigh
    decreases |steps|
  {
    if steps == [] {
    } else {
      TakenGrows(limit, Next(limit, w, steps[0]), steps[1..], w');
    }
  }

  /**
    Under any arrival pattern: as long as a low-priority message with `ahead` others before it
    has not been taken, at most `(ahead + 1) * limit + 1` high-priority messages are taken.
   */
  lemma WaitingIsBounded(limit: nat, w: Worker, steps: seq<Step>, w': Worker, ahead: nat)
    requires Run(limit, w, steps, w') && ahead < |w.low|
    requires |w'.takenLow| <= |w.takenLow| + ahead
    ensures |w'.takenHigh| - |w.takenHigh| <= (ahead + 1) * limit + 1
  {
    RunOvertakes(limit, w, steps, w', ahead);
    assert (ahead + 1) * limit == ahead * limit + limit;
  }

  /** While some low-priority message waits, at most `limit + 1` high-priority ones go before the next low one. */
  lemma NextLowIsSoon(limit: nat, w: Worker, steps: seq<Step>, w': Worker)
    requires Run(limit, w, steps, w') && w.low != [] && w'.takenLow == w.takenLow
    ensures |w'.takenHigh| - |w.takenHigh| <= limit + 1
  {
    WaitingIsBounded(limit, w, steps, w', 0);
  }

  /**
    The two workers of the node: as their low-priority queues are bounded, every message in them
    is taken before 536,870,914 inbound or 134,217,730 outbound high-priority messages are.
   */
  lemma WorkersAreBounded(limit: nat, capacity: nat, w: Worker, steps: seq<Step>, w': Worker)
    requires Run(limit, w, steps, w') && |w.low| <= capacity && |w'.takenLow| < |w.takenLow| + |w.low|
    ensures |w'.takenHigh| - |w.takenHigh| <= capacity * limit + 1
    ensures limit == CONSENSUS_QUEUE_DEPTH_IN_HI && capacity == CONSENSUS_QUEUE_DEPTH_IN_LO ==>
              |w'.takenHigh| - |w.takenHigh| <= 536_870_913
    ensures limit == CONSENSUS_QUEUE_DEPTH_OUT_HI && capacity == CONSENSUS_QUEUE_DEPTH_OUT_LO ==>
              |w'.takenHigh| - |w.takenHigh| <= 134_217_729
  {
    hide Run;
    TakenGrows(limit, w, steps, w');
    WaitingIsBounded(limit, w, steps, w', |w.low| - 1);
    assert (capacity - |w.low|) * limit >= 0;
    assert capacity * limit == |w.low| * limit + (capacity - |w.low|) * limit;
  }

  /** The bound is met: a worker that waits for both queues may take `limit + 1` high-priority messages first. */
  lemma {:induction false} BoundIsMet(limit: nat, w: Worker) returns (steps: seq<Step>, w': Worker)
    requires w.place == Selecting && |w.high| == limit + 1 && w.low != []
    requires forall i :: 0 <= i < |w.high| ==> w.high[i].Relay?
    ensures Run(limit, w, steps, w') && w'.takenLow == w.takenLow
    ensures |w'.takenHigh| - |w.takenHigh| == limit + 1
  {
    var w1 := Next(limit, w, SelectHigh);
    var w2 := Next(limit, w1, Go);
    var rest;
    rest, w' := InnerRound(limit, w2);
    steps := [SelectHigh, Go] + rest;
    assert steps[1..][1..] == rest && steps[1..][0] == Go;
  }

  lemma {:induction false} InnerRound(limit: nat, w: Worker) returns (steps: seq<Step>, w': Worker)
    requires w.place.Inner? && w.place.round + |w.high| == limit
    requires forall i :: 0 <= i < |w.high| ==> w.high[i].Relay?
    ensures Run(limit, w, steps, w') && w'.takenLow == w.takenLow
    ensures |w'.takenHigh| == |w.takenHigh| + |w.high|
    decreases |w.high|
  {
    if w.high == [] {
      steps, w' := [], w;
    } else {
      var rest;
      rest, w' := InnerRound(limit, Next(limit, w, Go));
      steps := [Go] + rest;
      assert steps[1..] == rest;
    }
  }

  // ----- nothing is lost, duplicated or reordered

  function ArrivedHigh(steps: seq<Step>): seq<Msg> {
    if steps == [] then [] else (if steps[0].ArriveHigh? then [steps[0].m] else []) + ArrivedHigh(steps[1..])
  }

  function ArrivedLow(steps: seq<Step>): seq<Msg> {
    if steps == [] then [] else (if steps[0].ArriveLow? then [steps[0].m] else []) + ArrivedLow(steps[1..])
  }

  /** Each queue is served first in, first out: what was taken, then what waits, is what arrived. */
  lemma {:induction false} QueuesAreFair(limit: nat, w: Worker, steps: seq<Step>, w': Worker)
    requires Run(limit, w, steps, w')
    ensures w'.takenHigh + w'.high == w.takenHigh + w.high + ArrivedHigh(steps)
    ensures w'.takenLow + w'.low == w.takenLow + w.low + ArrivedLow(steps)
    decreases |steps|
  {
    hide Run, Next, Enabled;
    if steps == [] {
      RunOfNothing(limit, w, w');
      assert w.takenHigh + w.high + [] == w.takenHigh + w.high && w.takenLow + w.low + [] == w.takenLow + w.low;
    } else {
      RunUnfolds(limit, w, steps, w');
      QueuesAreFair(limit, Next(limit, w, steps[0]), steps[1..], w');
      StepIsFair(limit, w, steps[0]);
      Regroup(w.takenHigh + w.high, if steps[0].ArriveHigh? then [steps[0].m] else [], ArrivedHigh(steps[1..]));
      Regroup(w.takenLow + w.low, if steps[0].ArriveLow? then [steps[0].m] else [], ArrivedLow(steps[1..]));
    }
  }

  lemma Regroup(a: seq<Msg>, b: seq<Msg>, c: seq<Msg>)
    ensures a + b + c == a + (b + c)
  {
  }

  lemma StepIsFair(limit: nat, w: Worker, t: Step)
    requires Enabled(w, t)
    ensures var w' := Next(limit, w, t);
            && w'.takenHigh + w'.high == w.takenHigh + w.high + (if t.ArriveHigh? then [t.m] else [])
            && w'.takenLow + w'.low == w.takenLow + w.low + (if t.ArriveLow? then [t.m] else [])
  {
  }
}
