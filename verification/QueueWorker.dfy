/** The worker loop itself. Every pass of it is a run of the step machine in `Scheduler`. */
module QueueWorkers {
  import opened Common
  import opened Scheduler

  lemma {:induction false} RunConcat(limit: nat, w: Worker, a: seq<Step>, w1: Worker, b: seq<Step>, w2: Worker)
    requires Run(limit, w, a, w1) && Run(limit, w1, b, w2)
    ensures Run(limit, w, a + b, w2)
    decreases |a|
  {
    hide Next, Enabled;
    if a == [] {
      assert a + b == b;
    } else {
      assert (a + b)[1..] == a[1..] + b;
      RunConcat(limit, Next(limit, w, a[0]), a[1..], w1, b, w2);
    }
  }

  lemma RunOneMore(limit: nat, w: Worker, a: seq<Step>, w1: Worker, t: Step)
    requires Run(limit, w, a, w1) && Enabled(w1, t)
    ensures Run(limit, w, a + [t], Next(limit, w1, t))
  {
    assert [t][1..] == [];
    assert Run(limit, w1, [t], Next(limit, w1, t));
    RunConcat(limit, w, a, w1, [t], Next(limit, w1, t));
  }

  lemma PrefixTaken(taken0: seq<Msg>, high0: seq<Msg>, taken: seq<Msg>, high: seq<Msg>, n: nat)
    requires taken0 + high0 <= taken + high && n <= |high0| && |taken0| + n <= |taken|
    ensures taken0 + high0[..n] <= taken
  {
    var m := |taken0| + n;
    assert (taken + high)[..m] == taken[..m];
    assert (taken0 + high0)[..m] == taken0 + high0[..n];
  }

  class QueueWorker {
    const limit: nat
    var high: seq<Msg>
    var low: seq<Msg>
    ghost var takenHigh: seq<Msg>
    ghost var takenLow: seq<Msg>

    ghost function At(place: Place): Worker
      reads this
    {
      Worker(high, low, place, takenHigh, takenLow)
    }

    constructor (limit: nat)
      ensures this.limit == limit && At(Top) == Worker([], [], Top, [], [])
    {
      this.limit := limit;
      high, low, takenHigh, takenLow := [], [], [], [];
    }

    /** Other threads may put any messages into the queues at any time. */
    method Arrivals(ghost start: Worker, ghost run: seq<Step>, ghost place: Place) returns (ghost run': seq<Step>)
      requires Run(limit, start, run, At(place))
      modifies this`high, this`low
      ensures Run(limit, start, run', At(place))
      ensures old(high) <= high && old(low) <= low
    {
      hide Run;
      run' := run;
      var n: nat :| true;
      for i := 0 to n
        invariant Run(limit, start, run', At(place))
        invariant old(high) <= high && old(low) <= low
      {
        var m: Msg :| true;
        if * {
          RunOneMore(limit, start, run', At(place), ArriveHigh(m));
          run' := run' + [ArriveHigh(m)];
          high := high + [m];
        } else {
          RunOneMore(limit, start, run', At(place), ArriveLow(m));
          run' := run' + [ArriveLow(m)];
          low := low + [m];
        }
      }
    }

    method PopHigh() returns (m: Msg)
      requires high != []
      modifies this`high, this`takenHigh
      ensures m == old(high)[0] && high == old(high)[1..] && takenHigh == old(takenHigh) + [m]
    {
      m := high[0];
      high := high[1..];
      takenHigh := takenHigh + [m];
    }

    method PopLow() returns (m: Msg)
      requires low != []
      modifies this`low, this`takenLow
      ensures m == old(low)[0] && low == old(low)[1..] && takenLow == old(takenLow) + [m]
    {
      m := low[0];
      low := low[1..];
      takenLow := takenLow + [m];
    }

    /** Up to `limit` high-priority messages. */
    method DrainHigh(ghost start: Worker, ghost run: seq<Step>) returns (stop: bool, exhausted: bool, ghost run': seq<Step>)
      requires Run(limit, start, run, At(Inner(0)))
      modifies this`high, this`low, this`takenHigh
      ensures Run(limit, start, run', At(if stop then Halted else TryLow(exhausted)))
      ensures |takenHigh| <= old(|takenHigh|) + limit && old(low) <= low
      ensures !stop ==> old(takenHigh) + old(high)[..Min(limit, old(|high|))] <= takenHigh
    {
      hide Run;
      run' := run;
      for i := 0 to limit
        invariant Run(limit, start, run', At(Inner(i)))
        invariant |takenHigh| == old(|takenHigh|) + i && old(low) <= low
        invariant old(takenHigh) + old(high) <= takenHigh + high
      {
        run' := Arrivals(start, run', Inner(i));
        RunOneMore(limit, start, run', At(Inner(i)), Go);
        run' := run' + [Go];
        if high != [] {
          var m := PopHigh();
          if m.Stop? {
            return true, false, run';
          }
        } else {
          PrefixTaken(old(takenHigh), old(high), takenHigh, high, Min(limit, old(|high|)));
          return false, true, run';
        }
      }
      PrefixTaken(old(takenHigh), old(high), takenHigh, high, Min(limit, old(|high|)));
      RunOneMore(limit, start, run', At(Inner(limit)), Go);
      return false, false, run' + [Go];
    }

    /** Both queues were found empty: wait for a message in either of them. */
    method Select(ghost start: Worker, ghost run: seq<Step>) returns (stop: bool, ghost run': seq<Step>)
      requires Run(limit, start, run, At(Selecting))
      modifies this
      ensures Run(limit, start, run', At(if stop then Halted else Top))
      ensures old(takenHigh) <= takenHigh && old(takenLow) <= takenLow
      ensures old(takenLow) + old(low) <= takenLow + low
      ensures |takenHigh| + |takenLow| == old(|takenHigh|) + old(|takenLow|) + 1
    {
      hide Run;
      run' := Arrivals(start, run, Selecting);
      if high == [] && low == [] {
        var m: Msg :| true;
        RunOneMore(limit, start, run', At(Selecting), ArriveHigh(m));
        run' := run' + [ArriveHigh(m)];
        high := high + [m];
      }
      var takeHigh: bool :| (takeHigh ==> high != []) && (!takeHigh ==> low != []);
      var m;
      if takeHigh {
        RunOneMore(limit, start, run', At(Selecting), SelectHigh);
        run' := run' + [SelectHigh];
        m := PopHigh();
      } else {
        RunOneMore(limit, start, run', At(Selecting), SelectLow);
        run' := run' + [SelectLow];
        m := PopLow();
      }
      stop := m.Stop?;
    }

    /**
      One pass of the outer loop. If a low-priority message waits at its beginning, the pass
      takes at most `limit` high-priority messages and then that one.
     */
    method Pass() returns (stop: bool, ghost run: seq<Step>)
      modifies this
      ensures Run(limit, old(At(Top)), run, At(if stop then Halted else Top))
      ensures old(low) != [] ==> |takenHigh| <= old(|takenHigh|) + limit
      ensures old(low) != [] && !stop ==> takenLow == old(takenLow) + [old(low)[0]]
      ensures !stop ==> old(takenHigh) + old(high)[..Min(limit, old(|high|))] <= takenHigh
      ensures old(takenLow) <= takenLow && old(takenLow) + old(low) <= takenLow + low
    {
      ghost var start := At(Top);
      assert Run(limit, start, [], start);
      hide Run;
      RunOneMore(limit, start, [], At(Top), Go);
      run := [] + [Go];
      var exhausted;
      stop, exhausted, run := DrainHigh(start, run);
      if stop {
        return;
      }
      run := Arrivals(start, run, TryLow(exhausted));
      RunOneMore(limit, start, run, At(TryLow(exhausted)), Go);
      run := run + [Go];
      if low != [] {
        exhausted := false;
        var m := PopLow();
        if m.Stop? {
          return true, run;
        }
      }
      if exhausted {
        stop, run := Select(start, run);
      }
    }

    /**
      Any number of passes, up to the one that takes a stop message; each takes a low-priority
      message as long as there are any.
     */
    method Work(passes: nat) returns (stop: bool, ghost run: seq<Step>)
      modifies this
      ensures Run(limit, old(At(Top)), run, At(if stop then Halted else Top))
      ensures !stop ==> |takenLow| >= old(|takenLow|) + Min(passes, old(|low|))
    {
      ghost var start := At(Top);
      assert Run(limit, start, [], start);
      hide Run;
      stop, run := false, [];
      var i := 0;
      while i < passes && !stop
        invariant Run(limit, start, run, At(if stop then Halted else Top))
        invariant i <= passes && old(takenLow) + old(low) <= takenLow + low
        invariant !stop ==> |takenLow| >= old(|takenLow|) + Min(i, old(|low|))
      {
        ghost var more;
        ghost var before := At(Top);
        stop, more := Pass();
        RunConcat(limit, start, run, before, more, At(if stop then Halted else Top));
        run := run + more;
        i := i + 1;
      }
    }
  }
}
