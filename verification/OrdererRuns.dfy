/** What the global orderer promises over whole runs of inputs and ticks. */
module OrdererRuns {
  import opened Wrappers
  import opened Orderers

  datatype OrdererConfig = OrdererConfig(numInstances: nat, barTimeout: int, maxPending: int)

  /** Every input is followed by a flush, and so is every tick; `clock` has the readings of that flush. */
  datatype Event<B> =
    | Input(out: InstanceOutput<B>, clock: nat -> int)
    | Tick(clock: nat -> int)

  /** The state in which the flush of an event starts. */
  function BeforeFlush<B>(o: OrdererState<B>, e: Event<B>): OrdererState<B>
    requires o.numInstances >= 1
  {
    if e.Input? then Accept(o, e.out) else o
  }

  ghost function Step<B>(o: OrdererState<B>, e: Event<B>): OrdererState<B>
    requires o.numInstances >= 1
  {
    Flush(BeforeFlush(o, e), e.clock, 0).0
  }

  ghost function Run<B>(config: OrdererConfig, events: seq<Event<B>>): (o: OrdererState<B>)
    ensures Invariant(o)
    ensures o.numInstances == NewOrderer<B>(config.numInstances, config.barTimeout, config.maxPending).numInstances
  {
    if events == [] then NewOrderer(config.numInstances, config.barTimeout, config.maxPending)
    else
      var before := Run(config, events[..|events| - 1]);
      StepKeepsInvariant(before, events[|events| - 1]);
      Step(before, events[|events| - 1])
  }

  lemma StepKeepsInvariant<B>(o: OrdererState<B>, e: Event<B>)
    requires Invariant(o)
    ensures Invariant(Step(o, e)) && Settled(Step(o, e))
    ensures o.log <= Step(o, e).log && Step(o, e).numInstances == o.numInstances
  {
    if e.Input? {
      AcceptKeepsInvariant(o, e.out);
      FlushKeepsInvariant(Accept(o, e.out), e.clock, 0);
    } else {
      FlushKeepsInvariant(o, e.clock, 0);
    }
  }

  // ---- the log ----

  /**
   In every run the log holds the ranks from the number of instances on, each once and in order,
   with the slots that belong to them; and what is waiting never exceeds its bound.
   */
  lemma LogHasEveryRankOnce<B>(config: OrdererConfig, events: seq<Event<B>>)
    ensures var o := Run(config, events);
            && o.numInstances >= 1
            && (forall i | 0 <= i < |o.log| ::
                  && o.log[i].rank == o.numInstances + i
                  && o.log[i].instanceId < o.numInstances
                  && o.log[i].rank == ExpectedRank(o.numInstances, o.log[i].instanceId, o.log[i].localHeight))
            && o.nextRank == o.numInstances + |o.log|
            && o.emitted + o.nilled == |o.log|
            && |o.pending| <= o.maxPending
            && |o.missingSince| <= 1
  {
    hide Run, ExpectedRank, ValidRankMapping;
    var o := Run(config, events);
    forall i | 0 <= i < |o.log|
      ensures o.log[i].instanceId < o.numInstances
              && o.log[i].rank == ExpectedRank(o.numInstances, o.log[i].instanceId, o.log[i].localHeight)
    {
      RankMappingRoundTrip(o.numInstances, o.log[i]);
    }
    assert o.missingSince.Keys <= {o.nextRank};
    SubsetOfOne(o.missingSince.Keys, o.nextRank);
  }

  lemma SubsetOfOne<T>(s: set<T>, x: T)
    requires s <= {x}
    ensures |s| <= 1
  {
    assert s == {} || s == {x};
  }

  /** Whatever happens later, late duplicates included, an entry of the log stays as it is. */
  lemma {:induction false} LogOnlyGrows<B>(config: OrdererConfig, events: seq<Event<B>>, later: seq<Event<B>>)
    ensures Run(config, events).log <= Run(config, events + later).log
  {
    hide Invariant, Step, Settled;
    var all := events + later;
    if later == [] {
      assert all == events;
    } else {
      var n := |later| - 1;
      LogOnlyGrows(config, events, later[..n]);
      assert all[..|all| - 1] == events + later[..n] && all[|all| - 1] == later[n];
      StepKeepsInvariant(Run(config, events + later[..n]), later[n]);
      assert Run(config, all) == Step(Run(config, events + later[..n]), later[n]);
    }
  }

  // ---- where entries come from ----

  ghost function Arrivals<B>(events: seq<Event<B>>): set<InstanceOutput<B>> {
    if events == [] then {}
    else
      var e := events[|events| - 1];
      Arrivals(events[..|events| - 1]) + if e.Input? then {e.out} else {}
  }

  /** Instances hand over outputs, never nil entries. */
  ghost predicate Genuine<B>(arrivals: set<InstanceOutput<B>>) {
    forall a | a in arrivals :: !a.isNil
  }

  function Nils<B>(log: seq<InstanceOutput<B>>): nat {
    if log == [] then 0 else Nils(log[..|log| - 1]) + if log[|log| - 1].isNil then 1 else 0
  }

  /** Everything waiting or logged has arrived, or is the nil entry of its rank. */
  ghost predicate FromArrivals<B>(o: OrdererState<B>, arrivals: set<InstanceOutput<B>>)
    requires o.numInstances >= 1
  {
    && (forall r | r in o.pending :: o.pending[r] in arrivals)
    && (forall i | 0 <= i < |o.log| :: o.log[i] in arrivals || o.log[i] == NilEntry(o.numInstances, o.log[i].rank))
    && (Genuine(arrivals) ==> o.nilled == Nils(o.log))
  }

  lemma NilsSnoc<B>(log: seq<InstanceOutput<B>>, entry: InstanceOutput<B>)
    ensures Nils(log + [entry]) == Nils(log) + if entry.isNil then 1 else 0
  {
    assert (log + [entry])[..|log|] == log;
  }

  lemma EmitFromArrivals<B>(o: OrdererState<B>, now: int, arrivals: set<InstanceOutput<B>>)
    requires Invariant(o) && FromArrivals(o, arrivals)
    ensures Emit(o, now).0.numInstances >= 1 && FromArrivals(Emit(o, now).0, arrivals)
  {
    hide LogIsGapless, PendingIsAhead, ValidRankMapping, Nils;
    var (o', entry) := Emit(o, now);
    if entry.Some? {
      NilsSnoc(o.log, entry.value);
    }
  }

  lemma {:induction false} FlushFromArrivals<B>(o: OrdererState<B>, clock: nat -> int, k: nat,
                                                arrivals: set<InstanceOutput<B>>)
    requires Invariant(o) && FromArrivals(o, arrivals)
    ensures Flush(o, clock, k).0.numInstances >= 1 && FromArrivals(Flush(o, clock, k).0, arrivals)
    decreases |o.pending| + |o.missingSince|
  {
    hide Emit, FromArrivals, LogIsGapless, PendingIsAhead;
    EmitKeepsInvariant(o, clock(k));
    EmitShrinks(o, clock(k));
    EmitFromArrivals(o, clock(k), arrivals);
    var (o', entry) := Emit(o, clock(k));
    if entry.Some? {
      FlushFromArrivals(o', clock, k + 1, arrivals);
    }
  }

  lemma AcceptFromArrivals<B>(o: OrdererState<B>, out: InstanceOutput<B>, arrivals: set<InstanceOutput<B>>)
    requires Invariant(o) && FromArrivals(o, arrivals)
    ensures Accept(o, out).numInstances >= 1 && FromArrivals(Accept(o, out), arrivals + {out})
  {
    hide LogIsGapless, PendingIsAhead, ValidRankMapping, Nils;
    assert Genuine(arrivals + {out}) ==> Genuine(arrivals) by {
      assert forall a | a in arrivals :: a in arrivals + {out};
    }
  }

  /** In every run, each entry of the log is an output that arrived for that rank, or the nil entry of the rank. */
  lemma {:induction false} EntriesArrivedOrNil<B>(config: OrdererConfig, events: seq<Event<B>>)
    ensures FromArrivals(Run(config, events), Arrivals(events))
  {
    hide Invariant, FromArrivals, Flush, Accept;
    if events == [] {
      NothingYet<B>(config);
    } else {
      var n := |events| - 1;
      var o, e := Run(config, events[..n]), events[n];
      EntriesArrivedOrNil(config, events[..n]);
      if e.Input? {
        AcceptKeepsInvariant(o, e.out);
        AcceptFromArrivals(o, e.out, Arrivals(events[..n]));
        FlushFromArrivals(Accept(o, e.out), e.clock, 0, Arrivals(events));
      } else {
        assert Arrivals(events) == Arrivals(events[..n]);
        FlushFromArrivals(o, e.clock, 0, Arrivals(events));
      }
    }
  }

  lemma NothingYet<B>(config: OrdererConfig)
    ensures FromArrivals(Run<B>(config, []), {})
  {
  }

  // ---- which ranks are filled in ----

  /** The next rank is not waiting, and has been missing for the timeout when the flush of the event starts. */
  ghost predicate FillsNext<B>(o: OrdererState<B>, e: Event<B>)
    requires o.numInstances >= 1
  {
    var ready := BeforeFlush(o, e);
    ready.nextRank !in ready.pending && TimedOut(ready, e.clock(0))
  }

  /** Event k of the run comes when this rank is next, and fills it in. */
  ghost predicate FillsIn<B>(config: OrdererConfig, events: seq<Event<B>>, k: nat, rank: nat) {
    && k < |events|
    && Run(config, events[..k]).nextRank == rank
    && FillsNext(Run(config, events[..k]), events[k])
  }

  ghost predicate IsFilledIn<B>(config: OrdererConfig, events: seq<Event<B>>, rank: nat) {
    exists k: nat :: FillsIn(config, events, k, rank)
  }

  lemma AcceptKeepsLog<B>(o: OrdererState<B>, out: InstanceOutput<B>)
    requires o.numInstances >= 1
    ensures var o' := Accept(o, out); o'.log == o.log && o'.nextRank == o.nextRank && o'.numInstances == o.numInstances
  {
    hide ValidRankMapping, WithoutHighest;
  }

  lemma FlushedEntries<B>(pending: map<nat, InstanceOutput<B>>, r: nat, fill: seq<InstanceOutput<B>>,
                          out: seq<InstanceOutput<B>>, next: nat, i: nat)
    requires FlushedTo(pending, r, fill, out, next)
    requires |fill| <= 1 && (forall entry | entry in fill :: entry.isNil)
    requires forall rank | rank in pending :: !pending[rank].isNil
    requires i < |out|
    ensures out[i].isNil <==> i == 0 && fill != []
  {
    if i < |fill| {
      assert out[i] == out[..|fill|][i];
    } else {
      var rest := out[|fill|..];
      assert rest[r + i - (r + |fill|)] == pending[r + i] && out[i] == rest[i - |fill|];
    }
  }

  lemma ReadyToFlush<B>(o: OrdererState<B>, e: Event<B>)
    requires Invariant(o)
    ensures Invariant(BeforeFlush(o, e)) && BeforeFlush(o, e).log == o.log
  {
    hide Invariant;
    HasInstances(o);
    if e.Input? {
      AcceptKeepsInvariant(o, e.out);
      AcceptKeepsLog(o, e.out);
    }
  }

  lemma NilFills<B>(o: OrdererState<B>, now: int)
    requires o.numInstances >= 1
    ensures |Fill(o, now)| == if o.nextRank !in o.pending && TimedOut(o, now) then 1 else 0
    ensures forall entry | entry in Fill(o, now) :: entry.isNil
  {
    hide TimedOut;
  }

  /** Of what one event appends, the first entry is nil exactly if the event fills it in, and no other is. */
  lemma StepFills<B>(o: OrdererState<B>, e: Event<B>, i: nat)
    requires Invariant(o) && forall r | r in BeforeFlush(o, e).pending :: !BeforeFlush(o, e).pending[r].isNil
    ensures o.log <= Step(o, e).log
    ensures FillsNext(o, e) ==> |o.log| < |Step(o, e).log|
    ensures |o.log| <= i < |Step(o, e).log| ==> (Step(o, e).log[i].isNil <==> i == |o.log| && FillsNext(o, e))
  {
    hide BeforeFlush, Flush, FlushedTo, LogIsGapless, PendingIsAhead, TimedOut, Fill;
    ReadyToFlush(o, e);
    var ready := BeforeFlush(o, e);
    FlushShape(ready, e.clock, 0);
    FlushKeepsInvariant(ready, e.clock, 0);
    var (after, out) := Flush(ready, e.clock, 0);
    var fill := Fill(ready, e.clock(0));
    NilFills(ready, e.clock(0));
    FillIsFirst(ready.pending, ready.nextRank, fill, out, after.nextRank);
    assert |fill| == if FillsNext(o, e) then 1 else 0;
    if |o.log| <= i < |after.log| {
      FlushedEntries(ready.pending, ready.nextRank, fill, out, after.nextRank, i - |o.log|);
    }
  }

  lemma FillIsFirst<B>(pending: map<nat, InstanceOutput<B>>, r: nat, fill: seq<InstanceOutput<B>>,
                       out: seq<InstanceOutput<B>>, next: nat)
    requires FlushedTo(pending, r, fill, out, next)
    ensures |fill| <= |out|
  {
  }

  lemma GenuinePending<B>(o: OrdererState<B>, e: Event<B>, arrivals: set<InstanceOutput<B>>)
    requires Invariant(o) && FromArrivals(o, arrivals)
    requires Genuine(arrivals) && (e.Input? ==> !e.out.isNil)
    ensures forall r | r in BeforeFlush(o, e).pending :: !BeforeFlush(o, e).pending[r].isNil
  {
    hide LogIsGapless, PendingIsAhead, ValidRankMapping, Nils;
  }

  lemma GenuineBefore<B>(events: seq<Event<B>>)
    requires events != [] && Genuine(Arrivals(events))
    ensures Genuine(Arrivals(events[..|events| - 1]))
    ensures events[|events| - 1].Input? ==> !events[|events| - 1].out.isNil
  {
    var before, e := events[..|events| - 1], events[|events| - 1];
    forall a | a in Arrivals(before) ensures !a.isNil {
      assert a in Arrivals(events);
    }
    if e.Input? {
      assert e.out in Arrivals(events);
    }
  }

  lemma NextIsLogged<B>(config: OrdererConfig, events: seq<Event<B>>)
    ensures var o := Run(config, events); o.nextRank == o.numInstances + |o.log|
  {
    hide Run;
  }

  /** An event that fills in a rank other than the next one came before, and the entry is in the log. */
  lemma FilledBefore<B>(config: OrdererConfig, events: seq<Event<B>>, k: nat, i: nat)
    requires FillsIn(config, events, k, Run(config, events).numInstances + i) && Genuine(Arrivals(events[..k + 1]))
    ensures i < |Run(config, events).log|
  {
    hide Invariant, Flush, FillsNext, FromArrivals, Genuine, Step;
    var first, upTo := events[..k], events[..k + 1];
    assert upTo[..k] == first && upTo[k] == events[k];
    NextIsLogged(config, first);
    EntriesArrivedOrNil(config, first);
    GenuineBefore(upTo);
    GenuinePending(Run(config, first), events[k], Arrivals(first));
    StepFills(Run(config, first), events[k], i);
    assert Run(config, upTo) == Step(Run(config, first), events[k]);
    LogOnlyGrows(config, upTo, events[k + 1..]);
    assert upTo + events[k + 1..] == events;
  }

  lemma {:induction false} GenuineUpTo<B>(events: seq<Event<B>>, k: nat)
    requires k <= |events| && Genuine(Arrivals(events))
    ensures Genuine(Arrivals(events[..k]))
  {
    hide Genuine, Arrivals;
    if k < |events| {
      GenuineBefore(events);
      GenuineUpTo(events[..|events| - 1], k);
      assert events[..|events| - 1][..k] == events[..k];
    } else {
      assert events[..k] == events;
    }
  }

  /** An entry of the log is nil exactly if some event filled in its rank. */
  lemma {:induction false} NilIffFilledIn<B>(config: OrdererConfig, events: seq<Event<B>>, i: nat)
    requires Genuine(Arrivals(events)) && i < |Run(config, events).log|
    ensures Run(config, events).log[i].isNil
            <==> IsFilledIn(config, events, Run(config, events).numInstances + i)
  {
    hide Invariant, FillsNext, FromArrivals, Genuine, Step, Arrivals;
    if events != [] {
      var n := |events| - 1;
      var before, e := events[..n], events[n];
      var o, rank := Run(config, before), Run(config, events).numInstances + i;
      assert Run(config, events) == Step(o, e);
      NextIsLogged(config, before);
      EntriesArrivedOrNil(config, before);
      GenuineBefore(events);
      GenuinePending(o, e, Arrivals(before));
      StepFills(o, e, i);
      hide Run;
      forall k: nat | k < n
        ensures FillsIn(config, events, k, rank) <==> FillsIn(config, before, k, rank)
        ensures FillsIn(config, before, k, rank) ==> i < |o.log|
      {
        assert before[..k] == events[..k] && before[k] == events[k];
        if FillsIn(config, before, k, rank) {
          GenuineUpTo(before, k + 1);
          FilledBefore(config, before, k, i);
        }
      }
      assert FillsIn(config, events, n, rank) <==> i == |o.log| && FillsNext(o, e);
      if i < |o.log| {
        NilIffFilledIn(config, before, i);
      }
    }
  }

  // ---- two orderers ----

  /** At most one acceptable output for a rank, and no nil entries among them. */
  ghost predicate OneOutputPerRank<B>(numInstances: nat, arrivals: set<InstanceOutput<B>>)
    requires numInstances >= 1
  {
    && Genuine(arrivals)
    && forall a, b | a in arrivals && b in arrivals && a.rank == b.rank
                     && ValidRankMapping(numInstances, a) && ValidRankMapping(numInstances, b) :: a == b
  }

  lemma BothNilOrNeither<B>(c: OrdererConfig, events: seq<Event<B>>, c': OrdererConfig, events': seq<Event<B>>, i: nat)
    requires Run(c, events).numInstances == Run(c', events').numInstances
    requires OneOutputPerRank(Run(c, events).numInstances, Arrivals(events) + Arrivals(events'))
    requires i < |Run(c, events).log| && i < |Run(c', events').log|
    ensures Run(c, events).log[i] == Run(c', events').log[i]
            <==> Run(c, events).log[i].isNil == Run(c', events').log[i].isNil
  {
    EntriesArrivedOrNil(c, events);
    EntriesArrivedOrNil(c', events');
    hide Run, Arrivals, ValidRankMapping, Nils, PendingIsAhead;
    var all := Arrivals(events) + Arrivals(events');
    var a, b := Run(c, events).log[i], Run(c', events').log[i];
    assert a.rank == b.rank;
    assert a in all || a == NilEntry(Run(c, events).numInstances, a.rank);
    assert b in all || b == NilEntry(Run(c, events).numInstances, b.rank);
    assert !a.isNil ==> a in all;
    assert !b.isNil ==> b in all;
  }

  lemma BothGenuine<B>(numInstances: nat, events: seq<Event<B>>, events': seq<Event<B>>)
    requires numInstances >= 1 && OneOutputPerRank(numInstances, Arrivals(events) + Arrivals(events'))
    ensures Genuine(Arrivals(events)) && Genuine(Arrivals(events'))
  {
    hide Arrivals, ValidRankMapping;
  }

  /**
   Two orderers for the same instances, whatever they receive and in whatever order, agree on an entry
   exactly if each has an event that finds its rank next, not there and timed out, or neither has.
   */
  lemma EntriesAgreeIff<B>(c: OrdererConfig, events: seq<Event<B>>, c': OrdererConfig, events': seq<Event<B>>, i: nat)
    requires Run(c, events).numInstances == Run(c', events').numInstances
    requires OneOutputPerRank(Run(c, events).numInstances, Arrivals(events) + Arrivals(events'))
    requires i < |Run(c, events).log| && i < |Run(c', events').log|
    ensures var rank := Run(c, events).numInstances + i;
            Run(c, events).log[i] == Run(c', events').log[i]
            <==> (IsFilledIn(c, events, rank) <==> IsFilledIn(c', events', rank))
  {
    hide Run, Arrivals, Invariant, OneOutputPerRank, Genuine, IsFilledIn;
    BothGenuine(Run(c, events).numInstances, events, events');
    BothNilOrNeither(c, events, c', events', i);
    NilIffFilledIn(c, events, i);
    NilIffFilledIn(c', events', i);
  }

  /** As long as no event of either finds the next rank timed out, one log continues the other. */
  lemma WithoutFillsLogsAgree<B>(c: OrdererConfig, events: seq<Event<B>>, c': OrdererConfig, events': seq<Event<B>>)
    requires Run(c, events).numInstances == Run(c', events').numInstances
    requires OneOutputPerRank(Run(c, events).numInstances, Arrivals(events) + Arrivals(events'))
    requires forall rank: nat :: !IsFilledIn(c, events, rank) && !IsFilledIn(c', events', rank)
    ensures Run(c, events).log <= Run(c', events').log || Run(c', events').log <= Run(c, events).log
  {
    hide Run, Arrivals, Invariant, OneOutputPerRank, IsFilledIn;
    var o, o' := Run(c, events), Run(c', events');
    forall i: nat | i < |o.log| && i < |o'.log| ensures o.log[i] == o'.log[i] {
      EntriesAgreeIff(c, events, c', events', i);
    }
  }

  lemma {:induction false} OnlyTicks<B>(ticks: seq<Event<B>>)
    requires forall i | 0 <= i < |ticks| :: ticks[i].Tick?
    ensures Arrivals(ticks) == {}
  {
    if ticks != [] {
      OnlyTicks(ticks[..|ticks| - 1]);
    }
  }

  lemma OneArrival<B>(out: InstanceOutput<B>, ticks: seq<Event<B>>, clock: nat -> int)
    requires forall i | 0 <= i < |ticks| :: ticks[i].Tick?
    ensures Arrivals(ticks + [Input(out, clock)]) == {out}
  {
    assert (ticks + [Input(out, clock)])[..|ticks|] == ticks;
    OnlyTicks(ticks);
  }

  lemma JustOneOutput<B>(out: InstanceOutput<B>)
    requires !out.isNil
    ensures OneOutputPerRank(1, {out} + {out})
  {
  }

  const ONE_INSTANCE := OrdererConfig(1, 10, 0)

  lemma InTime<B>(out: InstanceOutput<B>, clock: nat -> int)
    requires out.rank == 1 && ValidRankMapping(1, out)
    ensures Run(ONE_INSTANCE, [Input(out, clock)]).log == [out]
  {
    hide Flush, Emit, ValidRankMapping;
    var event := Input(out, clock);
    assert [event][..0] == [];
    var start := Run<B>(ONE_INSTANCE, []);
    assert start == NewOrderer(1, 10, 0);
    var arrived := start.(pending := map[1 := out]);
    assert Accept(start, out) == arrived;
    AcceptKeepsInvariant(start, out);
    FlushShape(arrived, clock, 0);
    FlushKeepsInvariant(arrived, clock, 0);
    var (after, emitted) := Flush(arrived, clock, 0);
    assert after.log == start.log + emitted;
    assert emitted[0..] == emitted && Fill(arrived, clock(0)) == [];
    assert 2 !in arrived.pending && 1 in arrived.pending;
    assert |emitted| == 1;
  }

  lemma NothingEmitted<B>(o: OrdererState<B>, clock: nat -> int)
    requires o.numInstances >= 1 && Emit(o, clock(0)).1.None?
    ensures Flush(o, clock, 0) == (Emit(o, clock(0)).0, [])
  {
    hide Emit;
  }

  /** After a first tick at time 0, rank 1 is known to be missing. */
  ghost function Waiting<B>(): OrdererState<B> {
    NewOrderer(1, 10, 0).(missingSince := map[1 := 0])
  }

  lemma FirstTick<B>(clock: nat -> int)
    requires clock(0) == 0
    ensures Run(ONE_INSTANCE, [Event<B>.Tick(clock)]) == Waiting<B>()
  {
    hide Flush;
    var e: Event<B> := Tick(clock);
    assert [e][..0] == [];
    var start := Run<B>(ONE_INSTANCE, []);
    assert start == NewOrderer(1, 10, 0);
    assert Emit(start, 0) == (Waiting(), None);
    NothingEmitted(start, clock);
  }

  lemma NothingWaiting<B>(r: nat, fill: seq<InstanceOutput<B>>, out: seq<InstanceOutput<B>>, next: nat)
    requires FlushedTo(map[], r, fill, out, next)
    ensures out == fill
  {
    var none: map<nat, InstanceOutput<B>> := map[];
    assert r + |fill| !in none;
    assert out == out[..|fill|];
  }

  lemma OnlyFillFlushed<B>(o: OrdererState<B>, clock: nat -> int)
    requires Invariant(o) && o.pending == map[]
    ensures Flush(o, clock, 0).0.log == o.log + Fill(o, clock(0))
  {
    FlushShape(o, clock, 0);
    FlushKeepsInvariant(o, clock, 0);
    hide Flush, FlushedTo, Invariant, Fill;
    NothingWaiting(o.nextRank, Fill(o, clock(0)), Flush(o, clock, 0).1, Flush(o, clock, 0).0.nextRank);
  }

  lemma FillsAfterTimeout<B>(clock: nat -> int)
    requires clock(0) == 10
    ensures Flush(Waiting<B>(), clock, 0).0.log == [NilEntry(1, 1)]
  {
    hide Flush, NilEntry;
    OnlyFillFlushed(Waiting<B>(), clock);
    assert Waiting<B>().log == [] && Fill(Waiting<B>(), 10) == [NilEntry(1, 1)];
  }

  lemma FilledIn<B>(clock: nat -> int, later: nat -> int)
    requires clock(0) == 0 && later(0) == 10
    ensures Run(ONE_INSTANCE, [Event<B>.Tick(clock), Tick(later)]).log == [NilEntry(1, 1)]
  {
    hide Flush, Waiting, Invariant;
    FirstTick<B>(clock);
    FillsAfterTimeout<B>(later);
    assert [Event<B>.Tick(clock), Tick(later)][..1] == [Event<B>.Tick(clock)];
  }

  /** The output arrives at once, or only when the timeout has passed. */
  function Promptly<B>(out: InstanceOutput<B>, at0: nat -> int): seq<Event<B>> {
    [Input(out, at0)]
  }

  function TooLate<B>(out: InstanceOutput<B>, at0: nat -> int, at10: nat -> int): seq<Event<B>> {
    [Tick(at0), Tick(at10), Input(out, at10)]
  }

  lemma StaysFilledIn<B>(out: InstanceOutput<B>, at0: nat -> int, at10: nat -> int)
    requires at0(0) == 0 && at10(0) == 10
    ensures [NilEntry(1, 1)] <= Run(ONE_INSTANCE, TooLate(out, at0, at10)).log
  {
    hide Run, Invariant, NilEntry;
    var ticks: seq<Event<B>> := [Tick(at0), Tick(at10)];
    FilledIn<B>(at0, at10);
    LogOnlyGrows(ONE_INSTANCE, ticks, [Input(out, at10)]);
    assert ticks + [Input(out, at10)] == TooLate(out, at0, at10);
  }

  lemma SameArrivals<B>(out: InstanceOutput<B>, at0: nat -> int, at10: nat -> int)
    ensures Arrivals(Promptly(out, at0)) == {out} == Arrivals(TooLate(out, at0, at10))
  {
    hide Arrivals;
    var ticks: seq<Event<B>> := [Tick(at0), Tick(at10)];
    OneArrival(out, [], at0);
    OneArrival(out, ticks, at10);
    assert [] + [Input(out, at0)] == Promptly(out, at0);
    assert ticks + [Input(out, at10)] == TooLate(out, at0, at10);
  }

  /** Concretely: of two orderers one gets the output of rank 1 in time, and the other fills it in. */
  lemma LateOutputSplitsLogs<B>(content: B, at0: nat -> int, at10: nat -> int)
    requires at0(0) == 0 && at10(0) == 10
    ensures var out := InstanceOutput(0, 1, 1, false, Some(content));
            && OneOutputPerRank(1, Arrivals(Promptly(out, at0)) + Arrivals(TooLate(out, at0, at10)))
            && Run(ONE_INSTANCE, Promptly(out, at0)).log == [out]
            && [NilEntry(1, 1)] <= Run(ONE_INSTANCE, TooLate(out, at0, at10)).log
  {
    var out := InstanceOutput(0, 1, 1, false, Some(content));
    JustOneOutput(out);
    InTime(out, at0);
    hide Run, Arrivals, Invariant, OneOutputPerRank, TooLate;
    StaysFilledIn(out, at0, at10);
    SameArrivals(out, at0, at10);
  }

  // ---- outputs that come in time are kept ----

  /** The output is what its instance hands over for this rank. */
  predicate FitsRank<B>(numInstances: nat, out: InstanceOutput<B>) {
    out.instanceId < numInstances && out.rank == out.localHeight * numInstances + out.instanceId
  }

  /** It fits, comes before its rank is emitted, and nothing waits for the rank yet. */
  predicate ComesInTime<B>(o: OrdererState<B>, out: InstanceOutput<B>) {
    FitsRank(o.numInstances, out) && out.rank >= o.nextRank && out.rank !in o.pending
  }

  /** What arrives in time waits; with a full buffer the highest of all ranks is lost for it. */
  lemma AcceptKeepsAllButHighest<B>(o: OrdererState<B>, out: InstanceOutput<B>)
    requires Invariant(o)
    ensures o.numInstances >= 1
    ensures var o', all := Accept(o, out), o.pending[out.rank := out];
            && o' == o.(pending := o'.pending, late := o'.late, dropped := o'.dropped)
            && o'.late == o.late + (if out.rank < o.nextRank then 1 else 0)
            && o'.dropped == o.dropped + (if ComesInTime(o, out) && |o.pending| >= o.maxPending then 1 else 0)
            && (!ComesInTime(o, out) ==> o'.pending == o.pending)
            && (ComesInTime(o, out) && |o.pending| < o.maxPending ==> o'.pending == all)
            && (ComesInTime(o, out) && |o.pending| >= o.maxPending ==>
                  exists lost | lost in all :: o'.pending == all - {lost} && forall r | r in o'.pending :: r < lost)
  {
    HasInstances(o);
    RankMappingRoundTrip(o.numInstances, out);
    hide ValidRankMapping, LogIsGapless, PendingIsAhead, WithoutHighest, IsHighest;
    if ComesInTime(o, out) && |o.pending| >= o.maxPending {
      assert o.pending != map[];
      HighestIsLost(o.pending, out);
    }
  }

  lemma HighestIsLost<B>(pending: map<nat, InstanceOutput<B>>, out: InstanceOutput<B>)
    requires pending != map[] && out.rank !in pending
    ensures var all := pending[out.rank := out];
            var kept := if forall r | r in pending :: r <= out.rank then pending
                        else WithoutHighest(pending)[out.rank := out];
            exists lost | lost in all :: kept == all - {lost} && forall r | r in kept :: r < lost
  {
    hide WithoutHighest;
    var h := SomeHighest(pending.Keys);
    if forall r | r in pending :: r <= out.rank {
      NewIsLost(pending, out);
    } else {
      WithoutHighestIs(pending, h);
      assert h > out.rank;
      OldIsLost(pending, out, h);
    }
  }

  lemma NewIsLost<B>(pending: map<nat, InstanceOutput<B>>, out: InstanceOutput<B>)
    requires out.rank !in pending && forall r | r in pending :: r <= out.rank
    ensures var all := pending[out.rank := out];
            exists lost | lost in all :: pending == all - {lost} && forall r | r in pending :: r < lost
  {
    assert pending == pending[out.rank := out] - {out.rank};
  }

  lemma OldIsLost<B>(pending: map<nat, InstanceOutput<B>>, out: InstanceOutput<B>, h: nat)
    requires out.rank !in pending && IsHighest(pending.Keys, h) && h > out.rank
    ensures var all, kept := pending[out.rank := out], (pending - {h})[out.rank := out];
            exists lost | lost in all :: kept == all - {lost} && forall r | r in kept :: r < lost
  {
    assert (pending - {h})[out.rank := out] == pending[out.rank := out] - {h};
  }

  /** A flush takes from what is waiting exactly the ranks it emits, and logs each at its place. */
  lemma {:induction false} FlushTakesWhatItEmits<B>(o: OrdererState<B>, clock: nat -> int, k: nat, r: nat)
    requires Invariant(o) && r in o.pending
    ensures o.numInstances >= 1
    ensures var o' := Flush(o, clock, k).0;
            if r < o'.nextRank then r !in o'.pending && IsLogged(o', o.pending[r])
            else r in o'.pending && o'.pending[r] == o.pending[r]
    decreases |o.pending| + |o.missingSince|
  {
    HasInstances(o);
    hide LogIsGapless, PendingIsAhead;
    EmitKeepsInvariant(o, clock(k));
    EmitShrinks(o, clock(k));
    EmitTakes(o, clock(k), r);
    var o', entry := Emit(o, clock(k)).0, Emit(o, clock(k)).1;
    hide Emit;
    if entry.Some? {
      if r in o'.pending {
        FlushTakesWhatItEmits(o', clock, k + 1, r);
      } else {
        FlushKeepsInvariant(o', clock, k + 1);
        FlushKeepsPendingAhead(o', clock, k + 1);
        LoggedStays(o', Flush(o', clock, k + 1).0, o.pending[r]);
      }
    }
  }

  ghost predicate IsLogged<B>(o: OrdererState<B>, out: InstanceOutput<B>) {
    o.numInstances <= out.rank < o.numInstances + |o.log| && o.log[out.rank - o.numInstances] == out
  }

  lemma LoggedStays<B>(o: OrdererState<B>, o': OrdererState<B>, out: InstanceOutput<B>)
    requires IsLogged(o, out) && o.log <= o'.log && o'.numInstances == o.numInstances
    ensures IsLogged(o', out)
  {
  }

  lemma EmitTakes<B>(o: OrdererState<B>, now: int, r: nat)
    requires Invariant(o) && r in o.pending
    ensures o.numInstances >= 1
    ensures var (o', entry) := Emit(o, now);
            if r in o'.pending then o'.pending[r] == o.pending[r] && (entry.None? ==> r >= o'.nextRank)
            else entry.Some? && r < o'.nextRank && IsLogged(o', o.pending[r])
  {
  }

  lemma FlushKeepsPendingAhead<B>(o: OrdererState<B>, clock: nat -> int, k: nat)
    requires Invariant(o)
    ensures o.numInstances >= 1
    ensures var o' := Flush(o, clock, k).0;
            (forall r | r in o'.pending :: r >= o'.nextRank) && o'.nextRank == o'.numInstances + |o'.log|
  {
    HasInstances(o);
    FlushKeepsInvariant(o, clock, k);
    hide Flush;
  }

  /** The output waits for its rank, or has it in the log. */
  ghost predicate IsKept<B>(o: OrdererState<B>, out: InstanceOutput<B>) {
    (out.rank in o.pending && o.pending[out.rank] == out) || IsLogged(o, out)
  }

  /** An event finds room in the buffer, or brings nothing that needs it. */
  predicate FindsRoom<B>(o: OrdererState<B>, e: Event<B>) {
    e.Input? && ComesInTime(o, e.out) ==> |o.pending| < o.maxPending
  }

  lemma StepKeeps<B>(o: OrdererState<B>, e: Event<B>, out: InstanceOutput<B>)
    requires Invariant(o) && FindsRoom(o, e)
    requires IsKept(o, out) || (e == Input(out, e.clock) && ComesInTime(o, out))
    ensures o.numInstances >= 1 && IsKept(Step(o, e), out)
  {
    hide ComesInTime, FitsRank, LogIsGapless, PendingIsAhead, Accept, Flush, IsLogged;
    HasInstances(o);
    ReadyToFlush(o, e);
    var ready := BeforeFlush(o, e);
    if e.Input? {
      AcceptKeepsAllButHighest(o, e.out);
      TakenIsInTime(o, e.out, out);
    }
    FlushKeepsInvariant(ready, e.clock, 0);
    assert ready.numInstances == o.numInstances;
    if out.rank in ready.pending && ready.pending[out.rank] == out {
      FlushTakesWhatItEmits(ready, e.clock, 0, out.rank);
    } else {
      LoggedStays(o, Step(o, e), out);
    }
  }

  lemma TakenIsInTime<B>(o: OrdererState<B>, a: InstanceOutput<B>, out: InstanceOutput<B>)
    ensures ComesInTime(o, a) && out.rank in o.pending ==> a.rank != out.rank
  {
  }

  /**
   An output that arrives in time, while no arrival from then on finds the buffer full, waits for its rank
   or is its entry ever after.  So a rank is filled in only if its output comes too late or finds no room.
   */
  lemma {:induction false} InTimeIsKept<B>(config: OrdererConfig, events: seq<Event<B>>, k: nat)
    requires k < |events| && events[k].Input? && ComesInTime(Run(config, events[..k]), events[k].out)
    requires forall j | k <= j < |events| :: FindsRoom(Run(config, events[..j]), events[j])
    ensures IsKept(Run(config, events), events[k].out)
  {
    hide ComesInTime, FindsRoom, IsKept, Step, Invariant;
    var n := |events| - 1;
    var before, o := events[..n], Run(config, events[..n]);
    if k < n {
      assert before[..k] == events[..k];
      forall j | k <= j < n ensures FindsRoom(Run(config, before[..j]), before[j]) {
        assert before[..j] == events[..j];
      }
      InTimeIsKept(config, before, k);
    }
    StepKeeps(o, events[n], events[k].out);
  }

  // ---- how long a rank is waited for ----

  function Gained<B>(before: OrdererState<B>, after: OrdererState<B>): nat {
    if after.nextRank > before.nextRank then after.nextRank - before.nextRank else 0
  }

  /** The clock reading at which the rank that is next after the last event was first found missing. */
  ghost function MissedAt<B>(config: OrdererConfig, events: seq<Event<B>>): int
    requires events != []
  {
    var n := |events| - 1;
    var before, after := Run(config, events[..n]), Run(config, events);
    if n > 0 && before.nextRank == after.nextRank then MissedAt(config, events[..n])
    else events[n].clock(Gained(before, after))
  }

  /** Before the first event nothing is known to be missing, and then only the next rank, since that reading. */
  lemma {:induction false} MissingSinceIs<B>(config: OrdererConfig, events: seq<Event<B>>)
    ensures Run(config, events).missingSince
            == if events == [] then map[] else map[Run(config, events).nextRank := MissedAt(config, events)]
  {
    hide Invariant, Accept, Flush;
    if events != [] {
      var n := |events| - 1;
      var o, e := Run(config, events[..n]), events[n];
      MissingSinceIs(config, events[..n]);
      ReadyToFlush(o, e);
      ReadyIsSameRank(o, e);
      NextIsLogged(config, events[..n]);
      NextIsLogged(config, events);
      FlushNotesMissing(BeforeFlush(o, e), e.clock, 0);
      FlushKeepsInvariant(BeforeFlush(o, e), e.clock, 0);
    }
  }

  lemma ReadyIsSameRank<B>(o: OrdererState<B>, e: Event<B>)
    requires o.numInstances >= 1
    ensures var ready := BeforeFlush(o, e);
            && ready.nextRank == o.nextRank && ready.missingSince == o.missingSince && ready.log == o.log
            && ready.barTimeout == o.barTimeout
  {
    hide ValidRankMapping, WithoutHighest;
  }

  /** A flush ends by noting the reading at which it found the next rank missing, if that is not noted yet. */
  lemma {:induction false} FlushNotesMissing<B>(o: OrdererState<B>, clock: nat -> int, k: nat)
    requires Invariant(o)
    ensures o.numInstances >= 1
    ensures var o' := Flush(o, clock, k).0;
            && o'.barTimeout == o.barTimeout && o'.nextRank >= o.nextRank
            && o'.missingSince
               == if o'.nextRank == o.nextRank && o.missingSince != map[] then o.missingSince
                  else map[o'.nextRank := clock(k + Gained(o, o'))]
    decreases |o.pending| + |o.missingSince|
  {
    hide Invariant, Emit, Flush;
    HasInstances(o);
    EmitKeepsInvariant(o, clock(k));
    EmitShrinks(o, clock(k));
    EmitNotes(o, clock(k));
    FlushUnfolds(o, clock, k);
    var o', entry := Emit(o, clock(k)).0, Emit(o, clock(k)).1;
    if entry.Some? {
      FlushNotesMissing(o', clock, k + 1);
    }
  }

  lemma EmitNotes<B>(o: OrdererState<B>, now: int)
    requires Invariant(o)
    ensures o.numInstances >= 1
    ensures var (o', entry) := Emit(o, now);
            && o'.barTimeout == o.barTimeout
            && (entry.Some? ==> o'.nextRank == o.nextRank + 1 && o'.missingSince == map[])
            && (entry.None? ==> o'.nextRank == o.nextRank && o'.missingSince
                                == if o.missingSince != map[] then o.missingSince else map[o.nextRank := now])
  {
    hide LogIsGapless, PendingIsAhead;
    if o.missingSince != map[] {
      var r :| r in o.missingSince;
      assert r == o.nextRank;
    }
  }

  /** The rank that waits no longer: nothing came for it, and the timeout has passed since it was found missing. */
  lemma FillsInIff<B>(config: OrdererConfig, events: seq<Event<B>>, k: nat, rank: nat)
    requires k < |events|
    ensures var o, e := Run(config, events[..k]), events[k];
            FillsIn(config, events, k, rank)
            <==> && o.nextRank == rank && rank !in o.pending && k > 0
                 && e.clock(0) - MissedAt(config, events[..k])
                    >= (if config.barTimeout <= 0 then 2_000_000_000 else config.barTimeout)
                 && !(e.Input? && FitsRank(o.numInstances, e.out) && e.out.rank == rank)
  {
    var o, e := Run(config, events[..k]), events[k];
    hide MissedAt, Run, Invariant, Accept, FitsRank;
    MissingSinceIs(config, events[..k]);
    TimeoutIsFixed(config, events[..k]);
    ReadyIsSameRank(o, e);
    ReadyHasNextIff(o, e);
    hide BeforeFlush;
    assert events[..0] == [];
  }

  lemma ReadyHasNextIff<B>(o: OrdererState<B>, e: Event<B>)
    requires Invariant(o)
    ensures o.numInstances >= 1
    ensures o.nextRank in BeforeFlush(o, e).pending
            <==> o.nextRank in o.pending || (e.Input? && FitsRank(o.numInstances, e.out) && e.out.rank == o.nextRank)
  {
    hide Accept, LogIsGapless, PendingIsAhead;
    if e.Input? {
      if o.nextRank in o.pending {
        NextIsKept(o, e.out);
      } else {
        NextIsNeverLost(o, e.out);
      }
    }
  }

  lemma NextIsKept<B>(o: OrdererState<B>, out: InstanceOutput<B>)
    requires Invariant(o) && o.nextRank in o.pending
    ensures o.numInstances >= 1
    ensures o.nextRank in Accept(o, out).pending
  {
    AcceptKeepsAllButHighest(o, out);
    hide Accept, LogIsGapless, ValidRankMapping;
  }

  /** An output for the next rank is never the one that a full buffer loses. */
  lemma NextIsNeverLost<B>(o: OrdererState<B>, out: InstanceOutput<B>)
    requires Invariant(o) && o.nextRank !in o.pending
    ensures o.numInstances >= 1
    ensures o.nextRank in Accept(o, out).pending <==> FitsRank(o.numInstances, out) && out.rank == o.nextRank
  {
    AcceptKeepsAllButHighest(o, out);
    hide Accept, LogIsGapless, ValidRankMapping;
  }

  lemma {:induction false} TimeoutIsFixed<B>(config: OrdererConfig, events: seq<Event<B>>)
    ensures Run(config, events).barTimeout == if config.barTimeout <= 0 then 2_000_000_000 else config.barTimeout
    ensures Run(config, events).maxPending == if config.maxPending <= 0 then 8192 else config.maxPending
    ensures Run(config, events).numInstances == if config.numInstances == 0 then 1 else config.numInstances
  {
    if events != [] {
      hide Invariant, Accept, Flush;
      var n := |events| - 1;
      var o, e := Run(config, events[..n]), events[n];
      TimeoutIsFixed(config, events[..n]);
      SettingsStay(o, e);
    }
  }

  lemma SettingsStay<B>(o: OrdererState<B>, e: Event<B>)
    requires Invariant(o)
    ensures o.numInstances >= 1
    ensures var o' := Step(o, e);
            o'.barTimeout == o.barTimeout && o'.maxPending == o.maxPending && o'.numInstances == o.numInstances
  {
    HasInstances(o);
    ReadyToFlush(o, e);
    AcceptSettings(o, e);
    hide BeforeFlush, Flush;
    FlushSettings(BeforeFlush(o, e), e.clock, 0);
  }

  lemma AcceptSettings<B>(o: OrdererState<B>, e: Event<B>)
    requires o.numInstances >= 1
    ensures var ready := BeforeFlush(o, e);
            && ready.barTimeout == o.barTimeout && ready.maxPending == o.maxPending
            && ready.numInstances == o.numInstances
  {
    hide ValidRankMapping, WithoutHighest;
  }

  lemma {:induction false} FlushSettings<B>(o: OrdererState<B>, clock: nat -> int, k: nat)
    requires Invariant(o)
    ensures o.numInstances >= 1
    ensures var o' := Flush(o, clock, k).0;
            o'.barTimeout == o.barTimeout && o'.maxPending == o.maxPending && o'.numInstances == o.numInstances
    decreases |o.pending| + |o.missingSince|
  {
    HasInstances(o);
    hide LogIsGapless, PendingIsAhead;
    EmitKeepsInvariant(o, clock(k));
    EmitShrinks(o, clock(k));
    if Emit(o, clock(k)).1.Some? {
      FlushSettings(Emit(o, clock(k)).0, clock, k + 1);
    }
  }

  // ---- every input is accounted for ----

  function InputCount<B>(events: seq<Event<B>>): nat {
    if events == [] then 0
    else InputCount(events[..|events| - 1]) + if events[|events| - 1].Input? then 1 else 0
  }

  /** An output that comes in time, but for a slot that is not its own or that is taken. */
  predicate Ignored<B>(o: OrdererState<B>, out: InstanceOutput<B>)
    requires o.numInstances >= 1
  {
    out.rank >= o.nextRank && (!ValidRankMapping(o.numInstances, out) || out.rank in o.pending)
  }

  ghost function IgnoredCount<B>(config: OrdererConfig, events: seq<Event<B>>): nat {
    if events == [] then 0
    else
      var n := |events| - 1;
      IgnoredCount(config, events[..n])
      + if events[n].Input? && Ignored(Run(config, events[..n]), events[n].out) then 1 else 0
  }

  function Accounted<B>(o: OrdererState<B>): nat {
    o.late + o.dropped + o.emitted + |o.pending|
  }

  lemma AcceptAccounts<B>(o: OrdererState<B>, out: InstanceOutput<B>)
    requires Invariant(o)
    ensures Accounted(Accept(o, out)) == Accounted(o) + if Ignored(o, out) then 0 else 1
  {
    hide ValidRankMapping, LogIsGapless;
    if out.rank >= o.nextRank && !Ignored(o, out) {
      if |o.pending| < o.maxPending {
        InsertKeepsAhead(o, out);
      } else if exists r :: r in o.pending && r > out.rank {
        var h := SomeHighest(o.pending.Keys);
        WithoutHighestIs(o.pending, h);
        RemoveKey(o.pending, h);
        RemoveKeepsAhead(o, h);
        InsertKeepsAhead(o.(pending := o.pending - {h}), out);
      }
    }
  }

  lemma EmitAccounts<B>(o: OrdererState<B>, now: int)
    requires Invariant(o)
    ensures Accounted(Emit(o, now).0) == Accounted(o)
  {
    if o.nextRank in o.pending {
      RemoveKey(o.pending, o.nextRank);
    }
  }

  lemma {:induction false} FlushAccounts<B>(o: OrdererState<B>, clock: nat -> int, k: nat)
    requires Invariant(o)
    ensures Accounted(Flush(o, clock, k).0) == Accounted(o)
    decreases |o.pending| + |o.missingSince|
  {
    hide Emit, Accounted, LogIsGapless, PendingIsAhead;
    EmitKeepsInvariant(o, clock(k));
    EmitShrinks(o, clock(k));
    EmitAccounts(o, clock(k));
    if Emit(o, clock(k)).1.Some? {
      FlushAccounts(Emit(o, clock(k)).0, clock, k + 1);
    }
  }

  /** In every run each input is late, dropped, emitted, still waiting, or was ignored on arrival. */
  lemma {:induction false} InputsAccountedFor<B>(config: OrdererConfig, events: seq<Event<B>>)
    ensures InputCount(events) == Accounted(Run(config, events)) + IgnoredCount(config, events)
  {
    hide Invariant, Flush, Accept, Ignored;
    if events != [] {
      var n := |events| - 1;
      var o, e := Run(config, events[..n]), events[n];
      InputsAccountedFor(config, events[..n]);
      hide Accounted;
      if e.Input? {
        AcceptAccounts(o, e.out);
        AcceptKeepsInvariant(o, e.out);
        FlushAccounts(Accept(o, e.out), e.clock, 0);
      } else {
        FlushAccounts(o, e.clock, 0);
      }
    }
  }
}
