/**
 The global orderer (src/evolvbft/consensus/hotstuff/orderer.go): outputs of many consensus instances
 are put into one log by rank.  A rank that stays missing for too long is filled in with a nil entry.

 The orderer's object is the class GlobalOrderer.  Its operations are given as functions on its state,
 and what it promises over runs of inputs and ticks is proved about those functions.
 */
module Orderers {
  import opened Wrappers
  import opened Arith

  /** What an instance hands over for one of its heights; `content` stands for block, hash and transitions. */
  datatype InstanceOutput<B> = InstanceOutput(
    instanceId: nat, localHeight: nat, rank: nat, isNil: bool, content: Option<B>)

  datatype OrdererState<B> = OrdererState(
    numInstances: nat,
    nextRank: nat,
    barTimeout: int,
    maxPending: int,
    pending: map<nat, InstanceOutput<B>>,
    missingSince: map<nat, int>,
    log: seq<InstanceOutput<B>>,
    emitted: nat,
    nilled: nat,
    late: nat,
    dropped: nat)

  const DEFAULT_BAR_TIMEOUT := 2_000_000_000
  const DEFAULT_MAX_PENDING := 8192

  // ---- ranks ----

  /** The rank a committed height of an instance gets (rank_state.go). */
  function ExpectedRank(numInstances: nat, instanceId: nat, localHeight: nat): nat {
    localHeight * numInstances + instanceId
  }

  predicate ValidRankMapping<B>(numInstances: nat, out: InstanceOutput<B>)
    requires numInstances >= 1
  {
    out.instanceId == out.rank % numInstances && out.localHeight == out.rank / numInstances
  }

  /** An output is accepted for its rank exactly if it is what one of the instances hands over for it. */
  lemma RankMappingRoundTrip<B>(numInstances: nat, out: InstanceOutput<B>)
    requires numInstances >= 1
    ensures ValidRankMapping(numInstances, out)
            <==> out.instanceId < numInstances
                 && out.rank == ExpectedRank(numInstances, out.instanceId, out.localHeight)
  {
    Decompose(out.rank, numInstances);
    if out.instanceId < numInstances && out.rank == ExpectedRank(numInstances, out.instanceId, out.localHeight) {
      RemainderIs(out.rank, numInstances, out.localHeight, out.instanceId);
    }
  }

  // ---- the operations ----

  /** Missing settings are replaced; the first rank is that of height 1 of instance 0. */
  function NewOrderer<B>(numInstances: nat, barTimeout: int, maxPending: int): OrdererState<B> {
    var n := if numInstances == 0 then 1 else numInstances;
    OrdererState(n, n,
                 if barTimeout <= 0 then DEFAULT_BAR_TIMEOUT else barTimeout,
                 if maxPending <= 0 then DEFAULT_MAX_PENDING else maxPending,
                 map[], map[], [], 0, 0, 0, 0)
  }

  predicate IsHighest(ranks: set<nat>, r: nat) {
    r in ranks && forall k | k in ranks :: k <= r
  }

  lemma {:induction false} SomeHighest(ranks: set<nat>) returns (h: nat)
    requires ranks != {}
    ensures IsHighest(ranks, h)
  {
    var x :| x in ranks;
    h := x;
    if ranks - {x} != {} {
      var other := SomeHighest(ranks - {x});
      h := if other > x then other else x;
    }
    assert forall k | k in ranks :: k == x || k in ranks - {x};
  }

  /** What is waiting, without the highest rank. */
  function WithoutHighest<B>(pending: map<nat, InstanceOutput<B>>): map<nat, InstanceOutput<B>> {
    map r | r in pending && !IsHighest(pending.Keys, r) :: pending[r]
  }

  lemma WithoutHighestIs<B>(pending: map<nat, InstanceOutput<B>>, h: nat)
    requires IsHighest(pending.Keys, h)
    ensures WithoutHighest(pending) == pending - {h} && |pending - {h}| == |pending| - 1
  {
    RemoveKey(pending, h);
  }

  /** When the buffer is full, the highest rank has to go, whether it is waiting or just arriving. */
  function Accept<B>(o: OrdererState<B>, out: InstanceOutput<B>): OrdererState<B>
    requires o.numInstances >= 1
  {
    if out.rank < o.nextRank then o.(late := o.late + 1)
    else if !ValidRankMapping(o.numInstances, out) || out.rank in o.pending then o
    else if |o.pending| < o.maxPending then o.(pending := o.pending[out.rank := out])
    else if forall r | r in o.pending :: r <= out.rank then o.(dropped := o.dropped + 1)
    else o.(pending := WithoutHighest(o.pending)[out.rank := out], dropped := o.dropped + 1)
  }

  function NilEntry<B>(numInstances: nat, rank: nat): InstanceOutput<B>
    requires numInstances >= 1
  {
    InstanceOutput(rank % numInstances, rank / numInstances, rank, true, None)
  }

  /** The next rank has been missing for the timeout. */
  predicate TimedOut<B>(o: OrdererState<B>, now: int) {
    o.nextRank in o.missingSince && now - o.missingSince[o.nextRank] >= o.barTimeout
  }

  /** Appends the next entry, if there is one at this time. */
  function Emit<B>(o: OrdererState<B>, now: int): (OrdererState<B>, Option<InstanceOutput<B>>)
    requires o.numInstances >= 1
  {
    var r := o.nextRank;
    if r in o.pending then
      (o.(pending := o.pending - {r}, missingSince := o.missingSince - {r}, log := o.log + [o.pending[r]],
          emitted := o.emitted + 1, nextRank := r + 1), Some(o.pending[r]))
    else if TimedOut(o, now) then
      var entry := NilEntry(o.numInstances, r);
      (o.(missingSince := o.missingSince - {r}, log := o.log + [entry], nilled := o.nilled + 1, nextRank := r + 1),
       Some(entry))
    else if r in o.missingSince then (o, None)
    else (o.(missingSince := o.missingSince[r := now]), None)
  }

  lemma RemoveKey<K, V>(m: map<K, V>, k: K)
    requires k in m
    ensures |m - {k}| == |m| - 1
  {
    assert (m - {k}).Keys == m.Keys - {k};
  }

  /** Each entry appended uses up a pending output or a missing mark. */
  lemma EmitShrinks<B>(o: OrdererState<B>, now: int)
    requires o.numInstances >= 1
    ensures var (o', entry) := Emit(o, now);
            entry.Some? ==> |o'.pending| + |o'.missingSince| < |o.pending| + |o.missingSince|
  {
    var r := o.nextRank;
    if r in o.pending {
      RemoveKey(o.pending, r);
      if r in o.missingSince {
        RemoveKey(o.missingSince, r);
      } else {
        assert o.missingSince - {r} == o.missingSince;
      }
    } else if r in o.missingSince {
      RemoveKey(o.missingSince, r);
    }
  }

  /** Emits until there is nothing to emit; `clock(k)` is the k-th reading of the clock. */
  function Flush<B>(o: OrdererState<B>, clock: nat -> int, k: nat): (OrdererState<B>, seq<InstanceOutput<B>>)
    requires o.numInstances >= 1
    decreases |o.pending| + |o.missingSince|
  {
    EmitShrinks(o, clock(k));
    var (o', entry) := Emit(o, clock(k));
    if entry.None? then (o', [])
    else
      var (o'', later) := Flush(o', clock, k + 1);
      (o'', [entry.value] + later)
  }

  // ---- the object ----

  class GlobalOrderer<B> {
    const numInstances: nat
    const barTimeout: int
    const maxPending: int
    var nextRank: nat
    var pending: map<nat, InstanceOutput<B>>
    var missingSince: map<nat, int>
    var log: seq<InstanceOutput<B>>
    var emitted: nat
    var nilled: nat
    var late: nat
    var dropped: nat

    ghost function State(): OrdererState<B>
      reads this
    {
      OrdererState(numInstances, nextRank, barTimeout, maxPending, pending, missingSince, log,
                   emitted, nilled, late, dropped)
    }

    constructor (numInstances: nat, barTimeout: int, maxPending: int)
      ensures State() == NewOrderer(numInstances, barTimeout, maxPending)
    {
      this.numInstances := if numInstances == 0 then 1 else numInstances;
      this.barTimeout := if barTimeout <= 0 then DEFAULT_BAR_TIMEOUT else barTimeout;
      this.maxPending := if maxPending <= 0 then DEFAULT_MAX_PENDING else maxPending;
      nextRank := if numInstances == 0 then 1 else numInstances;
      pending, missingSince, log := map[], map[], [];
      emitted, nilled, late, dropped := 0, 0, 0, 0;
    }

    method OnInput(out: InstanceOutput<B>)
      requires numInstances >= 1
      modifies this
      ensures State() == Accept(old(State()), out)
    {
      if out.rank < nextRank {
        late := late + 1;
        return;
      }
      if !ValidRankMapping(numInstances, out) || out.rank in pending {
        return;
      }
      if |pending| >= maxPending {
        var maxRank, maxSet := HighestPending();
        if !maxSet || out.rank >= maxRank {
          dropped := dropped + 1;
          return;
        }
        WithoutHighestIs(pending, maxRank);
        pending := pending - {maxRank};
        dropped := dropped + 1;
      }
      pending := pending[out.rank := out];
    }

    /** Goes over the waiting ranks in whatever order the map has. */
    method HighestPending() returns (maxRank: nat, maxSet: bool)
      ensures maxSet <==> pending != map[]
      ensures maxSet ==> IsHighest(pending.Keys, maxRank)
    {
      maxRank, maxSet := 0, false;
      var rest := pending.Keys;
      while rest != {}
        invariant rest <= pending.Keys
        invariant maxSet ==> maxRank in pending
        invariant forall r | r in pending && r !in rest :: maxSet && r <= maxRank
      {
        var rank :| rank in rest;
        if !maxSet || rank > maxRank {
          maxRank := rank;
          maxSet := true;
        }
        rest := rest - {rank};
      }
      if pending != map[] {
        ghost var h := SomeHighest(pending.Keys);
        assert h in pending;
      }
    }

    method NextToEmit(now: int) returns (entry: Option<InstanceOutput<B>>)
      requires numInstances >= 1
      modifies this
      ensures (State(), entry) == Emit(old(State()), now)
    {
      if nextRank in pending {
        entry := Some(pending[nextRank]);
        pending := pending - {nextRank};
        missingSince := missingSince - {nextRank};
        log := log + [entry.value];
        emitted := emitted + 1;
        nextRank := nextRank + 1;
        return;
      }
      if nextRank !in missingSince {
        missingSince := missingSince[nextRank := now];
        return None;
      }
      if now - missingSince[nextRank] < barTimeout {
        return None;
      }
      var nilEntry := InstanceOutput(nextRank % numInstances, nextRank / numInstances, nextRank, true, None);
      missingSince := missingSince - {nextRank};
      log := log + [nilEntry];
      nilled := nilled + 1;
      nextRank := nextRank + 1;
      entry := Some(nilEntry);
    }

    /** Everything that can go out goes out; terminates in every state. */
    method FlushAll(clock: nat -> int) returns (out: seq<InstanceOutput<B>>)
      requires numInstances >= 1
      modifies this
      ensures (State(), out) == Flush(old(State()), clock, 0)
    {
      hide Emit, Accept, NilEntry, TimedOut;
      ghost var start := State();
      out := [];
      assert [] + Flush(start, clock, 0).1 == Flush(start, clock, 0).1;
      var k := 0;
      while true
        invariant Flush(start, clock, 0) == (Flush(State(), clock, k).0, out + Flush(State(), clock, k).1)
        decreases |pending| + |missingSince|
      {
        EmitShrinks(State(), clock(k));
        ghost var before := State();
        var next := NextToEmit(clock(k));
        if next.None? {
          assert Flush(before, clock, k) == (State(), []);
          assert out + [] == out;
          return;
        }
        ghost var later := Flush(State(), clock, k + 1).1;
        assert Flush(before, clock, k) == (Flush(State(), clock, k + 1).0, [next.value] + later);
        assert out + ([next.value] + later) == (out + [next.value]) + later;
        out := out + [next.value];
        k := k + 1;
      }
    }
  }

  // ---- the invariant ----

  predicate LogIsGapless<B>(o: OrdererState<B>)
    requires o.numInstances >= 1
  {
    && o.nextRank == o.numInstances + |o.log|
    && forall i | 0 <= i < |o.log| ::
         o.log[i].rank == o.numInstances + i && ValidRankMapping(o.numInstances, o.log[i])
  }

  predicate PendingIsAhead<B>(o: OrdererState<B>)
    requires o.numInstances >= 1
  {
    && |o.pending| <= o.maxPending
    && forall r | r in o.pending ::
         r >= o.nextRank && o.pending[r].rank == r && ValidRankMapping(o.numInstances, o.pending[r])
  }

  ghost predicate Invariant<B>(o: OrdererState<B>) {
    && o.numInstances >= 1 && o.maxPending >= 1 && o.barTimeout > 0
    && LogIsGapless(o) && PendingIsAhead(o)
    && o.missingSince.Keys <= {o.nextRank}
    && o.emitted + o.nilled == |o.log|
  }

  lemma InsertKeepsAhead<B>(o: OrdererState<B>, out: InstanceOutput<B>)
    requires o.numInstances >= 1 && PendingIsAhead(o) && |o.pending| < o.maxPending
    requires out.rank >= o.nextRank && out.rank !in o.pending && ValidRankMapping(o.numInstances, out)
    ensures PendingIsAhead(o.(pending := o.pending[out.rank := out]))
    ensures |o.pending[out.rank := out]| == |o.pending| + 1
  {
    hide ValidRankMapping;
    assert (o.pending[out.rank := out]).Keys == o.pending.Keys + {out.rank};
  }

  lemma RemoveKeepsAhead<B>(o: OrdererState<B>, r: nat)
    requires o.numInstances >= 1 && PendingIsAhead(o) && r in o.pending
    ensures PendingIsAhead(o.(pending := o.pending - {r}))
  {
    hide ValidRankMapping;
    RemoveKey(o.pending, r);
  }

  lemma AcceptKeepsInvariant<B>(o: OrdererState<B>, out: InstanceOutput<B>)
    requires Invariant(o)
    ensures Invariant(Accept(o, out)) && Accept(o, out).numInstances == o.numInstances
  {
    hide PendingIsAhead, ValidRankMapping;
    if out.rank >= o.nextRank && ValidRankMapping(o.numInstances, out) && out.rank !in o.pending {
      if |o.pending| < o.maxPending {
        InsertKeepsAhead(o, out);
      } else if exists r :: r in o.pending && r > out.rank {
        var h := SomeHighest(o.pending.Keys);
        WithoutHighestIs(o.pending, h);
        var room := o.(pending := o.pending - {h});
        RemoveKey(o.pending, h);
        RemoveKeepsAhead(o, h);
        assert |o.pending| <= o.maxPending by {
          PendingFits(o);
        }
        InsertKeepsAhead(room, out);
        AheadIgnoresCounts(room.(pending := room.pending[out.rank := out]), Accept(o, out));
      } else {
        AheadIgnoresCounts(o, Accept(o, out));
      }
    } else {
      AheadIgnoresCounts(o, Accept(o, out));
    }
  }

  lemma PendingFits<B>(o: OrdererState<B>)
    requires o.numInstances >= 1 && PendingIsAhead(o)
    ensures |o.pending| <= o.maxPending
  {
  }

  lemma AheadIgnoresCounts<B>(o: OrdererState<B>, o': OrdererState<B>)
    requires o.numInstances >= 1 && PendingIsAhead(o)
    requires o' == o.(late := o'.late, dropped := o'.dropped)
    ensures PendingIsAhead(o')
  {
    hide ValidRankMapping;
  }

  lemma EmitKeepsInvariant<B>(o: OrdererState<B>, now: int)
    requires Invariant(o)
    ensures Invariant(Emit(o, now).0) && Emit(o, now).0.numInstances == o.numInstances
  {
    if o.nextRank in o.pending {
      RemoveKey(o.pending, o.nextRank);
    }
  }

  /** Nothing more can be emitted: the next rank is not there, and it is known since when it is missing. */
  predicate Settled<B>(o: OrdererState<B>) {
    o.nextRank !in o.pending && o.missingSince.Keys == {o.nextRank}
  }

  lemma EmitAppends<B>(o: OrdererState<B>, now: int)
    requires Invariant(o)
    ensures var (o', entry) := Emit(o, now);
            && o'.log == o.log + (if entry.Some? then [entry.value] else [])
            && (entry.None? ==> Settled(o'))
  {
  }

  lemma {:induction false} FlushKeepsInvariant<B>(o: OrdererState<B>, clock: nat -> int, k: nat)
    requires Invariant(o)
    ensures var (o', out) := Flush(o, clock, k);
            && Invariant(o') && Settled(o') && o'.log == o.log + out
            && o'.numInstances == o.numInstances
    decreases |o.pending| + |o.missingSince|
  {
    hide Emit, LogIsGapless, PendingIsAhead, Settled, TimedOut;
    EmitKeepsInvariant(o, clock(k));
    EmitShrinks(o, clock(k));
    EmitAppends(o, clock(k));
    var (o', entry) := Emit(o, clock(k));
    if entry.Some? {
      FlushKeepsInvariant(o', clock, k + 1);
      assert o.log + ([entry.value] + Flush(o', clock, k + 1).1) == o.log + [entry.value] + Flush(o', clock, k + 1).1;
    } else {
      assert o.log + [] == o.log;
    }
  }

  function Without<B>(pending: map<nat, InstanceOutput<B>>, r: nat): map<nat, InstanceOutput<B>> {
    pending - {r}
  }

  lemma EmitShape<B>(o: OrdererState<B>, now: int, later: int)
    requires Invariant(o)
    ensures var (o', entry) := Emit(o, now);
            && entry == (if o.nextRank in o.pending then Some(o.pending[o.nextRank])
                         else if TimedOut(o, now) then Some(NilEntry(o.numInstances, o.nextRank)) else None)
            && o'.nextRank == o.nextRank + (if entry.Some? then 1 else 0)
            && (entry.Some? ==> !TimedOut(o', later) && o'.pending == Without(o.pending, o.nextRank))
            && (entry.None? ==> o'.nextRank !in o'.pending)
  {
    hide PendingIsAhead, LogIsGapless;
    assert o.nextRank !in o.pending ==> o.pending - {o.nextRank} == o.pending;
  }

  /** The outputs waiting for the ranks from the given one on, without a gap. */
  ghost predicate Consecutive<B>(pending: map<nat, InstanceOutput<B>>, from: nat, out: seq<InstanceOutput<B>>) {
    forall r: nat | from <= r < from + |out| :: r in pending && out[r - from] == pending[r]
  }

  lemma ConsecutiveFurther<B>(pending: map<nat, InstanceOutput<B>>, r: nat, later: seq<InstanceOutput<B>>)
    requires Consecutive(pending - {r}, r + 1, later)
    ensures Consecutive(pending, r + 1, later)
    ensures r in pending ==> Consecutive(pending, r, [pending[r]] + later)
  {
    var rest := pending - {r};
    forall k: nat | r + 1 <= k < r + 1 + |later| ensures k in pending && later[k - (r + 1)] == pending[k] {
      assert k in rest && later[k - (r + 1)] == rest[k];
    }
    if r in pending {
      var out := [pending[r]] + later;
      forall k: nat | r < k < r + |out| ensures k in pending && out[k - r] == pending[k] {
        assert k in pending && out[k - r] == later[k - (r + 1)];
      }
    }
  }

  lemma FlushUnfolds<B>(o: OrdererState<B>, clock: nat -> int, k: nat)
    requires o.numInstances >= 1
    ensures var (o', entry) := Emit(o, clock(k));
            Flush(o, clock, k)
            == if entry.None? then (o', [])
               else (Flush(o', clock, k + 1).0, [entry.value] + Flush(o', clock, k + 1).1)
  {
    hide Emit;
  }

  lemma HasInstances<B>(o: OrdererState<B>)
    requires Invariant(o)
    ensures o.numInstances >= 1
  {
  }

  /** The nil entry a flush may start with: the next rank is missing, and has been for the timeout. */
  function Fill<B>(o: OrdererState<B>, now: int): seq<InstanceOutput<B>>
    requires o.numInstances >= 1
  {
    if o.nextRank !in o.pending && TimedOut(o, now) then [NilEntry(o.numInstances, o.nextRank)] else []
  }

  /**
   From `pending` and the next rank r, a flush has put out the fill, then what was waiting for
   consecutive ranks, and stopped at the first rank that is missing.
   */
  ghost predicate FlushedTo<B>(pending: map<nat, InstanceOutput<B>>, r: nat, fill: seq<InstanceOutput<B>>,
                               out: seq<InstanceOutput<B>>, next: nat)
  {
    && |fill| <= |out| && out[..|fill|] == fill
    && Consecutive(pending, r + |fill|, out[|fill|..])
    && next == r + |out| && next !in pending
  }

  lemma NothingFlushed<B>(pending: map<nat, InstanceOutput<B>>, r: nat)
    requires r !in pending
    ensures FlushedTo(pending, r, [], [], r)
  {
  }

  /** The first entry of a flush and the rest together. */
  lemma ThenFlushed<B>(pending: map<nat, InstanceOutput<B>>, r: nat, entry: InstanceOutput<B>,
                       later: seq<InstanceOutput<B>>, next: nat)
    requires FlushedTo(Without(pending, r), r + 1, [], later, next)
    requires r in pending ==> entry == pending[r]
    ensures FlushedTo(pending, r, if r in pending then [] else [entry], [entry] + later, next)
  {
    var out := [entry] + later;
    assert later[0..] == later && out[0..] == out && out[1..] == later;
    ConsecutiveFurther(pending, r, later);
    hide Consecutive;
    assert next >= r + 1 && next !in pending - {r};
  }

  /** One entry goes out, and the next rank has no timeout running; or nothing does, and the rank is missing. */
  lemma EmitFills<B>(o: OrdererState<B>, now: int, later: int)
    requires Invariant(o)
    ensures o.numInstances >= 1 && Emit(o, now).0.numInstances >= 1
    ensures Emit(o, now).1.Some? ==> Fill(Emit(o, now).0, later) == []
    ensures Emit(o, now).1.None? ==>
              FlushedTo(o.pending, o.nextRank, Fill(o, now), [], Emit(o, now).0.nextRank)
  {
    hide Emit, LogIsGapless, PendingIsAhead, TimedOut, FlushedTo, NilEntry;
    EmitShape(o, now, later);
    EmitKeepsInvariant(o, now);
    if Emit(o, now).1.None? {
      NothingFlushed(o.pending, o.nextRank);
    }
  }

  lemma EmitThenFlushed<B>(o: OrdererState<B>, now: int, rest: seq<InstanceOutput<B>>, next: nat)
    requires Invariant(o) && Emit(o, now).1.Some?
    requires FlushedTo(Emit(o, now).0.pending, Emit(o, now).0.nextRank, [], rest, next)
    ensures FlushedTo(o.pending, o.nextRank, Fill(o, now), [Emit(o, now).1.value] + rest, next)
  {
    hide Emit, LogIsGapless, PendingIsAhead, TimedOut, FlushedTo, NilEntry, Without;
    EmitShape(o, now, now);
    ThenFlushed(o.pending, o.nextRank, Emit(o, now).1.value, rest, next);
  }

  /**
   What one flush puts out: the nil entry of the next rank if that has timed out, then the outputs
   waiting for consecutive ranks, up to the first rank that is missing.
   */
  lemma {:induction false} FlushShape<B>(o: OrdererState<B>, clock: nat -> int, k: nat)
    requires Invariant(o)
    ensures o.numInstances >= 1
    ensures FlushedTo(o.pending, o.nextRank, Fill(o, clock(k)), Flush(o, clock, k).1, Flush(o, clock, k).0.nextRank)
    decreases |o.pending| + |o.missingSince|
  {
    HasInstances(o);
    FlushUnfolds(o, clock, k);
    EmitFills(o, clock(k), clock(k + 1));
    hide Emit, Flush, Fill, Invariant, FlushedTo;
    EmitShrinks(o, clock(k));
    EmitKeepsInvariant(o, clock(k));
    var o', entry := Emit(o, clock(k)).0, Emit(o, clock(k)).1;
    if entry.Some? {
      FlushShape(o', clock, k + 1);
      EmitThenFlushed(o, clock(k), Flush(o', clock, k + 1).1, Flush(o', clock, k + 1).0.nextRank);
    }
  }
}
