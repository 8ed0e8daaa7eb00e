/** Every behaviour of the manager ends, unless some Unload re-polls its channels for ever. Eviction
    rounds are bounded by what is in the map plus what can still be put there. */
module Termination {
  import opened Types
  import opened Interleaving
  import opened Accounting
  import opened Slots
  import opened Drain

  /** Instances in the map, plus loads that may still add one. */
  function Evictable(w: World): int { |w.table| + Total(Unplaced, w.threads) }

  /** The one kind of step that makes no progress: Unload going back to read its channels again. */
  predicate RePolls(w: World, a: Act, v: World) {
    a.t < |w.threads| && a.t < |v.threads| && w.threads[a.t].UnlReadGen? && v.threads[a.t].UnlReadQueue?
  }

  predicate Smaller(w: World, v: World) {
    || Evictable(v) < Evictable(w)
    || (Evictable(v) == Evictable(w) && Total(StagesLeft, v.threads) < Total(StagesLeft, w.threads))
    || (Evictable(v) == Evictable(w) && Total(StagesLeft, v.threads) == Total(StagesLeft, w.threads)
        && Total(ScanLeft, v.threads) < Total(ScanLeft, w.threads))
  }

  /** The same comparison seen from the one call that moves. */
  predicate SmallerAt(w: World, a: Act, v: World)
    requires a.t < |w.threads| && a.t < |v.threads|
  {
    var pc, pd := w.threads[a.t], v.threads[a.t];
    var e := |v.table| - |w.table| + Value(Unplaced, pd) - Value(Unplaced, pc);
    || e < 0
    || (e == 0 && Value(StagesLeft, pd) < Value(StagesLeft, pc))
    || (e == 0 && Value(StagesLeft, pd) == Value(StagesLeft, pc) && Value(ScanLeft, pd) < Value(ScanLeft, pc))
  }

  lemma RemovalShrinks(m: map<ModelId, nat>, k: ModelId)
    ensures |m - {k}| == if k in m then |m| - 1 else |m|
  {
    assert (m - {k}).Keys == m.Keys - {k};
    assert |m - {k}| == |(m - {k}).Keys|;
  }

  lemma InsertionGrows(m: map<ModelId, nat>, k: ModelId, o: nat)
    requires k !in m
    ensures |m[k := o]| == |m| + 1
  {
    assert m[k := o].Keys == m.Keys + {k};
    assert |m[k := o]| == |m[k := o].Keys|;
  }

  lemma EnsureSmaller(cfg: Config, w: World, a: Act, v: World)
    requires Shape(w) && a.t < |w.threads| == |v.threads| && EnsureStep(cfg, w, a.t, a.c) == Some(v)
    ensures SmallerAt(w, a, v)
  {
    assert PcShape(w, a.t);
    var pc := w.threads[a.t];
    if pc.EnsInsert? && pc.m !in w.table {
      InsertionGrows(w.table, pc.m, |w.objs|);
    }
  }

  /** What a step of an evicting call does to the map: nothing, or one removal. */
  lemma EvictTable(cfg: Config, w: World, a: Act, v: World)
    requires Shape(w) && a.t < |w.threads| == |v.threads| && EvictStep(cfg, w, a.t, a.c) == Some(v)
    ensures var pc := w.threads[a.t];
            if pc.EvReadGen? && v.threads[a.t].EvDeadline?
            then pc.best.Some? && pc.best.value < |w.objs| && w.objs[pc.best.value].id in w.table
                 && v.table == w.table - {w.objs[pc.best.value].id}
            else v.table == w.table
  {
    assert PcShape(w, a.t);
  }

  lemma EvictStages(cfg: Config, w: World, a: Act, v: World)
    requires Shape(w) && a.t < |w.threads| == |v.threads| && EvictStep(cfg, w, a.t, a.c) == Some(v)
    ensures var pc, pd := w.threads[a.t], v.threads[a.t];
            && Value(Unplaced, pd) <= Value(Unplaced, pc)
            && (!(pc.EvReadGen? && pd.EvDeadline?) && !(Scanning(pc) && Scanning(pd))
                ==> StagesAhead(pd) < StagesAhead(pc))
  {
    assert PcShape(w, a.t);
  }

  lemma ScanShortens(cfg: Config, w: World, a: Act, v: World)
    requires Shape(w) && a.t < |w.threads| == |v.threads| && EvictStep(cfg, w, a.t, a.c) == Some(v)
    requires Scanning(w.threads[a.t]) && Scanning(v.threads[a.t])
    ensures Value(ScanLeft, v.threads[a.t]) < Value(ScanLeft, w.threads[a.t])
  {
    ScannerStep(cfg, w, a, v);
  }

  lemma EvictSmaller(cfg: Config, w: World, a: Act, v: World)
    requires Shape(w) && a.t < |w.threads| == |v.threads| && EvictStep(cfg, w, a.t, a.c) == Some(v)
    ensures SmallerAt(w, a, v)
  {
    hide EvictStep;
    EvictTable(cfg, w, a, v);
    var pc := w.threads[a.t];
    if pc.EvReadGen? && v.threads[a.t].EvDeadline? {
      RemovalShrinks(w.table, w.objs[pc.best.value].id);
    }
    EvictStages(cfg, w, a, v);
    if Scanning(w.threads[a.t]) && Scanning(v.threads[a.t]) {
      ScanShortens(cfg, w, a, v);
    }
  }

  lemma RequestSmaller(cfg: Config, w: World, a: Act, v: World)
    requires Shape(w) && a.t < |w.threads| == |v.threads| && RequestStep(cfg, w, a.t, a.c) == Some(v)
    ensures SmallerAt(w, a, v)
  {
    hide RequestStep;
    RequestKeepsTable(cfg, w, a, v);
    RequestStepShortens(cfg, w, a, v);
    RequestKeepsKind(cfg, w, a.t, a.c, v);
  }

  lemma RequestKeepsTable(cfg: Config, w: World, a: Act, v: World)
    requires Shape(w) && a.t < |w.threads| && RequestStep(cfg, w, a.t, a.c) == Some(v)
    ensures v.table == w.table && KindOf(w.threads[a.t]) == Some(Request)
  {
    assert PcShape(w, a.t);
  }

  lemma UnloadTable(w: World, a: Act, v: World)
    requires Shape(w) && a.t < |w.threads| && UnloadStep(w, a.t, a.c) == Some(v)
    ensures v.table == if w.threads[a.t].UnlRemove? then w.table - {w.threads[a.t].m} else w.table
  {
    assert PcShape(w, a.t);
  }

  lemma UnloadStages(w: World, a: Act, v: World)
    requires Shape(w) && a.t < |w.threads| == |v.threads| && UnloadStep(w, a.t, a.c) == Some(v)
    requires !RePolls(w, a, v)
    ensures StagesAhead(v.threads[a.t]) < StagesAhead(w.threads[a.t])
    ensures Value(Unplaced, v.threads[a.t]) == Value(Unplaced, w.threads[a.t])
  {
    assert PcShape(w, a.t);
  }

  lemma UnloadSmaller(w: World, a: Act, v: World)
    requires Shape(w) && a.t < |w.threads| == |v.threads| && UnloadStep(w, a.t, a.c) == Some(v)
    requires !RePolls(w, a, v)
    ensures SmallerAt(w, a, v)
  {
    UnloadTable(w, a, v);
    UnloadStages(w, a, v);
    if w.threads[a.t].UnlRemove? {
      RemovalShrinks(w.table, w.threads[a.t].m);
    }
  }

  lemma EnsureModelSmaller(w: World, a: Act, v: World)
    requires Shape(w) && a.t < |w.threads| == |v.threads| && EnsureModelStep(w, a.t, a.c) == Some(v)
    ensures SmallerAt(w, a, v)
  {
  }

  /** Every step but a re-poll is progress in a well-founded order. */
  lemma StepIsProgress(cfg: Config, w: World, a: Act, v: World)
    requires Shape(w) && a.t < |w.threads| && Next(cfg, w, a.t, a.c) == Some(v) && !RePolls(w, a, v)
    ensures Smaller(w, v)
  {
    StepTotals(cfg, w, a.t, a.c, v);
    if EnsureStep(cfg, w, a.t, a.c).Some? {
      EnsureSmaller(cfg, w, a, v);
    } else if EvictStep(cfg, w, a.t, a.c).Some? {
      EvictSmaller(cfg, w, a, v);
    } else if UnloadStep(w, a.t, a.c).Some? {
      UnloadSmaller(w, a, v);
    } else if EnsureModelStep(w, a.t, a.c).Some? {
      EnsureModelSmaller(w, a, v);
    } else {
      RequestSmaller(cfg, w, a, v);
    }
  }

  lemma {:induction false} MeasuresNonNegative(ts: seq<Pc>)
    ensures Total(Unplaced, ts) >= 0 && Total(StagesLeft, ts) >= 0 && Total(ScanLeft, ts) >= 0
  {
    if ts != [] {
      MeasuresNonNegative(ts[..|ts| - 1]);
    }
  }

  /** Step `n` of an infinite behaviour. */
  predicate Goes(cfg: Config, ws: nat -> World, acts: nat -> Act, n: nat) {
    && Shape(ws(n)) && acts(n).t < |ws(n).threads|
    && Next(cfg, ws(n), acts(n).t, acts(n).c) == Some(ws(n + 1))
  }

  /** From any point on, an infinite behaviour re-polls again. */
  lemma {:induction false} EndlessMeansPolling(cfg: Config, ws: nat -> World, acts: nat -> Act, n: nat)
    requires forall i: nat :: Goes(cfg, ws, acts, i)
    ensures exists x: nat :: x >= n && RePolls(ws(x), acts(x), ws(x + 1))
    decreases Evictable(ws(n)), Total(StagesLeft, ws(n).threads), Total(ScanLeft, ws(n).threads)
  {
    hide Next;
    MeasuresNonNegative(ws(n).threads);
    if !RePolls(ws(n), acts(n), ws(n + 1)) {
      assert Goes(cfg, ws, acts, n);
      StepIsProgress(cfg, ws(n), acts(n), ws(n + 1));
      MeasuresNonNegative(ws(n + 1).threads);
      EndlessMeansPolling(cfg, ws, acts, n + 1);
    }
  }
}
