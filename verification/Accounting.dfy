/** What `usedEstMB` means while loads, evictions, cancellations and unloads interleave. */
module Accounting {
  import opened Types
  import opened Interleaving

  /** Quantities each call contributes, read off the point where it stands. */
  datatype Metric =
    | Pending        // loads inserted by this call and not yet committed
    | Reserved       // loads past their fit check and not yet committed
    | InFlight       // 1 for a call holding such a load
    | Abandoned      // loads whose call was cancelled: in the map, never added to the counter
    | Drift          // re-estimates of an instance already in the map, never added to the counter
    | Clamped        // what Unload's clamp at zero put back
    | QueueSlots(o: nat)
    | GenSlots(o: nat)
    | StepsLeft      // steps a request still has to take
    | Unplaced       // 1 for a load that has not reached the map yet
    | StagesLeft     // stages a call still has to pass, not counting rounds of eviction
    | ScanLeft       // channel reads left in a scan

  function RequestStepsLeft(pc: Pc): nat {
    match pc
    case ReqLookup(_) => 7
    case ReqFetched(_) => 6
    case ReqPassed(_) => 5
    case ReqQueued(_) => 4
    case ReqGen(_) => 3
    case ReqRun(_) => 2
    case ReqRelease(_) => 1
    case ReqRollback(_, _) => 1
    case _ => 0
  }

  function StagesAhead(pc: Pc): nat {
    match pc
    case EnsLookup(_) => 6
    case EnsTouch(_) => 5
    case EnsResolve(_) => 4
    case EvDeadline(_, _) => 4
    case EvCheck(_, _) => 3
    case EvReadGen(_, _, _, _) => 2
    case EvReadQueue(_, _, _, _, _) => 2
    case EnsInsert(_, _) => 2
    case EnsWarm(_, _, _, _, _) => 1
    case UnlMark(_) => 4
    case UnlReadQueue(_, _) => 3
    case UnlReadGen(_, _, _) => 2
    case UnlRemove(_, _, _) => 1
    case ModLookup(_) => 3
    case ModStart(_) => 2
    case ModWarm(_) => 1
    case _ => RequestStepsLeft(pc)
  }

  function Value(k: Metric, pc: Pc): int {
    match k
    case Pending => if pc.EnsWarm? && pc.added then pc.req else 0
    case Reserved => if pc.EnsInsert? || (pc.EnsWarm? && pc.added) then pc.req else 0
    case InFlight => if pc.EnsInsert? || (pc.EnsWarm? && pc.added) then 1 else 0
    case Abandoned => if pc.Done? then pc.abandoned else 0
    case Drift => if pc.EnsWarm? || pc.Done? then pc.drift else 0
    case Clamped => if pc.Done? then pc.clamped else 0
    case QueueSlots(o) =>
      if (pc.ReqQueued? || pc.ReqRollback? || pc.ReqGen? || pc.ReqRun? || pc.ReqRelease?) && pc.o == o then 1 else 0
    case GenSlots(o) => if (pc.ReqGen? || pc.ReqRun?) && pc.o == o then 1 else 0
    case StepsLeft => RequestStepsLeft(pc)
    case Unplaced => if KindOf(pc) == Some(Load) && !pc.EnsWarm? then 1 else 0
    case StagesLeft => StagesAhead(pc)
    case ScanLeft =>
      if pc.EvReadGen? then 2 * |pc.todo| else if pc.EvReadQueue? then 2 * |pc.todo| + 1 else 0
  }

  function Total(k: Metric, ts: seq<Pc>): int {
    if ts == [] then 0 else Total(k, ts[..|ts| - 1]) + Value(k, ts[|ts| - 1])
  }

  lemma {:induction false} TotalUpdate(k: Metric, ts: seq<Pc>, t: nat, pc: Pc)
    requires t < |ts|
    ensures Total(k, ts[t := pc]) == Total(k, ts) - Value(k, ts[t]) + Value(k, pc)
  {
    var n := |ts| - 1;
    if t < n {
      TotalUpdate(k, ts[..n], t, pc);
      assert ts[t := pc][..n] == ts[..n][t := pc];
    } else {
      assert ts[t := pc][..n] == ts[..n];
    }
  }

  lemma {:induction false} TotalZero(k: Metric, ts: seq<Pc>)
    requires forall t :: 0 <= t < |ts| ==> Value(k, ts[t]) == 0
    ensures Total(k, ts) == 0
  {
    if ts != [] {
      TotalZero(k, ts[..|ts| - 1]);
    }
  }

  lemma {:induction false} TotalLe(j: Metric, k: Metric, b: nat, ts: seq<Pc>)
    requires forall t :: 0 <= t < |ts| ==> Value(j, ts[t]) <= b * Value(k, ts[t])
    ensures Total(j, ts) <= b * Total(k, ts)
  {
    hide Value;
    if ts != [] {
      var n := |ts| - 1;
      TotalLe(j, k, b, ts[..n]);
      var x, y := Total(k, ts[..n]), Value(k, ts[n]);
      assert b * (x + y) == b * x + b * y;
      assert Value(j, ts[n]) <= b * y;
      assert Total(j, ts) == Total(j, ts[..n]) + Value(j, ts[n]);
      assert Total(k, ts) == x + y;
    }
  }

  /** How one step moves every total. */
  lemma StepTotals(cfg: Config, w: World, t: nat, c: Choice, v: World)
    requires Shape(w) && t < |w.threads| && Next(cfg, w, t, c) == Some(v)
    ensures |v.threads| == |w.threads|
    ensures forall k :: Total(k, v.threads) == Total(k, w.threads) - Value(k, w.threads[t]) + Value(k, v.threads[t])
  {
    NextKeepsShape(cfg, w, t, c);
    assert v.threads == w.threads[t := v.threads[t]];
    forall k
      ensures Total(k, v.threads) == Total(k, w.threads) - Value(k, w.threads[t]) + Value(k, v.threads[t])
    {
      TotalUpdate(k, w.threads, t, v.threads[t]);
    }
  }

  // ---- the estimate of everything in the map ----

  function Share(w: World, o: nat): nat {
    if InTable(w, o) then w.objs[o].est else 0
  }

  function EstUpto(w: World, n: nat): nat {
    if n == 0 then 0 else EstUpto(w, n - 1) + Share(w, n - 1)
  }

  /** The sum of `EstVRAMMB` over the instances in the map. */
  function TableEst(w: World): nat { EstUpto(w, |w.objs|) }

  lemma {:induction false} EstFrame(w: World, v: World, n: nat)
    requires forall o :: 0 <= o < n ==> Share(v, o) == Share(w, o)
    ensures EstUpto(v, n) == EstUpto(w, n)
  {
    if n > 0 {
      EstFrame(w, v, n - 1);
    }
  }

  lemma {:induction false} EstChange(w: World, v: World, n: nat, j: nat)
    requires j < n
    requires forall o :: 0 <= o < n && o != j ==> Share(v, o) == Share(w, o)
    ensures EstUpto(v, n) == EstUpto(w, n) - Share(w, j) + Share(v, j)
  {
    if j == n - 1 {
      EstFrame(w, v, n - 1);
    } else {
      EstChange(w, v, n - 1, j);
    }
  }

  lemma {:induction false} ShareBelowTotal(w: World, n: nat, j: nat)
    requires j < n
    ensures Share(w, j) <= EstUpto(w, n)
  {
    if j < n - 1 {
      ShareBelowTotal(w, n - 1, j);
    }
  }

  // ---- conservation ----

  /** Counter plus everything in the map it does not know about, minus what the clamp invented. */
  function Explained(w: World): int {
    w.used + Total(Pending, w.threads) + Total(Abandoned, w.threads) + Total(Drift, w.threads)
    - Total(Clamped, w.threads)
  }

  lemma InsertConserves(cfg: Config, w: World, t: nat, c: Choice, v: World)
    requires Shape(w) && t < |w.threads| && EnsureStep(cfg, w, t, c) == Some(v) && w.threads[t].EnsInsert?
    ensures t < |v.threads| && v.used == w.used
    ensures var pc, pd := w.threads[t], v.threads[t];
            && pd.EnsWarm? && pd.req == pc.req
            && TableEst(v) == TableEst(w) + (if pd.added then pd.req else pd.drift)
            && (pd.added ==> pd.drift == 0)
  {
    assert PcShape(w, t);
    var pc := w.threads[t];
    if pc.m in w.table {
      EstChange(w, v, |w.objs|, w.table[pc.m]);
    } else {
      EstFrame(w, v, |w.objs|);
    }
  }

  lemma EnsureConserves(cfg: Config, w: World, t: nat, c: Choice, v: World)
    requires Shape(w) && t < |w.threads| && EnsureStep(cfg, w, t, c) == Some(v) && Next(cfg, w, t, c) == Some(v)
    ensures Explained(v) - TableEst(v) == Explained(w) - TableEst(w)
  {
    hide Next, Total, EstUpto;
    StepTotals(cfg, w, t, c, v);
    if w.threads[t].EnsInsert? {
      hide EnsureStep;
      InsertConserves(cfg, w, t, c, v);
    } else {
      assert PcShape(w, t);
      EstFrame(w, v, |w.objs|);
    }
  }

  lemma EvictConserves(cfg: Config, w: World, t: nat, c: Choice, v: World)
    requires Shape(w) && t < |w.threads| && EvictStep(cfg, w, t, c) == Some(v) && Next(cfg, w, t, c) == Some(v)
    ensures Explained(v) - TableEst(v) == Explained(w) - TableEst(w)
  {
    hide Next, Total, EstUpto;
    StepTotals(cfg, w, t, c, v);
    assert PcShape(w, t);
    if v.threads[t].EvDeadline? {
      EstChange(w, v, |w.objs|, w.threads[t].best.value);
    } else {
      EstFrame(w, v, |w.objs|);
    }
  }

  lemma RequestConserves(cfg: Config, w: World, t: nat, c: Choice, v: World)
    requires Shape(w) && t < |w.threads| && RequestStep(cfg, w, t, c) == Some(v) && Next(cfg, w, t, c) == Some(v)
    ensures Explained(v) - TableEst(v) == Explained(w) - TableEst(w)
  {
    hide Next, RequestStep, Total, Value, EstUpto;
    StepTotals(cfg, w, t, c, v);
    RequestKeepsBooks(cfg, w, t, c, v);
    EstFrame(w, v, |w.objs|);
  }

  /** A request leaves map, counter and estimates alone, and reports nothing to the accounting. */
  lemma RequestKeepsBooks(cfg: Config, w: World, t: nat, c: Choice, v: World)
    requires Shape(w) && t < |w.threads| && RequestStep(cfg, w, t, c) == Some(v) && t < |v.threads|
    ensures v.table == w.table && v.used == w.used && |v.objs| == |w.objs|
    ensures forall o :: 0 <= o < |w.objs| ==> v.objs[o].id == w.objs[o].id && v.objs[o].est == w.objs[o].est
    ensures forall k :: k in {Pending, Abandoned, Drift, Clamped} ==> Value(k, v.threads[t]) == Value(k, w.threads[t]) == 0
  {
    assert PcShape(w, t);
  }

  lemma UnloadConserves(cfg: Config, w: World, t: nat, c: Choice, v: World)
    requires Shape(w) && t < |w.threads| && UnloadStep(w, t, c) == Some(v) && Next(cfg, w, t, c) == Some(v)
    ensures Explained(v) - TableEst(v) == Explained(w) - TableEst(w)
  {
    hide Next, Total, EstUpto;
    StepTotals(cfg, w, t, c, v);
    assert PcShape(w, t);
    var pc := w.threads[t];
    if pc.UnlRemove? && pc.m in w.table {
      EstChange(w, v, |w.objs|, w.table[pc.m]);
    } else {
      EstFrame(w, v, |w.objs|);
    }
  }

  lemma EnsureModelConserves(cfg: Config, w: World, t: nat, c: Choice, v: World)
    requires Shape(w) && t < |w.threads| && EnsureModelStep(w, t, c) == Some(v) && Next(cfg, w, t, c) == Some(v)
    ensures Explained(v) - TableEst(v) == Explained(w) - TableEst(w)
  {
    StepTotals(cfg, w, t, c, v);
    EstFrame(w, v, |w.objs|);
  }

  lemma StepConserves(cfg: Config, w: World, t: nat, c: Choice, v: World)
    requires Shape(w) && t < |w.threads| && Next(cfg, w, t, c) == Some(v)
    ensures Explained(v) - TableEst(v) == Explained(w) - TableEst(w)
  {
    if EnsureStep(cfg, w, t, c).Some? {
      EnsureConserves(cfg, w, t, c, v);
    } else if EvictStep(cfg, w, t, c).Some? {
      EvictConserves(cfg, w, t, c, v);
    } else if UnloadStep(w, t, c).Some? {
      UnloadConserves(cfg, w, t, c, v);
    } else if EnsureModelStep(w, t, c).Some? {
      EnsureModelConserves(cfg, w, t, c, v);
    } else {
      RequestConserves(cfg, w, t, c, v);
    }
  }

  /** In every reachable state the counter, plus the loads it has not been told about, is the estimate
      of what is in the map plus what the clamp put back. */
  lemma {:induction false} Conservation(cfg: Config, ws: seq<World>, acts: seq<Act>, i: nat)
    requires IsRun(cfg, ws, acts) && i < |ws|
    ensures ws[i].used + Total(Pending, ws[i].threads) + Total(Abandoned, ws[i].threads) + Total(Drift, ws[i].threads)
         == TableEst(ws[i]) + Total(Clamped, ws[i].threads)
  {
    if i == 0 {
      forall k
        ensures Total(k, ws[0].threads) == 0 || k.StepsLeft? || k.Unplaced? || k.StagesLeft?
      {
        if !k.StepsLeft? && !k.Unplaced? && !k.StagesLeft? {
          TotalZero(k, ws[0].threads);
        }
      }
    } else {
      Conservation(cfg, ws, acts, i - 1);
      assert StepAt(cfg, ws, acts, i - 1);
      StepConserves(cfg, ws[i - 1], acts[i - 1].t, acts[i - 1].c, ws[i]);
    }
  }

  // ---- when the counter is exact ----

  /** The step reads a file size only as `sizes` has it. */
  predicate SteadyAct(sizes: map<ModelId, nat>, w: World, a: Act)
    requires a.t < |w.threads|
  {
    var pc := w.threads[a.t];
    pc.EnsResolve? && a.c.Size? ==> pc.m in sizes && a.c.mb == sizes[pc.m]
  }

  /** File sizes do not change. Loads may be cancelled. */

  predicate SteadyUpto(cfg: Config, sizes: map<ModelId, nat>, ws: seq<World>, acts: seq<Act>, n: nat)
    requires n <= |acts| < |ws|
  {
    forall j :: 0 <= j < n ==> StepAt(cfg, ws, acts, j) && SteadyAct(sizes, ws[j], acts[j])
  }

  predicate SteadyPc(sizes: map<ModelId, nat>, pc: Pc) {
    && ((pc.EvCheck? || pc.EvReadGen? || pc.EvReadQueue? || pc.EvDeadline? || pc.EnsInsert? || pc.EnsWarm?)
        ==> pc.m in sizes && pc.req == sizes[pc.m] >= 1)
    && Value(Drift, pc) == 0
  }

  predicate SteadyWorld(sizes: map<ModelId, nat>, w: World) {
    && (forall t :: 0 <= t < |w.threads| ==> SteadyPc(sizes, w.threads[t]))
    && (forall o :: 0 <= o < |w.objs| ==> w.objs[o].id in sizes && w.objs[o].est == sizes[w.objs[o].id])
  }

  lemma EnsureSteady(cfg: Config, sizes: map<ModelId, nat>, w: World, a: Act, v: World)
    requires Shape(w) && a.t < |w.threads| && EnsureStep(cfg, w, a.t, a.c) == Some(v)
    requires SteadyWorld(sizes, w) && SteadyAct(sizes, w, a)
    ensures |v.threads| == |w.threads| && SteadyPc(sizes, v.threads[a.t])
    ensures forall o :: 0 <= o < |v.objs| ==> v.objs[o].id in sizes && v.objs[o].est == sizes[v.objs[o].id]
  {
    assert PcShape(w, a.t);
    assert SteadyPc(sizes, w.threads[a.t]);
  }

  lemma EvictSteady(cfg: Config, sizes: map<ModelId, nat>, w: World, a: Act, v: World)
    requires Shape(w) && a.t < |w.threads| && EvictStep(cfg, w, a.t, a.c) == Some(v)
    requires SteadyWorld(sizes, w) && SteadyAct(sizes, w, a)
    ensures |v.threads| == |w.threads| && SteadyPc(sizes, v.threads[a.t])
    ensures forall o :: 0 <= o < |v.objs| ==> v.objs[o].id in sizes && v.objs[o].est == sizes[v.objs[o].id]
  {
    assert PcShape(w, a.t);
    assert SteadyPc(sizes, w.threads[a.t]);
  }

  lemma RequestSteady(cfg: Config, sizes: map<ModelId, nat>, w: World, a: Act, v: World)
    requires Shape(w) && a.t < |w.threads| && RequestStep(cfg, w, a.t, a.c) == Some(v)
    requires SteadyWorld(sizes, w) && SteadyAct(sizes, w, a)
    ensures |v.threads| == |w.threads| && SteadyPc(sizes, v.threads[a.t])
    ensures forall o :: 0 <= o < |v.objs| ==> v.objs[o].id in sizes && v.objs[o].est == sizes[v.objs[o].id]
  {
    assert PcShape(w, a.t);
    assert SteadyPc(sizes, w.threads[a.t]);
  }

  lemma UnloadSteady(sizes: map<ModelId, nat>, w: World, a: Act, v: World)
    requires Shape(w) && a.t < |w.threads| && UnloadStep(w, a.t, a.c) == Some(v)
    requires SteadyWorld(sizes, w) && SteadyAct(sizes, w, a)
    ensures |v.threads| == |w.threads| && SteadyPc(sizes, v.threads[a.t])
    ensures forall o :: 0 <= o < |v.objs| ==> v.objs[o].id in sizes && v.objs[o].est == sizes[v.objs[o].id]
  {
    assert PcShape(w, a.t);
    assert SteadyPc(sizes, w.threads[a.t]);
  }

  lemma EnsureModelSteady(sizes: map<ModelId, nat>, w: World, a: Act, v: World)
    requires Shape(w) && a.t < |w.threads| && EnsureModelStep(w, a.t, a.c) == Some(v)
    requires SteadyWorld(sizes, w) && SteadyAct(sizes, w, a)
    ensures |v.threads| == |w.threads| && SteadyPc(sizes, v.threads[a.t])
    ensures forall o :: 0 <= o < |v.objs| ==> v.objs[o].id in sizes && v.objs[o].est == sizes[v.objs[o].id]
  {
    assert PcShape(w, a.t);
    assert SteadyPc(sizes, w.threads[a.t]);
  }

  lemma SteadyStep(cfg: Config, sizes: map<ModelId, nat>, w: World, a: Act, v: World)
    requires Shape(w) && a.t < |w.threads| && Next(cfg, w, a.t, a.c) == Some(v)
    requires SteadyWorld(sizes, w) && SteadyAct(sizes, w, a)
    ensures SteadyWorld(sizes, v)
  {
    if EnsureStep(cfg, w, a.t, a.c).Some? {
      EnsureSteady(cfg, sizes, w, a, v);
    } else if EvictStep(cfg, w, a.t, a.c).Some? {
      EvictSteady(cfg, sizes, w, a, v);
    } else if UnloadStep(w, a.t, a.c).Some? {
      UnloadSteady(sizes, w, a, v);
    } else if EnsureModelStep(w, a.t, a.c).Some? {
      EnsureModelSteady(sizes, w, a, v);
    } else {
      RequestSteady(cfg, sizes, w, a, v);
    }
    NextKeepsShape(cfg, w, a.t, a.c);
    forall t | 0 <= t < |v.threads|
      ensures SteadyPc(sizes, v.threads[t])
    {
      assert t != a.t ==> SteadyPc(sizes, w.threads[t]);
    }
  }

  lemma {:induction false} SteadyRun(cfg: Config, sizes: map<ModelId, nat>, ws: seq<World>, acts: seq<Act>, i: nat)
    requires IsRun(cfg, ws, acts) && i < |ws| && SteadyUpto(cfg, sizes, ws, acts, i)
    ensures SteadyWorld(sizes, ws[i])
  {
    if i > 0 {
      SteadyRun(cfg, sizes, ws, acts, i - 1);
      assert StepAt(cfg, ws, acts, i - 1);
      SteadyStep(cfg, sizes, ws[i - 1], acts[i - 1], ws[i]);
    }
  }

  /** With fixed sizes, the counter is the map's sum less the pending loads if and only if what cancelled
      loads left uncounted is what the clamp put back. */
  lemma SteadyCounter(cfg: Config, sizes: map<ModelId, nat>, ws: seq<World>, acts: seq<Act>, i: nat)
    requires IsRun(cfg, ws, acts) && i < |ws| && SteadyUpto(cfg, sizes, ws, acts, i)
    ensures var w := ws[i];
            && w.used + Total(Pending, w.threads) + Total(Abandoned, w.threads) == TableEst(w) + Total(Clamped, w.threads)
            && (Exact(w) <==> Total(Abandoned, w.threads) == Total(Clamped, w.threads))
  {
    var w := ws[i];
    Conservation(cfg, ws, acts, i);
    SteadyRun(cfg, sizes, ws, acts, i);
    forall t | 0 <= t < |w.threads|
      ensures Value(Drift, w.threads[t]) == 0
    {
      assert SteadyPc(sizes, w.threads[t]);
    }
    TotalZero(Drift, w.threads);
  }

  /** The counter is right: the estimates in the map, less those of the loads still pending. */
  predicate Exact(w: World) { w.used + Total(Pending, w.threads) == TableEst(w) }

  // ---- cancelled loads ----

  /** The step gives up a load that has put a new instance in the map. */
  predicate Abandons(w: World, a: Act) {
    a.t < |w.threads| && w.threads[a.t].EnsWarm? && w.threads[a.t].added && a.c.Cancel?
  }

  predicate NoLoadAbandoned(ws: seq<World>, acts: seq<Act>, n: nat)
    requires n <= |acts| < |ws|
  {
    forall j :: 0 <= j < n ==> !Abandons(ws[j], acts[j])
  }

  lemma AbandonedAt(cfg: Config, w: World, a: Act, v: World)
    requires Shape(w) && a.t < |w.threads| && Next(cfg, w, a.t, a.c) == Some(v) && a.t < |v.threads|
    ensures Value(Abandoned, w.threads[a.t]) == 0
    ensures Value(Abandoned, v.threads[a.t]) == if Abandons(w, a) then w.threads[a.t].req else 0
  {
    hide Next;
    NextKeepsShape(cfg, w, a.t, a.c);
    if w.threads[a.t].EnsWarm? {
      AbandonedInWarmup(cfg, w, a, v);
    }
  }

  lemma AbandonedInWarmup(cfg: Config, w: World, a: Act, v: World)
    requires Shape(w) && a.t < |w.threads| && Next(cfg, w, a.t, a.c) == Some(v) && a.t < |v.threads|
    requires w.threads[a.t].EnsWarm?
    ensures Value(Abandoned, v.threads[a.t]) == if Abandons(w, a) then w.threads[a.t].req else 0
  {
  }

  /** One step leaves estimates uncounted exactly when it abandons a load. */
  lemma StepAbandons(cfg: Config, sizes: map<ModelId, nat>, w: World, a: Act, v: World)
    requires Shape(w) && a.t < |w.threads| && Next(cfg, w, a.t, a.c) == Some(v) && SteadyWorld(sizes, w)
    ensures Total(Abandoned, v.threads) >= Total(Abandoned, w.threads)
    ensures Total(Abandoned, v.threads) == Total(Abandoned, w.threads) <==> !Abandons(w, a)
  {
    hide Next, Total, Value;
    StepTotals(cfg, w, a.t, a.c, v);
    AbandonedAt(cfg, w, a, v);
    assert SteadyPc(sizes, w.threads[a.t]);
  }

  lemma {:induction false} AbandonedIff(
    cfg: Config, sizes: map<ModelId, nat>, ws: seq<World>, acts: seq<Act>, i: nat)
    requires IsRun(cfg, ws, acts) && i < |ws| && SteadyUpto(cfg, sizes, ws, acts, i)
    ensures Total(Abandoned, ws[i].threads) >= 0
    ensures Total(Abandoned, ws[i].threads) == 0 <==> NoLoadAbandoned(ws, acts, i)
  {
    hide Next, Total, SteadyWorld, Abandons;
    if i == 0 {
      TotalZero(Abandoned, ws[0].threads);
    } else {
      AbandonedIff(cfg, sizes, ws, acts, i - 1);
      SteadyRun(cfg, sizes, ws, acts, i - 1);
      assert StepAt(cfg, ws, acts, i - 1);
      StepAbandons(cfg, sizes, ws[i - 1], acts[i - 1], ws[i]);
      assert NoLoadAbandoned(ws, acts, i) <==> NoLoadAbandoned(ws, acts, i - 1) && !Abandons(ws[i - 1], acts[i - 1]);
    }
  }

  // ---- the clamp ----

  /** No Unload takes an instance out of the map while a load is pending. */
  predicate RemovalsFindNoLoad(ws: seq<World>, acts: seq<Act>, n: nat)
    requires n <= |acts| < |ws|
  {
    forall j :: 0 <= j < n && acts[j].t < |ws[j].threads| && ws[j].threads[acts[j].t].UnlRemove?
                ==> Total(Pending, ws[j].threads) == 0
  }

  /** The clamp only ever fires while some load sits in the map uncounted: if no Unload removed its
      instance while a load was pending and no load was cancelled, nothing was ever clamped and the counter
      is exact. */
  lemma {:induction false} NoClampWithoutPending(
    cfg: Config, sizes: map<ModelId, nat>, ws: seq<World>, acts: seq<Act>, i: nat)
    requires IsRun(cfg, ws, acts) && i < |ws| && SteadyUpto(cfg, sizes, ws, acts, i)
    requires RemovalsFindNoLoad(ws, acts, i) && NoLoadAbandoned(ws, acts, i)
    ensures Total(Clamped, ws[i].threads) == 0
    ensures ws[i].used + Total(Pending, ws[i].threads) == TableEst(ws[i])
  {
    if i == 0 {
      TotalZero(Clamped, ws[0].threads);
    } else {
      NoClampWithoutPending(cfg, sizes, ws, acts, i - 1);
      var w, a := ws[i - 1], acts[i - 1];
      assert StepAt(cfg, ws, acts, i - 1);
      RemovalClampsNothing(cfg, w, a, ws[i]);
    }
    SteadyCounter(cfg, sizes, ws, acts, i);
    AbandonedIff(cfg, sizes, ws, acts, i);
  }

  /** Every Unload that takes an instance out of the map finds the uncounted loads, pending and abandoned,
      covered by the rest of the map. */
  predicate RemovalsCovered(ws: seq<World>, acts: seq<Act>, n: nat)
    requires n <= |acts| < |ws|
  {
    forall j :: 0 <= j < n && acts[j].t < |ws[j].threads| ==> RemovalCovered(ws[j], ws[j].threads[acts[j].t])
  }

  predicate RemovalCovered(w: World, pc: Pc) {
    pc.UnlRemove? && pc.m in w.table && w.table[pc.m] < |w.objs|
    ==> Total(Pending, w.threads) + Total(Abandoned, w.threads) <= TableEst(w) - w.objs[w.table[pc.m]].est
  }

  lemma {:induction false} ClampedNonNegative(ts: seq<Pc>)
    ensures Total(Clamped, ts) >= 0
  {
    if ts != [] {
      ClampedNonNegative(ts[..|ts| - 1]);
    }
  }

  /** One step clamps exactly when it removes an instance estimated above the counter. */
  lemma StepClamps(cfg: Config, w: World, a: Act, v: World)
    requires Shape(w) && a.t < |w.threads| && Next(cfg, w, a.t, a.c) == Some(v)
    ensures var pc := w.threads[a.t];
            && Total(Clamped, v.threads) >= Total(Clamped, w.threads)
            && (Total(Clamped, v.threads) == Total(Clamped, w.threads) <==>
                pc.UnlRemove? && pc.m in w.table ==> w.used >= w.objs[w.table[pc.m]].est)
  {
    hide Next, Total, EstUpto;
    StepTotals(cfg, w, a.t, a.c, v);
    if w.threads[a.t].UnlRemove? {
      RemovalClamp(cfg, w, a, v);
    } else {
      OnlyRemovalClamps(cfg, w, a, v);
    }
  }

  lemma {:induction false} ClampedIff(cfg: Config, sizes: map<ModelId, nat>, ws: seq<World>, acts: seq<Act>, i: nat)
    requires IsRun(cfg, ws, acts) && i < |ws| && SteadyUpto(cfg, sizes, ws, acts, i)
    ensures Total(Clamped, ws[i].threads) == 0 <==> RemovalsCovered(ws, acts, i)
  {
    hide Next, Total, EstUpto;
    if i == 0 {
      TotalZero(Clamped, ws[0].threads);
    } else {
      var w, a, v := ws[i - 1], acts[i - 1], ws[i];
      ClampedIff(cfg, sizes, ws, acts, i - 1);
      SteadyCounter(cfg, sizes, ws, acts, i - 1);
      assert StepAt(cfg, ws, acts, i - 1);
      StepClamps(cfg, w, a, v);
      ClampedNonNegative(w.threads);
      assert RemovalsCovered(ws, acts, i) <==> RemovalsCovered(ws, acts, i - 1) && RemovalCovered(w, w.threads[a.t]);
    }
  }

  /** Exactly when the counter is right, with fixed sizes. Nothing was left uncounted if and only if no load
      that had inserted its instance was cancelled; nothing was clamped if and only if every removal by
      Unload found the uncounted loads covered by the rest of the map. If either holds, the counter is right
      if and only if the other does too. */
  lemma CounterExactIff(cfg: Config, sizes: map<ModelId, nat>, ws: seq<World>, acts: seq<Act>, i: nat)
    requires IsRun(cfg, ws, acts) && i < |ws| && SteadyUpto(cfg, sizes, ws, acts, i)
    ensures Total(Abandoned, ws[i].threads) == 0 <==> NoLoadAbandoned(ws, acts, i)
    ensures Total(Clamped, ws[i].threads) == 0 <==> RemovalsCovered(ws, acts, i)
    ensures RemovalsCovered(ws, acts, i) ==> (Exact(ws[i]) <==> NoLoadAbandoned(ws, acts, i))
    ensures NoLoadAbandoned(ws, acts, i) ==> (Exact(ws[i]) <==> RemovalsCovered(ws, acts, i))
  {
    hide Next, Total, EstUpto, Exact;
    AbandonedIff(cfg, sizes, ws, acts, i);
    ClampedIff(cfg, sizes, ws, acts, i);
    SteadyCounter(cfg, sizes, ws, acts, i);
  }

  lemma RemovalClampsNothing(cfg: Config, w: World, a: Act, v: World)
    requires Shape(w) && a.t < |w.threads| && Next(cfg, w, a.t, a.c) == Some(v)
    requires w.threads[a.t].UnlRemove? ==> w.used >= TableEst(w)
    ensures Total(Clamped, v.threads) == Total(Clamped, w.threads)
  {
    hide Next, Total, EstUpto;
    StepTotals(cfg, w, a.t, a.c, v);
    var pc := w.threads[a.t];
    if pc.UnlRemove? {
      if pc.m in w.table {
        ShareBelowTotal(w, |w.objs|, w.table[pc.m]);
      }
      RemovalClamp(cfg, w, a, v);
    } else {
      OnlyRemovalClamps(cfg, w, a, v);
    }
  }

  lemma RemovalClamp(cfg: Config, w: World, a: Act, v: World)
    requires Shape(w) && a.t < |w.threads| == |v.threads| && Next(cfg, w, a.t, a.c) == Some(v)
    requires w.threads[a.t].UnlRemove?
    ensures var m := w.threads[a.t].m;
            && Value(Clamped, v.threads[a.t]) >= 0 == Value(Clamped, w.threads[a.t])
            && (Value(Clamped, v.threads[a.t]) > 0 <==> m in w.table && w.used < w.objs[w.table[m]].est)
  {
  }

  lemma OnlyRemovalClamps(cfg: Config, w: World, a: Act, v: World)
    requires Shape(w) && a.t < |w.threads| == |v.threads| && Next(cfg, w, a.t, a.c) == Some(v)
    requires !w.threads[a.t].UnlRemove?
    ensures Value(Clamped, v.threads[a.t]) == Value(Clamped, w.threads[a.t]) == 0
  {
    hide Next;
    NextKeepsShape(cfg, w, a.t, a.c);
  }
}
