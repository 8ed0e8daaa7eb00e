/** The two counting channels of every Instance object, under every interleaving of requests, timeouts,
    cancellations, evictions and unloads. Statements are per object: a request may go on holding the
    slots of an object that has left the map. */
module Slots {
  import opened Types
  import opened Interleaving
  import opened Accounting

  predicate IsRequest(pc: Pc) {
    pc.ReqLookup? || pc.ReqFetched? || pc.ReqPassed? || pc.ReqQueued? || pc.ReqRollback? || pc.ReqGen? || pc.ReqRun?
    || pc.ReqRelease?
  }

  /** `len(queueCh)` and `len(genCh)` of object `o` are the numbers of requests holding those slots. */
  predicate Counted(w: World, o: nat)
    requires o < |w.objs|
  {
    w.objs[o].q == Total(QueueSlots(o), w.threads) && w.objs[o].g == Total(GenSlots(o), w.threads)
  }

  predicate Capped(cfg: Config, x: Instance) { x.g <= 1 && x.q <= cfg.depth }

  predicate SlotsOk(cfg: Config, w: World) {
    forall o :: 0 <= o < |w.objs| ==> Counted(w, o) && Capped(cfg, w.objs[o])
  }

  lemma {:induction false} ValueBelowTotal(k: Metric, ts: seq<Pc>, t: nat)
    requires t < |ts| && (k.QueueSlots? || k.GenSlots? || k == StepsLeft)
    ensures 0 <= Value(k, ts[t]) <= Total(k, ts)
  {
    TotalNonNegative(k, ts[..|ts| - 1]);
    if t < |ts| - 1 {
      ValueBelowTotal(k, ts[..|ts| - 1], t);
    }
  }

  lemma {:induction false} TotalNonNegative(k: Metric, ts: seq<Pc>)
    requires k.QueueSlots? || k.GenSlots? || k == StepsLeft
    ensures Total(k, ts) >= 0
  {
    if ts != [] {
      TotalNonNegative(k, ts[..|ts| - 1]);
    }
  }

  lemma {:induction false} SomeHolder(k: Metric, ts: seq<Pc>) returns (t: nat)
    requires Total(k, ts) > 0
    ensures t < |ts| && Value(k, ts[t]) > 0
  {
    t := |ts| - 1;
    if Value(k, ts[t]) <= 0 {
      t := SomeHolder(k, ts[..t]);
    }
  }

  /** Nobody holds a slot of an object that does not exist yet. */
  lemma NoSlotsBeyond(w: World, o: nat)
    requires Shape(w) && |w.objs| <= o
    ensures Total(QueueSlots(o), w.threads) == 0 && Total(GenSlots(o), w.threads) == 0
  {
    forall t | 0 <= t < |w.threads|
      ensures Value(QueueSlots(o), w.threads[t]) == 0 && Value(GenSlots(o), w.threads[t]) == 0
    {
      assert PcShape(w, t);
    }
    TotalZero(QueueSlots(o), w.threads);
    TotalZero(GenSlots(o), w.threads);
  }

  /** Calls other than requests touch no channel; an object they allocate has empty ones. */
  predicate LeavesSlots(w: World, a: Act, v: World)
    requires a.t < |w.threads|
  {
    && a.t < |v.threads| && !IsRequest(w.threads[a.t]) && !IsRequest(v.threads[a.t])
    && |w.objs| <= |v.objs|
    && (forall o :: 0 <= o < |w.objs| ==> v.objs[o].q == w.objs[o].q && v.objs[o].g == w.objs[o].g)
    && (forall o :: |w.objs| <= o < |v.objs| ==> v.objs[o].q == 0 && v.objs[o].g == 0)
  }

  lemma EnsureLeavesSlots(cfg: Config, w: World, a: Act, v: World)
    requires Shape(w) && a.t < |w.threads| && EnsureStep(cfg, w, a.t, a.c) == Some(v)
    ensures LeavesSlots(w, a, v)
  {
    assert PcShape(w, a.t);
  }

  lemma EvictLeavesSlots(cfg: Config, w: World, a: Act, v: World)
    requires Shape(w) && a.t < |w.threads| && EvictStep(cfg, w, a.t, a.c) == Some(v)
    ensures LeavesSlots(w, a, v)
  {
    assert PcShape(w, a.t);
  }

  lemma UnloadLeavesSlots(w: World, a: Act, v: World)
    requires Shape(w) && a.t < |w.threads| && UnloadStep(w, a.t, a.c) == Some(v)
    ensures LeavesSlots(w, a, v)
  {
    assert PcShape(w, a.t);
  }

  lemma OthersLeaveSlots(cfg: Config, w: World, a: Act, v: World)
    requires Shape(w) && a.t < |w.threads| && Next(cfg, w, a.t, a.c) == Some(v) && !IsRequest(w.threads[a.t])
    ensures LeavesSlots(w, a, v)
  {
    if EnsureStep(cfg, w, a.t, a.c).Some? {
      EnsureLeavesSlots(cfg, w, a, v);
    } else if EvictStep(cfg, w, a.t, a.c).Some? {
      EvictLeavesSlots(cfg, w, a, v);
    } else if UnloadStep(w, a.t, a.c).Some? {
      UnloadLeavesSlots(w, a, v);
    }
  }

  /** A request's step changes the two channels of one object exactly as it changes what it holds. */
  lemma RequestTracksSlots(cfg: Config, w: World, a: Act, v: World, o: nat)
    requires Shape(w) && a.t < |w.threads| && RequestStep(cfg, w, a.t, a.c) == Some(v)
    requires o < |w.objs|
    ensures |v.objs| == |w.objs| && |v.threads| == |w.threads|
    ensures v.objs[o].q - w.objs[o].q
         == Value(QueueSlots(o), v.threads[a.t]) - Value(QueueSlots(o), w.threads[a.t])
    ensures v.objs[o].g - w.objs[o].g == Value(GenSlots(o), v.threads[a.t]) - Value(GenSlots(o), w.threads[a.t])
    ensures Capped(cfg, w.objs[o]) ==> Capped(cfg, v.objs[o])
  {
    assert PcShape(w, a.t);
  }

  lemma StepKeepsSlots(cfg: Config, w: World, a: Act, v: World)
    requires Shape(w) && a.t < |w.threads| && Next(cfg, w, a.t, a.c) == Some(v)
    requires SlotsOk(cfg, w)
    ensures SlotsOk(cfg, v)
  {
    hide Next, RequestStep, Total, Value;
    forall o | 0 <= o < |v.objs|
      ensures Counted(v, o) && Capped(cfg, v.objs[o])
    {
      if IsRequest(w.threads[a.t]) {
        ByRequest(cfg, w, a, v);
        RequestKeepsObjects(cfg, w, a, v);
        RequestTracksSlots(cfg, w, a, v, o);
      } else {
        OthersTrackSlots(cfg, w, a, v, o);
      }
      if o < |w.objs| {
        assert Counted(w, o) && Capped(cfg, w.objs[o]);
      } else {
        NoSlotsBeyond(w, o);
      }
      StepTotals(cfg, w, a.t, a.c, v);
    }
  }

  lemma ByRequest(cfg: Config, w: World, a: Act, v: World)
    requires Shape(w) && a.t < |w.threads| && Next(cfg, w, a.t, a.c) == Some(v) && IsRequest(w.threads[a.t])
    ensures RequestStep(cfg, w, a.t, a.c) == Some(v)
  {
    hide Shape;
  }

  lemma OthersTrackSlots(cfg: Config, w: World, a: Act, v: World, o: nat)
    requires Shape(w) && a.t < |w.threads| && Next(cfg, w, a.t, a.c) == Some(v) && !IsRequest(w.threads[a.t])
    requires o < |v.objs|
    ensures a.t < |v.threads|
    ensures forall k :: k in {QueueSlots(o), GenSlots(o)} ==> Value(k, v.threads[a.t]) == Value(k, w.threads[a.t]) == 0
    ensures v.objs[o].q == (if o < |w.objs| then w.objs[o].q else 0)
    ensures v.objs[o].g == (if o < |w.objs| then w.objs[o].g else 0)
  {
    hide Next;
    OthersLeaveSlots(cfg, w, a, v);
  }

  lemma RequestKeepsObjects(cfg: Config, w: World, a: Act, v: World)
    requires Shape(w) && a.t < |w.threads| && RequestStep(cfg, w, a.t, a.c) == Some(v)
    ensures |v.objs| == |w.objs|
  {
    assert PcShape(w, a.t);
  }

  lemma GenHolderIsQueueHolder(w: World, o: nat)
    ensures Total(GenSlots(o), w.threads) <= Total(QueueSlots(o), w.threads)
  {
    TotalLe(GenSlots(o), QueueSlots(o), 1, w.threads);
  }

  /** Slot protocol safety, for every object, in the map or not, in every reachable state. */
  lemma {:induction false} SlotSafety(cfg: Config, ws: seq<World>, acts: seq<Act>, i: nat)
    requires IsRun(cfg, ws, acts) && i < |ws|
    ensures SlotsOk(cfg, ws[i])
    ensures forall o :: 0 <= o < |ws[i].objs| ==>
              ws[i].objs[o].g <= 1 && ws[i].objs[o].g <= ws[i].objs[o].q <= cfg.depth
  {
    if i > 0 {
      SlotSafety(cfg, ws, acts, i - 1);
      assert StepAt(cfg, ws, acts, i - 1);
      StepKeepsSlots(cfg, ws[i - 1], acts[i - 1], ws[i]);
    }
    forall o | 0 <= o < |ws[i].objs|
      ensures ws[i].objs[o].g <= 1 && ws[i].objs[o].g <= ws[i].objs[o].q <= cfg.depth
    {
      assert Counted(ws[i], o) && Capped(cfg, ws[i].objs[o]);
      GenHolderIsQueueHolder(ws[i], o);
    }
  }

  /** Every receive in the release closure and in the rollback finds a token. */
  lemma ReleaseNeverBlocks(cfg: Config, w: World, t: nat)
    requires Shape(w) && SlotsOk(cfg, w) && t < |w.threads|
    requires w.threads[t].ReqRun? || w.threads[t].ReqRelease? || w.threads[t].ReqRollback?
    ensures Next(cfg, w, t, Go).Some?
  {
    assert PcShape(w, t);
    var o := w.threads[t].o;
    assert Counted(w, o);
    ValueBelowTotal(QueueSlots(o), w.threads, t);
    ValueBelowTotal(GenSlots(o), w.threads, t);
  }

  /** A request can take a queue slot exactly when fewer requests than the queue's depth hold one of that
      object, and the generation slot exactly when no request generates on it. */
  lemma AdmissionIff(cfg: Config, w: World, t: nat)
    requires Shape(w) && SlotsOk(cfg, w) && t < |w.threads|
    ensures w.threads[t].ReqPassed? ==>
              (Next(cfg, w, t, Go).Some? <==> Total(QueueSlots(w.threads[t].o), w.threads) < cfg.depth)
    ensures w.threads[t].ReqQueued? ==>
              (Next(cfg, w, t, Go).Some? <==> Total(GenSlots(w.threads[t].o), w.threads) == 0)
  {
    hide Total;
    assert PcShape(w, t);
    var pc := w.threads[t];
    if pc.ReqPassed? || pc.ReqQueued? {
      assert Counted(w, pc.o);
      hide Counted, SlotsOk;
    }
  }

  // ---- progress ----

  predicate Willing(c: Choice) { c.Go? || c.Size? || c.Scan? }

  predicate CanMove(cfg: Config, w: World, t: nat, c: Choice)
    requires Shape(w)
  {
    t < |w.threads| && Willing(c) && Next(cfg, w, t, c).Some?
  }

  /** A call that is not waiting for a slot can move as soon as nobody scans under the lock. */
  lemma UnblockedMoves(cfg: Config, w: World, t: nat) returns (c: Choice)
    requires Shape(w) && SlotsOk(cfg, w) && w.lock.None? && t < |w.threads|
    requires !w.threads[t].Done? && !w.threads[t].ReqPassed? && !w.threads[t].ReqQueued?
    ensures CanMove(cfg, w, t, c)
  {
    assert PcShape(w, t);
    var pc := w.threads[t];
    c := if pc.EnsResolve? && pc.m in cfg.registry then Size(1) else Go;
    if pc.ReqRun? || pc.ReqRelease? || pc.ReqRollback? {
      ReleaseNeverBlocks(cfg, w, t);
    }
  }

  /** The scanning call can always read on, or finish. */
  lemma ScannerMoves(cfg: Config, w: World, t: nat) returns (c: Choice)
    requires Shape(w) && w.lock == Some(t)
    ensures CanMove(cfg, w, t, c)
  {
    assert PcShape(w, t);
    var pc := w.threads[t];
    if pc.EvReadGen? && pc.todo != {} {
      var k :| k in pc.todo;
      c := Scan(k);
    } else {
      c := Go;
    }
  }

  /** Whoever waits for a slot waits for a request that can itself move. */
  lemma WaiterImpliesMover(cfg: Config, w: World, t: nat) returns (u: nat, c: Choice)
    requires Shape(w) && SlotsOk(cfg, w) && w.lock.None? && cfg.depth >= 1 && t < |w.threads|
    requires w.threads[t].ReqPassed? || w.threads[t].ReqQueued?
    ensures CanMove(cfg, w, u, c) && IsRequest(w.threads[u])
  {
    assert PcShape(w, t);
    var o := w.threads[t].o;
    assert Counted(w, o) && Capped(cfg, w.objs[o]);
    u, c := t, Go;
    if w.threads[t].ReqPassed? && w.objs[o].q >= cfg.depth {
      u := SomeHolder(QueueSlots(o), w.threads);
    }
    if w.threads[u].ReqQueued? && w.objs[o].g >= 1 {
      u := SomeHolder(GenSlots(o), w.threads);
    }
    if !w.threads[u].ReqPassed? && !w.threads[u].ReqQueued? {
      c := UnblockedMoves(cfg, w, u);
    }
  }

  /** No deadlock: while any call is unfinished, some call has a step that is neither a timeout, a
      cancellation nor a deadline. */
  lemma NoDeadlock(cfg: Config, w: World, t: nat) returns (u: nat, c: Choice)
    requires Shape(w) && SlotsOk(cfg, w) && cfg.depth >= 1
    requires t < |w.threads| && !w.threads[t].Done?
    ensures CanMove(cfg, w, u, c)
  {
    if w.lock.Some? {
      u := w.lock.value;
      c := ScannerMoves(cfg, w, u);
    } else if w.threads[t].ReqPassed? || w.threads[t].ReqQueued? {
      u, c := WaiterImpliesMover(cfg, w, t);
    } else {
      u := t;
      c := UnblockedMoves(cfg, w, u);
    }
  }

  /** While the lock is free, an unfinished request means some request can move. */
  lemma RequestProgress(cfg: Config, w: World, t: nat) returns (u: nat, c: Choice)
    requires Shape(w) && SlotsOk(cfg, w) && cfg.depth >= 1 && w.lock.None?
    requires t < |w.threads| && IsRequest(w.threads[t])
    ensures CanMove(cfg, w, u, c) && IsRequest(w.threads[u])
  {
    if w.threads[t].ReqPassed? || w.threads[t].ReqQueued? {
      u, c := WaiterImpliesMover(cfg, w, t);
    } else {
      u := t;
      c := UnblockedMoves(cfg, w, u);
    }
  }

  /** A run that cannot go on has finished every call and left every channel empty. */
  lemma StuckMeansDone(cfg: Config, ws: seq<World>, acts: seq<Act>)
    requires IsRun(cfg, ws, acts)
    requires Shape(ws[|acts|])
    requires forall t, c :: !CanMove(cfg, ws[|acts|], t, c)
    ensures forall t :: 0 <= t < |ws[|acts|].threads| ==> ws[|acts|].threads[t].Done?
    ensures forall o :: 0 <= o < |ws[|acts|].objs| ==> ws[|acts|].objs[o].q == 0 && ws[|acts|].objs[o].g == 0
  {
    var w := ws[|acts|];
    SlotSafety(cfg, ws, acts, |acts|);
    forall t | 0 <= t < |w.threads|
      ensures w.threads[t].Done?
    {
      if !w.threads[t].Done? {
        var u, c := NoDeadlock(cfg, w, t);
      }
    }
    NoRequestsNoSlots(cfg, w);
  }

  lemma NoRequestsNoSlots(cfg: Config, w: World)
    requires SlotsOk(cfg, w) && forall t :: 0 <= t < |w.threads| ==> !IsRequest(w.threads[t])
    ensures forall o :: 0 <= o < |w.objs| ==> w.objs[o].q == 0 && w.objs[o].g == 0
  {
    forall o | 0 <= o < |w.objs|
      ensures w.objs[o].q == 0 && w.objs[o].g == 0
    {
      assert Counted(w, o);
      TotalZero(QueueSlots(o), w.threads);
      TotalZero(GenSlots(o), w.threads);
    }
  }

  // ---- how long requests can take ----

  lemma RequestStepShortens(cfg: Config, w: World, a: Act, v: World)
    requires Shape(w) && a.t < |w.threads| && RequestStep(cfg, w, a.t, a.c) == Some(v)
    ensures a.t < |v.threads| && Value(StepsLeft, v.threads[a.t]) < Value(StepsLeft, w.threads[a.t])
  {
    assert PcShape(w, a.t);
  }

  /** How many of the first `n` steps were taken by requests. */
  function RequestSteps(ws: seq<World>, acts: seq<Act>, n: nat): nat
    requires n <= |acts| < |ws|
  {
    if n == 0 then 0
    else
      RequestSteps(ws, acts, n - 1)
      + (if acts[n - 1].t < |ws[n - 1].threads| && IsRequest(ws[n - 1].threads[acts[n - 1].t]) then 1 else 0)
  }

  /** Requests cannot run for ever: whatever else happens, they take at most seven steps each, and no
      other call's step gives any of them more to do. */
  lemma {:induction false} RequestsTerminate(cfg: Config, ws: seq<World>, acts: seq<Act>, n: nat)
    requires IsRun(cfg, ws, acts) && n <= |acts|
    ensures RequestSteps(ws, acts, n) + Total(StepsLeft, ws[n].threads) <= Total(StepsLeft, ws[0].threads)
    ensures RequestSteps(ws, acts, n) <= 7 * |ws[0].threads|
  {
    if n > 0 {
      RequestsTerminate(cfg, ws, acts, n - 1);
      var w, a, v := ws[n - 1], acts[n - 1], ws[n];
      assert StepAt(cfg, ws, acts, n - 1);
      StepTotals(cfg, w, a.t, a.c, v);
      if IsRequest(w.threads[a.t]) {
        RequestStepShortens(cfg, w, a, v);
      } else {
        OthersLeaveSlots(cfg, w, a, v);
      }
    }
    TotalNonNegative(StepsLeft, ws[n].threads);
    StepsLeftBound(ws[0].threads);
  }

  lemma {:induction false} StepsLeftBound(ts: seq<Pc>)
    ensures Total(StepsLeft, ts) <= 7 * |ts|
  {
    if ts != [] {
      StepsLeftBound(ts[..|ts| - 1]);
    }
  }
}
