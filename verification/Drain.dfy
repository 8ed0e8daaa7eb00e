/** What Unload's drain loop and the eviction scan may conclude from channel lengths they read one at a
    time while requests keep moving. */
module Drain {
  import opened Types
  import opened Interleaving
  import opened Accounting
  import opened Slots
  import opened History

  predicate NobodyHolds(w: World, o: nat) {
    forall t :: 0 <= t < |w.threads| ==>
      Value(QueueSlots(o), w.threads[t]) == 0 && Value(GenSlots(o), w.threads[t]) == 0
  }

  /** An empty queue channel alone rules out both kinds of holder, because whoever generates also
      holds a queue slot. */
  lemma EmptyQueueMeansNobody(cfg: Config, w: World, o: nat)
    requires SlotsOk(cfg, w) && o < |w.objs| && w.objs[o].q == 0
    ensures NobodyHolds(w, o)
  {
    assert Counted(w, o);
    forall t | 0 <= t < |w.threads|
      ensures Value(QueueSlots(o), w.threads[t]) == 0 && Value(GenSlots(o), w.threads[t]) == 0
    {
      ValueBelowTotal(QueueSlots(o), w.threads, t);
    }
  }

  // ---- Unload ----

  predicate InDrain(pc: Pc, m: ModelId, o: nat) {
    (pc.UnlReadQueue? || pc.UnlReadGen? || pc.UnlRemove?) && pc.m == m && pc.o == o
  }

  lemma StepOfOther(cfg: Config, ws: seq<World>, acts: seq<Act>, i: nat, t: nat)
    requires IsRun(cfg, ws, acts) && 0 < i < |ws| && t < |ws[i].threads| && acts[i - 1].t != t
    ensures t < |ws[i - 1].threads| && ws[i - 1].threads[t] == ws[i].threads[t]
  {
    assert StepAt(cfg, ws, acts, i - 1);
    NextKeepsShape(cfg, ws[i - 1], acts[i - 1].t, acts[i - 1].c);
  }

  lemma UnloadStepBack(w: World, a: Act, v: World, m: ModelId, o: nat)
    requires Shape(w) && a.t < |w.threads| && UnloadStep(w, a.t, a.c) == Some(v)
    requires a.t < |v.threads| && InDrain(v.threads[a.t], m, o)
    ensures InDrain(w.threads[a.t], m, o)
         || (w.threads[a.t] == UnlMark(m) && m in w.table && w.table[m] == o < |v.objs| && v.objs[o].st == Draining)
    ensures v.threads[a.t] == UnlReadGen(m, o, 0) ==>
              w.threads[a.t] == UnlReadQueue(m, o) && o < |w.objs| && w.objs[o].q == 0
    ensures v.threads[a.t] == UnlRemove(m, o, true) ==> w.threads[a.t] == UnlReadGen(m, o, 0)
  {
    assert PcShape(w, a.t);
  }

  lemma UnloadPredecessor(cfg: Config, w: World, a: Act, v: World, m: ModelId, o: nat)
    requires Shape(w) && a.t < |w.threads| && Next(cfg, w, a.t, a.c) == Some(v)
    requires a.t < |v.threads| && InDrain(v.threads[a.t], m, o)
    ensures InDrain(w.threads[a.t], m, o)
         || (w.threads[a.t] == UnlMark(m) && m in w.table && w.table[m] == o < |v.objs| && v.objs[o].st == Draining)
    ensures v.threads[a.t] == UnlReadGen(m, o, 0) ==>
              w.threads[a.t] == UnlReadQueue(m, o) && o < |w.objs| && w.objs[o].q == 0
    ensures v.threads[a.t] == UnlRemove(m, o, true) ==> w.threads[a.t] == UnlReadGen(m, o, 0)
  {
    NextKeepsShape(cfg, w, a.t, a.c);
    UnloadStepBack(w, a, v, m, o);
  }

  /** An Unload past its mark did mark that very object as draining. */
  lemma {:induction false} MarkedEarlier(cfg: Config, ws: seq<World>, acts: seq<Act>, i: nat, t: nat, m: ModelId, o: nat)
    returns (k: nat)
    requires IsRun(cfg, ws, acts) && i < |ws| && t < |ws[i].threads| && InDrain(ws[i].threads[t], m, o)
    ensures k < i && acts[k].t == t < |ws[k].threads| && ws[k].threads[t] == UnlMark(m)
    ensures o < |ws[k + 1].objs| && ws[k + 1].objs[o].st == Draining
  {
    assert i > 0;
    assert StepAt(cfg, ws, acts, i - 1);
    if acts[i - 1].t != t {
      StepOfOther(cfg, ws, acts, i, t);
      k := MarkedEarlier(cfg, ws, acts, i - 1, t, m, o);
    } else {
      UnloadPredecessor(cfg, ws[i - 1], acts[i - 1], ws[i], m, o);
      if InDrain(ws[i - 1].threads[t], m, o) {
        k := MarkedEarlier(cfg, ws, acts, i - 1, t, m, o);
      } else {
        k := i - 1;
      }
    }
  }

  /** Drain observation is sound: if Unload leaves its loop because it saw both lengths at zero, there
      was one instant after its mark at which no request held either slot of the object. */
  lemma {:induction false} DrainSound(cfg: Config, ws: seq<World>, acts: seq<Act>, i: nat, t: nat, m: ModelId, o: nat)
    returns (k: nat, j: nat)
    requires IsRun(cfg, ws, acts) && i < |ws| && t < |ws[i].threads|
    requires ws[i].threads[t] == UnlRemove(m, o, true) || ws[i].threads[t] == UnlReadGen(m, o, 0)
    ensures k < j < i && acts[k].t == t < |ws[k].threads| && ws[k].threads[t] == UnlMark(m)
    ensures o < |ws[k + 1].objs| && ws[k + 1].objs[o].st == Draining
    ensures NobodyHolds(ws[j], o)
  {
    hide NobodyHolds, SlotsOk, Shape, Next;
    assert i > 0;
    assert StepAt(cfg, ws, acts, i - 1);
    if acts[i - 1].t != t {
      StepOfOther(cfg, ws, acts, i, t);
      k, j := DrainSound(cfg, ws, acts, i - 1, t, m, o);
    } else {
      UnloadPredecessor(cfg, ws[i - 1], acts[i - 1], ws[i], m, o);
      if ws[i].threads[t] == UnlRemove(m, o, true) {
        k, j := DrainSound(cfg, ws, acts, i - 1, t, m, o);
      } else {
        j := i - 1;
        k := MarkedEarlier(cfg, ws, acts, j, t, m, o);
        SlotSafety(cfg, ws, acts, j);
        EmptyQueueMeansNobody(cfg, ws[j], o);
      }
    }
  }

  // ---- convergence of the drain ----

  /** Past the draining check and not yet returned. */
  predicate PastCheck(pc: Pc, o: nat) {
    (pc.ReqPassed? || pc.ReqQueued? || pc.ReqRollback? || pc.ReqGen? || pc.ReqRun? || pc.ReqRelease?) && pc.o == o
  }

  function Past(w: World, o: nat): set<nat> {
    set t | 0 <= t < |w.threads| && PastCheck(w.threads[t], o)
  }

  /** The two statements of EnsureInstance that overwrite the state of object `o`. */
  predicate Reopens(w: World, a: Act, o: nat)
    requires a.t < |w.threads|
  {
    var pc := w.threads[a.t];
    || (pc.EnsInsert? && pc.m in w.table && w.table[pc.m] == o)
    || (pc.EnsWarm? && pc.o == o && a.c.Go?)
  }

  predicate DrainStepOk(w: World, a: Act, v: World, o: nat)
    requires a.t < |w.threads| && o < |w.objs|
  {
    && o < |v.objs| && a.t < |v.threads|
    && (v.objs[o].st == Draining <==> !Reopens(w, a, o))
    && (PastCheck(v.threads[a.t], o) ==> PastCheck(w.threads[a.t], o))
  }

  lemma EnsureDrains(cfg: Config, w: World, a: Act, v: World, o: nat)
    requires Shape(w) && a.t < |w.threads| && EnsureStep(cfg, w, a.t, a.c) == Some(v)
    requires o < |w.objs| && w.objs[o].st == Draining
    ensures DrainStepOk(w, a, v, o)
  {
    assert PcShape(w, a.t);
  }

  lemma EvictDrains(cfg: Config, w: World, a: Act, v: World, o: nat)
    requires Shape(w) && a.t < |w.threads| && EvictStep(cfg, w, a.t, a.c) == Some(v)
    requires o < |w.objs| && w.objs[o].st == Draining
    ensures DrainStepOk(w, a, v, o)
  {
    assert PcShape(w, a.t);
  }

  lemma RequestDrains(cfg: Config, w: World, a: Act, v: World, o: nat)
    requires Shape(w) && a.t < |w.threads| && RequestStep(cfg, w, a.t, a.c) == Some(v)
    requires o < |w.objs| && w.objs[o].st == Draining
    ensures DrainStepOk(w, a, v, o)
  {
    assert PcShape(w, a.t);
  }

  lemma UnloadDrains(w: World, a: Act, v: World, o: nat)
    requires Shape(w) && a.t < |w.threads| && UnloadStep(w, a.t, a.c) == Some(v)
    requires o < |w.objs| && w.objs[o].st == Draining
    ensures DrainStepOk(w, a, v, o)
  {
    assert PcShape(w, a.t);
  }

  /** A draining object stays draining exactly until an ensure overwrites it, and meanwhile nobody new
      gets past the check. */
  lemma DrainingStep(cfg: Config, w: World, a: Act, v: World, o: nat)
    requires Shape(w) && a.t < |w.threads| && Next(cfg, w, a.t, a.c) == Some(v)
    requires o < |w.objs| && w.objs[o].st == Draining
    ensures o < |v.objs| && (v.objs[o].st == Draining <==> !Reopens(w, a, o))
    ensures Past(v, o) <= Past(w, o)
  {
    if EnsureStep(cfg, w, a.t, a.c).Some? {
      EnsureDrains(cfg, w, a, v, o);
    } else if EvictStep(cfg, w, a.t, a.c).Some? {
      EvictDrains(cfg, w, a, v, o);
    } else if UnloadStep(w, a.t, a.c).Some? {
      UnloadDrains(w, a, v, o);
    } else if RequestStep(cfg, w, a.t, a.c).Some? {
      RequestDrains(cfg, w, a, v, o);
    }
    assert DrainStepOk(w, a, v, o);
    NextKeepsShape(cfg, w, a.t, a.c);
  }

  predicate NoReopen(ws: seq<World>, acts: seq<Act>, i: nat, j: nat, o: nat)
    requires i <= j <= |acts| < |ws|
  {
    forall x :: i <= x < j ==> acts[x].t < |ws[x].threads| && !Reopens(ws[x], acts[x], o)
  }

  lemma {:induction false} DrainShrinks(cfg: Config, ws: seq<World>, acts: seq<Act>, i: nat, j: nat, o: nat)
    requires IsRun(cfg, ws, acts) && i <= j < |ws|
    requires o < |ws[i].objs| && ws[i].objs[o].st == Draining && NoReopen(ws, acts, i, j, o)
    ensures o < |ws[j].objs| && ws[j].objs[o].st == Draining && Past(ws[j], o) <= Past(ws[i], o)
  {
    if i < j {
      DrainShrinks(cfg, ws, acts, i, j - 1, o);
      assert StepAt(cfg, ws, acts, j - 1);
      DrainingStep(cfg, ws[j - 1], acts[j - 1], ws[j], o);
    }
  }

  lemma NobodyPastMeansEmpty(cfg: Config, w: World, o: nat)
    requires SlotsOk(cfg, w) && o < |w.objs| && Past(w, o) == {}
    ensures w.objs[o].q == 0 && w.objs[o].g == 0
  {
    assert Counted(w, o);
    forall t | 0 <= t < |w.threads|
      ensures Value(QueueSlots(o), w.threads[t]) == 0 && Value(GenSlots(o), w.threads[t]) == 0
    {
      assert t !in Past(w, o);
    }
    TotalZero(QueueSlots(o), w.threads);
    TotalZero(GenSlots(o), w.threads);
  }

  /** On its way out of the loop without needing the deadline. */
  predicate Leaving(pc: Pc, m: ModelId, o: nat) {
    pc == UnlReadQueue(m, o) || pc == UnlReadGen(m, o, 0) || pc == UnlRemove(m, o, true) || pc.Done?
  }

  predicate Shortens(pc: Pc, pd: Pc) {
    (pc.UnlReadQueue? && pd.UnlReadGen?) || (pc.UnlReadGen? && pd.UnlRemove?) || (pc.UnlRemove? && pd.Done?)
  }

  lemma LeavingStep(cfg: Config, w: World, a: Act, v: World, m: ModelId, o: nat)
    requires Shape(w) && a.t < |w.threads| && Next(cfg, w, a.t, a.c) == Some(v)
    requires Leaving(w.threads[a.t], m, o) && o < |w.objs| && w.objs[o].q == 0 && w.objs[o].g == 0
    ensures a.t < |v.threads| && Leaving(v.threads[a.t], m, o) && Shortens(w.threads[a.t], v.threads[a.t])
  {
    assert PcShape(w, a.t);
  }

  /** Drain converges: once nobody is past the check of a draining object that no ensure reopens, the
      channels stay empty and the Unload watching it leaves its loop normally, never re-polling. */
  lemma {:induction false} DrainConverges(
    cfg: Config, ws: seq<World>, acts: seq<Act>, i: nat, j: nat, t: nat, m: ModelId, o: nat)
    requires IsRun(cfg, ws, acts) && i <= j < |ws| && t < |ws[i].threads|
    requires o < |ws[i].objs| && ws[i].objs[o].st == Draining && NoReopen(ws, acts, i, j, o)
    requires Past(ws[i], o) == {} && ws[i].threads[t] == UnlReadQueue(m, o)
    ensures o < |ws[j].objs| && ws[j].objs[o].q == 0 && ws[j].objs[o].g == 0
    ensures t < |ws[j].threads| && Leaving(ws[j].threads[t], m, o)
    ensures j > i && acts[j - 1].t == t ==>
              t < |ws[j - 1].threads| && Shortens(ws[j - 1].threads[t], ws[j].threads[t])
  {
    DrainShrinks(cfg, ws, acts, i, j, o);
    SlotSafety(cfg, ws, acts, j);
    NobodyPastMeansEmpty(cfg, ws[j], o);
    RunShape(cfg, ws, acts, i);
    RunShape(cfg, ws, acts, j);
    if i < j {
      DrainConverges(cfg, ws, acts, i, j - 1, t, m, o);
      assert StepAt(cfg, ws, acts, j - 1);
      if acts[j - 1].t == t {
        LeavingStep(cfg, ws[j - 1], acts[j - 1], ws[j], m, o);
      } else {
        StepOfOther(cfg, ws, acts, j, t);
      }
    }
  }

  // ---- the eviction scan ----

  predicate BusySeen(ws: seq<World>, s: nat, i: nat, o: nat)
    requires i < |ws|
  {
    exists x :: s <= x <= i && o < |ws[x].objs| && (ws[x].objs[o].q > 0 || ws[x].objs[o].g > 0)
  }

  predicate IdleSeen(ws: seq<World>, s: nat, i: nat, o: nat)
    requires i < |ws|
  {
    exists x :: s <= x <= i && InTable(ws[x], o) && NobodyHolds(ws[x], o)
  }

  /** Candidate `o` is settled: seen busy during the scan, or not older than the best so far. */
  predicate Settled(ws: seq<World>, s: nat, i: nat, best: Option<nat>, o: nat)
    requires i < |ws| && o < |ws[i].objs| && (best.Some? ==> best.value < |ws[i].objs|)
  {
    BusySeen(ws, s, i, o) || (best.Some? && ws[i].objs[best.value].lastUsed <= ws[i].objs[o].lastUsed)
  }

  /** What the scan started by call `t` in world `s` knows in world `i`. */
  predicate ScanKnows(ws: seq<World>, s: nat, i: nat, t: nat)
    requires i < |ws| && t < |ws[i].threads| && Scanning(ws[i].threads[t]) && Shape(ws[i])
  {
    var w, pc := ws[i], ws[i].threads[t];
    assert PcShape(w, t);
    && s <= i
    && (forall x :: s <= x <= i ==> ws[x].lock == Some(t))
    && (pc.best.Some? ==> IdleSeen(ws, s, i, pc.best.value))
    && (forall k :: k in w.table && k !in pc.todo && !(pc.EvReadQueue? && k == pc.k)
                    ==> Settled(ws, s, i, pc.best, w.table[k]))
  }

  /** Under the lock nobody else touches the map or any LastUsed. */
  lemma OthersUnderLock(cfg: Config, w: World, a: Act, v: World, t: nat)
    requires Shape(w) && a.t < |w.threads| && Next(cfg, w, a.t, a.c) == Some(v)
    requires w.lock == Some(t) && a.t != t
    ensures v.table == w.table && v.lock == w.lock && |v.objs| == |w.objs|
    ensures forall o :: 0 <= o < |w.objs| ==> v.objs[o].lastUsed == w.objs[o].lastUsed && v.objs[o].id == w.objs[o].id
  {
    assert PcShape(w, a.t);
  }

  lemma ScannerStep(cfg: Config, w: World, a: Act, v: World)
    requires Shape(w) && a.t < |w.threads| && EvictStep(cfg, w, a.t, a.c) == Some(v)
    requires a.t < |v.threads| && Scanning(v.threads[a.t])
    ensures v.lock == Some(a.t) && v.table == w.table && v.objs == w.objs
    ensures var pc, pd := w.threads[a.t], v.threads[a.t];
            || (pc.EvCheck? && pd == EvReadGen(pc.m, pc.req, w.table.Keys, None))
            || (pc.EvReadGen? && a.c.Scan? && a.c.k in pc.todo && a.c.k in w.table && pd.todo == pc.todo - {a.c.k}
                && pd.best == pc.best && w.table[a.c.k] < |w.objs|
                && if w.objs[w.table[a.c.k]].g > 0 then pd.EvReadGen? else pd.EvReadQueue? && pd.k == a.c.k)
            || (pc.EvReadQueue? && pd.EvReadGen? && pd.todo == pc.todo && pc.k in w.table
                && var o := w.table[pc.k];
                   && InTable(w, o)
                   && if w.objs[o].q > 0 then pd.best == pc.best
                      else if pc.best.None? then pd.best == Some(o)
                      else pc.best.value < |w.objs|
                           && pd.best == if w.objs[o].lastUsed < w.objs[pc.best.value].lastUsed then Some(o) else pc.best)
  {
    assert PcShape(w, a.t);
  }

  lemma ScannerWasEvicting(cfg: Config, w: World, a: Act, v: World)
    requires Shape(w) && a.t < |w.threads| && Next(cfg, w, a.t, a.c) == Some(v)
    requires a.t < |v.threads| && Scanning(v.threads[a.t])
    ensures EvictStep(cfg, w, a.t, a.c) == Some(v)
  {
    NextKeepsShape(cfg, w, a.t, a.c);
  }

  /** The eviction scan is sound although channels move under it: its candidate was in the map and idle
      at one instant of the scan, and every instance passed over was busy at one instant of the scan or
      is no older. */
  lemma {:induction false} ScanSound(cfg: Config, ws: seq<World>, acts: seq<Act>, i: nat, t: nat) returns (s: nat)
    requires IsRun(cfg, ws, acts) && i < |ws| && Shape(ws[i]) && t < |ws[i].threads| && Scanning(ws[i].threads[t])
    ensures ScanKnows(ws, s, i, t)
  {
    hide Settled, EvictStep;
    assert i > 0;
    assert StepAt(cfg, ws, acts, i - 1);
    var w, a, v := ws[i - 1], acts[i - 1], ws[i];
    assert PcShape(v, t);
    if a.t != t {
      StepOfOther(cfg, ws, acts, i, t);
      assert PcShape(w, t);
      s := ScanSound(cfg, ws, acts, i - 1, t);
      OthersUnderLock(cfg, w, a, v, t);
      Carry(ws, s, i, w.threads[t].best);
    } else {
      ScannerWasEvicting(cfg, w, a, v);
      ScannerStep(cfg, w, a, v);
      if w.threads[t].EvCheck? {
        s := i;
      } else {
        s := ScanSound(cfg, ws, acts, i - 1, t);
        NextKeepsShape(cfg, w, a.t, a.c);
        ScanAdvances(cfg, ws, acts, s, i, t);
      }
    }
  }

  /** Knowledge survives a step that leaves the map and the stamps alone. */
  lemma Carry(ws: seq<World>, s: nat, i: nat, best: Option<nat>)
    requires 0 < i < |ws| && s <= i - 1
    requires ws[i].table == ws[i - 1].table && |ws[i].objs| == |ws[i - 1].objs|
    requires forall o :: 0 <= o < |ws[i].objs| ==> ws[i].objs[o].lastUsed == ws[i - 1].objs[o].lastUsed
    requires forall k :: k in ws[i].table ==> ws[i].table[k] < |ws[i].objs|
    requires best.Some? ==> best.value < |ws[i].objs|
    ensures best.Some? && IdleSeen(ws, s, i - 1, best.value) ==> IdleSeen(ws, s, i, best.value)
    ensures forall k :: k in ws[i].table && Settled(ws, s, i - 1, best, ws[i].table[k])
                        ==> Settled(ws, s, i, best, ws[i].table[k])
  {
    hide NobodyHolds;
  }

  /** What the reads of one scanning step settle. */
  lemma ScanReads(cfg: Config, ws: seq<World>, acts: seq<Act>, s: nat, i: nat, t: nat, k: ModelId)
    requires IsRun(cfg, ws, acts) && |ws| == |acts| + 1 && 0 < i < |ws| && acts[i - 1].t == t < |ws[i].threads| == |ws[i - 1].threads|
    requires Shape(ws[i]) && Shape(ws[i - 1]) && Scanning(ws[i].threads[t]) && Scanning(ws[i - 1].threads[t])
    requires ScanKnows(ws, s, i - 1, t) && EvictStep(cfg, ws[i - 1], t, acts[i - 1].c) == Some(ws[i])
    requires k in ws[i].table && k !in ws[i].threads[t].todo
    requires !(ws[i].threads[t].EvReadQueue? && k == ws[i].threads[t].k)
    requires ws[i].threads[t].best.Some? ==> ws[i].threads[t].best.value < |ws[i].objs|
    ensures Settled(ws, s, i, ws[i].threads[t].best, ws[i].table[k])
  {
    hide EvictStep, IsRun;
    var w, a, v := ws[i - 1], acts[i - 1], ws[i];
    ScannerStep(cfg, w, a, v);
    var pc, o := w.threads[t], v.table[k];
    if pc.EvReadGen? && k == a.c.k {
      assert BusySeen(ws, s, i, o) by { assert w.objs[o].g > 0; }
    } else if pc.EvReadQueue? && k == pc.k {
      if w.objs[o].q > 0 {
        assert BusySeen(ws, s, i, o);
      }
    } else {
      assert Settled(ws, s, i - 1, pc.best, w.table[k]);
    }
  }

  lemma ScanAdvances(cfg: Config, ws: seq<World>, acts: seq<Act>, s: nat, i: nat, t: nat)
    requires IsRun(cfg, ws, acts) && |ws| == |acts| + 1 && 0 < i < |ws| && acts[i - 1].t == t < |ws[i].threads| == |ws[i - 1].threads|
    requires Shape(ws[i]) && Shape(ws[i - 1]) && Scanning(ws[i].threads[t]) && Scanning(ws[i - 1].threads[t])
    requires ScanKnows(ws, s, i - 1, t) && EvictStep(cfg, ws[i - 1], t, acts[i - 1].c) == Some(ws[i])
    ensures ScanKnows(ws, s, i, t)
  {
    hide EvictStep, IsRun, Settled;
    var w, a, v := ws[i - 1], acts[i - 1], ws[i];
    ScannerStep(cfg, w, a, v);
    assert PcShape(w, t) && PcShape(v, t);
    var pc, pd := w.threads[t], v.threads[t];
    if pc.EvReadQueue? && w.objs[w.table[pc.k]].q == 0 {
      SlotSafety(cfg, ws, acts, i - 1);
      EmptyQueueMeansNobody(cfg, w, w.table[pc.k]);
    }
    forall k | k in v.table && k !in pd.todo && !(pd.EvReadQueue? && k == pd.k)
      ensures Settled(ws, s, i, pd.best, v.table[k])
    {
      ScanReads(cfg, ws, acts, s, i, t, k);
    }
  }

  /** The victim of an eviction was idle in the map at one instant of the scan, and every other instance in
      the map was busy at one instant of the scan or has been used since the victim was. */
  lemma VictimWasIdleAndOldest(cfg: Config, ws: seq<World>, acts: seq<Act>, i: nat, t: nat, m: ModelId, req: nat, o: nat)
    returns (s: nat)
    requires IsRun(cfg, ws, acts) && i < |ws| && t < |ws[i].threads|
    requires ws[i].threads[t] == EvReadGen(m, req, {}, Some(o))
    ensures s <= i && InTable(ws[i], o) && IdleSeen(ws, s, i, o)
    ensures forall x :: s <= x <= i ==> ws[x].lock == Some(t)
    ensures forall k :: k in ws[i].table && ws[i].table[k] != o ==>
              || BusySeen(ws, s, i, ws[i].table[k])
              || LastUse(ws, acts, i, o) < LastUse(ws, acts, i, ws[i].table[k])
  {
    hide LastUse;
    RunShape(cfg, ws, acts, i);
    assert PcShape(ws[i], t);
    s := ScanSound(cfg, ws, acts, i, t);
    forall k | k in ws[i].table && ws[i].table[k] != o
      ensures BusySeen(ws, s, i, ws[i].table[k]) || LastUse(ws, acts, i, o) < LastUse(ws, acts, i, ws[i].table[k])
    {
      assert Settled(ws, s, i, Some(o), ws[i].table[k]);
      StampsOrderUses(cfg, ws, acts, i, ws[i].table[k], o);
    }
  }

  /** An over-budget refusal means that every instance in the map was busy at some instant of the scan. */
  lemma RefusalMeansAllBusy(cfg: Config, ws: seq<World>, acts: seq<Act>, i: nat, t: nat, m: ModelId, req: nat)
    returns (s: nat)
    requires IsRun(cfg, ws, acts) && i < |ws| && t < |ws[i].threads|
    requires ws[i].threads[t] == EvReadGen(m, req, {}, None)
    ensures s <= i && forall x :: s <= x <= i ==> ws[x].lock == Some(t)
    ensures forall k :: k in ws[i].table ==> BusySeen(ws, s, i, ws[i].table[k])
  {
    RunShape(cfg, ws, acts, i);
    assert PcShape(ws[i], t);
    s := ScanSound(cfg, ws, acts, i, t);
    forall k | k in ws[i].table
      ensures BusySeen(ws, s, i, ws[i].table[k])
    {
      assert Settled(ws, s, i, None, ws[i].table[k]);
    }
  }
}
