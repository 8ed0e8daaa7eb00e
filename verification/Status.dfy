/** The manager's own state, shared by EnsureInstance and EnsureModel and never touched by Unload. */
module Status {
  import opened Types
  import opened Interleaving
  import opened History

  /** The error text is set exactly in the error state, and the manager itself never drains. */
  predicate StatusOk(w: World) {
    && (w.merr != "" <==> w.mstate == Error)
    && w.mstate != Draining
  }

  predicate SomeReady(w: World)
    requires Shape(w)
  {
    exists m :: m in w.table && IsReady(w, m)
  }

  /** What `Ready` reports. */
  predicate ReadyReport(w: World)
    requires Shape(w)
  {
    if w.mstate == Error then false
    else if SomeReady(w) then true
    else w.mstate == Ready && w.cur.Some?
  }

  lemma StepKeepsStatus(cfg: Config, w: World, a: Act, v: World)
    requires Shape(w) && a.t < |w.threads| && Next(cfg, w, a.t, a.c) == Some(v)
    requires StatusOk(w)
    ensures StatusOk(v)
  {
    assert PcShape(w, a.t);
  }

  /** In every reachable state the status is consistent, and a manager that reports ready has no error. */
  lemma {:induction false} StatusInvariant(cfg: Config, ws: seq<World>, acts: seq<Act>, i: nat)
    requires IsRun(cfg, ws, acts) && i < |ws|
    ensures StatusOk(ws[i]) && Shape(ws[i]) && (ReadyReport(ws[i]) ==> ws[i].merr == "")
  {
    RunShape(cfg, ws, acts, i);
    if i > 0 {
      StatusInvariant(cfg, ws, acts, i - 1);
      assert StepAt(cfg, ws, acts, i - 1);
      StepKeepsStatus(cfg, ws[i - 1], acts[i - 1], ws[i]);
    }
  }

  /** Right after a load commits the manager reports ready, even if the instance has meanwhile been
      evicted or unloaded; after a failed load it reports not ready, whatever is in the map. */
  lemma ReportAfterLoad(cfg: Config, w: World, a: Act, v: World)
    requires Shape(w) && a.t < |w.threads| && Next(cfg, w, a.t, a.c) == Some(v) && w.threads[a.t].EnsWarm?
    ensures Shape(v) && (ReadyReport(v) <==> a.c.Go?) && (v.mstate == Error <==> a.c.Cancel?)
  {
    assert PcShape(w, a.t);
    NextKeepsShape(cfg, w, a.t, a.c);
  }

  /** Ready means: the last thing reported is no error, and either some mapped instance was last committed, or
      the last thing reported is a success and some model is current. */
  lemma ReportIff(cfg: Config, ws: seq<World>, acts: seq<Act>, i: nat)
    requires IsRun(cfg, ws, acts) && i < |ws|
    ensures Shape(ws[i])
    ensures ReadyReport(ws[i]) <==>
              && LastReport(ws, acts, i).st != Error
              && ((exists m :: MappedReady(ws, acts, i, m)) || (LastReport(ws, acts, i).st == Ready && ws[i].cur.Some?))
  {
    hide LastReport, LastEntry, LastGiven;
    RunShape(cfg, ws, acts, i);
    StatusIsLastReport(cfg, ws, acts, i);
    forall m
      ensures MappedReady(ws, acts, i, m) <==> m in ws[i].table && IsReady(ws[i], m)
    {
      MapIsLastEntry(cfg, ws, acts, i, m);
      if m in ws[i].table {
        InstanceIsLastGiven(cfg, ws, acts, i, ws[i].table[m]);
      }
    }
  }

  /** The model's last load has neither been evicted nor unloaded, and its object was last committed. */
  predicate MappedReady(ws: seq<World>, acts: seq<Act>, i: nat, m: ModelId)
    requires i <= |acts| < |ws|
  {
    var e := LastEntry(ws, acts, i, m);
    e.Some? && LastGiven(ws, acts, i, e.value) == Some(Ready)
  }

  // ---- the current model ----

  /** The step commits a load of `m`, or switches to it. */
  predicate SetsCurrent(w: World, a: Act, m: ModelId) {
    a.t < |w.threads| && a.c.Go?
    && (w.threads[a.t].EnsWarm? || w.threads[a.t].ModWarm?) && w.threads[a.t].m == m
  }

  /** The step makes another model current, or unloads `m`. */
  predicate Supersedes(w: World, a: Act, m: ModelId) {
    a.t < |w.threads|
    && if w.threads[a.t].UnlRemove? then w.threads[a.t].m == m
       else a.c.Go? && (w.threads[a.t].EnsWarm? || w.threads[a.t].ModWarm?) && w.threads[a.t].m != m
  }

  /** Step `k` made `m` current and no step since, up to world `i`, has undone that. */
  predicate CurrentSince(ws: seq<World>, acts: seq<Act>, k: nat, i: nat, m: ModelId)
    requires k < i <= |acts| < |ws|
  {
    SetsCurrent(ws[k], acts[k], m) && forall x :: k < x < i ==> !Supersedes(ws[x], acts[x], m)
  }

  lemma CurrentStep(cfg: Config, w: World, a: Act, v: World, m: ModelId)
    requires Shape(w) && a.t < |w.threads| && Next(cfg, w, a.t, a.c) == Some(v)
    ensures v.cur == Some(m) <==> SetsCurrent(w, a, m) || (w.cur == Some(m) && !Supersedes(w, a, m))
  {
    assert PcShape(w, a.t);
  }

  /** A model is current if and only if it was the last to be loaded or switched to and has not been
      unloaded since. Eviction does not count as unloading: the current model may be gone from the map. */
  lemma {:induction false} CurrentIff(cfg: Config, ws: seq<World>, acts: seq<Act>, i: nat, m: ModelId)
    requires IsRun(cfg, ws, acts) && i < |ws|
    ensures ws[i].cur == Some(m) <==> exists k: nat :: k < i && CurrentSince(ws, acts, k, i, m)
  {
    hide SetsCurrent, Supersedes;
    if i > 0 {
      CurrentIff(cfg, ws, acts, i - 1, m);
      assert StepAt(cfg, ws, acts, i - 1);
      CurrentStep(cfg, ws[i - 1], acts[i - 1], ws[i], m);
      if SetsCurrent(ws[i - 1], acts[i - 1], m) {
        assert CurrentSince(ws, acts, i - 1, i, m);
      } else if ws[i].cur == Some(m) {
        var k: nat :| k < i - 1 && CurrentSince(ws, acts, k, i - 1, m);
        assert CurrentSince(ws, acts, k, i, m);
      } else if k: nat :| k < i && CurrentSince(ws, acts, k, i, m) {
        assert k < i - 1 && CurrentSince(ws, acts, k, i - 1, m);
      }
    }
  }
}
