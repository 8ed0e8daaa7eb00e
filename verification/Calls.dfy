/** What the outcome of a call means: statements about everything the call saw and did on the way. */
module Calls {
  import opened Types
  import opened Interleaving

  /** Something a call can have seen or done at one of its steps. */
  datatype Sight =
    | Missing(id: ModelId)             // an ensure looked, and its model was not ready
    | Hit(id: ModelId)                 // it took its model for ready, and it was
    | Committed                        // its warmup ended well
    | GaveUp                           // its warmup was cancelled
    | FoundNone                        // its eviction scan ended without a candidate
    | Absent(id: ModelId)              // a request or an Unload found no such model
    | Fetched(id: ModelId, o: nat)     // a request found its model mapped to this object
    | Passed(o: nat)                   // and the object was not draining
    | TurnedAway(o: nat)               // or it was
    | TimedOut
    | Interrupted
    | Ran(o: nat)                      // a request generated on this object
    | Marked(id: ModelId, o: nat)      // an Unload marked this object
    | Removed(id: ModelId)
    | Unchanged(id: ModelId)           // an EnsureModel found its model current

  predicate ReadyIn(w: World, id: ModelId) { id in w.table && w.table[id] < |w.objs| && w.objs[w.table[id]].st == Ready }

  predicate DrainingIn(w: World, o: nat) { o < |w.objs| && w.objs[o].st == Draining }

  predicate Shows(w: World, pc: Pc, c: Choice, s: Sight) {
    match s
    case Missing(id) => (pc.EnsLookup? || pc.EnsTouch?) && !ReadyIn(w, id)
    case Hit(id) => pc.EnsTouch? && ReadyIn(w, id)
    case Committed => (pc.EnsWarm? || pc.ModWarm?) && c.Go?
    case GaveUp => (pc.EnsWarm? || pc.ModWarm?) && c.Cancel?
    case FoundNone => pc.EvReadGen? && pc.todo == {} && pc.best.None?
    case Absent(id) => (pc.ReqLookup? || pc.UnlMark?) && id !in w.table
    case Fetched(id, o) => pc.ReqLookup? && id in w.table && w.table[id] == o
    case Passed(o) => pc == ReqFetched(o) && !DrainingIn(w, o)
    case TurnedAway(o) => pc == ReqFetched(o) && DrainingIn(w, o)
    case TimedOut => (pc.ReqPassed? || pc.ReqQueued?) && c.Timeout?
    case Interrupted => (pc.ReqPassed? || pc.ReqQueued?) && c.Cancel?
    case Ran(o) => pc == ReqRun(o)
    case Marked(id, o) => pc == UnlMark(id) && id in w.table && w.table[id] == o
    case Removed(id) => pc.UnlRemove? && pc.m == id
    case Unchanged(id) => pc.ModLookup? && w.cur == Some(id)
  }

  /** Call `t` saw this at one of its steps among the first `i` of the run. */
  predicate Saw(ws: seq<World>, acts: seq<Act>, i: nat, t: nat, s: Sight)
    requires i <= |acts| < |ws|
  {
    exists x :: 0 <= x < i && acts[x].t == t && t < |ws[x].threads| && Shows(ws[x], ws[x].threads[t], acts[x].c, s)
  }

  lemma StillSaw(ws: seq<World>, acts: seq<Act>, i: nat, t: nat)
    requires 0 < i <= |acts| < |ws|
    ensures forall s :: Saw(ws, acts, i - 1, t, s) ==> Saw(ws, acts, i, t, s)
  {
    hide Shows;
  }

  lemma JustSaw(ws: seq<World>, acts: seq<Act>, i: nat, t: nat, s: Sight)
    requires 0 < i <= |acts| < |ws| && acts[i - 1].t == t < |ws[i - 1].threads|
    ensures Shows(ws[i - 1], ws[i - 1].threads[t], acts[i - 1].c, s) ==> Saw(ws, acts, i, t, s)
  {
    hide Shows;
  }

  /** Call `t` took the step before world `i`. */
  predicate JustMoved(cfg: Config, ws: seq<World>, acts: seq<Act>, i: nat, t: nat) {
    && 0 < i <= |acts| < |ws| && acts[i - 1].t == t < |ws[i - 1].threads| && t < |ws[i].threads|
    && StepAt(cfg, ws, acts, i - 1)
  }

  // ---- what each operation knows where it stands ----

  /** The model an ensure is about. */
  function Wanted(cfg: Config, m: ModelId): ModelId { if m == "" then cfg.fallback else m }

  predicate EnsureKnows(cfg: Config, ws: seq<World>, acts: seq<Act>, i: nat, t: nat, id: ModelId)
    requires i <= |acts| < |ws| && t < |ws[i].threads|
  {
    var pc := ws[i].threads[t];
    var missed := Saw(ws, acts, i, t, Missing(id));
    match pc
    case EnsLookup(m) => Wanted(cfg, m) == id
    case EnsTouch(m) => m == id && id != ""
    case EnsResolve(m) => m == id && id != "" && missed
    case EnsInsert(m, _) => m == id && id != "" && id in cfg.registry && missed
    case EnsWarm(m, _, _, _, _) => m == id && id != "" && id in cfg.registry && missed
    case Done(out, _, _, _) =>
      (match out
       case Succeeded =>
         || id == "" || Saw(ws, acts, i, t, Hit(id))
         || (id in cfg.registry && missed && Saw(ws, acts, i, t, Committed))
       case NotFound => id != "" && id !in cfg.registry && missed
       case OverBudget => id in cfg.registry && cfg.budget > 0 && missed && Saw(ws, acts, i, t, FoundNone)
       case Canceled => id in cfg.registry && missed && Saw(ws, acts, i, t, GaveUp)
       case TooBusy => false)
    case _ => KindOf(pc) == Some(Load) && pc.m == id && id != "" && id in cfg.registry && cfg.budget > 0 && missed
  }

  ghost predicate RequestKnows(ws: seq<World>, acts: seq<Act>, i: nat, t: nat, id: ModelId)
    requires i <= |acts| < |ws| && t < |ws[i].threads|
  {
    match ws[i].threads[t]
    case ReqLookup(m) => m == id
    case ReqFetched(o) => Saw(ws, acts, i, t, Fetched(id, o))
    case ReqPassed(o) => Admitted(ws, acts, i, t, id, o)
    case ReqQueued(o) => Admitted(ws, acts, i, t, id, o)
    case ReqGen(o) => Admitted(ws, acts, i, t, id, o)
    case ReqRun(o) => Admitted(ws, acts, i, t, id, o)
    case ReqRelease(o) => Admitted(ws, acts, i, t, id, o) && Saw(ws, acts, i, t, Ran(o))
    case ReqRollback(o, out) => Admitted(ws, acts, i, t, id, o) && Refused(ws, acts, i, t, out)
    case Done(out, _, _, _) =>
      (match out
       case Succeeded => exists o: nat :: Admitted(ws, acts, i, t, id, o) && Saw(ws, acts, i, t, Ran(o))
       case NotFound => Saw(ws, acts, i, t, Absent(id))
       case TooBusy =>
         || (exists o: nat :: Saw(ws, acts, i, t, Fetched(id, o)) && Saw(ws, acts, i, t, TurnedAway(o)))
         || Saw(ws, acts, i, t, TimedOut)
       case Canceled => Saw(ws, acts, i, t, Interrupted)
       case OverBudget => false)
    case _ => false
  }

  predicate Admitted(ws: seq<World>, acts: seq<Act>, i: nat, t: nat, id: ModelId, o: nat)
    requires i <= |acts| < |ws|
  {
    Saw(ws, acts, i, t, Fetched(id, o)) && Saw(ws, acts, i, t, Passed(o))
  }

  predicate Refused(ws: seq<World>, acts: seq<Act>, i: nat, t: nat, out: Outcome)
    requires i <= |acts| < |ws|
  {
    (out == TooBusy && Saw(ws, acts, i, t, TimedOut)) || (out == Canceled && Saw(ws, acts, i, t, Interrupted))
  }

  ghost predicate UnloadKnows(ws: seq<World>, acts: seq<Act>, i: nat, t: nat, id: ModelId)
    requires i <= |acts| < |ws| && t < |ws[i].threads|
  {
    match ws[i].threads[t]
    case UnlMark(m) => m == id
    case UnlReadQueue(m, o) => m == id && id != "" && Saw(ws, acts, i, t, Marked(id, o))
    case UnlReadGen(m, o, _) => m == id && id != "" && Saw(ws, acts, i, t, Marked(id, o))
    case UnlRemove(m, o, _) => m == id && id != "" && Saw(ws, acts, i, t, Marked(id, o))
    case Done(out, _, _, _) =>
      || (out == Succeeded && id != "" && (exists o: nat :: Saw(ws, acts, i, t, Marked(id, o))) && Saw(ws, acts, i, t, Removed(id)))
      || (out == NotFound && (id == "" || Saw(ws, acts, i, t, Absent(id))))
    case _ => false
  }

  predicate EnsureModelKnows(ws: seq<World>, acts: seq<Act>, i: nat, t: nat, id: ModelId)
    requires i <= |acts| < |ws| && t < |ws[i].threads|
  {
    match ws[i].threads[t]
    case ModLookup(m) => m == id
    case ModStart(m) => m == id && id != ""
    case ModWarm(m) => m == id && id != ""
    case Done(out, _, _, _) =>
      || (out == Succeeded && (id == "" || Saw(ws, acts, i, t, Unchanged(id)) || Saw(ws, acts, i, t, Committed)))
      || (out == Canceled && id != "" && Saw(ws, acts, i, t, GaveUp))
    case _ => false
  }

  /** What call `t`, about model `id`, knows, by the kind of call it set out as. */
  ghost predicate Knows(cfg: Config, ws: seq<World>, acts: seq<Act>, i: nat, t: nat, start: Pc)
    requires i <= |acts| < |ws| && t < |ws[i].threads|
  {
    match start
    case EnsLookup(m) => EnsureKnows(cfg, ws, acts, i, t, Wanted(cfg, m))
    case ReqLookup(m) => RequestKnows(ws, acts, i, t, m)
    case UnlMark(m) => UnloadKnows(ws, acts, i, t, m)
    case ModLookup(m) => EnsureModelKnows(ws, acts, i, t, m)
    case _ => true
  }

  // ---- one step ----

  /** Where one step of an ensure can lead, as far as its outcome goes. */
  predicate EnsureEdge(cfg: Config, w: World, pc: Pc, c: Choice, pd: Pc) {
    match pc
    case EnsLookup(m) =>
      var id := Wanted(cfg, m);
      if id == "" then pd == Finished(Succeeded) else pd == if ReadyIn(w, id) then EnsTouch(id) else EnsResolve(id)
    case EnsTouch(m) => pd == if ReadyIn(w, m) then Finished(Succeeded) else EnsResolve(m)
    case EnsResolve(m) =>
      if m !in cfg.registry then pd == Finished(NotFound)
      else if cfg.budget > 0 then pd.EvCheck? && pd.m == m else pd.EnsInsert? && pd.m == m
    case EnsInsert(m, _) => pd.EnsWarm? && pd.m == m
    case EnsWarm(_, _, _, _, _) => pd.Done? && ((pd.out == Succeeded && c.Go?) || (pd.out == Canceled && c.Cancel?))
    case EvReadGen(m, _, todo, best) =>
      || (Evicting(pd) && pd.m == m)
      || (pd == Finished(OverBudget) && todo == {} && best == None)
    case _ => Evicting(pc) && (Evicting(pd) || pd.EnsInsert?) && pd.m == pc.m
  }

  predicate Evicting(pc: Pc) { pc.EvCheck? || pc.EvReadGen? || pc.EvReadQueue? || pc.EvDeadline? }

  lemma EnsureEdges(cfg: Config, w: World, a: Act, v: World)
    requires Shape(w) && a.t < |w.threads| && Next(cfg, w, a.t, a.c) == Some(v) && KindOf(w.threads[a.t]) == Some(Load)
    ensures a.t < |v.threads| && EnsureEdge(cfg, w, w.threads[a.t], a.c, v.threads[a.t])
  {
    assert PcShape(w, a.t);
  }

  /** Where one step of a request can lead. */
  predicate RequestEdge(w: World, pc: Pc, c: Choice, pd: Pc) {
    match pc
    case ReqLookup(m) => pd == if m in w.table then ReqFetched(w.table[m]) else Finished(NotFound)
    case ReqFetched(o) => pd == if DrainingIn(w, o) then Finished(TooBusy) else ReqPassed(o)
    case ReqPassed(o) =>
      || pd == ReqQueued(o)
      || (pd == Finished(Canceled) && c.Cancel?) || (pd == Finished(TooBusy) && c.Timeout?)
    case ReqQueued(o) =>
      || pd == ReqGen(o)
      || (pd == ReqRollback(o, Canceled) && c.Cancel?) || (pd == ReqRollback(o, TooBusy) && c.Timeout?)
    case ReqRollback(_, out) => pd == Finished(out)
    case ReqGen(o) => pd == ReqRun(o)
    case ReqRun(o) => pd == ReqRelease(o)
    case ReqRelease(_) => pd == Finished(Succeeded)
    case _ => false
  }

  lemma RequestEdges(cfg: Config, w: World, a: Act, v: World)
    requires Shape(w) && a.t < |w.threads| && Next(cfg, w, a.t, a.c) == Some(v) && KindOf(w.threads[a.t]) == Some(Request)
    ensures a.t < |v.threads| && RequestEdge(w, w.threads[a.t], a.c, v.threads[a.t])
  {
    assert PcShape(w, a.t);
  }

  /** Where one step of an Unload or an EnsureModel can lead. */
  predicate OtherEdge(w: World, pc: Pc, c: Choice, pd: Pc) {
    match pc
    case UnlMark(m) => pd == if m == "" || m !in w.table then Finished(NotFound) else UnlReadQueue(m, w.table[m])
    case UnlReadQueue(m, o) => pd.UnlReadGen? && pd.m == m && pd.o == o
    case UnlReadGen(m, o, _) => (pd.UnlRemove? || pd.UnlReadQueue?) && pd.m == m && pd.o == o
    case UnlRemove(_, _, _) => pd.Done? && pd.out == Succeeded
    case ModLookup(m) => pd == if m == "" || w.cur == Some(m) then Finished(Succeeded) else ModStart(m)
    case ModStart(m) => pd == ModWarm(m)
    case ModWarm(_) => (pd == Finished(Succeeded) && c.Go?) || (pd == Finished(Canceled) && c.Cancel?)
    case _ => false
  }

  lemma OtherEdges(cfg: Config, w: World, a: Act, v: World)
    requires Shape(w) && a.t < |w.threads| && Next(cfg, w, a.t, a.c) == Some(v)
    requires var k := KindOf(w.threads[a.t]); k == Some(Unload) || k == Some(Legacy)
    ensures a.t < |v.threads| && OtherEdge(w, w.threads[a.t], a.c, v.threads[a.t])
  {
    assert PcShape(w, a.t);
  }

  lemma DoneIsOver(cfg: Config, w: World, t: nat, c: Choice)
    requires Shape(w) && t < |w.threads| && w.threads[t].Done?
    ensures Next(cfg, w, t, c) == None
  {
  }

  /** What a step of an ensure adds to what its call has seen. */
  lemma EnsureSees(ws: seq<World>, acts: seq<Act>, i: nat, t: nat, id: ModelId)
    requires 0 < i <= |acts| < |ws| && acts[i - 1].t == t < |ws[i - 1].threads|
    ensures var w, pc, c := ws[i - 1], ws[i - 1].threads[t], acts[i - 1].c;
            && ((pc.EnsLookup? || pc.EnsTouch?) && !ReadyIn(w, id) ==> Saw(ws, acts, i, t, Missing(id)))
            && (pc.EnsTouch? && ReadyIn(w, id) ==> Saw(ws, acts, i, t, Hit(id)))
            && ((pc.EnsWarm? || pc.ModWarm?) && c.Go? ==> Saw(ws, acts, i, t, Committed))
            && ((pc.EnsWarm? || pc.ModWarm?) && c.Cancel? ==> Saw(ws, acts, i, t, GaveUp))
            && (pc.EvReadGen? && pc.todo == {} && pc.best.None? ==> Saw(ws, acts, i, t, FoundNone))
  {
    JustSaw(ws, acts, i, t, Missing(id));
    JustSaw(ws, acts, i, t, Hit(id));
    JustSaw(ws, acts, i, t, Committed);
    JustSaw(ws, acts, i, t, GaveUp);
    JustSaw(ws, acts, i, t, FoundNone);
    hide Saw;
  }

  lemma EnsureMoveKnows(cfg: Config, ws: seq<World>, acts: seq<Act>, i: nat, t: nat, id: ModelId)
    requires JustMoved(cfg, ws, acts, i, t) && EnsureKnows(cfg, ws, acts, i - 1, t, id)
    ensures EnsureKnows(cfg, ws, acts, i, t, id)
  {
    hide Saw, Next, Shape;
    var w, pc := ws[i - 1], ws[i - 1].threads[t];
    if pc.Done? {
      DoneIsOver(cfg, w, t, acts[i - 1].c);
    } else {
      StillSaw(ws, acts, i, t);
      EnsureSees(ws, acts, i, t, id);
      EnsureEdges(cfg, w, acts[i - 1], ws[i]);
    }
  }

  /** What a step of a request adds. */
  lemma RequestSees(ws: seq<World>, acts: seq<Act>, i: nat, t: nat, id: ModelId)
    requires 0 < i <= |acts| < |ws| && acts[i - 1].t == t < |ws[i - 1].threads|
    ensures var w, pc, c := ws[i - 1], ws[i - 1].threads[t], acts[i - 1].c;
            && (pc.ReqLookup? ==> Saw(ws, acts, i, t, if id in w.table then Fetched(id, w.table[id]) else Absent(id)))
            && (pc.ReqFetched? ==> Saw(ws, acts, i, t, if DrainingIn(w, pc.o) then TurnedAway(pc.o) else Passed(pc.o)))
            && ((pc.ReqPassed? || pc.ReqQueued?) && c.Timeout? ==> Saw(ws, acts, i, t, TimedOut))
            && ((pc.ReqPassed? || pc.ReqQueued?) && c.Cancel? ==> Saw(ws, acts, i, t, Interrupted))
            && (pc.ReqRun? ==> Saw(ws, acts, i, t, Ran(pc.o)))
  {
    var w, pc := ws[i - 1], ws[i - 1].threads[t];
    JustSaw(ws, acts, i, t, if id in w.table then Fetched(id, w.table[id]) else Absent(id));
    JustSaw(ws, acts, i, t, TimedOut);
    JustSaw(ws, acts, i, t, Interrupted);
    if pc.ReqFetched? {
      JustSaw(ws, acts, i, t, if DrainingIn(w, pc.o) then TurnedAway(pc.o) else Passed(pc.o));
    } else if pc.ReqRun? {
      JustSaw(ws, acts, i, t, Ran(pc.o));
    }
    hide Saw;
  }

  lemma RequestMoveKnows(cfg: Config, ws: seq<World>, acts: seq<Act>, i: nat, t: nat, id: ModelId)
    requires JustMoved(cfg, ws, acts, i, t) && RequestKnows(ws, acts, i - 1, t, id)
    ensures RequestKnows(ws, acts, i, t, id)
  {
    hide Saw, Next, Shape;
    var w, pc := ws[i - 1], ws[i - 1].threads[t];
    if pc.Done? {
      DoneIsOver(cfg, w, t, acts[i - 1].c);
    } else {
      StillSaw(ws, acts, i, t);
      RequestSees(ws, acts, i, t, id);
      RequestEdges(cfg, w, acts[i - 1], ws[i]);
      if pc.ReqFetched? {
        assert Saw(ws, acts, i, t, Fetched(id, pc.o));
      } else if pc.ReqRelease? {
        assert Admitted(ws, acts, i, t, id, pc.o) && Saw(ws, acts, i, t, Ran(pc.o));
      }
    }
  }

  /** What a step of an Unload or an EnsureModel adds. */
  lemma OthersSee(ws: seq<World>, acts: seq<Act>, i: nat, t: nat, id: ModelId)
    requires 0 < i <= |acts| < |ws| && acts[i - 1].t == t < |ws[i - 1].threads|
    ensures var w, pc, c := ws[i - 1], ws[i - 1].threads[t], acts[i - 1].c;
            && (pc == UnlMark(id) ==> Saw(ws, acts, i, t, if id in w.table then Marked(id, w.table[id]) else Absent(id)))
            && (pc.UnlRemove? && pc.m == id ==> Saw(ws, acts, i, t, Removed(id)))
            && (pc.ModLookup? && w.cur == Some(id) ==> Saw(ws, acts, i, t, Unchanged(id)))
  {
    var w := ws[i - 1];
    JustSaw(ws, acts, i, t, if id in w.table then Marked(id, w.table[id]) else Absent(id));
    JustSaw(ws, acts, i, t, Removed(id));
    JustSaw(ws, acts, i, t, Unchanged(id));
    hide Saw;
  }

  lemma UnloadMoveKnows(cfg: Config, ws: seq<World>, acts: seq<Act>, i: nat, t: nat, id: ModelId)
    requires JustMoved(cfg, ws, acts, i, t) && UnloadKnows(ws, acts, i - 1, t, id)
    ensures UnloadKnows(ws, acts, i, t, id)
  {
    hide Saw, Next, Shape;
    var w, pc := ws[i - 1], ws[i - 1].threads[t];
    if pc.Done? {
      DoneIsOver(cfg, w, t, acts[i - 1].c);
    } else {
      StillSaw(ws, acts, i, t);
      OthersSee(ws, acts, i, t, id);
      OtherEdges(cfg, w, acts[i - 1], ws[i]);
      if pc.UnlRemove? {
        assert Saw(ws, acts, i, t, Marked(id, pc.o));
      }
    }
  }

  lemma EnsureModelMoveKnows(cfg: Config, ws: seq<World>, acts: seq<Act>, i: nat, t: nat, id: ModelId)
    requires JustMoved(cfg, ws, acts, i, t) && EnsureModelKnows(ws, acts, i - 1, t, id)
    ensures EnsureModelKnows(ws, acts, i, t, id)
  {
    hide Saw, Next, Shape;
    var w, pc := ws[i - 1], ws[i - 1].threads[t];
    if pc.Done? {
      DoneIsOver(cfg, w, t, acts[i - 1].c);
    } else {
      StillSaw(ws, acts, i, t);
      OthersSee(ws, acts, i, t, id);
      EnsureSees(ws, acts, i, t, id);
      OtherEdges(cfg, w, acts[i - 1], ws[i]);
    }
  }

  /** While others move, a call forgets nothing. */
  lemma OthersMove(cfg: Config, ws: seq<World>, acts: seq<Act>, i: nat, t: nat, start: Pc)
    requires 0 < i <= |acts| < |ws| && t < |ws[i - 1].threads| && t < |ws[i].threads|
    requires ws[i].threads[t] == ws[i - 1].threads[t] && Knows(cfg, ws, acts, i - 1, t, start)
    ensures Knows(cfg, ws, acts, i, t, start)
  {
    StillSaw(ws, acts, i, t);
    hide Saw;
    assert forall id, o :: Admitted(ws, acts, i - 1, t, id, o) ==> Admitted(ws, acts, i, t, id, o);
  }

  // ---- whole runs ----

  /** Where a call stands, and with what outcome it has returned, tells what it saw and did, on every run. An
      ensure evicts or loads only for a registered model that it saw not ready, and evicts only under a
      budget. It succeeds with its model found ready or committed by itself, and otherwise reports an
      unknown model, a scan without a candidate, or a cancelled warmup. A request succeeds only by generating
      on the object its model was mapped to, seen not draining; it is too busy only if that object was
      draining or a timer fired. */
  lemma {:induction false} OutcomeTells(cfg: Config, ws: seq<World>, acts: seq<Act>, i: nat, t: nat)
    requires IsRun(cfg, ws, acts) && i < |ws| && t < |ws[0].threads|
    ensures t < |ws[i].threads| && Knows(cfg, ws, acts, i, t, ws[0].threads[t])
  {
    hide EnsureKnows, RequestKnows, UnloadKnows, EnsureModelKnows, Next;
    RunShape(cfg, ws, acts, i);
    var start := ws[0].threads[t];
    if i == 0 {
      AtStart(cfg, ws, acts, t);
    } else {
      OutcomeTells(cfg, ws, acts, i - 1, t);
      RunShape(cfg, ws, acts, i - 1);
      assert StepAt(cfg, ws, acts, i - 1);
      if acts[i - 1].t == t {
        match start
        case EnsLookup(m) => EnsureMoveKnows(cfg, ws, acts, i, t, Wanted(cfg, m));
        case ReqLookup(m) => RequestMoveKnows(cfg, ws, acts, i, t, m);
        case UnlMark(m) => UnloadMoveKnows(cfg, ws, acts, i, t, m);
        case ModLookup(m) => EnsureModelMoveKnows(cfg, ws, acts, i, t, m);
        case _ =>
      } else {
        NextKeepsShape(cfg, ws[i - 1], acts[i - 1].t, acts[i - 1].c);
        OthersMove(cfg, ws, acts, i, t, start);
      }
    }
  }

  lemma AtStart(cfg: Config, ws: seq<World>, acts: seq<Act>, t: nat)
    requires |acts| < |ws| && t < |ws[0].threads|
    ensures Knows(cfg, ws, acts, 0, t, ws[0].threads[t])
  {
    hide Saw;
  }

  /** What one object holds apart from its stamp. */
  predicate SameButStamp(x: Instance, y: Instance) { y == x.(lastUsed := y.lastUsed) }

  predicate SameButStamps(w: World, v: World) {
    && v.table == w.table && v.used == w.used && v.mstate == w.mstate && v.merr == w.merr && v.cur == w.cur
    && |v.objs| == |w.objs| && forall o :: 0 <= o < |w.objs| ==> SameButStamp(w.objs[o], v.objs[o])
  }

  /** An ensure that has only ever found its model ready changes nothing but that instance's stamp: it neither
      evicts nor loads nor touches counter, state or current model. */
  lemma HitChangesNothingElse(cfg: Config, ws: seq<World>, acts: seq<Act>, i: nat, t: nat, m: ModelId)
    requires IsRun(cfg, ws, acts) && i < |acts| && acts[i].t == t < |ws[0].threads| && ws[0].threads[t] == EnsLookup(m)
    requires !Saw(ws, acts, i + 1, t, Missing(Wanted(cfg, m)))
    ensures SameButStamps(ws[i], ws[i + 1])
  {
    OutcomeTells(cfg, ws, acts, i, t);
    StillSaw(ws, acts, i + 1, t);
    assert StepAt(cfg, ws, acts, i);
    LookingOn(cfg, ws, acts, i, t, Wanted(cfg, m));
    LookChangesNothing(cfg, ws[i], acts[i], ws[i + 1]);
  }

  lemma LookingOn(cfg: Config, ws: seq<World>, acts: seq<Act>, i: nat, t: nat, id: ModelId)
    requires i <= |acts| < |ws| && t < |ws[i].threads| && EnsureKnows(cfg, ws, acts, i, t, id)
    requires !Saw(ws, acts, i, t, Missing(id))
    ensures var pc := ws[i].threads[t]; pc.EnsLookup? || pc.EnsTouch? || pc.Done?
  {
    hide Saw;
  }

  lemma LookChangesNothing(cfg: Config, w: World, a: Act, v: World)
    requires Shape(w) && a.t < |w.threads| && Next(cfg, w, a.t, a.c) == Some(v)
    requires var pc := w.threads[a.t]; pc.EnsLookup? || pc.EnsTouch? || pc.Done?
    ensures SameButStamps(w, v)
  {
    assert PcShape(w, a.t);
  }

  // ---- ways out ----

  /** Eviction is over: the load fits, or the deadline has passed. */
  predicate WayOut(cfg: Config, w: World, pc: Pc, c: Choice) {
    (pc.EvCheck? && w.used + pc.req + cfg.margin <= cfg.budget) || (pc.EvDeadline? && c.Late?)
  }

  lemma LeavesEvictionIff(cfg: Config, w: World, a: Act, v: World)
    requires Shape(w) && a.t < |w.threads| && Next(cfg, w, a.t, a.c) == Some(v) && Evicting(w.threads[a.t])
    ensures a.t < |v.threads|
    ensures v.threads[a.t].EnsInsert? <==> WayOut(cfg, w, w.threads[a.t], a.c)
    ensures v.threads[a.t].EnsInsert? ==> v.threads[a.t].m == w.threads[a.t].m && v.threads[a.t].req == w.threads[a.t].req
  {
    assert PcShape(w, a.t);
  }

  lemma InsertComesFrom(cfg: Config, w: World, a: Act, v: World)
    requires Shape(w) && a.t < |w.threads| && Next(cfg, w, a.t, a.c) == Some(v) && cfg.budget > 0
    requires a.t < |v.threads| && v.threads[a.t].EnsInsert?
    ensures Evicting(w.threads[a.t])
  {
    assert PcShape(w, a.t);
  }

  /** Under a budget a load goes ahead only after a check at which it fitted, or past the deadline, which needs
      no check. */
  lemma {:induction false} LoadHadRoomOrWasLate(cfg: Config, ws: seq<World>, acts: seq<Act>, i: nat, t: nat)
    returns (x: nat)
    requires IsRun(cfg, ws, acts) && cfg.budget > 0 && i < |ws| && t < |ws[i].threads| && ws[i].threads[t].EnsInsert?
    ensures x < i && acts[x].t == t < |ws[x].threads|
    ensures var pc := ws[x].threads[t];
            WayOut(cfg, ws[x], pc, acts[x].c) && pc.m == ws[i].threads[t].m && pc.req == ws[i].threads[t].req
  {
    hide WayOut, Shape, Next;
    assert i > 0;
    assert StepAt(cfg, ws, acts, i - 1);
    var w, a, v := ws[i - 1], acts[i - 1], ws[i];
    NextKeepsShape(cfg, w, a.t, a.c);
    if a.t == t {
      x := i - 1;
      InsertComesFrom(cfg, w, a, v);
      LeavesEvictionIff(cfg, w, a, v);
    } else {
      x := LoadHadRoomOrWasLate(cfg, ws, acts, i - 1, t);
    }
  }

  /** Unload leaves its loop exactly on seeing both lengths at zero or past its deadline, and knows which. */
  lemma LeavesDrainIff(cfg: Config, w: World, a: Act, v: World)
    requires Shape(w) && a.t < |w.threads| && Next(cfg, w, a.t, a.c) == Some(v) && w.threads[a.t].UnlReadGen?
    ensures a.t < |v.threads| && PcShape(w, a.t)
    ensures var pc, pd := w.threads[a.t], v.threads[a.t];
            var empty := pc.q == 0 && w.objs[pc.o].g == 0;
            && (pd == UnlRemove(pc.m, pc.o, true) <==> empty)
            && (pd == UnlRemove(pc.m, pc.o, false) <==> !empty && a.c.Late?)
            && (pd == UnlReadQueue(pc.m, pc.o) <==> !empty && !a.c.Late?)
  {
    assert PcShape(w, a.t);
  }

  /** Nobody has to wait for ever: a queued request can time out or be cancelled at any moment, a warmup can be
      cancelled and both deadlines can pass whenever their caller can move at all. */
  lemma CanAlwaysLeave(cfg: Config, w: World, t: nat, text: string)
    requires Shape(w) && t < |w.threads| && text != ""
    ensures var pc := w.threads[t];
            && (pc.ReqPassed? || pc.ReqQueued? ==> Next(cfg, w, t, Timeout).Some? && Next(cfg, w, t, Cancel(text)).Some?)
            && (pc.EnsWarm? || pc.ModWarm? ==> (Next(cfg, w, t, Cancel(text)).Some? <==> Next(cfg, w, t, Go).Some?))
            && (pc.EvDeadline? ==> Next(cfg, w, t, Late).Some?)
            && (pc.UnlReadGen? ==> Next(cfg, w, t, Go).Some? && (Next(cfg, w, t, Late).Some? || (pc.q == 0 && pc.o < |w.objs| && w.objs[pc.o].g == 0)))
  {
    assert PcShape(w, t);
  }
}
