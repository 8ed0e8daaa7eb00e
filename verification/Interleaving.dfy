/** The manager as a transition system: any number of calls of EnsureInstance, EnsureModel,
    Unload and beginGeneration, interleaved at the granularity of `m.mu` critical sections and of
    single channel operations. Channel operations do not take `m.mu`, so they also interleave with
    the eviction scan, which is why that scan is spelled out read by read while it holds the lock. */
module Interleaving {
  import opened Types

  /** A heap object `Instance`. `q` and `g` are `len(queueCh)` and `len(genCh)`. */
  datatype Instance = Instance(id: ModelId, st: State, lastUsed: nat, est: nat, q: nat, g: nat)

  /** Where a call stands. One constructor for each point at which other calls can intervene. */
  datatype Pc =
    // EnsureInstance
    | EnsLookup(m: ModelId)
    | EnsTouch(m: ModelId)
    | EnsResolve(m: ModelId)
    | EnsInsert(m: ModelId, req: nat)
    | EnsWarm(m: ModelId, req: nat, o: nat, added: bool, drift: int)
    // evictUntilFits; the two scanning points hold m.mu
    | EvCheck(m: ModelId, req: nat)
    | EvReadGen(m: ModelId, req: nat, todo: set<ModelId>, best: Option<nat>)
    | EvReadQueue(m: ModelId, req: nat, todo: set<ModelId>, best: Option<nat>, k: ModelId)
    | EvDeadline(m: ModelId, req: nat)
    // beginGeneration and its two closures
    | ReqLookup(m: ModelId)
    | ReqFetched(o: nat)
    | ReqPassed(o: nat)
    | ReqQueued(o: nat)
    | ReqRollback(o: nat, out: Outcome)
    | ReqGen(o: nat)
    | ReqRun(o: nat)
    | ReqRelease(o: nat)
    // Unload
    | UnlMark(m: ModelId)
    | UnlReadQueue(m: ModelId, o: nat)
    | UnlReadGen(m: ModelId, o: nat, q: nat)
    | UnlRemove(m: ModelId, o: nat, drained: bool)
    // EnsureModel
    | ModLookup(m: ModelId)
    | ModStart(m: ModelId)
    | ModWarm(m: ModelId)
    // returned; the numbers record what this call did to the accounting
    | Done(out: Outcome, abandoned: nat, drift: int, clamped: nat)

  /** What the environment decides at a step. */
  datatype Choice =
    | Go
    | Cancel(text: string)   // the context ends (or the runtime fails to start) with this error text
    | Timeout                // a queue or generation timer fires
    | Late                   // an eviction or drain deadline has passed
    | Size(mb: nat)          // the file-size estimate
    | Scan(k: ModelId)       // map iteration yields this key next

  datatype World = World(
    table: map<ModelId, nat>,     // m.instances: model id to object
    objs: seq<Instance>,          // every Instance ever allocated
    used: int,                    // m.usedEstMB
    mstate: State,
    merr: string,
    cur: Option<ModelId>,
    now: nat,
    lock: Option<nat>,            // the call scanning under m.mu
    threads: seq<Pc>)

  predicate InTable(w: World, o: nat) {
    o < |w.objs| && w.objs[o].id in w.table && w.table[w.objs[o].id] == o
  }

  predicate Scanning(pc: Pc) { pc.EvReadGen? || pc.EvReadQueue? }

  /** References held by a call are allocated; a scanning call owns the lock and scans live keys. */
  predicate PcShape(w: World, t: nat)
    requires t < |w.threads|
  {
    match w.threads[t]
    case EnsWarm(_, _, o, _, _) => o < |w.objs|
    case EvReadGen(_, _, todo, best) =>
      w.lock == Some(t) && todo <= w.table.Keys && (best.Some? ==> InTable(w, best.value))
    case EvReadQueue(_, _, todo, best, k) =>
      w.lock == Some(t) && todo <= w.table.Keys && k in w.table && (best.Some? ==> InTable(w, best.value))
    case ReqFetched(o) => o < |w.objs|
    case ReqPassed(o) => o < |w.objs|
    case ReqQueued(o) => o < |w.objs|
    case ReqRollback(o, _) => o < |w.objs|
    case ReqGen(o) => o < |w.objs|
    case ReqRun(o) => o < |w.objs|
    case ReqRelease(o) => o < |w.objs|
    case UnlReadQueue(_, o) => o < |w.objs|
    case UnlReadGen(_, o, _) => o < |w.objs|
    case UnlRemove(_, o, _) => o < |w.objs|
    case _ => true
  }

  predicate Shape(w: World) {
    && (forall k :: k in w.table ==> w.table[k] < |w.objs| && w.objs[w.table[k]].id == k)
    && (forall t :: 0 <= t < |w.threads| ==> PcShape(w, t))
    && (w.lock.Some? ==> w.lock.value < |w.threads| && Scanning(w.threads[w.lock.value]))
  }

  predicate IsReady(w: World, m: ModelId)
    requires Shape(w)
  {
    m in w.table && w.objs[w.table[m]].st == Ready
  }

  function Finished(out: Outcome): Pc { Done(out, 0, 0, 0) }

  function Put(w: World, t: nat, pc: Pc): World
    requires t < |w.threads|
  {
    w.(threads := w.threads[t := pc])
  }

  /** Overwrite one object, reading the clock. */
  function Stamp(w: World, o: nat, x: Instance): World
    requires o < |w.objs|
  {
    w.(objs := w.objs[o := x.(lastUsed := w.now)], now := w.now + 1)
  }

  function SetSlots(w: World, o: nat, q: nat, g: nat): World
    requires o < |w.objs|
  {
    w.(objs := w.objs[o := w.objs[o].(q := q, g := g)])
  }

  function Fail(w: World, text: string): World { w.(mstate := Error, merr := text) }

  function EnsureStep(cfg: Config, w: World, t: nat, c: Choice): Option<World>
    requires Shape(w) && t < |w.threads|
  {
    assert PcShape(w, t);
    var free := w.lock.None?;
    match w.threads[t]
    case EnsLookup(m) =>
      var id := if m == "" then cfg.fallback else m;
      if !free || !c.Go? then None
      else if id == "" then Some(Put(w, t, Finished(Succeeded)))
      else Some(Put(w, t, if IsReady(w, id) then EnsTouch(id) else EnsResolve(id)))
    case EnsTouch(m) =>
      if !free || !c.Go? then None
      else if IsReady(w, m) then
        Some(Put(Stamp(w, w.table[m], w.objs[w.table[m]]), t, Finished(Succeeded)))
      else Some(Put(w, t, EnsResolve(m)))
    case EnsResolve(m) =>
      if m !in cfg.registry then
        if c.Go? then Some(Put(w, t, Finished(NotFound))) else None
      else if !c.Size? || c.mb < 1 then None
      else Some(Put(w, t, if cfg.budget > 0 then EvCheck(m, c.mb) else EnsInsert(m, c.mb)))
    case EnsInsert(m, req) =>
      if !free || !c.Go? then None
      else
        var v := w.(mstate := Loading, merr := "");
        if m in w.table then
          var o := w.table[m];
          var x := w.objs[o];
          Some(Put(Stamp(v, o, x.(st := Loading, est := req)), t, EnsWarm(m, req, o, false, req - x.est)))
        else
          var o := |w.objs|;
          var x := Instance(m, Loading, w.now, req, 0, 0);
          Some(Put(v.(table := w.table[m := o], objs := w.objs + [x], now := w.now + 1), t,
                   EnsWarm(m, req, o, true, 0)))
    case EnsWarm(m, req, o, added, drift) =>
      if !free then None
      else if c.Cancel? && c.text != "" then
        Some(Put(Fail(w, c.text), t, Done(Canceled, if added then req else 0, drift, 0)))
      else if !c.Go? then None
      else
        var v := w.(used := if added then w.used + req else w.used, mstate := Ready, merr := "", cur := Some(m));
        Some(Put(Stamp(v, o, w.objs[o].(st := Ready)), t, Done(Succeeded, 0, drift, 0)))
    case _ => None
  }

  predicate Fits(cfg: Config, w: World, req: nat) { w.used + req + cfg.margin <= cfg.budget }

  function EvictStep(cfg: Config, w: World, t: nat, c: Choice): Option<World>
    requires Shape(w) && t < |w.threads|
  {
    assert PcShape(w, t);
    match w.threads[t]
    case EvCheck(m, req) =>
      if w.lock.Some? || !c.Go? then None
      else if Fits(cfg, w, req) then Some(Put(w, t, EnsInsert(m, req)))
      else Some(Put(w.(lock := Some(t)), t, EvReadGen(m, req, w.table.Keys, None)))
    case EvReadGen(m, req, todo, best) =>
      if todo != {} then
        if !c.Scan? || c.k !in todo then None
        else if w.objs[w.table[c.k]].g > 0 then Some(Put(w, t, EvReadGen(m, req, todo - {c.k}, best)))
        else Some(Put(w, t, EvReadQueue(m, req, todo - {c.k}, best, c.k)))
      else if !c.Go? then None
      else if best.None? then Some(Put(w.(lock := None), t, Finished(OverBudget)))
      else
        var victim := w.objs[best.value];
        Some(Put(w.(table := w.table - {victim.id}, used := w.used - victim.est, lock := None), t, EvDeadline(m, req)))
    case EvReadQueue(m, req, todo, best, k) =>
      var o := w.table[k];
      if !c.Go? then None
      else if w.objs[o].q > 0 then Some(Put(w, t, EvReadGen(m, req, todo, best)))
      else if best.None? || w.objs[o].lastUsed < w.objs[best.value].lastUsed then
        Some(Put(w, t, EvReadGen(m, req, todo, Some(o))))
      else Some(Put(w, t, EvReadGen(m, req, todo, best)))
    case EvDeadline(m, req) =>
      if c.Go? then Some(Put(w, t, EvCheck(m, req)))
      else if c.Late? then Some(Put(w, t, EnsInsert(m, req)))
      else None
    case _ => None
  }

  function RequestStep(cfg: Config, w: World, t: nat, c: Choice): Option<World>
    requires Shape(w) && t < |w.threads|
  {
    assert PcShape(w, t);
    match w.threads[t]
    case ReqLookup(m) =>
      if w.lock.Some? || !c.Go? then None
      else Some(Put(w, t, if m in w.table then ReqFetched(w.table[m]) else Finished(NotFound)))
    case ReqFetched(o) =>
      if !c.Go? then None
      else Some(Put(w, t, if w.objs[o].st == Draining then Finished(TooBusy) else ReqPassed(o)))
    case ReqPassed(o) =>
      if c.Cancel? then Some(Put(w, t, Finished(Canceled)))
      else if c.Timeout? then Some(Put(w, t, Finished(TooBusy)))
      else if c.Go? && w.objs[o].q < cfg.depth then
        Some(Put(SetSlots(w, o, w.objs[o].q + 1, w.objs[o].g), t, ReqQueued(o)))
      else None
    case ReqQueued(o) =>
      if c.Cancel? then Some(Put(w, t, ReqRollback(o, Canceled)))
      else if c.Timeout? then Some(Put(w, t, ReqRollback(o, TooBusy)))
      else if c.Go? && w.objs[o].g < 1 then
        Some(Put(SetSlots(w, o, w.objs[o].q, w.objs[o].g + 1), t, ReqGen(o)))
      else None
    case ReqRollback(o, out) =>
      if !c.Go? || w.objs[o].q == 0 then None
      else Some(Put(SetSlots(w, o, w.objs[o].q - 1, w.objs[o].g), t, Finished(out)))
    case ReqGen(o) =>
      if w.lock.Some? || !c.Go? then None
      else Some(Put(Stamp(w, o, w.objs[o]), t, ReqRun(o)))
    case ReqRun(o) =>
      if !c.Go? || w.objs[o].g == 0 then None
      else Some(Put(SetSlots(w, o, w.objs[o].q, w.objs[o].g - 1), t, ReqRelease(o)))
    case ReqRelease(o) =>
      if !c.Go? || w.objs[o].q == 0 then None
      else Some(Put(SetSlots(w, o, w.objs[o].q - 1, w.objs[o].g), t, Finished(Succeeded)))
    case _ => None
  }

  function UnloadStep(w: World, t: nat, c: Choice): Option<World>
    requires Shape(w) && t < |w.threads|
  {
    assert PcShape(w, t);
    match w.threads[t]
    case UnlMark(m) =>
      if w.lock.Some? || !c.Go? then None
      else if m == "" || m !in w.table then Some(Put(w, t, Finished(NotFound)))
      else
        var o := w.table[m];
        Some(Put(w.(objs := w.objs[o := w.objs[o].(st := Draining)]), t, UnlReadQueue(m, o)))
    case UnlReadQueue(m, o) =>
      if w.lock.Some? || !c.Go? then None
      else Some(Put(w, t, UnlReadGen(m, o, w.objs[o].q)))
    case UnlReadGen(m, o, q) =>
      if q == 0 && w.objs[o].g == 0 then
        if c.Go? then Some(Put(w, t, UnlRemove(m, o, true))) else None
      else if c.Late? then Some(Put(w, t, UnlRemove(m, o, false)))
      else if c.Go? then Some(Put(w, t, UnlReadQueue(m, o)))
      else None
    case UnlRemove(m, _, _) =>
      if w.lock.Some? || !c.Go? then None
      else
        var left := if m in w.table then w.used - w.objs[w.table[m]].est else w.used;
        var clamped := if m in w.table && left < 0 then -left else 0;
        Some(Put(w.(table := w.table - {m}, used := left + clamped, cur := if w.cur == Some(m) then None else w.cur),
                 t, Done(Succeeded, 0, 0, clamped)))
    case _ => None
  }

  function EnsureModelStep(w: World, t: nat, c: Choice): Option<World>
    requires Shape(w) && t < |w.threads|
  {
    if w.lock.Some? then None else
    match w.threads[t]
    case ModLookup(m) =>
      if !c.Go? then None
      else Some(Put(w, t, if m == "" || w.cur == Some(m) then Finished(Succeeded) else ModStart(m)))
    case ModStart(m) =>
      if !c.Go? then None else Some(Put(w.(mstate := Loading, merr := ""), t, ModWarm(m)))
    case ModWarm(m) =>
      if c.Cancel? && c.text != "" then Some(Put(Fail(w, c.text), t, Finished(Canceled)))
      else if c.Go? then Some(Put(w.(cur := Some(m), mstate := Ready, merr := ""), t, Finished(Succeeded)))
      else None
    case _ => None
  }

  /** One step of call `t` under choice `c`; None when it cannot take that step now. */
  function Next(cfg: Config, w: World, t: nat, c: Choice): Option<World>
    requires Shape(w) && t < |w.threads|
  {
    match w.threads[t]
    case EnsLookup(_) => EnsureStep(cfg, w, t, c)
    case EnsTouch(_) => EnsureStep(cfg, w, t, c)
    case EnsResolve(_) => EnsureStep(cfg, w, t, c)
    case EnsInsert(_, _) => EnsureStep(cfg, w, t, c)
    case EnsWarm(_, _, _, _, _) => EnsureStep(cfg, w, t, c)
    case EvCheck(_, _) => EvictStep(cfg, w, t, c)
    case EvReadGen(_, _, _, _) => EvictStep(cfg, w, t, c)
    case EvReadQueue(_, _, _, _, _) => EvictStep(cfg, w, t, c)
    case EvDeadline(_, _) => EvictStep(cfg, w, t, c)
    case UnlMark(_) => UnloadStep(w, t, c)
    case UnlReadQueue(_, _) => UnloadStep(w, t, c)
    case UnlReadGen(_, _, _) => UnloadStep(w, t, c)
    case UnlRemove(_, _, _) => UnloadStep(w, t, c)
    case ModLookup(_) => EnsureModelStep(w, t, c)
    case ModStart(_) => EnsureModelStep(w, t, c)
    case ModWarm(_) => EnsureModelStep(w, t, c)
    case Done(_, _, _, _) => None
    case _ => RequestStep(cfg, w, t, c)
  }

  /** Of the calls, only `t` moved. */
  predicate OnlyMoves(w: World, v: World, t: nat) {
    && |v.threads| == |w.threads|
    && forall i :: 0 <= i < |w.threads| && i != t ==> v.threads[i] == w.threads[i]
  }

  datatype Kind = Load | Request | Unload | Legacy

  /** Which of the four operations a call belongs to; None once it has returned. */
  function KindOf(pc: Pc): Option<Kind> {
    if pc.Done? then None
    else if pc.UnlMark? || pc.UnlReadQueue? || pc.UnlReadGen? || pc.UnlRemove? then Some(Unload)
    else if pc.ModLookup? || pc.ModStart? || pc.ModWarm? then Some(Legacy)
    else if pc.EnsLookup? || pc.EnsTouch? || pc.EnsResolve? || pc.EnsInsert? || pc.EnsWarm?
         || pc.EvCheck? || pc.EvReadGen? || pc.EvReadQueue? || pc.EvDeadline? then Some(Load)
    else Some(Request)
  }

  /** A call stays within its operation until it returns; only a removal ever clamps, and only a load in its
      warmup is ever abandoned. */
  predicate SameKind(w: World, v: World, t: nat)
    requires t < |w.threads| == |v.threads|
  {
    && !w.threads[t].Done?
    && (KindOf(v.threads[t]).Some? ==> KindOf(v.threads[t]) == KindOf(w.threads[t]))
    && (v.threads[t].Done? && v.threads[t].clamped > 0 ==> w.threads[t].UnlRemove?)
    && (v.threads[t].Done? && v.threads[t].abandoned > 0 ==> w.threads[t].EnsWarm?)
  }

  /** A step that only rewrites call `t`, keeps object identities and leaves the map alone while
      somebody else is scanning preserves the shape. */
  lemma ShapeFrame(w: World, v: World, t: nat)
    requires Shape(w) && t < |w.threads| && OnlyMoves(w, v, t)
    requires |w.objs| <= |v.objs|
    requires forall o :: 0 <= o < |w.objs| ==> v.objs[o].id == w.objs[o].id
    requires forall k :: k in v.table ==> v.table[k] < |v.objs| && v.objs[v.table[k]].id == k
    requires PcShape(v, t)
    requires v.lock.Some? ==> v.lock.value < |v.threads| && Scanning(v.threads[v.lock.value])
    requires w.lock.Some? && w.lock != Some(t) ==> v.table == w.table && v.lock == w.lock
    ensures Shape(v)
  {
    forall i | 0 <= i < |v.threads|
      ensures PcShape(v, i)
    {
      assert PcShape(w, i);
    }
  }

  lemma EnsureKeepsShape(cfg: Config, w: World, t: nat, c: Choice)
    requires Shape(w) && t < |w.threads| && EnsureStep(cfg, w, t, c).Some?
    ensures Shape(EnsureStep(cfg, w, t, c).value) && OnlyMoves(w, EnsureStep(cfg, w, t, c).value, t)
  {
    var v := EnsureStep(cfg, w, t, c).value;
    assert PcShape(w, t);
    ShapeFrame(w, v, t);
  }

  lemma EvictKeepsShape(cfg: Config, w: World, t: nat, c: Choice)
    requires Shape(w) && t < |w.threads| && EvictStep(cfg, w, t, c).Some?
    ensures Shape(EvictStep(cfg, w, t, c).value) && OnlyMoves(w, EvictStep(cfg, w, t, c).value, t)
  {
    var v := EvictStep(cfg, w, t, c).value;
    assert PcShape(w, t);
    ShapeFrame(w, v, t);
  }

  lemma RequestKeepsShape(cfg: Config, w: World, t: nat, c: Choice)
    requires Shape(w) && t < |w.threads| && RequestStep(cfg, w, t, c).Some?
    ensures Shape(RequestStep(cfg, w, t, c).value) && OnlyMoves(w, RequestStep(cfg, w, t, c).value, t)
  {
    var v := RequestStep(cfg, w, t, c).value;
    assert PcShape(w, t);
    ShapeFrame(w, v, t);
  }

  lemma UnloadKeepsShape(w: World, t: nat, c: Choice)
    requires Shape(w) && t < |w.threads| && UnloadStep(w, t, c).Some?
    ensures Shape(UnloadStep(w, t, c).value) && OnlyMoves(w, UnloadStep(w, t, c).value, t)
  {
    var v := UnloadStep(w, t, c).value;
    assert PcShape(w, t);
    ShapeFrame(w, v, t);
  }

  lemma EnsureModelKeepsShape(w: World, t: nat, c: Choice)
    requires Shape(w) && t < |w.threads| && EnsureModelStep(w, t, c).Some?
    ensures Shape(EnsureModelStep(w, t, c).value) && OnlyMoves(w, EnsureModelStep(w, t, c).value, t)
  {
    var v := EnsureModelStep(w, t, c).value;
    assert PcShape(w, t);
    ShapeFrame(w, v, t);
  }

  lemma EnsureKeepsKind(cfg: Config, w: World, t: nat, c: Choice, v: World)
    requires Shape(w) && t < |w.threads| == |v.threads| && EnsureStep(cfg, w, t, c) == Some(v)
    ensures SameKind(w, v, t)
  {
    assert PcShape(w, t);
  }

  lemma RequestKeepsKind(cfg: Config, w: World, t: nat, c: Choice, v: World)
    requires Shape(w) && t < |w.threads| == |v.threads| && RequestStep(cfg, w, t, c) == Some(v)
    ensures SameKind(w, v, t)
  {
    assert PcShape(w, t);
  }

  lemma RestKeepsKind(cfg: Config, w: World, t: nat, c: Choice, v: World)
    requires Shape(w) && t < |w.threads| == |v.threads|
    requires EvictStep(cfg, w, t, c) == Some(v) || UnloadStep(w, t, c) == Some(v) || EnsureModelStep(w, t, c) == Some(v)
    ensures SameKind(w, v, t)
  {
    assert PcShape(w, t);
  }

  lemma NextKeepsShape(cfg: Config, w: World, t: nat, c: Choice)
    requires Shape(w) && t < |w.threads| && Next(cfg, w, t, c).Some?
    ensures Shape(Next(cfg, w, t, c).value) && OnlyMoves(w, Next(cfg, w, t, c).value, t)
    ensures SameKind(w, Next(cfg, w, t, c).value, t)
  {
    if EnsureStep(cfg, w, t, c).Some? {
      EnsureKeepsShape(cfg, w, t, c);
      EnsureKeepsKind(cfg, w, t, c, EnsureStep(cfg, w, t, c).value);
    } else if EvictStep(cfg, w, t, c).Some? {
      EvictKeepsShape(cfg, w, t, c);
      RestKeepsKind(cfg, w, t, c, EvictStep(cfg, w, t, c).value);
    } else if UnloadStep(w, t, c).Some? {
      UnloadKeepsShape(w, t, c);
      RestKeepsKind(cfg, w, t, c, UnloadStep(w, t, c).value);
    } else if EnsureModelStep(w, t, c).Some? {
      EnsureModelKeepsShape(w, t, c);
      RestKeepsKind(cfg, w, t, c, EnsureModelStep(w, t, c).value);
    } else {
      RequestKeepsShape(cfg, w, t, c);
      RequestKeepsKind(cfg, w, t, c, RequestStep(cfg, w, t, c).value);
    }
  }

  datatype Act = Act(t: nat, c: Choice)

  predicate Starting(pc: Pc) { pc.EnsLookup? || pc.ReqLookup? || pc.UnlMark? || pc.ModLookup? }

  /** A manager fresh from NewWithConfig, with any calls about to be made. */
  predicate Init(cfg: Config, w: World)
    ensures Init(cfg, w) ==> Shape(w)
  {
    && cfg.depth >= 1
    && w.table == map[] && w.objs == [] && w.used == 0 && w.lock.None?
    && w.mstate == Loading && w.merr == "" && w.cur.None?
    && forall t :: 0 <= t < |w.threads| ==> Starting(w.threads[t])
  }

  /** Step `i` of a run. */
  predicate StepAt(cfg: Config, ws: seq<World>, acts: seq<Act>, i: nat)
    requires i < |acts| < |ws|
  {
    Shape(ws[i]) && acts[i].t < |ws[i].threads| && Next(cfg, ws[i], acts[i].t, acts[i].c) == Some(ws[i + 1])
  }

  /** A run from a fresh manager: `ws` are the worlds passed through, `acts` the steps between them. */
  predicate IsRun(cfg: Config, ws: seq<World>, acts: seq<Act>) {
    && |ws| == |acts| + 1
    && Init(cfg, ws[0])
    && forall i :: 0 <= i < |acts| ==> StepAt(cfg, ws, acts, i)
  }

  lemma {:induction false} RunShape(cfg: Config, ws: seq<World>, acts: seq<Act>, i: nat)
    requires IsRun(cfg, ws, acts) && i < |ws|
    ensures Shape(ws[i]) && |ws[i].threads| == |ws[0].threads|
  {
    if i > 0 {
      RunShape(cfg, ws, acts, i - 1);
      assert StepAt(cfg, ws, acts, i - 1);
      NextKeepsShape(cfg, ws[i - 1], acts[i - 1].t, acts[i - 1].c);
    }
  }

  /** Every enabled step extends a run, so runs are exactly the reachable behaviours. */
  lemma RunExtends(cfg: Config, ws: seq<World>, acts: seq<Act>, a: Act, v: World)
    requires IsRun(cfg, ws, acts)
    requires Shape(ws[|acts|]) ==> a.t < |ws[|acts|].threads| && Next(cfg, ws[|acts|], a.t, a.c) == Some(v)
    ensures IsRun(cfg, ws + [v], acts + [a])
  {
    RunShape(cfg, ws, acts, |acts|);
    var ws1, acts1 := ws + [v], acts + [a];
    forall i | 0 <= i < |acts1|
      ensures StepAt(cfg, ws1, acts1, i)
    {
      if i < |acts| {
        assert StepAt(cfg, ws, acts, i);
      }
    }
  }
}
