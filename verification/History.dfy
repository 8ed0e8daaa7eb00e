/** What the manager's fields mean: each holds what the last step of the right kind put there. The steps are
    read off the program counters and choices of the run, never off the field itself. */
module History {
  import opened Types
  import opened Interleaving

  // ---- LastUsed ----

  /** The object this step uses: a hit, a load beginning, a load ending well, or an admission. */
  function Used(w: World, a: Act): Option<nat> {
    if a.t >= |w.threads| || !a.c.Go? then None
    else
      match w.threads[a.t]
      case EnsTouch(m) =>
        if m in w.table && w.table[m] < |w.objs| && w.objs[w.table[m]].st == Ready then Some(w.table[m]) else None
      case EnsInsert(m, _) => Some(if m in w.table then w.table[m] else |w.objs|)
      case EnsWarm(_, _, o, _, _) => Some(o)
      case ReqGen(o) => Some(o)
      case _ => None
  }

  /** The last of the first `i` steps that used object `o`; -1 when none has. */
  function LastUse(ws: seq<World>, acts: seq<Act>, i: nat, o: nat): int
    requires i <= |acts| < |ws|
  {
    if i == 0 then -1
    else if Used(ws[i - 1], acts[i - 1]) == Some(o) then i - 1
    else LastUse(ws, acts, i - 1, o)
  }

  predicate StampsOnly(w: World, v: World, u: Option<nat>) {
    && |w.objs| <= |v.objs|
    && (u.None? ==> |v.objs| == |w.objs| && v.now == w.now)
    && (u.Some? ==>
          && v.now == w.now + 1 && u.value < |v.objs| && v.objs[u.value].lastUsed == w.now
          && |v.objs| == if u.value == |w.objs| then |w.objs| + 1 else |w.objs|)
    && forall o :: 0 <= o < |w.objs| && u != Some(o) ==> v.objs[o].lastUsed == w.objs[o].lastUsed
  }

  lemma EnsureStamps(cfg: Config, w: World, a: Act, v: World)
    requires Shape(w) && a.t < |w.threads| && EnsureStep(cfg, w, a.t, a.c) == Some(v)
    ensures StampsOnly(w, v, Used(w, a))
  {
    assert PcShape(w, a.t);
  }

  lemma RequestStamps(cfg: Config, w: World, a: Act, v: World)
    requires Shape(w) && a.t < |w.threads| && RequestStep(cfg, w, a.t, a.c) == Some(v)
    ensures StampsOnly(w, v, Used(w, a))
  {
    assert PcShape(w, a.t);
  }

  lemma OthersStampNothing(cfg: Config, w: World, a: Act, v: World)
    requires Shape(w) && a.t < |w.threads|
    requires EvictStep(cfg, w, a.t, a.c) == Some(v) || UnloadStep(w, a.t, a.c) == Some(v)
          || EnsureModelStep(w, a.t, a.c) == Some(v)
    ensures StampsOnly(w, v, Used(w, a))
  {
    assert PcShape(w, a.t);
  }

  lemma StepStamps(cfg: Config, w: World, a: Act, v: World)
    requires Shape(w) && a.t < |w.threads| && Next(cfg, w, a.t, a.c) == Some(v)
    ensures StampsOnly(w, v, Used(w, a))
  {
    if EnsureStep(cfg, w, a.t, a.c).Some? {
      EnsureStamps(cfg, w, a, v);
    } else if RequestStep(cfg, w, a.t, a.c).Some? {
      RequestStamps(cfg, w, a, v);
    } else {
      OthersStampNothing(cfg, w, a, v);
    }
  }

  lemma {:induction false} ClockRises(cfg: Config, ws: seq<World>, acts: seq<Act>, i: nat, j: nat)
    requires IsRun(cfg, ws, acts) && i <= j < |ws|
    ensures ws[i].now <= ws[j].now
  {
    if i < j {
      ClockRises(cfg, ws, acts, i, j - 1);
      assert StepAt(cfg, ws, acts, j - 1);
      StepStamps(cfg, ws[j - 1], acts[j - 1], ws[j]);
    }
  }

  /** An object's stamp is the time of the step that last used it. */
  lemma {:induction false} StampIsLastUse(cfg: Config, ws: seq<World>, acts: seq<Act>, i: nat, o: nat)
    requires IsRun(cfg, ws, acts) && i < |ws|
    ensures o < |ws[i].objs| ==>
              var j := LastUse(ws, acts, i, o);
              && 0 <= j < i && Used(ws[j], acts[j]) == Some(o)
              && ws[i].objs[o].lastUsed == ws[j].now < ws[j + 1].now
  {
    hide Used, Shape, Next;
    if i > 0 {
      StampIsLastUse(cfg, ws, acts, i - 1, o);
      assert StepAt(cfg, ws, acts, i - 1);
      StepStamps(cfg, ws[i - 1], acts[i - 1], ws[i]);
    }
  }

  /** Stamps compare as last uses do: an object is older than another if and only if the step that last used
      it came first. */
  lemma StampsOrderUses(cfg: Config, ws: seq<World>, acts: seq<Act>, i: nat, p: nat, q: nat)
    requires IsRun(cfg, ws, acts) && i < |ws| && p < |ws[i].objs| && q < |ws[i].objs|
    ensures ws[i].objs[p].lastUsed < ws[i].objs[q].lastUsed <==> LastUse(ws, acts, i, p) < LastUse(ws, acts, i, q)
    ensures p != q ==> LastUse(ws, acts, i, p) != LastUse(ws, acts, i, q)
  {
    hide Used, LastUse;
    StampIsLastUse(cfg, ws, acts, i, p);
    StampIsLastUse(cfg, ws, acts, i, q);
    var j, k := LastUse(ws, acts, i, p), LastUse(ws, acts, i, q);
    if j < k {
      ClockRises(cfg, ws, acts, j + 1, k);
    } else if k < j {
      ClockRises(cfg, ws, acts, k + 1, j);
    }
  }

  // ---- State and EstVRAMMB ----

  /** The step inserts or reloads object `o`. */
  predicate Loads(w: World, a: Act, o: nat) {
    && a.t < |w.threads| && a.c.Go? && w.threads[a.t].EnsInsert?
    && var m := w.threads[a.t].m; o == if m in w.table then w.table[m] else |w.objs|
  }

  /** The state a step gives object `o`, if it gives one. */
  function Given(w: World, a: Act, o: nat): Option<State> {
    if a.t >= |w.threads| || !a.c.Go? then None
    else if Loads(w, a, o) then Some(Loading)
    else
      match w.threads[a.t]
      case EnsWarm(_, _, x, _, _) => if x == o then Some(Ready) else None
      case UnlMark(m) => if m != "" && m in w.table && w.table[m] == o then Some(Draining) else None
      case _ => None
  }

  function LastGiven(ws: seq<World>, acts: seq<Act>, i: nat, o: nat): Option<State>
    requires i <= |acts| < |ws|
  {
    if i == 0 then None
    else
      var s := Given(ws[i - 1], acts[i - 1], o);
      if s.Some? then s else LastGiven(ws, acts, i - 1, o)
  }

  /** The size with which object `o` was last inserted or reloaded. */
  function LastSize(ws: seq<World>, acts: seq<Act>, i: nat, o: nat): Option<nat>
    requires i <= |acts| < |ws|
  {
    if i == 0 then None
    else if Loads(ws[i - 1], acts[i - 1], o) then Some(ws[i - 1].threads[acts[i - 1].t].req)
    else LastSize(ws, acts, i - 1, o)
  }

  predicate GivesOnly(w: World, a: Act, v: World) {
    && |w.objs| <= |v.objs| <= |w.objs| + 1
    && forall o :: 0 <= o < |v.objs| ==>
         && (o == |w.objs| ==> Loads(w, a, o))
         && Some(v.objs[o].st) == (if Given(w, a, o).Some? then Given(w, a, o) else if o < |w.objs| then Some(w.objs[o].st) else None)
         && Some(v.objs[o].est) == (if Loads(w, a, o) then Some(w.threads[a.t].req) else if o < |w.objs| then Some(w.objs[o].est) else None)
  }

  lemma EnsureGives(cfg: Config, w: World, a: Act, v: World)
    requires Shape(w) && a.t < |w.threads| && EnsureStep(cfg, w, a.t, a.c) == Some(v)
    ensures GivesOnly(w, a, v)
  {
    assert PcShape(w, a.t);
  }

  lemma UnloadGives(w: World, a: Act, v: World)
    requires Shape(w) && a.t < |w.threads| && UnloadStep(w, a.t, a.c) == Some(v)
    ensures GivesOnly(w, a, v)
  {
    assert PcShape(w, a.t);
  }

  lemma RequestGives(cfg: Config, w: World, a: Act, v: World)
    requires Shape(w) && a.t < |w.threads| && RequestStep(cfg, w, a.t, a.c) == Some(v)
    ensures GivesOnly(w, a, v)
  {
    assert PcShape(w, a.t);
  }

  lemma OthersGiveNothing(cfg: Config, w: World, a: Act, v: World)
    requires Shape(w) && a.t < |w.threads|
    requires EvictStep(cfg, w, a.t, a.c) == Some(v) || EnsureModelStep(w, a.t, a.c) == Some(v)
    ensures GivesOnly(w, a, v)
  {
    assert PcShape(w, a.t);
  }

  lemma StepGives(cfg: Config, w: World, a: Act, v: World)
    requires Shape(w) && a.t < |w.threads| && Next(cfg, w, a.t, a.c) == Some(v)
    ensures GivesOnly(w, a, v)
  {
    hide Given, Loads;
    if EnsureStep(cfg, w, a.t, a.c).Some? {
      EnsureGives(cfg, w, a, v);
    } else if UnloadStep(w, a.t, a.c).Some? {
      UnloadGives(w, a, v);
    } else if RequestStep(cfg, w, a.t, a.c).Some? {
      RequestGives(cfg, w, a, v);
    } else {
      OthersGiveNothing(cfg, w, a, v);
    }
  }

  /** An instance is loading, ready or draining as the last load, commit or unload mark of it says, and is
      estimated at the size with which it was last loaded. */
  lemma {:induction false} InstanceIsLastGiven(cfg: Config, ws: seq<World>, acts: seq<Act>, i: nat, o: nat)
    requires IsRun(cfg, ws, acts) && i < |ws|
    ensures o < |ws[i].objs| ==> LastGiven(ws, acts, i, o) == Some(ws[i].objs[o].st)
    ensures o < |ws[i].objs| ==> LastSize(ws, acts, i, o) == Some(ws[i].objs[o].est)
  {
    hide Given, Loads;
    if i > 0 {
      InstanceIsLastGiven(cfg, ws, acts, i - 1, o);
      assert StepAt(cfg, ws, acts, i - 1);
      StepGives(cfg, ws[i - 1], acts[i - 1], ws[i]);
    }
  }

  // ---- the map ----

  datatype Change = Keeps | Inserts(o: nat) | Removes

  /** What a step does to the entry of model `m`: a load of an absent model inserts a new object, the victim of
      an eviction and the model of an Unload are removed. */
  function ChangeOf(w: World, a: Act, m: ModelId): Change {
    if a.t >= |w.threads| || !a.c.Go? then Keeps
    else
      match w.threads[a.t]
      case EnsInsert(x, _) => if x == m && m !in w.table then Inserts(|w.objs|) else Keeps
      case EvReadGen(_, _, todo, best) =>
        if todo == {} && best.Some? && best.value < |w.objs| && w.objs[best.value].id == m then Removes else Keeps
      case UnlRemove(x, _, _) => if x == m then Removes else Keeps
      case _ => Keeps
  }

  function LastEntry(ws: seq<World>, acts: seq<Act>, i: nat, m: ModelId): Option<nat>
    requires i <= |acts| < |ws|
  {
    if i == 0 then None
    else
      match ChangeOf(ws[i - 1], acts[i - 1], m)
      case Inserts(o) => Some(o)
      case Removes => None
      case Keeps => LastEntry(ws, acts, i - 1, m)
  }

  function Entry(w: World, m: ModelId): Option<nat> { if m in w.table then Some(w.table[m]) else None }

  predicate ChangesOnly(w: World, a: Act, v: World, m: ModelId) {
    Entry(v, m) == match ChangeOf(w, a, m)
                   case Inserts(o) => Some(o)
                   case Removes => None
                   case Keeps => Entry(w, m)
  }

  lemma EnsureChanges(cfg: Config, w: World, a: Act, v: World, m: ModelId)
    requires Shape(w) && a.t < |w.threads| && EnsureStep(cfg, w, a.t, a.c) == Some(v)
    ensures ChangesOnly(w, a, v, m)
  {
  }

  lemma EvictChanges(cfg: Config, w: World, a: Act, v: World, m: ModelId)
    requires Shape(w) && a.t < |w.threads| && EvictStep(cfg, w, a.t, a.c) == Some(v)
    ensures ChangesOnly(w, a, v, m)
  {
    assert PcShape(w, a.t);
  }

  lemma OthersChange(cfg: Config, w: World, a: Act, v: World, m: ModelId)
    requires Shape(w) && a.t < |w.threads|
    requires RequestStep(cfg, w, a.t, a.c) == Some(v) || UnloadStep(w, a.t, a.c) == Some(v)
          || EnsureModelStep(w, a.t, a.c) == Some(v)
    ensures ChangesOnly(w, a, v, m)
  {
  }

  lemma StepChanges(cfg: Config, w: World, a: Act, v: World, m: ModelId)
    requires Shape(w) && a.t < |w.threads| && Next(cfg, w, a.t, a.c) == Some(v)
    ensures ChangesOnly(w, a, v, m)
  {
    hide ChangesOnly;
    if EnsureStep(cfg, w, a.t, a.c).Some? {
      EnsureChanges(cfg, w, a, v, m);
    } else if EvictStep(cfg, w, a.t, a.c).Some? {
      EvictChanges(cfg, w, a, v, m);
    } else {
      OthersChange(cfg, w, a, v, m);
    }
  }

  /** A model is mapped to the object its last load inserted, unless it has been evicted or unloaded since. */
  lemma {:induction false} MapIsLastEntry(cfg: Config, ws: seq<World>, acts: seq<Act>, i: nat, m: ModelId)
    requires IsRun(cfg, ws, acts) && i < |ws|
    ensures LastEntry(ws, acts, i, m) == if m in ws[i].table then Some(ws[i].table[m]) else None
  {
    hide ChangeOf;
    if i > 0 {
      MapIsLastEntry(cfg, ws, acts, i - 1, m);
      assert StepAt(cfg, ws, acts, i - 1);
      StepChanges(cfg, ws[i - 1], acts[i - 1], ws[i], m);
    }
  }

  // ---- the manager's state ----

  datatype Report = Report(st: State, err: string)

  /** What a step reports as the manager's state. */
  function Reported(w: World, a: Act): Option<Report> {
    if a.t >= |w.threads| then None
    else
      match w.threads[a.t]
      case EnsInsert(_, _) => if a.c.Go? then Some(Report(Loading, "")) else None
      case ModStart(_) => if a.c.Go? then Some(Report(Loading, "")) else None
      case EnsWarm(_, _, _, _, _) => WarmupReport(a.c)
      case ModWarm(_) => WarmupReport(a.c)
      case _ => None
  }

  function WarmupReport(c: Choice): Option<Report> {
    if c.Go? then Some(Report(Ready, "")) else if c.Cancel? then Some(Report(Error, c.text)) else None
  }

  function LastReport(ws: seq<World>, acts: seq<Act>, i: nat): Report
    requires i <= |acts| < |ws|
  {
    if i == 0 then Report(Loading, "")
    else
      var r := Reported(ws[i - 1], acts[i - 1]);
      if r.Some? then r.value else LastReport(ws, acts, i - 1)
  }

  lemma StepReports(cfg: Config, w: World, a: Act, v: World)
    requires Shape(w) && a.t < |w.threads| && Next(cfg, w, a.t, a.c) == Some(v)
    ensures Report(v.mstate, v.merr) == if Reported(w, a).Some? then Reported(w, a).value else Report(w.mstate, w.merr)
  {
    assert PcShape(w, a.t);
  }

  /** State and error text are those of the last load or switch to begin, end or fail. */
  lemma {:induction false} StatusIsLastReport(cfg: Config, ws: seq<World>, acts: seq<Act>, i: nat)
    requires IsRun(cfg, ws, acts) && i < |ws|
    ensures Report(ws[i].mstate, ws[i].merr) == LastReport(ws, acts, i)
  {
    hide Reported;
    if i > 0 {
      StatusIsLastReport(cfg, ws, acts, i - 1);
      assert StepAt(cfg, ws, acts, i - 1);
      StepReports(cfg, ws[i - 1], acts[i - 1], ws[i]);
    }
  }
}
