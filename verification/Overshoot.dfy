/** How far concurrent loads can take the counter past the VRAM budget. The fit check and the commit
    are separate critical sections, so loads that pass the check together are not counted against
    one another. */
module Overshoot {
  import opened Types
  import opened Interleaving
  import opened Accounting

  /** The step is no eviction-deadline exit, and every estimate is at most `r`. */
  predicate TimelyAct(r: nat, w: World, a: Act)
    requires a.t < |w.threads|
  {
    var pc := w.threads[a.t];
    && (pc.EvDeadline? ==> !a.c.Late?)
    && (pc.EnsResolve? && a.c.Size? ==> a.c.mb <= r)
  }

  predicate SmallPc(r: nat, pc: Pc) {
    (pc.EvCheck? || pc.EvReadGen? || pc.EvReadQueue? || pc.EvDeadline? || pc.EnsInsert? || pc.EnsWarm?) ==> pc.req <= r
  }

  predicate SmallWorld(r: nat, w: World) {
    forall t :: 0 <= t < |w.threads| ==> SmallPc(r, w.threads[t])
  }

  /** At most `n` loads are between their fit check and their commit. */
  predicate AtMost(n: nat, w: World) { Total(InFlight, w.threads) <= n }

  predicate Within(cfg: Config, n: nat, r: nat, w: World) {
    w.used + Total(Reserved, w.threads) + cfg.margin <= cfg.budget + (n - 1) * r
  }

  /** What one step of call `a.t` does to its own reservation, apart from passing the fit check: it moves
      weight between counter and reservation or releases some, and never holds more than `r`. */
  predicate Spends(r: nat, w: World, a: Act, v: World) {
    && a.t < |w.threads| && a.t < |v.threads|
    && SmallPc(r, v.threads[a.t])
    && (!(w.threads[a.t].EvCheck? && v.threads[a.t].EnsInsert?)
        && !(w.threads[a.t].UnlRemove? && v.threads[a.t].Done? && v.threads[a.t].clamped > 0)
        ==> v.used + Value(Reserved, v.threads[a.t]) <= w.used + Value(Reserved, w.threads[a.t]))
  }

  lemma EnsureSpends(cfg: Config, r: nat, w: World, a: Act, v: World)
    requires Shape(w) && a.t < |w.threads| && EnsureStep(cfg, w, a.t, a.c) == Some(v)
    requires SmallPc(r, w.threads[a.t]) && TimelyAct(r, w, a) && cfg.budget > 0
    ensures Spends(r, w, a, v)
  {
    assert PcShape(w, a.t);
  }

  lemma EvictSpends(cfg: Config, r: nat, w: World, a: Act, v: World)
    requires Shape(w) && a.t < |w.threads| && EvictStep(cfg, w, a.t, a.c) == Some(v)
    requires SmallPc(r, w.threads[a.t]) && TimelyAct(r, w, a)
    ensures Spends(r, w, a, v)
  {
    assert PcShape(w, a.t);
  }

  lemma RequestSpends(cfg: Config, r: nat, w: World, a: Act, v: World)
    requires Shape(w) && a.t < |w.threads| && RequestStep(cfg, w, a.t, a.c) == Some(v)
    requires SmallPc(r, w.threads[a.t]) && TimelyAct(r, w, a)
    ensures Spends(r, w, a, v)
  {
    assert PcShape(w, a.t);
  }

  lemma UnloadSpends(r: nat, w: World, a: Act, v: World)
    requires Shape(w) && a.t < |w.threads| && UnloadStep(w, a.t, a.c) == Some(v)
    requires SmallPc(r, w.threads[a.t]) && TimelyAct(r, w, a)
    ensures Spends(r, w, a, v)
  {
    assert PcShape(w, a.t);
  }

  lemma EnsureModelSpends(r: nat, w: World, a: Act, v: World)
    requires Shape(w) && a.t < |w.threads| && EnsureModelStep(w, a.t, a.c) == Some(v)
    requires SmallPc(r, w.threads[a.t]) && TimelyAct(r, w, a)
    ensures Spends(r, w, a, v)
  {
    assert PcShape(w, a.t);
  }

  lemma StepSpends(cfg: Config, r: nat, w: World, a: Act, v: World)
    requires Shape(w) && a.t < |w.threads| && Next(cfg, w, a.t, a.c) == Some(v)
    requires SmallPc(r, w.threads[a.t]) && TimelyAct(r, w, a) && cfg.budget > 0
    ensures Spends(r, w, a, v)
  {
    if EnsureStep(cfg, w, a.t, a.c).Some? {
      EnsureSpends(cfg, r, w, a, v);
    } else if EvictStep(cfg, w, a.t, a.c).Some? {
      EvictSpends(cfg, r, w, a, v);
    } else if UnloadStep(w, a.t, a.c).Some? {
      UnloadSpends(r, w, a, v);
    } else if EnsureModelStep(w, a.t, a.c).Some? {
      EnsureModelSpends(r, w, a, v);
    } else {
      RequestSpends(cfg, r, w, a, v);
    }
  }

  lemma SmallStep(cfg: Config, r: nat, w: World, a: Act, v: World)
    requires Shape(w) && a.t < |w.threads| && Next(cfg, w, a.t, a.c) == Some(v)
    requires SmallWorld(r, w) && TimelyAct(r, w, a) && cfg.budget > 0
    ensures SmallWorld(r, v)
  {
    NextKeepsShape(cfg, w, a.t, a.c);
    assert SmallPc(r, w.threads[a.t]);
    StepSpends(cfg, r, w, a, v);
    forall t | 0 <= t < |v.threads|
      ensures SmallPc(r, v.threads[t])
    {
      assert t != a.t ==> SmallPc(r, w.threads[t]);
    }
  }

  lemma MulGap(n: int, k: int, r: nat)
    requires k + 1 <= n
    ensures r * k <= (n - 1) * r
  {
    assert (n - 1 - k) * r >= 0;
  }

  /** One step keeps the bound, provided the step leaves at most `n` loads in flight. */
  lemma StepWithin(cfg: Config, n: nat, r: nat, w: World, a: Act, v: World)
    requires Shape(w) && a.t < |w.threads| && Next(cfg, w, a.t, a.c) == Some(v)
    requires cfg.budget > 0 && r <= cfg.budget - cfg.margin && n >= 1
    requires SmallWorld(r, w) && TimelyAct(r, w, a) && AtMost(n, v)
    requires Within(cfg, n, r, w)
    ensures Within(cfg, n, r, v)
  {
    StepTotals(cfg, w, a.t, a.c, v);
    SmallStep(cfg, r, w, a, v);
    var pc, pd := w.threads[a.t], v.threads[a.t];
    if pc.EvCheck? && pd.EnsInsert? {
      forall t | 0 <= t < |w.threads|
        ensures Value(Reserved, w.threads[t]) <= r * Value(InFlight, w.threads[t])
      {
        assert SmallPc(r, w.threads[t]);
      }
      TotalLe(Reserved, InFlight, r, w.threads);
      MulGap(n, Total(InFlight, w.threads), r);
      assert v.used + pc.req + cfg.margin <= cfg.budget;
    } else if pc.UnlRemove? && pd.clamped > 0 {
      forall t | 0 <= t < |v.threads|
        ensures Value(Reserved, v.threads[t]) <= r * Value(InFlight, v.threads[t])
      {
        assert SmallPc(r, v.threads[t]);
      }
      TotalLe(Reserved, InFlight, r, v.threads);
      MulGap(n, Total(InFlight, v.threads) - 1, r);
      assert r * (Total(InFlight, v.threads) - 1) == r * Total(InFlight, v.threads) - r;
    } else {
      assert SmallPc(r, w.threads[a.t]);
      StepSpends(cfg, r, w, a, v);
    }
  }

  predicate TimelyUpto(cfg: Config, n: nat, r: nat, ws: seq<World>, acts: seq<Act>, m: nat)
    requires m <= |acts| < |ws|
  {
    && (forall j :: 0 <= j < m ==> StepAt(cfg, ws, acts, j) && TimelyAct(r, ws[j], acts[j]))
    && (forall j :: 0 <= j <= m ==> AtMost(n, ws[j]))
  }

  /** Bounded overshoot. With at most `n` loads of at most `r` MB in flight at any time and no deadline
      exit, no reachable state has spent and reserved more than the budget plus `(n - 1) * r`. */
  lemma {:induction false} BoundedOvershoot(cfg: Config, n: nat, r: nat, ws: seq<World>, acts: seq<Act>, i: nat)
    requires IsRun(cfg, ws, acts) && i < |ws|
    requires cfg.budget > 0 && r <= cfg.budget - cfg.margin && n >= 1
    requires TimelyUpto(cfg, n, r, ws, acts, i)
    ensures SmallWorld(r, ws[i]) && Within(cfg, n, r, ws[i])
  {
    if i == 0 {
      TotalZero(Reserved, ws[0].threads);
      assert (n - 1) * r >= 0;
    } else {
      BoundedOvershoot(cfg, n, r, ws, acts, i - 1);
      assert StepAt(cfg, ws, acts, i - 1);
      SmallStep(cfg, r, ws[i - 1], acts[i - 1], ws[i]);
      StepWithin(cfg, n, r, ws[i - 1], acts[i - 1], ws[i]);
    }
  }

  /** Loads one at a time never take the counter past the budget, whatever else runs. */
  lemma SerialLoadsKeepBudget(cfg: Config, r: nat, ws: seq<World>, acts: seq<Act>, i: nat)
    requires IsRun(cfg, ws, acts) && i < |ws|
    requires cfg.budget > 0 && r <= cfg.budget - cfg.margin
    requires TimelyUpto(cfg, 1, r, ws, acts, i)
    ensures ws[i].used + cfg.margin <= cfg.budget
  {
    BoundedOvershoot(cfg, 1, r, ws, acts, i);
    ReservedNonNegative(ws[i].threads);
  }

  /** The map itself, and not just the counter. Besides the overshoot of loads in flight together, only the
      loads that were cancelled and the instances whose file grew can take it past the budget. */
  lemma MapWithinBudget(cfg: Config, n: nat, r: nat, ws: seq<World>, acts: seq<Act>, i: nat)
    requires IsRun(cfg, ws, acts) && i < |ws|
    requires cfg.budget > 0 && r <= cfg.budget - cfg.margin && n >= 1
    requires TimelyUpto(cfg, n, r, ws, acts, i)
    ensures var w := ws[i];
            TableEst(w) + Total(Clamped, w.threads) + cfg.margin
            <= cfg.budget + (n - 1) * r + Total(Abandoned, w.threads) + Total(Drift, w.threads)
  {
    BoundedOvershoot(cfg, n, r, ws, acts, i);
    Conservation(cfg, ws, acts, i);
    TotalLe(Pending, Reserved, 1, ws[i].threads);
  }

  /** With fixed sizes and no cancelled load, the estimates in the map keep the bound of the counter; loads
      one at a time keep them within the budget. */
  lemma SteadyMapWithinBudget(
    cfg: Config, sizes: map<ModelId, nat>, n: nat, r: nat, ws: seq<World>, acts: seq<Act>, i: nat)
    requires IsRun(cfg, ws, acts) && i < |ws|
    requires cfg.budget > 0 && r <= cfg.budget - cfg.margin && n >= 1
    requires TimelyUpto(cfg, n, r, ws, acts, i)
    requires SteadyUpto(cfg, sizes, ws, acts, i) && NoLoadAbandoned(ws, acts, i)
    ensures TableEst(ws[i]) + cfg.margin <= cfg.budget + (n - 1) * r
  {
    hide Total, EstUpto, SteadyUpto, TimelyUpto;
    BoundedOvershoot(cfg, n, r, ws, acts, i);
    SteadyCounter(cfg, sizes, ws, acts, i);
    AbandonedIff(cfg, sizes, ws, acts, i);
    ClampedNonNegative(ws[i].threads);
    TotalLe(Pending, Reserved, 1, ws[i].threads);
  }

  lemma {:induction false} ReservedNonNegative(ts: seq<Pc>)
    ensures Total(Reserved, ts) >= 0
  {
    if ts != [] {
      ReservedNonNegative(ts[..|ts| - 1]);
    }
  }

  // ---- concrete runs ----

  lemma Extend(cfg: Config, ws: seq<World>, acts: seq<Act>, t: nat, c: Choice, v: World)
    returns (ws1: seq<World>, acts1: seq<Act>)
    requires IsRun(cfg, ws, acts)
    requires Shape(ws[|acts|]) ==> t < |ws[|acts|].threads| && Next(cfg, ws[|acts|], t, c) == Some(v)
    ensures IsRun(cfg, ws1, acts1) && ws1[|acts1|] == v
  {
    RunShape(cfg, ws, acts, |acts|);
    acts1 := acts + [Act(t, c)];
    ws1 := ws + [v];
    RunExtends(cfg, ws, acts, Act(t, c), v);
  }

  function Fresh(threads: seq<Pc>): World {
    World(map[], [], 0, Loading, "", None, 0, None, threads)
  }

  lemma PutPut(w: World, t: nat, pc: Pc, pd: Pc)
    requires t < |w.threads|
    ensures Put(Put(w, t, pc), t, pd) == Put(w, t, pd)
  {
    assert w.threads[t := pc][t := pd] == w.threads[t := pd];
  }

  /** A call for an absent model that fits gets past its fit check on its own. */
  lemma PassCheck(cfg: Config, ws: seq<World>, acts: seq<Act>, t: nat, m: ModelId, mb: nat)
    returns (ws1: seq<World>, acts1: seq<Act>)
    requires IsRun(cfg, ws, acts) && cfg.budget > 0 && m in cfg.registry && m != "" && mb >= 1
    requires var w := ws[|acts|];
             t < |w.threads| && w.threads[t] == EnsLookup(m) && w.lock.None? && m !in w.table && Fits(cfg, w, mb)
    ensures IsRun(cfg, ws1, acts1) && ws1[|acts1|] == Put(ws[|acts|], t, EnsInsert(m, mb))
  {
    var w := ws[|acts|];
    ws1, acts1 := Extend(cfg, ws, acts, t, Go, Put(w, t, EnsResolve(m)));
    PutPut(w, t, EnsResolve(m), EvCheck(m, mb));
    ws1, acts1 := Extend(cfg, ws1, acts1, t, Size(mb), Put(w, t, EvCheck(m, mb)));
    PutPut(w, t, EvCheck(m, mb), EnsInsert(m, mb));
    ws1, acts1 := Extend(cfg, ws1, acts1, t, Go, Put(w, t, EnsInsert(m, mb)));
  }

  /** The loading instance that a call inserts for an absent model. */
  function Inserted(w: World, t: nat, m: ModelId, mb: nat): World
    requires t < |w.threads|
  {
    Put(w.(mstate := Loading, merr := "", table := w.table[m := |w.objs|],
           objs := w.objs + [Instance(m, Loading, w.now, mb, 0, 0)], now := w.now + 1),
        t, EnsWarm(m, mb, |w.objs|, true, 0))
  }

  /** The commit of that load. */
  function Committed(w: World, t: nat, m: ModelId, mb: nat, o: nat): World
    requires t < |w.threads| && o < |w.objs|
  {
    Put(Stamp(w.(used := w.used + mb, mstate := Ready, merr := "", cur := Some(m)), o, w.objs[o].(st := Ready)),
        t, Finished(Succeeded))
  }

  // ---- the bound is attained ----

  /** A run of the kind the bound is about. */
  predicate TimelyRun(cfg: Config, n: nat, r: nat, ws: seq<World>, acts: seq<Act>) {
    |ws| == |acts| + 1 && IsRun(cfg, ws, acts) && TimelyUpto(cfg, n, r, ws, acts, |acts|)
  }

  lemma ExtendTimely(cfg: Config, n: nat, r: nat, ws: seq<World>, acts: seq<Act>, t: nat, c: Choice, v: World)
    returns (ws1: seq<World>, acts1: seq<Act>)
    requires TimelyRun(cfg, n, r, ws, acts) && AtMost(n, v)
    requires Shape(ws[|acts|]) ==>
      t < |ws[|acts|].threads| && Next(cfg, ws[|acts|], t, c) == Some(v) && TimelyAct(r, ws[|acts|], Act(t, c))
    ensures TimelyRun(cfg, n, r, ws1, acts1) && ws1[|acts1|] == v
  {
    hide Next;
    RunShape(cfg, ws, acts, |acts|);
    acts1 := acts + [Act(t, c)];
    ws1 := ws + [v];
    RunExtends(cfg, ws, acts, Act(t, c), v);
    forall j | 0 <= j < |acts1|
      ensures StepAt(cfg, ws1, acts1, j) && TimelyAct(r, ws1[j], acts1[j])
    {
      if j < |acts| {
        assert StepAt(cfg, ws, acts, j) && TimelyAct(r, ws[j], acts[j]);
      }
    }
    forall j | 0 <= j <= |acts1|
      ensures AtMost(n, ws1[j])
    {
      if j <= |acts| {
        assert AtMost(n, ws[j]);
      }
    }
  }

  /** Loads in flight only among calls `d` to `d + n - 1`. */
  lemma {:induction false} InFlightAmong(ts: seq<Pc>, d: nat, n: nat)
    requires forall j :: 0 <= j < |ts| && !(d <= j < d + n) ==> Value(InFlight, ts[j]) == 0
    ensures Total(InFlight, ts) <= if |ts| <= d then 0 else if |ts| <= d + n then |ts| - d else n
  {
    if ts != [] {
      InFlightAmong(ts[..|ts| - 1], d, n);
    }
  }

  /** A call for an absent model that fits gets past its fit check. */
  lemma TimelyPass(cfg: Config, n: nat, r: nat, ws: seq<World>, acts: seq<Act>, t: nat, m: ModelId, mb: nat)
    returns (ws1: seq<World>, acts1: seq<Act>)
    requires TimelyRun(cfg, n, r, ws, acts) && cfg.budget > 0 && m in cfg.registry && m != "" && 1 <= mb <= r
    requires var w := ws[|acts|];
             && t < |w.threads| && w.threads[t] == EnsLookup(m) && w.lock.None? && m !in w.table && Fits(cfg, w, mb)
             && AtMost(n, Put(w, t, EnsInsert(m, mb)))
    ensures TimelyRun(cfg, n, r, ws1, acts1) && ws1[|acts1|] == Put(ws[|acts|], t, EnsInsert(m, mb))
  {
    hide IsRun;
    var w := ws[|acts|];
    assert AtMost(n, w);
    TotalUpdate(InFlight, w.threads, t, EnsResolve(m));
    TotalUpdate(InFlight, w.threads, t, EvCheck(m, mb));
    hide Total, TimelyUpto;
    ws1, acts1 := ExtendTimely(cfg, n, r, ws, acts, t, Go, Put(w, t, EnsResolve(m)));
    PutPut(w, t, EnsResolve(m), EvCheck(m, mb));
    ws1, acts1 := ExtendTimely(cfg, n, r, ws1, acts1, t, Size(mb), Put(w, t, EvCheck(m, mb)));
    PutPut(w, t, EvCheck(m, mb), EnsInsert(m, mb));
    ws1, acts1 := ExtendTimely(cfg, n, r, ws1, acts1, t, Go, Put(w, t, EnsInsert(m, mb)));
  }

  /** Distinct model ids. */
  function NameOf(j: nat): (m: ModelId)
    ensures |m| == j + 1
  {
    if j == 0 then "a" else NameOf(j - 1) + "a"
  }

  /** A race of `n` loads of `r` MB, after `d` loads of 1 MB that leave room for just one of them. */
  datatype Race = Race(n: nat, r: nat, d: nat, margin: int)

  predicate Runnable(x: Race) { x.n >= 1 && x.r >= 1 && x.d + x.r + x.margin > 0 }

  function RaceConfig(x: Race): Config {
    Config(x.d + x.r + x.margin, x.margin, 1, set j | 0 <= j < x.d + x.n :: NameOf(j), "")
  }

  ghost predicate Absent(w: World, from: nat, upto: nat) {
    forall j :: from <= j < upto ==> NameOf(j) !in w.table
  }

  /** The first `k` of the small loads are done, nothing else has begun. */
  ghost predicate Preloaded(x: Race, w: World, k: nat) {
    && |w.threads| == x.d + x.n && |w.objs| == k && w.used == k && w.lock.None? && Absent(w, k, x.d + x.n)
    && forall j :: 0 <= j < x.d + x.n ==> w.threads[j] == if j < k then Finished(Succeeded) else EnsLookup(NameOf(j))
  }

  /** The first `k` racers stand past their fit check. */
  ghost predicate AllPassed(x: Race, w: World, k: nat) {
    && |w.threads| == x.d + x.n && |w.objs| == x.d && w.used == x.d && w.lock.None? && Absent(w, x.d, x.d + x.n)
    && forall j :: 0 <= j < x.d + x.n ==>
         w.threads[j] == if j < x.d then Finished(Succeeded)
                         else if j < x.d + k then EnsInsert(NameOf(j), x.r) else EnsLookup(NameOf(j))
  }

  /** The first `k` racers have their instance in the map, uncounted. */
  ghost predicate AllInserted(x: Race, w: World, k: nat) {
    && |w.threads| == x.d + x.n && |w.objs| == x.d + k && w.used == x.d && w.lock.None?
    && Absent(w, x.d + k, x.d + x.n)
    && forall j :: 0 <= j < x.d + x.n ==>
         w.threads[j] == if j < x.d then Finished(Succeeded)
                         else if j < x.d + k then EnsWarm(NameOf(j), x.r, j, true, 0) else EnsInsert(NameOf(j), x.r)
  }

  /** The first `k` racers have committed. */
  ghost predicate AllCommitted(x: Race, w: World, k: nat) {
    && |w.threads| == x.d + x.n && |w.objs| == x.d + x.n && w.used == x.d + k * x.r && w.lock.None?
    && forall j :: 0 <= j < x.d + x.n ==>
         w.threads[j] == if j < x.d + k then Finished(Succeeded) else EnsWarm(NameOf(j), x.r, j, true, 0)
  }

  lemma NamesDiffer(i: nat, j: nat)
    requires i != j
    ensures NameOf(i) != NameOf(j)
  {
    assert |NameOf(i)| == i + 1 && |NameOf(j)| == j + 1;
  }

  lemma StillAbsent(w: World, v: World, t: nat, upto: nat)
    requires Absent(w, t, upto) && t < upto && v.table.Keys == w.table.Keys + {NameOf(t)}
    ensures Absent(v, t + 1, upto)
  {
    hide NameOf;
    forall j | t + 1 <= j < upto
      ensures NameOf(j) !in v.table
    {
      NamesDiffer(t, j);
    }
  }

  lemma {:induction false} PreloadEach(x: Race, k: nat) returns (ws: seq<World>, acts: seq<Act>)
    requires Runnable(x) && k <= x.d
    ensures TimelyRun(RaceConfig(x), x.n, x.r, ws, acts) && Preloaded(x, ws[|acts|], k)
  {
    if k == 0 {
      acts := [];
      ws := [Fresh(seq(x.d + x.n, j requires 0 <= j < x.d + x.n => EnsLookup(NameOf(j))))];
      InFlightAmong(ws[0].threads, 0, 0);
    } else {
      hide IsRun, TimelyUpto, RaceConfig, NameOf, Preloaded;
      ws, acts := PreloadEach(x, k - 1);
      ws, acts := PreloadOne(x, k - 1, ws, acts);
    }
  }

  lemma PreloadOne(x: Race, t: nat, ws: seq<World>, acts: seq<Act>) returns (ws1: seq<World>, acts1: seq<Act>)
    requires Runnable(x) && t < x.d
    requires TimelyRun(RaceConfig(x), x.n, x.r, ws, acts) && Preloaded(x, ws[|acts|], t)
    ensures TimelyRun(RaceConfig(x), x.n, x.r, ws1, acts1) && Preloaded(x, ws1[|acts1|], t + 1)
  {
    hide IsRun, TimelyUpto, Shape, NameOf, Total, Next;
    var cfg, w, m := RaceConfig(x), ws[|acts|], NameOf(t);
    var w1 := Put(w, t, EnsInsert(m, 1));
    var w2 := Inserted(w1, t, m, 1);
    var w3 := Committed(w2, t, m, 1, t);
    InFlightAmong(w1.threads, t, 1);
    InFlightAmong(w2.threads, t, 1);
    InFlightAmong(w3.threads, t, 1);
    assert m in cfg.registry && Fits(cfg, w, 1);
    ws1, acts1 := TimelyPass(cfg, x.n, x.r, ws, acts, t, m, 1);
    InsertNext(cfg, w1, t, m, 1);
    ws1, acts1 := ExtendTimely(cfg, x.n, x.r, ws1, acts1, t, Go, w2);
    CommitNext(cfg, w2, t, m, 1, t);
    ws1, acts1 := ExtendTimely(cfg, x.n, x.r, ws1, acts1, t, Go, w3);
    assert w2.table.Keys == w.table.Keys + {m};
    StillAbsent(w, w3, t, x.d + x.n);
  }

  lemma InsertNext(cfg: Config, w: World, t: nat, m: ModelId, mb: nat)
    requires t < |w.threads| && w.threads[t] == EnsInsert(m, mb) && w.lock.None? && m !in w.table
    ensures Shape(w) ==> Next(cfg, w, t, Go) == Some(Inserted(w, t, m, mb))
  {
  }

  lemma CommitNext(cfg: Config, w: World, t: nat, m: ModelId, mb: nat, o: nat)
    requires t < |w.threads| && w.threads[t] == EnsWarm(m, mb, o, true, 0) && w.lock.None? && o < |w.objs|
    ensures Shape(w) ==> Next(cfg, w, t, Go) == Some(Committed(w, t, m, mb, o))
  {
  }

  lemma {:induction false} PassEach(x: Race, k: nat) returns (ws: seq<World>, acts: seq<Act>)
    requires Runnable(x) && k <= x.n
    ensures TimelyRun(RaceConfig(x), x.n, x.r, ws, acts) && AllPassed(x, ws[|acts|], k)
  {
    hide IsRun, TimelyUpto, RaceConfig, NameOf;
    if k == 0 {
      ws, acts := PreloadEach(x, x.d);
    } else {
      ws, acts := PassEach(x, k - 1);
      ws, acts := PassOne(x, k - 1, ws, acts);
    }
  }

  lemma PassOne(x: Race, k: nat, ws: seq<World>, acts: seq<Act>) returns (ws1: seq<World>, acts1: seq<Act>)
    requires Runnable(x) && k < x.n
    requires TimelyRun(RaceConfig(x), x.n, x.r, ws, acts) && AllPassed(x, ws[|acts|], k)
    ensures TimelyRun(RaceConfig(x), x.n, x.r, ws1, acts1) && AllPassed(x, ws1[|acts1|], k + 1)
  {
    hide IsRun, TimelyUpto, NameOf, Total;
    var cfg, w, t := RaceConfig(x), ws[|acts|], x.d + k;
    var v := Put(w, t, EnsInsert(NameOf(t), x.r));
    InFlightAmong(v.threads, x.d, x.n);
    assert NameOf(t) in cfg.registry && NameOf(t) !in w.table;
    ws1, acts1 := TimelyPass(cfg, x.n, x.r, ws, acts, t, NameOf(t), x.r);
  }

  lemma {:induction false} InsertEach(x: Race, k: nat) returns (ws: seq<World>, acts: seq<Act>)
    requires Runnable(x) && k <= x.n
    ensures TimelyRun(RaceConfig(x), x.n, x.r, ws, acts) && AllInserted(x, ws[|acts|], k)
  {
    hide IsRun, TimelyUpto, RaceConfig, NameOf;
    if k == 0 {
      ws, acts := PassEach(x, x.n);
    } else {
      ws, acts := InsertEach(x, k - 1);
      ws, acts := InsertOne(x, k - 1, ws, acts);
    }
  }

  lemma InsertOne(x: Race, k: nat, ws: seq<World>, acts: seq<Act>) returns (ws1: seq<World>, acts1: seq<Act>)
    requires Runnable(x) && k < x.n
    requires TimelyRun(RaceConfig(x), x.n, x.r, ws, acts) && AllInserted(x, ws[|acts|], k)
    ensures TimelyRun(RaceConfig(x), x.n, x.r, ws1, acts1) && AllInserted(x, ws1[|acts1|], k + 1)
  {
    hide IsRun, TimelyUpto, Shape, RaceConfig, NameOf, Total, Next;
    var w, t := ws[|acts|], x.d + k;
    var v := Inserted(w, t, NameOf(t), x.r);
    InFlightAmong(v.threads, x.d, x.n);
    InsertNext(RaceConfig(x), w, t, NameOf(t), x.r);
    ws1, acts1 := ExtendTimely(RaceConfig(x), x.n, x.r, ws, acts, t, Go, v);
    assert v.table.Keys == w.table.Keys + {NameOf(t)};
    StillAbsent(w, v, t, x.d + x.n);
  }

  lemma {:induction false} CommitEach(x: Race, k: nat) returns (ws: seq<World>, acts: seq<Act>)
    requires Runnable(x) && k <= x.n
    ensures TimelyRun(RaceConfig(x), x.n, x.r, ws, acts) && AllCommitted(x, ws[|acts|], k)
  {
    hide IsRun, TimelyUpto, RaceConfig, NameOf;
    if k == 0 {
      ws, acts := InsertEach(x, x.n);
    } else {
      ws, acts := CommitEach(x, k - 1);
      ws, acts := CommitOne(x, k - 1, ws, acts);
    }
  }

  lemma CommitOne(x: Race, k: nat, ws: seq<World>, acts: seq<Act>) returns (ws1: seq<World>, acts1: seq<Act>)
    requires Runnable(x) && k < x.n
    requires TimelyRun(RaceConfig(x), x.n, x.r, ws, acts) && AllCommitted(x, ws[|acts|], k)
    ensures TimelyRun(RaceConfig(x), x.n, x.r, ws1, acts1) && AllCommitted(x, ws1[|acts1|], k + 1)
  {
    hide IsRun, TimelyUpto, Shape, RaceConfig, NameOf, Total, Next;
    var w, t := ws[|acts|], x.d + k;
    var v := Committed(w, t, NameOf(t), x.r, t);
    InFlightAmong(v.threads, x.d, x.n);
    assert (k + 1) * x.r == k * x.r + x.r;
    CommitNext(RaceConfig(x), w, t, NameOf(t), x.r, t);
    ws1, acts1 := ExtendTimely(RaceConfig(x), x.n, x.r, ws, acts, t, Go, v);
  }

  /** The bound is attained wherever it holds: for every number of loads and every size, budget and margin
      that BoundedOvershoot allows, some run within its hypotheses, all of whose calls succeed, ends exactly
      at the bound. */
  lemma OvershootAttained(n: nat, r: nat, budget: int, margin: int) returns (cfg: Config, ws: seq<World>, acts: seq<Act>)
    requires n >= 1 && r >= 1 && budget > 0 && r <= budget - margin
    ensures IsRun(cfg, ws, acts) && TimelyUpto(cfg, n, r, ws, acts, |acts|)
    ensures cfg.budget == budget && cfg.margin == margin
    ensures ws[|acts|].used + cfg.margin == cfg.budget + (n - 1) * r
    ensures forall t :: 0 <= t < |ws[|acts|].threads| ==> ws[|acts|].threads[t] == Finished(Succeeded)
  {
    hide IsRun, TimelyUpto, NameOf, StepAt;
    var x := Race(n, r, budget - margin - r, margin);
    cfg := RaceConfig(x);
    ws, acts := CommitEach(x, n);
    assert n * r == (n - 1) * r + r;
  }

  // ---- an Unload in the middle of a load ----

  /** An Unload that overtakes a load makes the counter overstate the map for good: the removal of the
      uncounted instance is clamped at zero, and the load commits afterwards. */
  lemma UnloadDuringLoad() returns (cfg: Config, ws: seq<World>, acts: seq<Act>)
    ensures IsRun(cfg, ws, acts)
    ensures ws[|acts|].used == 5 && ws[|acts|].table == map[] && TableEst(ws[|acts|]) == 0
    ensures ws[|acts|].threads == [Finished(Succeeded), Done(Succeeded, 0, 0, 5)]
  {
    hide Shape;
    cfg := Config(10, 0, 1, {"a"}, "");
    acts := [];
    ws := [Fresh([EnsLookup("a"), UnlMark("a")])];
    ws, acts := PassCheck(cfg, ws, acts, 0, "a", 5);
    var w := Inserted(ws[|acts|], 0, "a", 5);
    ws, acts := Extend(cfg, ws, acts, 0, Go, w);
    ws, acts := DrainIdle(cfg, ws, acts, 1, "a", 0);
    ws, acts := RemoveThenCommit(cfg, ws, acts);
  }

  lemma RemoveThenCommit(cfg: Config, ws: seq<World>, acts: seq<Act>) returns (ws1: seq<World>, acts1: seq<Act>)
    requires IsRun(cfg, ws, acts)
    requires var w := ws[|acts|];
             && w.threads == [EnsWarm("a", 5, 0, true, 0), UnlRemove("a", 0, true)] && w.lock.None?
             && w.table == map["a" := 0] && |w.objs| == 1 && w.objs[0].id == "a" && w.objs[0].est == 5 && w.used == 0
    ensures IsRun(cfg, ws1, acts1)
    ensures ws1[|acts1|].used == 5 && ws1[|acts1|].table == map[] && TableEst(ws1[|acts1|]) == 0
    ensures ws1[|acts1|].threads == [Finished(Succeeded), Done(Succeeded, 0, 0, 5)]
  {
    var w := ws[|acts|];
    var w1 := Put(w.(table := w.table - {"a"}, used := 0, cur := if w.cur == Some("a") then None else w.cur),
                  1, Done(Succeeded, 0, 0, 5));
    ws1, acts1 := Extend(cfg, ws, acts, 1, Go, w1);
    var w2 := Committed(w1, 0, "a", 5, 0);
    ws1, acts1 := Extend(cfg, ws1, acts1, 0, Go, w2);
    assert EstUpto(w2, 1) == EstUpto(w2, 0) + Share(w2, 0);
  }

  /** Unload of an idle instance drains in one round of reads. */
  lemma DrainIdle(cfg: Config, ws: seq<World>, acts: seq<Act>, t: nat, m: ModelId, o: nat)
    returns (ws1: seq<World>, acts1: seq<Act>)
    requires IsRun(cfg, ws, acts) && m != ""
    requires var w := ws[|acts|];
             && t < |w.threads| && w.threads[t] == UnlMark(m) && w.lock.None?
             && m in w.table && w.table[m] == o < |w.objs| && w.objs[o].q == 0 && w.objs[o].g == 0
    ensures IsRun(cfg, ws1, acts1)
    ensures var w := ws[|acts|];
            ws1[|acts1|] == Put(w.(objs := w.objs[o := w.objs[o].(st := Draining)]), t, UnlRemove(m, o, true))
  {
    hide Shape;
    var w := ws[|acts|].(objs := ws[|acts|].objs[o := ws[|acts|].objs[o].(st := Draining)]);
    ws1, acts1 := Extend(cfg, ws, acts, t, Go, Put(w, t, UnlReadQueue(m, o)));
    PutPut(w, t, UnlReadQueue(m, o), UnlReadGen(m, o, 0));
    ws1, acts1 := Extend(cfg, ws1, acts1, t, Go, Put(w, t, UnlReadGen(m, o, 0)));
    PutPut(w, t, UnlReadGen(m, o, 0), UnlRemove(m, o, true));
    ws1, acts1 := Extend(cfg, ws1, acts1, t, Go, Put(w, t, UnlRemove(m, o, true)));
  }
}
