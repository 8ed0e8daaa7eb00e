/** The manager as an object, one whole operation at a time: a map of heap instances stamped with a
    clock, a counter that is only ever adjusted, and a scan for the oldest idle instance. Each method
    is proved to act on the recency list exactly as the corresponding function of module Lru. */
module Managing {
  import opened Types
  import Lru

  class Instance {
    const id: ModelId
    var st: State
    var lastUsed: nat
    var est: nat
    var q: nat   // len(queueCh)
    var g: nat   // len(genCh)

    constructor (id: ModelId, est: nat, now: nat)
      ensures this.id == id && st == Loading && lastUsed == now && this.est == est && q == 0 && g == 0
    {
      this.id := id;
      this.st := Loading;
      this.lastUsed := now;
      this.est := est;
      this.q := 0;
      this.g := 0;
    }

    method Set(st: State, est: nat, q: nat, g: nat)
      modifies this`st, this`est, this`q, this`g
      ensures this.st == st && this.est == est && this.q == q && this.g == g
    {
      this.st := st;
      this.est := est;
      this.q := q;
      this.g := g;
    }
  }

  ghost function EntryOf(x: Instance): Lru.Entry
    reads x
  {
    Lru.Entry(x.id, x.est, x.q, x.g, x.st)
  }

  /** One entry for each key, and no other. */
  ghost predicate Lists(l: seq<Lru.Entry>, keys: set<ModelId>) {
    && (forall i, j :: 0 <= i < j < |l| ==> l[i].id != l[j].id)
    && (forall i :: 0 <= i < |l| ==> l[i].id in keys)
    && (forall k :: k in keys ==> Lru.Find(l, k) < |l|)
  }

  /** Oldest first, all past. */
  ghost predicate Rising(stamps: seq<nat>, now: nat) {
    && (forall i, j :: 0 <= i < j < |stamps| ==> stamps[i] < stamps[j])
    && (forall i :: 0 <= i < |stamps| ==> stamps[i] < now)
  }

  /** A recency list with its stamps. */
  ghost predicate Tidy(l: seq<Lru.Entry>, stamps: seq<nat>, keys: set<ModelId>, now: nat) {
    |stamps| == |l| && Lists(l, keys) && Rising(stamps, now)
  }

  lemma RisingMove(stamps: seq<nat>, now: nat, i: nat)
    requires Rising(stamps, now) && i < |stamps|
    ensures Rising(Lru.Without(stamps, i), now) && Rising(Lru.Without(stamps, i) + [now], now + 1)
  {
  }

  lemma ListsMove(l: seq<Lru.Entry>, keys: set<ModelId>, i: nat)
    requires Lists(l, keys) && i < |l|
    ensures Lists(Lru.Without(l, i) + [l[i]], keys)
  {
    hide Lru.Find, Lru.Without;
    var m := Lru.Without(l, i) + [l[i]];
    forall a: nat | a < |m|
      ensures m[a] == l[Source(|l|, i, a)]
    {
      if a < |l| - 1 {
        Lru.WithoutAt(l, i, a);
      }
    }
    forall k | k in keys
      ensures Lru.Find(m, k) < |l|
    {
      Lru.FindMoved(l, i, k);
    }
    forall a, b | 0 <= a < b < |m|
      ensures m[a].id != m[b].id
    {
      assert Source(|l|, i, a) != Source(|l|, i, b);
    }
  }

  /** Where position `a` comes from when position `i` of `n` is moved to the back. */
  function Source(n: nat, i: nat, a: nat): (p: nat)
    requires i < n && a < n
    ensures p < n
  {
    if a == n - 1 then i else if a < i then a else a + 1
  }

  lemma TidyMove(l: seq<Lru.Entry>, stamps: seq<nat>, keys: set<ModelId>, now: nat, i: nat)
    requires Tidy(l, stamps, keys, now) && i < |l|
    ensures Tidy(Lru.Without(l, i) + [l[i]], Lru.Without(stamps, i) + [now], keys, now + 1)
  {
    hide Lists, Rising;
    ListsMove(l, keys, i);
    RisingMove(stamps, now, i);
  }

  lemma ListsDrop(l: seq<Lru.Entry>, keys: set<ModelId>, i: nat)
    requires Lists(l, keys) && i < |l|
    ensures Lists(Lru.Without(l, i), keys - {l[i].id})
  {
    hide Lru.Find;
    forall k | k in keys - {l[i].id}
      ensures Lru.Find(Lru.Without(l, i), k) < |l| - 1
    {
      Lru.FindWithout(l, i, k);
    }
  }

  lemma TidyDrop(l: seq<Lru.Entry>, stamps: seq<nat>, keys: set<ModelId>, now: nat, i: nat)
    requires Tidy(l, stamps, keys, now) && i < |l|
    ensures Tidy(Lru.Without(l, i), Lru.Without(stamps, i), keys - {l[i].id}, now)
  {
    hide Lists, Rising;
    ListsDrop(l, keys, i);
    RisingMove(stamps, now, i);
  }

  lemma TidyAdd(l: seq<Lru.Entry>, stamps: seq<nat>, keys: set<ModelId>, now: nat, e: Lru.Entry)
    requires Tidy(l, stamps, keys, now) && e.id !in keys
    ensures Tidy(l + [e], stamps + [now], keys + {e.id}, now + 1)
  {
    hide Lru.Find;
    forall k | k in keys + {e.id}
      ensures Lru.Find(l + [e], k) < |l| + 1
    {
      FoundSomewhere(l, keys, k);
      Lru.FindAt(l + [e], k, if k == e.id then |l| else Lru.Find(l, k));
    }
  }

  lemma FoundSomewhere(l: seq<Lru.Entry>, keys: set<ModelId>, k: ModelId)
    requires Lists(l, keys)
    ensures k in keys ==> Lru.Find(l, k) < |l| && l[Lru.Find(l, k)].id == k
  {
  }

  lemma TidyUpdate(l: seq<Lru.Entry>, stamps: seq<nat>, keys: set<ModelId>, now: nat, i: nat, e: Lru.Entry)
    requires Tidy(l, stamps, keys, now) && i < |l| && e.id == l[i].id
    ensures Tidy(l[i := e], stamps, keys, now)
  {
    hide Lru.Find;
    forall k | k in keys
      ensures Lru.Find(l[i := e], k) < |l|
    {
      Lru.FindUpdate(l, i, e, k);
    }
  }

  lemma TidyLengths(l: seq<Lru.Entry>, stamps: seq<nat>, keys: set<ModelId>, now: nat)
    requires Tidy(l, stamps, keys, now)
    ensures |stamps| == |l|
  {
  }

  lemma FindUnique(l: seq<Lru.Entry>, stamps: seq<nat>, keys: set<ModelId>, now: nat, i: nat)
    requires Tidy(l, stamps, keys, now) && i < |l|
    ensures Lru.Find(l, l[i].id) == i
  {
    Lru.FindAt(l, l[i].id, i);
  }

  /** Position `i` of a list describes the instance its model is mapped to. */
  ghost predicate LinkedIn(m: map<ModelId, Instance>, l: seq<Lru.Entry>, stamps: seq<nat>, i: nat)
    reads m.Values
  {
    && i < |l| && i < |stamps| && l[i].id in m
    && EntryOf(m[l[i].id]) == l[i]
    && m[l[i].id].lastUsed == stamps[i]
  }

  lemma LinkMore(
    m: map<ModelId, Instance>, l: seq<Lru.Entry>, stamps: seq<nat>, x: Instance,
    m1: map<ModelId, Instance>, l1: seq<Lru.Entry>, stamps1: seq<nat>)
    requires |stamps| == |l| && x.id !in m
    requires forall i: nat :: i < |l| ==> LinkedIn(m, l, stamps, i)
    requires m1 == m[x.id := x] && l1 == l + [EntryOf(x)] && stamps1 == stamps + [x.lastUsed]
    ensures forall i: nat :: i < |l1| ==> LinkedIn(m1, l1, stamps1, i)
  {
    forall i: nat | i < |l1|
      ensures LinkedIn(m1, l1, stamps1, i)
    {
      assert i < |l| ==> LinkedIn(m, l, stamps, i);
    }
  }

  class Manager {
    const cfg: Config
    var mstate: State
    var merr: string
    var cur: Option<ModelId>
    var instances: map<ModelId, Instance>
    var used: int
    var now: nat
    ghost var list: seq<Lru.Entry>   // what the instances hold, least recently used first
    ghost var stamps: seq<nat>       // their LastUsed times

    /** The instance behind position `i` of the list. */
    ghost predicate Linked(i: nat)
      reads this`instances, this`list, this`stamps, instances.Values
    {
      LinkedIn(instances, list, stamps, i)
    }

    ghost predicate Valid()
      reads this`instances, this`list, this`stamps, this`now, instances.Values
    {
      && Tidy(list, stamps, instances.Keys, now)
      && forall i: nat :: i < |list| ==> Linked(i)
    }

    ghost function Abs(): Lru.Cache
      reads this
    {
      Lru.Cache(list, used, mstate, merr, cur)
    }

    constructor (cfg: Config)
      ensures Valid() && Abs() == Lru.EMPTY && this.cfg == cfg && instances == map[]
    {
      this.cfg := cfg;
      this.mstate := Loading;
      this.merr := "";
      this.cur := None;
      this.instances := map[];
      this.used := 0;
      this.now := 0;
      this.list := [];
      this.stamps := [];
    }

    /** Different positions are different objects. */
    lemma Apart(i: nat, j: nat)
      requires Valid() && i < |list| && j < |list| && i != j
      ensures Linked(i) && Linked(j) && list[i].id != list[j].id && instances[list[i].id] != instances[list[j].id]
    {
      assert Linked(i) && Linked(j);
    }

    /** A model is at its position in the list exactly when the map has it. */
    lemma Located(id: ModelId)
      requires Valid()
      ensures Lru.Find(list, id) < |list| <==> id in instances
      ensures id in instances ==> Linked(Lru.Find(list, id))
    {
      var i := Lru.Find(list, id);
      if i < |list| {
        assert Linked(i);
      }
    }

    /** Stamp an instance that is in the map with the current time. */
    method Touch(x: Instance, ghost i: nat)
      requires Valid() && i < |list| && Linked(i) && instances[list[i].id] == x
      modifies this`now, this`list, this`stamps, x`lastUsed
      ensures x.lastUsed == old(now) && now == old(now) + 1
      ensures Valid() && list == Lru.Without(old(list), i) + [old(list)[i]]
    {
      hide Tidy;
      TidyMove(list, stamps, instances.Keys, now, i);
      TidyLengths(list, stamps, instances.Keys, now);
      forall p: nat | p < |list| && p != i
        ensures Linked(p) && instances[list[p].id] != x
      {
        Apart(p, i);
      }
      x.lastUsed := now;
      stamps := Lru.Without(stamps, i) + [now];
      now := now + 1;
      list := Lru.Without(list, i) + [list[i]];
      forall j: nat | j < |list|
        ensures Linked(j)
      {
        var p := if j < i then j else if j < |list| - 1 then j + 1 else i;
        assert old(Linked(p)) && list[j] == old(list)[p];
      }
    }

    /** Overwrite the fields of an instance that is in the map. */
    method Write(x: Instance, ghost i: nat, st: State, est: nat, q: nat, g: nat)
      requires Valid() && i < |list| && Linked(i) && instances[list[i].id] == x
      modifies this`list, x`st, x`est, x`q, x`g
      ensures Valid() && list == old(list)[i := Lru.Entry(x.id, est, q, g, st)] && Linked(i)
      ensures x.st == st && x.est == est && x.q == q && x.g == g
    {
      ghost var e := Lru.Entry(x.id, est, q, g, st);
      hide Tidy;
      TidyUpdate(list, stamps, instances.Keys, now, i, e);
      forall p: nat | p < |list| && p != i
        ensures Linked(p) && instances[list[p].id] != x
      {
        Apart(p, i);
      }
      x.Set(st, est, q, g);
      assert EntryOf(x) == e;
      hide EntryOf;
      forall p: nat | p < |list| && p != i
        ensures LinkedIn(instances, list, stamps, p)
      {
        assert old(Linked(p));
      }
      list := list[i := e];
      forall p: nat | p < |list|
        ensures Linked(p)
      {
        assert p != i ==> LinkedIn(instances, old(list), stamps, p);
      }
    }

    /** delete(m.instances, x.id) */
    method Forget(id: ModelId, ghost i: nat)
      requires Valid() && i < |list| && list[i].id == id
      modifies this`instances, this`list, this`stamps
      ensures Valid() && instances == old(instances) - {id} && list == Lru.Without(old(list), i)
    {
      hide Tidy;
      TidyDrop(list, stamps, instances.Keys, now, i);
      TidyLengths(list, stamps, instances.Keys, now);
      forall p: nat | p < |list| && p != i
        ensures Linked(p) && list[p].id != id
      {
        Apart(p, i);
      }
      instances := instances - {id};
      list := Lru.Without(list, i);
      stamps := Lru.Without(stamps, i);
      assert instances.Keys == old(instances).Keys - {id};
      forall j: nat | j < |list|
        ensures Linked(j)
      {
        var p := if j < i then j else j + 1;
        assert old(Linked(p)) && list[j] == old(list)[p];
      }
    }

    method Insert(id: ModelId, mb: nat) returns (inst: Instance)
      requires Valid() && id !in instances
      modifies this`instances, this`list, this`stamps, this`now
      ensures Valid() && fresh(inst) && instances == old(instances)[id := inst]
      ensures list == old(list) + [Lru.Entry(id, mb, 0, 0, Loading)]
    {
      hide Tidy;
      ghost var e := Lru.Entry(id, mb, 0, 0, Loading);
      TidyAdd(list, stamps, instances.Keys, now, e);
      TidyLengths(list, stamps, instances.Keys, now);
      inst := new Instance(id, mb, now);
      forall p: nat | p < |list|
        ensures LinkedIn(instances, list, stamps, p)
      {
        assert Linked(p);
      }
      ghost var m1, l1, stamps1 := instances[id := inst], list + [e], stamps + [now];
      LinkMore(instances, list, stamps, inst, m1, l1, stamps1);
      instances := instances[id := inst];
      list := l1;
      stamps := stamps1;
      now := now + 1;
      assert m1.Keys == old(instances).Keys + {id};
      forall p: nat | p < |list|
        ensures Linked(p)
      {
        assert LinkedIn(m1, l1, stamps1, p);
      }
    }

    /** The scan of `evictUntilFits`: over the map in any order, keep the oldest idle instance. */
    method OldestIdle() returns (lru: Instance?)
      requires Valid()
      ensures var i := Lru.FirstIdle(list);
              if i == |list| then lru == null else Linked(i) && lru == instances[list[i].id]
    {
      hide Tidy, Lru.Find, Lru.FirstIdle;
      lru := null;
      var todo := instances.Keys;
      while todo != {}
        invariant todo <= instances.Keys
        invariant lru != null ==> lru in instances.Values && lru.g == 0 && lru.q == 0
        invariant forall k :: k in instances && k !in todo && instances[k].g == 0 && instances[k].q == 0
                              ==> lru != null && lru.lastUsed <= instances[k].lastUsed
        decreases todo
      {
        var k :| k in todo;
        todo := todo - {k};
        var inst := instances[k];
        if inst.g > 0 || inst.q > 0 {
          continue;
        }
        if lru == null || inst.lastUsed < lru.lastUsed {
          lru := inst;
        }
      }
      OldestIsFirst(lru);
    }

    /** An idle instance no younger than any idle one is the first idle entry of the list. */
    lemma OldestIsFirst(lru: Instance?)
      requires Valid()
      requires lru != null ==> lru in instances.Values && lru.g == 0 && lru.q == 0
      requires forall k :: k in instances && instances[k].g == 0 && instances[k].q == 0
                           ==> lru != null && lru.lastUsed <= instances[k].lastUsed
      ensures var i := Lru.FirstIdle(list);
              if i == |list| then lru == null else Linked(i) && lru == instances[list[i].id]
    {
      hide Lists;
      var i := Lru.FirstIdle(list);
      if i < |list| {
        assert Linked(i);
      }
      if lru != null {
        OwnKey(lru);
        Located(lru.id);
        var j := Lru.Find(list, lru.id);
        assert Linked(j) && Lru.Idle(list[j]);
      }
    }

    /** evictUntilFits. `rounds` full evictions finish before the one-second deadline. */
    method EvictUntilFits(need: nat, rounds: nat) returns (ok: bool)
      requires Valid()
      modifies this`instances, this`used, this`list, this`stamps
      ensures Valid() && Lru.Evict(cfg, old(list), old(used), need, rounds) == Lru.Evicted(list, used, ok)
      ensures instances.Values <= old(instances.Values)
    {
      hide Valid;
      var left := rounds;
      while true
        invariant Valid()
        invariant Lru.Evict(cfg, list, used, need, left) == Lru.Evict(cfg, old(list), old(used), need, rounds)
        invariant instances.Values <= old(instances.Values)
        decreases |list|
      {
        if used + need + cfg.margin <= cfg.budget {
          return true;
        }
        var lru := OldestIdle();
        if lru == null {
          return false;
        }
        Forget(lru.id, Lru.FirstIdle(list));
        used := used - lru.est;
        if left == 0 {
          return true;
        }
        left := left - 1;
      }
    }

    /** EnsureInstance. `mb` is the file-size estimate, `fate` how the warmup ends. */
    method EnsureInstance(m: ModelId, mb: nat, rounds: nat, fate: Lru.Fate) returns (out: Outcome)
      requires Valid()
      modifies this, instances.Values
      ensures Valid()
      ensures (Abs(), out) == Lru.Ensure(cfg, old(Abs()), m, mb, rounds, fate)
      ensures var id := if m != "" then m else cfg.fallback;
              id != "" && id in old(instances) && old(instances[id].st) == Ready ==>
                && out == Succeeded && instances == old(instances) && used == old(used)
                && instances[id].st == Ready && instances[id].lastUsed >= old(now)
      ensures forall x :: x in instances.Values ==> x in old(instances.Values) || fresh(x)
    {
      hide Valid;
      var id := if m == "" then cfg.fallback else m;
      if id == "" {
        return Succeeded;
      }
      Located(id);
      if id in instances && instances[id].st == Ready {
        Touch(instances[id], Lru.Find(list, id));
        return Succeeded;
      }
      if id !in cfg.registry {
        return NotFound;
      }
      if cfg.budget > 0 {
        var ok := EvictUntilFits(mb, rounds);
        if !ok {
          return OverBudget;
        }
      }
      out := LoadInstance(id, mb, fate);
    }

    /** The second half of EnsureInstance: insert or reuse, warm up, commit or give up. */
    method LoadInstance(id: ModelId, mb: nat, fate: Lru.Fate) returns (out: Outcome)
      requires Valid()
      modifies this, instances.Values
      ensures Valid()
      ensures (Abs(), out) == Lru.Load(old(Abs()), id, mb, fate)
      ensures forall x :: x in instances.Values ==> x in old(instances.Values) || fresh(x)
    {
      hide Tidy, Lru.Load, Lru.Placed, Lru.Bump, Lru.Find, Lru.Without;
      mstate := Loading;
      merr := "";
      var added := id !in instances;
      Lru.LoadInTwoSteps(old(Abs()), id, mb);
      var inst := Place(id, mb);
      if fate.Broken? {
        mstate := Error;
        merr := fate.text;
        return Canceled;
      }
      Commit(inst, id, if added then mb else 0);
      out := Succeeded;
    }

    /** The last critical section of EnsureInstance. */
    method Commit(inst: Instance, id: ModelId, counted: nat)
      requires Valid() && |list| > 0 && Linked(|list| - 1) && instances[list[|list| - 1].id] == inst
      modifies this`list, this`stamps, this`now, this`used, this`cur, this`mstate, this`merr, inst
      ensures Valid()
      ensures var n := |old(list)| - 1;
              Abs() == Lru.Cache(old(list)[n := old(list)[n].(st := Ready)], old(used) + counted, Ready, "", Some(id))
    {
      hide Valid, Linked, LinkedIn, EntryOf;
      used := used + counted;
      MarkReady(inst);
      cur := Some(id);
      mstate := Ready;
      merr := "";
    }

    /** The youngest instance becomes ready and is stamped again. */
    method MarkReady(inst: Instance)
      requires Valid() && |list| > 0 && Linked(|list| - 1) && instances[list[|list| - 1].id] == inst
      modifies this`list, this`stamps, this`now, inst
      ensures Valid()
      ensures var n := |old(list)| - 1; list == old(list)[n := old(list)[n].(st := Ready)]
    {
      hide Tidy;
      ghost var n := |list| - 1;
      Write(inst, n, Ready, inst.est, inst.q, inst.g);
      Lru.MoveLast(list);
      Touch(inst, n);
    }

    /** The loading instance of a model: the one in the map, or a new one. */
    method Place(id: ModelId, mb: nat) returns (inst: Instance)
      requires Valid()
      modifies this`instances, this`list, this`stamps, this`now, instances.Values
      ensures Valid() && |list| > 0 && Linked(|list| - 1) && instances[list[|list| - 1].id] == inst
      ensures inst in old(instances.Values) || fresh(inst)
      ensures forall x :: x in instances.Values ==> x in old(instances.Values) || fresh(x)
      ensures Lru.Find(old(list), id) == |old(list)| <==> id !in old(instances)
      ensures list == Lru.Placed(old(list), id, mb)
    {
      Located(id);
      ghost var l := list;
      ghost var i := Lru.Find(l, id);
      if id in instances {
        inst := instances[id];
        Write(inst, i, Loading, mb, inst.q, inst.g);
        ghost var e := list[i];
        Touch(inst, i);
        assert Lru.Without(l[i := e], i) == Lru.Without(l, i);
      } else {
        inst := Insert(id, mb);
      }
      assert Linked(|list| - 1);
    }

    /** beginGeneration; on success the caller holds both slots of the returned instance. */
    method BeginGeneration(m: ModelId, leaves: Lru.Leaves) returns (out: Outcome, inst: Instance?)
      requires Valid()
      modifies this`list, this`stamps, this`now, instances.Values
      ensures Valid()
      ensures (Abs(), out) == Lru.Begin(cfg, old(Abs()), m, leaves)
      ensures out == Succeeded <==>
                && m in old(instances) && old(instances[m].st) != Draining && leaves == Lru.Stays
                && old(instances[m].g) == 0 && old(instances[m].q) < cfg.depth
      ensures out == Succeeded ==>
                m in instances && inst == instances[m] && inst.g == 1 && 0 < inst.q == old(instances[m].q) + 1 <= cfg.depth
    {
      hide Valid;
      Located(m);
      if m !in instances {
        return NotFound, null;
      }
      var x := instances[m];
      ghost var l := list;
      ghost var i := Lru.Find(l, m);
      if x.st == Draining {
        return TooBusy, null;
      }
      if leaves == Lru.AtDoor {
        return Canceled, null;
      }
      out := if leaves == Lru.InQueue then Canceled else TooBusy;
      if x.q >= cfg.depth {
        return out, null;
      }
      Write(x, i, x.st, x.est, x.q + 1, x.g);
      if leaves == Lru.InQueue || x.g >= 1 {
        Write(x, i, x.st, x.est, x.q - 1, x.g);
        assert list == l;
        return out, null;
      }
      Acquire(x, i);
      assert Lru.Without(l[i := list[|l| - 1]], i) == Lru.Without(l, i);
      return Succeeded, x;
    }

    /** The generation slot is free: take it and stamp the instance. */
    method Acquire(x: Instance, ghost i: nat)
      requires Valid() && i < |list| && Linked(i) && instances[list[i].id] == x
      modifies this`list, this`stamps, this`now, x
      ensures Valid() && x.q == old(x.q) && x.g == old(x.g) + 1
      ensures var e := old(list)[i]; list == Lru.Without(old(list), i) + [e.(g := e.g + 1)]
    {
      hide Valid;
      ghost var l := list;
      Write(x, i, x.st, x.est, x.q, x.g + 1);
      ghost var e := list[i];
      Touch(x, i);
      assert Lru.Without(l[i := e], i) == Lru.Without(l, i);
    }

    /** The release closure, which keeps its instance even after the map has let go of it. */
    method Release(inst: Instance)
      requires Valid() && inst.q > 0 && inst.g > 0
      modifies this`list, inst
      ensures Valid() && inst.q == old(inst.q) - 1 && inst.g == old(inst.g) - 1
      ensures var i := Lru.Find(old(list), inst.id);
              if inst in instances.Values
              then i < |old(list)| && old(list)[i].q > 0 && old(list)[i].g > 0 && Abs() == Lru.Release(old(Abs()), i)
              else Abs() == old(Abs())
    {
      hide Tidy;
      Located(inst.id);
      ghost var i := Lru.Find(list, inst.id);
      if inst in instances.Values {
        OwnKey(inst);
        Write(inst, i, inst.st, inst.est, inst.q, inst.g - 1);
        Write(inst, i, inst.st, inst.est, inst.q - 1, inst.g);
      } else {
        inst.g := inst.g - 1;
        inst.q := inst.q - 1;
        forall j: nat | j < |list|
          ensures Linked(j)
        {
          assert old(Linked(j));
        }
      }
    }

    lemma OwnKey(inst: Instance)
      requires Valid() && inst in instances.Values
      ensures inst.id in instances && instances[inst.id] == inst
    {
      var k :| k in instances && instances[k] == inst;
      Located(k);
    }

    /** Unload; `drained` is false when it publishes unload_timeout. The drain loop reads the channels `polls`
        times before its deadline; after `finish` of those
        reads the request running on the instance, if there is one, gives its slots back. */
    method Unload(m: ModelId, polls: nat, finish: nat) returns (out: Outcome, drained: bool)
      requires Valid()
      modifies this, instances.Values
      ensures Valid()
      ensures (Abs(), out) == Lru.Unload(old(Abs()), m)
      ensures out == Succeeded ==> m in old(instances) && instances == old(instances) - {m}
      ensures out == Succeeded ==>
                var x := old(instances)[m];
                var leaves := finish < polls && old(x.q) > 0 && old(x.g) > 0;
                && x.st == Draining
                && x.q == (if leaves then old(x.q) - 1 else old(x.q)) && x.g == (if leaves then old(x.g) - 1 else old(x.g))
                && (drained <==> x.q == 0 && x.g == 0)
    {
      hide Valid;
      if m == "" {
        return NotFound, false;
      }
      Located(m);
      if m !in instances {
        return NotFound, false;
      }
      var inst := instances[m];
      ghost var l := list;
      ghost var i := Lru.Find(l, m);
      Write(inst, i, Draining, inst.est, inst.q, inst.g);
      drained := Drain(inst, i, polls, finish);
      ghost var list0 := list;
      used := used - inst.est;
      if used < 0 {
        used := 0;
      }
      Forget(m, i);
      assert Lru.Without(list0, i) == Lru.Without(l, i);
      if cur == Some(m) {
        cur := None;
      }
      return Succeeded, drained;
    }

    /** The drain loop. */
    method Drain(inst: Instance, ghost i: nat, polls: nat, finish: nat) returns (drained: bool)
      requires Valid() && i < |list| && Linked(i) && instances[list[i].id] == inst
      modifies this`list, inst
      ensures Valid() && i < |list| && inst.st == old(inst.st) && inst.est == old(inst.est)
      ensures list == old(list)[i := old(list)[i].(q := inst.q, g := inst.g)]
      ensures var leaves := finish < polls && old(inst.q) > 0 && old(inst.g) > 0;
              && inst.q == (if leaves then old(inst.q) - 1 else old(inst.q))
              && inst.g == (if leaves then old(inst.g) - 1 else old(inst.g))
      ensures drained <==> inst.q == 0 && inst.g == 0
    {
      hide Valid;
      ghost var l, q, g := list, inst.q, inst.g;
      var polled := 0;
      while (inst.q > 0 || inst.g > 0) && polled < polls
        invariant Valid() && |list| == |l| && Linked(i) && inst.st == old(inst.st) && inst.est == old(inst.est)
        invariant list == l[i := l[i].(q := inst.q, g := inst.g)]
        invariant 0 <= polled <= polls
        invariant inst.q == (if finish < polled && q > 0 && g > 0 then q - 1 else q)
        invariant inst.g == (if finish < polled && q > 0 && g > 0 then g - 1 else g)
        decreases polls - polled
      {
        if polled == finish && inst.q > 0 && inst.g > 0 {
          Write(inst, i, inst.st, inst.est, inst.q, inst.g - 1);
          Write(inst, i, inst.st, inst.est, inst.q - 1, inst.g);
        }
        polled := polled + 1;
      }
      drained := inst.q == 0 && inst.g == 0;
    }

    /** Ready: true if and only if there is no error and either some instance is ready or the manager
        itself is, with a current model. */
    method ReadyReport() returns (r: bool)
      requires Valid()
      ensures r <==> mstate != Error
                     && ((exists i :: 0 <= i < |list| && list[i].st == Ready) || (mstate == Ready && cur.Some?))
    {
      if mstate == Error {
        return false;
      }
      var todo := instances.Keys;
      while todo != {}
        invariant todo <= instances.Keys
        invariant forall k :: k in instances && k !in todo ==> instances[k].st != Ready
        decreases todo
      {
        var k :| k in todo;
        todo := todo - {k};
        Located(k);
        if instances[k].st == Ready {
          return true;
        }
      }
      forall i: nat | i < |list|
        ensures list[i].st != Ready
      {
        assert Linked(i);
      }
      return mstate == Ready && cur.Some?;
    }
  }
}
