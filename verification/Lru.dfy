/** The recency list that the timestamped instance map stands for when operations run one at a time:
    least recently used first, entries with a held slot pinned. */
module Lru {
  import opened Types

  datatype Entry = Entry(id: ModelId, est: nat, q: nat, g: nat, st: State)

  predicate Idle(e: Entry) { e.g == 0 && e.q == 0 }

  /** Position of the least recently used idle entry; the length when every entry is pinned. */
  function FirstIdle(l: seq<Entry>): (i: nat)
    ensures i <= |l|
    ensures forall j :: 0 <= j < i ==> !Idle(l[j])
    ensures i < |l| ==> Idle(l[i])
  {
    if l == [] then 0 else if Idle(l[0]) then 0 else 1 + FirstIdle(l[1..])
  }

  function Without<T>(l: seq<T>, i: nat): (r: seq<T>)
    requires i < |l|
    ensures |r| == |l| - 1
  {
    l[..i] + l[i + 1..]
  }

  predicate Fits(cfg: Config, used: int, need: nat) { used + need + cfg.margin <= cfg.budget }

  datatype Evicted = Evicted(list: seq<Entry>, used: int, ok: bool)

  /** Eviction on the list. The deadline passes during eviction number `rounds + 1`, if it gets there. */
  function Evict(cfg: Config, l: seq<Entry>, used: int, need: nat, rounds: nat): Evicted
    decreases |l|
  {
    if Fits(cfg, used, need) then Evicted(l, used, true)
    else
      var i := FirstIdle(l);
      if i == |l| then Evicted(l, used, false)
      else if rounds == 0 then Evicted(Without(l, i), used - l[i].est, true)
      else Evict(cfg, Without(l, i), used - l[i].est, need, rounds - 1)
  }

  // ---- the exact effect of eviction ----

  function IdleCount(l: seq<Entry>): nat {
    if l == [] then 0 else (if Idle(l[0]) then 1 else 0) + IdleCount(l[1..])
  }

  /** `l` without its `k` least recently used idle entries. */
  function DropIdle(l: seq<Entry>, k: nat): seq<Entry> {
    if l == [] || k == 0 then l
    else if Idle(l[0]) then DropIdle(l[1..], k - 1)
    else [l[0]] + DropIdle(l[1..], k)
  }

  /** What those `k` entries were estimated at. */
  function IdleEst(l: seq<Entry>, k: nat): nat {
    if l == [] || k == 0 then 0
    else if Idle(l[0]) then l[0].est + IdleEst(l[1..], k - 1)
    else IdleEst(l[1..], k)
  }

  function Pinned(l: seq<Entry>): seq<Entry> {
    if l == [] then [] else if Idle(l[0]) then Pinned(l[1..]) else [l[0]] + Pinned(l[1..])
  }

  lemma PinnedFirst(l: seq<Entry>, k: nat)
    requires l != [] && !Idle(l[0])
    ensures DropIdle(l, k) == [l[0]] + DropIdle(l[1..], k) && IdleEst(l, k) == IdleEst(l[1..], k)
  {
    if k == 0 {
      assert l == [l[0]] + l[1..];
    }
  }

  lemma {:induction false} DropFirst(l: seq<Entry>)
    requires FirstIdle(l) < |l|
    ensures IdleCount(Without(l, FirstIdle(l))) == IdleCount(l) - 1
    ensures forall k: nat :: DropIdle(Without(l, FirstIdle(l)), k) == DropIdle(l, k + 1)
    ensures forall k: nat :: l[FirstIdle(l)].est + IdleEst(Without(l, FirstIdle(l)), k) == IdleEst(l, k + 1)
  {
    var i := FirstIdle(l);
    if i == 0 {
      assert Without(l, 0) == l[1..];
      forall k: nat
        ensures DropIdle(Without(l, 0), k) == DropIdle(l, k + 1)
        ensures l[0].est + IdleEst(Without(l, 0), k) == IdleEst(l, k + 1)
      {
      }
    } else {
      DropFirst(l[1..]);
      var r := Without(l, i);
      assert r[1..] == Without(l[1..], i - 1) && r[0] == l[0];
      assert l[i] == l[1..][i - 1];
      forall k: nat
        ensures DropIdle(r, k) == DropIdle(l, k + 1)
        ensures l[i].est + IdleEst(r, k) == IdleEst(l, k + 1)
      {
        assert DropIdle(r[1..], k) == DropIdle(l[1..], k + 1);
        PinnedFirst(r, k);
        PinnedFirst(l, k + 1);
      }
    }
  }

  lemma {:induction false} NoneIdle(l: seq<Entry>)
    ensures FirstIdle(l) == |l| <==> IdleCount(l) == 0
  {
    if l != [] {
      NoneIdle(l[1..]);
    }
  }

  /** How many entries eviction drops. */
  function Victims(cfg: Config, l: seq<Entry>, used: int, need: nat, rounds: nat): nat
    decreases |l|
  {
    if Fits(cfg, used, need) then 0
    else
      var i := FirstIdle(l);
      if i == |l| then 0
      else if rounds == 0 then 1
      else 1 + Victims(cfg, Without(l, i), used - l[i].est, need, rounds - 1)
  }

  lemma DropNone(l: seq<Entry>)
    ensures DropIdle(l, 0) == l && IdleEst(l, 0) == 0
  {
  }

  lemma {:induction false} EvictIsDrop(cfg: Config, l: seq<Entry>, used: int, need: nat, rounds: nat)
    ensures var r, k := Evict(cfg, l, used, need, rounds), Victims(cfg, l, used, need, rounds);
            r.list == DropIdle(l, k) && r.used == used - IdleEst(l, k) && k <= IdleCount(l) && k <= rounds + 1
    decreases |l|
  {
    hide FirstIdle, DropIdle, IdleEst, IdleCount;
    NoneIdle(l);
    DropNone(l);
    var i := FirstIdle(l);
    if !Fits(cfg, used, need) && i < |l| {
      DropFirst(l);
      var m, u := Without(l, i), used - l[i].est;
      DropNone(m);
      var k := if rounds == 0 then 0 else Victims(cfg, m, u, need, rounds - 1);
      if rounds > 0 {
        EvictIsDrop(cfg, m, u, need, rounds - 1);
      }
      assert DropIdle(l, k + 1) == DropIdle(m, k) && IdleEst(l, k + 1) == l[i].est + IdleEst(m, k);
    }
  }

  lemma {:induction false} VictimsNeeded(cfg: Config, l: seq<Entry>, used: int, need: nat, rounds: nat, j: nat)
    requires j < Victims(cfg, l, used, need, rounds)
    ensures !Fits(cfg, used - IdleEst(l, j), need)
    decreases |l|
  {
    var i := FirstIdle(l);
    if j > 0 {
      DropFirst(l);
      var m, u := Without(l, i), used - l[i].est;
      VictimsNeeded(cfg, m, u, need, rounds - 1, j - 1);
      assert IdleEst(l, (j - 1) + 1) == l[i].est + IdleEst(m, j - 1);
    }
  }

  lemma {:induction false} EvictVerdict(cfg: Config, l: seq<Entry>, used: int, need: nat, rounds: nat)
    ensures var r, k := Evict(cfg, l, used, need, rounds), Victims(cfg, l, used, need, rounds);
            && (r.ok <==> Fits(cfg, r.used, need) || k == rounds + 1)
            && (!r.ok ==> k == IdleCount(l))
    decreases |l|
  {
    NoneIdle(l);
    var i := FirstIdle(l);
    if !Fits(cfg, used, need) && i < |l| && rounds > 0 {
      DropFirst(l);
      EvictVerdict(cfg, Without(l, i), used - l[i].est, need, rounds - 1);
    }
  }

  /** The victims are the shortest prefix of the idle entries, in recency order, that makes room; a
      refusal has dropped them all; only the deadline stops short of either. */
  lemma EvictShortestPrefix(cfg: Config, l: seq<Entry>, used: int, need: nat, rounds: nat)
    ensures var r, k := Evict(cfg, l, used, need, rounds), Victims(cfg, l, used, need, rounds);
            && k <= IdleCount(l) && k <= rounds + 1
            && r.list == DropIdle(l, k) && r.used == used - IdleEst(l, k)
            && (forall j: nat :: j < k ==> !Fits(cfg, used - IdleEst(l, j), need))
            && (r.ok <==> Fits(cfg, r.used, need) || k == rounds + 1)
            && (!r.ok ==> k == IdleCount(l))
  {
    EvictIsDrop(cfg, l, used, need, rounds);
    EvictVerdict(cfg, l, used, need, rounds);
    forall j: nat | j < Victims(cfg, l, used, need, rounds)
      ensures !Fits(cfg, used - IdleEst(l, j), need)
    {
      VictimsNeeded(cfg, l, used, need, rounds, j);
    }
  }

  lemma {:induction false} IdleEstMonotone(l: seq<Entry>, j: nat, k: nat)
    requires j <= k
    ensures IdleEst(l, j) <= IdleEst(l, k)
  {
    if l != [] && j > 0 {
      if Idle(l[0]) {
        IdleEstMonotone(l[1..], j - 1, k - 1);
      } else {
        IdleEstMonotone(l[1..], j, k);
      }
    }
  }

  /** Without the deadline, eviction succeeds if and only if dropping every idle entry would make room. */
  lemma EvictSucceedsIff(cfg: Config, l: seq<Entry>, used: int, need: nat, rounds: nat)
    requires rounds >= IdleCount(l)
    ensures var r := Evict(cfg, l, used, need, rounds);
            && (r.ok <==> Fits(cfg, used - IdleEst(l, IdleCount(l)), need))
            && (r.ok ==> Fits(cfg, r.used, need))
  {
    EvictShortestPrefix(cfg, l, used, need, rounds);
    var k := Victims(cfg, l, used, need, rounds);
    IdleEstMonotone(l, k, IdleCount(l));
  }

  /** Eviction reports success without having made room exactly when its deadline passes during an
      eviction after which the load still does not fit. */
  lemma DeadlineExit(cfg: Config, l: seq<Entry>, used: int, need: nat, rounds: nat)
    ensures var r := Evict(cfg, l, used, need, rounds);
            r.ok && !Fits(cfg, r.used, need)
            <==> rounds + 1 <= IdleCount(l) && !Fits(cfg, used - IdleEst(l, rounds + 1), need)
  {
    EvictShortestPrefix(cfg, l, used, need, rounds);
    var k := Victims(cfg, l, used, need, rounds);
    IdleEstMonotone(l, k, rounds + 1);
  }

  lemma {:induction false} DropKeepsPinned(l: seq<Entry>, k: nat)
    ensures Pinned(DropIdle(l, k)) == Pinned(l)
  {
    if l != [] && k > 0 {
      DropKeepsPinned(l[1..], if Idle(l[0]) then k - 1 else k);
      if !Idle(l[0]) {
        var d := DropIdle(l, k);
        assert d[0] == l[0] && d[1..] == DropIdle(l[1..], k);
      }
    }
  }

  /** Pinned entries survive eviction, in order. */
  lemma EvictKeepsPinned(cfg: Config, l: seq<Entry>, used: int, need: nat, rounds: nat)
    ensures Pinned(Evict(cfg, l, used, need, rounds).list) == Pinned(l)
  {
    EvictShortestPrefix(cfg, l, used, need, rounds);
    DropKeepsPinned(l, Victims(cfg, l, used, need, rounds));
  }

  // ---- whole operations ----

  datatype Cache = Cache(list: seq<Entry>, used: int, mstate: State, merr: string, cur: Option<ModelId>)

  datatype Fate = Warmed | Broken(text: string)

  /** Position of a model in the list; the length when absent. */
  function Find(l: seq<Entry>, id: ModelId): (i: nat)
    ensures i <= |l|
    ensures i < |l| ==> l[i].id == id
    ensures forall j :: 0 <= j < i ==> l[j].id != id
  {
    if l == [] then 0 else if l[0].id == id then 0 else 1 + Find(l[1..], id)
  }

  lemma FindAt(l: seq<Entry>, id: ModelId, j: nat)
    requires j < |l| && l[j].id == id
    ensures Find(l, id) <= j
  {
  }

  lemma FindWithout(l: seq<Entry>, i: nat, id: ModelId)
    requires i < |l| && Find(l, id) < |l| && l[i].id != id
    ensures Find(Without(l, i), id) < |l| - 1
  {
    var j := Find(l, id);
    FindAt(Without(l, i), id, if j < i then j else j - 1);
  }

  lemma FindMoved(l: seq<Entry>, i: nat, id: ModelId)
    requires i < |l| && Find(l, id) < |l|
    ensures Find(Without(l, i) + [l[i]], id) < |l|
  {
    var j := Find(l, id);
    FindAt(Without(l, i) + [l[i]], id, if j < i then j else if j > i then j - 1 else |l| - 1);
  }

  lemma {:induction false} FindUpdate(l: seq<Entry>, i: nat, e: Entry, id: ModelId)
    requires i < |l| && e.id == l[i].id
    ensures Find(l[i := e], id) == Find(l, id)
  {
    if i > 0 {
      FindUpdate(l[1..], i - 1, e, id);
      assert l[i := e][1..] == l[1..][i - 1 := e];
    } else {
      assert l[0 := e][1..] == l[1..];
    }
  }

  /** Drop any entry of `e`'s model and put `e` last. */
  function Bump(l: seq<Entry>, e: Entry): seq<Entry> {
    var i := Find(l, e.id);
    (if i < |l| then Without(l, i) else l) + [e]
  }

  /** EnsureInstance: a hit moves to the back; a miss evicts, then loads at the back. */
  function Ensure(cfg: Config, s: Cache, m: ModelId, mb: nat, rounds: nat, fate: Fate): (Cache, Outcome) {
    var id := if m == "" then cfg.fallback else m;
    if id == "" then (s, Succeeded)
    else
      var i := Find(s.list, id);
      if i < |s.list| && s.list[i].st == Ready then (s.(list := Bump(s.list, s.list[i])), Succeeded)
      else if id !in cfg.registry then (s, NotFound)
      else
        var ev := if cfg.budget > 0 then Evict(cfg, s.list, s.used, mb, rounds) else Evicted(s.list, s.used, true);
        if !ev.ok then (s.(list := ev.list, used := ev.used), OverBudget)
        else Load(s.(list := ev.list, used := ev.used), id, mb, fate)
  }

  function Load(s: Cache, id: ModelId, mb: nat, fate: Fate): (Cache, Outcome) {
    var i := Find(s.list, id);
    var added := i == |s.list|;
    var e := if added then Entry(id, mb, 0, 0, Loading) else s.list[i].(st := Loading, est := mb);
    match fate
    case Broken(text) => (s.(list := Bump(s.list, e), mstate := Error, merr := text), Canceled)
    case Warmed =>
      (s.(list := Bump(s.list, e.(st := Ready)), used := if added then s.used + mb else s.used,
          mstate := Ready, merr := "", cur := Some(id)), Succeeded)
  }

  /** The list once the loading instance is in place, before the warmup. */
  function Placed(l: seq<Entry>, id: ModelId, mb: nat): seq<Entry> {
    var i := Find(l, id);
    Bump(l, if i == |l| then Entry(id, mb, 0, 0, Loading) else l[i].(st := Loading, est := mb))
  }

  /** A load places its instance and, if the warmup succeeds, marks it ready where it stands. */
  lemma LoadInTwoSteps(s: Cache, id: ModelId, mb: nat)
    ensures var p := Placed(s.list, id, mb);
            && |p| > 0
            && (forall text :: Load(s, id, mb, Broken(text)) == (s.(list := p, mstate := Error, merr := text), Canceled))
            && Load(s, id, mb, Warmed)
               == (Cache(p[|p| - 1 := p[|p| - 1].(st := Ready)], if Find(s.list, id) == |s.list| then s.used + mb else s.used,
                         Ready, "", Some(id)), Succeeded)
  {
    var i := Find(s.list, id);
    var e := if i == |s.list| then Entry(id, mb, 0, 0, Loading) else s.list[i].(st := Loading, est := mb);
    var rest := if i < |s.list| then Without(s.list, i) else s.list;
    assert (rest + [e])[|rest| := e.(st := Ready)] == rest + [e.(st := Ready)];
  }

  lemma MoveLast(l: seq<Entry>)
    requires |l| > 0
    ensures Without(l, |l| - 1) + [l[|l| - 1]] == l
  {
  }

  /** Whether a caller's context ends during admission: not at all, before it queues, or in the queue. */
  datatype Leaves = Stays | AtDoor | InQueue

  /** beginGeneration with nobody else moving: a full queue or a running generation times out. */
  function Begin(cfg: Config, s: Cache, m: ModelId, leaves: Leaves): (Cache, Outcome) {
    var i := Find(s.list, m);
    if i == |s.list| then (s, NotFound)
    else if s.list[i].st == Draining then (s, TooBusy)
    else if leaves != Stays then (s, Canceled)
    else if s.list[i].q >= cfg.depth || s.list[i].g >= 1 then (s, TooBusy)
    else
      var e := s.list[i];
      (s.(list := Bump(s.list, e.(q := e.q + 1, g := e.g + 1))), Succeeded)
  }

  /** The release closure of an instance still in the map. */
  function Release(s: Cache, i: nat): Cache
    requires i < |s.list| && s.list[i].q > 0 && s.list[i].g > 0
  {
    var e := s.list[i];
    s.(list := s.list[i := e.(q := e.q - 1, g := e.g - 1)])
  }

  function Unload(s: Cache, m: ModelId): (Cache, Outcome) {
    var i := Find(s.list, m);
    if m == "" || i == |s.list| then (s, NotFound)
    else
      var left := s.used - s.list[i].est;
      (s.(list := Without(s.list, i), used := if left < 0 then 0 else left,
          cur := if s.cur == Some(m) then None else s.cur), Succeeded)
  }

  // ---- what each operation returns, and what it leaves ----

  /** The model is in the list with this state. */
  predicate Holds(l: seq<Entry>, id: ModelId, st: State) {
    var i := Find(l, id);
    i < |l| && l[i].st == st
  }

  lemma FindReady(l: seq<Entry>, id: ModelId)
    ensures !Holds(l, id, Ready) <==> Find(l, id) == |l| || l[Find(l, id)].st != Ready
  {
  }

  /** Room for the load cannot be made, and no deadline hides it. */
  predicate NoRoom(cfg: Config, s: Cache, mb: nat, rounds: nat) {
    !Fits(cfg, s.used - IdleEst(s.list, IdleCount(s.list)), mb) && rounds >= IdleCount(s.list)
  }

  lemma EvictFailsIff(cfg: Config, s: Cache, mb: nat, rounds: nat)
    ensures !Evict(cfg, s.list, s.used, mb, rounds).ok <==> NoRoom(cfg, s, mb, rounds)
  {
    EvictShortestPrefix(cfg, s.list, s.used, mb, rounds);
    var n, k := IdleCount(s.list), Victims(cfg, s.list, s.used, mb, rounds);
    IdleEstMonotone(s.list, k, n);
    if rounds < n && k == n {
      assert k == rounds + 1;
    }
  }

  /** Every outcome of an ensure, and what a hit leaves. */
  lemma EnsureOutcome(cfg: Config, s: Cache, m: ModelId, mb: nat, rounds: nat, fate: Fate)
    ensures var (s', out) := Ensure(cfg, s, m, mb, rounds, fate);
            var id := if m != "" then m else cfg.fallback;
            var missed := id != "" && !Holds(s.list, id, Ready);
            var loads := missed && id in cfg.registry && (cfg.budget > 0 ==> !NoRoom(cfg, s, mb, rounds));
            && (out == NotFound <==> missed && id !in cfg.registry)
            && (out == OverBudget <==> missed && id in cfg.registry && cfg.budget > 0 && NoRoom(cfg, s, mb, rounds))
            && (out == Canceled <==> loads && fate.Broken?)
            && (out == Succeeded <==> id == "" || Holds(s.list, id, Ready) || (loads && fate.Warmed?))
            && (id == "" || out == NotFound ==> s' == s)
            && (id != "" && Holds(s.list, id, Ready) ==>
                  var i := Find(s.list, id);
                  s' == Cache(s.list[..i] + s.list[i + 1..] + [s.list[i]], s.used, s.mstate, s.merr, s.cur))
            && (out == OverBudget ==>
                  s' == Cache(Pinned(s.list), s.used - IdleEst(s.list, IdleCount(s.list)), s.mstate, s.merr, s.cur))
  {
    hide FirstIdle, Evict, IdleEst, IdleCount, NoRoom;
    var id := if m == "" then cfg.fallback else m;
    FindReady(s.list, id);
    var ev := if cfg.budget > 0 then Evict(cfg, s.list, s.used, mb, rounds) else Evicted(s.list, s.used, true);
    if cfg.budget > 0 {
      EvictFailsIff(cfg, s, mb, rounds);
      RefusalDropsIdle(cfg, s, mb, rounds);
    }
    LoadOutcome(s.(list := ev.list, used := ev.used), id, mb, fate);
    hide Load;
  }

  lemma LoadOutcome(s: Cache, id: ModelId, mb: nat, fate: Fate)
    ensures Load(s, id, mb, fate).1 == if fate.Broken? then Canceled else Succeeded
    ensures fate.Broken? ==> Load(s, id, mb, fate).0.used == s.used
  {
  }

  lemma {:induction false} DropAllIsPinned(l: seq<Entry>)
    ensures DropIdle(l, IdleCount(l)) == Pinned(l)
  {
    if l != [] {
      DropAllIsPinned(l[1..]);
      if !Idle(l[0]) {
        PinnedFirst(l, IdleCount(l));
      }
    }
  }

  lemma RefusalDropsIdle(cfg: Config, s: Cache, mb: nat, rounds: nat)
    ensures var ev := Evict(cfg, s.list, s.used, mb, rounds);
            !ev.ok ==> ev.list == Pinned(s.list) && ev.used == s.used - IdleEst(s.list, IdleCount(s.list))
  {
    EvictShortestPrefix(cfg, s.list, s.used, mb, rounds);
    DropAllIsPinned(s.list);
  }

  /** What a load makes of the cache `t` it starts from. */
  predicate Loaded(t: Cache, s': Cache, id: ModelId, mb: nat, fate: Fate) {
    var i := Find(t.list, id);
    var e := if i < |t.list| then t.list[i] else Entry(id, 0, 0, 0, Loading);
    var others := if i < |t.list| then t.list[..i] + t.list[i + 1..] else t.list;
    match fate
    case Warmed =>
      s' == Cache(others + [Entry(id, mb, e.q, e.g, Ready)], if i < |t.list| then t.used else t.used + mb, Ready, "", Some(id))
    case Broken(text) => s' == Cache(others + [Entry(id, mb, e.q, e.g, Loading)], t.used, Error, text, t.cur)
  }

  lemma LoadLoads(t: Cache, id: ModelId, mb: nat, fate: Fate)
    ensures Loaded(t, Load(t, id, mb, fate).0, id, mb, fate)
  {
  }

  /** A load that goes ahead drops the shortest sufficient prefix of the idle entries, or the prefix the
      deadline allowed, and puts its model last: ready, counted if new, and current; or, if the warmup
      breaks, loading and uncounted. A model that was in the map keeps its channels. */
  lemma EnsureLoads(cfg: Config, s: Cache, m: ModelId, mb: nat, rounds: nat, fate: Fate) returns (k: nat)
    requires var id := if m != "" then m else cfg.fallback;
             id != "" && !Holds(s.list, id, Ready) && id in cfg.registry && (cfg.budget > 0 ==> !NoRoom(cfg, s, mb, rounds))
    ensures k <= IdleCount(s.list) && (cfg.budget <= 0 ==> k == 0)
    ensures forall j: nat :: j < k ==> !Fits(cfg, s.used - IdleEst(s.list, j), mb)
    ensures cfg.budget > 0 ==> Fits(cfg, s.used - IdleEst(s.list, k), mb) || k == rounds + 1
    ensures Loaded(s.(list := DropIdle(s.list, k), used := s.used - IdleEst(s.list, k)),
                   Ensure(cfg, s, m, mb, rounds, fate).0, if m != "" then m else cfg.fallback, mb, fate)
  {
    hide FirstIdle, Evict, IdleEst, IdleCount, DropIdle, NoRoom, Fits, Load, Loaded, Victims, Bump;
    var id := if m == "" then cfg.fallback else m;
    FindReady(s.list, id);
    k := 0;
    DropNone(s.list);
    if cfg.budget > 0 {
      k := Victims(cfg, s.list, s.used, mb, rounds);
      EvictFailsIff(cfg, s, mb, rounds);
      EvictShortestPrefix(cfg, s.list, s.used, mb, rounds);
    }
    LoadLoads(s.(list := DropIdle(s.list, k), used := s.used - IdleEst(s.list, k)), id, mb, fate);
  }

  /** Every outcome of an admission. Success takes both slots and moves the entry to the back; anything else
      leaves no trace. */
  lemma BeginOutcome(cfg: Config, s: Cache, m: ModelId, leaves: Leaves)
    ensures var (s', out) := Begin(cfg, s, m, leaves);
            var i := Find(s.list, m);
            && (out == NotFound <==> i == |s.list|)
            && (i < |s.list| ==>
                  var e := s.list[i];
                  var open := e.st != Draining;
                  && (out == Canceled <==> open && leaves != Stays)
                  && (out == TooBusy <==> !open || (leaves == Stays && !(e.g == 0 && e.q < cfg.depth)))
                  && (out == Succeeded <==> open && leaves == Stays && e.g == 0 && e.q < cfg.depth)
                  && (out == Succeeded ==>
                        s' == Cache(s.list[..i] + s.list[i + 1..] + [Entry(m, e.est, e.q + 1, 1, e.st)],
                                    s.used, s.mstate, s.merr, s.cur)))
            && (out != Succeeded ==> s' == s)
  {
  }

  /** A release takes one from both channels of its entry and changes nothing else. */
  lemma ReleaseOutcome(s: Cache, i: nat)
    requires i < |s.list| && s.list[i].q > 0 && s.list[i].g > 0
    ensures var e := s.list[i];
            Release(s, i) == Cache(s.list[..i] + [Entry(e.id, e.est, e.q - 1, e.g - 1, e.st)] + s.list[i + 1..],
                                   s.used, s.mstate, s.merr, s.cur)
  {
  }

  /** What an Unload leaves: the model's entry gone, its estimate taken off but not below zero, and the current
      model forgotten if it was the one. */
  lemma UnloadOutcome(cfg: Config, s: Cache, m: ModelId)
    ensures var (s', out) := Unload(s, m);
            var i := Find(s.list, m);
            && (out == NotFound <==> m == "" || i == |s.list|)
            && (out == Succeeded <==> m != "" && i < |s.list|)
            && (out == NotFound ==> s' == s)
            && (out == Succeeded ==>
                  && s'.list == s.list[..i] + s.list[i + 1..]
                  && (s.used >= s.list[i].est ==> s'.used == s.used - s.list[i].est)
                  && (s.used < s.list[i].est ==> s'.used == 0)
                  && s'.mstate == s.mstate && s'.merr == s.merr
                  && (s'.cur == None <==> s.cur == None || s.cur == Some(m))
                  && (s'.cur != None ==> s'.cur == s.cur))
  {
  }

  // ---- runs of whole operations ----

  datatype Op =
    | DoEnsure(m: ModelId, mb: nat, rounds: nat, fate: Fate)
    | DoBegin(m: ModelId, leaves: Leaves)
    | DoRelease(i: nat)
    | DoUnload(m: ModelId)

  function Apply(cfg: Config, s: Cache, op: Op): Cache {
    match op
    case DoEnsure(m, mb, rounds, fate) => Ensure(cfg, s, m, mb, rounds, fate).0
    case DoBegin(m, leaves) => Begin(cfg, s, m, leaves).0
    case DoRelease(i) => if i < |s.list| && s.list[i].q > 0 && s.list[i].g > 0 then Release(s, i) else s
    case DoUnload(m) => Unload(s, m).0
  }

  function Run(cfg: Config, s: Cache, ops: seq<Op>): Cache {
    if ops == [] then s else Apply(cfg, Run(cfg, s, ops[..|ops| - 1]), ops[|ops| - 1])
  }

  function EstSum(l: seq<Entry>): nat {
    if l == [] then 0 else EstSum(l[..|l| - 1]) + l[|l| - 1].est
  }

  lemma {:induction false} EstSumSplit(a: seq<Entry>, b: seq<Entry>)
    ensures EstSum(a + b) == EstSum(a) + EstSum(b)
  {
    if b == [] {
      assert a + b == a;
    } else {
      var n := |b| - 1;
      EstSumSplit(a, b[..n]);
      assert (a + b)[..|a + b| - 1] == a + b[..n];
    }
  }

  lemma EstSumOne(e: Entry)
    ensures EstSum([e]) == e.est
  {
    assert [e][..0] == [];
  }

  lemma EstSumWithout(l: seq<Entry>, i: nat)
    requires i < |l|
    ensures EstSum(Without(l, i)) == EstSum(l) - l[i].est
  {
    hide EstSum;
    EstSumSplit(l[..i], l[i + 1..]);
    EstSumSplit(l[..i], [l[i]]);
    EstSumSplit(l[..i] + [l[i]], l[i + 1..]);
    assert l == l[..i] + [l[i]] + l[i + 1..];
    EstSumOne(l[i]);
  }

  lemma EstSumBump(l: seq<Entry>, e: Entry)
    ensures var i := Find(l, e.id);
            EstSum(Bump(l, e)) == EstSum(l) - (if i < |l| then l[i].est else 0) + e.est
  {
    hide EstSum;
    var i := Find(l, e.id);
    EstSumOne(e);
    if i < |l| {
      EstSumWithout(l, i);
      EstSumSplit(Without(l, i), [e]);
    } else {
      EstSumSplit(l, [e]);
    }
  }

  lemma {:induction false} EvictExactSum(cfg: Config, l: seq<Entry>, used: int, need: nat, rounds: nat)
    ensures var r := Evict(cfg, l, used, need, rounds); EstSum(r.list) - r.used == EstSum(l) - used
    decreases |l|
  {
    var i := FirstIdle(l);
    if !Fits(cfg, used, need) && i < |l| {
      EstSumWithout(l, i);
      if rounds > 0 {
        EvictExactSum(cfg, Without(l, i), used - l[i].est, need, rounds - 1);
      }
    }
  }

  /** Only ready instances, and the counter is the sum of their estimates and within the budget. */
  predicate Balanced(cfg: Config, s: Cache) {
    && s.used == EstSum(s.list)
    && (forall i :: 0 <= i < |s.list| ==> s.list[i].st == Ready)
    && (cfg.budget > 0 ==> s.used + cfg.margin <= cfg.budget)
  }

  /** The deadline passes during an eviction after which the load still does not fit. */
  predicate LateExit(cfg: Config, s: Cache, mb: nat, rounds: nat) {
    rounds + 1 <= IdleCount(s.list) && !Fits(cfg, s.used - IdleEst(s.list, rounds + 1), mb)
  }

  /** The ensure gets as far as loading. */
  predicate Loads(cfg: Config, s: Cache, m: ModelId, mb: nat, rounds: nat) {
    var id := if m == "" then cfg.fallback else m;
    var i := Find(s.list, id);
    && id != "" && !(i < |s.list| && s.list[i].st == Ready) && id in cfg.registry
    && (cfg.budget > 0 ==> Evict(cfg, s.list, s.used, mb, rounds).ok)
  }

  /** The operation is neither a load that is cancelled nor one that goes ahead without room. */
  predicate Calm(cfg: Config, s: Cache, op: Op) {
    op.DoEnsure? && Loads(cfg, s, op.m, op.mb, op.rounds)
    ==> op.fate.Warmed? && (cfg.budget > 0 ==> !LateExit(cfg, s, op.mb, op.rounds))
  }

  lemma {:induction false} DropIdleFrom(l: seq<Entry>, k: nat)
    ensures forall e :: e in DropIdle(l, k) ==> e in l
  {
    if l != [] && k > 0 {
      DropIdleFrom(l[1..], if Idle(l[0]) then k - 1 else k);
    }
  }

  /** Making room keeps the balance, and leaves room for the load but for a late exit. */
  lemma EvictKeepsBalance(cfg: Config, s: Cache, mb: nat, rounds: nat)
    requires s.used == EstSum(s.list)
    ensures var ev := Evict(cfg, s.list, s.used, mb, rounds);
            && ev.used == EstSum(ev.list) && ev.used <= s.used
            && (ev.ok ==> (Fits(cfg, ev.used, mb) <==> !LateExit(cfg, s, mb, rounds)))
            && forall e :: e in ev.list ==> e in s.list
  {
    EvictExactSum(cfg, s.list, s.used, mb, rounds);
    EvictShortestPrefix(cfg, s.list, s.used, mb, rounds);
    DeadlineExit(cfg, s.list, s.used, mb, rounds);
    DropIdleFrom(s.list, Victims(cfg, s.list, s.used, mb, rounds));
  }

  lemma LoadBalanceIff(cfg: Config, s: Cache, id: ModelId, mb: nat, fate: Fate)
    requires Balanced(cfg, s) && Find(s.list, id) == |s.list|
    ensures Balanced(cfg, Load(s, id, mb, fate).0) <==> fate.Warmed? && (cfg.budget > 0 ==> Fits(cfg, s.used, mb))
    ensures fate.Broken? ==> EstSum(Load(s, id, mb, fate).0.list) == s.used + mb
  {
    hide EstSum;
    EstSumBump(s.list, Entry(id, mb, 0, 0, Ready));
    EstSumBump(s.list, Entry(id, mb, 0, 0, Loading));
    var l := Load(s, id, mb, fate).0.list;
    if fate.Broken? {
      assert l[|l| - 1].st == Loading;
    }
  }

  /** An ensure keeps the balance if and only if it is calm. A cancelled load leaves its whole estimate in
      the map without telling the counter. */
  lemma EnsureBalanceIff(cfg: Config, s: Cache, m: ModelId, mb: nat, rounds: nat, fate: Fate)
    requires Balanced(cfg, s)
    ensures Balanced(cfg, Ensure(cfg, s, m, mb, rounds, fate).0) <==> Calm(cfg, s, DoEnsure(m, mb, rounds, fate))
    ensures var r := Ensure(cfg, s, m, mb, rounds, fate);
            r.1 == Canceled ==> EstSum(r.0.list) == r.0.used + mb
  {
    hide EstSum, Evict, Load, IdleCount, FirstIdle, LateExit, Fits;
    var id := if m == "" then cfg.fallback else m;
    var i := Find(s.list, id);
    if id == "" || (i == |s.list| && id !in cfg.registry) {
    } else if i < |s.list| {
      assert s.list[i].st == Ready;
      EstSumBump(s.list, s.list[i]);
    } else {
      var ev := if cfg.budget > 0 then Evict(cfg, s.list, s.used, mb, rounds) else Evicted(s.list, s.used, true);
      if cfg.budget > 0 {
        EvictKeepsBalance(cfg, s, mb, rounds);
      }
      forall j | 0 <= j < |ev.list|
        ensures ev.list[j].st == Ready && ev.list[j].id != id
      {
        assert ev.list[j] in s.list;
      }
      if ev.ok {
        LoadBalanceIff(cfg, s.(list := ev.list, used := ev.used), id, mb, fate);
        LoadOutcome(s.(list := ev.list, used := ev.used), id, mb, fate);
      }
    }
  }

  lemma BeginKeepsBalance(cfg: Config, s: Cache, m: ModelId, leaves: Leaves)
    requires Balanced(cfg, s)
    ensures Balanced(cfg, Begin(cfg, s, m, leaves).0)
  {
    hide EstSum, Bump;
    var i := Find(s.list, m);
    if i < |s.list| {
      var e := s.list[i];
      EstSumBump(s.list, e.(q := e.q + 1, g := e.g + 1));
      BumpFrom(s.list, e.(q := e.q + 1, g := e.g + 1));
      var l := Begin(cfg, s, m, leaves).0.list;
      forall j | 0 <= j < |l|
        ensures l[j].st == Ready
      {
        assert l[j] in l;
      }
    }
  }

  lemma BumpFrom(l: seq<Entry>, e: Entry)
    ensures forall x :: x in Bump(l, e) ==> x in l || x == e
  {
  }

  lemma UnloadKeepsBalance(cfg: Config, s: Cache, m: ModelId)
    requires Balanced(cfg, s)
    ensures Balanced(cfg, Unload(s, m).0)
    ensures Find(s.list, m) < |s.list| && m != "" ==> Unload(s, m).0.used == s.used - s.list[Find(s.list, m)].est
  {
    var i := Find(s.list, m);
    if i < |s.list| {
      EstSumWithout(s.list, i);
    }
  }

  /** One operation keeps the balance if and only if it is calm. */
  lemma ApplyBalanceIff(cfg: Config, s: Cache, op: Op)
    requires Balanced(cfg, s)
    ensures Balanced(cfg, Apply(cfg, s, op)) <==> Calm(cfg, s, op)
  {
    hide Balanced, Ensure, Begin, Unload, Loads;
    match op
    case DoEnsure(m, mb, rounds, fate) => EnsureBalanceIff(cfg, s, m, mb, rounds, fate);
    case DoBegin(m, leaves) => BeginKeepsBalance(cfg, s, m, leaves);
    case DoRelease(i) =>
      if i < |s.list| && s.list[i].q > 0 && s.list[i].g > 0 {
        ReleaseKeepsBalance(cfg, s, i);
      }
    case DoUnload(m) => UnloadKeepsBalance(cfg, s, m);
  }

  lemma ReleaseKeepsBalance(cfg: Config, s: Cache, i: nat)
    requires Balanced(cfg, s) && i < |s.list| && s.list[i].q > 0 && s.list[i].g > 0
    ensures Balanced(cfg, Release(s, i))
  {
    var e := s.list[i];
    EstSumUpdate(s.list, i, e.(q := e.q - 1, g := e.g - 1));
  }

  lemma EstSumUpdate(l: seq<Entry>, i: nat, e: Entry)
    requires i < |l| && e.est == l[i].est
    ensures EstSum(l[i := e]) == EstSum(l)
  {
    EstSumWithout(l, i);
    EstSumWithout(l[i := e], i);
    assert Without(l[i := e], i) == Without(l, i);
  }

  /** Every operation of the run is calm where it is applied. */
  predicate CalmRun(cfg: Config, s: Cache, ops: seq<Op>) {
    ops != [] ==>
      var before, last := ops[..|ops| - 1], ops[|ops| - 1];
      CalmRun(cfg, s, before) && Calm(cfg, Run(cfg, s, before), last)
  }

  /** The run and every prefix of it ends balanced. */
  predicate BalancedThroughout(cfg: Config, s: Cache, ops: seq<Op>) {
    Balanced(cfg, Run(cfg, s, ops)) && (ops != [] ==> BalancedThroughout(cfg, s, ops[..|ops| - 1]))
  }

  /** With operations one at a time, the counter is the sum of the estimates in the map and within the
      budget at every point if and only if no load is cancelled or goes ahead without room. */
  lemma {:induction false} RunBalanceIff(cfg: Config, s: Cache, ops: seq<Op>)
    requires Balanced(cfg, s)
    ensures BalancedThroughout(cfg, s, ops) <==> CalmRun(cfg, s, ops)
  {
    hide Balanced, Calm, Apply;
    if ops != [] {
      var before := ops[..|ops| - 1];
      RunBalanceIff(cfg, s, before);
      if BalancedThroughout(cfg, s, before) {
        ApplyBalanceIff(cfg, Run(cfg, s, before), ops[|ops| - 1]);
      }
    }
  }

  const EMPTY := Cache([], 0, Loading, "", None)

  /** A concrete case: a cancelled load stays in the map uncounted, so the next load fits although the map
      then holds twice the budget. */
  lemma CancelledLoadBreaksBalance()
    ensures var cfg := Config(5, 0, 1, {"a", "b"}, "");
            var s := Run(cfg, EMPTY, [DoEnsure("a", 5, 9, Broken("context canceled")), DoEnsure("b", 5, 9, Warmed)]);
            s.used == 5 && EstSum(s.list) == 10
  {
    var cfg := Config(5, 0, 1, {"a", "b"}, "");
    var op1, op2 := DoEnsure("a", 5, 9, Broken("context canceled")), DoEnsure("b", 5, 9, Warmed);
    var a, b := Entry("a", 5, 0, 0, Loading), Entry("b", 5, 0, 0, Ready);
    var s1, s2 := Cache([a], 0, Error, "context canceled", None), Cache([a, b], 5, Ready, "", Some("b"));
    assert Apply(cfg, EMPTY, op1) == s1;
    assert Find([a], "b") == 1;
    LoadAtBack(s1, b);
    assert Fits(cfg, 0, 5);
    assert Apply(cfg, s1, op2) == s2;
    hide Apply;
    assert [op1, op2][..1] == [op1] && [op1][..0] == [];
    assert Run(cfg, EMPTY, [op1]) == s1;
    assert Run(cfg, EMPTY, [op1, op2]) == s2;
    EstSumSplit([a], [b]);
    EstSumOne(a);
    EstSumOne(b);
    assert [a] + [b] == [a, b];
  }

  lemma LoadAtBack(s: Cache, e: Entry)
    requires Find(s.list, e.id) == |s.list| && e == Entry(e.id, e.est, 0, 0, Ready)
    ensures Load(s, e.id, e.est, Warmed).0 == Cache(s.list + [e], s.used + e.est, Ready, "", Some(e.id))
  {
  }

  // ---- slots and current model along runs ----

  /** One generation at a time, its queue slot with it, within the queue's depth. */
  predicate SlotsFit(cfg: Config, l: seq<Entry>) {
    forall i :: 0 <= i < |l| ==> l[i].g <= 1 && l[i].g == l[i].q <= cfg.depth
  }

  lemma DroppedFit(cfg: Config, l: seq<Entry>, used: int, need: nat, rounds: nat)
    requires SlotsFit(cfg, l)
    ensures SlotsFit(cfg, Evict(cfg, l, used, need, rounds).list)
  {
    hide Evict;
    EvictShortestPrefix(cfg, l, used, need, rounds);
    DropIdleFrom(l, Victims(cfg, l, used, need, rounds));
    var r := Evict(cfg, l, used, need, rounds).list;
    forall i | 0 <= i < |r|
      ensures r[i].g <= 1 && r[i].g == r[i].q <= cfg.depth
    {
      assert r[i] in l;
    }
  }

  lemma BumpedFit(cfg: Config, l: seq<Entry>, e: Entry)
    requires SlotsFit(cfg, l) && e.g <= 1 && e.g == e.q <= cfg.depth
    ensures SlotsFit(cfg, Bump(l, e))
  {
    hide Bump;
    BumpFrom(l, e);
    var r := Bump(l, e);
    forall i | 0 <= i < |r|
      ensures r[i].g <= 1 && r[i].g == r[i].q <= cfg.depth
    {
      assert r[i] in r;
    }
  }

  lemma EnsureFits(cfg: Config, s: Cache, m: ModelId, mb: nat, rounds: nat, fate: Fate)
    requires SlotsFit(cfg, s.list)
    ensures SlotsFit(cfg, Ensure(cfg, s, m, mb, rounds, fate).0.list)
  {
    hide Evict, Bump;
    var id := if m == "" then cfg.fallback else m;
    var i := Find(s.list, id);
    DroppedFit(cfg, s.list, s.used, mb, rounds);
    if i < |s.list| {
      BumpedFit(cfg, s.list, s.list[i]);
    }
    var l := if cfg.budget > 0 then Evict(cfg, s.list, s.used, mb, rounds).list else s.list;
    var e := if Find(l, id) < |l| then l[Find(l, id)] else Entry(id, mb, 0, 0, Loading);
    BumpedFit(cfg, l, e.(st := Loading, est := mb));
    BumpedFit(cfg, l, e.(st := Ready, est := mb));
  }

  lemma ApplyFits(cfg: Config, s: Cache, op: Op)
    requires SlotsFit(cfg, s.list)
    ensures SlotsFit(cfg, Apply(cfg, s, op).list)
  {
    hide Ensure, Bump;
    match op
    case DoEnsure(m, mb, rounds, fate) => EnsureFits(cfg, s, m, mb, rounds, fate);
    case DoBegin(m, leaves) =>
      if Begin(cfg, s, m, leaves).1 == Succeeded {
        var e := s.list[Find(s.list, m)];
        BumpedFit(cfg, s.list, e.(q := e.q + 1, g := e.g + 1));
      }
    case _ =>
  }

  /** After any operations, every instance has at most one generation, exactly as many queue slots taken, and
      no more than the queue holds. */
  lemma {:induction false} RunKeepsSlots(cfg: Config, ops: seq<Op>)
    ensures SlotsFit(cfg, Run(cfg, EMPTY, ops).list)
  {
    hide Apply;
    if ops != [] {
      RunKeepsSlots(cfg, ops[..|ops| - 1]);
      ApplyFits(cfg, Run(cfg, EMPTY, ops[..|ops| - 1]), ops[|ops| - 1]);
    }
  }

  /** The ensure goes ahead to load its model. */
  predicate GoesAhead(cfg: Config, s: Cache, op: Op) {
    op.DoEnsure?
    && var id := if op.m != "" then op.m else cfg.fallback;
       id != "" && !Holds(s.list, id, Ready) && id in cfg.registry && (cfg.budget > 0 ==> !NoRoom(cfg, s, op.mb, op.rounds))
  }

  /** How the last load to go ahead ended, if any did. */
  function LastLoad(cfg: Config, ops: seq<Op>): Option<Fate> {
    if ops == [] then None
    else
      var n := |ops| - 1;
      if GoesAhead(cfg, Run(cfg, EMPTY, ops[..n]), ops[n]) then Some(ops[n].fate) else LastLoad(cfg, ops[..n])
  }

  lemma ApplyStatus(cfg: Config, s: Cache, op: Op)
    ensures var r := Apply(cfg, s, op);
            if !GoesAhead(cfg, s, op) then r.mstate == s.mstate && r.merr == s.merr
            else match op.fate
                 case Warmed => r.mstate == Ready && r.merr == ""
                 case Broken(text) => r.mstate == Error && r.merr == text
  {
    match op
    case DoEnsure(m, mb, rounds, fate) =>
      EnsureOutcome(cfg, s, m, mb, rounds, fate);
      hide Ensure, NoRoom, Holds;
      if GoesAhead(cfg, s, op) {
        var k := EnsureLoads(cfg, s, m, mb, rounds, fate);
      }
    case _ =>
  }

  /** State and error text are those of the last load that went ahead. */
  lemma {:induction false} StatusIsLastLoad(cfg: Config, ops: seq<Op>)
    ensures var s := Run(cfg, EMPTY, ops);
            match LastLoad(cfg, ops)
            case None => s.mstate == Loading && s.merr == ""
            case Some(Warmed) => s.mstate == Ready && s.merr == ""
            case Some(Broken(text)) => s.mstate == Error && s.merr == text
  {
    hide Apply, GoesAhead;
    if ops != [] {
      var n := |ops| - 1;
      StatusIsLastLoad(cfg, ops[..n]);
      ApplyStatus(cfg, Run(cfg, EMPTY, ops[..n]), ops[n]);
    }
  }

  /** The operation loads `m` and the load ends well. */
  predicate MakesCurrent(cfg: Config, s: Cache, op: Op, m: ModelId) {
    GoesAhead(cfg, s, op) && op.fate.Warmed? && m == if op.m != "" then op.m else cfg.fallback
  }

  /** The operation loads another model, or takes `m` out of the map on request. */
  ghost predicate Supersedes(cfg: Config, s: Cache, op: Op, m: ModelId) {
    || (op.DoUnload? && op.m == m && m != "" && Find(s.list, m) < |s.list|)
    || exists other :: other != m && MakesCurrent(cfg, s, op, other)
  }

  /** Operation `k` of the run made `m` current, and none since has undone that. */
  ghost predicate CurrentSince(cfg: Config, ops: seq<Op>, k: nat, m: ModelId)
    requires k < |ops|
  {
    && MakesCurrent(cfg, Run(cfg, EMPTY, ops[..k]), ops[k], m)
    && forall x :: k < x < |ops| ==> !Supersedes(cfg, Run(cfg, EMPTY, ops[..x]), ops[x], m)
  }

  lemma ApplyCurrent(cfg: Config, s: Cache, op: Op, m: ModelId)
    ensures Apply(cfg, s, op).cur == Some(m) <==> MakesCurrent(cfg, s, op, m) || (s.cur == Some(m) && !Supersedes(cfg, s, op, m))
  {
    match op
    case DoEnsure(x, mb, rounds, fate) =>
      var id := if x != "" then x else cfg.fallback;
      EnsureOutcome(cfg, s, x, mb, rounds, fate);
      var loads := id != "" && !Holds(s.list, id, Ready) && id in cfg.registry && (cfg.budget > 0 ==> !NoRoom(cfg, s, mb, rounds));
      hide Ensure, NoRoom, Holds;
      if loads {
        var k := EnsureLoads(cfg, s, x, mb, rounds, fate);
      }
      if loads && fate.Warmed? {
        assert MakesCurrent(cfg, s, op, id);
      } else {
        assert forall other :: !MakesCurrent(cfg, s, op, other);
      }
    case _ => UnloadOutcome(cfg, s, m);
  }

  lemma CurrentContinues(cfg: Config, ops: seq<Op>, k: nat, m: ModelId)
    requires k < |ops| - 1
    ensures var n := |ops| - 1;
            CurrentSince(cfg, ops, k, m)
            <==> CurrentSince(cfg, ops[..n], k, m) && !Supersedes(cfg, Run(cfg, EMPTY, ops[..n]), ops[n], m)
  {
    hide Run, MakesCurrent, Supersedes;
    var n := |ops| - 1;
    assert forall x :: 0 <= x < n ==> ops[..n][x] == ops[x];
    assert forall x :: 0 <= x <= n ==> ops[..n][..x] == ops[..x];
  }

  /** A model is current if and only if it was the last to be loaded and has not been unloaded since; that it
      may have been evicted does not matter. */
  lemma {:induction false} CurrentIff(cfg: Config, ops: seq<Op>, m: ModelId)
    ensures Run(cfg, EMPTY, ops).cur == Some(m) <==> exists k: nat :: k < |ops| && CurrentSince(cfg, ops, k, m)
  {
    hide Apply, MakesCurrent, Supersedes;
    if ops != [] {
      var n := |ops| - 1;
      var before, s := ops[..n], Run(cfg, EMPTY, ops[..n]);
      CurrentIff(cfg, before, m);
      ApplyCurrent(cfg, s, ops[n], m);
      forall k: nat | k < n
        ensures CurrentSince(cfg, ops, k, m) <==> CurrentSince(cfg, before, k, m) && !Supersedes(cfg, s, ops[n], m)
      {
        CurrentContinues(cfg, ops, k, m);
      }
      assert MakesCurrent(cfg, s, ops[n], m) <==> CurrentSince(cfg, ops, n, m);
    }
  }

  // ---- the list is the order of last use ----

  /** The model whose last use is this operation, if any: one that is found ready, loaded (or left
      loading), or admitted. */
  function Uses(cfg: Config, s: Cache, op: Op): Option<ModelId> {
    match op
    case DoEnsure(m, mb, rounds, fate) =>
      var id := if m == "" then cfg.fallback else m;
      var out := Ensure(cfg, s, m, mb, rounds, fate).1;
      if id != "" && (out == Succeeded || out == Canceled) then Some(id) else None
    case DoBegin(m, leaves) => if Begin(cfg, s, m, leaves).1 == Succeeded then Some(m) else None
    case _ => None
  }

  /** Index of the last operation that used `id`; -1 when none has. */
  function LastUse(cfg: Config, ops: seq<Op>, id: ModelId): int {
    if ops == [] then -1
    else
      var n := |ops| - 1;
      if Uses(cfg, Run(cfg, EMPTY, ops[..n]), ops[n]) == Some(id) then n else LastUse(cfg, ops[..n], id)
  }

  predicate Ordered(l: seq<Entry>, rank: ModelId -> int) {
    && (forall i, j :: 0 <= i < j < |l| ==> rank(l[i].id) < rank(l[j].id))
    && (forall i :: 0 <= i < |l| ==> rank(l[i].id) >= 0)
  }

  lemma WithoutAt(l: seq<Entry>, i: nat, j: nat)
    requires i < |l| && j < |l| - 1
    ensures Without(l, i)[j] == l[if j < i then j else j + 1]
  {
  }

  lemma WithoutKeepsOrder(l: seq<Entry>, i: nat, rank: ModelId -> int)
    requires Ordered(l, rank) && i < |l|
    ensures Ordered(Without(l, i), rank)
  {
    hide Without;
    forall j: nat | j < |l| - 1
      ensures Without(l, i)[j] == l[if j < i then j else j + 1]
    {
      WithoutAt(l, i, j);
    }
  }

  lemma {:induction false} EvictKeepsOrder(cfg: Config, l: seq<Entry>, used: int, need: nat, rounds: nat, rank: ModelId -> int)
    requires Ordered(l, rank)
    ensures Ordered(Evict(cfg, l, used, need, rounds).list, rank)
    decreases |l|
  {
    hide Ordered, Without, FirstIdle;
    var i := FirstIdle(l);
    if !Fits(cfg, used, need) && i < |l| {
      WithoutKeepsOrder(l, i, rank);
      if rounds > 0 {
        EvictKeepsOrder(cfg, Without(l, i), used - l[i].est, need, rounds - 1, rank);
      }
    }
  }

  /** Using `e`'s model now puts it behind everything used before. */
  lemma BumpKeepsOrder(l: seq<Entry>, e: Entry, before: ModelId -> int, after: ModelId -> int, n: nat)
    requires Ordered(l, before) && after(e.id) == n
    requires forall id :: before(id) < n && (id != e.id ==> after(id) == before(id))
    ensures Ordered(Bump(l, e), after)
  {
    var i := Find(l, e.id);
    var r := if i < |l| then Without(l, i) else l;
    hide Find, Without;
    RestIsOthers(l, e.id, before);
    assert Bump(l, e) == r + [e];
    hide Bump;
    AppendKeepsOrder(r, e, before, after, n);
  }

  lemma AppendKeepsOrder(r: seq<Entry>, e: Entry, before: ModelId -> int, after: ModelId -> int, n: nat)
    requires Ordered(r, before) && after(e.id) == n
    requires forall j :: 0 <= j < |r| ==> r[j].id != e.id
    requires forall id :: before(id) < n && (id != e.id ==> after(id) == before(id))
    ensures Ordered(r + [e], after)
  {
    forall j | 0 <= j < |r|
      ensures after(r[j].id) == before(r[j].id)
    {
    }
  }

  lemma RestIsOthers(l: seq<Entry>, id: ModelId, rank: ModelId -> int)
    requires Ordered(l, rank)
    ensures var i := Find(l, id);
            var r := if i < |l| then Without(l, i) else l;
            Ordered(r, rank) && forall j :: 0 <= j < |r| ==> r[j].id != id
  {
    hide Without;
    var i := Find(l, id);
    if i < |l| {
      WithoutKeepsOrder(l, i, rank);
      forall j: nat | j < |l| - 1
        ensures Without(l, i)[j].id != id
      {
        WithoutAt(l, i, j);
        var p := if j < i then j else j + 1;
        assert rank(l[p].id) != rank(l[i].id);
      }
    }
  }

  lemma {:induction false} LastUseBound(cfg: Config, ops: seq<Op>, id: ModelId)
    ensures LastUse(cfg, ops, id) < |ops|
  {
    if ops != [] {
      LastUseBound(cfg, ops[..|ops| - 1], id);
    }
  }

  lemma LoadKeepsOrder(s: Cache, id: ModelId, mb: nat, fate: Fate, before: ModelId -> int, after: ModelId -> int, n: nat)
    requires Ordered(s.list, before) && after(id) == n
    requires forall x :: before(x) < n && (x != id ==> after(x) == before(x))
    ensures Ordered(Load(s, id, mb, fate).0.list, after)
  {
    var k := Find(s.list, id);
    var e := if k == |s.list| then Entry(id, mb, 0, 0, Loading) else s.list[k].(st := Loading, est := mb);
    BumpKeepsOrder(s.list, if fate.Warmed? then e.(st := Ready) else e, before, after, n);
  }

  lemma EnsureKeepsOrder(
    cfg: Config, s: Cache, m: ModelId, mb: nat, rounds: nat, fate: Fate,
    before: ModelId -> int, after: ModelId -> int, n: nat)
    requires Ordered(s.list, before)
    requires forall x :: before(x) < n
    requires forall x :: after(x) == if Uses(cfg, s, DoEnsure(m, mb, rounds, fate)) == Some(x) then n else before(x)
    ensures Ordered(Ensure(cfg, s, m, mb, rounds, fate).0.list, after)
  {
    hide Evict, Bump, Load, Ordered, FirstIdle;
    var id := if m == "" then cfg.fallback else m;
    var i := Find(s.list, id);
    if id == "" || (id !in cfg.registry && !(i < |s.list| && s.list[i].st == Ready)) {
      SameOrder(s.list, before, after);
    } else if i < |s.list| && s.list[i].st == Ready {
      BumpKeepsOrder(s.list, s.list[i], before, after, n);
    } else {
      var ev := if cfg.budget > 0 then Evict(cfg, s.list, s.used, mb, rounds) else Evicted(s.list, s.used, true);
      EvictKeepsOrder(cfg, s.list, s.used, mb, rounds, before);
      if ev.ok {
        LoadOutcome(s.(list := ev.list, used := ev.used), id, mb, fate);
        LoadKeepsOrder(s.(list := ev.list, used := ev.used), id, mb, fate, before, after, n);
      } else {
        SameOrder(ev.list, before, after);
      }
    }
  }

  lemma SameOrder(l: seq<Entry>, before: ModelId -> int, after: ModelId -> int)
    requires Ordered(l, before) && forall x :: after(x) == before(x)
    ensures Ordered(l, after)
  {
  }

  lemma BeginKeepsOrder(
    cfg: Config, s: Cache, m: ModelId, leaves: Leaves, before: ModelId -> int, after: ModelId -> int, n: nat)
    requires Ordered(s.list, before)
    requires forall x :: before(x) < n
    requires forall x :: after(x) == if Uses(cfg, s, DoBegin(m, leaves)) == Some(x) then n else before(x)
    ensures Ordered(Begin(cfg, s, m, leaves).0.list, after)
  {
    hide Bump;
    var i := Find(s.list, m);
    if Begin(cfg, s, m, leaves).1 == Succeeded {
      var e := s.list[i];
      BumpKeepsOrder(s.list, e.(q := e.q + 1, g := e.g + 1), before, after, n);
    }
  }

  /** Dropping an entry, or changing its slots in place, moves nothing. */
  lemma RemovalKeepsOrder(s: Cache, i: nat, rank: ModelId -> int)
    requires Ordered(s.list, rank)
    ensures i < |s.list| ==> Ordered(Without(s.list, i), rank)
    ensures i < |s.list| ==> forall e: Entry :: e.id == s.list[i].id ==> Ordered(s.list[i := e], rank)
  {
  }

  lemma ApplyKeepsOrder(cfg: Config, s: Cache, op: Op, before: ModelId -> int, after: ModelId -> int, n: nat)
    requires Ordered(s.list, before)
    requires forall id :: before(id) < n
    requires forall id :: after(id) == if Uses(cfg, s, op) == Some(id) then n else before(id)
    ensures Ordered(Apply(cfg, s, op).list, after)
  {
    hide Ensure, Begin;
    match op
    case DoEnsure(m, mb, rounds, fate) => EnsureKeepsOrder(cfg, s, m, mb, rounds, fate, before, after, n);
    case DoBegin(m, leaves) => BeginKeepsOrder(cfg, s, m, leaves, before, after, n);
    case DoRelease(i) => RemovalKeepsOrder(s, i, before);
    case DoUnload(m) => RemovalKeepsOrder(s, Find(s.list, m), before);
  }

  /** Least recently used is meant literally: after any sequence of operations the list holds its models
      in the order of the last operation that used each of them. */
  lemma {:induction false} ListIsLastUseOrder(cfg: Config, ops: seq<Op>)
    ensures Ordered(Run(cfg, EMPTY, ops).list, id => LastUse(cfg, ops, id))
  {
    if ops != [] {
      var n := |ops| - 1;
      ListIsLastUseOrder(cfg, ops[..n]);
      forall id: ModelId
        ensures LastUse(cfg, ops[..n], id) < n
      {
        LastUseBound(cfg, ops[..n], id);
      }
      ApplyKeepsOrder(cfg, Run(cfg, EMPTY, ops[..n]), ops[n],
                      id => LastUse(cfg, ops[..n], id), id => LastUse(cfg, ops, id), n);
    }
  }
}
