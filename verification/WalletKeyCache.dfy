/**
  The SDK's cache of decrypted wallet keys: time to live, bounded size, and eviction of the entry
  that expires first. Among entries expiring together any may be evicted.
*/
module WalletKeyCache {
  import opened Options

  datatype Slot = Slot(value: seq<int>, expireAt: int)

  type Store = map<string, Slot>

  datatype Op =
    | Set(key: string, value: seq<int>, at: int)
    | Get(key: string, at: int)
    | Invalidate(key: string)
    | Clear

  predicate IsOldest(store: Store, key: string) {
    key in store && forall k :: k in store ==> store[key].expireAt <= store[k].expireAt
  }

  predicate Full(store: Store, key: string, maxsize: int) {
    |store| >= maxsize && key !in store
  }

  /** What `set` may leave; on an empty store with no room at all `min` raises instead. */
  ghost predicate SetOk(store: Store, key: string, slot: Slot, maxsize: int, next: Store) {
    if !Full(store, key, maxsize) then next == store[key := slot]
    else if store == map[] then next == store
    else exists victim :: IsOldest(store, victim) && next == (store - {victim})[key := slot]
  }

  function Found(store: Store, key: string, at: int): Option<seq<int>> {
    if key !in store || at > store[key].expireAt then None else Some(store[key].value)
  }

  function AfterGet(store: Store, key: string, at: int): Store {
    if key in store && at > store[key].expireAt then store - {key} else store
  }

  ghost predicate StepOk(store: Store, op: Op, ttl: int, maxsize: int, next: Store) {
    match op
    case Set(key, value, at) => SetOk(store, key, Slot(value, at + ttl), maxsize, next)
    case Get(key, at) => next == AfterGet(store, key, at)
    case Invalidate(key) => next == store - {key}
    case Clear => next == map[]
  }

  class Cache {
    const ttl: int
    const maxsize: int
    var store: Store

    constructor (ttl: int, maxsize: int)
      ensures this.ttl == ttl && this.maxsize == maxsize && store == map[]
    {
      this.ttl, this.maxsize, store := ttl, maxsize, map[];
    }

    method Get(key: string, now: int) returns (value: Option<seq<int>>)
      modifies this`store
      ensures value == Found(old(store), key, now)
      ensures StepOk(old(store), Op.Get(key, now), ttl, maxsize, store)
    {
      if key !in store { return None; }
      var slot := store[key];
      if now > slot.expireAt {
        store := store - {key};
        return None;
      }
      return Some(slot.value);
    }

    /** `raised` is the ValueError of `min` over an empty store. */
    method Set(key: string, value: seq<int>, now: int) returns (raised: bool)
      modifies this`store
      ensures raised <==> old(store) == map[] && maxsize <= 0
      ensures StepOk(old(store), Op.Set(key, value, now), ttl, maxsize, store)
    {
      var slot := Slot(value, now + ttl);
      if |store| >= maxsize && key !in store {
        if store == map[] { return true; }
        var victim := FindOldest();
        ghost var before := store;
        store := store - {victim};
        store := store[key := slot];
        assert IsOldest(before, victim) && store == (before - {victim})[key := slot];
        return false;
      }
      store := store[key := slot];
      return false;
    }

    /** `min(store, key=expire_at)`. */
    method FindOldest() returns (oldest: string)
      requires store != map[]
      ensures IsOldest(store, oldest)
    {
      assert store.Keys != {};
      var first :| first in store.Keys;
      oldest := first;
      var todo := store.Keys;
      while todo != {}
        invariant todo <= store.Keys && oldest in store
        invariant forall k :: k in store && k !in todo ==> store[oldest].expireAt <= store[k].expireAt
        decreases todo
      {
        var k :| k in todo;
        todo := todo - {k};
        if store[k].expireAt < store[oldest].expireAt { oldest := k; }
      }
    }

    method Invalidate(key: string)
      modifies this`store
      ensures StepOk(old(store), Op.Invalidate(key), ttl, maxsize, store)
    {
      store := store - {key};
    }

    method Clear()
      modifies this`store
      ensures StepOk(old(store), Op.Clear, ttl, maxsize, store)
    {
      store := map[];
    }
  }

  // ─── Every run of the cache ───────────────────────────────────────────────

  /** stores[i] is the store before operation i. */
  ghost predicate IsRun(stores: seq<Store>, ops: seq<Op>, ttl: int, maxsize: int) {
    && |stores| == |ops| + 1 && stores[0] == map[]
    && forall i :: 0 <= i < |ops| ==> StepOk(stores[i], ops[i], ttl, maxsize, stores[i + 1])
  }

  /** The sets read a strictly increasing clock. */
  predicate ClockIncreases(ops: seq<Op>) {
    forall i, j :: 0 <= i < j < |ops| && ops[i].Set? && ops[j].Set? ==> ops[i].at < ops[j].at
  }

  /** The operation whose value a key still has: its last set, unless removed by name or clearing since. */
  function LastSet(ops: seq<Op>, key: string): (i: Option<int>)
    ensures i.Some? ==> 0 <= i.value < |ops| && ops[i.value].Set? && ops[i.value].key == key
  {
    if ops == [] then None
    else
      var n := |ops| - 1;
      match ops[n]
      case Set(k, _, _) => if k == key then Some(n) else LastSet(ops[..n], key)
      case Invalidate(k) => if k == key then None else LastSet(ops[..n], key)
      case Clear => None
      case Get(_, _) => LastSet(ops[..n], key)
  }

  /** The other keys set after operation i. */
  function OthersSince(ops: seq<Op>, i: int, key: string): set<string> {
    set j | i < j < |ops| && 0 <= j && ops[j].Set? && ops[j].key != key :: ops[j].key
  }

  predicate Holds(store: Store, ops: seq<Op>, key: string, i: int, ttl: int)
    requires 0 <= i < |ops| && ops[i].Set?
  {
    key in store && store[key] == Slot(ops[i].value, ops[i].at + ttl)
  }

  /** A read after the time to live removed it. */
  predicate ReadExpired(ops: seq<Op>, key: string, i: int, ttl: int)
    requires 0 <= i < |ops| && ops[i].Set?
  {
    exists j :: i < j < |ops| && ops[j].Get? && ops[j].key == key && ops[j].at > ops[i].at + ttl
  }

  ghost predicate KeyOk(store: Store, ops: seq<Op>, key: string, ttl: int, maxsize: int) {
    match LastSet(ops, key)
    case None => key !in store
    case Some(i) =>
      if key in store then Holds(store, ops, key, i, ttl)
      else ReadExpired(ops, key, i, ttl) || |OthersSince(ops, i, key)| >= maxsize
  }

  ghost predicate StoreOk(store: Store, ops: seq<Op>, ttl: int, maxsize: int) {
    |store| <= maxsize && forall key :: KeyOk(store, ops, key, ttl, maxsize)
  }

  lemma OthersGrow(ops: seq<Op>, op: Op, i: int, key: string)
    requires 0 <= i
    ensures OthersSince(ops, i, key) <= OthersSince(ops + [op], i, key)
    ensures i < |ops| && op.Set? && op.key != key ==> op.key in OthersSince(ops + [op], i, key)
    ensures |OthersSince(ops, i, key)| <= |OthersSince(ops + [op], i, key)|
  {
    var longer := ops + [op];
    forall k | k in OthersSince(ops, i, key) ensures k in OthersSince(longer, i, key) {
      var j :| i < j < |ops| && 0 <= j && ops[j].Set? && ops[j].key != key && ops[j].key == k;
      assert longer[j] == ops[j];
    }
    assert longer[|ops|] == op;
    SubsetSize(OthersSince(ops, i, key), OthersSince(longer, i, key));
  }

  lemma {:induction false} SubsetSize(a: set<string>, b: set<string>)
    requires a <= b
    ensures |a| <= |b|
  {
    if a != {} {
      var x :| x in a;
      SubsetSize(a - {x}, b - {x});
    }
  }

  lemma LastSetSnoc(ops: seq<Op>, op: Op, key: string)
    ensures LastSet(ops + [op], key) ==
      match op
      case Set(k, _, _) => if k == key then Some(|ops|) else LastSet(ops, key)
      case Invalidate(k) => if k == key then None else LastSet(ops, key)
      case Clear => None
      case Get(_, _) => LastSet(ops, key)
  {
    assert (ops + [op])[..|ops|] == ops;
  }

  /** The evicted entry was set before every other one held, so every place is taken by a later key. */
  lemma EvictedByLater(store: Store, ops: seq<Op>, ttl: int, maxsize: int, victim: string, op: Op)
    requires StoreOk(store, ops, ttl, maxsize) && ClockIncreases(ops)
    requires IsOldest(store, victim) && op.Set? && Full(store, op.key, maxsize)
    ensures LastSet(ops, victim).Some? && |OthersSince(ops + [op], LastSet(ops, victim).value, victim)| >= maxsize
  {
    assert KeyOk(store, ops, victim, ttl, maxsize);
    var i := LastSet(ops, victim).value;
    var others := OthersSince(ops + [op], i, victim);
    OthersGrow(ops, op, i, victim);
    forall k | k in store.Keys - {victim} ensures k in others {
      assert KeyOk(store, ops, k, ttl, maxsize);
      var j := LastSet(ops, k).value;
      assert ops[i].at <= ops[j].at;
      assert ops[j].key in OthersSince(ops, i, victim);
    }
    assert store.Keys - {victim} + {op.key} <= others;
    SubsetSize(store.Keys - {victim} + {op.key}, others);
    assert |store.Keys - {victim}| == |store| - 1;
  }

  /** A key no operation touches keeps its status. */
  lemma UntouchedKeyOk(store: Store, ops: seq<Op>, op: Op, ttl: int, maxsize: int, next: Store, key: string)
    requires KeyOk(store, ops, key, ttl, maxsize) && LastSet(ops + [op], key) == LastSet(ops, key)
    requires key in next <==> key in store
    requires key in next ==> next[key] == store[key]
    ensures KeyOk(next, ops + [op], key, ttl, maxsize)
  {
    if LastSet(ops, key).Some? {
      var i := LastSet(ops, key).value;
      OthersGrow(ops, op, i, key);
      assert (ops + [op])[i] == ops[i];
      if ReadExpired(ops, key, i, ttl) {
        var j :| i < j < |ops| && ops[j].Get? && ops[j].key == key && ops[j].at > ops[i].at + ttl;
        assert (ops + [op])[j] == ops[j];
      }
    }
  }

  lemma EvictionKeepsSize(store: Store, victim: string, key: string, slot: Slot)
    requires victim in store && key !in store
    ensures |(store - {victim})[key := slot]| == |store|
  {
    assert (store - {victim})[key := slot].Keys == store.Keys - {victim} + {key};
  }

  lemma EvictingSetKeepsStore(store: Store, ops: seq<Op>, op: Op, ttl: int, maxsize: int, victim: string)
    requires StoreOk(store, ops, ttl, maxsize) && op.Set? && ClockIncreases(ops)
    requires Full(store, op.key, maxsize) && IsOldest(store, victim)
    ensures StoreOk((store - {victim})[op.key := Slot(op.value, op.at + ttl)], ops + [op], ttl, maxsize)
  {
    var next := (store - {victim})[op.key := Slot(op.value, op.at + ttl)];
    EvictionKeepsSize(store, victim, op.key, Slot(op.value, op.at + ttl));
    NewKeyOk(ops, op, ttl, maxsize, next);
    VictimOk(store, ops, op, ttl, maxsize, next, victim);
    OtherKeysOk(store, ops, op, ttl, maxsize, next, {victim, op.key});
    hide KeyOk, IsOldest, Full, ClockIncreases;
  }

  lemma SetKeepsStore(store: Store, ops: seq<Op>, op: Op, ttl: int, maxsize: int, next: Store)
    requires StoreOk(store, ops, ttl, maxsize) && maxsize >= 1 && op.Set? && ClockIncreases(ops)
    requires StepOk(store, op, ttl, maxsize, next)
    ensures StoreOk(next, ops + [op], ttl, maxsize)
  {
    hide KeyOk, IsOldest, ClockIncreases;
    if Full(store, op.key, maxsize) {
      var slot := Slot(op.value, op.at + ttl);
      var victim :| IsOldest(store, victim) && next == (store - {victim})[op.key := slot];
      EvictingSetKeepsStore(store, ops, op, ttl, maxsize, victim);
    } else {
      assert next.Keys == store.Keys + {op.key};
      NewKeyOk(ops, op, ttl, maxsize, next);
      OtherKeysOk(store, ops, op, ttl, maxsize, next, {op.key});
    }
  }

  lemma NewKeyOk(ops: seq<Op>, op: Op, ttl: int, maxsize: int, next: Store)
    requires op.Set? && op.key in next && next[op.key] == Slot(op.value, op.at + ttl)
    ensures KeyOk(next, ops + [op], op.key, ttl, maxsize)
  {
    LastSetSnoc(ops, op, op.key);
    assert (ops + [op])[|ops|] == op;
  }

  lemma VictimOk(store: Store, ops: seq<Op>, op: Op, ttl: int, maxsize: int, next: Store, victim: string)
    requires StoreOk(store, ops, ttl, maxsize) && ClockIncreases(ops)
    requires IsOldest(store, victim) && op.Set? && Full(store, op.key, maxsize) && victim !in next
    ensures KeyOk(next, ops + [op], victim, ttl, maxsize)
  {
    EvictedByLater(store, ops, ttl, maxsize, victim, op);
    LastSetSnoc(ops, op, victim);
    assert (ops + [op])[LastSet(ops, victim).value] == ops[LastSet(ops, victim).value];
  }

  lemma OtherKeysOk(store: Store, ops: seq<Op>, op: Op, ttl: int, maxsize: int, next: Store, touched: set<string>)
    requires StoreOk(store, ops, ttl, maxsize)
    requires !op.Clear? && op.key in touched
    requires forall k :: k !in touched ==> (k in next <==> k in store) && (k in next ==> next[k] == store[k])
    ensures forall k :: k !in touched ==> KeyOk(next, ops + [op], k, ttl, maxsize)
  {
    forall k | k !in touched ensures KeyOk(next, ops + [op], k, ttl, maxsize) {
      LastSetSnoc(ops, op, k);
      assert KeyOk(store, ops, k, ttl, maxsize);
      UntouchedKeyOk(store, ops, op, ttl, maxsize, next, k);
    }
  }

  lemma RemovalKeepsStore(store: Store, ops: seq<Op>, op: Op, ttl: int, maxsize: int, next: Store)
    requires StoreOk(store, ops, ttl, maxsize) && maxsize >= 1 && !op.Set?
    requires StepOk(store, op, ttl, maxsize, next)
    ensures StoreOk(next, ops + [op], ttl, maxsize)
  {
    var longer := ops + [op];
    SubsetSize(next.Keys, store.Keys);
    if op.Clear? {
      forall k ensures KeyOk(next, longer, k, ttl, maxsize) { LastSetSnoc(ops, op, k); }
    } else {
      OtherKeysOk(store, ops, op, ttl, maxsize, next, {op.key});
      LastSetSnoc(ops, op, op.key);
      assert KeyOk(store, ops, op.key, ttl, maxsize);
      if op.Get? && next != store {
        var i := LastSet(ops, op.key).value;
        assert longer[i] == ops[i] && longer[|ops|] == op;
      } else if op.Get? {
        UntouchedKeyOk(store, ops, op, ttl, maxsize, next, op.key);
      }
      assert KeyOk(next, longer, op.key, ttl, maxsize);
    }
  }

  lemma {:induction false} RunKeepsStore(stores: seq<Store>, ops: seq<Op>, ttl: int, maxsize: int)
    requires IsRun(stores, ops, ttl, maxsize) && ClockIncreases(ops) && maxsize >= 1
    ensures StoreOk(stores[|ops|], ops, ttl, maxsize)
    decreases |ops|
  {
    if ops != [] {
      var n := |ops| - 1;
      var before := ops[..n];
      assert IsRun(stores[..|ops|], before, ttl, maxsize);
      RunKeepsStore(stores[..|ops|], before, ttl, maxsize);
      assert ops == before + [ops[n]];
      assert StepOk(stores[n], ops[n], ttl, maxsize, stores[n + 1]);
      hide StoreOk, StepOk;
      if ops[n].Set? {
        SetKeepsStore(stores[n], before, ops[n], ttl, maxsize, stores[n + 1]);
      } else {
        RemovalKeepsStore(stores[n], before, ops[n], ttl, maxsize, stores[n + 1]);
      }
    }
  }

  /** After every run the cache is within its bound, and a hit is the latest value set, within its time to live. */
  lemma HitsAreLatest(stores: seq<Store>, ops: seq<Op>, ttl: int, maxsize: int, key: string, now: int)
    requires IsRun(stores, ops, ttl, maxsize) && ClockIncreases(ops) && maxsize >= 1
    ensures |stores[|ops|]| <= maxsize
    ensures var hit := Found(stores[|ops|], key, now);
      hit.Some? ==>
        LastSet(ops, key).Some? && hit.value == ops[LastSet(ops, key).value].value && now <= ops[LastSet(ops, key).value].at + ttl
  {
    RunKeepsStore(stores, ops, ttl, maxsize);
    assert KeyOk(stores[|ops|], ops, key, ttl, maxsize);
  }

  /**
    After every run, at a time no earlier than its reads, a key set within its time to live, not
    removed by name or by clearing, and with fewer than maxsize other keys set since, is a hit.
  */
  lemma RecentKeysHit(stores: seq<Store>, ops: seq<Op>, ttl: int, maxsize: int, key: string, now: int)
    requires IsRun(stores, ops, ttl, maxsize) && ClockIncreases(ops) && maxsize >= 1
    requires LastSet(ops, key).Some?
    requires now <= ops[LastSet(ops, key).value].at + ttl
    requires forall j :: 0 <= j < |ops| && ops[j].Get? ==> ops[j].at <= now
    requires |OthersSince(ops, LastSet(ops, key).value, key)| < maxsize
    ensures Found(stores[|ops|], key, now) == Some(ops[LastSet(ops, key).value].value)
  {
    RunKeepsStore(stores, ops, ttl, maxsize);
    assert KeyOk(stores[|ops|], ops, key, ttl, maxsize);
  }
}
