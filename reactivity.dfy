/**
 * The dependency-tracking engine of InputsArray.js (lines 1-58): the
 * `activeEffect` slot and `effect`, the `targetMap` registry with `track` and
 * `trigger`, and the `get`/`set` handlers of the proxy that `reactive` builds.
 *
 * The registry keeps the source's two levels: a target (an object identity)
 * maps to a per-target map, which maps a property key to the set of effects
 * that read it. A JavaScript `Set` iterates in insertion order and holds no
 * duplicates, so each set is a duplicate-free sequence here.
 *
 * An effect is the closure `effect` and `trigger` call. It is represented by
 * an identity together with the list of proxy reads its body performs; the
 * engine never looks inside it except to replay those reads.
 */
module Reactivity {
  import opened Wrappers
  import opened Json

  /** The identity of a raw object that `reactive` wrapped. */
  type ObjId = nat
  type Key = string

  /** One read through a proxy: `proxy[key]` where the proxy wraps `target`. */
  datatype Access = Access(target: ObjId, key: Key)

  /** A computation: its identity and the proxy reads its body performs, in order. */
  datatype Effect = Effect(id: nat, body: seq<Access>)

  type DepsMap = map<Key, seq<Effect>>
  type TargetMap = map<ObjId, DepsMap>
  /** The raw objects behind the proxies. */
  type Store = map<ObjId, map<Key, Value>>

  predicate NoDup<T(==)>(s: seq<T>) {
    forall i, j :: 0 <= i < j < |s| ==> s[i] != s[j]
  }

  /** The dependency set of (target, key); empty where the registry has no entry. */
  function Deps(tm: TargetMap, target: ObjId, key: Key): seq<Effect> {
    if target in tm && key in tm[target] then tm[target][key] else []
  }

  /** `target[key]` on the raw object: `undefined` for a missing property. */
  function RawGet(store: Store, target: ObjId, key: Key): Value {
    if target in store && key in store[target] then store[target][key] else Undefined
  }

  /** The raw values a list of reads returns, one per read. */
  function ReadAll(store: Store, accesses: seq<Access>): (values: seq<Value>)
    ensures |values| == |accesses|
    ensures forall i :: 0 <= i < |accesses| ==> values[i] == RawGet(store, accesses[i].target, accesses[i].key)
    decreases |accesses|
  {
    if accesses == [] then []
    else
      var last := accesses[|accesses| - 1];
      ReadAll(store, accesses[..|accesses| - 1]) + [RawGet(store, last.target, last.key)]
  }

  /** One more read returns one more raw value. */
  lemma ReadAllStep(store: Store, accesses: seq<Access>, i: nat)
    requires i < |accesses|
    ensures ReadAll(store, accesses[..i + 1]) ==
            ReadAll(store, accesses[..i]) + [RawGet(store, accesses[i].target, accesses[i].key)]
  {
    assert accesses[..i + 1][..i] == accesses[..i];
  }

  /**
   * The registry after `track(target, key)` with `active` in the slot
   * (InputsArray.js:11-26): the per-target map and the per-key set are created
   * when missing, and the active effect, if any, is appended unless present.
   */
  function AfterTrack(tm: TargetMap, target: ObjId, key: Key, active: Option<Effect>): (r: TargetMap)
    ensures target in r && key in r[target]
    ensures active.None? ==> Deps(r, target, key) == Deps(tm, target, key)
    ensures active.Some? && active.value in Deps(tm, target, key) ==>
              Deps(r, target, key) == Deps(tm, target, key)
    ensures active.Some? && active.value !in Deps(tm, target, key) ==>
              Deps(r, target, key) == Deps(tm, target, key) + [active.value]
  {
    var depsMap := if target in tm then tm[target] else map[];
    var dep := if key in depsMap then depsMap[key] else [];
    var dep' := if active.Some? && active.value !in dep then dep + [active.value] else dep;
    tm[target := depsMap[key := dep']]
  }

  /** `track` never removes an entry of the registry. */
  lemma AfterTrackKeepsEntry(tm: TargetMap, target: ObjId, key: Key, active: Option<Effect>, t: ObjId, k: Key)
    requires t in tm && k in tm[t]
    ensures t in AfterTrack(tm, target, key, active) && k in AfterTrack(tm, target, key, active)[t]
  {
  }

  /** `track(target, key)` leaves the set of every other (target, key) pair as it was. */
  lemma AfterTrackFrame(tm: TargetMap, target: ObjId, key: Key, active: Option<Effect>, t: ObjId, k: Key)
    requires (t, k) != (target, key)
    ensures Deps(AfterTrack(tm, target, key, active), t, k) == Deps(tm, t, k)
  {
  }

  /** The registry after the reads `accesses`, in order, with `active` in the slot. */
  function TrackAll(tm: TargetMap, accesses: seq<Access>, active: Option<Effect>): TargetMap
    decreases |accesses|
  {
    if accesses == [] then tm
    else
      var last := accesses[|accesses| - 1];
      AfterTrack(TrackAll(tm, accesses[..|accesses| - 1], active), last.target, last.key, active)
  }

  /** Replaying one more read is one more `track`. */
  lemma TrackAllStep(tm: TargetMap, accesses: seq<Access>, i: nat, active: Option<Effect>)
    requires i < |accesses|
    ensures TrackAll(tm, accesses[..i + 1], active) ==
            AfterTrack(TrackAll(tm, accesses[..i], active), accesses[i].target, accesses[i].key, active)
  {
    assert accesses[..i + 1][..i] == accesses[..i];
  }

  /** The reads of a list of effects run one after another. */
  function ReadsOf(effects: seq<Effect>): seq<Access>
    decreases |effects|
  {
    if effects == [] then []
    else ReadsOf(effects[..|effects| - 1]) + effects[|effects| - 1].body
  }

  /** Running one more effect replays its reads after those of the others. */
  lemma ReadsOfStep(effects: seq<Effect>, e: Effect)
    ensures ReadsOf(effects + [e]) == ReadsOf(effects) + e.body
  {
    assert (effects + [e])[..|effects|] == effects;
  }

  /** The registry invariant: no set holds an effect twice. */
  ghost predicate WellFormed(tm: TargetMap) {
    forall t: ObjId, k: Key :: NoDup(Deps(tm, t, k))
  }

  /** Reads with an empty slot record no effect anywhere (InputsArray.js:22). */
  lemma {:induction false} TrackAllWithoutActive(tm: TargetMap, accesses: seq<Access>, t: ObjId, k: Key)
    ensures Deps(TrackAll(tm, accesses, None), t, k) == Deps(tm, t, k)
    decreases |accesses|
  {
    if accesses != [] {
      var init := accesses[..|accesses| - 1];
      var last := accesses[|accesses| - 1];
      TrackAllWithoutActive(tm, init, t, k);
      if (t, k) != (last.target, last.key) {
        AfterTrackFrame(TrackAll(tm, init, None), last.target, last.key, None, t, k);
      }
    }
  }

  /**
   * Reads with effect `e` in the slot add `e` once, at the end, to the set of
   * every key read and of no other key.
   */
  lemma {:induction false} TrackAllWithActive(tm: TargetMap, accesses: seq<Access>, e: Effect, t: ObjId, k: Key)
    ensures Access(t, k) in accesses && e !in Deps(tm, t, k) ==>
              Deps(TrackAll(tm, accesses, Some(e)), t, k) == Deps(tm, t, k) + [e]
    ensures !(Access(t, k) in accesses && e !in Deps(tm, t, k)) ==>
              Deps(TrackAll(tm, accesses, Some(e)), t, k) == Deps(tm, t, k)
    decreases |accesses|
  {
    if accesses != [] {
      var init := accesses[..|accesses| - 1];
      var last := accesses[|accesses| - 1];
      var mid := TrackAll(tm, init, Some(e));
      TrackAllWithActive(tm, init, e, t, k);
      assert accesses == init + [last];
      assert Access(t, k) in accesses <==> Access(t, k) in init || last == Access(t, k);
      if (t, k) != (last.target, last.key) {
        AfterTrackFrame(mid, last.target, last.key, Some(e), t, k);
      } else if Access(t, k) in init && e !in Deps(tm, t, k) {
        assert e in Deps(mid, t, k);
      }
    }
  }

  /** Entries, once created, are never removed (InputsArray.js:14-21). */
  lemma {:induction false} TrackAllKeepsEntries(tm: TargetMap, accesses: seq<Access>, active: Option<Effect>, t: ObjId, k: Key)
    requires t in tm && k in tm[t]
    ensures t in TrackAll(tm, accesses, active) && k in TrackAll(tm, accesses, active)[t]
    decreases |accesses|
  {
    if accesses != [] {
      var init := accesses[..|accesses| - 1];
      var last := accesses[|accesses| - 1];
      TrackAllKeepsEntries(tm, init, active, t, k);
      AfterTrackKeepsEntry(TrackAll(tm, init, active), last.target, last.key, active, t, k);
    }
  }

  /** Every key read gets a per-target map and a per-key set, even with an empty slot (InputsArray.js:14-21). */
  lemma {:induction false} TrackAllCreatesEntries(tm: TargetMap, accesses: seq<Access>, active: Option<Effect>, i: nat)
    requires i < |accesses|
    ensures accesses[i].target in TrackAll(tm, accesses, active)
    ensures accesses[i].key in TrackAll(tm, accesses, active)[accesses[i].target]
    decreases |accesses|
  {
    var init := accesses[..|accesses| - 1];
    var last := accesses[|accesses| - 1];
    if i < |accesses| - 1 {
      TrackAllCreatesEntries(tm, init, active, i);
      AfterTrackKeepsEntry(TrackAll(tm, init, active), last.target, last.key, active, accesses[i].target, accesses[i].key);
    }
  }

  /** Replaying two read lists one after the other is replaying their concatenation. */
  lemma {:induction false} TrackAllAppend(tm: TargetMap, xs: seq<Access>, ys: seq<Access>, active: Option<Effect>)
    ensures TrackAll(TrackAll(tm, xs, active), ys, active) == TrackAll(tm, xs + ys, active)
    decreases |ys|
  {
    if ys == [] {
      assert xs + ys == xs;
    } else {
      var init := ys[..|ys| - 1];
      TrackAllAppend(tm, xs, init, active);
      assert (xs + ys)[..|xs + ys| - 1] == xs + init;
    }
  }

  /** One `track` keeps every set free of duplicates. */
  lemma AfterTrackWellFormed(tm: TargetMap, target: ObjId, key: Key, active: Option<Effect>)
    requires WellFormed(tm)
    ensures WellFormed(AfterTrack(tm, target, key, active))
  {
    var r := AfterTrack(tm, target, key, active);
    forall t: ObjId, k: Key ensures NoDup(Deps(r, t, k)) {
      if (t, k) != (target, key) {
        AfterTrackFrame(tm, target, key, active, t, k);
      }
    }
  }

  /** Any sequence of reads keeps every set free of duplicates. */
  lemma {:induction false} TrackAllWellFormed(tm: TargetMap, accesses: seq<Access>, active: Option<Effect>)
    requires WellFormed(tm)
    ensures WellFormed(TrackAll(tm, accesses, active))
    decreases |accesses|
  {
    if accesses != [] {
      var init := accesses[..|accesses| - 1];
      var last := accesses[|accesses| - 1];
      TrackAllWellFormed(tm, init, active);
      AfterTrackWellFormed(TrackAll(tm, init, active), last.target, last.key, active);
    }
  }

  /** Reading the same key again with the same slot changes nothing: sets hold no duplicates. */
  lemma TrackAgainChangesNothing(tm: TargetMap, target: ObjId, key: Key, active: Option<Effect>)
    ensures AfterTrack(AfterTrack(tm, target, key, active), target, key, active) == AfterTrack(tm, target, key, active)
  {
    var once := AfterTrack(tm, target, key, active);
    assert once[target][key := once[target][key]] == once[target];
  }

  /** Running an effect's reads a second time with it in the slot registers nothing new. */
  lemma RerunRegistersNothingNew(tm: TargetMap, e: Effect, t: ObjId, k: Key)
    ensures Deps(TrackAll(TrackAll(tm, e.body, Some(e)), e.body, Some(e)), t, k) ==
            Deps(TrackAll(tm, e.body, Some(e)), t, k)
  {
    TrackAllWithActive(tm, e.body, e, t, k);
    TrackAllWithActive(TrackAll(tm, e.body, Some(e)), e.body, e, t, k);
  }

  /**
   * Two effects that read the same key, started one after the other, sit in
   * its set in the order they were started, after the effects already there.
   */
  lemma RegistrationOrder(tm: TargetMap, e1: Effect, e2: Effect, t: ObjId, k: Key)
    requires e1 != e2 && Access(t, k) in e1.body && Access(t, k) in e2.body
    requires e1 !in Deps(tm, t, k) && e2 !in Deps(tm, t, k)
    ensures Deps(TrackAll(TrackAll(tm, e1.body, Some(e1)), e2.body, Some(e2)), t, k) ==
            Deps(tm, t, k) + [e1, e2]
  {
    TrackAllWithActive(tm, e1.body, e1, t, k);
    TrackAllWithActive(TrackAll(tm, e1.body, Some(e1)), e2.body, e2, t, k);
  }

  /**
   * The engine state: the `activeEffect` slot (InputsArray.js:2), the
   * `targetMap` registry (InputsArray.js:10) and the raw objects behind the
   * proxies. The proxies themselves are the methods Get and Set.
   */
  class Engine {
    var active: Option<Effect>
    var targetMap: TargetMap
    var store: Store
    var nextObj: nat

    /** Holds within an effect's run as well as between operations. */
    ghost predicate Consistent()
      reads this
    {
      && (forall t :: t in store ==> t < nextObj)
      && WellFormed(targetMap)
    }

    /** Between operations the slot is empty. */
    ghost predicate Valid()
      reads this
    {
      Consistent() && active.None?
    }

    constructor ()
      ensures Valid()
      ensures active == None && targetMap == map[] && store == map[]
    {
      active := None;
      targetMap := map[];
      store := map[];
      nextObj := 0;
    }

    /** `reactive(raw)` (InputsArray.js:41-58): wraps a new raw object; the registry is untouched. */
    method Reactive(raw: map<Key, Value>) returns (id: ObjId)
      requires Valid()
      modifies this`store, this`nextObj
      ensures Valid()
      ensures id !in old(store) && store == old(store)[id := raw]
    {
      id := nextObj;
      store := store[id := raw];
      nextObj := nextObj + 1;
    }

    /** `track(target, key)` (InputsArray.js:11-26). */
    method Track(target: ObjId, key: Key)
      requires Consistent()
      modifies this`targetMap
      ensures Consistent()
      ensures targetMap == AfterTrack(old(targetMap), target, key, active)
    {
      var depsMap: DepsMap := map[];   // a missing per-target map is created empty
      if target in targetMap {
        depsMap := targetMap[target];
      }
      var dep: seq<Effect> := [];      // a missing per-key set is created empty
      if key in depsMap {
        dep := depsMap[key];
      }
      if active.Some? && active.value !in dep {
        dep := dep + [active.value];
      }
      targetMap := targetMap[target := depsMap[key := dep]];
      AfterTrackWellFormed(old(targetMap), target, key, active);
    }

    /**
     * The proxy's `get` (InputsArray.js:43-46): the raw value, unwrapped, and
     * a `track` of (target, key) with whatever the slot holds.
     */
    method Get(target: ObjId, key: Key) returns (v: Value)
      requires Consistent()
      modifies this`targetMap
      ensures Consistent()
      ensures v == RawGet(store, target, key)
      ensures targetMap == AfterTrack(old(targetMap), target, key, active)
    {
      v := RawGet(store, target, key);
      Track(target, key);
    }

    /** An effect's body: its reads through the proxies, in order. */
    method RunBody(accesses: seq<Access>) returns (values: seq<Value>)
      requires Consistent()
      modifies this`targetMap
      ensures Consistent()
      ensures values == ReadAll(store, accesses)
      ensures targetMap == TrackAll(old(targetMap), accesses, active)
    {
      values := [];
      var i := 0;
      while i < |accesses|
        invariant 0 <= i <= |accesses|
        invariant Consistent()
        invariant values == ReadAll(store, accesses[..i])
        invariant targetMap == TrackAll(old(targetMap), accesses[..i], active)
      {
        var v := Get(accesses[i].target, accesses[i].key);
        TrackAllStep(old(targetMap), accesses, i, active);
        ReadAllStep(store, accesses, i);
        values := values + [v];
        i := i + 1;
      }
      assert accesses[..i] == accesses;
    }

    /**
     * `effect(eff)` (InputsArray.js:4-8): the slot holds `eff` while its body
     * runs, and is empty afterwards whatever it held before. `None` stands for
     * a falsy `eff`, which is not called.
     */
    method RunEffect(eff: Option<Effect>) returns (values: seq<Value>)
      requires Consistent()
      modifies this`targetMap, this`active
      ensures Valid()
      ensures eff.Some? ==> targetMap == TrackAll(old(targetMap), eff.value.body, eff)
      ensures eff.Some? ==> values == ReadAll(store, eff.value.body)
      ensures eff.None? ==> targetMap == old(targetMap) && values == []
    {
      active := eff;
      values := [];
      if active.Some? {
        values := RunBody(active.value.body);
      }
      active := None;
    }

    /**
     * `trigger(target, key)` (InputsArray.js:27-39): calls every effect of the
     * set, once each, in insertion order. An effect is called directly, not
     * through `effect`, so it runs with the slot empty and records nothing;
     * its reads may still create empty entries, but no dependency set
     * changes. A key never read leaves everything as it was.
     */
    method Trigger(target: ObjId, key: Key) returns (ran: seq<Effect>)
      requires Valid()
      modifies this`targetMap
      ensures Valid()
      ensures ran == Deps(old(targetMap), target, key) && NoDup(ran)
      ensures targetMap == TrackAll(old(targetMap), ReadsOf(ran), None)
      ensures forall t: ObjId, k: Key :: Deps(targetMap, t, k) == Deps(old(targetMap), t, k)
    {
      ran := [];
      if target !in targetMap {
        return;
      }
      var depsMap := targetMap[target];
      if key !in depsMap {
        return;
      }
      var dep := depsMap[key];
      var i := 0;
      while i < |dep|
        invariant 0 <= i <= |dep|
        invariant Valid()
        invariant ran == dep[..i]
        invariant targetMap == TrackAll(old(targetMap), ReadsOf(ran), None)
      {
        var e := dep[i];
        var values := RunBody(e.body);
        TrackAllAppend(old(targetMap), ReadsOf(ran), e.body, None);
        ReadsOfStep(ran, e);
        ran := ran + [e];
        assert dep[..i + 1] == dep[..i] + [e];
        i := i + 1;
      }
      assert dep[..i] == dep;
      forall t: ObjId, k: Key ensures Deps(targetMap, t, k) == Deps(old(targetMap), t, k) {
        TrackAllWithoutActive(old(targetMap), ReadsOf(ran), t, k);
      }
    }

    /**
     * The proxy's `set` (InputsArray.js:48-55). The old value is read raw, so
     * nothing is tracked; `succeeds` is the outcome of `Reflect.set`. The set
     * of (target, key) is triggered exactly when the assignment succeeded and
     * the old and new values serialise differently.
     */
    method Set(target: ObjId, key: Key, value: Value, succeeds: bool) returns (result: bool, ran: seq<Effect>)
      requires Valid() && target in store
      modifies this`store, this`targetMap
      ensures Valid()
      ensures result == succeeds
      ensures succeeds ==> store == old(store)[target := old(store)[target][key := value]]
      ensures !succeeds ==> store == old(store)
      ensures succeeds && Changed(RawGet(old(store), target, key), value) ==>
                ran == Deps(old(targetMap), target, key)
      ensures !(succeeds && Changed(RawGet(old(store), target, key), value)) ==> ran == []
      ensures targetMap == TrackAll(old(targetMap), ReadsOf(ran), None)
      ensures forall t: ObjId, k: Key :: Deps(targetMap, t, k) == Deps(old(targetMap), t, k)
    {
      var oldValue := RawGet(store, target, key);
      result := succeeds;
      if succeeds {
        store := store[target := store[target][key := value]];
      }
      ran := [];
      if result && Changed(oldValue, value) {
        ran := Trigger(target, key);
      }
    }
  }
}
