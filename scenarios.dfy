/**
 * Clients of the engine: each runs a short sequence of operations on a fresh
 * engine and states which effects a write calls, from the engine's contracts
 * alone.
 */
module Scenarios {
  import opened Wrappers
  import opened Json
  import opened Reactivity

  /**
   * The state `{items: []}`, an effect that reads `items`, then `items = [1]`:
   * the effect runs exactly once.
   */
  method WriteAfterEffect() returns (e: Effect, ran: seq<Effect>)
    ensures ran == [e]
  {
    var engine := new Engine();
    var state := engine.Reactive(map["items" := Arr([])]);
    e := Effect(0, [Access(state, "items")]);
    var values := engine.RunEffect(Some(e));
    TrackAllWithActive(map[], e.body, e, state, "items");
    var ok;
    ok, ran := engine.Set(state, "items", Arr([Num(1)]), true);
  }

  /** A read outside any effect registers nothing: a later write calls no effect. */
  method ReadOutsideEffect() returns (v: Value, ran: seq<Effect>)
    ensures v == Num(1) && ran == []
  {
    var engine := new Engine();
    var state := engine.Reactive(map["x" := Num(1)]);
    v := engine.Get(state, "x");
    var ok;
    ok, ran := engine.Set(state, "x", Num(2), true);
  }

  /** An effect that reads a key twice is called once per write. */
  method ReadTwiceCalledOnce() returns (e: Effect, ran: seq<Effect>)
    ensures ran == [e]
  {
    var engine := new Engine();
    var state := engine.Reactive(map["x" := Num(1)]);
    e := Effect(0, [Access(state, "x"), Access(state, "x")]);
    var values := engine.RunEffect(Some(e));
    TrackAllWithActive(map[], e.body, e, state, "x");
    assert Deps(engine.targetMap, state, "x") == [e];
    assert RawGet(engine.store, state, "x") == Num(1) && Changed(Num(1), Num(2));
    var ok;
    ok, ran := engine.Set(state, "x", Num(2), true);
  }

  /**
   * Writing a new but equal array calls nothing; writing a different one
   * calls the effect.
   */
  method EqualWriteIsSilent() returns (e: Effect, same: seq<Effect>, different: seq<Effect>)
    ensures same == [] && different == [e]
  {
    var engine := new Engine();
    var state := engine.Reactive(map["items" := Arr([Num(1)])]);
    e := Effect(0, [Access(state, "items")]);
    var values := engine.RunEffect(Some(e));
    TrackAllWithActive(map[], e.body, e, state, "items");
    ghost var registered := engine.targetMap;
    assert RawGet(engine.store, state, "items") == Arr([Num(1)]);
    var ok;
    ok, same := engine.Set(state, "items", Arr([Num(1)]), true);
    assert same == [] && engine.targetMap == registered;
    assert RawGet(engine.store, state, "items") == Arr([Num(1)]);
    LongerArrayIsChange();
    ok, different := engine.Set(state, "items", Arr([Num(1), Num(2)]), true);
  }

  lemma LongerArrayIsChange()
    ensures Changed(Arr([Num(1)]), Arr([Num(1), Num(2)]))
  {
    assert |StringifyItems([Num(1)])| == 1;
  }

  /**
   * An effect called by a write runs with the slot empty and registers nothing
   * new: afterwards its key's set is still exactly that effect, so the next
   * write calls it once again.
   */
  method CascadeRegistersNothing() returns (e: Effect, first: seq<Effect>, deps: seq<Effect>)
    ensures first == [e] && deps == [e]
  {
    var engine := new Engine();
    var state := engine.Reactive(map["a" := Num(0)]);
    e := Effect(0, [Access(state, "a")]);
    var values := engine.RunEffect(Some(e));
    TrackAllWithActive(map[], e.body, e, state, "a");
    ghost var registered := engine.targetMap;
    assert Deps(registered, state, "a") == [e];
    assert RawGet(engine.store, state, "a") == Num(0) && Changed(Num(0), Num(1));
    var ok;
    ok, first := engine.Set(state, "a", Num(1), true);
    TrackAllWithoutActive(registered, ReadsOf(first), state, "a");
    deps := Deps(engine.targetMap, state, "a");
  }

  /** A write to a key no effect read, or a failed assignment, calls nothing. */
  method SilentWrites() returns (unread: seq<Effect>, failed: seq<Effect>, result: bool)
    ensures unread == [] && failed == [] && !result
  {
    var engine := new Engine();
    var state := engine.Reactive(map["a" := Num(0)]);
    var e := Effect(0, [Access(state, "a")]);
    var values := engine.RunEffect(Some(e));
    TrackAllWithActive(map[], e.body, e, state, "b");
    assert Deps(engine.targetMap, state, "b") == [];
    var ok;
    ok, unread := engine.Set(state, "b", Num(1), true);
    result, failed := engine.Set(state, "a", Num(1), false);
  }

  /** Effects are called in the order in which they first read the key. */
  method CallOrder() returns (e1: Effect, e2: Effect, ran: seq<Effect>)
    ensures e1 != e2 && ran == [e1, e2]
  {
    var engine := new Engine();
    var state := engine.Reactive(map["x" := Str("")]);
    e1 := Effect(1, [Access(state, "x")]);
    e2 := Effect(2, [Access(state, "x")]);
    var values := engine.RunEffect(Some(e1));
    values := engine.RunEffect(Some(e2));
    RegistrationOrder(map[], e1, e2, state, "x");
    var ok;
    ok, ran := engine.Set(state, "x", Str("hello"), true);
  }
}
