/**
 * The registry object returned by `createWindowSolanaWallets`
 * (packages/core/standard/src/implementation/window.ts). The closure-held
 * `items` array and `listeners` table become fields that the methods update in
 * place; the callbacks a listener would run are recorded in the ghost `log`.
 * Every method is specified by the matching transition of `RegistrySpec`.
 */
module Registry {
  import opened GlobalTypes
  import opened RegistrySpec

  /** What the closure returned by `on(event, listener)` captures. */
  datatype Subscription<L> = Subscription(event: Event, listener: L)

  class SolanaWallets<W, L(==)> {
    /** The API version; fixed at creation. */
    const version: Version
    var items: seq<W>
    var listeners: Table<L>
    ghost var log: seq<Delivery<W, L>>

    /** The abstract state the methods are specified against. */
    ghost function State(): State<W, L>
      reads this
    {
      RegistrySpec.State(items, listeners, log)
    }

    /** `createWindowSolanaWallets()`: an empty registry of version 1.0.0. */
    constructor ()
      ensures version == V1_0_0 && version.Name() == "1.0.0"
      ensures State() == Empty()
    {
      version := V1_0_0;
      items := [];
      listeners := map[];
      log := [];
    }

    /** `get()`: a new array holding the registered wallets in registration order. */
    method Get() returns (snapshot: array<W>)
      ensures fresh(snapshot)
      ensures snapshot[..] == items
    {
      var current := items;
      snapshot := new W[|current|](i requires 0 <= i < |current| => current[i]);
    }

    /** `emit(event, ...args)`: call the listeners of `event`, in order, with `args`. */
    method Emit(event: Event, args: seq<W>)
      modifies this`log
      ensures log == old(log) + Broadcast(event, Subscribers(listeners, event), args, items)
    {
      var current := Subscribers(listeners, event);
      for i := 0 to |current|
        invariant log == old(log) + Broadcast(event, current[..i], args, items)
      {
        assert current[..i + 1] == current[..i] + [current[i]];
        log := log + [Delivery(event, current[i], args, items)];
      }
      assert current[..|current|] == current;
    }

    /** `register(...wallets)`: append the wallets, then emit `registered` with them. */
    method Register(wallets: seq<W>)
      modifies this
      ensures State() == RegistrySpec.Register(old(State()), wallets)
      ensures items == old(items) + wallets && listeners == old(listeners)
      ensures log == old(log) + Broadcast(Registered, Subscribers(listeners, Registered), wallets, items)
    {
      items := items + wallets;
      Emit(Registered, wallets);
    }

    /** `on(event, listener)`: add the listener last and hand back its unsubscribe handle. */
    method On(event: Event, listener: L) returns (off: Subscription<L>)
      modifies this
      ensures State() == Subscribe(old(State()), event, listener)
      ensures Subscribers(listeners, event) == Subscribers(old(listeners), event) + [listener]
      ensures forall e :: e != event ==> Subscribers(listeners, e) == Subscribers(old(listeners), e)
      ensures items == old(items) && log == old(log)
      ensures off == Subscription(event, listener)
    {
      if event in listeners {
        listeners := listeners[event := listeners[event] + [listener]];
      } else {
        assert Subscribers(listeners, event) + [listener] == [listener];
        listeners := listeners[event := [listener]];
      }
      off := Subscription(event, listener);
    }

    /** Run the unsubscribe closure `off` that `on` returned. */
    method Unsubscribe(off: Subscription<L>)
      modifies this
      ensures State() == RegistrySpec.Unsubscribe(old(State()), off.event, off.listener)
      ensures off.listener !in Subscribers(listeners, off.event)
      ensures items == old(items) && log == old(log)
    {
      if off.event in listeners {
        listeners := listeners[off.event := Without(listeners[off.event], off.listener)];
      }
    }
  }

  /**
   * A page's script against the registry: two listeners subscribe, wallets are
   * registered, then a late listener subscribes and is given nothing.
   */
  method DeliveryWalkthrough<W, L(==)>(a: W, b: W, l1: L, l2: L, l3: L)
  {
    var r := new SolanaWallets<W, L>();
    var off1 := r.On(Registered, l1);
    var off2 := r.On(Registered, l2);
    assert Subscribers(r.listeners, Registered) == [l1, l2];
    r.Register([a, b]);
    assert r.items == [a, b];
    assert r.log == [Delivery(Registered, l1, [a, b], [a, b]), Delivery(Registered, l2, [a, b], [a, b])];
    ghost var delivered := r.log;
    var off3 := r.On(Registered, l3);
    assert r.log == delivered;
  }

  /**
   * An app takes a snapshot with `get()`: a later registration does not reach
   * it, and writing to it does not reach the registry.
   */
  method SnapshotWalkthrough<W, L(==)>(a: W, b: W, c: W)
  {
    var r := new SolanaWallets<W, L>();
    r.Register([a, b]);
    var before := r.Get();
    r.Register([c]);
    assert r.items == [a, b, c];
    assert before[..] == [a, b];
    before[0] := c;
    assert r.items == [a, b, c];
  }

  /**
   * A page's script against the registry: of two listeners the first
   * unsubscribes, twice; a later registration reaches the second only.
   */
  method UnsubscribeWalkthrough<W, L(==)>(a: W, l1: L, l2: L)
    requires l1 != l2
  {
    var r := new SolanaWallets<W, L>();
    var off1 := r.On(Registered, l1);
    var off2 := r.On(Registered, l2);
    assert Subscribers(r.listeners, Registered) == [l1, l2];
    ghost var subscribed := r.State();
    assert Without([l1, l2], l1) == [l2] by {
      assert [l1, l2] == [l1] + [l2];
      WithoutConcat([l1], [l2], l1);
      WithoutAbsent([l2], l1);
    }
    r.Unsubscribe(off1);
    assert Subscribers(r.listeners, Registered) == [l2];
    ghost var once := r.State();
    r.Unsubscribe(off1);
    UnsubscribeIdempotent(subscribed, Registered, l1);
    assert r.State() == once;
    r.Register([a]);
    assert r.items == [a];
    assert r.log == [Delivery(Registered, l2, [a], [a])];
  }
}
