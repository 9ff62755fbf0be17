/**
 * The initialiser that every wallet extension (and the app's adapter) runs on
 * page load (packages/core/standard/src/implementation/window.ts): the first to
 * run creates `window.solana.wallets`, later ones find it and reuse it.
 *
 * Both bindings are non-writable in the source; here they are fields that only
 * `Initialize` assigns, and only while they are still undefined.
 */
module SolanaWindow {
  import opened Wrappers
  import opened GlobalTypes
  import opened RegistrySpec
  import opened Registry

  /** The `window.solana` namespace object. */
  class Solana<W, L(==)> {
    var wallets: Option<SolanaWallets<W, L>>

    /** The `{}` the initialiser defines when `window.solana` is absent. */
    constructor ()
      ensures wallets == None
    {
      wallets := None;
    }
  }

  /** The page's global object, as far as the `solana` binding goes. */
  class Window<W, L(==)> {
    var solana: Option<Solana<W, L>>

    /** A page whose `solana` binding is as `solana` says. */
    constructor (solana: Option<Solana<W, L>>)
      ensures this.solana == solana
    {
      this.solana := solana;
    }

    /** The namespace object, if there is one. */
    function Namespace(): set<object>
      reads this
    {
      if solana.Some? then {solana.value} else {}
    }

    /** `window.solana?.wallets?.version` is defined and non-empty. Every registry
        carries a non-empty version, so this holds exactly when both bindings exist. */
    predicate HasWallets()
      reads this, Namespace()
      ensures HasWallets() <==> solana.Some? && solana.value.wallets.Some?
    {
      solana.Some? && solana.value.wallets.Some? && solana.value.wallets.value.version.Name() != ""
    }

    /** The registry at `window.solana.wallets`. */
    function Wallets(): SolanaWallets<W, L>
      requires HasWallets()
      reads this, Namespace()
    {
      solana.value.wallets.value
    }

    /** The initialiser: create `solana` if absent, then a fresh registry under it,
        unless a registry with a version is already there. */
    method Initialize()
      modifies this, Namespace()
      ensures HasWallets()
      ensures old(solana).Some? ==> solana == old(solana)
      ensures old(solana).None? ==> fresh(solana.value)
      ensures old(HasWallets()) ==> solana == old(solana) && Wallets() == old(Wallets()) && unchanged(Wallets())
      ensures !old(HasWallets()) ==>
        fresh(Wallets()) && Wallets().version == V1_0_0 && Wallets().State() == Empty()
    {
      if !HasWallets() {
        if solana.None? {
          var namespace := new Solana<W, L>();
          solana := Some(namespace);
        }
        var registry := new SolanaWallets<W, L>();
        solana.value.wallets := Some(registry);
      }
    }
  }

  /**
   * Two scripts run the initialiser one after the other: the second finds the
   * registry the first created (or the one already there) and changes nothing.
   */
  method InitializeTwice<W, L(==)>(w: Window<W, L>) returns (first: SolanaWallets<W, L>, second: SolanaWallets<W, L>)
    modifies w, w.Namespace()
    ensures first == second && w.HasWallets() && w.Wallets() == second
    ensures old(w.HasWallets()) ==> first == old(w.Wallets())
    ensures !old(w.HasWallets()) ==> fresh(first) && first.State() == Empty()
  {
    w.Initialize();
    first := w.Wallets();
    w.Initialize();
    second := w.Wallets();
  }

  /**
   * Two extensions load on a fresh page, each running the initialiser and then
   * registering itself; an app that reads `get()` afterwards sees both, first
   * the one that registered first.
   */
  method TwoExtensions<W, L(==)>(a: W, b: W)
  {
    var w := new Window<W, L>(None);
    w.Initialize();
    w.Wallets().Register([a]);
    w.Initialize();
    w.Wallets().Register([b]);
    var wallets := w.Wallets().Get();
    assert wallets[..] == [a, b];
  }
}
