# Solana wallet discovery registry, in Dafny

A model of the page-wide wallet registry of the Wallet Standard package
(`packages/core/standard/src/implementation/window.ts`). Every wallet
extension, and the app's wallet adapter, runs the same initialiser on page
load. The first one to run defines `window.solana` (if it is absent) and then
`window.solana.wallets`. Both are non-writable bindings. Every later
initialiser finds `wallets.version` set and does nothing. The registry is a
closure over a wallet list and a listener table. It offers:

- `get()`: a copy of the wallet list;
- `register(...wallets)`: append the wallets, then call every `registered`
  listener, in subscription order, with exactly those wallets;
- `on(event, listener)`: append a listener and return a closure that filters
  it back out;
- `version`: the constant `'1.0.0'`.

Files and modules:

- `global_types.dfy` (`GlobalTypes`): the event name `registered` and the
  version enumeration `'1.0.0'` from `interfaces/global.ts`.
- `registry_spec.dfy` (`RegistrySpec`): the registry's abstract state, which
  is the wallet list, the listener table and a log of listener calls. It also
  holds one function per operation and the properties proved about them,
  including properties of whole call sequences (`Run`).
- `registry.dfy` (`Registry`): class `SolanaWallets`, the registry object. Its
  `items` and `listeners` fields are updated in place. `Emit` is the `forEach`
  loop. Each method's postcondition equates the new state with the matching
  `RegistrySpec` function applied to the old state.
- `window.dfy` (`SolanaWindow`): classes `Window` and `Solana` for the two
  global bindings, and the initialiser `Initialize`.
- `wrappers.dfy` (`Wrappers`): `Option`, for a binding that is not yet defined.

Modelling choices:

- Wallets are an opaque type parameter `W`. `L` stands for a callable
  function compared by identity (`!==`).
- Calling a listener is recorded as a `Delivery` in the ghost `log`. A
  delivery holds the event, the listener, the wallets passed, and the wallet
  list `get()` would return at that moment.
- The unsubscribe closure is the value `Subscription(event, listener)`, which
  holds exactly what the closure captures. `SolanaWallets.Unsubscribe` runs it.
  The source's closure is bound to the one registry whose `on` made it. The
  model's handle is a plain value, so it can be built for any pair and applied
  to any registry. Applied to its own registry, it does exactly what the
  closure does.
- `Event` has one value, `Registered`, as the source's event table has one
  name. Clauses about "another event" (in `RegistrySpec.Subscribe`,
  `RegistrySpec.Unsubscribe` and `SolanaWallets.On`) therefore hold vacuously
  today. `RegistrySpec.RunSubscribers` excludes unsubscribes from the event it
  is about, which means every unsubscribe call. `RegistrySpec.Silenced` and
  `RegistrySpec.NothingAfterUnsubscribe` assume only that the listener is not
  subscribed to one event `e`, yet conclude that it receives no later call of
  any event; with a single event these are the same.
- Non-writability is modelled by `Initialize` being the only code that assigns
  the bindings, and only while they are undefined.
- `register()` with no wallets still calls every listener, with an empty
  payload, as `emit('registered')` does.
- Unsubscribing removes every occurrence of the listener. A function that was
  subscribed twice is removed entirely by one call.
- `Subscribers(t, e)` reads `listeners[event]?`; an event without an entry has
  no listeners.
- `items` and `listeners` are public fields of `SolanaWallets`, so any method
  allowed to modify the registry could overwrite them. In the source they are
  closure-private (`window.ts:26-27`) and only `register`, `on` and the
  unsubscribe closure assign them; in the model only the class's own methods
  assign them.
- If the table has no entry for the event, the source's unsubscribe stores
  `undefined`. That behaves exactly like a missing entry, so the model leaves
  the table unchanged.
- `emit` is a plain `forEach`. A throwing listener therefore stops the
  remaining ones, and `register` throws after the wallets were already
  pushed. Exceptions are not modelled (see below).

## Model

| member | source | states |
|---|---|---|
| RegistrySpec.Empty | packages/core/standard/src/implementation/window.ts:26-27 | a new registry's state: no wallets, no listeners for any event, no calls made |
| RegistrySpec.Register | packages/core/standard/src/implementation/window.ts:41-45 | `register(ws)` appends `ws` and leaves the table alone; it keeps the earlier log and adds one call per current `registered` listener, in subscription order, each with exactly `ws` while `get()` already includes `ws` |
| RegistrySpec.Subscribe | packages/core/standard/src/implementation/window.ts:47 | `on(e, l)` leaves wallets and log alone, appends `l` to the listeners of `e` (an absent entry becoming `[l]`), and leaves other events' lists as they were |
| RegistrySpec.Unsubscribe | packages/core/standard/src/implementation/window.ts:49-51 | the closure leaves wallets and log alone; afterwards `l` is not a listener of `e` and every other listener keeps its count; other events' lists are unchanged |
| RegistrySpec.Without | packages/core/standard/src/implementation/window.ts:50 | the filtered list contains no occurrence of the listener and keeps every other listener as many times as before (multiset equality with that listener's count set to zero); it is never longer |
| RegistrySpec.WithoutAbsent | packages/core/standard/src/implementation/window.ts:50 | filtering out a listener that is not in the list returns the list unchanged |
| RegistrySpec.WithoutConcat | packages/core/standard/src/implementation/window.ts:50 | filtering distributes over concatenation, so the remaining listeners keep their relative order |
| RegistrySpec.UnsubscribeKeepsOrder | packages/core/standard/src/implementation/window.ts:49-51 | unsubscribing keeps the remaining listeners of the event in their old relative order: however the list is cut in two, the result is each part filtered on its own, joined in the same order |
| RegistrySpec.UnsubscribeIdempotent | packages/core/standard/src/implementation/window.ts:49-51 | running an unsubscribe closure a second time leaves the state as the first run left it |
| RegistrySpec.RunSubscribers | packages/core/standard/src/implementation/window.ts:47 | with no unsubscribe in between, an event's listeners are the earlier ones followed by those `on` added, in call order |
| RegistrySpec.Broadcast | packages/core/standard/src/implementation/window.ts:29-34 | emitting makes one call per listener, the i-th to the i-th subscriber, each with the same arguments |
| RegistrySpec.RunAppendsItems | packages/core/standard/src/implementation/window.ts:41-42 | after any sequence of calls the wallet list is the old list followed by every registered wallet in call order, with no de-duplication |
| RegistrySpec.TwoListenersInOrder | packages/core/standard/src/implementation/window.ts:33-47 | listeners L1 then L2 subscribed before `register(ws)` are called as L1(ws) then L2(ws) and nothing else, on a registry with no other `registered` listener |
| RegistrySpec.RunExtendsLog | packages/core/standard/src/implementation/window.ts:29-51 | no sequence of calls withdraws or rewrites a listener call already made; the log only grows |
| RegistrySpec.Silenced | packages/core/standard/src/implementation/window.ts:29-51 | a listener not subscribed to an event receives no call from later operations unless `on` subscribes it again |
| RegistrySpec.NothingAfterUnsubscribe | packages/core/standard/src/implementation/window.ts:49-51 | after its unsubscribe closure runs, a listener receives nothing from later registrations until it subscribes again |
| RegistrySpec.NoReplay | packages/core/standard/src/implementation/window.ts:41-47 | a registration made while a listener was not subscribed never reaches it, even after it subscribes |
| Registry.SolanaWallets.constructor | packages/core/standard/src/implementation/window.ts:25-37 | a new registry has version `'1.0.0'`, no wallets, no listeners and no calls made |
| Registry.SolanaWallets.Get | packages/core/standard/src/implementation/window.ts:38-40 | returns a newly allocated array equal to the wallet list, so writes to it cannot reach the registry and later registrations cannot reach it |
| Registry.SolanaWallets.Emit | packages/core/standard/src/implementation/window.ts:29-34 | the loop appends one call per current listener of the event, in table order, with the given arguments |
| Registry.SolanaWallets.Register | packages/core/standard/src/implementation/window.ts:41-45 | the new state is `RegistrySpec.Register` of the old: wallets appended, listener table unchanged, `registered` listeners called with exactly the new wallets |
| Registry.SolanaWallets.On | packages/core/standard/src/implementation/window.ts:46-48 | the listener is appended to its event's list (created as `[listener]` if absent); other events, wallets and the log are unchanged; the handle captures event and listener |
| Registry.SolanaWallets.Unsubscribe | packages/core/standard/src/implementation/window.ts:49-51 | the new state is `RegistrySpec.Unsubscribe` of the old; the listener is no longer subscribed; wallets and log are unchanged |
| SolanaWindow.Solana.constructor | packages/core/standard/src/implementation/window.ts:18 | the namespace the initialiser defines starts with no `wallets` binding |
| SolanaWindow.Window.HasWallets | packages/core/standard/src/implementation/window.ts:15 | the loose check `window.solana?.wallets?.version` holds exactly when both bindings exist, because every registry carries the non-empty version `'1.0.0'` |
| SolanaWindow.Window.Initialize | packages/core/standard/src/implementation/window.ts:13-23 | afterwards a registry is present; an existing namespace is never replaced; an existing registry is kept with the same identity and unchanged state; otherwise a fresh, empty registry of version `'1.0.0'` is installed, inside a fresh namespace if there was none |
| SolanaWindow.InitializeTwice | packages/core/standard/src/implementation/window.ts:13-23 | a second run of the initialiser finds and keeps the registry the first run produced |

## Left out

- The wallet capability contract in `interfaces/wallet.ts` is left out. `connect`, signing, `signAndSendTransaction`, `encrypt`, `decrypt` and `accountsChanged` are interfaces that wallet extensions implement, and there is no code for them. This includes the silent-connect behaviour.
- Running listener callbacks is left out. Each call is a log entry instead.
- Exceptions thrown by a listener are not modelled. In the source, a throwing listener stops the `forEach` and the remaining listeners are not called.
- Re-entrant calls of `on`, `register` or an unsubscribe closure from inside a listener are not modelled. Listeners are assumed not to call back into the registry.
- Property descriptors, `Object.defineProperty` and host rejection of writes to the non-writable bindings are not modelled. The model has no operation that could overwrite a binding.
- A foreign object at `window.solana.wallets` without a `version` is not modelled. The source calls `defineProperty` on it: a binding that is configurable or still writable is replaced by a fresh registry; a non-configurable accessor or non-writable binding makes the call throw a `TypeError`. Every registry in the model has a version.
- A non-callable listener is not modelled. `on` accepts any value, but `emit` would throw a `TypeError` when calling it, which skips the later listeners. The model records a call instead.
- `!==` is not reflexive for `NaN`, so a `NaN` listener could never be unsubscribed in the source. The model compares listeners with Dafny's reflexive `==`.
- The registry object's own properties are not modelled as writable. Only the `solana` and `wallets` bindings are non-writable, and `Readonly<>` is a type-level annotation only. Any script could reassign `version`, `get`, `register` or `on` on the object literal. In the model `version` is a `const` and the methods are fixed.
