# apollo-angular client registry, modelled in Dafny

This project models the client registry of apollo-angular: the facade
`ApolloBase`, which holds at most one GraphQL client, and the injectable
`Apollo`, which is itself the "default" facade and also keeps a table of
named facades. The GraphQL client is an opaque value `MkClient(options)`
built from an opaque options bag. Every call that mutates an object returns a
`Step`: the object's state once the call is over, plus whether it threw. So
"a throwing call leaves the state alone" is a checked statement, not an
assumption.

Modules:

- `Results` (results.dfy): `Option`, `Result`, `Outcome` and `Step`.
- `ApolloBase` (apollo_base.dfy): the facade. It has `getClient`,
  `setClient`, the guarded `client` getter (`CheckedClient`), and the
  forwarding operations `watchQuery` and `subscribe`.
- `Apollo` (apollo.dfy): the registry. It has `createDefault`,
  `createNamed`, `create`, `default`, `use`, and the constructor's
  resolution of its two optional inputs (`Construct`). The constructor's
  `forEach` over the named options table is `CreateEach`.
- `Lifecycle` (lifecycle.dfy): any sequence of the mutating public calls,
  with each throw caught by the caller. It proves that no client is ever
  replaced and that no named client ever disappears.

Modelling choices:

- JavaScript truthiness is written out. A client object is always truthy,
  so `if (this._client)` means "the slot holds a client". The test
  `name && name !== 'default'` means "a name was given, it is not empty, and
  it is not `"default"`" (`NamesNamedClient`).
- `use` returns a `Handle`: either `Itself` (the registry) or `Named(facade)`.
  A named facade is a copy, not a reference. The aliasing is unobservable,
  because every named facade is built around a client and so its
  `setClient` always throws (`Sealed`).
- The named options object is a sequence of `(name, options)` entries, in
  the order `Object.entries` lists them. The names of an object's own keys
  are distinct. Under that condition the result does not depend on the
  order (`CreateEachContents`). For a sequence with a repeated name, the
  model proves that construction throws.

## Model

| member | source | states |
|---|---|---|
| ApolloBase.GetClient | packages/apollo-angular/src/Apollo.ts:48-50 | Never throws. Reports nothing exactly on a facade that holds no client. |
| ApolloBase.SetClient | packages/apollo-angular/src/Apollo.ts:52-58 | On a facade that holds a client, throws with the message "Client has been already defined" and keeps the held client. On an empty facade, stores exactly the given client. |
| ApolloBase.CheckedClient | packages/apollo-angular/src/Apollo.ts:60-74 | The guarded getter throws with the message "Client has not been defined yet" exactly when the slot is empty. Otherwise it yields the client `getClient` reports. |
| ApolloBase.WatchQuery | packages/apollo-angular/src/Apollo.ts:22-26 | Throws "not defined yet" exactly when the slot is empty. Otherwise it forwards the caller's options, unchanged, to the one client `getClient` reports. |
| ApolloBase.Subscribe | packages/apollo-angular/src/Apollo.ts:44-46 | Same guard and forwarding as `watchQuery`, for a subscription. |
| ApolloBase.GetClientAfterSetClient | packages/apollo-angular/src/Apollo.ts:48-58 | `getClient` never throws. It reports nothing on a new facade and the first client after `setClient`. A second `setClient` throws and leaves the first client in place. |
| ApolloBase.ForwardingFollowsSetClient | packages/apollo-angular/src/Apollo.ts:60-74 | Forwarding is refused before `setClient` and reaches exactly the client that was set afterwards. The guard runs on every call. |
| Apollo.CreateDefault | packages/apollo-angular/src/Apollo.ts:129-137 | Throws with the message "Apollo has been already created." exactly when the registry holds a client, and then changes nothing. Otherwise it fills the registry's own slot with a client built from the options. The named table is unchanged either way. |
| Apollo.CreateNamed | packages/apollo-angular/src/Apollo.ts:139-150 | Throws with the message "Client <name> has been already created" exactly when the name is taken, and then changes nothing. Otherwise it adds exactly one key, the given name, whose facade holds a client built from the options. The other entries and the default slot are unchanged. |
| Apollo.Create | packages/apollo-angular/src/Apollo.ts:107-116 | A proper name changes only the named table. An absent name, `""` or `"default"` changes only the default slot. It throws exactly when the selected operation does, with that operation's error, and then changes nothing. On success, `use` of the target name finds the new client. |
| Apollo.CreateDispatch | packages/apollo-angular/src/Apollo.ts:111-115 | An absent name, `""` and `"default"` all reach `createDefault`. Any other name reaches `createNamed`. |
| Apollo.Default | packages/apollo-angular/src/Apollo.ts:118-120 | `default()` returns the registry itself (`Itself`), not a copy of its facade. |
| Apollo.Use | packages/apollo-angular/src/Apollo.ts:122-127 | `use("default")` returns the registry itself (`Itself`), whatever the table holds. Any other name yields its facade from the table, or nothing, never an error, when the name is missing. |
| Apollo.CreateDefaultTwice | packages/apollo-angular/src/Apollo.ts:129-137 | A second `createDefault` throws. The first client is still the one that `getClient` and `use("default")` report. |
| Apollo.CreateNamedTwice | packages/apollo-angular/src/Apollo.ts:139-150 | A second `createNamed` under the same name throws. `use(name)` still finds the first client. |
| Apollo.CreateNamedThenUse | packages/apollo-angular/src/Apollo.ts:122-150 | After `createNamed`, `use(name)` returns the new facade. `use` of every other name returns what it returned before. |
| Apollo.DefaultEntryIsShadowed | packages/apollo-angular/src/Apollo.ts:122-127 | `createNamed("default", …)` stores an entry, but `use("default")` still returns the registry itself, so the entry cannot be reached. |
| Apollo.Construct | packages/apollo-angular/src/Apollo.ts:94-104 | With default options, only the default slot is filled and the table is empty. With neither input, the registry starts empty. |
| Apollo.ConstructIgnoresTable | packages/apollo-angular/src/Apollo.ts:94-96 | When default options are given, the named table has no effect at all. |
| Apollo.CreateEach | packages/apollo-angular/src/Apollo.ts:97-103 | The constructor's loop over the table throws exactly when one of three things holds: a name repeats, a name is already taken, or "default" is listed while a client is held. |
| Apollo.CreateEachContents | packages/apollo-angular/src/Apollo.ts:97-103 | After an admissible table, each listed non-"default" name maps to a facade around its own options' client. The "default" entry fills the own slot. Earlier contents are unchanged. |
| Apollo.ConstructFromTable | packages/apollo-angular/src/Apollo.ts:96-104 | From a table, construction succeeds exactly when the names are distinct. The default slot is set exactly when "default" is listed. The named keys are the listed names minus "default". Every named facade holds its client. |
| Apollo.NamedTableScenario | packages/apollo-angular/tests/integration.spec.ts:49-98 | A table `{default: a, extra: b}` gives the default client from `a` and `use("extra")` a client from `b`. `use("missing")` is absent. |
| Lifecycle.Apply | packages/apollo-angular/src/Apollo.ts:107-150 | No mutating call changes state when it throws. None replaces a held default client, removes or alters a named facade, or empties a named facade. |
| Lifecycle.RunNeverReplaces | packages/apollo-angular/src/Apollo.ts:129-150 | Over any sequence of calls, a default client stays once set. Named facades stay unchanged under their names and keep their clients. |
| Lifecycle.NamedFacadesAlwaysForward | packages/apollo-angular/src/Apollo.ts:146-149 | After any successful construction, from default options, a table or nothing, and any calls, a facade that `use` returns for a name other than "default" always forwards. |
| Lifecycle.DefaultHandleIsLive | packages/apollo-angular/src/Apollo.ts:118-127 | The handle `use("default")` returns stands, after any later calls, for the registry's client as it is then. |
| Lifecycle.DefaultForwardsOnceCreated | packages/apollo-angular/src/Apollo.ts:118-137 | Without a default client, `use("default")` refuses to forward. Once `createDefault` runs, it forwards to that client through every later call. |
| Lifecycle.OnlyNamedCallsKeepDefaultUnset | packages/apollo-angular/src/Apollo.ts:139-150 | `createNamed` calls never touch the default slot. |

## Left out

- `query` and `mutate`. They read the guarded `client` inside a thunk handed to
  `fromPromise` from `./utils`, and `utils` is not part of this model. So when
  their "not defined yet" error surfaces cannot be stated.
- The stream adaptation: `QueryRef`, rxjs `from`, and `wrapWithZone`'s re-entry
  into the Angular zone. A forwarded call is modelled as the `Invocation` it
  makes on the client. What the client returns and how it is wrapped are
  foreign code.
- The GraphQL client itself: execution, link and cache. `new ApolloClient(options)`
  is the opaque `MkClient(options)`. Two clients built from the same options are
  equal in the model, while the program creates two distinct objects. A
  constructor that throws on bad options is not modelled.
- Angular dependency injection: `@Injectable`, `@Optional`, `@Inject`, and the
  tokens in `src/tokens.ts`. The two optional constructor inputs become two
  `Option` parameters. `src/types.ts` holds only type aliases. The cache-shape
  type parameter `TCacheShape` is dropped.
- Calling a method on the `undefined` that `use` returns for a missing name.
  That throws a JavaScript `TypeError` outside this code, and the model stops
  at the absent value.
- The options of the "default" table entry: `CreateEach` takes each entry's
  options from the entry itself, while the program reads `apolloNamedOptions.default` for the "default" entry. The two
  are the same value for an object, whose keys are distinct.
