/** A registry's life after construction: any sequence of the public calls
    that change it, each throw caught by the caller. Whatever the calls, no
    client is ever replaced and no named client ever disappears. */
module Lifecycle {
  import opened Results
  import opened ApolloBase
  import opened Apollo

  /** The public calls that can change a registry. */
  datatype Call =
    | CreateCall(options: ClientOptions, givenName: Option<string>)
    | CreateDefaultCall(options: ClientOptions)
    | CreateNamedCall(name: string, options: ClientOptions)
    | SetClientCall(client: Client)   // the inherited `setClient`, on the registry itself

  /** One call; it may throw, and a throw leaves the registry as it was.
      The default client and every named facade survive it. */
  function Apply(reg: Registry, call: Call): (r: Step<Registry, Error>)
    ensures r.outcome.Fail? ==> r.next == reg
    ensures GetClient(reg.own).Some? ==> r.next.own == reg.own
    ensures forall n :: n in reg.named ==> n in r.next.named && r.next.named[n] == reg.named[n]
    ensures Sealed(reg) ==> Sealed(r.next)
  {
    match call
    case CreateCall(options, name) => Create(reg, options, name)
    case CreateDefaultCall(options) => CreateDefault(reg, options)
    case CreateNamedCall(name, options) => CreateNamed(reg, name, options)
    case SetClientCall(client) =>
      var s := SetClient(reg.own, client);
      Step(reg.(own := s.next), s.outcome)
  }

  /** A sequence of calls, each throw caught so that the next call still runs. */
  function Run(reg: Registry, calls: seq<Call>): Registry
    decreases |calls|
  {
    if |calls| == 0 then reg else Run(Apply(reg, calls[0]).next, calls[1..])
  }

  /** Across any sequence of calls a default client, once there, stays the
      same, every named facade stays under its name unchanged, and every
      named facade keeps holding a client. */
  lemma {:induction false} RunNeverReplaces(reg: Registry, calls: seq<Call>)
    ensures GetClient(reg.own).Some? ==> Run(reg, calls).own == reg.own
    ensures forall n :: n in reg.named ==> n in Run(reg, calls).named && Run(reg, calls).named[n] == reg.named[n]
    ensures Sealed(reg) ==> Sealed(Run(reg, calls))
    decreases |calls|
  {
    if |calls| > 0 {
      RunNeverReplaces(Apply(reg, calls[0]).next, calls[1..]);
    }
  }

  /** Starting from any construction that succeeded, a facade that `use`
      returns for a name other than "default" always forwards: the deferred
      "not defined yet" error can only come from the registry itself. */
  lemma NamedFacadesAlwaysForward(
    options: Option<ClientOptions>, namedOptions: Option<Table>,
    calls: seq<Call>, name: string, request: RequestOptions)
    requires Construct(options, namedOptions).Ok?
    requires name != DefaultName
    ensures
      var reg := Run(Construct(options, namedOptions).value, calls);
      Use(reg, name).Some? ==> WatchQuery(Resolve(reg, Use(reg, name).value), request).Ok?
  {
    if options.None? && namedOptions.Some? {
      ConstructFromTable(namedOptions.value);
    }
    RunNeverReplaces(Construct(options, namedOptions).value, calls);
  }

  /** The handle `use("default")` returns is the registry itself, not a copy:
      after any later calls it stands for the registry's client as it is then. */
  lemma DefaultHandleIsLive(reg: Registry, calls: seq<Call>)
    ensures Use(reg, DefaultName).Some?
    ensures Resolve(Run(reg, calls), Use(reg, DefaultName).value) == Run(reg, calls).own
  {
  }

  /** On a registry built without any options, `use("default")` refuses to
      forward until some call creates or sets the default client, and from
      then on forwards to that client forever. */
  lemma DefaultForwardsOnceCreated(options: ClientOptions, before: seq<Call>, after: seq<Call>, request: RequestOptions)
    requires forall i :: 0 <= i < |before| ==> before[i].CreateNamedCall?
    ensures WatchQuery(Resolve(Run(Fresh, before), Use(Run(Fresh, before), DefaultName).value), request) == Err(ClientNotDefinedYet)
    ensures
      var reg := Run(CreateDefault(Run(Fresh, before), options).next, after);
      WatchQuery(Resolve(reg, Use(reg, DefaultName).value), request) == Ok(Invocation(MkClient(options), WatchQueryOp, request))
  {
    OnlyNamedCallsKeepDefaultUnset(Fresh, before);
    var created := CreateDefault(Run(Fresh, before), options).next;
    RunNeverReplaces(created, after);
  }

  /** Calls that only create named clients never fill the default slot. */
  lemma {:induction false} OnlyNamedCallsKeepDefaultUnset(reg: Registry, calls: seq<Call>)
    requires forall i :: 0 <= i < |calls| ==> calls[i].CreateNamedCall?
    ensures Run(reg, calls).own == reg.own
    decreases |calls|
  {
    if |calls| > 0 {
      OnlyNamedCallsKeepDefaultUnset(Apply(reg, calls[0]).next, calls[1..]);
    }
  }
}
