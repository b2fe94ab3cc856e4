/** The facade `ApolloBase`: one optional GraphQL client, set at most once,
    and forwarding operations that refuse to run while it is unset. */
module ApolloBase {
  import opened Results

  /** The options bag handed unchanged to the GraphQL client constructor;
      this layer never looks inside it, so only its identity is kept. */
  datatype ClientOptions = ClientOptions(id: nat)

  /** The options of one request (`watchQuery` or `subscribe`), passed through. */
  datatype RequestOptions = RequestOptions(id: nat)

  /** The client `new ApolloClient(options)` builds, known only by its options. */
  datatype Client = MkClient(options: ClientOptions)

  /** The errors this layer throws. */
  datatype Error =
    | ClientAlreadyDefined
    | ClientNotDefinedYet
    | ApolloAlreadyCreated
    | NamedClientAlreadyCreated(name: string)

  /** The message each error carries. */
  function Message(e: Error): string {
    match e
    case ClientAlreadyDefined => "Client has been already defined"
    case ClientNotDefinedYet => "Client has not been defined yet"
    case ApolloAlreadyCreated => "Apollo has been already created."
    case NamedClientAlreadyCreated(name) => "Client " + name + " has been already created"
  }

  /** A facade and its client slot. */
  datatype Facade = Facade(slot: Option<Client>)

  /** A facade built without a client. */
  const Unset: Facade := Facade(None)

  /** `getClient`: the slot as it is, absent when nothing was set; never throws. */
  function GetClient(f: Facade): (r: Option<Client>)
    ensures r.None? <==> f == Unset
  {
    f.slot
  }

  /** `setClient`: fills an empty slot; on a filled one it throws and keeps the
      client it holds. A client object is always truthy, so "held" is `Some?`. */
  function SetClient(f: Facade, c: Client): (r: Step<Facade, Error>)
    ensures r.outcome.Fail? <==> GetClient(f).Some?
    ensures r.outcome.Fail? ==> r.outcome.error == ClientAlreadyDefined && r.next == f
    ensures r.outcome.Fail? ==> Message(r.outcome.error) == "Client has been already defined"
    ensures r.outcome.Pass? ==> GetClient(r.next) == Some(c)
  {
    if f.slot.Some? then Step(f, Fail(ClientAlreadyDefined))
    else Step(Facade(Some(c)), Pass)
  }

  /** The private `client` getter with its `checkInstance` guard: the held
      client, or the "not defined yet" error when the slot is empty. */
  function CheckedClient(f: Facade): (r: Result<Client, Error>)
    ensures r.Err? <==> GetClient(f).None?
    ensures r.Err? ==> r.error == ClientNotDefinedYet
    ensures r.Err? ==> Message(r.error) == "Client has not been defined yet"
    ensures r.Ok? ==> GetClient(f) == Some(r.value)
  {
    match f.slot
    case None => Err(ClientNotDefinedYet)
    case Some(c) => Ok(c)
  }

  /** The two forwarding operations whose guard runs before they return. */
  datatype Operation = WatchQueryOp | SubscribeOp

  /** A forwarded call: which client received which operation with which options. */
  datatype Invocation = Invocation(client: Client, operation: Operation, options: RequestOptions)

  /** `watchQuery`: the guard first, then the call on exactly the held client,
      with the caller's options copied through. */
  function WatchQuery(f: Facade, options: RequestOptions): (r: Result<Invocation, Error>)
    ensures r.Err? <==> GetClient(f).None?
    ensures r.Err? ==> r.error == ClientNotDefinedYet
    ensures r.Ok? ==> Some(r.value.client) == GetClient(f)
    ensures r.Ok? ==> r.value.operation == WatchQueryOp && r.value.options == options
  {
    var c :- CheckedClient(f);
    Ok(Invocation(c, WatchQueryOp, options))
  }

  /** `subscribe`: the same guard and forwarding as `watchQuery`. */
  function Subscribe(f: Facade, options: RequestOptions): (r: Result<Invocation, Error>)
    ensures r.Err? <==> GetClient(f).None?
    ensures r.Err? ==> r.error == ClientNotDefinedYet
    ensures r.Ok? ==> Some(r.value.client) == GetClient(f)
    ensures r.Ok? ==> r.value.operation == SubscribeOp && r.value.options == options
  {
    var c :- CheckedClient(f);
    Ok(Invocation(c, SubscribeOp, options))
  }

  /** `getClient` reports what `setClient` left: absent on a new facade, the
      given client after the first `setClient`, and still that client after a
      second one, which throws. */
  lemma GetClientAfterSetClient(c1: Client, c2: Client)
    ensures GetClient(Unset) == None
    ensures SetClient(Unset, c1).outcome == Pass
    ensures GetClient(SetClient(Unset, c1).next) == Some(c1)
    ensures SetClient(SetClient(Unset, c1).next, c2).outcome == Fail(ClientAlreadyDefined)
    ensures GetClient(SetClient(SetClient(Unset, c1).next, c2).next) == Some(c1)
  {
  }

  /** Forwarding is refused on a new facade and reaches exactly the client
      set afterwards; the guard runs on every call, not once. */
  lemma ForwardingFollowsSetClient(c: Client, options: RequestOptions)
    ensures WatchQuery(Unset, options) == Err(ClientNotDefinedYet)
    ensures Subscribe(Unset, options) == Err(ClientNotDefinedYet)
    ensures WatchQuery(SetClient(Unset, c).next, options) == Ok(Invocation(c, WatchQueryOp, options))
    ensures Subscribe(SetClient(Unset, c).next, options) == Ok(Invocation(c, SubscribeOp, options))
  {
  }
}
