/** The registry `Apollo`: a facade whose own slot is the "default" client,
    plus a table of named facades. */
module Apollo {
  import opened Results
  import opened ApolloBase

  /** The reserved name of the registry's own client. */
  const DefaultName: string := "default"

  /** The registry: its own facade (the default client) and the named ones. */
  datatype Registry = Registry(own: Facade, named: map<string, Facade>)

  /** The registry before any client is created. */
  const Fresh: Registry := Registry(Unset, map[])

  /** What `use` and `default` hand back: the registry itself, or a named
      facade taken from the table. */
  datatype Handle = Itself | Named(facade: Facade)

  /** The facade a handle stands for in a given registry. */
  function Resolve(reg: Registry, h: Handle): Facade {
    match h
    case Itself => reg.own
    case Named(f) => f
  }

  /** Every named facade holds a client: each was built around a new one. */
  ghost predicate Sealed(reg: Registry) {
    forall n :: n in reg.named ==> GetClient(reg.named[n]).Some?
  }

  /** `createDefault`: throws when the registry already holds a client;
      otherwise builds one from the options and stores it in the registry's
      own slot. The named table is never touched. */
  function CreateDefault(reg: Registry, options: ClientOptions): (r: Step<Registry, Error>)
    ensures r.next.named == reg.named
    ensures r.outcome.Fail? <==> GetClient(reg.own).Some?
    ensures r.outcome.Fail? ==> r.outcome.error == ApolloAlreadyCreated && r.next == reg
    ensures r.outcome.Fail? ==> Message(r.outcome.error) == "Apollo has been already created."
    ensures r.outcome.Pass? ==> GetClient(r.next.own) == Some(MkClient(options))
  {
    if GetClient(reg.own).Some? then Step(reg, Fail(ApolloAlreadyCreated))
    else
      var s := SetClient(reg.own, MkClient(options));
      Step(reg.(own := s.next), s.outcome)
  }

  /** `createNamed`: throws when the name is taken; otherwise adds exactly one
      entry, a new facade around a client built from the options. */
  function CreateNamed(reg: Registry, name: string, options: ClientOptions): (r: Step<Registry, Error>)
    ensures r.next.own == reg.own
    ensures r.outcome.Fail? <==> name in reg.named
    ensures r.outcome.Fail? ==> r.outcome.error == NamedClientAlreadyCreated(name) && r.next == reg
    ensures r.outcome.Fail? ==> Message(r.outcome.error) == "Client " + name + " has been already created"
    ensures r.outcome.Pass? ==> r.next.named.Keys == reg.named.Keys + {name}
    ensures r.outcome.Pass? ==> GetClient(r.next.named[name]) == Some(MkClient(options))
    ensures forall n :: n in reg.named ==> n in r.next.named && r.next.named[n] == reg.named[n]
  {
    if name in reg.named then Step(reg, Fail(NamedClientAlreadyCreated(name)))
    else Step(reg.(named := reg.named[name := Facade(Some(MkClient(options)))]), Pass)
  }

  /** The test `name && name !== 'default'`: a name that is given, non-empty
      and not the reserved one. */
  predicate NamesNamedClient(name: Option<string>) {
    name.Some? && name.value != "" && name.value != DefaultName
  }

  /** The name under which `use` finds what `create(options, name)` built. */
  function Target(name: Option<string>): string {
    if NamesNamedClient(name) then name.value else DefaultName
  }

  /** `create`: a proper name creates a named client, anything else (absent,
      empty, "default") the default one. The client built from the options
      ends up where `use` looks for the target name, and only the side the
      name selects can change. */
  function Create(reg: Registry, options: ClientOptions, name: Option<string>): (r: Step<Registry, Error>)
    ensures NamesNamedClient(name) ==> r.next.own == reg.own
    ensures NamesNamedClient(name) ==> (r.outcome.Fail? <==> name.value in reg.named)
    ensures !NamesNamedClient(name) ==> r.next.named == reg.named
    ensures !NamesNamedClient(name) ==> (r.outcome.Fail? <==> GetClient(reg.own).Some?)
    ensures r.outcome.Fail? ==> r.next == reg
    ensures r.outcome.Fail? ==>
              r.outcome.error == if NamesNamedClient(name) then NamedClientAlreadyCreated(name.value) else ApolloAlreadyCreated
    ensures r.outcome.Pass? ==> Use(r.next, Target(name)).Some?
    ensures r.outcome.Pass? ==> GetClient(Resolve(r.next, Use(r.next, Target(name)).value)) == Some(MkClient(options))
  {
    if NamesNamedClient(name) then CreateNamed(reg, name.value, options)
    else CreateDefault(reg, options)
  }

  /** `default`: the registry itself, seen as the default facade. */
  function Default(reg: Registry): (h: Handle)
    ensures h == Itself
    ensures Resolve(reg, h) == reg.own
  {
    Itself
  }

  /** `use`: "default" is the registry itself whatever the table holds; any
      other name is looked up, absent (not an error) when it is missing. */
  function Use(reg: Registry, name: string): (r: Option<Handle>)
    ensures name == DefaultName ==> r == Some(Itself)
    ensures name != DefaultName ==> (r.Some? <==> name in reg.named)
    ensures name != DefaultName && r.Some? ==> Resolve(reg, r.value) == reg.named[name]
  {
    if name == DefaultName then Some(Default(reg))
    else if name in reg.named then Some(Named(reg.named[name]))
    else None
  }

  /** The three spellings that mean "the default client" all reach
      `createDefault`; every proper name reaches `createNamed`. */
  lemma CreateDispatch(reg: Registry, options: ClientOptions, name: string)
    ensures Create(reg, options, None) == CreateDefault(reg, options)
    ensures Create(reg, options, Some("")) == CreateDefault(reg, options)
    ensures Create(reg, options, Some(DefaultName)) == CreateDefault(reg, options)
    ensures name != "" && name != DefaultName ==> Create(reg, options, Some(name)) == CreateNamed(reg, name, options)
  {
  }

  /** A second `createDefault` throws and the first client is still the one
      `getClient` and `use("default")` report. */
  lemma CreateDefaultTwice(reg: Registry, first: ClientOptions, second: ClientOptions)
    requires GetClient(reg.own).None?
    ensures CreateDefault(reg, first).outcome == Pass
    ensures CreateDefault(CreateDefault(reg, first).next, second).outcome == Fail(ApolloAlreadyCreated)
    ensures GetClient(CreateDefault(CreateDefault(reg, first).next, second).next.own) == Some(MkClient(first))
    ensures GetClient(Resolve(CreateDefault(reg, first).next, Use(CreateDefault(reg, first).next, DefaultName).value))
         == Some(MkClient(first))
  {
  }

  /** A second `createNamed` under the same name throws and `use(name)` still
      finds the first client. */
  lemma CreateNamedTwice(reg: Registry, name: string, first: ClientOptions, second: ClientOptions)
    requires name !in reg.named && name != DefaultName
    ensures CreateNamed(reg, name, first).outcome == Pass
    ensures CreateNamed(CreateNamed(reg, name, first).next, name, second).outcome == Fail(NamedClientAlreadyCreated(name))
    ensures
      var after := CreateNamed(CreateNamed(reg, name, first).next, name, second).next;
      Use(after, name).Some? && GetClient(Resolve(after, Use(after, name).value)) == Some(MkClient(first))
  {
  }

  /** `use("default")` ignores the table, even when `createNamed` has stored
      an entry under "default": that entry can never be reached through `use`. */
  lemma DefaultEntryIsShadowed(reg: Registry, options: ClientOptions)
    requires DefaultName !in reg.named
    ensures CreateNamed(reg, DefaultName, options).outcome == Pass
    ensures DefaultName in CreateNamed(reg, DefaultName, options).next.named
    ensures Use(CreateNamed(reg, DefaultName, options).next, DefaultName) == Some(Itself)
  {
  }

  /** A named client is found by `use` and nowhere else: creating it changes
      what `use` returns for its own name only. */
  lemma CreateNamedThenUse(reg: Registry, name: string, options: ClientOptions, other: string)
    requires name !in reg.named && name != DefaultName && other != name
    ensures
      var next := CreateNamed(reg, name, options).next;
      && Use(next, name) == Some(Named(Facade(Some(MkClient(options)))))
      && Use(next, other) == Use(reg, other)
  {
  }

  // ---- Construction ----

  /** The named options table, as the (name, options) entries of the object. */
  type Table = seq<(string, ClientOptions)>

  /** The names a table lists. */
  function Keys(table: Table): set<string> {
    set i | 0 <= i < |table| :: table[i].0
  }

  /** No name is listed twice, as in any object's own keys. */
  predicate DistinctKeys(table: Table) {
    forall i, j :: 0 <= i < j < |table| ==> table[i].0 != table[j].0
  }

  /** The `forEach` over the table's entries: "default" goes to
      `createDefault`, every other name to `createNamed`; the first throw
      aborts the whole construction. It throws exactly when a name repeats,
      a name is already in the table of named clients, or "default" is
      listed while the registry already holds a client. */
  function CreateEach(reg: Registry, table: Table): (r: Result<Registry, Error>)
    ensures r.Ok? <==> Admissible(reg, table)
    decreases |table|
  {
    if |table| == 0 then Ok(reg)
    else
      SplitFirst(table);
      var name := table[0].0;
      var s := if name == DefaultName then CreateDefault(reg, table[0].1)
               else CreateNamed(reg, name, table[0].1);
      if s.outcome.Fail? then Err(s.outcome.error)
      else CreateEach(s.next, table[1..])
  }

  /** The constructor: default options win and the table is then ignored;
      otherwise the table is processed; with neither, nothing is created. */
  function Construct(options: Option<ClientOptions>, namedOptions: Option<Table>): (r: Result<Registry, Error>)
    ensures options.Some? ==> r.Ok?
    ensures options.Some? ==> GetClient(r.value.own) == Some(MkClient(options.value)) && r.value.named == map[]
    ensures options.None? && namedOptions.None? ==> r == Ok(Fresh)
  {
    // On a fresh registry `createDefault` cannot throw.
    if options.Some? then Ok(CreateDefault(Fresh, options.value).next)
    else if namedOptions.Some? then CreateEach(Fresh, namedOptions.value)
    else Ok(Fresh)
  }

  /** The tables `CreateEach` can process without a throw on a given registry. */
  predicate Admissible(reg: Registry, table: Table) {
    && DistinctKeys(table)
    && (Keys(table) - {DefaultName}) !! reg.named.Keys
    && (DefaultName in Keys(table) ==> GetClient(reg.own).None?)
  }

  /** A table's keys and distinctness, split at its first entry. */
  lemma SplitFirst(table: Table)
    requires |table| > 0
    ensures Keys(table) == {table[0].0} + Keys(table[1..])
    ensures DistinctKeys(table) <==> DistinctKeys(table[1..]) && table[0].0 !in Keys(table[1..])
  {
    var rest := table[1..];
    forall k | k in Keys(table)
      ensures k in {table[0].0} + Keys(rest)
    {
      var i :| 0 <= i < |table| && table[i].0 == k;
      if i > 0 {
        assert rest[i - 1] == table[i];
      }
    }
    forall k | k in Keys(rest)
      ensures k in Keys(table)
    {
      var i :| 0 <= i < |rest| && rest[i].0 == k;
      assert table[i + 1] == rest[i];
    }
    if DistinctKeys(rest) && table[0].0 !in Keys(rest) {
      forall i, j | 0 <= i < j < |table|
        ensures table[i].0 != table[j].0
      {
        assert table[j] == rest[j - 1];
        if i > 0 {
          assert table[i] == rest[i - 1];
        }
      }
    }
    if DistinctKeys(table) {
      forall k | k in Keys(rest)
        ensures k != table[0].0
      {
        var i :| 0 <= i < |rest| && rest[i].0 == k;
        assert table[i + 1] == rest[i];
      }
      forall i, j | 0 <= i < j < |rest|
        ensures rest[i].0 != rest[j].0
      {
        assert table[i + 1] == rest[i] && table[j + 1] == rest[j];
      }
    }
  }

  /** What processing an admissible table leaves: every listed name but
      "default" gets a facade around a client built from its options, the
      entry under "default" (if any) fills the registry's own slot, and
      nothing that was there before changes. */
  lemma {:induction false} CreateEachContents(reg: Registry, table: Table)
    requires Admissible(reg, table)
    ensures CreateEach(reg, table).Ok?
    ensures CreateEach(reg, table).value.named.Keys == reg.named.Keys + (Keys(table) - {DefaultName})
    ensures forall n :: n in reg.named ==> CreateEach(reg, table).value.named[n] == reg.named[n]
    ensures forall i :: 0 <= i < |table| && table[i].0 != DefaultName ==>
              CreateEach(reg, table).value.named[table[i].0] == Facade(Some(MkClient(table[i].1)))
    ensures DefaultName !in Keys(table) ==> CreateEach(reg, table).value.own == reg.own
    ensures forall i :: 0 <= i < |table| && table[i].0 == DefaultName ==>
              GetClient(CreateEach(reg, table).value.own) == Some(MkClient(table[i].1))
    decreases |table|
  {
    if |table| > 0 {
      SplitFirst(table);
      var name := table[0].0;
      var rest := table[1..];
      var s := if name == DefaultName then CreateDefault(reg, table[0].1)
               else CreateNamed(reg, name, table[0].1);
      assert s.outcome.Pass?;
      assert Admissible(s.next, rest);
      CreateEachContents(s.next, rest);
      var r := CreateEach(reg, table).value;
      assert r == CreateEach(s.next, rest).value;
      forall i | 0 < i < |table|
        ensures table[i] == rest[i - 1]
      {
      }
    }
  }

  /** Construction from a named options table succeeds exactly when no name
      repeats; then the default slot is filled if and only if "default" is
      listed, and the named clients are exactly the other listed names, each
      around a client built from its own options. */
  lemma ConstructFromTable(table: Table)
    ensures Construct(None, Some(table)).Ok? <==> DistinctKeys(table)
    ensures DistinctKeys(table) ==>
      var reg := Construct(None, Some(table)).value;
      && (GetClient(reg.own).Some? <==> DefaultName in Keys(table))
      && reg.named.Keys == Keys(table) - {DefaultName}
      && (forall i :: 0 <= i < |table| && table[i].0 == DefaultName ==> GetClient(reg.own) == Some(MkClient(table[i].1)))
      && (forall i :: 0 <= i < |table| && table[i].0 != DefaultName ==> reg.named[table[i].0] == Facade(Some(MkClient(table[i].1))))
      && Sealed(reg)
  {
    if DistinctKeys(table) {
      CreateEachContents(Fresh, table);
      var reg := Construct(None, Some(table)).value;
      forall n | n in reg.named
        ensures GetClient(reg.named[n]).Some?
      {
        var i :| 0 <= i < |table| && table[i].0 == n;
      }
    }
  }

  /** Default options decide alone: whatever table comes with them is ignored. */
  lemma ConstructIgnoresTable(options: ClientOptions, t1: Option<Table>, t2: Option<Table>)
    ensures Construct(Some(options), t1) == Construct(Some(options), t2)
    ensures Use(Construct(Some(options), t1).value, "extra") == None
  {
  }

  /** The named scenario of the integration tests: a table with "default" and
      "extra" gives a default client from the first options, a client from the
      second under "extra", and nothing under an unknown name. */
  lemma NamedTableScenario(a: ClientOptions, b: ClientOptions)
    ensures
      var reg := Construct(None, Some([(DefaultName, a), ("extra", b)]));
      && reg.Ok?
      && GetClient(reg.value.own) == Some(MkClient(a))
      && Use(reg.value, "extra").Some?
      && GetClient(Resolve(reg.value, Use(reg.value, "extra").value)) == Some(MkClient(b))
      && Use(reg.value, "missing") == None
  {
    var t := [(DefaultName, a), ("extra", b)];
    assert DefaultName != "extra";
    ConstructFromTable(t);
    assert t[1].0 == "extra";
  }
}
