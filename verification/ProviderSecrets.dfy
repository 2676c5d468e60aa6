/** The split between the settings file and the secret store
    (apps/server/src/serverSettings.ts: `persistProviderEnvironmentSecrets`,
    `materializeProviderEnvironmentSecrets`, `redactProviderEnvironmentVariable`,
    `updateSettings`). Of the settings only the provider environments are modelled; ids and
    names stand for their UTF-8 bytes, and applying a patch yields any next settings. */
module ProviderSecrets {
  import opened Collections
  import opened Outcomes
  import opened SecretNames

  type Bytes = seq<Byte>

  datatype Variable = Variable(name: Bytes, value: string, sensitive: bool, valueRedacted: bool)

  datatype Instance = Instance(id: Bytes, environment: Option<seq<Variable>>)

  type Settings = seq<Instance>

  type Secrets = map<string, string>

  // ---------------------------------------------------------------- one variable

  function Redact(v: Variable): Variable {
    if !v.sensitive then v.(valueRedacted := false)
    else v.(value := "", valueRedacted := v.value != "" || v.valueRedacted)
  }

  /** What is written to the settings file. */
  function Persisted(v: Variable): Variable {
    if !v.sensitive || v.valueRedacted then Redact(v)
    else if v.value != "" then v.(value := "", valueRedacted := true)
    else v.(valueRedacted := false)
  }

  /** Decoding the stored bytes drops a byte order mark at the start. */
  function Decoded(value: string): string {
    if value != "" && value[0] == '\U{FEFF}' then value[1..] else value
  }

  function Materialized(secrets: Secrets, id: Bytes, v: Variable): Variable {
    if !v.sensitive || !v.valueRedacted then v
    else
      var secret := Get(secrets, SecretName(id, v.name));
      v.(value := if secret.Some? then Decoded(secret.value) else "")
  }

  /** The secret of a variable after it is supplied again. */
  function Supply(v: Variable, secret: Option<string>): Option<string> {
    if !v.sensitive then None
    else if v.valueRedacted then secret
    else if v.value != "" then Some(v.value)
    else None
  }

  function Store(secrets: Secrets, id: Bytes, v: Variable): Secrets {
    var name := SecretName(id, v.name);
    Bind(secrets, name, Supply(v, Get(secrets, name)))
  }

  // ---------------------------------------------------------------- all variables

  /** A variable and the instance it belongs to. */
  datatype Named = Named(id: Bytes, v: Variable)

  function Attached(id: Bytes, vs: seq<Variable>): (r: seq<Named>)
    ensures |r| == |vs| && forall i | 0 <= i < |r| :: r[i] == Named(id, vs[i])
  {
    seq(|vs|, i requires 0 <= i < |vs| => Named(id, vs[i]))
  }

  function InstanceVars(i: Instance): seq<Named> {
    if i.environment.Some? then Attached(i.id, i.environment.value) else []
  }

  function Vars(settings: Settings): seq<Named> {
    if settings == [] then [] else InstanceVars(settings[0]) + Vars(settings[1..])
  }

  function StoreAll(secrets: Secrets, vars: seq<Named>): Secrets {
    if vars == [] then secrets
    else
      var last := vars[|vars| - 1];
      Store(StoreAll(secrets, vars[..|vars| - 1]), last.id, last.v)
  }

  function SensitiveNames(vars: seq<Named>): set<string> {
    if vars == [] then {}
    else
      var last := vars[|vars| - 1];
      SensitiveNames(vars[..|vars| - 1]) + (if last.v.sensitive then {SecretName(last.id, last.v.name)} else {})
  }

  /** The second loop: secrets of variables the current settings name and the next do not. */
  function DropStale(secrets: Secrets, current: seq<Named>, kept: set<string>): Secrets {
    if current == [] then secrets
    else
      var last := current[|current| - 1];
      var before := DropStale(secrets, current[..|current| - 1], kept);
      var name := SecretName(last.id, last.v.name);
      if last.v.sensitive && name !in kept then Bind(before, name, None) else before
  }

  function NextSecrets(secrets: Secrets, current: Settings, next: Settings): Secrets {
    DropStale(StoreAll(secrets, Vars(next)), Vars(current), SensitiveNames(Vars(next)))
  }

  function PersistedVars(vs: seq<Variable>): (r: seq<Variable>)
    ensures |r| == |vs| && forall i | 0 <= i < |r| :: r[i] == Persisted(vs[i])
  {
    seq(|vs|, i requires 0 <= i < |vs| => Persisted(vs[i]))
  }

  function PersistedInstance(i: Instance): Instance {
    if i.environment.Some? then i.(environment := Some(PersistedVars(i.environment.value))) else i
  }

  function PersistedSettings(settings: Settings): (r: Settings)
    ensures |r| == |settings| && forall i | 0 <= i < |r| :: r[i] == PersistedInstance(settings[i])
  {
    seq(|settings|, i requires 0 <= i < |settings| => PersistedInstance(settings[i]))
  }

  function MaterializedVars(secrets: Secrets, id: Bytes, vs: seq<Variable>): (r: seq<Variable>)
    ensures |r| == |vs| && forall i | 0 <= i < |r| :: r[i] == Materialized(secrets, id, vs[i])
  {
    seq(|vs|, i requires 0 <= i < |vs| => Materialized(secrets, id, vs[i]))
  }

  function MaterializedInstance(secrets: Secrets, i: Instance): Instance {
    if i.environment.Some? then i.(environment := Some(MaterializedVars(secrets, i.id, i.environment.value))) else i
  }

  function MaterializedSettings(secrets: Secrets, settings: Settings): (r: Settings)
    ensures |r| == |settings| && forall i | 0 <= i < |r| :: r[i] == MaterializedInstance(secrets, settings[i])
  {
    seq(|settings|, i requires 0 <= i < |settings| => MaterializedInstance(secrets, settings[i]))
  }

  /** No variable twice, and names whose secret names are unambiguous. */
  ghost predicate WellNamed(vars: seq<Named>) {
    && (forall i, j | 0 <= i < j < |vars| :: vars[i].id != vars[j].id || vars[i].v.name != vars[j].v.name)
    && (forall x | x in vars :: Dashless(x.v.name))
  }

  function Find(vars: seq<Named>, id: Bytes, name: Bytes): (r: Option<Variable>)
    ensures r.Some? ==> Named(id, r.value) in vars && r.value.name == name
    ensures r.None? ==> forall x | x in vars :: x.id != id || x.v.name != name
  {
    if vars == [] then None
    else
      var last := vars[|vars| - 1];
      if last.id == id && last.v.name == name then Some(last.v)
      else Find(vars[..|vars| - 1], id, name)
  }

  // ---------------------------------------------------------------- one update, variable by variable

  /** The last variable shares neither its identity nor its secret with an earlier one. */
  lemma LastApart(vars: seq<Named>, id: Bytes, name: Bytes)
    requires vars != [] && WellNamed(vars) && Dashless(name)
    ensures WellNamed(vars[..|vars| - 1])
    ensures var last := vars[|vars| - 1];
            SecretName(last.id, last.v.name) == SecretName(id, name) ==>
              last.id == id && last.v.name == name && Find(vars[..|vars| - 1], id, name).None?
  {
    var n := |vars| - 1;
    var last := vars[n];
    var before := vars[..n];
    assert forall x | x in before :: x in vars;
    if SecretName(last.id, last.v.name) == SecretName(id, name) {
      assert last in vars;
      Injective(last.id, last.v.name, id, name);
    }
  }

  lemma {:induction false} StoreAllAt(secrets: Secrets, vars: seq<Named>, id: Bytes, name: Bytes)
    requires WellNamed(vars) && Dashless(name)
    ensures Get(StoreAll(secrets, vars), SecretName(id, name)) ==
            match Find(vars, id, name)
            case None => Get(secrets, SecretName(id, name))
            case Some(v) => Supply(v, Get(secrets, SecretName(id, name)))
  {
    if vars != [] {
      LastApart(vars, id, name);
      StoreAllAt(secrets, vars[..|vars| - 1], id, name);
    }
  }

  lemma {:induction false} SensitiveNamesAt(vars: seq<Named>, id: Bytes, name: Bytes)
    requires WellNamed(vars) && Dashless(name)
    ensures SecretName(id, name) in SensitiveNames(vars)
       <==> Find(vars, id, name).Some? && Find(vars, id, name).value.sensitive
  {
    if vars != [] {
      LastApart(vars, id, name);
      SensitiveNamesAt(vars[..|vars| - 1], id, name);
    }
  }

  lemma {:induction false} DropStaleAt(secrets: Secrets, current: seq<Named>, kept: set<string>, id: Bytes, name: Bytes)
    requires WellNamed(current) && Dashless(name)
    ensures Get(DropStale(secrets, current, kept), SecretName(id, name)) ==
            var found := Find(current, id, name);
            if found.Some? && found.value.sensitive && SecretName(id, name) !in kept then None
            else Get(secrets, SecretName(id, name))
  {
    if current != [] {
      LastApart(current, id, name);
      DropStaleAt(secrets, current[..|current| - 1], kept, id, name);
    }
  }

  /** What an update does to the secret of one variable. */
  lemma UpdateAt(secrets: Secrets, current: Settings, next: Settings, id: Bytes, name: Bytes)
    requires WellNamed(Vars(current)) && WellNamed(Vars(next)) && Dashless(name)
    ensures Get(NextSecrets(secrets, current, next), SecretName(id, name)) ==
            match Find(Vars(next), id, name)
            case Some(v) => Supply(v, Get(secrets, SecretName(id, name)))
            case None =>
              if Find(Vars(current), id, name).Some? && Find(Vars(current), id, name).value.sensitive then None
              else Get(secrets, SecretName(id, name))
  {
    StoreAllAt(secrets, Vars(next), id, name);
    SensitiveNamesAt(Vars(next), id, name);
    DropStaleAt(StoreAll(secrets, Vars(next)), Vars(current), SensitiveNames(Vars(next)), id, name);
  }

  // ---------------------------------------------------------------- any number of updates

  datatype State = State(secrets: Secrets, settings: Settings)

  function Update(st: State, next: Settings): State {
    State(NextSecrets(st.secrets, st.settings, next), PersistedSettings(next))
  }

  function Run(start: State, updates: seq<Settings>): State {
    if updates == [] then start
    else Update(Run(start, updates[..|updates| - 1]), updates[|updates| - 1])
  }

  /** The value of a variable that was last supplied in the clear and has been sensitive
      and present, if only as a redacted copy, since then. */
  function LastSupplied(updates: seq<Settings>, id: Bytes, name: Bytes): Option<string> {
    if updates == [] then None
    else
      match Find(Vars(updates[|updates| - 1]), id, name)
      case None => None
      case Some(v) => Supply(v, LastSupplied(updates[..|updates| - 1], id, name))
  }

  predicate Supplies(settings: Settings, id: Bytes, name: Bytes, value: string) {
    var found := Find(Vars(settings), id, name);
    found.Some? && found.value.sensitive && !found.value.valueRedacted && found.value.value == value != ""
  }

  predicate Repeats(settings: Settings, id: Bytes, name: Bytes) {
    var found := Find(Vars(settings), id, name);
    found.Some? && found.value.sensitive && found.value.valueRedacted
  }

  ghost predicate SuppliedAt(updates: seq<Settings>, id: Bytes, name: Bytes, i: nat, value: string) {
    && i < |updates| && Supplies(updates[i], id, name, value)
    && forall j | i < j < |updates| :: Repeats(updates[j], id, name)
  }

  lemma SuppliedBefore(updates: seq<Settings>, id: Bytes, name: Bytes, i: nat, value: string)
    requires updates != []
    ensures SuppliedAt(updates, id, name, i, value)
       <==> if i == |updates| - 1 then Supplies(updates[i], id, name, value)
            else SuppliedAt(updates[..|updates| - 1], id, name, i, value)
                 && Repeats(updates[|updates| - 1], id, name)
  {
  }

  lemma {:induction false} LastSuppliedMeaning(updates: seq<Settings>, id: Bytes, name: Bytes, value: string)
    ensures LastSupplied(updates, id, name) == Some(value)
       <==> exists i :: SuppliedAt(updates, id, name, i, value)
  {
    if updates != [] {
      var n := |updates| - 1;
      LastSuppliedMeaning(updates[..n], id, name, value);
      forall i: nat {
        SuppliedBefore(updates, id, name, i, value);
      }
      assert Supplies(updates[n], id, name, value) ==> SuppliedAt(updates, id, name, n, value);
    }
  }

  // ---------------------------------------------------------------- the persisted form

  lemma {:induction false} FindPersisted(settings: Settings, id: Bytes, name: Bytes)
    ensures Find(Vars(PersistedSettings(settings)), id, name) ==
            match Find(Vars(settings), id, name)
            case None => None
            case Some(v) => Some(Persisted(v))
  {
    VarsPersisted(settings);
    FindMapped(Vars(settings), Vars(PersistedSettings(settings)), id, name);
  }

  ghost predicate PersistedList(a: seq<Named>, b: seq<Named>) {
    |a| == |b| && forall i | 0 <= i < |a| :: b[i] == Named(a[i].id, Persisted(a[i].v))
  }

  lemma {:induction false} VarsPersisted(settings: Settings)
    ensures PersistedList(Vars(settings), Vars(PersistedSettings(settings)))
  {
    if settings != [] {
      assert PersistedSettings(settings)[1..] == PersistedSettings(settings[1..]);
      VarsPersisted(settings[1..]);
    }
  }

  lemma {:induction false} FindMapped(a: seq<Named>, b: seq<Named>, id: Bytes, name: Bytes)
    requires PersistedList(a, b)
    ensures Find(b, id, name) ==
            match Find(a, id, name)
            case None => None
            case Some(v) => Some(Persisted(v))
  {
    if a != [] {
      FindMapped(a[..|a| - 1], b[..|b| - 1], id, name);
    }
  }

  lemma PersistedWellNamed(settings: Settings)
    requires WellNamed(Vars(settings))
    ensures WellNamed(Vars(PersistedSettings(settings)))
  {
    VarsPersisted(settings);
    var a, b := Vars(settings), Vars(PersistedSettings(settings));
    assert forall i | 0 <= i < |a| :: b[i].v.name == a[i].v.name;
    forall x | x in b ensures Dashless(x.v.name) {
      var i :| 0 <= i < |b| && b[i] == x;
      assert a[i] in a;
    }
  }

  ghost predicate AllWellNamed(updates: seq<Settings>) {
    forall i | 0 <= i < |updates| :: WellNamed(Vars(updates[i]))
  }

  /** A store without provider secrets and settings without environments. */
  ghost predicate Clean(start: State) {
    && Vars(start.settings) == []
    && forall id, name :: SecretName(id, name) !in start.secrets
  }

  /** What the settings file says of a variable: the persisted form of the last update's. */
  lemma RunSettings(start: State, updates: seq<Settings>, id: Bytes, name: Bytes)
    requires Clean(start) && AllWellNamed(updates)
    ensures var st := Run(start, updates);
            && WellNamed(Vars(st.settings))
            && Find(Vars(st.settings), id, name) ==
               (if updates == [] then None
                else match Find(Vars(updates[|updates| - 1]), id, name)
                     case None => None
                     case Some(v) => Some(Persisted(v)))
  {
    if updates != [] {
      var next := updates[|updates| - 1];
      FindPersisted(next, id, name);
      PersistedWellNamed(next);
    }
  }

  lemma SuppliedIsSensitive(updates: seq<Settings>, id: Bytes, name: Bytes)
    requires LastSupplied(updates, id, name).Some?
    ensures var found := Find(Vars(updates[|updates| - 1]), id, name);
            found.Some? && found.value.sensitive
  {
  }

  lemma {:induction false} RunSecrets(start: State, updates: seq<Settings>, id: Bytes, name: Bytes)
    requires Clean(start) && AllWellNamed(updates) && Dashless(name)
    ensures Get(Run(start, updates).secrets, SecretName(id, name)) == LastSupplied(updates, id, name)
  {
    if updates != [] {
      var n := |updates| - 1;
      var before := updates[..n];
      assert AllWellNamed(before);
      RunSecrets(start, before, id, name);
      RunSettings(start, before, id, name);
      if LastSupplied(before, id, name).Some? {
        SuppliedIsSensitive(before, id, name);
      }
      var st := Run(start, before);
      UpdateAt(st.secrets, st.settings, updates[n], id, name);
    }
  }

  lemma RunAt(start: State, updates: seq<Settings>, id: Bytes, name: Bytes)
    requires Clean(start) && AllWellNamed(updates) && Dashless(name)
    ensures var st := Run(start, updates);
            && WellNamed(Vars(st.settings))
            && Get(st.secrets, SecretName(id, name)) == LastSupplied(updates, id, name)
            && Find(Vars(st.settings), id, name) ==
               (if updates == [] then None
                else match Find(Vars(updates[|updates| - 1]), id, name)
                     case None => None
                     case Some(v) => Some(Persisted(v)))
            && (LastSupplied(updates, id, name).Some? ==>
                  Find(Vars(st.settings), id, name).Some? && Find(Vars(st.settings), id, name).value.sensitive)
  {
    RunSecrets(start, updates, id, name);
    RunSettings(start, updates, id, name);
    if LastSupplied(updates, id, name).Some? {
      SuppliedIsSensitive(updates, id, name);
    }
  }

  // ---------------------------------------------------------------- what holds after any updates

  lemma NamedFound(vars: seq<Named>, x: Named)
    requires WellNamed(vars) && x in vars
    ensures Find(vars, x.id, x.v.name) == Some(x.v)
  {
    var found := Find(vars, x.id, x.v.name);
    var i :| 0 <= i < |vars| && vars[i] == x;
    var j :| 0 <= j < |vars| && vars[j] == Named(x.id, found.value);
  }

  /** The secret store holds, for each variable, the value last supplied: it holds no provider
      secret that the current settings do not name as sensitive. */
  lemma StoreHoldsLastSupplied(start: State, updates: seq<Settings>, id: Bytes, name: Bytes)
    requires Clean(start) && AllWellNamed(updates) && Dashless(name)
    ensures var st := Run(start, updates);
            && Get(st.secrets, SecretName(id, name)) == LastSupplied(updates, id, name)
            && (SecretName(id, name) in st.secrets ==>
                  exists x :: x in Vars(st.settings) && x.id == id && x.v.name == name && x.v.sensitive)
  {
    RunAt(start, updates, id, name);
    var st := Run(start, updates);
    var found := Find(Vars(st.settings), id, name);
    assert found.Some? ==> Named(id, found.value) in Vars(st.settings);
  }

  /** The settings file holds no sensitive value. */
  lemma FileHoldsNoSecret(start: State, updates: seq<Settings>)
    requires Clean(start)
    ensures forall x | x in Vars(Run(start, updates).settings) :: x.v.sensitive ==> x.v.value == ""
  {
    if updates != [] {
      var next := updates[|updates| - 1];
      VarsPersisted(next);
      var a, b := Vars(next), Vars(PersistedSettings(next));
      forall x | x in b ensures x.v.sensitive ==> x.v.value == "" {
        var i :| 0 <= i < |b| && b[i] == x;
        assert x.v == Persisted(a[i].v);
      }
    }
  }

  /** Every variable of the settings is the persisted form of one of the last update. */
  lemma RunVariable(start: State, updates: seq<Settings>, x: Named)
    requires Clean(start) && AllWellNamed(updates) && updates != []
    requires x in Vars(Run(start, updates).settings)
    ensures var given := Find(Vars(updates[|updates| - 1]), x.id, x.v.name);
            given.Some? && x.v == Persisted(given.value)
    ensures Dashless(x.v.name)
  {
    var next := updates[|updates| - 1];
    assert WellNamed(Vars(next));
    PersistedWellNamed(next);
    NamedFound(Vars(PersistedSettings(next)), x);
    FindPersisted(next, x.id, x.v.name);
  }

  /** Reading the settings back gives each sensitive variable the value last supplied, less a
      byte order mark at its start, and every other variable the value of the last update. */
  lemma MaterializesLastSupplied(start: State, updates: seq<Settings>, x: Named)
    requires Clean(start) && AllWellNamed(updates) && updates != []
    requires x in Vars(Run(start, updates).settings)
    ensures var st := Run(start, updates);
            var value := Materialized(st.secrets, x.id, x.v).value;
            if x.v.sensitive
            then value == (match LastSupplied(updates, x.id, x.v.name)
                           case None => ""
                           case Some(supplied) => Decoded(supplied))
            else
              var given := Find(Vars(updates[|updates| - 1]), x.id, x.v.name);
              given.Some? && value == given.value.value
  {
    RunVariable(start, updates, x);
    RunAt(start, updates, x.id, x.v.name);
    var given := Find(Vars(updates[|updates| - 1]), x.id, x.v.name).value;
    if x.v.sensitive && !x.v.valueRedacted {
      assert given.value == "" && !given.valueRedacted;
      assert LastSupplied(updates, x.id, x.v.name) == None;
    }
  }

  /** A secret is read back as it was supplied exactly when it does not begin with a byte
      order mark. */
  lemma ReadsBackAsSupplied(start: State, updates: seq<Settings>, x: Named, supplied: string)
    requires Clean(start) && AllWellNamed(updates) && updates != []
    requires x in Vars(Run(start, updates).settings) && x.v.sensitive
    requires LastSupplied(updates, x.id, x.v.name) == Some(supplied)
    ensures Materialized(Run(start, updates).secrets, x.id, x.v).value == supplied <==> !("\U{FEFF}" <= supplied)
  {
    MaterializesLastSupplied(start, updates, x);
    assert "\U{FEFF}" <= supplied ==> |Decoded(supplied)| < |supplied|;
  }

  /** One update of nothing but the token `\U{FEFF}token`. */
  function MarkedVariable(): Variable {
    Variable([84], "\U{FEFF}token", true, false)
  }

  function MarkedUpdate(): Settings {
    [Instance([97], Some([MarkedVariable()]))]
  }

  /** Its value loses the mark. */
  lemma MarkIsLost(start: State)
    requires Clean(start)
    ensures var st := Run(start, [MarkedUpdate()]);
            var x := Named([97], Persisted(MarkedVariable()));
            && x in Vars(st.settings)
            && Materialized(st.secrets, x.id, x.v).value == "token" != MarkedVariable().value
  {
    var v := MarkedVariable();
    var next := MarkedUpdate();
    assert Vars(next) == [Named([97], v)];
    assert Vars(PersistedSettings(next)) == [Named([97], Persisted(v))];
    WordsDashless([84]);
    assert [next][..0] == [];
    MaterializesLastSupplied(start, [next], Named([97], Persisted(v)));
    assert v.value[1..] == "token";
  }

  /** What a client is shown: materialised, then redacted. */
  function ShownVariable(secrets: Secrets, id: Bytes, v: Variable): Variable {
    Redact(Materialized(secrets, id, v))
  }

  /** A client is shown no sensitive value, but for each whether the last update supplied it
      or repeated it redacted; and the other values as they were given. */
  lemma ClientSeesNoSecret(start: State, updates: seq<Settings>, x: Named)
    requires Clean(start) && AllWellNamed(updates) && updates != []
    requires x in Vars(Run(start, updates).settings)
    ensures var shown := ShownVariable(Run(start, updates).secrets, x.id, x.v);
            var given := Find(Vars(updates[|updates| - 1]), x.id, x.v.name);
            && given.Some? && shown.name == given.value.name && shown.sensitive == given.value.sensitive
            && (if given.value.sensitive
                then shown.value == "" && (shown.valueRedacted <==> given.value.value != "" || given.value.valueRedacted)
                else shown.value == given.value.value && !shown.valueRedacted)
  {
    RunVariable(start, updates, x);
  }

  /** Sending back the copy a client is shown changes neither the secret nor what is persisted. */
  lemma EchoKeeps(start: State, updates: seq<Settings>, x: Named)
    requires Clean(start) && AllWellNamed(updates) && updates != []
    requires x in Vars(Run(start, updates).settings)
    ensures var st := Run(start, updates);
            var echo := ShownVariable(st.secrets, x.id, x.v);
            var secret := Get(st.secrets, SecretName(x.id, x.v.name));
            && Supply(echo, secret) == secret
            && Persisted(echo) == x.v
  {
    RunVariable(start, updates, x);
    RunAt(start, updates, x.id, x.v.name);
    var given := Find(Vars(updates[|updates| - 1]), x.id, x.v.name).value;
    assert !x.v.sensitive ==> x.v == given.(valueRedacted := false);
    assert x.v.sensitive && !x.v.valueRedacted ==> given.value == "" && !given.valueRedacted;
  }

  /** Names that are no variable's secret name are left alone. */
  lemma {:induction false} OthersKept(start: State, updates: seq<Settings>, other: string)
    requires forall id, name :: SecretName(id, name) != other
    ensures Get(Run(start, updates).secrets, other) == Get(start.secrets, other)
  {
    if updates != [] {
      var n := |updates| - 1;
      OthersKept(start, updates[..n], other);
      var st := Run(start, updates[..n]);
      StoreAllOther(st.secrets, Vars(updates[n]), other);
      DropStaleOther(StoreAll(st.secrets, Vars(updates[n])), Vars(st.settings), SensitiveNames(Vars(updates[n])), other);
    }
  }

  lemma {:induction false} StoreAllOther(secrets: Secrets, vars: seq<Named>, other: string)
    requires forall id, name :: SecretName(id, name) != other
    ensures Get(StoreAll(secrets, vars), other) == Get(secrets, other)
  {
    if vars != [] {
      StoreAllOther(secrets, vars[..|vars| - 1], other);
    }
  }

  lemma {:induction false} DropStaleOther(secrets: Secrets, current: seq<Named>, kept: set<string>, other: string)
    requires forall id, name :: SecretName(id, name) != other
    ensures Get(DropStale(secrets, current, kept), other) == Get(secrets, other)
  {
    if current != [] {
      DropStaleOther(secrets, current[..|current| - 1], kept, other);
    }
  }
}
