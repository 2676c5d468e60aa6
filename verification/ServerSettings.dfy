/** The settings service: the loops over providers and their variables, the secret store they
    change and the cached settings (apps/server/src/serverSettings.ts). */
module ServerSettings {
  import opened Collections
  import opened Outcomes
  import opened SecretNames
  import opened ProviderSecrets

  class SecretStore {
    var secrets: Secrets

    constructor ()
      ensures secrets == map[]
    {
      secrets := map[];
    }

    method Read(name: string) returns (value: Option<string>)
      ensures value == (match Get(secrets, name) case None => None case Some(s) => Some(Decoded(s)))
    {
      value := if name in secrets then Some(Decoded(secrets[name])) else None;
    }

    method Set(name: string, value: string)
      modifies this
      ensures secrets == Bind(old(secrets), name, Some(value))
    {
      secrets := secrets[name := value];
    }

    method Remove(name: string)
      modifies this
      ensures secrets == Bind(old(secrets), name, None)
    {
      secrets := secrets - {name};
    }
  }

  class ServerSettingsService {
    const secretStore: SecretStore
    var settingsCache: Settings

    constructor (secretStore: SecretStore, settings: Settings)
      ensures this.secretStore == secretStore && settingsCache == settings
    {
      this.secretStore := secretStore;
      settingsCache := settings;
    }

    ghost function Current(): State
      reads this, secretStore
    {
      State(secretStore.secrets, settingsCache)
    }

    /** The branches for one variable of the next settings. */
    method PersistVariable(id: Bytes, v: Variable) returns (persisted: Variable)
      modifies secretStore
      ensures secretStore.secrets == Store(old(secretStore.secrets), id, v)
      ensures persisted == Persisted(v)
    {
      var secretName := SecretName(id, v.name);
      if !v.sensitive {
        secretStore.Remove(secretName);
        return Redact(v);
      }
      if !v.valueRedacted {
        if v.value != "" {
          secretStore.Set(secretName, v.value);
          return v.(value := "", valueRedacted := true);
        }
        secretStore.Remove(secretName);
        return v.(valueRedacted := false);
      }
      ghost var secrets := secretStore.secrets;
      assert Bind(secrets, secretName, Get(secrets, secretName)) == secrets;
      persisted := Redact(v);
    }

    method PersistEnvironment(id: Bytes, vs: seq<Variable>, keys: set<string>)
      returns (environment: seq<Variable>, nextSecretKeys: set<string>)
      modifies secretStore
      ensures secretStore.secrets == StoreAll(old(secretStore.secrets), Attached(id, vs))
      ensures environment == PersistedVars(vs)
      ensures nextSecretKeys == keys + SensitiveNames(Attached(id, vs))
    {
      environment := [];
      nextSecretKeys := keys;
      var i := 0;
      while i < |vs|
        invariant i <= |vs|
        invariant secretStore.secrets == StoreAll(old(secretStore.secrets), Attached(id, vs[..i]))
        invariant environment == PersistedVars(vs[..i])
        invariant nextSecretKeys == keys + SensitiveNames(Attached(id, vs[..i]))
      {
        AttachedNext(id, vs, i);
        if vs[i].sensitive {
          nextSecretKeys := nextSecretKeys + {SecretName(id, vs[i].name)};
        }
        var persisted := PersistVariable(id, vs[i]);
        environment := environment + [persisted];
        i := i + 1;
      }
      assert vs[..i] == vs;
    }

    method PersistProviderEnvironmentSecrets(current: Settings, next: Settings) returns (settings: Settings)
      modifies secretStore
      ensures secretStore.secrets == NextSecrets(old(secretStore.secrets), current, next)
      ensures settings == PersistedSettings(next)
    {
      settings := [];
      var nextSecretKeys: set<string> := {};
      var i := 0;
      while i < |next|
        invariant i <= |next|
        invariant secretStore.secrets == StoreAll(old(secretStore.secrets), Vars(next[..i]))
        invariant settings == PersistedSettings(next[..i])
        invariant nextSecretKeys == SensitiveNames(Vars(next[..i]))
      {
        var instance := next[i];
        VarsNext(next, i);
        PersistedNext(next, i);
        if instance.environment.Some? {
          var vs := instance.environment.value;
          StoreAllConcat(old(secretStore.secrets), Vars(next[..i]), Attached(instance.id, vs));
          SensitiveNamesConcat(Vars(next[..i]), Attached(instance.id, vs));
          var environment;
          environment, nextSecretKeys := PersistEnvironment(instance.id, vs, nextSecretKeys);
          settings := settings + [instance.(environment := Some(environment))];
        } else {
          assert Vars(next[..i]) + [] == Vars(next[..i]);
          settings := settings + [instance];
        }
        i := i + 1;
      }
      assert next[..i] == next;
      RemoveStale(current, nextSecretKeys);
    }

    method RemoveStale(current: Settings, kept: set<string>)
      modifies secretStore
      ensures secretStore.secrets == DropStale(old(secretStore.secrets), Vars(current), kept)
    {
      var i := 0;
      while i < |current|
        invariant i <= |current|
        invariant secretStore.secrets == DropStale(old(secretStore.secrets), Vars(current[..i]), kept)
      {
        VarsNext(current, i);
        DropStaleConcat(old(secretStore.secrets), Vars(current[..i]), InstanceVars(current[i]), kept);
        if current[i].environment.Some? {
          RemoveStaleOf(current[i].id, current[i].environment.value, kept);
        }
        i := i + 1;
      }
      assert current[..i] == current;
    }

    method RemoveStaleOf(id: Bytes, vs: seq<Variable>, kept: set<string>)
      modifies secretStore
      ensures secretStore.secrets == DropStale(old(secretStore.secrets), Attached(id, vs), kept)
    {
      var i := 0;
      while i < |vs|
        invariant i <= |vs|
        invariant secretStore.secrets == DropStale(old(secretStore.secrets), Attached(id, vs[..i]), kept)
      {
        AttachedNext(id, vs, i);
        var secretName := SecretName(id, vs[i].name);
        if vs[i].sensitive && secretName !in kept {
          secretStore.Remove(secretName);
        }
        i := i + 1;
      }
      assert vs[..i] == vs;
    }

    method MaterializeProviderEnvironmentSecrets(settings: Settings) returns (r: Settings)
      ensures r == MaterializedSettings(secretStore.secrets, settings)
    {
      r := [];
      var i := 0;
      while i < |settings|
        invariant i <= |settings|
        invariant r == MaterializedSettings(secretStore.secrets, settings[..i])
      {
        var instance := settings[i];
        if instance.environment.Some? {
          var environment := MaterializeEnvironment(instance.id, instance.environment.value);
          instance := instance.(environment := Some(environment));
        }
        assert settings[..i + 1] == settings[..i] + [settings[i]];
        r := r + [instance];
        i := i + 1;
      }
      assert settings[..i] == settings;
    }

    method MaterializeEnvironment(id: Bytes, vs: seq<Variable>) returns (environment: seq<Variable>)
      ensures environment == MaterializedVars(secretStore.secrets, id, vs)
    {
      environment := [];
      var i := 0;
      while i < |vs|
        invariant i <= |vs|
        invariant environment == MaterializedVars(secretStore.secrets, id, vs[..i])
      {
        var v := vs[i];
        if v.sensitive && v.valueRedacted {
          var secret := secretStore.Read(SecretName(id, v.name));
          v := v.(value := if secret.Some? then secret.value else "");
        }
        assert vs[..i + 1] == vs[..i] + [vs[i]];
        environment := environment + [v];
        i := i + 1;
      }
      assert vs[..i] == vs;
    }

    /** `next` is what applying the patch to the current settings gives; nothing fails. */
    method UpdateSettings(next: Settings) returns (materialized: Settings)
      modifies this, secretStore
      ensures Current() == Update(old(Current()), next)
      ensures materialized == MaterializedSettings(secretStore.secrets, settingsCache)
    {
      var persisted := PersistProviderEnvironmentSecrets(settingsCache, next);
      settingsCache := persisted;
      materialized := MaterializeProviderEnvironmentSecrets(settingsCache);
    }
  }

  // ---------------------------------------------------------------- one more element

  lemma AttachedNext(id: Bytes, vs: seq<Variable>, i: nat)
    requires i < |vs|
    ensures Attached(id, vs[..i + 1]) == Attached(id, vs[..i]) + [Named(id, vs[i])]
    ensures Attached(id, vs[..i + 1])[..i] == Attached(id, vs[..i])
    ensures PersistedVars(vs[..i + 1]) == PersistedVars(vs[..i]) + [Persisted(vs[i])]
  {
  }

  lemma {:induction false} VarsConcat(a: Settings, b: Settings)
    ensures Vars(a + b) == Vars(a) + Vars(b)
  {
    if a == [] {
      assert a + b == b;
    } else {
      assert (a + b)[1..] == a[1..] + b;
      VarsConcat(a[1..], b);
    }
  }

  lemma VarsNext(settings: Settings, i: nat)
    requires i < |settings|
    ensures Vars(settings[..i + 1]) == Vars(settings[..i]) + InstanceVars(settings[i])
  {
    assert settings[..i + 1] == settings[..i] + [settings[i]];
    VarsConcat(settings[..i], [settings[i]]);
    assert Vars([settings[i]]) == InstanceVars(settings[i]) + [];
  }

  lemma PersistedNext(settings: Settings, i: nat)
    requires i < |settings|
    ensures PersistedSettings(settings[..i + 1])
         == PersistedSettings(settings[..i]) + [PersistedInstance(settings[i])]
  {
  }

  lemma {:induction false} StoreAllConcat(secrets: Secrets, a: seq<Named>, b: seq<Named>)
    ensures StoreAll(secrets, a + b) == StoreAll(StoreAll(secrets, a), b)
    decreases |b|
  {
    if b == [] {
      assert a + b == a;
    } else {
      assert (a + b)[..|a + b| - 1] == a + b[..|b| - 1];
      StoreAllConcat(secrets, a, b[..|b| - 1]);
    }
  }

  lemma {:induction false} SensitiveNamesConcat(a: seq<Named>, b: seq<Named>)
    ensures SensitiveNames(a + b) == SensitiveNames(a) + SensitiveNames(b)
    decreases |b|
  {
    if b == [] {
      assert a + b == a;
    } else {
      assert (a + b)[..|a + b| - 1] == a + b[..|b| - 1];
      SensitiveNamesConcat(a, b[..|b| - 1]);
    }
  }

  lemma {:induction false} DropStaleConcat(secrets: Secrets, a: seq<Named>, b: seq<Named>, kept: set<string>)
    ensures DropStale(secrets, a + b, kept) == DropStale(DropStale(secrets, a, kept), b, kept)
    decreases |b|
  {
    if b == [] {
      assert a + b == a;
    } else {
      assert (a + b)[..|a + b| - 1] == a + b[..|b| - 1];
      DropStaleConcat(secrets, a, b[..|b| - 1], kept);
    }
  }
}
