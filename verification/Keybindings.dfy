/** The keybindings service: the file, the cache of the resolved configuration and the
    operations that change them (apps/server/src/keybindings.ts). */
module Keybindings {
  import opened Outcomes
  import opened Shortcuts
  import opened KeybindingsConfig

  class KeybindingsService {
    const parse: Parse
    const defaults: seq<Rule>
    var file: File
    var cache: Option<ConfigState>

    constructor (parse: Parse, defaults: seq<Rule>, file: File)
      ensures this.parse == parse && this.defaults == defaults && this.file == file
      ensures Coherent()
    {
      this.parse := parse;
      this.defaults := defaults;
      this.file := file;
      cache := None;
    }

    /** What the cache holds is what a fresh load from disk would compute. */
    ghost predicate Coherent()
      reads this
    {
      cache.Some? ==> cache.value == FreshLoad(parse, defaults, file)
    }

    method LoadRuntimeCustomKeybindingsConfig() returns (keybindings: seq<Rule>, issues: seq<Issue>)
      ensures (keybindings, issues) == LoadRuntime(parse, file)
    {
      match file
      case Missing => return [], [];
      case Malformed => return [], [MalformedConfig];
      case Entries(entries) =>
        keybindings, issues := [], [];
        var index := 0;
        while index < |entries|
          invariant index <= |entries|
          invariant keybindings == GoodRules(parse, entries[..index])
          invariant issues == Issues(parse, entries[..index])
        {
          assert entries[..index + 1][..index] == entries[..index];
          var entry := entries[index];
          if entry.Invalid? {
            issues := issues + [InvalidEntry(index)];
          } else if !Loads(parse, entry.rule) {
            issues := issues + [InvalidEntry(index)];
          } else {
            keybindings := keybindings + [entry.rule];
          }
          index := index + 1;
        }
        assert entries[..index] == entries;
    }

    /** The cached state, or the state on disk, which is then cached. */
    method GetSnapshot() returns (state: ConfigState)
      requires Coherent()
      modifies this
      ensures Coherent() && file == old(file) && cache == Some(state)
      ensures state == FreshLoad(parse, defaults, file)
    {
      if cache.None? {
        var keybindings, issues := LoadRuntimeCustomKeybindingsConfig();
        cache := Some(ConfigState(MergeWithDefaults(CompileAll(parse, defaults), CompileAll(parse, keybindings)), issues));
      }
      state := cache.value;
    }

    method WriteConfigAtomically(rules: seq<Rule>) returns (r: Result<(), Error>)
      modifies this`file
      ensures if |rules| <= MAX_KEYBINDINGS_COUNT then r == Ok(()) && file == Entries(ToEntries(rules))
              else r == Err(WriteFailed) && file == old(file)
    {
      var written := Write(rules);
      match written
      case Ok(f) =>
        file := f;
        r := Ok(());
      case Err(e) => r := Err(e);
    }

    /** The loop over the defaults. */
    method CollectMissing(customConfig: seq<Rule>) returns (missingDefaults: seq<Rule>)
      ensures missingDefaults == MissingDefaults(parse, customConfig, defaults)
    {
      missingDefaults := [];
      var i := 0;
      while i < |defaults|
        invariant i <= |defaults|
        invariant missingDefaults == MissingDefaults(parse, customConfig, defaults[..i])
      {
        assert defaults[..i + 1][..i] == defaults[..i];
        var defaultRule := defaults[i];
        i := i + 1;
        if HasCommand(customConfig, defaultRule.command) {
          continue;
        }
        if Conflicts(parse, customConfig, defaultRule) {
          continue;
        }
        missingDefaults := missingDefaults + [defaultRule];
      }
      assert defaults[..i] == defaults;
    }

    method SyncDefaultKeybindingsOnStartup() returns (r: Result<(), Error>)
      modifies this
      ensures match Backfilled(parse, defaults, old(file))
              case Ok(f) => r == Ok(()) && file == f && cache == None
              case Err(e) => r == Err(e) && file == old(file) && cache == old(cache)
    {
      if file.Missing? {
        var _ :- WriteConfigAtomically(defaults);
        cache := None;
        return Ok(());
      }
      var customConfig, issues := LoadRuntimeCustomKeybindingsConfig();
      if issues != [] {
        cache := None;
        return Ok(());
      }
      var missingDefaults := CollectMissing(customConfig);
      if missingDefaults == [] {
        cache := None;
        return Ok(());
      }
      var defaultsToAppend := First(missingDefaults, AvailableSlots(customConfig));
      if defaultsToAppend == [] {
        cache := None;
        return Ok(());
      }
      var _ :- WriteConfigAtomically(customConfig + defaultsToAppend);
      cache := None;
      r := Ok(());
    }

    /** On success the file holds the capped list and the cache agrees with it exactly when
        the new rule loads; on failure nothing changes. */
    method UpsertKeybindingRule(rule: Rule, replace: Option<Rule>) returns (r: Result<seq<Resolved>, Error>)
      modifies this
      ensures match LoadWritable(parse, old(file))
              case Err(e) => r == Err(e) && file == old(file) && cache == old(cache)
              case Ok(rules) =>
                var next := Upserted(rules, rule, replace);
                && file == Entries(ToEntries(next))
                && cache == Some(CachedState(parse, defaults, next))
                && r == Ok(cache.value.keybindings)
                && (Coherent() <==> Loads(parse, rule))
    {
      var loaded := LoadWritable(parse, file);
      if loaded.Err? {
        return Err(loaded.error);
      }
      ghost var rules := loaded.value;
      WritableLoads(parse, file);
      UpsertPlaces(rules, rule, replace);
      UpsertAgrees(parse, defaults, rules, rule, replace);
      var customConfig := loaded.value;
      var nextConfig := Remaining(customConfig, Gone(rule, replace)) + [rule];
      var cappedConfig := if |nextConfig| > MAX_KEYBINDINGS_COUNT
      then nextConfig[|nextConfig| - MAX_KEYBINDINGS_COUNT..] else nextConfig;
      var written := WriteConfigAtomically(cappedConfig);
      assert written.Ok?;
      var nextResolved := MergeWithDefaults(CompileAll(parse, defaults), CompileAll(parse, cappedConfig));
      cache := Some(ConfigState(nextResolved, []));
      r := Ok(nextResolved);
    }

    /** On success the file holds the other rules and the cache agrees with it. A file with
        more loadable rules than the maximum cannot be written back, so then nothing changes. */
    method RemoveKeybindingRule(target: Rule) returns (r: Result<seq<Resolved>, Error>)
      modifies this
      ensures match LoadWritable(parse, old(file))
              case Err(e) => r == Err(e) && file == old(file) && cache == old(cache)
              case Ok(rules) =>
                var next := Remaining(rules, {target});
                if |next| > MAX_KEYBINDINGS_COUNT then r == Err(WriteFailed) && file == old(file) && cache == old(cache)
                else && file == Entries(ToEntries(next))
                     && cache == Some(CachedState(parse, defaults, next))
                     && r == Ok(cache.value.keybindings)
                     && Coherent()
    {
      var loaded := LoadWritable(parse, file);
      if loaded.Err? {
        return Err(loaded.error);
      }
      WritableLoads(parse, file);
      RemoveAgrees(parse, defaults, loaded.value, target);
      var nextConfig := Remaining(loaded.value, {target});
      var _ :- WriteConfigAtomically(nextConfig);
      var nextResolved := MergeWithDefaults(CompileAll(parse, defaults), CompileAll(parse, nextConfig));
      cache := Some(ConfigState(nextResolved, []));
      r := Ok(nextResolved);
    }
  }

  lemma WritableLoads(parse: Parse, file: File)
    requires LoadWritable(parse, file).Ok?
    ensures AllLoad(parse, LoadWritable(parse, file).value)
  {
    if file.Entries? {
      GoodRulesLoad(parse, file.entries);
    }
  }
}
