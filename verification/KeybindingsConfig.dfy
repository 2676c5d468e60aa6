/** The keybindings file and what the operations on it compute
    (apps/server/src/keybindings.ts). Parsing a shortcut is the parameter `parse`; reading
    the JSON text gives entries, and writing a list and reading it back gives the same list. */
module KeybindingsConfig {
  import opened Collections
  import opened Outcomes
  import opened Shortcuts
  import W = WhenExpressions
  import WhenGrammar

  const MAX_KEYBINDINGS_COUNT: nat := 256
  const MAX_KEYBINDING_VALUE_LENGTH: nat := 64

  datatype Rule = Rule(key: string, command: string, when: Option<string>)

  datatype Resolved = Resolved(command: string, shortcut: Shortcut, when: Option<W.Node>)

  type Parse = string -> Option<Shortcut>

  /** One element of the JSON array, decoded as a rule or not. */
  datatype Entry = Invalid | Valid(rule: Rule)

  datatype File = Missing | Malformed | Entries(entries: seq<Entry>)

  datatype Issue = MalformedConfig | InvalidEntry(index: nat)

  datatype ConfigState = ConfigState(keybindings: seq<Resolved>, issues: seq<Issue>)

  datatype Error = ExpectedArray | WriteFailed

  // ---------------------------------------------------------------- compiling rules

  /** `compileResolvedKeybindingRule`. */
  function Compile(parse: Parse, rule: Rule): Option<Resolved> {
    var shortcut := parse(rule.key);
    if shortcut.None? then None
    else if rule.when.None? then Some(Resolved(rule.command, shortcut.value, None))
    else
      var ast := W.ParseWhen(W.Strict(), rule.when.value, W.MAX_WHEN_EXPRESSION_DEPTH);
      if ast.None? then None else Some(Resolved(rule.command, shortcut.value, ast))
  }

  /** Decoding an entry also checks the length of the compiled key. */
  predicate Loads(parse: Parse, rule: Rule) {
    var resolved := Compile(parse, rule);
    resolved.Some? && 1 <= |resolved.value.shortcut.key| <= MAX_KEYBINDING_VALUE_LENGTH
  }

  function CompileEach(parse: Parse, rules: seq<Rule>): seq<Resolved> {
    if rules == [] then []
    else
      var before := CompileEach(parse, rules[..|rules| - 1]);
      var last := Compile(parse, rules[|rules| - 1]);
      if last.Some? then before + [last.value] else before
  }

  function Last<T>(s: seq<T>, n: nat): seq<T> {
    if |s| > n then s[|s| - n..] else s
  }

  /** `compileResolvedKeybindingsConfig`. */
  function CompileAll(parse: Parse, rules: seq<Rule>): seq<Resolved> {
    Last(CompileEach(parse, rules), MAX_KEYBINDINGS_COUNT)
  }

  function Commands(bindings: seq<Resolved>): set<string> {
    set b | b in bindings :: b.command
  }

  function Without(bindings: seq<Resolved>, commands: set<string>): seq<Resolved> {
    if bindings == [] then []
    else
      var before := Without(bindings[..|bindings| - 1], commands);
      var last := bindings[|bindings| - 1];
      if last.command in commands then before else before + [last]
  }

  /** `mergeWithDefaultKeybindings`. */
  function MergeWithDefaults(defaults: seq<Resolved>, custom: seq<Resolved>): seq<Resolved> {
    if custom == [] then defaults
    else Last(Without(defaults, Commands(custom)) + custom, MAX_KEYBINDINGS_COUNT)
  }

  // ---------------------------------------------------------------- reading the file

  predicate Good(parse: Parse, e: Entry) {
    e.Valid? && Loads(parse, e.rule)
  }

  function GoodRules(parse: Parse, entries: seq<Entry>): seq<Rule> {
    if entries == [] then []
    else
      var before := GoodRules(parse, entries[..|entries| - 1]);
      var last := entries[|entries| - 1];
      if Good(parse, last) then before + [last.rule] else before
  }

  function Issues(parse: Parse, entries: seq<Entry>): seq<Issue> {
    if entries == [] then []
    else
      var n := |entries| - 1;
      var before := Issues(parse, entries[..n]);
      if Good(parse, entries[n]) then before else before + [InvalidEntry(n)]
  }

  /** `loadRuntimeCustomKeybindingsConfig`: the rules and the issues. */
  function LoadRuntime(parse: Parse, file: File): (seq<Rule>, seq<Issue>) {
    match file
    case Missing => ([], [])
    case Malformed => ([], [MalformedConfig])
    case Entries(entries) => (GoodRules(parse, entries), Issues(parse, entries))
  }

  /** `loadWritableCustomKeybindingsConfig`. */
  function LoadWritable(parse: Parse, file: File): Result<seq<Rule>, Error> {
    match file
    case Missing => Ok([])
    case Malformed => Err(ExpectedArray)
    case Entries(entries) => Ok(GoodRules(parse, entries))
  }

  /** `loadConfigStateFromDisk`. */
  function FreshLoad(parse: Parse, defaults: seq<Rule>, file: File): ConfigState {
    var (rules, issues) := LoadRuntime(parse, file);
    ConfigState(MergeWithDefaults(CompileAll(parse, defaults), CompileAll(parse, rules)), issues)
  }

  function ToEntries(rules: seq<Rule>): (r: seq<Entry>)
    ensures |r| == |rules| && forall i | 0 <= i < |r| :: r[i] == Valid(rules[i])
  {
    seq(|rules|, i requires 0 <= i < |rules| => Valid(rules[i]))
  }

  /** Encoding refuses a list that is too long. */
  function Write(rules: seq<Rule>): Result<File, Error> {
    if |rules| <= MAX_KEYBINDINGS_COUNT then Ok(Entries(ToEntries(rules))) else Err(WriteFailed)
  }

  // ---------------------------------------------------------------- startup backfill

  predicate HasCommand(rules: seq<Rule>, command: string) {
    exists i | 0 <= i < |rules| :: rules[i].command == command
  }

  predicate SameShortcutContext(parse: Parse, a: Rule, b: Rule) {
    SameContext(parse(a.key), a.when, parse(b.key), b.when)
  }

  predicate Conflicts(parse: Parse, rules: seq<Rule>, rule: Rule) {
    exists i | 0 <= i < |rules| :: SameShortcutContext(parse, rules[i], rule)
  }

  predicate IsMissing(parse: Parse, rules: seq<Rule>, d: Rule) {
    !HasCommand(rules, d.command) && !Conflicts(parse, rules, d)
  }

  /** The defaults whose command no rule has and whose shortcut context no rule has. */
  function MissingDefaults(parse: Parse, rules: seq<Rule>, defaults: seq<Rule>): seq<Rule> {
    if defaults == [] then []
    else
      var before := MissingDefaults(parse, rules, defaults[..|defaults| - 1]);
      var d := defaults[|defaults| - 1];
      if IsMissing(parse, rules, d) then before + [d] else before
  }

  function First<T>(s: seq<T>, n: nat): seq<T> {
    if |s| > n then s[..n] else s
  }

  function AvailableSlots(rules: seq<Rule>): nat {
    if |rules| < MAX_KEYBINDINGS_COUNT then MAX_KEYBINDINGS_COUNT - |rules| else 0
  }

  function Appended(parse: Parse, rules: seq<Rule>, defaults: seq<Rule>): seq<Rule> {
    First(MissingDefaults(parse, rules, defaults), AvailableSlots(rules))
  }

  /** The list `syncDefaultKeybindingsOnStartup` writes, if it writes. */
  function Backfill(parse: Parse, defaults: seq<Rule>, file: File): Option<seq<Rule>> {
    if file.Missing? then Some(defaults)
    else
      var (rules, issues) := LoadRuntime(parse, file);
      if issues != [] then None
      else
        var appended := Appended(parse, rules, defaults);
        if appended == [] then None else Some(rules + appended)
  }

  function Backfilled(parse: Parse, defaults: seq<Rule>, file: File): Result<File, Error> {
    var written := Backfill(parse, defaults, file);
    if written.None? then Ok(file) else Write(written.value)
  }

  // ---------------------------------------------------------------- upsert and remove

  function Remaining(rules: seq<Rule>, gone: set<Rule>): seq<Rule> {
    if rules == [] then []
    else
      var before := Remaining(rules[..|rules| - 1], gone);
      var last := rules[|rules| - 1];
      if last in gone then before else before + [last]
  }

  function Gone(rule: Rule, replace: Option<Rule>): set<Rule> {
    if replace.Some? then {replace.value, rule} else {rule}
  }

  /** The list an upsert writes. */
  function Upserted(rules: seq<Rule>, rule: Rule, replace: Option<Rule>): seq<Rule> {
    Last(Remaining(rules, Gone(rule, replace)) + [rule], MAX_KEYBINDINGS_COUNT)
  }

  /** What upsert and remove put into the cache. */
  function CachedState(parse: Parse, defaults: seq<Rule>, rules: seq<Rule>): ConfigState {
    ConfigState(MergeWithDefaults(CompileAll(parse, defaults), CompileAll(parse, rules)), [])
  }

  // ---------------------------------------------------------------- what merging with the defaults means

  /** `sub` is what is left of `all` when the elements of dropped commands are taken out. */
  ghost predicate Kept(all: seq<Resolved>, sub: seq<Resolved>, at: seq<nat>, dropped: set<string>) {
    && |at| == |sub|
    && (forall i | 0 <= i < |at| :: at[i] < |all| && sub[i] == all[at[i]] && all[at[i]].command !in dropped)
    && (forall i, j | 0 <= i < j < |at| :: at[i] < at[j])
    && (forall k | 0 <= k < |all| && all[k].command !in dropped :: k in at)
  }

  lemma {:induction false} WithoutMeans(all: seq<Resolved>, dropped: set<string>) returns (at: seq<nat>)
    ensures Kept(all, Without(all, dropped), at, dropped)
  {
    if all == [] {
      at := [];
    } else {
      var n := |all| - 1;
      at := WithoutMeans(all[..n], dropped);
      assert forall k | 0 <= k < n :: all[..n][k] == all[k];
      if all[n].command !in dropped {
        at := at + [n];
      }
    }
  }

  /** The merged list ends with the user's latest rules, in order; before them, as far as the
      maximum of 256 allows, come the defaults, in order, whose command no rule of the user
      has. Without rules of the user it is all the defaults. */
  lemma MergeMeans(defaults: seq<Resolved>, custom: seq<Resolved>) returns (kept: seq<Resolved>, at: seq<nat>)
    ensures Kept(defaults, kept, at, Commands(custom))
    ensures custom == [] ==> MergeWithDefaults(defaults, custom) == kept == defaults
    ensures var merged := MergeWithDefaults(defaults, custom);
            custom != [] ==>
              && merged == Last(kept + custom, 256)
              && |merged| <= 256
              && (|custom| <= 256 ==> custom <= merged[|merged| - |custom|..])
              && (|custom| >= 256 ==> merged == custom[|custom| - 256..])
  {
    kept := Without(defaults, Commands(custom));
    at := WithoutMeans(defaults, Commands(custom));
    if custom == [] {
      assert Commands(custom) == {};
      WithoutNothing(defaults);
    } else {
      LastOfBoth(kept, custom, 256);
    }
  }

  lemma LastOfBoth<T>(kept: seq<T>, custom: seq<T>, n: nat)
    ensures var merged := Last(kept + custom, n);
            && |merged| <= n
            && (|custom| <= n ==> custom <= merged[|merged| - |custom|..])
            && (|custom| >= n ==> merged == custom[|custom| - n..])
  {
    var all := kept + custom;
    var merged := Last(all, n);
    assert |merged| <= |all| && merged == all[|all| - |merged|..];
  }

  lemma {:induction false} WithoutNothing(all: seq<Resolved>)
    ensures Without(all, {}) == all
  {
    if all != [] {
      WithoutNothing(all[..|all| - 1]);
    }
  }

  function Compiler(parse: Parse): Rule -> Option<Resolved> {
    (rule: Rule) => Compile(parse, rule)
  }

  lemma CommandKept(parse: Parse, rule: Rule)
    ensures Compiler(parse)(rule).Some? ==> Compiler(parse)(rule).value.command == rule.command
  {
  }

  /** A rule compiles to its command, the shortcut of its key and, if it has a when text, the
      tree that this is a grammatical way to write; otherwise it does not compile. */
  lemma CompileMeans(parse: Parse, rule: Rule, r: Resolved)
    ensures Compile(parse, rule) == Some(r)
       <==> && r.command == rule.command && parse(rule.key) == Some(r.shortcut)
            && (rule.when.Some? <==> r.when.Some?)
            && (rule.when.Some? && r.when.Some? ==>
                  exists s :: WhenGrammar.Writes(W.Strict(), rule.when.value, s, r.when.value, 64))
  {
    if rule.when.Some? && r.when.Some? {
      WhenGrammar.WhenMeans(rule.when.value, r.when.value);
    }
  }

  /** Compiling keeps the order of the rules that compile, each with its own command. */
  lemma {:induction false} CompileEachMeans(parse: Parse, rules: seq<Rule>) returns (at: seq<nat>)
    ensures Selected(Compiler(parse), rules, CompileEach(parse, rules), at)
    ensures forall i | 0 <= i < |at| :: CompileEach(parse, rules)[i].command == rules[at[i]].command
  {
    if rules == [] {
      at := [];
    } else {
      var n := |rules| - 1;
      at := CompileEachMeans(parse, rules[..n]);
      SelectedNext(Compiler(parse), rules, CompileEach(parse, rules[..n]), at);
      if Compiler(parse)(rules[n]).Some? {
        at := at + [n];
      }
    }
    forall i | 0 <= i < |at| ensures CompileEach(parse, rules)[i].command == rules[at[i]].command {
      CommandKept(parse, rules[at[i]]);
    }
  }

  // ---------------------------------------------------------------- what is picked from a list

  function GoodRule(parse: Parse): Entry -> Option<Rule> {
    (e: Entry) => if Good(parse, e) then Some(e.rule) else None
  }

  /** Reading a file keeps the rules that load, in their order; a rule loads when it
      compiles and its key has 1 to 64 characters. */
  lemma {:induction false} GoodRulesMean(parse: Parse, entries: seq<Entry>) returns (at: seq<nat>)
    ensures Selected(GoodRule(parse), entries, GoodRules(parse, entries), at)
    ensures forall e | e in entries ::
              Good(parse, e) <==> e.Valid? && Compile(parse, e.rule).Some?
                                  && 1 <= |Compile(parse, e.rule).value.shortcut.key| <= 64
  {
    at := [];
    if entries != [] {
      var n := |entries| - 1;
      at := GoodRulesMean(parse, entries[..n]);
      SelectedNext(GoodRule(parse), entries, GoodRules(parse, entries[..n]), at);
      if Good(parse, entries[n]) {
        at := at + [n];
      }
    }
  }

  /** It reports the place of every other entry, in ascending order. */
  lemma {:induction false} IssuesMean(parse: Parse, entries: seq<Entry>) returns (bad: seq<nat>)
    ensures |bad| == |Issues(parse, entries)| && forall i | 0 <= i < |bad| :: Issues(parse, entries)[i] == InvalidEntry(bad[i])
    ensures forall i, j | 0 <= i < j < |bad| :: bad[i] < bad[j]
    ensures forall k: nat :: k in bad <==> k < |entries| && !Good(parse, entries[k])
  {
    bad := [];
    if entries != [] {
      var n := |entries| - 1;
      bad := IssuesMean(parse, entries[..n]);
      assert forall k | 0 <= k < n :: entries[..n][k] == entries[k];
      assert forall i | 0 <= i < |bad| :: bad[i] in bad;
      if !Good(parse, entries[n]) {
        bad := bad + [n];
      }
    }
  }

  function Stays(gone: set<Rule>): Rule -> Option<Rule> {
    (r: Rule) => if r in gone then None else Some(r)
  }

  /** What is left of a list keeps its order. */
  lemma {:induction false} RemainingMeans(rules: seq<Rule>, gone: set<Rule>) returns (at: seq<nat>)
    ensures Selected(Stays(gone), rules, Remaining(rules, gone), at)
  {
    at := [];
    if rules != [] {
      var n := |rules| - 1;
      at := RemainingMeans(rules[..n], gone);
      SelectedNext(Stays(gone), rules, Remaining(rules[..n], gone), at);
      if rules[n] !in gone {
        at := at + [n];
      }
    }
  }

  function Missed(parse: Parse, rules: seq<Rule>): Rule -> Option<Rule> {
    (d: Rule) => if IsMissing(parse, rules, d) then Some(d) else None
  }

  /** The missing defaults come in the order of the defaults. */
  lemma {:induction false} MissingMeans(parse: Parse, rules: seq<Rule>, defaults: seq<Rule>) returns (at: seq<nat>)
    ensures Selected(Missed(parse, rules), defaults, MissingDefaults(parse, rules, defaults), at)
  {
    at := [];
    if defaults != [] {
      var n := |defaults| - 1;
      at := MissingMeans(parse, rules, defaults[..n]);
      SelectedNext(Missed(parse, rules), defaults, MissingDefaults(parse, rules, defaults[..n]), at);
      if IsMissing(parse, rules, defaults[n]) {
        at := at + [n];
      }
    }
  }

  // ---------------------------------------------------------------- reading back what was written

  ghost predicate AllLoad(parse: Parse, rules: seq<Rule>) {
    forall i | 0 <= i < |rules| :: Loads(parse, rules[i])
  }

  lemma {:induction false} GoodRulesLoad(parse: Parse, entries: seq<Entry>)
    ensures AllLoad(parse, GoodRules(parse, entries))
  {
    if entries != [] {
      GoodRulesLoad(parse, entries[..|entries| - 1]);
    }
  }

  lemma {:induction false} ReadBack(parse: Parse, rules: seq<Rule>)
    ensures Issues(parse, ToEntries(rules)) == [] <==> AllLoad(parse, rules)
    ensures AllLoad(parse, rules) ==> GoodRules(parse, ToEntries(rules)) == rules
  {
    if rules != [] {
      var n := |rules| - 1;
      assert ToEntries(rules)[..n] == ToEntries(rules[..n]);
      ReadBack(parse, rules[..n]);
      assert AllLoad(parse, rules) <==> AllLoad(parse, rules[..n]) && Loads(parse, rules[n]);
      assert rules == rules[..n] + [rules[n]];
    }
  }

  /** After a list is written, the state put into the cache is what a fresh load of the file
      computes exactly when every rule of the list loads. */
  lemma CacheAgrees(parse: Parse, defaults: seq<Rule>, rules: seq<Rule>)
    ensures CachedState(parse, defaults, rules) == FreshLoad(parse, defaults, Entries(ToEntries(rules)))
       <==> AllLoad(parse, rules)
  {
    ReadBack(parse, rules);
  }

  lemma {:induction false} RemainingMembers(rules: seq<Rule>, gone: set<Rule>)
    ensures forall r | r in Remaining(rules, gone) :: r in rules && r !in gone
    ensures forall r | r in rules && r !in gone :: r in Remaining(rules, gone)
    ensures |Remaining(rules, gone)| <= |rules|
  {
    if rules != [] {
      RemainingMembers(rules[..|rules| - 1], gone);
      assert rules == rules[..|rules| - 1] + [rules[|rules| - 1]];
    }
  }

  /** An upserted rule is the last one, occurs once and survives the cap; the list never
      exceeds the maximum and every rule that stays was there before. */
  lemma UpsertPlaces(rules: seq<Rule>, rule: Rule, replace: Option<Rule>)
    ensures var next := Upserted(rules, rule, replace);
            && 0 < |next| <= 256
            && next[|next| - 1] == rule
            && (forall i | 0 <= i < |next| - 1 :: next[i] != rule && Some(next[i]) != replace && next[i] in rules)
            && next[..|next| - 1] == Last(Remaining(rules, Gone(rule, replace)), 255)
  {
    var gone := Gone(rule, replace);
    var kept := Remaining(rules, gone);
    LastOfMore(kept, rule, MAX_KEYBINDINGS_COUNT);
    var next := Upserted(rules, rule, replace);
    forall i | 0 <= i < |next| - 1 ensures next[i] in rules && next[i] !in gone {
      assert next[i] in kept;
      RemainingMembers(rules, gone);
    }
    assert rule in gone && (replace.Some? ==> replace.value in gone);
  }

  lemma LastOfMore<T>(kept: seq<T>, x: T, n: nat)
    requires n > 0
    ensures var next := Last(kept + [x], n);
            && 0 < |next| <= n && next[|next| - 1] == x
            && next[..|next| - 1] == Last(kept, n - 1)
            && (forall i | 0 <= i < |next| - 1 :: next[i] in kept)
  {
    var next := Last(kept + [x], n);
    assert next[..|next| - 1] == Last(kept, n - 1);
    forall i | 0 <= i < |next| - 1 ensures next[i] in kept {
      assert next[i] == Last(kept, n - 1)[i];
    }
  }

  /** After an upsert the cache agrees with the file exactly when the new rule loads. */
  lemma UpsertAgrees(parse: Parse, defaults: seq<Rule>, rules: seq<Rule>, rule: Rule, replace: Option<Rule>)
    requires AllLoad(parse, rules)
    ensures var next := Upserted(rules, rule, replace);
            CachedState(parse, defaults, next) == FreshLoad(parse, defaults, Entries(ToEntries(next)))
            <==> Loads(parse, rule)
  {
    var next := Upserted(rules, rule, replace);
    UpsertPlaces(rules, rule, replace);
    CacheAgrees(parse, defaults, next);
    forall i | 0 <= i < |next| - 1 ensures Loads(parse, next[i]) {
      var j :| 0 <= j < |rules| && rules[j] == next[i];
    }
    assert AllLoad(parse, next) <==> Loads(parse, next[|next| - 1]);
  }

  /** A rule that can be upserted and does not load: its when text is no expression. Until
      the file is loaded again the cache has no issue to show. */
  lemma UpsertedUnloadable(parse: Parse, defaults: seq<Rule>, rules: seq<Rule>)
    requires AllLoad(parse, rules)
    ensures var rule := Rule("mod+a", "chat.new", Some(")"));
            var next := Upserted(rules, rule, None);
            && !Loads(parse, rule)
            && CachedState(parse, defaults, next).issues == []
            && FreshLoad(parse, defaults, Entries(ToEntries(next))).issues != []
  {
    var rule := Rule("mod+a", "chat.new", Some(")"));
    W.CloseRefused(W.MAX_WHEN_EXPRESSION_DEPTH);
    UpsertPlaces(rules, rule, None);
    var next := Upserted(rules, rule, None);
    ReadBack(parse, next);
    assert !Loads(parse, next[|next| - 1]);
  }

  lemma {:induction false} RemainingAll(rules: seq<Rule>, gone: set<Rule>)
    requires forall r | r in rules :: r !in gone
    ensures Remaining(rules, gone) == rules
  {
    if rules != [] {
      assert rules == rules[..|rules| - 1] + [rules[|rules| - 1]];
      RemainingAll(rules[..|rules| - 1], gone);
    }
  }

  /** A file whose last rule cannot be removed: two more loadable rules than the maximum, of
      which the list without that rule keeps one too many to be written. */
  lemma RemoveFromTooMany(parse: Parse, rule: Rule, target: Rule)
    requires Loads(parse, rule) && Loads(parse, target) && rule != target
    ensures var rules := seq(MAX_KEYBINDINGS_COUNT + 1, _ => rule) + [target];
            && LoadWritable(parse, Entries(ToEntries(rules))) == Ok(rules)
            && |Remaining(rules, {target})| > MAX_KEYBINDINGS_COUNT
  {
    var others := seq(MAX_KEYBINDINGS_COUNT + 1, _ => rule);
    var rules := others + [target];
    ReadBack(parse, rules);
    RemainingAll(others, {target});
    assert rules[..|rules| - 1] == others;
  }

  /** After a remove it always agrees. */
  lemma RemoveAgrees(parse: Parse, defaults: seq<Rule>, rules: seq<Rule>, target: Rule)
    requires AllLoad(parse, rules)
    ensures var next := Remaining(rules, {target});
            CachedState(parse, defaults, next) == FreshLoad(parse, defaults, Entries(ToEntries(next)))
  {
    var next := Remaining(rules, {target});
    RemainingMembers(rules, {target});
    forall i | 0 <= i < |next| ensures Loads(parse, next[i]) {
      assert next[i] in rules;
      var j :| 0 <= j < |rules| && rules[j] == next[i];
    }
    CacheAgrees(parse, defaults, next);
  }

  // ---------------------------------------------------------------- what the backfill does

  lemma {:induction false} MissingMembers(parse: Parse, rules: seq<Rule>, defaults: seq<Rule>)
    ensures forall d :: d in MissingDefaults(parse, rules, defaults) <==> d in defaults && IsMissing(parse, rules, d)
  {
    if defaults != [] {
      MissingMembers(parse, rules, defaults[..|defaults| - 1]);
      assert defaults == defaults[..|defaults| - 1] + [defaults[|defaults| - 1]];
    }
  }

  /** The rules compared at startup are rules that load, and for them the comparison means
      what it should: the same shortcut, up to the name of the space key, and the same when
      text. A key that holds the separator does no harm, since no when text that loads does. */
  lemma SameShortcutContextMeans(parse: Parse, a: Rule, b: Rule)
    requires Loads(parse, a) && Loads(parse, b)
    ensures SameShortcutContext(parse, a, b) <==> SameBinding(parse, a, b)
  {
    WhenOfLoaded(parse, a);
    WhenOfLoaded(parse, b);
    SameContextMeans(parse(a.key), a.when, parse(b.key), b.when);
  }

  predicate SameBinding(parse: Parse, a: Rule, b: Rule)
    requires Loads(parse, a) && Loads(parse, b)
  {
    var s, t := parse(a.key).value, parse(b.key).value;
    && EncodeShortcut(s).Some? && EncodeShortcut(t).Some?
    && Alike(s, t) && a.when == b.when
  }

  lemma WhenOfLoaded(parse: Parse, rule: Rule)
    requires Loads(parse, rule)
    ensures '\0' !in WhenText(rule.when) && (rule.when.Some? ==> rule.when.value != "")
  {
    if rule.when.Some? {
      W.NoNul(rule.when.value, W.MAX_WHEN_EXPRESSION_DEPTH);
    }
  }

  /** So a default that loads conflicts with the user's rules exactly when one of them binds
      the same shortcut under the same condition. */
  lemma ConflictsMeans(parse: Parse, rules: seq<Rule>, d: Rule)
    requires AllLoad(parse, rules) && Loads(parse, d)
    ensures Conflicts(parse, rules, d) <==> exists i | 0 <= i < |rules| :: SameBinding(parse, rules[i], d)
  {
    forall i | 0 <= i < |rules|
      ensures SameShortcutContext(parse, rules[i], d) <==> SameBinding(parse, rules[i], d)
    {
      SameShortcutContextMeans(parse, rules[i], d);
    }
  }

  lemma {:induction false} AllGood(parse: Parse, entries: seq<Entry>)
    requires Issues(parse, entries) == []
    ensures ToEntries(GoodRules(parse, entries)) == entries
  {
    if entries != [] {
      var n := |entries| - 1;
      AllGood(parse, entries[..n]);
      assert entries == entries[..n] + [entries[n]];
    }
  }

  /** The backfill keeps what is in the file as an unchanged prefix, keeps a list that fits
      within the maximum, and leaves out only defaults whose command the user has, whose
      shortcut context a user's rule has, or for which no slot is left. */
  lemma BackfillKeeps(parse: Parse, defaults: seq<Rule>, entries: seq<Entry>)
    requires Backfill(parse, defaults, Entries(entries)).Some?
    ensures var written := Backfill(parse, defaults, Entries(entries)).value;
            && entries < ToEntries(written)
            && |written| <= MAX_KEYBINDINGS_COUNT
            && (forall d | d in written[|entries|..] :: d in defaults && IsMissing(parse, written[..|entries|], d))
            && (forall d | d in defaults && d !in written[|entries|..] ::
                  || HasCommand(written[..|entries|], d.command)
                  || Conflicts(parse, written[..|entries|], d)
                  || |written| == MAX_KEYBINDINGS_COUNT)
  {
    AllGood(parse, entries);
    var rules := GoodRules(parse, entries);
    var missing := MissingDefaults(parse, rules, defaults);
    var appended := Appended(parse, rules, defaults);
    var written := rules + appended;
    MissingMembers(parse, rules, defaults);
    assert |rules| == |entries|;
    assert written[..|rules|] == rules && written[|rules|..] == appended;
    assert ToEntries(written)[..|entries|] == entries;
  }

  /** The first start writes the defaults; a file with an issue is left as it is; any other
      is written exactly when a default is missing and there is room for it. */
  lemma BackfillWrites(parse: Parse, defaults: seq<Rule>, file: File)
    ensures file.Missing? && |defaults| <= 256 ==>
              Backfilled(parse, defaults, file) == Ok(Entries(ToEntries(defaults)))
    ensures !file.Missing? ==>
              (Backfill(parse, defaults, file).Some? <==>
                 && file.Entries? && (forall e | e in file.entries :: Good(parse, e))
                 && |file.entries| < 256
                 && exists d :: d in defaults && IsMissing(parse, GoodRules(parse, file.entries), d))
    ensures Backfill(parse, defaults, file).None? ==> Backfilled(parse, defaults, file) == Ok(file)
  {
    if file.Entries? {
      EntriesWrite(parse, defaults, file.entries);
    }
  }

  lemma EntriesWrite(parse: Parse, defaults: seq<Rule>, entries: seq<Entry>)
    ensures Backfill(parse, defaults, Entries(entries)).Some?
       <==> && (forall e | e in entries :: Good(parse, e))
            && |entries| < 256
            && exists d :: d in defaults && IsMissing(parse, GoodRules(parse, entries), d)
  {
    NoIssues(parse, entries);
    RoomToAppend(parse, GoodRules(parse, entries), defaults);
    if Issues(parse, entries) == [] {
      AllGood(parse, entries);
    }
  }

  lemma NoIssues(parse: Parse, entries: seq<Entry>)
    ensures Issues(parse, entries) == [] <==> forall e | e in entries :: Good(parse, e)
  {
    var bad := IssuesMean(parse, entries);
    if bad != [] {
      assert bad[0] in bad && entries[bad[0]] in entries;
    }
  }

  lemma RoomToAppend(parse: Parse, rules: seq<Rule>, defaults: seq<Rule>)
    ensures Appended(parse, rules, defaults) != []
       <==> |rules| < 256 && exists d :: d in defaults && IsMissing(parse, rules, d)
  {
    var missing := MissingDefaults(parse, rules, defaults);
    MissingMembers(parse, rules, defaults);
    if missing != [] {
      assert missing[0] in missing;
    }
  }

  /** A default left out while there is room has its command or its binding in the file. */
  lemma LeftOutMeans(parse: Parse, defaults: seq<Rule>, entries: seq<Entry>, written: seq<Rule>, d: Rule)
    requires Backfill(parse, defaults, Entries(entries)) == Some(written) && |entries| <= |written|
    requires d in defaults && Loads(parse, d) && d !in written[|entries|..]
    ensures AllLoad(parse, written[..|entries|])
    ensures || |written| == MAX_KEYBINDINGS_COUNT
            || HasCommand(written[..|entries|], d.command)
            || exists i | 0 <= i < |entries| :: SameBinding(parse, written[..|entries|][i], d)
  {
    BackfillKeeps(parse, defaults, entries);
    AllGood(parse, entries);
    GoodRulesLoad(parse, entries);
    var rules := written[..|entries|];
    assert rules == GoodRules(parse, entries);
    ConflictsMeans(parse, rules, d);
  }

  lemma HasCommandMore(rules: seq<Rule>, more: seq<Rule>, command: string)
    requires HasCommand(rules, command) || HasCommand(more, command)
    ensures HasCommand(rules + more, command)
  {
    if HasCommand(rules, command) {
      var i :| 0 <= i < |rules| && rules[i].command == command;
      assert (rules + more)[i].command == command;
    } else {
      var i :| 0 <= i < |more| && more[i].command == command;
      assert (rules + more)[|rules| + i].command == command;
    }
  }

  lemma ConflictsMore(parse: Parse, rules: seq<Rule>, more: seq<Rule>, d: Rule)
    requires Conflicts(parse, rules, d)
    ensures Conflicts(parse, rules + more, d)
  {
    var i :| 0 <= i < |rules| && SameShortcutContext(parse, rules[i], d);
    assert (rules + more)[i] == rules[i];
  }

  lemma MemberCommand(rules: seq<Rule>, d: Rule)
    requires d in rules
    ensures HasCommand(rules, d.command)
  {
    var i :| 0 <= i < |rules| && rules[i] == d;
  }

  lemma {:induction false} NoneMissing(parse: Parse, rules: seq<Rule>, defaults: seq<Rule>)
    requires forall d | d in defaults :: !IsMissing(parse, rules, d)
    ensures MissingDefaults(parse, rules, defaults) == []
  {
    if defaults != [] {
      NoneMissing(parse, rules, defaults[..|defaults| - 1]);
    }
  }

  /** After appending, nothing can be appended. */
  lemma NothingLeftToAppend(parse: Parse, rules: seq<Rule>, defaults: seq<Rule>)
    ensures Appended(parse, rules + Appended(parse, rules, defaults), defaults) == []
  {
    var appended := Appended(parse, rules, defaults);
    var missing := MissingDefaults(parse, rules, defaults);
    var after := rules + appended;
    if |missing| <= AvailableSlots(rules) {
      MissingMembers(parse, rules, defaults);
      forall d | d in defaults ensures !IsMissing(parse, after, d) {
        if HasCommand(rules, d.command) {
          HasCommandMore(rules, appended, d.command);
        } else if Conflicts(parse, rules, d) {
          ConflictsMore(parse, rules, appended, d);
        } else {
          MemberCommand(appended, d);
          HasCommandMore(rules, appended, d.command);
        }
      }
      NoneMissing(parse, after, defaults);
    } else {
      assert AvailableSlots(after) == 0;
    }
  }

  /** The startup backfill is idempotent: after it has run, running it again writes nothing. */
  lemma BackfillIdempotent(parse: Parse, defaults: seq<Rule>, file: File)
    requires |defaults| <= MAX_KEYBINDINGS_COUNT
    ensures Backfilled(parse, defaults, file).Ok?
    ensures Backfill(parse, defaults, Backfilled(parse, defaults, file).value) == None
  {
    var written := Backfill(parse, defaults, file);
    if written.Some? {
      ReadBack(parse, written.value);
      if file.Missing? {
        DefaultsComplete(parse, defaults);
      } else {
        BackfillKeeps(parse, defaults, file.entries);
        NothingLeftToAppend(parse, GoodRules(parse, file.entries), defaults);
      }
    }
  }

  lemma DefaultsComplete(parse: Parse, defaults: seq<Rule>)
    ensures MissingDefaults(parse, defaults, defaults) == []
  {
    forall d | d in defaults ensures !IsMissing(parse, defaults, d) {
      MemberCommand(defaults, d);
    }
    NoneMissing(parse, defaults, defaults);
  }
}
