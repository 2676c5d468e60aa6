/** Sparse persistence: the settings tree without what equals its defaults
    (apps/server/src/serverSettings.ts: `stripDefaultServerSettings`). */
module SettingsStrip {
  import opened Outcomes

  /** A settings value. Objects hold no property that is `undefined`, and values are equal
      when their contents are. */
  datatype Tree =
    | Scalar(text: string)
    | List(items: seq<Tree>)
    | Object(fields: map<string, Tree>)

  /** Values under these keys are compared as a whole, at any depth. */
  const ATOMIC: set<string> := {
    "backgroundActivity", "automaticGitFetchInterval", "providerHealthRefreshInterval",
    "sourceControlWriterModelSelection", "textGenerationModelSelection"
  }

  function Field(t: map<string, Tree>, key: string): Option<Tree> {
    if key in t then Some(t[key]) else None
  }

  function Unless(current: Tree, defaults: Option<Tree>): Option<Tree> {
    if Some(current) == defaults then None else Some(current)
  }

  predicate BothObjects(current: Tree, defaults: Option<Tree>) {
    current.Object? && defaults.Some? && defaults.value.Object?
  }

  function Strip(current: Tree, defaults: Option<Tree>): Option<Tree>
    decreases current, 1
  {
    if BothObjects(current, defaults) then
      var next := map k | k in current.fields && Kept(current, defaults.value, k) ::
        StripField(current, defaults.value, k).value;
      if next == map[] then None else Some(Object(next))
    else Unless(current, defaults)
  }

  function StripField(current: Tree, defaults: Tree, key: string): Option<Tree>
    requires current.Object? && defaults.Object? && key in current.fields
    decreases current, 0, 0
  {
    if key in ATOMIC then Unless(current.fields[key], Field(defaults.fields, key))
    else Strip(current.fields[key], Field(defaults.fields, key))
  }

  predicate Kept(current: Tree, defaults: Tree, key: string)
    requires current.Object? && defaults.Object? && key in current.fields
    decreases current, 0, 1
  {
    StripField(current, defaults, key).Some?
  }

  // ---------------------------------------------------------------- reading it back

  /** A sparse tree laid over the defaults; arrays and atomic keys are replaced whole. */
  function Over(defaults: Tree, sparse: Tree): Tree
    decreases sparse
  {
    if !defaults.Object? || !sparse.Object? then sparse
    else
      Object(map k | k in defaults.fields.Keys + sparse.fields.Keys :: OverField(defaults, sparse, k))
  }

  function OverField(defaults: Tree, sparse: Tree, k: string): Tree
    requires defaults.Object? && sparse.Object? && k in defaults.fields.Keys + sparse.fields.Keys
    decreases sparse, 0
  {
    if k !in sparse.fields then defaults.fields[k]
    else if k !in defaults.fields || k in ATOMIC then sparse.fields[k]
    else Over(defaults.fields[k], sparse.fields[k])
  }

  function Overlay(defaults: Tree, sparse: Option<Tree>): Tree {
    if sparse.None? then defaults else Over(defaults, sparse.value)
  }

  /** Wherever both are objects, the tree has every key of the defaults. */
  ghost predicate Carries(current: Tree, defaults: Tree)
    decreases current
  {
    current.Object? && defaults.Object? ==>
      forall k | k in defaults.fields ::
        k in current.fields && (k !in ATOMIC ==> Carries(current.fields[k], defaults.fields[k]))
  }

  // ---------------------------------------------------------------- the round trip

  /** The fields that are kept, stripped. */
  function Next(current: Tree, defaults: Tree): map<string, Tree>
    requires current.Object? && defaults.Object?
  {
    map k | k in current.fields && Kept(current, defaults, k) :: StripField(current, defaults, k).value
  }

  lemma StripObject(current: Tree, defaults: Tree)
    requires current.Object? && defaults.Object?
    ensures Strip(current, Some(defaults))
         == if forall k | k in current.fields :: !Kept(current, defaults, k) then None
            else Some(Object(Next(current, defaults)))
  {
    var next := map k | k in current.fields && Kept(current, defaults, k) ::
      StripField(current, defaults, k).value;
    assert next == Next(current, defaults);
    assert forall k | k in current.fields && Kept(current, defaults, k) :: k in next;
  }

  function KeptField(t: Option<Tree>, key: string): Option<Tree> {
    if t.Some? && t.value.Object? then Field(t.value.fields, key) else None
  }

  /** The five settings that are compared as a whole. */
  lemma AtomicKeys(key: string)
    ensures key in ATOMIC <==>
              || key == "backgroundActivity" || key == "automaticGitFetchInterval"
              || key == "providerHealthRefreshInterval" || key == "sourceControlWriterModelSelection"
              || key == "textGenerationModelSelection"
  {
  }

  /** Of two objects, what is under one of the five atomic keys is kept whole, or dropped
      when it equals its default; what is under another key is itself stripped. */
  lemma AtomicIsWhole(current: Tree, defaults: Tree, key: string)
    requires current.Object? && defaults.Object? && key in current.fields
    ensures var value, whole := current.fields[key], Field(defaults.fields, key);
            KeptField(Strip(current, Some(defaults)), key) ==
              if key in ATOMIC then (if Some(value) == whole then None else Some(value))
              else Strip(value, whole)
  {
    StripsField(current, defaults, key);
  }

  lemma StripsField(current: Tree, defaults: Tree, key: string)
    requires current.Object? && defaults.Object? && key in current.fields
    ensures KeptField(Strip(current, Some(defaults)), key) == StripField(current, defaults, key)
  {
    StripObject(current, defaults);
    assert key in Next(current, defaults) <==> StripField(current, defaults, key).Some?;
  }

  lemma NoDefault(current: Tree)
    ensures Strip(current, None) == Some(current)
  {
  }

  lemma {:induction false} StripsSelf(t: Tree)
    ensures Strip(t, Some(t)) == None
  {
    if t.Object? {
      forall k | k in t.fields ensures !Kept(t, t, k) {
        StripsSelf(t.fields[k]);
      }
      StripObject(t, t);
    }
  }

  /** A tree that carries the defaults and strips to nothing is the defaults. */
  lemma {:induction false} NothingLeft(current: Tree, defaults: Tree)
    requires Strip(current, Some(defaults)) == None && Carries(current, defaults)
    ensures current == defaults
    decreases current
  {
    if BothObjects(current, Some(defaults)) {
      StripObject(current, defaults);
      forall k | k in current.fields ensures k in defaults.fields && current.fields[k] == defaults.fields[k] {
        FieldLeft(current, defaults, k);
        if k !in ATOMIC {
          NothingLeft(current.fields[k], defaults.fields[k]);
        }
      }
      assert current.fields == defaults.fields;
    }
  }

  lemma FieldLeft(current: Tree, defaults: Tree, k: string)
    requires current.Object? && defaults.Object? && k in current.fields && !Kept(current, defaults, k)
    ensures k in defaults.fields
    ensures if k in ATOMIC then current.fields[k] == defaults.fields[k]
            else Strip(current.fields[k], Some(defaults.fields[k])) == None
  {
    NoDefault(current.fields[k]);
  }

  /** Overlaying the stripped tree on the defaults gives back the tree exactly when the tree
      carries all the keys of the defaults. */
  lemma {:induction false} OverlayStrip(current: Tree, defaults: Tree)
    ensures Overlay(defaults, Strip(current, Some(defaults))) == current <==> Carries(current, defaults)
    decreases current
  {
    if BothObjects(current, Some(defaults)) {
      forall k | k in current.fields && k in defaults.fields
        ensures Overlay(defaults.fields[k], Strip(current.fields[k], Some(defaults.fields[k]))) == current.fields[k]
           <==> Carries(current.fields[k], defaults.fields[k])
      {
        OverlayStrip(current.fields[k], defaults.fields[k]);
      }
      StripObject(current, defaults);
      if Strip(current, Some(defaults)) == None {
        if Carries(current, defaults) {
          NothingLeft(current, defaults);
        }
        SelfCarries(defaults);
      } else {
        OverlayFields(current, defaults);
      }
    }
  }

  lemma {:induction false} SelfCarries(t: Tree)
    ensures Carries(t, t)
  {
    if t.Object? {
      forall k | k in t.fields ensures Carries(t.fields[k], t.fields[k]) {
        SelfCarries(t.fields[k]);
      }
    }
  }

  lemma OverlayFields(current: Tree, defaults: Tree)
    requires current.Object? && defaults.Object?
    requires forall k | k in current.fields && k in defaults.fields ::
               Overlay(defaults.fields[k], Strip(current.fields[k], Some(defaults.fields[k]))) == current.fields[k]
               <==> Carries(current.fields[k], defaults.fields[k])
    ensures Over(defaults, Object(Next(current, defaults))) == current <==> Carries(current, defaults)
  {
    var sparse := Object(Next(current, defaults));
    var over := Over(defaults, sparse);
    forall k | k in current.fields
      ensures k in over.fields
      ensures over.fields[k] == current.fields[k]
         <==> (k in defaults.fields && k !in ATOMIC ==> Carries(current.fields[k], defaults.fields[k]))
    {
      OverlayOneField(current, defaults, k);
    }
    assert over.fields.Keys == defaults.fields.Keys + current.fields.Keys;
    if Carries(current, defaults) {
      assert over.fields == current.fields;
    } else {
      var k :| k in defaults.fields && !(k in current.fields && (k !in ATOMIC ==> Carries(current.fields[k], defaults.fields[k])));
      assert k in over.fields;
    }
  }

  lemma OverlayOneField(current: Tree, defaults: Tree, k: string)
    requires current.Object? && defaults.Object? && k in current.fields
    requires k in defaults.fields ==>
               (Overlay(defaults.fields[k], Strip(current.fields[k], Some(defaults.fields[k]))) == current.fields[k]
                <==> Carries(current.fields[k], defaults.fields[k]))
    ensures k in defaults.fields || k in Next(current, defaults)
    ensures OverField(defaults, Object(Next(current, defaults)), k) == current.fields[k]
       <==> (k in defaults.fields && k !in ATOMIC ==> Carries(current.fields[k], defaults.fields[k]))
  {
    NoDefault(current.fields[k]);
    var field := StripField(current, defaults, k);
    assert k in Next(current, defaults) <==> field.Some?;
    assert field.Some? ==> Next(current, defaults)[k] == field.value;
  }

  // ---------------------------------------------------------------- nothing more is kept

  /** What a stripped tree may hold: of an object laid over an object only fields that are
      themselves such, and otherwise only values that differ from their defaults. */
  ghost predicate Sparse(t: Tree, defaults: Option<Tree>)
    decreases t
  {
    if BothObjects(t, defaults) then
      && t.fields != map[]
      && forall k | k in t.fields ::
           if k in ATOMIC then Some(t.fields[k]) != Field(defaults.value.fields, k)
           else Sparse(t.fields[k], Field(defaults.value.fields, k))
    else Some(t) != defaults
  }

  /** No leaf, array or atomic value that equals its default is kept, and no empty object
      whose default is an object. */
  lemma {:induction false} StripIsSparse(current: Tree, defaults: Option<Tree>)
    ensures Strip(current, defaults).Some? ==> Sparse(Strip(current, defaults).value, defaults)
    decreases current
  {
    if BothObjects(current, defaults) {
      StripObject(current, defaults.value);
      var next := Next(current, defaults.value);
      forall k | k in next
        ensures if k in ATOMIC then Some(next[k]) != Field(defaults.value.fields, k)
                else Sparse(next[k], Field(defaults.value.fields, k))
      {
        StripIsSparse(current.fields[k], Field(defaults.value.fields, k));
      }
    }
  }

  /** Every field of one tree is one of the other, as far as the defaults have objects. */
  ghost predicate Within(a: Tree, b: Tree, defaults: Tree)
    decreases a
  {
    a.Object? && b.Object? && defaults.Object? ==>
      forall k | k in a.fields ::
        k in b.fields && (k in defaults.fields && k !in ATOMIC ==> Within(a.fields[k], b.fields[k], defaults.fields[k]))
  }

  /** The stripped tree is the least of all trees that overlay to the same settings. */
  lemma {:induction false} StripIsLeast(current: Tree, defaults: Tree, other: Tree)
    requires Over(defaults, other) == current
    ensures Strip(current, Some(defaults)).Some? ==> Within(Strip(current, Some(defaults)).value, other, defaults)
    decreases current
  {
    if BothObjects(current, Some(defaults)) && other.Object? {
      StripObject(current, defaults);
      var next := Next(current, defaults);
      forall k | k in next
        ensures k in other.fields
        ensures k in defaults.fields && k !in ATOMIC ==> Within(next[k], other.fields[k], defaults.fields[k])
      {
        assert current.fields[k] == OverField(defaults, other, k);
        if k !in other.fields {
          StripsSelf(defaults.fields[k]);
        } else if k in defaults.fields && k !in ATOMIC {
          StripIsLeast(current.fields[k], defaults.fields[k], other.fields[k]);
        }
      }
    }
  }

  // ---------------------------------------------------------------- the loop

  /** The recursive function of the source, which fills `next` key by key. */
  method StripDefaultServerSettings(current: Tree, defaults: Option<Tree>) returns (r: Option<Tree>)
    ensures r == Strip(current, defaults)
    decreases current
  {
    if current.List? || (defaults.Some? && defaults.value.List?) {
      return if Some(current) == defaults then None else Some(current);
    }
    if current.Object? && defaults.Some? && defaults.value.Object? {
      var currentRecord, defaultsRecord := current.fields, defaults.value.fields;
      var next: map<string, Tree> := map[];
      var keys := currentRecord.Keys;
      while keys != {}
        invariant keys <= currentRecord.Keys
        invariant forall k :: k in next <==> k in currentRecord && k !in keys && Kept(current, defaults.value, k)
        invariant forall k | k in next :: next[k] == StripField(current, defaults.value, k).value
        decreases |keys|
      {
        var key :| key in keys;
        if key in ATOMIC {
          if Some(currentRecord[key]) != Field(defaultsRecord, key) {
            next := next[key := currentRecord[key]];
          }
        } else {
          var stripped := StripDefaultServerSettings(currentRecord[key], Field(defaultsRecord, key));
          if stripped.Some? {
            next := next[key := stripped.value];
          }
        }
        keys := keys - {key};
      }
      assert next == Next(current, defaults.value);
      StripObject(current, defaults.value);
      return if next != map[] then Some(Object(next)) else None;
    }
    r := if Some(current) == defaults then None else Some(current);
  }
}
