/** Browser storage that may fail, shadowed by memory
    (apps/web/src/browserFaviconStore.ts: `resolveBrowserFaviconStorage`). */
module ShadowStorage {
  import opened Collections
  import opened Outcomes

  type Items = map<string, string>

  /** One call on the wrapper. A primary write or removal that throws may have left
      anything under the name, as `left` says. */
  datatype Op =
    | Set(name: string, value: string, throws: bool, left: Option<string>)
    | Remove(name: string, throws: bool, left: Option<string>)
  {
    /** The value the call is to leave behind. */
    function Wanted(): Option<string> {
      if Set? then Some(value) else None
    }
  }

  /** The wrapper's memory, the names it shadows, and the storage it wraps. */
  datatype Storage = Storage(primary: Items, fallback: Items, shadowed: set<string>)

  function Apply(s: Storage, op: Op): Storage {
    var fallback := Bind(s.fallback, op.name, op.Wanted());
    if op.throws
    then Storage(Bind(s.primary, op.name, op.left), fallback, s.shadowed + {op.name})
    else Storage(Bind(s.primary, op.name, op.Wanted()), fallback, s.shadowed - {op.name})
  }

  function GetItem(s: Storage, name: string, throws: bool): Option<string> {
    if name in s.shadowed || throws then Get(s.fallback, name) else Get(s.primary, name)
  }

  function ApplyAll(s: Storage, ops: seq<Op>): Storage {
    if ops == [] then s else Apply(ApplyAll(s, ops[..|ops| - 1]), ops[|ops| - 1])
  }

  // ---------------------------------------------------------------- the plain map

  /** The state of the storage when a page starts with `items` in its primary storage. */
  function Fresh(items: Items): Storage {
    Storage(items, map[], {})
  }

  predicate Touched(ops: seq<Op>, name: string) {
    exists i | 0 <= i < |ops| :: ops[i].name == name
  }

  /** What a map that never fails would hold. */
  function Plain(items: Items, ops: seq<Op>): Items {
    if ops == [] then items
    else Bind(Plain(items, ops[..|ops| - 1]), ops[|ops| - 1].name, ops[|ops| - 1].Wanted())
  }

  ghost predicate Shadows(items: Items, ops: seq<Op>, s: Storage) {
    forall name ::
      var wanted := Get(Plain(items, ops), name);
      if Touched(ops, name)
      then Get(s.fallback, name) == wanted && (name !in s.shadowed ==> Get(s.primary, name) == wanted)
      else name !in s.fallback && name !in s.shadowed && Get(s.primary, name) == Get(items, name) == wanted
  }

  lemma TouchedStep(ops: seq<Op>, name: string)
    requires ops != []
    ensures Touched(ops, name) <==> Touched(ops[..|ops| - 1], name) || ops[|ops| - 1].name == name
  {
    var before := ops[..|ops| - 1];
    assert ops == before + [ops[|ops| - 1]];
    if Touched(before, name) {
      var i :| 0 <= i < |before| && before[i].name == name;
      assert ops[i].name == name;
    }
  }

  lemma {:induction false} AlwaysShadows(items: Items, ops: seq<Op>)
    ensures Shadows(items, ops, ApplyAll(Fresh(items), ops))
  {
    if ops != [] {
      var before := ops[..|ops| - 1];
      AlwaysShadows(items, before);
      forall name {
        TouchedStep(ops, name);
      }
      assert forall name :: Touched(ops, name) <==> Touched(before, name) || ops[|ops| - 1].name == name;
    }
  }

  /** Whichever primary reads, writes and removals fail, reading a name touched in this
      session returns the value last set, or nothing if it was last removed; an untouched
      name reads as the primary has it unless that very read fails. */
  lemma RefinesPlainMap(items: Items, ops: seq<Op>, name: string, throws: bool)
    ensures var read := GetItem(ApplyAll(Fresh(items), ops), name, throws);
            if Touched(ops, name) || !throws then read == Get(Plain(items, ops), name) else read == None
  {
    AlwaysShadows(items, ops);
  }

  /** What the plain map holds under a touched name is what its last call wanted. */
  lemma {:induction false} LastCallWins(items: Items, ops: seq<Op>, i: nat)
    requires i < |ops| && forall j | i < j < |ops| :: ops[j].name != ops[i].name
    ensures Get(Plain(items, ops), ops[i].name) == ops[i].Wanted()
  {
    if i < |ops| - 1 {
      LastCallWins(items, ops[..|ops| - 1], i);
    }
  }

  // ---------------------------------------------------------------- the objects

  /** `window.localStorage`: any call may throw. Its `n`-th call does so when `fails(n)`, and
      what a write or removal that throws leaves under the name is `leaves(n)`. */
  class LocalStorage {
    var items: Items
    var calls: nat
    const fails: nat -> bool
    const leaves: nat -> Option<string>

    constructor (items: Items, fails: nat -> bool, leaves: nat -> Option<string>)
      ensures this.items == items && calls == 0 && this.fails == fails && this.leaves == leaves
    {
      this.items, calls, this.fails, this.leaves := items, 0, fails, leaves;
    }

    method GetItem(name: string) returns (r: Result<Option<string>, ()>)
      modifies this`calls
      ensures calls == old(calls) + 1
      ensures r == if fails(old(calls)) then Err(()) else Ok(Get(items, name))
    {
      r := if fails(calls) then Err(()) else Ok(Get(items, name));
      calls := calls + 1;
    }

    method SetItem(name: string, value: string) returns (threw: bool)
      modifies this
      ensures calls == old(calls) + 1 && threw == fails(old(calls))
      ensures items == Bind(old(items), name, if threw then leaves(old(calls)) else Some(value))
    {
      threw := fails(calls);
      items := Bind(items, name, if threw then leaves(calls) else Some(value));
      calls := calls + 1;
    }

    method RemoveItem(name: string) returns (threw: bool)
      modifies this
      ensures calls == old(calls) + 1 && threw == fails(old(calls))
      ensures items == Bind(old(items), name, if threw then leaves(old(calls)) else None)
    {
      threw := fails(calls);
      items := Bind(items, name, if threw then leaves(calls) else None);
      calls := calls + 1;
    }
  }

  /** The object `resolveBrowserFaviconStorage` returns when there is a window. */
  class BrowserFaviconStorage {
    const primary: LocalStorage
    var fallback: Items
    var shadowedNames: set<string>
    ghost const initial: Items
    ghost var ops: seq<Op>

    ghost predicate Valid()
      reads this, primary
    {
      Storage(primary.items, fallback, shadowedNames) == ApplyAll(Fresh(initial), ops)
    }

    constructor (primary: LocalStorage)
      ensures Valid() && this.primary == primary && initial == primary.items && ops == []
    {
      this.primary := primary;
      initial := primary.items;
      fallback := map[];
      shadowedNames := {};
      ops := [];
    }

    /** The primary storage is asked unless the name is shadowed; only when the name is
        untouched and that very read throws does the answer differ from the plain map's. */
    method GetItem(name: string) returns (r: Option<string>)
      requires Valid()
      modifies primary`calls
      ensures Valid()
      ensures primary.calls == old(primary.calls) + if name in shadowedNames then 0 else 1
      ensures r == if Touched(ops, name) || !primary.fails(old(primary.calls))
                   then Get(Plain(initial, ops), name) else None
    {
      AlwaysShadows(initial, ops);
      if name in shadowedNames {
        return Get(fallback, name);
      }
      var read := primary.GetItem(name);
      match read
      case Ok(value) => r := value;
      case Err(_) => r := Get(fallback, name);
    }

    method SetItem(name: string, value: string)
      requires Valid()
      modifies this, primary
      ensures Valid() && primary.calls == old(primary.calls) + 1
      ensures var n := old(primary.calls);
              ops == old(ops) + [Op.Set(name, value, primary.fails(n), primary.leaves(n))]
    {
      ghost var n := primary.calls;
      fallback := Bind(fallback, name, Some(value));
      var threw := primary.SetItem(name, value);
      if threw {
        shadowedNames := shadowedNames + {name};
      } else {
        shadowedNames := shadowedNames - {name};
      }
      ops := ops + [Op.Set(name, value, threw, primary.leaves(n))];
      assert ops[..|ops| - 1] == old(ops);
    }

    method RemoveItem(name: string)
      requires Valid()
      modifies this, primary
      ensures Valid() && primary.calls == old(primary.calls) + 1
      ensures var n := old(primary.calls);
              ops == old(ops) + [Op.Remove(name, primary.fails(n), primary.leaves(n))]
    {
      ghost var n := primary.calls;
      fallback := Bind(fallback, name, None);
      var threw := primary.RemoveItem(name);
      if threw {
        shadowedNames := shadowedNames + {name};
      } else {
        shadowedNames := shadowedNames - {name};
      }
      ops := ops + [Op.Remove(name, threw, primary.leaves(n))];
      assert ops[..|ops| - 1] == old(ops);
    }
  }
}
