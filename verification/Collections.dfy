/** Lookups in finite maps, the size of a subset, and what is picked from a sequence. */
module Collections {
  import opened Outcomes

  function Get<K, V>(m: map<K, V>, k: K): Option<V> {
    if k in m then Some(m[k]) else None
  }

  /** The map with `k` bound to the value, or unbound. */
  function Bind<K(!new), V>(m: map<K, V>, k: K, value: Option<V>): (r: map<K, V>)
    ensures Get(r, k) == value
    ensures forall n | n != k :: Get(r, n) == Get(m, n)
  {
    if value.Some? then m[k := value.value] else m - {k}
  }

  lemma SubsetCount<T>(a: set<T>, b: set<T>)
    requires a <= b
    ensures |a| <= |b|
  {
    assert b == a + (b - a);
  }

  /** `ys` are the results of `f` on the elements of `xs` that have one, in order; `at` says
      where they come from. */
  ghost predicate Selected<A, B>(f: A -> Option<B>, xs: seq<A>, ys: seq<B>, at: seq<nat>) {
    && |at| == |ys|
    && (forall i | 0 <= i < |at| :: at[i] < |xs| && f(xs[at[i]]) == Some(ys[i]))
    && (forall i, j | 0 <= i < j < |at| :: at[i] < at[j])
    && (forall k | 0 <= k < |xs| && f(xs[k]).Some? :: k in at)
  }

  lemma SelectedNext<A, B>(f: A -> Option<B>, xs: seq<A>, ys: seq<B>, at: seq<nat>)
    requires xs != [] && Selected(f, xs[..|xs| - 1], ys, at)
    ensures var last := f(xs[|xs| - 1]);
            if last.Some? then Selected(f, xs, ys + [last.value], at + [|xs| - 1]) else Selected(f, xs, ys, at)
  {
    var n := |xs| - 1;
    assert forall k | 0 <= k < n :: xs[..n][k] == xs[k];
  }

  /** The first and the last element that is picked. */
  lemma SelectedEnds<A, B>(f: A -> Option<B>, xs: seq<A>, ys: seq<B>, at: seq<nat>) returns (i: nat, j: nat)
    requires Selected(f, xs, ys, at) && |ys| >= 2
    ensures i < j < |xs| && f(xs[i]) == Some(ys[0]) && f(xs[j]) == Some(ys[|ys| - 1])
    ensures forall k | 0 <= k < i || j < k < |xs| :: f(xs[k]).None?
  {
    i, j := at[0], at[|at| - 1];
    forall k | 0 <= k < |xs| && f(xs[k]).Some? ensures i <= k <= j {
      var x :| 0 <= x < |at| && at[x] == k;
    }
  }

  lemma EndsSelected<A, B>(f: A -> Option<B>, xs: seq<A>, ys: seq<B>, at: seq<nat>, i: nat, j: nat)
    requires Selected(f, xs, ys, at) && i < j < |xs| && f(xs[i]).Some? && f(xs[j]).Some?
    requires forall k | 0 <= k < i || j < k < |xs| :: f(xs[k]).None?
    ensures |ys| >= 2 && f(xs[i]) == Some(ys[0]) && f(xs[j]) == Some(ys[|ys| - 1])
  {
    var x :| 0 <= x < |at| && at[x] == i;
    var y :| 0 <= y < |at| && at[y] == j;
    assert f(xs[at[0]]).Some? && f(xs[at[|at| - 1]]).Some?;
  }

  /** The results of `f` on the elements that have one. */
  function Pick<A, B>(f: A -> Option<B>, xs: seq<A>): seq<B> {
    if xs == [] then []
    else
      var rest := Pick(f, xs[1..]);
      if f(xs[0]).Some? then [f(xs[0]).value] + rest else rest
  }

  lemma {:induction false} PickLast<A, B>(f: A -> Option<B>, xs: seq<A>)
    requires xs != []
    ensures var last := f(xs[|xs| - 1]);
            Pick(f, xs) == if last.Some? then Pick(f, xs[..|xs| - 1]) + [last.value] else Pick(f, xs[..|xs| - 1])
  {
    if |xs| > 1 {
      PickLast(f, xs[1..]);
      assert xs[..|xs| - 1][1..] == xs[1..][..|xs| - 2];
    }
  }

  lemma {:induction false} PickMeans<A, B>(f: A -> Option<B>, xs: seq<A>) returns (at: seq<nat>)
    ensures Selected(f, xs, Pick(f, xs), at)
  {
    at := [];
    if xs != [] {
      var n := |xs| - 1;
      at := PickMeans(f, xs[..n]);
      PickLast(f, xs);
      SelectedNext(f, xs, Pick(f, xs[..n]), at);
      if f(xs[n]).Some? {
        at := at + [n];
      }
    }
  }
}
