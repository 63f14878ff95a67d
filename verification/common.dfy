/** Shared value types: an optional value, standing for a JavaScript field that may be
    `undefined`/`null`, JavaScript truthiness of such a string, and the object spread
    `{ ...base, ...over }` on string-keyed records. */
module Common {

  datatype Option<T> = None | Some(value: T)

  /** JavaScript truthiness of an optional string: `undefined`, `null` and "" are falsy. */
  predicate Truthy(s: Option<string>)
  {
    s.Some? && s.value != ""
  }

  /** The value stored under `key`, if any. */
  function Get(m: map<string, string>, key: string): (r: Option<string>)
    ensures r.Some? <==> key in m
    ensures r.Some? ==> r.value == m[key]
  {
    if key in m then Some(m[key]) else None
  }

  /** `{ ...base, ...over }`: every key of either, the value from `over` where it has one. */
  function Spread(base: map<string, string>, over: map<string, string>): (r: map<string, string>)
    ensures r.Keys == base.Keys + over.Keys
    ensures forall k :: k in over ==> r[k] == over[k]
    ensures forall k :: k in base && k !in over ==> r[k] == base[k]
  {
    base + over
  }

  /** Spreading twice is spreading once with the later keys winning. */
  lemma SpreadAssociative(a: map<string, string>, b: map<string, string>, c: map<string, string>)
    ensures Spread(Spread(a, b), c) == Spread(a, Spread(b, c))
  {
  }

  /** Spreading the same change twice changes nothing the second time. */
  lemma SpreadIdempotent(a: map<string, string>, b: map<string, string>)
    ensures Spread(Spread(a, b), b) == Spread(a, b)
  {
  }
  /** `xs.filter(x => x.id !== id)`, with `idOf` reading an element's id: the
      elements whose id differs, in order. */
  function WithoutId<T(==,!new)>(xs: seq<T>, idOf: T -> int, id: int): (r: seq<T>)
    ensures forall x :: x in r <==> x in xs && idOf(x) != id
    ensures |r| <= |xs|
  {
    if xs == [] then []
    else (if idOf(xs[0]) != id then [xs[0]] else []) + WithoutId(xs[1..], idOf, id)
  }

  /** Removal distributes over concatenation, so the remaining elements keep their order. */
  lemma {:induction false} WithoutIdAppend<T(!new)>(a: seq<T>, b: seq<T>, idOf: T -> int, id: int)
    ensures WithoutId(a + b, idOf, id) == WithoutId(a, idOf, id) + WithoutId(b, idOf, id)
    decreases |a|
  {
    if a == [] {
      assert a + b == b;
    } else {
      assert (a + b)[0] == a[0];
      assert (a + b)[1..] == a[1..] + b;
      WithoutIdAppend(a[1..], b, idOf, id);
    }
  }

  /** Removing an id no element has changes nothing. */
  lemma {:induction false} WithoutAbsentId<T(!new)>(xs: seq<T>, idOf: T -> int, id: int)
    requires forall i :: 0 <= i < |xs| ==> idOf(xs[i]) != id
    ensures WithoutId(xs, idOf, id) == xs
    decreases |xs|
  {
    if xs != [] {
      WithoutAbsentId(xs[1..], idOf, id);
      assert [xs[0]] + xs[1..] == xs;
    }
  }
}
