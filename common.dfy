/** Shared vocabulary: identifiers, optional values, the facade's error
    outcomes, JavaScript truthiness of a nullable string, and the array
    `filter` that every remove operation of the facade uses. */
module Common {

  /** Entity ids are strings (UUIDs in the store), compared with `===`. */
  type Id = string

  datatype Option<+T> = None | Some(value: T)

  /** What a rejected promise carries back to the facade's caller. */
  datatype Error =
    | StoreRejected        // the backing store's promise rejected
    | TypeError            // a JavaScript TypeError raised by the facade's own code
    | ConnectionFailed     // `init` could not authenticate against the store

  /** The settled value of one of the facade's async methods. */
  datatype Outcome<+T> = Ok(value: T) | Threw(error: Error)

  /** JavaScript truthiness of a value of type `string | null`: null and the
      empty string are falsy. */
  predicate Truthy(s: Option<string>)
  {
    s.Some? && s.value != ""
  }

  /** Array.prototype.filter: the elements that `keep` accepts, in order. */
  function Filter<T>(s: seq<T>, keep: T -> bool): (r: seq<T>)
    ensures |r| <= |s|
    ensures forall x :: x in r ==> x in s && keep(x)
    ensures forall x :: x in s && keep(x) ==> multiset(r)[x] == multiset(s)[x]
  {
    if s == [] then []
    else
      var rest := Filter(s[1..], keep);
      assert s == [s[0]] + s[1..];
      if keep(s[0]) then [s[0]] + rest else rest
  }

  /** `r` can be obtained from `s` by deleting elements: relative order is kept. */
  predicate IsSubsequence<T(==)>(r: seq<T>, s: seq<T>)
    decreases |s|
  {
    r == [] ||
    (s != [] && if r[0] == s[0] then IsSubsequence(r[1..], s[1..]) else IsSubsequence(r, s[1..]))
  }

  lemma {:induction false} FilterIsSubsequence<T>(s: seq<T>, keep: T -> bool)
    ensures IsSubsequence(Filter(s, keep), s)
  {
    if s != [] {
      FilterIsSubsequence(s[1..], keep);
      var r := Filter(s, keep);
      if keep(s[0]) {
        assert r[0] == s[0] && r[1..] == Filter(s[1..], keep);
      } else if r != [] {
        assert r[0] in r;
        assert r[0] != s[0];
      }
    }
  }

  lemma {:induction false} FilterAppend<T>(s: seq<T>, t: seq<T>, keep: T -> bool)
    ensures Filter(s + t, keep) == Filter(s, keep) + Filter(t, keep)
  {
    if s == [] {
      assert s + t == t;
    } else {
      assert (s + t)[1..] == s[1..] + t;
      FilterAppend(s[1..], t, keep);
    }
  }

  /** `list.filter(x => x.id !== id)`: `idOf` reads the element's `id`
      property, which is `undefined` (None) on elements that have none. */
  function RemoveId<T(==)>(s: seq<T>, idOf: T -> Option<Id>, id: Id): (r: seq<T>)
    ensures forall x :: x in r ==> idOf(x) != Some(id)
    ensures forall x :: x in s && idOf(x) != Some(id) ==> multiset(r)[x] == multiset(s)[x]
    ensures forall x :: idOf(x) == Some(id) ==> x !in r
    ensures IsSubsequence(r, s)
  {
    FilterIsSubsequence(s, x => idOf(x) != Some(id));
    Filter(s, x => idOf(x) != Some(id))
  }

  /** Removing by the id of an element just appended, when no earlier element
      carries that id, undoes the append. */
  lemma RemoveIdUndoesAppend<T>(s: seq<T>, x: T, idOf: T -> Option<Id>, id: Id)
    requires idOf(x) == Some(id)
    requires forall y :: y in s ==> idOf(y) != Some(id)
    ensures RemoveId(s + [x], idOf, id) == s
  {
    var keep := y => idOf(y) != Some(id);
    FilterAppend(s, [x], keep);
    FilterKeepsAll(s, keep);
    assert [x][1..] == [];
  }

  lemma {:induction false} FilterKeepsAll<T>(s: seq<T>, keep: T -> bool)
    requires forall y :: y in s ==> keep(y)
    ensures Filter(s, keep) == s
  {
    if s != [] {
      assert s[0] in s;
      assert forall y :: y in s[1..] ==> y in s;
      FilterKeepsAll(s[1..], keep);
    }
  }
}
