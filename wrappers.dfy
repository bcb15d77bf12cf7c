/** The optional-value type used wherever the source returns `None`, and its list helper. */
module Wrappers {

  datatype Option<+T> = None | Some(value: T)

  /** The values of the `Some` entries, in order: a list comprehension with an `if`. */
  function Somes<T>(xs: seq<Option<T>>): (r: seq<T>)
    ensures |r| <= |xs|
    decreases |xs|
  {
    if xs == [] then []
    else Somes(xs[..|xs| - 1]) + match xs[|xs| - 1] case Some(v) => [v] case None => []
  }

  lemma {:induction false} SomesAppend<T>(a: seq<Option<T>>, b: seq<Option<T>>)
    ensures Somes(a + b) == Somes(a) + Somes(b)
    decreases |b|
  {
    if b == [] {
      assert a + b == a;
    } else {
      var b' := b[..|b| - 1];
      assert (a + b)[..|a + b| - 1] == a + b';
      SomesAppend(a, b');
    }
  }

  /** Somes keeps exactly the `Some` values: each comes from an entry, each entry is kept. */
  lemma {:induction false} SomesMembers<T>(xs: seq<Option<T>>)
    ensures forall v :: v in Somes(xs) <==> Some(v) in xs
    decreases |xs|
  {
    if xs != [] {
      var init := xs[..|xs| - 1];
      SomesMembers(init);
      assert xs == init + [xs[|xs| - 1]];
    }
  }

  /** The first kept value comes from the first `Some` entry. */
  lemma SomesFirst<T>(xs: seq<Option<T>>, i: nat)
    requires i < |xs| && xs[i].Some?
    requires forall j | 0 <= j < i :: xs[j].None?
    ensures Somes(xs) != [] && Somes(xs)[0] == xs[i].value
  {
    assert xs == xs[..i] + [xs[i]] + xs[i + 1..];
    SomesAppend(xs[..i] + [xs[i]], xs[i + 1..]);
    SomesAppend(xs[..i], [xs[i]]);
    SomesNone(xs[..i]);
    assert [xs[i]][..0] == [];
  }

  lemma {:induction false} SomesNone<T>(xs: seq<Option<T>>)
    requires forall j | 0 <= j < |xs| :: xs[j].None?
    ensures Somes(xs) == []
    decreases |xs|
  {
    if xs != [] {
      SomesNone(xs[..|xs| - 1]);
    }
  }
}
