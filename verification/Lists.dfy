/** What several modules say of lists. */
module Lists {
  function Last<T>(xs: seq<T>): T
    requires xs != []
  {
    xs[|xs| - 1]
  }

  function Front<T>(xs: seq<T>): seq<T>
    requires xs != []
  {
    xs[..|xs| - 1]
  }

  lemma Regroup<T>(a: seq<T>, b: seq<T>, c: seq<T>)
    ensures a + (b + c) == a + b + c
  {
  }

  lemma Around<T>(xs: seq<T>, i: nat)
    requires i < |xs|
    ensures xs == xs[..i] + [xs[i]] + xs[i + 1..] && xs[..i + 1] == xs[..i] + [xs[i]]
  {
  }

  ghost predicate Distinct<T>(xs: seq<T>) {
    forall i, j | 0 <= i < j < |xs| :: xs[i] != xs[j]
  }

  /** The names in order, without one of them. */
  function Without(names: seq<string>, name: string): (r: seq<string>)
    ensures |r| <= |names|
  {
    if names == [] then [] else (if names[0] == name then [] else [names[0]]) + Without(names[1..], name)
  }

  /** What is kept stays in its order: of two lists it is what it is of one and then of the other. */
  lemma {:induction false} WithoutAppend(a: seq<string>, b: seq<string>, name: string, other: string)
    ensures Without(a + b, name) == Without(a, name) + Without(b, name)
    ensures Without([other], name) == if other == name then [] else [other]
  {
    if a == [] {
      assert a + b == b && [other][1..] == [];
    } else {
      assert (a + b)[1..] == a[1..] + b;
      WithoutAppend(a[1..], b, name, other);
      Regroup(if a[0] == name then [] else [a[0]], Without(a[1..], name), Without(b, name));
    }
  }

  lemma {:induction false} WithoutMeans(names: seq<string>, name: string)
    requires Distinct(names)
    ensures Distinct(Without(names, name))
    ensures forall b :: b in Without(names, name) <==> b in names && b != name
    ensures |Without(names, name)| == if name in names then |names| - 1 else |names|
  {
    if names != [] {
      WithoutMeans(names[1..], name);
      assert names == [names[0]] + names[1..];
      assert names[0] !in names[1..];
    }
  }
}
