/** Texts in the order Rust compares them: character by character, a prefix first. */
module Ordering {

  predicate Below(a: string, b: string) {
    if b == [] then false
    else if a == [] then true
    else if a[0] != b[0] then a[0] < b[0]
    else Below(a[1..], b[1..])
  }

  lemma {:induction false} BelowIsTransitive(a: string, b: string, c: string)
    requires Below(a, b) && Below(b, c)
    ensures Below(a, c)
    decreases |a|
  {
    if a != [] && a[0] == b[0] == c[0] {
      BelowIsTransitive(a[1..], b[1..], c[1..]);
    }
  }

  /** Exactly one of two texts that differ is below the other. */
  lemma {:induction false} BelowIsTotal(a: string, b: string)
    ensures !(Below(a, b) && Below(b, a))
    ensures a == b || Below(a, b) || Below(b, a)
    ensures a == b ==> !Below(a, b)
    decreases |a|
  {
    if a != [] && b != [] && a[0] == b[0] {
      BelowIsTotal(a[1..], b[1..]);
      assert a == [a[0]] + a[1..] && b == [b[0]] + b[1..];
    }
  }

  ghost predicate Increasing(names: seq<string>) {
    forall i, j :: 0 <= i < j < |names| ==> Below(names[i], names[j])
  }

  function Insert(names: seq<string>, name: string): seq<string> {
    if names == [] || Below(name, names[0]) then [name] + names
    else [names[0]] + Insert(names[1..], name)
  }

  lemma {:induction false} InsertKeepsOrder(names: seq<string>, name: string)
    requires Increasing(names) && name !in names
    ensures Increasing(Insert(names, name))
    ensures forall n :: n in Insert(names, name) <==> n in names || n == name
    decreases |names|
  {
    if names == [] {
    } else if Below(name, names[0]) {
      forall j | 1 <= j < |names| ensures Below(name, names[j]) {
        BelowIsTransitive(name, names[0], names[j]);
      }
    } else {
      BelowIsTotal(name, names[0]);
      InsertKeepsOrder(names[1..], name);
      var rest := Insert(names[1..], name);
      forall j | 0 <= j < |rest| ensures Below(names[0], rest[j]) {
        assert rest[j] in rest;
        if rest[j] != name {
          var k :| 0 <= k < |names[1..]| && names[1..][k] == rest[j];
          assert names[k + 1] == rest[j];
        }
      }
      assert names == [names[0]] + names[1..];
    }
  }

  /** The names of a set in order. */
  method Sort(names: set<string>) returns (sorted: seq<string>)
    ensures Increasing(sorted)
    ensures forall n :: n in sorted <==> n in names
  {
    sorted := [];
    var rest := names;
    while rest != {}
      invariant rest <= names
      invariant Increasing(sorted)
      invariant forall n :: n in sorted <==> n in names && n !in rest
      decreases rest
    {
      var name :| name in rest;
      InsertKeepsOrder(sorted, name);
      sorted := Insert(sorted, name);
      rest := rest - {name};
    }
  }

  /** There is only one way to write a set in order. */
  lemma {:induction false} OrderIsUnique(a: seq<string>, b: seq<string>)
    requires Increasing(a) && Increasing(b)
    requires forall n :: n in a <==> n in b
    ensures a == b
    decreases |a|
  {
    if b != [] {
      assert b[0] in b;
    }
    if a != [] {
      assert a[0] in a && b != [];
      BelowIsTotal(a[0], b[0]);
      assert a[0] == b[0];
      forall n ensures n in a[1..] <==> n in b[1..] {
        SplitMembership(a, n);
        SplitMembership(b, n);
      }
      OrderIsUnique(a[1..], b[1..]);
      assert a == [a[0]] + a[1..] && b == [b[0]] + b[1..];
    }
  }

  lemma SplitMembership(a: seq<string>, n: string)
    requires Increasing(a) && a != []
    ensures n in a[1..] <==> n in a && n != a[0]
  {
    BelowIsTotal(n, a[0]);
  }
}
