/**
 * Canonical string lists: `sortedUnique` (the agent's and the server's copies are the same
 * text) and the server's `sameStringSet`. Both are specified by the set of strings a list
 * holds; the strictly sorted list with a given set of elements is unique.
 */
module StringSets {

  /** Go's string order: byte-wise lexicographic. */
  predicate Le(a: string, b: string) {
    a == [] || (b != [] && (a[0] < b[0] || (a[0] == b[0] && Le(a[1..], b[1..]))))
  }

  lemma LeTotal(a: string, b: string)
    ensures Le(a, b) || Le(b, a)
  {
  }

  lemma {:induction false} LeAntisymmetric(a: string, b: string)
    requires Le(a, b) && Le(b, a)
    ensures a == b
  {
    if a != [] {
      LeAntisymmetric(a[1..], b[1..]);
      assert a == [a[0]] + a[1..] && b == [b[0]] + b[1..];
    }
  }

  lemma LeTransitive(a: string, b: string, c: string)
    requires Le(a, b) && Le(b, c)
    ensures Le(a, c)
  {
    if a != [] && a[0] == b[0] == c[0] {
      LeTransitive(a[1..], b[1..], c[1..]);
    }
  }

  function Elements(xs: seq<string>): set<string> {
    set x | x in xs
  }

  ghost predicate Sorted(xs: seq<string>) {
    forall i, j | 0 <= i < j < |xs| :: Le(xs[i], xs[j])
  }

  ghost predicate Distinct(xs: seq<string>) {
    forall i, j | 0 <= i < j < |xs| :: xs[i] != xs[j]
  }

  /** The canonical form of a list: sorted, without repeats, same strings. */
  ghost predicate Canonical(out: seq<string>, xs: seq<string>) {
    Sorted(out) && Distinct(out) && Elements(out) == Elements(xs)
  }

  lemma {:induction false} CanonicalIsUnique(a: seq<string>, b: seq<string>)
    requires Sorted(a) && Distinct(a) && Sorted(b) && Distinct(b)
    requires Elements(a) == Elements(b)
    ensures a == b
    decreases |a|
  {
    EmptyElements(a);
    EmptyElements(b);
    if a != [] {
      assert a[0] in Elements(b);
      assert b != [] && b[0] in Elements(a);
      var i :| 0 <= i < |b| && b[i] == a[0];
      var j :| 0 <= j < |a| && a[j] == b[0];
      LeTotal(a[0], a[0]);
      assert Le(b[0], a[0]) && Le(a[0], b[0]) by {
        if i == 0 || j == 0 { assert a[0] == b[0]; }
      }
      LeAntisymmetric(a[0], b[0]);
      assert Elements(a[1..]) == Elements(a) - {a[0]} by { TailElements(a); }
      assert Elements(b[1..]) == Elements(b) - {b[0]} by { TailElements(b); }
      CanonicalIsUnique(a[1..], b[1..]);
      assert a == [a[0]] + a[1..] && b == [b[0]] + b[1..];
    }
  }

  lemma EmptyElements(a: seq<string>)
    ensures a == [] <==> Elements(a) == {}
  {
    if a != [] { assert a[0] in Elements(a); }
  }

  lemma TailElements(a: seq<string>)
    requires a != [] && Distinct(a)
    ensures Elements(a[1..]) == Elements(a) - {a[0]}
  {
    forall x ensures x in Elements(a[1..]) <==> x in Elements(a) - {a[0]} {
      if x in Elements(a) && x != a[0] {
        var i :| 0 <= i < |a| && a[i] == x;
        assert a[1..][i - 1] == x;
      }
      if x in Elements(a[1..]) {
        var i :| 0 <= i < |a[1..]| && a[1..][i] == x;
        assert a[i + 1] == x;
      }
    }
  }

  /** The library's `sort.Strings`, as an insertion sort. */
  function Sort(xs: seq<string>): seq<string> {
    if xs == [] then [] else Place(xs[0], Sort(xs[1..]))
  }

  lemma {:induction false} SortOfDistinct(xs: seq<string>)
    requires Distinct(xs)
    ensures Sort(xs) == CanonicalList(xs)
  {
    if xs != [] {
      SortOfDistinct(xs[1..]);
      CanonicalListIsCanonical(xs[1..]);
      var rest := CanonicalList(xs[1..]);
      assert xs[0] !in rest by {
        assert xs[0] !in Elements(xs[1..]);
      }
    }
  }

  /** `sortedUnique`: drop repeats keeping first occurrences, then sort. */
  method SortedUnique(xs: seq<string>) returns (out: seq<string>)
    ensures Canonical(out, xs)
    ensures out == CanonicalList(xs)
  {
    out := [];
    var seen: set<string> := {};
    for i := 0 to |xs|
      invariant seen == Elements(out) == Elements(xs[..i])
      invariant Distinct(out)
    {
      assert xs[..i + 1] == xs[..i] + [xs[i]];
      if xs[i] !in seen {
        seen := seen + {xs[i]};
        out := out + [xs[i]];
      }
    }
    assert xs[..|xs|] == xs;
    SortOfDistinct(out);
    CanonicalListIsCanonical(out);
    CanonicalListIsCanonical(xs);
    CanonicalIsUnique(CanonicalList(out), CanonicalList(xs));
    out := Sort(out);
  }

  /** The canonical list as a value, for specifications. */
  function CanonicalList(xs: seq<string>): seq<string> {
    if xs == [] then []
    else
      var rest := CanonicalList(xs[1..]);
      if xs[0] in rest then rest else Place(xs[0], rest)
  }

  function Place(x: string, s: seq<string>): seq<string> {
    if s == [] then [x]
    else if Le(x, s[0]) then [x] + s
    else [s[0]] + Place(x, s[1..])
  }

  lemma {:induction false} PlaceKeepsCanonical(x: string, s: seq<string>)
    requires Sorted(s) && Distinct(s) && x !in s
    ensures Canonical(Place(x, s), [x] + s)
  {
    var r := Place(x, s);
    if s == [] {
    } else if Le(x, s[0]) {
      forall i | 0 <= i < |s| ensures Le(x, s[i]) {
        if i > 0 { LeTransitive(x, s[0], s[i]); }
      }
    } else {
      LeTotal(x, s[0]);
      PlaceKeepsCanonical(x, s[1..]);
      var t := Place(x, s[1..]);
      assert Elements(t) == Elements([x] + s[1..]);
      forall i | 0 <= i < |t| ensures Le(s[0], t[i]) && s[0] != t[i] {
        assert t[i] in Elements(t);
        assert t[i] in [x] + s[1..];
      }
      assert Elements(r) == {s[0]} + Elements(t);
      assert s == [s[0]] + s[1..];
      assert Elements([x] + s) == {s[0]} + Elements([x] + s[1..]);
    }
  }

  lemma {:induction false} CanonicalListIsCanonical(xs: seq<string>)
    ensures Canonical(CanonicalList(xs), xs)
  {
    if xs != [] {
      CanonicalListIsCanonical(xs[1..]);
      var rest := CanonicalList(xs[1..]);
      assert xs == [xs[0]] + xs[1..];
      assert Elements(xs) == {xs[0]} + Elements(rest);
      if xs[0] in rest {
        assert Elements(xs) == Elements(rest);
      } else {
        PlaceKeepsCanonical(xs[0], rest);
        assert Elements([xs[0]] + rest) == Elements(xs);
      }
    }
  }

  /** The canonical form is a function of the set alone, and determines it. */
  lemma CanonicalIffSameSet(a: seq<string>, b: seq<string>)
    ensures CanonicalList(a) == CanonicalList(b) <==> Elements(a) == Elements(b)
  {
    CanonicalListIsCanonical(a);
    CanonicalListIsCanonical(b);
    if Elements(a) == Elements(b) {
      CanonicalIsUnique(CanonicalList(a), CanonicalList(b));
    }
  }

  /** `sameStringSet`: compare sizes, then look every key of one map up in the other. */
  method SameStringSet(a: seq<string>, b: seq<string>) returns (same: bool)
    ensures same <==> CanonicalList(a) == CanonicalList(b)
  {
    CanonicalIffSameSet(a, b);
    var ma := ToSet(a);
    var mb := ToSet(b);
    if |ma| != |mb| {
      return false;
    }
    var todo := ma;
    while todo != {}
      invariant todo <= ma && ma - todo <= mb
      decreases |todo|
    {
      var k :| k in todo;
      if k !in mb {
        return false;
      }
      todo := todo - {k};
    }
    assert ma <= mb;
    SubsetOfEqualSize(ma, mb);
    return true;
  }

  /** The local closure `in` of `sameStringSet`. */
  method ToSet(xs: seq<string>) returns (m: set<string>)
    ensures m == Elements(xs)
  {
    m := {};
    for i := 0 to |xs|
      invariant m == Elements(xs[..i])
    {
      assert xs[..i + 1] == xs[..i] + [xs[i]];
      m := m + {xs[i]};
    }
    assert xs[..|xs|] == xs;
  }

  lemma SubsetOfEqualSize(a: set<string>, b: set<string>)
    requires a <= b && |a| == |b|
    ensures a == b
  {
    assert b == a + (b - a);
  }
}
