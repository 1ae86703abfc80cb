/** Ordered lists of strings without repeats: what sorting and removing repeats gives, and what an
    ordered set lists. */
module SortedStrings {

  /** The order of strings by their characters, the shorter first when one begins the other. */
  predicate Below(a: string, b: string) {
    if b == "" then false
    else if a == "" then true
    else a[0] < b[0] || (a[0] == b[0] && Below(a[1..], b[1..]))
  }

  predicate Ascending(list: seq<string>) {
    forall i, j | 0 <= i < j < |list| :: Below(list[i], list[j])
  }

  function ElementsOf(list: seq<string>): set<string> {
    set s | s in list
  }

  /** At `k` the strings part, and `a` ends there or goes on with the smaller character. */
  predicate PartsAt(a: string, b: string, k: nat) {
    k <= |a| && k < |b| && a[..k] == b[..k] && (k == |a| || a[k] < b[k])
  }

  /** One string is below another exactly if it is so where the two part. */
  lemma {:induction false} BelowExactly(a: string, b: string)
    ensures Below(a, b) <==> exists k: nat :: PartsAt(a, b, k)
  {
    if a == "" || b == "" {
      assert b != "" ==> PartsAt(a, b, 0);
    } else {
      BelowExactly(a[1..], b[1..]);
      assert a[0] < b[0] ==> PartsAt(a, b, 0);
      if k: nat :| PartsAt(a, b, k) {
        if k > 0 {
          assert a[..k][0] == b[..k][0] && a[1..][..k - 1] == a[..k][1..] && b[1..][..k - 1] == b[..k][1..];
          assert PartsAt(a[1..], b[1..], k - 1);
        }
      }
      if a[0] == b[0] && Below(a[1..], b[1..]) {
        var k: nat :| PartsAt(a[1..], b[1..], k);
        assert a[..k + 1] == [a[0]] + a[1..][..k] && b[..k + 1] == [b[0]] + b[1..][..k];
        assert PartsAt(a, b, k + 1);
      }
    }
  }

  lemma {:induction false} BelowIsOrder(a: string, b: string)
    ensures Below(a, b) || a == b || Below(b, a)
    ensures !(Below(a, b) && Below(b, a)) && !Below(a, a)
  {
    if a != "" && b != "" {
      assert a == [a[0]] + a[1..] && b == [b[0]] + b[1..];
      BelowIsOrder(a[1..], b[1..]);
    }
    NotBelowItself(a);
  }

  lemma {:induction false} NotBelowItself(a: string)
    ensures !Below(a, a)
  {
    if a != "" { NotBelowItself(a[1..]); }
  }

  lemma {:induction false} BelowIsTransitive(a: string, b: string, c: string)
    requires Below(a, b) && Below(b, c)
    ensures Below(a, c)
  {
    if a != "" && a[0] == b[0] == c[0] {
      BelowIsTransitive(a[1..], b[1..], c[1..]);
    }
  }

  /** Ascending lists with the same elements are the same list. */
  lemma {:induction false} AscendingIsUnique(list: seq<string>, other: seq<string>)
    requires Ascending(list) && Ascending(other) && ElementsOf(list) == ElementsOf(other)
    ensures list == other
  {
    assert list != [] ==> list[0] in ElementsOf(list);
    assert other != [] ==> other[0] in ElementsOf(other);
    if list != [] && other != [] {
      FirstIsLowest(list, other);
      FirstIsLowest(other, list);
      BelowIsOrder(list[0], other[0]);
      RestElements(list);
      RestElements(other);
      AscendingIsUnique(list[1..], other[1..]);
    }
  }

  lemma FirstIsLowest(list: seq<string>, other: seq<string>)
    requires list != [] && other != [] && Ascending(list) && ElementsOf(list) == ElementsOf(other)
    ensures list[0] == other[0] || Below(list[0], other[0])
  {
    assert other[0] in ElementsOf(other);
    var i :| 0 <= i < |list| && list[i] == other[0];
  }

  lemma RestElements(list: seq<string>)
    requires list != [] && Ascending(list)
    ensures ElementsOf(list[1..]) == ElementsOf(list) - {list[0]}
  {
    NotBelowItself(list[0]);
    forall s ensures s in ElementsOf(list[1..]) <==> s in ElementsOf(list) - {list[0]} {
      if s in ElementsOf(list) && s != list[0] {
        var i :| 0 <= i < |list| && list[i] == s;
        assert list[1..][i - 1] == s;
      }
      if s in ElementsOf(list[1..]) {
        var i :| 0 <= i < |list[1..]| && list[1..][i] == s;
        assert list[i + 1] == s;
      }
    }
  }

  /** Puts `s` into its place unless it is there already. */
  method Insert(list: seq<string>, s: string) returns (longer: seq<string>, added: bool)
    requires Ascending(list)
    ensures Ascending(longer) && ElementsOf(longer) == ElementsOf(list) + {s}
    ensures added <==> s !in ElementsOf(list)
    ensures !added ==> longer == list
  {
    var i := 0;
    while i < |list| && Below(list[i], s)
      invariant i <= |list| && forall j | 0 <= j < i :: Below(list[j], s)
    {
      i := i + 1;
    }
    if i < |list| && list[i] == s {
      return list, false;
    }
    forall j | i <= j < |list| ensures Below(s, list[j]) {
      BelowIsOrder(s, list[i]);
      if j > i { BelowIsTransitive(s, list[i], list[j]); }
    }
    longer := list[..i] + [s] + list[i..];
    Inserted(list, i, s);
    added := true;
  }

  lemma Inserted(list: seq<string>, i: nat, s: string)
    requires i <= |list| && Ascending(list)
    requires forall j | 0 <= j < i :: Below(list[j], s)
    requires forall j | i <= j < |list| :: Below(s, list[j])
    ensures var longer := list[..i] + [s] + list[i..];
            Ascending(longer) && ElementsOf(longer) == ElementsOf(list) + {s} && s !in ElementsOf(list)
  {
    var longer := list[..i] + [s] + list[i..];
    forall j, k | 0 <= j < k < |longer| ensures Below(longer[j], longer[k]) {
      var a := if j < i then list[j] else if j == i then s else list[j - 1];
      var b := if k < i then list[k] else if k == i then s else list[k - 1];
      assert longer[j] == a && longer[k] == b;
    }
    forall t ensures t in ElementsOf(longer) <==> t in ElementsOf(list) + {s} {
      if t in ElementsOf(list) {
        var j :| 0 <= j < |list| && list[j] == t;
        assert longer[if j < i then j else j + 1] == t;
      }
      assert longer[i] == s;
    }
    NotBelowItself(s);
  }

  /** Sorting, then removing repeats. */
  method SortDedup(list: seq<string>) returns (sorted: seq<string>)
    ensures Ascending(sorted) && ElementsOf(sorted) == ElementsOf(list)
  {
    sorted := [];
    for i := 0 to |list|
      invariant Ascending(sorted) && ElementsOf(sorted) == ElementsOf(list[..i])
    {
      var added;
      sorted, added := Insert(sorted, list[i]);
      assert list[..i + 1] == list[..i] + [list[i]];
    }
    assert list[..|list|] == list;
  }

  lemma {:induction false} AscendingSize(list: seq<string>)
    requires Ascending(list)
    ensures |ElementsOf(list)| == |list|
  {
    if list != [] {
      RestElements(list);
      AscendingSize(list[1..]);
      assert list[0] in ElementsOf(list);
    }
  }
}
