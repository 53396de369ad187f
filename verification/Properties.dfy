/**
 Property bags and string sets: the comparisons and patches behind drift detection
 (internal/controller/helpers.go, polarisnamespace_controller.go, polariscatalog_controller.go).

 Go iterates a map in an unspecified order; the loops below pick keys nondeterministically, so what
 is proved holds for every order. A nil map and an empty map are one value here, as they are there.
 */
module Properties {

  type Props = map<string, string>

  /** A map included in another map of the same size is that map: what lets a one-sided scan decide equality. */
  lemma IncludedMapsOfEqualSize(a: Props, b: Props)
    requires |a| == |b|
    requires forall k :: k in a ==> k in b && b[k] == a[k]
    ensures a == b
  {
    SubsetOfEqualSize(a.Keys, b.Keys);
    assert |a.Keys| == |a| && |b.Keys| == |b|;
  }

  lemma SubsetOfEqualSize<T>(small: set<T>, big: set<T>)
    requires small <= big && |small| == |big|
    ensures small == big
  {
    if x :| x in big && x !in small {
      assert small <= big - {x};
      SubsetSize(small, big - {x});
    }
  }

  lemma {:induction false} SubsetSize<T>(small: set<T>, big: set<T>)
    requires small <= big
    ensures |small| <= |big|
    decreases small
  {
    if small != {} {
      var x :| x in small;
      SubsetSize(small - {x}, big - {x});
    }
  }

  /** equalProperties: compare sizes, then scan the left map only. */
  method EqualProperties(a: Props, b: Props) returns (eq: bool)
    ensures eq <==> a == b
  {
    if |a| != |b| {
      return false;
    }
    var rest := a.Keys;
    while rest != {}
      invariant rest <= a.Keys
      invariant forall k :: k in a && k !in rest ==> k in b && b[k] == a[k]
      decreases |rest|
    {
      var k :| k in rest;
      if k !in b || b[k] != a[k] {
        return false;
      }
      rest := rest - {k};
    }
    IncludedMapsOfEqualSize(a, b);
    return true;
  }

  // ---- Property patches ----

  /** The keys that must be written to turn observed into desired, with their new values. */
  function Updates(observed: Props, desired: Props): Props {
    map k | k in desired && (k !in observed || observed[k] != desired[k]) :: desired[k]
  }

  /** The keys that must be removed. */
  function Removals(observed: Props, desired: Props): set<string> {
    observed.Keys - desired.Keys
  }

  /** What the server does with an accepted updateProperties request. */
  function Patch(observed: Props, updates: Props, removals: set<string>): Props {
    (observed - removals) + updates
  }

  /** diffProperties: one loop over each side. Removals come out as a list, in iteration order. */
  method DiffProperties(observed: Props, desired: Props) returns (updates: Props, removals: seq<string>)
    ensures updates == Updates(observed, desired)
    ensures forall i, j :: 0 <= i < j < |removals| ==> removals[i] != removals[j]
    ensures (set k | k in removals) == Removals(observed, desired)
  {
    updates, removals := map[], [];
    var rest := desired.Keys;
    while rest != {}
      invariant rest <= desired.Keys
      invariant forall k :: k in updates <==> k in Updates(observed, desired) && k !in rest
      invariant forall k :: k in updates ==> updates[k] == desired[k]
      decreases |rest|
    {
      var k :| k in rest;
      if k !in observed || observed[k] != desired[k] {
        updates := updates[k := desired[k]];
      }
      rest := rest - {k};
    }
    assert updates == Updates(observed, desired);
    rest := observed.Keys;
    while rest != {}
      invariant rest <= observed.Keys
      invariant forall i, j :: 0 <= i < j < |removals| ==> removals[i] != removals[j]
      invariant updates == Updates(observed, desired)
      invariant forall k :: k in removals <==> k in observed && k !in desired && k !in rest
      decreases |rest|
    {
      var k :| k in rest;
      if k !in desired {
        removals := removals + [k];
      }
      rest := rest - {k};
    }
  }

  /** Applying the computed patch gives exactly the desired bag, whatever was observed. */
  lemma PatchIsExact(observed: Props, desired: Props)
    ensures Patch(observed, Updates(observed, desired), Removals(observed, desired)) == desired
    ensures Updates(observed, desired).Keys !! Removals(observed, desired)
  {
  }

  /** Every edit that reaches the desired bag touches every key the computed patch touches. */
  lemma PatchIsMinimal(observed: Props, desired: Props, updates: Props, removals: set<string>)
    requires Patch(observed, updates, removals) == desired
    ensures Updates(observed, desired).Keys <= updates.Keys
    ensures Removals(observed, desired) <= removals
    ensures forall k :: k in Updates(observed, desired) ==> updates[k] == Updates(observed, desired)[k]
  {
  }

  /** The patch is empty exactly when there is nothing to do, so a second diff after patching is empty. */
  lemma DiffEmptyIffEqual(observed: Props, desired: Props)
    ensures Updates(observed, desired) == map[] && Removals(observed, desired) == {} <==> observed == desired
  {
    if Updates(observed, desired) == map[] && Removals(observed, desired) == {} {
      PatchIsExact(observed, desired);
      assert Patch(observed, map[], {}) == observed;
    }
  }

  /**
   A patch is relative to the bag it was computed from. Applied after somebody else changed the bag, it
   still gives the desired bag exactly when every key outside the patch agrees with the desired bag.
   */
  lemma StalePatch(read: Props, actual: Props, desired: Props)
    ensures Patch(actual, Updates(read, desired), Removals(read, desired)) == desired <==>
            (forall k :: k !in Updates(read, desired) && k !in Removals(read, desired) ==>
              (k in actual <==> k in desired) && (k in actual ==> actual[k] == desired[k]))
  {
  }

  // ---- String sets given as lists ----

  predicate NoDuplicates<T(==)>(s: seq<T>) {
    forall i, j :: 0 <= i < j < |s| ==> s[i] != s[j]
  }

  function Elements<T>(s: seq<T>): set<T> {
    set x | x in s
  }

  /** What equalStringSet computes: same length, and every string of b occurs in a. */
  predicate SameStrings(a: seq<string>, b: seq<string>) {
    |a| == |b| && Elements(b) <= Elements(a)
  }

  method EqualStringSet(a: seq<string>, b: seq<string>) returns (eq: bool)
    ensures eq <==> SameStrings(a, b)
  {
    if |a| != |b| {
      return false;
    }
    var seen: set<string> := {};
    for i := 0 to |a|
      invariant seen == Elements(a[..i])
    {
      seen := seen + {a[i]};
    }
    assert a[..|a|] == a;
    for i := 0 to |b|
      invariant forall j :: 0 <= j < i ==> b[j] in seen
    {
      if b[i] !in seen {
        assert b[i] in Elements(b);
        return false;
      }
    }
    return true;
  }

  lemma {:induction false} ElementsSize<T>(s: seq<T>)
    ensures |Elements(s)| <= |s|
    ensures |Elements(s)| == |s| <==> NoDuplicates(s)
  {
    if s != [] {
      var init, last := s[..|s| - 1], s[|s| - 1];
      ElementsSize(init);
      assert s == init + [last];
      assert Elements(s) == Elements(init) + {last};
      if last in init {
        assert Elements(s) == Elements(init);
        var i :| 0 <= i < |init| && init[i] == last;
        assert s[i] == s[|s| - 1];
      } else {
        assert |Elements(s)| == |Elements(init)| + 1;
        assert NoDuplicates(init) ==> NoDuplicates(s);
        assert NoDuplicates(s) ==> NoDuplicates(init);
      }
    }
  }

  /** With a duplicate-free right side the test decides set equality, by the pigeonhole principle. */
  lemma SameStringsDecides(a: seq<string>, b: seq<string>)
    requires NoDuplicates(b)
    ensures SameStrings(a, b) <==> NoDuplicates(a) && Elements(a) == Elements(b)
  {
    ElementsSize(a);
    ElementsSize(b);
    if SameStrings(a, b) {
      SubsetSize(Elements(b), Elements(a));
      SubsetOfEqualSize(Elements(b), Elements(a));
    }
  }

  /** Duplicate-freedom of the right side is exactly what the test needs to be right about every left side. */
  lemma SameStringsSoundIffNoDuplicates(b: seq<string>)
    ensures NoDuplicates(b) <==> forall a :: SameStrings(a, b) ==> Elements(a) == Elements(b)
  {
    if NoDuplicates(b) {
      forall a | SameStrings(a, b)
        ensures Elements(a) == Elements(b)
      {
        SameStringsDecides(a, b);
      }
    } else {
      var i, j :| 0 <= i < j < |b| && b[i] == b[j];
      var novel := FreshString(b);
      var a := b[j := novel];
      forall x | x in b
        ensures x in a
      {
        var k :| 0 <= k < |b| && b[k] == x;
        assert a[if k == j then i else k] == x;
      }
      assert SameStrings(a, b);
      assert a[j] == novel && novel in Elements(a);
    }
  }

  /** A string longer than every string of the list. */
  function FreshString(s: seq<string>): (novel: string)
    ensures novel !in s
    ensures forall x :: x in s ==> |x| < |novel|
  {
    if s == [] then "x"
    else
      var shorter := FreshString(s[1..]);
      assert forall x :: x in s ==> x == s[0] || x in s[1..];
      shorter + s[0] + "x"
  }
}
