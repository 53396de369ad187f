/**
 The encoding of a namespace path into one request parameter: segments joined with the unit separator
 (internal/controller/polarisnamespace_controller.go). The server splits on the same character.
 */
module NamespaceEncoding {
  import opened Wrappers
  import opened Kubernetes
  import opened NamespacePath

  const SEPARATOR: char := 0x1F as char

  /** strings.Join with the separator. */
  function Encode(path: seq<string>): string {
    if path == [] then ""
    else if |path| == 1 then path[0]
    else path[0] + [SEPARATOR] + Encode(path[1..])
  }

  /** Splitting on every separator; never empty. */
  function Decode(s: string): (path: seq<string>)
    ensures path != []
  {
    if s == "" then [""]
    else
      var rest := Decode(s[1..]);
      if s[0] == SEPARATOR then [""] + rest
      else [[s[0]] + rest[0]] + rest[1..]
  }

  predicate Clean(path: seq<string>) {
    forall i :: 0 <= i < |path| ==> SEPARATOR !in path[i]
  }

  lemma {:induction false} DecodeFirst(segment: string, rest: string)
    requires SEPARATOR !in segment
    ensures Decode(segment + [SEPARATOR] + rest) == [segment] + Decode(rest)
  {
    var s := segment + [SEPARATOR] + rest;
    if segment == "" {
      assert s[1..] == rest;
    } else {
      assert s[1..] == segment[1..] + [SEPARATOR] + rest;
      assert segment == [segment[0]] + segment[1..];
      DecodeFirst(segment[1..], rest);
    }
  }

  lemma {:induction false} DecodeSingle(segment: string)
    requires SEPARATOR !in segment
    ensures Decode(segment) == [segment]
  {
    if segment != "" {
      DecodeSingle(segment[1..]);
      assert segment == [segment[0]] + segment[1..];
    }
  }

  /** The separator is the character 0x1F and stands between the segments only. */
  lemma EncodingOfTwo(first: string, second: string)
    ensures Encode([first]) == first
    ensures Encode([first, second]) == first + [0x1F as char] + second
  {
    assert [first, second][1..] == [second];
  }

  /** Splitting what was joined gives the path back exactly when no segment carries the separator. */
  lemma {:induction false} RoundTrip(path: seq<string>)
    requires path != []
    ensures Decode(Encode(path)) == path <==> Clean(path)
  {
    if Clean(path) {
      RoundTripClean(path);
    } else {
      DecodedIsClean(Encode(path));
    }
  }

  lemma {:induction false} RoundTripClean(path: seq<string>)
    requires path != [] && Clean(path)
    ensures Decode(Encode(path)) == path
  {
    if |path| == 1 {
      DecodeSingle(path[0]);
    } else {
      RoundTripClean(path[1..]);
      DecodeFirst(path[0], Encode(path[1..]));
      assert path == [path[0]] + path[1..];
    }
  }

  lemma {:induction false} DecodedIsClean(s: string)
    ensures Clean(Decode(s))
  {
    if s != "" {
      DecodedIsClean(s[1..]);
    }
  }

  /** The inverse round trip: joining what was split gives the string back, for every string. */
  lemma {:induction false} EncodeDecode(s: string)
    ensures Encode(Decode(s)) == s
  {
    if s != "" {
      var rest := Decode(s[1..]);
      EncodeDecode(s[1..]);
      if s[0] == SEPARATOR {
        assert ([""] + rest)[1..] == rest;
        assert Encode([""] + rest) == "" + [SEPARATOR] + Encode(rest);
      } else {
        var path := [[s[0]] + rest[0]] + rest[1..];
        assert path[1..] == rest[1..];
        if |rest| == 1 {
          assert Encode(path) == [s[0]] + rest[0];
        } else {
          assert Encode(path) == [s[0]] + Encode(rest);
        }
      }
    }
  }

  // ---- Paths the operator encodes ----

  /** Names the API admits: spec.name by its pattern, metadata.name by Kubernetes; none can hold a separator. */
  predicate CleanNames(store: Store) {
    forall id :: id in store && store[id].identity.Namespace? ==> CleanName(store[id].identity, id.key)
  }

  predicate CleanName(ns: Identity, key: Key)
    requires ns.Namespace?
  {
    SEPARATOR !in NameOf(ns, key)
  }

  lemma {:induction false} WalkIsClean(store: Store, key: Key, ns: Identity, cat: Key, budget: nat)
    requires ns.Namespace? && CleanName(ns, key) && CleanNames(store)
    requires Walk(store, key, ns, cat, budget).Ok?
    ensures Clean(Walk(store, key, ns, cat, budget).value)
    decreases budget
  {
    if ns.parentRef.Some? {
      var up := Resolve(ns.parentRef.value, key.ns);
      WalkIsClean(store, up, Get(store, NamespaceKind, up).value.identity, cat, budget - 1);
    }
  }

  /** Two namespaces address one remote namespace of a catalog only if they resolve to one path. */
  lemma ResolvedPathsStayApart(store: Store, key: Key, ns: Identity, otherKey: Key, other: Identity)
    requires CleanNames(store)
    requires ns.Namespace? && CleanName(ns, key) && ResolvePath(store, key, ns).Ok?
    requires other.Namespace? && CleanName(other, otherKey) && ResolvePath(store, otherKey, other).Ok?
    ensures Encode(ResolvePath(store, key, ns).value.path)
            == Encode(ResolvePath(store, otherKey, other).value.path) <==>
            ResolvePath(store, key, ns).value.path == ResolvePath(store, otherKey, other).value.path
  {
    WalkIsClean(store, key, ns, CatalogOf(ns, key), MAX_DEPTH);
    WalkIsClean(store, otherKey, other, CatalogOf(other, otherKey), MAX_DEPTH);
    WalkEndsInName(store, key, ns, CatalogOf(ns, key), MAX_DEPTH);
    WalkEndsInName(store, otherKey, other, CatalogOf(other, otherKey), MAX_DEPTH);
    RoundTrip(ResolvePath(store, key, ns).value.path);
    RoundTrip(ResolvePath(store, otherKey, other).value.path);
  }
}
