/** Sorted listings of sets of strings: sort.Strings over the keys of a Go map. */
module Sorting {
  /** Strings are compared by bytes; for UTF-8 that is the order of the runes. */
  predicate Less(s: string, t: string) {
    if s == "" then t != "" else t != "" && (s[0] < t[0] || (s[0] == t[0] && Less(s[1..], t[1..])))
  }

  ghost predicate Sorted(keys: seq<string>) {
    forall i, j :: 0 <= i < j < |keys| ==> Less(keys[i], keys[j])
  }

  ghost predicate Lists(keys: seq<string>, fields: set<string>) {
    Sorted(keys) && |keys| == |fields| && forall k :: k in keys <==> k in fields
  }

  lemma {:induction false} LessIrreflexive(s: string)
    ensures !Less(s, s)
  {
    if s != "" { LessIrreflexive(s[1..]); }
  }

  lemma {:induction false} LessTransitive(s: string, t: string, u: string)
    requires Less(s, t) && Less(t, u)
    ensures Less(s, u)
  {
    if s != "" && s[0] == t[0] && t[0] == u[0] { LessTransitive(s[1..], t[1..], u[1..]); }
  }

  lemma {:induction false} LessTotal(s: string, t: string)
    requires s != t
    ensures Less(s, t) || Less(t, s)
  {
    if s != "" && t != "" && s[0] == t[0] {
      assert s == [s[0]] + s[1..] && t == [t[0]] + t[1..];
      LessTotal(s[1..], t[1..]);
    }
  }

  lemma LessAsymmetric(s: string, t: string)
    requires Less(s, t)
    ensures !Less(t, s)
  {
    if Less(t, s) {
      LessTransitive(s, t, s);
      LessIrreflexive(s);
    }
  }

  /** The strings agree up to k, where the first is at its end or has the smaller character. */
  ghost predicate LessAt(s: string, t: string, k: nat) {
    k <= |s| && k < |t| && s[..k] == t[..k] && (k == |s| || s[k] < t[k])
  }

  lemma {:induction false} LessIff(s: string, t: string)
    ensures Less(s, t) <==> exists k: nat :: LessAt(s, t, k)
  {
    if s == "" || t == "" || s[0] != t[0] {
      assert t != "" && (s == "" || s[0] < t[0]) ==> LessAt(s, t, 0);
      assert forall k: nat :: LessAt(s, t, k) && k > 0 ==> s[..k][0] == t[..k][0];
    } else {
      LessIff(s[1..], t[1..]);
      forall k: nat ensures LessAt(s[1..], t[1..], k) <==> LessAt(s, t, k + 1) {
        LessAtTail(s, t, k);
      }
      if k: nat :| LessAt(s, t, k) { assert LessAt(s[1..], t[1..], k - 1) <==> LessAt(s, t, k - 1 + 1); }
    }
  }

  lemma LessAtTail(s: string, t: string, k: nat)
    requires s != "" && t != "" && s[0] == t[0]
    ensures LessAt(s[1..], t[1..], k) <==> LessAt(s, t, k + 1)
  {
    if k < |s| && k < |t| {
      assert s[..k + 1] == [s[0]] + s[1..][..k] && t[..k + 1] == [t[0]] + t[1..][..k];
    }
  }

  /** A set of keys has one sorted listing. */
  lemma {:induction false} SortedListingIsUnique(a: seq<string>, b: seq<string>, fields: set<string>)
    requires Lists(a, fields) && Lists(b, fields)
    ensures a == b
    decreases |a|
  {
    if a != [] {
      assert a[0] in b && b != [] && b[0] in a;
      var i :| 0 <= i < |b| && b[i] == a[0];
      var j :| 0 <= j < |a| && a[j] == b[0];
      LessIrreflexive(a[0]);
      if i > 0 && j > 0 { LessAsymmetric(a[0], a[j]); }
      assert a[0] == b[0];
      TailListing(a, fields);
      TailListing(b, fields);
      SortedListingIsUnique(a[1..], b[1..], fields - {a[0]});
    }
  }

  lemma TailListing(a: seq<string>, fields: set<string>)
    requires Lists(a, fields) && a != []
    ensures Lists(a[1..], fields - {a[0]})
  {
    LessIrreflexive(a[0]);
    assert forall k :: k in a <==> k == a[0] || k in a[1..];
  }

  lemma {:induction false} LeastExists(fields: set<string>) returns (k: string)
    requires fields != {}
    ensures k in fields && forall o :: o in fields && o != k ==> Less(k, o)
    decreases fields
  {
    k :| k in fields;
    if fields != {k} {
      var least := LeastExists(fields - {k});
      LessTotal(k, least);
      if Less(least, k) {
        k := least;
      } else {
        forall o | o in fields && o != k && o != least ensures Less(k, o) {
          LessTransitive(k, least, o);
        }
      }
    }
  }

  /** The sorted listing of a set of keys. */
  ghost function SortedKeys(fields: set<string>): (keys: seq<string>)
    ensures Lists(keys, fields)
    decreases fields
  {
    if fields == {} then []
    else
      assert exists k :: k in fields && forall o :: o in fields && o != k ==> Less(k, o) by {
        var least := LeastExists(fields);
      }
      var k :| k in fields && forall o :: o in fields && o != k ==> Less(k, o);
      [k] + SortedKeys(fields - {k})
  }

  lemma ListsOneMore(keys: seq<string>, fields: set<string>, key: string)
    requires Lists(keys, fields) && key !in fields && forall k :: k in fields ==> Less(k, key)
    ensures Lists(keys + [key], fields + {key})
  {
  }

  /** A key beyond all others is listed last. */
  lemma LargestKeyIsLast(fields: set<string>, key: string)
    requires key !in fields && forall k :: k in fields ==> Less(k, key)
    ensures SortedKeys(fields + {key}) == SortedKeys(fields) + [key]
  {
    ListsOneMore(SortedKeys(fields), fields, key);
    SortedListingIsUnique(SortedKeys(fields) + [key], SortedKeys(fields + {key}), fields + {key});
  }

  /** These are the fields, each once, in some order. */
  ghost predicate Enumerates(keys: seq<string>, fields: set<string>) {
    |keys| == |fields| && (forall k :: k in keys <==> k in fields)
    && forall i, j :: 0 <= i < j < |keys| ==> keys[i] != keys[j]
  }

  function Insert(keys: seq<string>, key: string): seq<string> {
    if keys == [] || Less(key, keys[0]) then [key] + keys else [keys[0]] + Insert(keys[1..], key)
  }

  lemma {:induction false} InsertKeepsKeys(keys: seq<string>, key: string, k: string)
    ensures |Insert(keys, key)| == |keys| + 1
    ensures k in Insert(keys, key) <==> k == key || k in keys
  {
    if keys != [] && !Less(key, keys[0]) {
      InsertKeepsKeys(keys[1..], key, k);
      assert keys == [keys[0]] + keys[1..];
    }
  }

  lemma {:induction false} InsertKeepsSorted(keys: seq<string>, key: string)
    requires Sorted(keys) && key !in keys
    ensures Sorted(Insert(keys, key))
  {
    if keys == [] {
    } else if Less(key, keys[0]) {
      forall j | 0 < j < |keys| ensures Less(key, keys[j]) {
        LessTransitive(key, keys[0], keys[j]);
      }
    } else {
      InsertKeepsSorted(keys[1..], key);
      LessTotal(key, keys[0]);
      var rest := Insert(keys[1..], key);
      forall j | 0 <= j < |rest| ensures Less(keys[0], rest[j]) {
        InsertKeepsKeys(keys[1..], key, rest[j]);
      }
    }
  }

  /** sort.Strings. */
  method SortStrings(keys: seq<string>, ghost fields: set<string>) returns (sorted: seq<string>)
    requires Enumerates(keys, fields)
    ensures sorted == SortedKeys(fields)
  {
    sorted := [];
    for i := 0 to |keys|
      invariant Sorted(sorted) && |sorted| == i
      invariant forall k :: k in sorted <==> k in keys[..i]
    {
      assert keys[i] !in keys[..i];
      forall k ensures k in Insert(sorted, keys[i]) <==> k in keys[..i + 1] {
        InsertKeepsKeys(sorted, keys[i], k);
        assert keys[..i + 1] == keys[..i] + [keys[i]];
      }
      InsertKeepsKeys(sorted, keys[i], keys[i]);
      InsertKeepsSorted(sorted, keys[i]);
      sorted := Insert(sorted, keys[i]);
    }
    assert keys[..|keys|] == keys;
    SortedListingIsUnique(sorted, SortedKeys(fields), fields);
  }

  /** The keys of a Go map, in the arbitrary order in which ranging over it meets them. */
  method CollectKeys<V>(fields: map<string, V>) returns (keys: seq<string>)
    ensures Enumerates(keys, fields.Keys)
  {
    keys := [];
    var rest := fields.Keys;
    while rest != {}
      invariant rest <= fields.Keys
      invariant Enumerates(keys, fields.Keys - rest)
      decreases rest
    {
      var k :| k in rest;
      assert fields.Keys - (rest - {k}) == (fields.Keys - rest) + {k};
      keys := keys + [k];
      rest := rest - {k};
    }
    assert fields.Keys - {} == fields.Keys;
  }

  lemma PrefixCancels(p: string, x: string, y: string)
    requires p + x == p + y
    ensures x == y
  {
    assert (p + x)[|p|..] == x && (p + y)[|p|..] == y;
  }
}
