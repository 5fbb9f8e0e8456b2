/** The comparator of the filtered list and the stable sort the runtime
    applies with it (`Array.prototype.sort` is stable). */
module Ordering {
  import opened Types
  import opened Seqs
  import Text

  /** The sort key of `a` is smaller than that of `b`: lower-cased names
      compared as strings, prices as numbers, renewal dates as instants. */
  predicate KeyLess(a: Subscription, b: Subscription, key: SortKey) {
    match key
    case ByName => Text.LexLess(Text.Lower(a.name), Text.Lower(b.name))
    case ByPrice => a.price < b.price
    case ByRenewalDate => a.renewalDate < b.renewalDate
  }

  /** The two records have equal sort keys. */
  predicate SameKey(a: Subscription, b: Subscription, key: SortKey) {
    match key
    case ByName => Text.Lower(a.name) == Text.Lower(b.name)
    case ByPrice => a.price == b.price
    case ByRenewalDate => a.renewalDate == b.renewalDate
  }

  /** The comparator handed to `sort`: -1 puts `a` first, 1 puts `b` first,
      0 keeps their order. `Desc` swaps the answers of the two `<` tests. */
  function Compare(a: Subscription, b: Subscription, key: SortKey, order: SortOrder): (r: int)
    ensures r == -1 || r == 0 || r == 1
    ensures r == 0 <==> SameKey(a, b, key)
    ensures r < 0 <==> (order == Asc && KeyLess(a, b, key)) || (order == Desc && KeyLess(b, a, key))
  {
    KeyFacts(a, b, key);
    match order
    case Asc => if KeyLess(a, b, key) then -1 else if KeyLess(b, a, key) then 1 else 0
    case Desc => if KeyLess(a, b, key) then 1 else if KeyLess(b, a, key) then -1 else 0
  }

  /** `a` must come strictly before `b` in the sorted output. */
  predicate Before(a: Subscription, b: Subscription, key: SortKey, order: SortOrder) {
    Compare(a, b, key, order) < 0
  }

  /** The key order is a strict total order whose ties are exactly `SameKey`. */
  lemma KeyFacts(a: Subscription, b: Subscription, key: SortKey)
    ensures !(KeyLess(a, b, key) && KeyLess(b, a, key))
    ensures SameKey(a, b, key) <==> !KeyLess(a, b, key) && !KeyLess(b, a, key)
  {
    if key == ByName {
      var x, y := Text.Lower(a.name), Text.Lower(b.name);
      Text.LexLessAsymmetric(x, y);
      Text.LexLessTotal(x, y);
      Text.LexLessIrreflexive(x);
    }
  }

  lemma KeyLessTransitive(a: Subscription, b: Subscription, c: Subscription, key: SortKey)
    ensures KeyLess(a, b, key) && KeyLess(b, c, key) ==> KeyLess(a, c, key)
  {
    if key == ByName {
      Text.LexLessTransitive(Text.Lower(a.name), Text.Lower(b.name), Text.Lower(c.name));
    }
  }

  /** The comparator is antisymmetric: swapping the arguments negates it. */
  lemma CompareAntisymmetric(a: Subscription, b: Subscription, key: SortKey, order: SortOrder)
    ensures Compare(a, b, key, order) == -Compare(b, a, key, order)
  {
    KeyFacts(a, b, key);
  }

  /** "Not before" is transitive, so the comparator is consistent and the
      sorted order is well defined. */
  lemma NotBeforeTransitive(a: Subscription, b: Subscription, c: Subscription, key: SortKey, order: SortOrder)
    requires !Before(a, b, key, order) && !Before(b, c, key, order)
    ensures !Before(a, c, key, order)
  {
    KeyFacts(a, b, key);
    KeyFacts(b, c, key);
    KeyFacts(a, c, key);
    KeyLessTransitive(a, b, c, key);
    KeyLessTransitive(c, b, a, key);
    KeyLessTransitive(b, a, c, key);
    KeyLessTransitive(c, a, b, key);
    KeyLessTransitive(a, c, b, key);
    KeyLessTransitive(b, c, a, key);
    if key == ByName {
      // ties on the lower-cased name are an equality, so they substitute
      assert SameKey(a, b, key) ==> Text.Lower(a.name) == Text.Lower(b.name);
    }
  }

  /** No later element has to come before an earlier one. */
  predicate Sorted(s: seq<Subscription>, key: SortKey, order: SortOrder) {
    forall i, j :: 0 <= i < j < |s| ==> !Before(s[j], s[i], key, order)
  }

  predicate SameKeyAs(x: Subscription, k: (Subscription, SortKey)) {
    SameKey(x, k.0, k.1)
  }

  /** The records of `s` whose key equals that of `k`, in their order in `s`. */
  function KeyClass(s: seq<Subscription>, k: Subscription, key: SortKey): seq<Subscription> {
    Filter(s, SameKeyAs, (k, key))
  }

  /** Places `x` in front of the first element it does not have to follow. */
  function Insert(x: Subscription, t: seq<Subscription>, key: SortKey, order: SortOrder): (r: seq<Subscription>)
    ensures multiset(r) == multiset(t) + multiset{x}
  {
    if t == [] then [x]
    else if Before(t[0], x, key, order) then
      assert t == [t[0]] + t[1..];
      [t[0]] + Insert(x, t[1..], key, order)
    else [x] + t
  }

  /** The stable sort: insertion from the back keeps earlier records ahead of
      later ones with an equal key. */
  function SortBy(s: seq<Subscription>, key: SortKey, order: SortOrder): (r: seq<Subscription>)
    ensures multiset(r) == multiset(s)
    ensures |r| == |s|
  {
    if s == [] then []
    else
      assert s == [s[0]] + s[1..];
      Insert(s[0], SortBy(s[1..], key, order), key, order)
  }

  /** A head that no element of a sorted tail has to precede keeps it sorted. */
  lemma SortedCons(h: Subscription, rest: seq<Subscription>, key: SortKey, order: SortOrder)
    requires Sorted(rest, key, order)
    requires forall e :: e in rest ==> !Before(e, h, key, order)
    ensures Sorted([h] + rest, key, order)
  {
    var r := [h] + rest;
    forall i, j | 0 <= i < j < |r|
      ensures !Before(r[j], r[i], key, order)
    {
      if i == 0 {
        assert r[j] == rest[j - 1];
      } else {
        assert r[i] == rest[i - 1] && r[j] == rest[j - 1];
      }
    }
  }

  /** Every element of `Insert(x, t)` is `x` or an element of `t`. */
  lemma InsertElements(x: Subscription, t: seq<Subscription>, key: SortKey, order: SortOrder)
    ensures forall e :: e in Insert(x, t, key, order) ==> e == x || e in t
  {
    forall e | e in Insert(x, t, key, order)
      ensures e == x || e in t
    {
      assert e in multiset(Insert(x, t, key, order));
    }
  }

  lemma {:induction false} InsertSorted(x: Subscription, t: seq<Subscription>, key: SortKey, order: SortOrder)
    requires Sorted(t, key, order)
    ensures Sorted(Insert(x, t, key, order), key, order)
  {
    if t == [] {
    } else if Before(t[0], x, key, order) {
      assert Sorted(t[1..], key, order);
      InsertSorted(x, t[1..], key, order);
      var rest := Insert(x, t[1..], key, order);
      CompareAntisymmetric(t[0], x, key, order);
      InsertElements(x, t[1..], key, order);
      forall e | e in rest
        ensures !Before(e, t[0], key, order)
      {
        if e != x {
          var j :| 1 <= j < |t| && t[j] == e;
        }
      }
      SortedCons(t[0], rest, key, order);
    } else {
      forall e | e in t
        ensures !Before(e, x, key, order)
      {
        var j :| 0 <= j < |t| && t[j] == e;
        if j > 0 {
          NotBeforeTransitive(t[j], t[0], x, key, order);
        }
      }
      SortedCons(x, t, key, order);
    }
  }

  /** The output of `SortBy` is ordered by the comparator. */
  lemma {:induction false} SortBySorted(s: seq<Subscription>, key: SortKey, order: SortOrder)
    ensures Sorted(SortBy(s, key, order), key, order)
  {
    if s != [] {
      SortBySorted(s[1..], key, order);
      InsertSorted(s[0], SortBy(s[1..], key, order), key, order);
    }
  }

  lemma KeyClassCons(x: Subscription, s: seq<Subscription>, k: Subscription, key: SortKey)
    ensures KeyClass([x] + s, k, key) == (if SameKey(x, k, key) then [x] else []) + KeyClass(s, k, key)
  {
    FilterCons(x, s, SameKeyAs, (k, key));
  }

  /** Two records of which one strictly precedes the other never share a key. */
  lemma BeforeSplitsClasses(h: Subscription, x: Subscription, k: Subscription, key: SortKey, order: SortOrder)
    requires Before(h, x, key, order)
    ensures !(SameKey(h, k, key) && SameKey(x, k, key))
  {
    KeyFacts(h, x, key);
  }

  /** Prefixing the same head keeps equal key classes equal. */
  lemma KeyClassConsCongruent(h: Subscription, a: seq<Subscription>, b: seq<Subscription>, k: Subscription, key: SortKey)
    requires KeyClass(a, k, key) == KeyClass(b, k, key)
    ensures KeyClass([h] + a, k, key) == KeyClass([h] + b, k, key)
  {
    KeyClassCons(h, a, k, key);
    KeyClassCons(h, b, k, key);
  }

  /** Swapping two adjacent records of different keys leaves every key class as it was. */
  lemma KeyClassSwap(h: Subscription, x: Subscription, u: seq<Subscription>, k: Subscription, key: SortKey)
    requires !(SameKey(h, k, key) && SameKey(x, k, key))
    ensures KeyClass([h] + ([x] + u), k, key) == KeyClass([x] + ([h] + u), k, key)
  {
    var c := KeyClass(u, k, key);
    KeyClassCons(h, [x] + u, k, key);
    KeyClassCons(x, u, k, key);
    KeyClassCons(x, [h] + u, k, key);
    KeyClassCons(h, u, k, key);
    if SameKey(h, k, key) {
      assert KeyClass([x] + u, k, key) == c;
      assert KeyClass([h] + u, k, key) == [h] + c;
    } else if SameKey(x, k, key) {
      assert KeyClass([x] + u, k, key) == [x] + c;
      assert KeyClass([h] + u, k, key) == c;
    } else {
      assert KeyClass([x] + u, k, key) == c;
      assert KeyClass([h] + u, k, key) == c;
    }
  }

  /** One step of `InsertKeyClass`: `x` passes a head `h` that precedes it. */
  lemma InsertKeyClassStep(x: Subscription, h: Subscription, u: seq<Subscription>, k: Subscription, key: SortKey, order: SortOrder)
    requires Before(h, x, key, order)
    requires KeyClass(Insert(x, u, key, order), k, key) == KeyClass([x] + u, k, key)
    ensures KeyClass([h] + Insert(x, u, key, order), k, key) == KeyClass([x] + ([h] + u), k, key)
  {
    KeyClassConsCongruent(h, Insert(x, u, key, order), [x] + u, k, key);
    BeforeSplitsClasses(h, x, k, key, order);
    KeyClassSwap(h, x, u, k, key);
  }

  lemma {:induction false} InsertKeyClass(x: Subscription, t: seq<Subscription>, k: Subscription, key: SortKey, order: SortOrder)
    ensures KeyClass(Insert(x, t, key, order), k, key) == KeyClass([x] + t, k, key)
  {
    if t == [] {
      assert Insert(x, t, key, order) == [x] == [x] + t;
    } else if !Before(t[0], x, key, order) {
      assert Insert(x, t, key, order) == [x] + t;
    } else {
      var h, u := t[0], t[1..];
      assert t == [h] + u;
      assert Insert(x, t, key, order) == [h] + Insert(x, u, key, order);
      InsertKeyClass(x, u, k, key, order);
      InsertKeyClassStep(x, h, u, k, key, order);
    }
  }

  /** Stability: for every key, the records with that key appear in the
      output in the same relative order as in the input. */
  lemma {:induction false} SortByStable(s: seq<Subscription>, k: Subscription, key: SortKey, order: SortOrder)
    ensures KeyClass(SortBy(s, key, order), k, key) == KeyClass(s, k, key)
  {
    if s != [] {
      var h, u := s[0], s[1..];
      assert s == [h] + u;
      SortByStable(u, k, key, order);
      InsertKeyClass(h, SortBy(u, key, order), k, key, order);
      KeyClassCons(h, SortBy(u, key, order), k, key);
      KeyClassCons(h, u, k, key);
    }
  }

  /** Everything the sort promises, in one place: a permutation, ordered by
      the comparator, with ties in input order. */
  lemma SortBySpec(s: seq<Subscription>, key: SortKey, order: SortOrder)
    ensures multiset(SortBy(s, key, order)) == multiset(s)
    ensures Sorted(SortBy(s, key, order), key, order)
    ensures forall k :: KeyClass(SortBy(s, key, order), k, key) == KeyClass(s, k, key)
  {
    SortBySorted(s, key, order);
    forall k
      ensures KeyClass(SortBy(s, key, order), k, key) == KeyClass(s, k, key)
    {
      SortByStable(s, k, key, order);
    }
  }

  /** In ascending renewal order no later record renews before an earlier one. */
  lemma SortedByRenewal(s: seq<Subscription>)
    requires Sorted(s, ByRenewalDate, Asc)
    ensures forall i, j :: 0 <= i < j < |s| ==> s[i].renewalDate <= s[j].renewalDate
  {
    forall i, j | 0 <= i < j < |s|
      ensures s[i].renewalDate <= s[j].renewalDate
    {
      assert !Before(s[j], s[i], ByRenewalDate, Asc);
    }
  }

  /** The sort by `a.renewalDate - b.renewalDate` used for renewal lists:
      the same records, earliest renewal first, ties in input order. */
  function SortByRenewal(s: seq<Subscription>): (r: seq<Subscription>)
    ensures forall x :: x in r <==> x in s
    ensures multiset(r) == multiset(s)
    ensures forall i, j :: 0 <= i < j < |r| ==> r[i].renewalDate <= r[j].renewalDate
    ensures forall k :: KeyClass(r, k, ByRenewalDate) == KeyClass(s, k, ByRenewalDate)
  {
    SortBySpec(s, ByRenewalDate, Asc);
    SortedByRenewal(SortBy(s, ByRenewalDate, Asc));
    assert forall x :: x in SortBy(s, ByRenewalDate, Asc) <==> x in multiset(s);
    SortBy(s, ByRenewalDate, Asc)
  }
}
