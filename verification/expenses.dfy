/** The store's expense derivations: the monthly total and the per-category
    summary, both over active records with yearly prices divided by 12. */
module Expenses {
  import opened Types
  import opened Seqs
  import Store

  predicate HasActivity(sub: Subscription, active: bool) {
    sub.isActive == active
  }

  /** The active records, in store order. */
  function Active(s: seq<Subscription>): seq<Subscription> {
    Filter(s, HasActivity, true)
  }

  predicate HasCategory(sub: Subscription, category: string) {
    sub.category == category
  }

  /** The records of one category, in order. */
  function InCategory(s: seq<Subscription>, category: string): seq<Subscription> {
    Filter(s, HasCategory, category)
  }

  /** Monthly prices summed from the first record on, as `reduce` does. */
  function SumMonthly(s: seq<Subscription>): real {
    if s == [] then 0.0 else SumMonthly(s[..|s| - 1]) + MonthlyPrice(s[|s| - 1])
  }

  lemma SumMonthlySnoc(a: seq<Subscription>, x: Subscription)
    ensures SumMonthly(a + [x]) == SumMonthly(a) + MonthlyPrice(x)
  {
    assert (a + [x])[..|a|] == a;
  }

  lemma {:induction false} SumMonthlyAppend(a: seq<Subscription>, b: seq<Subscription>)
    ensures SumMonthly(a + b) == SumMonthly(a) + SumMonthly(b)
  {
    if b != [] {
      var b' := b[..|b| - 1];
      assert (a + b)[..|a + b| - 1] == a + b';
      SumMonthlyAppend(a, b');
    } else {
      assert a + b == a;
    }
  }

  lemma {:induction false} SumMonthlyNonNegative(s: seq<Subscription>)
    requires forall i :: 0 <= i < |s| ==> s[i].price >= 0.0
    ensures SumMonthly(s) >= 0.0
  {
    if s != [] {
      SumMonthlyNonNegative(s[..|s| - 1]);
    }
  }

  lemma NoneActive(s: seq<Subscription>)
    ensures (forall i :: 0 <= i < |s| ==> !s[i].isActive) ==> Active(s) == []
  {
    if forall i :: 0 <= i < |s| ==> !s[i].isActive {
      FilterNone(s, HasActivity, true);
    }
  }

  lemma ActiveNonNegative(s: seq<Subscription>)
    ensures (forall i :: 0 <= i < |s| ==> s[i].price >= 0.0) ==> SumMonthly(Active(s)) >= 0.0
  {
    if forall i :: 0 <= i < |s| ==> s[i].price >= 0.0 {
      var act := Active(s);
      forall i | 0 <= i < |act|
        ensures act[i].price >= 0.0
      {
        assert act[i] in s;
      }
      SumMonthlyNonNegative(act);
    }
  }

  /** `getTotalMonthlyExpense`: the monthly prices of the active records
      summed; 0 when no record is active; never negative when no price is. */
  function GetTotalMonthlyExpense(st: State): (r: real)
    ensures (forall i :: 0 <= i < |st.subscriptions| ==> !st.subscriptions[i].isActive) ==> r == 0.0
    ensures (forall i :: 0 <= i < |st.subscriptions| ==> st.subscriptions[i].price >= 0.0) ==> r >= 0.0
  {
    var act := Active(st.subscriptions);
    NoneActive(st.subscriptions);
    ActiveNonNegative(st.subscriptions);
    SumMonthly(act)
  }

  /** Adding a record raises the total by its monthly price when it is
      active, and leaves it as it was otherwise. */
  lemma AddChangesTotal(st: State, d: Draft, id: string, now: Instant)
    ensures var x := Store.NewRecord(d, id, now);
      GetTotalMonthlyExpense(Store.AddSubscription(st, d, id, now))
        == GetTotalMonthlyExpense(st) + (if d.isActive then MonthlyPrice(x) else 0.0)
  {
    var x := Store.NewRecord(d, id, now);
    FilterSnoc(st.subscriptions, x, HasActivity, true);
    SumMonthlyAppend(Active(st.subscriptions), if x.isActive then [x] else []);
    assert SumMonthly([x]) == SumMonthly([]) + MonthlyPrice(x) by {
      assert [x][..0] == [];
    }
  }

  /** The total of a collection split around one record. */
  lemma ActiveSplitSum(a: seq<Subscription>, x: Subscription, b: seq<Subscription>)
    ensures SumMonthly(Active(a + ([x] + b)))
      == SumMonthly(Active(a)) + (if x.isActive then MonthlyPrice(x) else 0.0) + SumMonthly(Active(b))
  {
    FilterAppend(a, [x] + b, HasActivity, true);
    FilterCons(x, b, HasActivity, true);
    var fx := if x.isActive then [x] else [];
    SumMonthlyAppend(Active(a), fx + Active(b));
    SumMonthlyAppend(fx, Active(b));
    SumMonthlySnoc([], x);
    assert [] + [x] == [x];
  }

  /** Toggling the record with a unique id changes only that position. */
  lemma ToggleSplit(st: State, id: string, k: nat, now: Instant)
    requires IdsUnique(st.subscriptions)
    requires k < |st.subscriptions| && st.subscriptions[k].id == id
    ensures var s := st.subscriptions;
      var s' := Store.ToggleSubscriptionStatus(st, id, now).subscriptions;
      s == s[..k] + ([s[k]] + s[k + 1..]) && s' == s[..k] + ([s'[k]] + s[k + 1..])
  {
    var s := st.subscriptions;
    var s' := Store.ToggleSubscriptionStatus(st, id, now).subscriptions;
    var a, b := s[..k], s[k + 1..];
    assert s == a + ([s[k]] + b);
    var t := a + ([s'[k]] + b);
    assert |t| == |s'|;
    forall i | 0 <= i < |s'|
      ensures s'[i] == t[i]
    {
      if i < k {
        assert s[i].id != id && t[i] == a[i] == s[i];
      } else if i > k {
        assert s[i].id != id && t[i] == b[i - k - 1] == s[i];
      }
    }
    assert s' == t;
  }

  /** Deactivating the active record with the id removes exactly its monthly
      price from the total; the record stays in the collection. */
  lemma ToggleOffRemovesFromTotal(st: State, id: string, k: nat, now: Instant)
    requires IdsUnique(st.subscriptions)
    requires k < |st.subscriptions| && st.subscriptions[k].id == id && st.subscriptions[k].isActive
    ensures var after := Store.ToggleSubscriptionStatus(st, id, now);
      GetTotalMonthlyExpense(after) + MonthlyPrice(st.subscriptions[k]) == GetTotalMonthlyExpense(st)
      && after.subscriptions[k] == st.subscriptions[k].(isActive := false, updatedAt := now)
  {
    var s := st.subscriptions;
    var s' := Store.ToggleSubscriptionStatus(st, id, now).subscriptions;
    ToggleSplit(st, id, k, now);
    ActiveSplitSum(s[..k], s[k], s[k + 1..]);
    ActiveSplitSum(s[..k], s'[k], s[k + 1..]);
  }

  // ---------------------------------------------------------------------
  // Category summary
  // ---------------------------------------------------------------------

  /** Count and monthly total of one category. */
  datatype Bucket = Bucket(count: nat, total: real)

  function Plus(a: Bucket, b: Bucket): Bucket {
    Bucket(a.count + b.count, a.total + b.total)
  }

  /** One step of the reduce: open the category at zero if it is missing,
      then add one record and its monthly price. */
  function AddToSummary(m: map<string, Bucket>, sub: Subscription): map<string, Bucket> {
    var b := if sub.category in m then m[sub.category] else Bucket(0, 0.0);
    m[sub.category := Plus(b, Bucket(1, MonthlyPrice(sub)))]
  }

  /** The reduce over a sequence of records, from the first on. */
  function SummaryOf(s: seq<Subscription>): map<string, Bucket> {
    if s == [] then map[] else AddToSummary(SummaryOf(s[..|s| - 1]), s[|s| - 1])
  }

  /** The categories the records carry. */
  function CategoriesOf(s: seq<Subscription>): set<string> {
    set x | x in s :: x.category
  }

  lemma {:induction false} SummaryOfKeys(s: seq<Subscription>)
    ensures SummaryOf(s).Keys == CategoriesOf(s)
  {
    if s != [] {
      var s0, x := s[..|s| - 1], s[|s| - 1];
      assert s == s0 + [x];
      SummaryOfKeys(s0);
      assert CategoriesOf(s) == CategoriesOf(s0) + {x.category};
    }
  }

  lemma {:induction false} SummaryOfEntries(s: seq<Subscription>, c: string)
    requires c in SummaryOf(s)
    ensures SummaryOf(s)[c] == Bucket(|InCategory(s, c)|, SumMonthly(InCategory(s, c)))
  {
    var s0, x := s[..|s| - 1], s[|s| - 1];
    var m0 := SummaryOf(s0);
    var f0 := InCategory(s0, c);
    assert s == s0 + [x];
    FilterSnoc(s0, x, HasCategory, c);
    if x.category == c {
      assert InCategory(s, c) == f0 + [x];
      SumMonthlySnoc(f0, x);
      if c in m0 {
        SummaryOfEntries(s0, c);
      } else {
        SummaryOfKeys(s0);
        CategoryAbsent(s0, c);
      }
    } else {
      assert InCategory(s, c) == f0;
      SummaryOfEntries(s0, c);
    }
  }

  lemma CategoryAbsent(s: seq<Subscription>, c: string)
    requires c !in CategoriesOf(s)
    ensures InCategory(s, c) == []
  {
    forall i | 0 <= i < |s|
      ensures !HasCategory(s[i], c)
    {
      assert s[i] in s;
    }
    FilterNone(s, HasCategory, c);
  }

  /** `getCategorySummary`: one entry per category of an active record and
      no other; each entry counts that category's active records and sums
      their monthly prices. The result is treated as a dictionary in which
      every string is an ordinary key. */
  function GetCategorySummary(st: State): (r: map<string, Bucket>)
    ensures r.Keys == CategoriesOf(Active(st.subscriptions))
    ensures forall c :: c in r ==>
      r[c] == Bucket(|InCategory(Active(st.subscriptions), c)|, SumMonthly(InCategory(Active(st.subscriptions), c)))
  {
    var act := Active(st.subscriptions);
    SummaryOfKeys(act);
    forall c | c in SummaryOf(act)
      ensures SummaryOf(act)[c] == Bucket(|InCategory(act, c)|, SumMonthly(InCategory(act, c)))
    {
      SummaryOfEntries(act, c);
    }
    SummaryOf(act)
  }

  // ---------------------------------------------------------------------
  // Summing the summary
  // ---------------------------------------------------------------------

  /** The buckets of the listed keys added up. */
  function SumBuckets(m: map<string, Bucket>, ks: seq<string>): Bucket
    requires forall k :: k in ks ==> k in m
  {
    if ks == [] then Bucket(0, 0.0) else Plus(m[ks[0]], SumBuckets(m, ks[1..]))
  }

  lemma {:induction false} SumIgnoresUnlisted(m: map<string, Bucket>, ks: seq<string>, c: string, v: Bucket)
    requires forall k :: k in ks ==> k in m
    requires c !in ks
    ensures SumBuckets(m[c := v], ks) == SumBuckets(m, ks)
  {
    if ks != [] {
      SumIgnoresUnlisted(m, ks[1..], c, v);
    }
  }

  lemma {:induction false} SumUpdateListed(m: map<string, Bucket>, ks: seq<string>, c: string, v: Bucket)
    requires forall k :: k in ks ==> k in m
    requires NoDup(ks) && c in ks
    ensures Plus(SumBuckets(m[c := v], ks), m[c]) == Plus(SumBuckets(m, ks), v)
  {
    assert NoDup(ks[1..]);
    if ks[0] == c {
      assert c !in ks[1..];
      SumIgnoresUnlisted(m, ks[1..], c, v);
    } else {
      SumUpdateListed(m, ks[1..], c, v);
    }
  }

  lemma {:induction false} SumRemove(m: map<string, Bucket>, ks: seq<string>, c: string)
    requires forall k :: k in ks ==> k in m
    requires NoDup(ks) && c in ks
    ensures SumBuckets(m, ks) == Plus(m[c], SumBuckets(m, Remove(ks, c)))
  {
    assert NoDup(ks[1..]);
    if ks[0] == c {
      assert c !in ks[1..];
    } else {
      SumRemove(m, ks[1..], c);
      assert Remove(ks, c) == [ks[0]] + Remove(ks[1..], c);
    }
  }

  /** Over any duplicate-free listing of its keys, the summary of `s` adds up
      to the number of records and to their summed monthly prices. */
  lemma {:induction false} SummaryOfSums(s: seq<Subscription>, ks: seq<string>)
    requires NoDup(ks)
    requires forall k :: k in ks <==> k in SummaryOf(s)
    ensures SumBuckets(SummaryOf(s), ks) == Bucket(|s|, SumMonthly(s))
  {
    if s != [] {
      var s0, x := s[..|s| - 1], s[|s| - 1];
      var m := SummaryOf(s0);
      var c := x.category;
      var b := if c in m then m[c] else Bucket(0, 0.0);
      var v := Plus(b, Bucket(1, MonthlyPrice(x)));
      assert SummaryOf(s) == m[c := v];
      if c in m {
        SummaryOfSums(s0, ks);
        SumUpdateListed(m, ks, c, v);
      } else {
        var ks0 := Remove(ks, c);
        SummaryOfSums(s0, ks0);
        SumRemove(m[c := v], ks, c);
        SumIgnoresUnlisted(m, ks0, c, v);
      }
    }
  }

  /** The summary totals add up to `getTotalMonthlyExpense` and the counts to
      the number of active records, whichever order the keys are listed in. */
  lemma SummaryMatchesTotal(st: State, ks: seq<string>)
    requires NoDup(ks)
    requires forall k :: k in ks <==> k in GetCategorySummary(st)
    ensures SumBuckets(GetCategorySummary(st), ks)
      == Bucket(|Active(st.subscriptions)|, GetTotalMonthlyExpense(st))
  {
    SummaryOfSums(Active(st.subscriptions), ks);
  }

  /** The entry of a category, zero when the summary has none. */
  function BucketOf(m: map<string, Bucket>, c: string): Bucket {
    if c in m then m[c] else Bucket(0, 0.0)
  }

  /** Every category, listed or not, reads as the count and total of its
      active records. */
  lemma BucketOfSummary(st: State, c: string)
    ensures var f := InCategory(Active(st.subscriptions), c);
      BucketOf(GetCategorySummary(st), c) == Bucket(|f|, SumMonthly(f))
  {
    if c !in GetCategorySummary(st) {
      CategoryAbsent(Active(st.subscriptions), c);
    }
  }

  /** The records of one category among the active ones, split around one record. */
  lemma CategorySplit(a: seq<Subscription>, x: Subscription, b: seq<Subscription>, c: string)
    ensures InCategory(Active(a + ([x] + b)), c)
      == InCategory(Active(a), c) + ((if x.isActive && x.category == c then [x] else []) + InCategory(Active(b), c))
  {
    FilterAppend(a, [x] + b, HasActivity, true);
    FilterCons(x, b, HasActivity, true);
    var fx := if x.isActive then [x] else [];
    FilterAppend(Active(a), fx + Active(b), HasCategory, c);
    FilterAppend(fx, Active(b), HasCategory, c);
    if x.isActive {
      FilterCons(x, [], HasCategory, c);
      assert [x] + [] == [x];
    }
  }

  /** Bucket of a sequence split around one record. */
  lemma SplitBucket(u: seq<Subscription>, m: seq<Subscription>, v: seq<Subscription>)
    ensures Bucket(|u + (m + v)|, SumMonthly(u + (m + v)))
      == Plus(Bucket(|u + v|, SumMonthly(u + v)), Bucket(|m|, SumMonthly(m)))
  {
    SumMonthlyAppend(u, m + v);
    SumMonthlyAppend(m, v);
    SumMonthlyAppend(u, v);
  }

  /** Deactivating the active record with the id takes exactly one record
      and its monthly price out of its category's entry and leaves every
      other category as it was. */
  lemma ToggleOffRemovesFromSummary(st: State, id: string, k: nat, now: Instant, c: string)
    requires IdsUnique(st.subscriptions)
    requires k < |st.subscriptions| && st.subscriptions[k].id == id && st.subscriptions[k].isActive
    ensures var x := st.subscriptions[k];
      var after := Store.ToggleSubscriptionStatus(st, id, now);
      Plus(BucketOf(GetCategorySummary(after), c),
           if c == x.category then Bucket(1, MonthlyPrice(x)) else Bucket(0, 0.0))
        == BucketOf(GetCategorySummary(st), c)
  {
    var s := st.subscriptions;
    var after := Store.ToggleSubscriptionStatus(st, id, now);
    var s' := after.subscriptions;
    var a, b := s[..k], s[k + 1..];
    ToggleSplit(st, id, k, now);
    CategorySplit(a, s[k], b, c);
    CategorySplit(a, s'[k], b, c);
    BucketOfSummary(st, c);
    BucketOfSummary(after, c);
    var u, v := InCategory(Active(a), c), InCategory(Active(b), c);
    var m := if s[k].category == c then [s[k]] else [];
    assert [] + v == v;
    SplitBucket(u, m, v);
    if s[k].category == c {
      SumMonthlySnoc([], s[k]);
      assert [] + [s[k]] == [s[k]];
    }
  }

  // ---------------------------------------------------------------------
  // The summary as the source computes it
  // ---------------------------------------------------------------------

  /** Names every plain object inherits from `Object.prototype`. Reading one
      of them from `{}` yields an inherited, truthy value. */
  const ObjectPrototypeKeys: set<string> := {
    "constructor", "hasOwnProperty", "isPrototypeOf", "propertyIsEnumerable",
    "toString", "toLocaleString", "valueOf", "__proto__",
    "__defineGetter__", "__defineSetter__", "__lookupGetter__", "__lookupSetter__"
  }

  /** The reduce step on a `{}` accumulator: for an inherited name the
      `!summary[category]` test fails, the count and total are written onto
      the inherited value, and the summary gains no entry. */
  function AddToSummaryAsWritten(m: map<string, Bucket>, sub: Subscription): map<string, Bucket> {
    if sub.category in ObjectPrototypeKeys then m else AddToSummary(m, sub)
  }

  /** The as-written reduce is the dictionary reduce with every inherited
      name missing. */
  function SummaryOfAsWritten(s: seq<Subscription>): (r: map<string, Bucket>)
    ensures r == SummaryOf(s) - ObjectPrototypeKeys
  {
    if s == [] then map[]
    else
      var m := SummaryOfAsWritten(s[..|s| - 1]);
      var x := s[|s| - 1];
      DropInheritedStep(SummaryOf(s[..|s| - 1]), x);
      AddToSummaryAsWritten(m, x)
  }

  /** One reduce step commutes with dropping the inherited names. */
  lemma DropInheritedStep(m: map<string, Bucket>, x: Subscription)
    ensures AddToSummaryAsWritten(m - ObjectPrototypeKeys, x) == AddToSummary(m, x) - ObjectPrototypeKeys
  {
    if x.category !in ObjectPrototypeKeys {
      var k := m - ObjectPrototypeKeys;
      assert (x.category in k) == (x.category in m);
      assert AddToSummary(k, x).Keys == AddToSummary(m, x).Keys - ObjectPrototypeKeys;
    } else {
      assert (m - ObjectPrototypeKeys).Keys == AddToSummary(m, x).Keys - ObjectPrototypeKeys;
    }
  }

  /** `getCategorySummary` with the plain-object accumulator of the source:
      the categories of active records, less the inherited names, each with
      the same entry as the dictionary summary. */
  function CategorySummaryAsWritten(st: State): (r: map<string, Bucket>)
    ensures r.Keys == CategoriesOf(Active(st.subscriptions)) - ObjectPrototypeKeys
    ensures forall c :: c in r ==> r[c] == GetCategorySummary(st)[c]
  {
    SummaryOfKeys(Active(st.subscriptions));
    SummaryOfAsWritten(Active(st.subscriptions))
  }

  /** Away from the inherited names the source's summary is the dictionary one. */
  lemma {:induction false} AsWrittenAgreesElsewhere(s: seq<Subscription>)
    requires forall i :: 0 <= i < |s| ==> s[i].category !in ObjectPrototypeKeys
    ensures SummaryOfAsWritten(s) == SummaryOf(s)
  {
    if s != [] {
      AsWrittenAgreesElsewhere(s[..|s| - 1]);
    }
  }

  /** One active record in the category "constructor": the source's summary
      is empty although the monthly total is 10, while the dictionary
      summary holds the category with its total. */
  lemma PrototypeCategoryDropped()
    ensures var x := Subscription("a", "Gym", 10.0, 0, "Visa", "constructor", None,
                                  true, "#000000", "CreditCard", "SAR", Monthly, 0, 0);
      var st := Store.InitialState.(subscriptions := [x]);
      CategorySummaryAsWritten(st) == map[]
      && GetTotalMonthlyExpense(st) == 10.0
      && GetCategorySummary(st) == map["constructor" := Bucket(1, 10.0)]
  {
    var x := Subscription("a", "Gym", 10.0, 0, "Visa", "constructor", None,
                          true, "#000000", "CreditCard", "SAR", Monthly, 0, 0);
    var st := Store.InitialState.(subscriptions := [x]);
    FilterAll([x], HasActivity, true);
    assert Active(st.subscriptions) == [x];
    assert [x][..0] == [];
  }

  /** The summed monthly price of three records. */
  lemma SumOfThree(a: Subscription, b: Subscription, c: Subscription)
    ensures SumMonthly([a, b, c]) == MonthlyPrice(a) + MonthlyPrice(b) + MonthlyPrice(c)
  {
    assert SumMonthly([a]) == MonthlyPrice(a) by {
      SumMonthlySnoc([], a);
      assert [] + [a] == [a];
    }
    assert SumMonthly([a, b]) == SumMonthly([a]) + MonthlyPrice(b) by {
      SumMonthlySnoc([a], b);
      assert [a] + [b] == [a, b];
    }
    assert SumMonthly([a, b, c]) == SumMonthly([a, b]) + MonthlyPrice(c) by {
      SumMonthlySnoc([a, b], c);
      assert [a, b] + [c] == [a, b, c];
    }
  }

  lemma DefaultMonthlySum()
    ensures SumMonthly(Store.DefaultSubscriptions) == 269.97
  {
    var s := Store.DefaultSubscriptions;
    assert s == [s[0], s[1], s[2]];
    SumOfThree(s[0], s[1], s[2]);
    assert MonthlyPrice(s[0]) == 49.99 && MonthlyPrice(s[1]) == 19.99 && MonthlyPrice(s[2]) == 199.99;
  }

  /** When every record is active the total sums all of them. */
  lemma AllActiveTotal(st: State)
    requires forall i :: 0 <= i < |st.subscriptions| ==> st.subscriptions[i].isActive
    ensures GetTotalMonthlyExpense(st) == SumMonthly(st.subscriptions)
  {
    FilterAll(st.subscriptions, HasActivity, true);
  }

  /** The sample data: 49.99 + 19.99 + 199.99 a month. */
  lemma InitialTotal()
    ensures GetTotalMonthlyExpense(Store.InitialState) == 269.97
  {
    var st := Store.InitialState;
    assert st.subscriptions == Store.DefaultSubscriptions;
    assert forall i :: 0 <= i < |st.subscriptions| ==> st.subscriptions[i].isActive;
    AllActiveTotal(st);
    DefaultMonthlySum();
  }
}
