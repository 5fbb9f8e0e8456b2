/** The dashboard's filter bar: the category choices it offers and the
    button that flips the sort direction. */
module FilterBar {
  import opened Types
  import opened Seqs
  import opened Ordering
  import Text
  import Store
  import Expenses

  /** Position of the first occurrence of `x`. */
  function FirstIndex(s: seq<string>, x: string): (r: nat)
    requires x in s
    ensures r < |s| && s[r] == x
    ensures forall k :: 0 <= k < r ==> s[k] != x
  {
    if s[0] == x then 0 else 1 + FirstIndex(s[1..], x)
  }

  lemma FirstIndexSnoc(s: seq<string>, y: string, x: string)
    requires x in s
    ensures FirstIndex(s + [y], x) == FirstIndex(s, x)
  {
    var a, b := FirstIndex(s + [y], x), FirstIndex(s, x);
    assert (s + [y])[b] == x;
    assert s[a] == x;
  }

  /** `Array.from(new Set(s))`: each string once, in the order of its first
      occurrence. */
  function Distinct(s: seq<string>): (r: seq<string>)
    ensures NoDup(r)
    ensures forall x :: x in r <==> x in s
  {
    if s == [] then []
    else
      var d := Distinct(s[..|s| - 1]);
      var y := s[|s| - 1];
      assert s == s[..|s| - 1] + [y];
      if y in d then d else d + [y]
  }

  /** The distinct strings are listed in the order they first appear. */
  lemma {:induction false} DistinctKeepsFirstOccurrenceOrder(s: seq<string>, i: int, j: int)
    requires 0 <= i < j < |Distinct(s)|
    ensures FirstIndex(s, Distinct(s)[i]) < FirstIndex(s, Distinct(s)[j])
  {
    var s0, y := s[..|s| - 1], s[|s| - 1];
    var d := Distinct(s0);
    var r := Distinct(s);
    assert s == s0 + [y];
    assert r[i] in s0 by {
      assert r[i] == d[i];
    }
    FirstIndexSnoc(s0, y, r[i]);
    if j < |d| {
      assert r[i] == d[i] && r[j] == d[j];
      FirstIndexSnoc(s0, y, r[j]);
      DistinctKeepsFirstOccurrenceOrder(s0, i, j);
    } else {
      assert r[j] == y && y !in s0;
      assert FirstIndex(s, y) == |s0|;
    }
  }

  /** The category of every record, in store order. */
  function CategoryList(subs: seq<Subscription>): (r: seq<string>)
    ensures |r| == |subs|
    ensures forall i :: 0 <= i < |subs| ==> r[i] == subs[i].category
  {
    seq(|subs|, i requires 0 <= i < |subs| => subs[i].category)
  }

  /** The categories the filter offers (besides "all"): those of the records,
      active or not, each once, in order of first appearance. */
  function Categories(subs: seq<Subscription>): (r: seq<string>)
    ensures NoDup(r)
    ensures forall c :: c in r <==> exists i :: 0 <= i < |subs| && subs[i].category == c
  {
    var cs := CategoryList(subs);
    var r := Distinct(cs);
    assert forall c :: c in cs <==> exists i :: 0 <= i < |subs| && subs[i].category == c by {
      forall c | c in cs
        ensures exists i :: 0 <= i < |subs| && subs[i].category == c
      {
        var i :| 0 <= i < |cs| && cs[i] == c;
        assert subs[i].category == c;
      }
      forall c | exists i :: 0 <= i < |subs| && subs[i].category == c
        ensures c in cs
      {
        var i :| 0 <= i < |subs| && subs[i].category == c;
        assert cs[i] == c;
      }
    }
    r
  }

  /** The category of any record in the collection is offered. */
  lemma CategoryOffered(subs: seq<Subscription>, x: Subscription)
    requires x in subs
    ensures x.category in Categories(subs)
  {
    var i :| 0 <= i < |subs| && subs[i] == x;
    assert subs[i].category == x.category;
  }

  /** Every category of the expense summary can be chosen in the filter. */
  lemma SummaryCategoriesOffered(st: State, c: string)
    requires c in Expenses.GetCategorySummary(st)
    ensures c in Categories(st.subscriptions)
  {
    var act := Expenses.Active(st.subscriptions);
    assert c in Expenses.CategoriesOf(act);
    var x :| x in act && x.category == c;
    assert x in st.subscriptions;
    CategoryOffered(st.subscriptions, x);
  }

  /** With no search term, choosing an offered category keeps every record
      of that category, so the list is never empty. */
  lemma ChosenCategoryShown(st: State, c: string)
    requires st.searchTerm == "" && c in Categories(st.subscriptions)
    ensures var r := Store.GetFilteredSubscriptions(Store.SetFilterCategory(st, c));
      |r| > 0 && forall x :: x in st.subscriptions && x.category == c ==> x in r
  {
    var st' := Store.SetFilterCategory(st, c);
    var r := Store.GetFilteredSubscriptions(st');
    forall x | x in st.subscriptions && x.category == c
      ensures x in r
    {
      EmptySearchMatches(x);
      assert Store.MatchesCategory(x, st'.filterCategory);
    }
    var i :| 0 <= i < |st.subscriptions| && st.subscriptions[i].category == c;
    assert st.subscriptions[i] in r;
  }

  /** The empty search term admits every record. */
  lemma EmptySearchMatches(x: Subscription)
    ensures Store.MatchesSearch(x, "")
  {
    assert Text.Lower("") == [];
  }

  /** The sort-direction button: ascending becomes descending and back. */
  function ToggleSortOrder(o: SortOrder): (r: SortOrder)
    ensures r != o
  {
    if o == Asc then Desc else Asc
  }

  lemma ToggleTwiceIsIdentity(o: SortOrder)
    ensures ToggleSortOrder(ToggleSortOrder(o)) == o
  {
  }

  /** One click of the button: only the sort direction changes. */
  function ClickSortOrder(st: State): (r: State)
    ensures r.sortOrder != st.sortOrder
    ensures r.subscriptions == st.subscriptions && r.searchTerm == st.searchTerm
    ensures r.filterCategory == st.filterCategory && r.sortBy == st.sortBy
  {
    Store.SetSortOrder(st, ToggleSortOrder(st.sortOrder))
  }

  /** Two clicks give back the state. */
  lemma ClickTwice(st: State)
    ensures ClickSortOrder(ClickSortOrder(st)) == st
  {
  }

  /** After a click every comparison is reversed: `a` goes before `b` exactly
      when `b` went before `a`. */
  lemma ClickReversesComparisons(st: State, a: Subscription, b: Subscription)
    ensures var after := ClickSortOrder(st);
      Before(a, b, after.sortBy, after.sortOrder) <==> Before(b, a, st.sortBy, st.sortOrder)
  {
  }

  /** After a click the displayed list holds the same records, now sorted in
      the other direction. */
  lemma ClickKeepsRecords(st: State)
    ensures var before := Store.GetFilteredSubscriptions(st);
      var after := Store.GetFilteredSubscriptions(ClickSortOrder(st));
      multiset(after) == multiset(before)
      && forall i, j :: 0 <= i < j < |after| ==> !Before(after[i], after[j], st.sortBy, st.sortOrder)
  {
    var after := Store.GetFilteredSubscriptions(ClickSortOrder(st));
    forall i, j | 0 <= i < j < |after|
      ensures !Before(after[i], after[j], st.sortBy, st.sortOrder)
    {
      ClickReversesComparisons(st, after[j], after[i]);
    }
  }
}
