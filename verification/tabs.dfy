/** Browser tabs and the selection both background scripts make on every tick:
    keep the tracked tabs with an http(s) URL and order them by `index`. */
module Tabs {
  import opened Js

  /** A tab as `tabs.query` reports it. `url` is absent when the extension may not read it. */
  datatype Tab = Tab(id: int, index: int, url: Option<string>)

  /** `/^https?:\/\//.test(tab.url)`; an absent URL is tested as the text "undefined". */
  predicate IsHttpUrl(url: Option<string>) {
    url.Some? && (StartsWith(url.value, "http://") || StartsWith(url.value, "https://"))
  }

  /** The filter of `checkAllTabs`: tracked, and an http(s) page. */
  predicate Selected(t: Tab, tracked: set<int>) {
    t.id in tracked && IsHttpUrl(t.url)
  }

  /** `tabs.filter(...)`: the selected tabs, in their order in `tabs`. */
  function Filter(tabs: seq<Tab>, tracked: set<int>): (r: seq<Tab>)
    ensures |r| <= |tabs|
    ensures forall t :: t in r ==> Selected(t, tracked)
  {
    if tabs == [] then []
    else
      var rest := Filter(tabs[1..], tracked);
      if Selected(tabs[0], tracked) then [tabs[0]] + rest else rest
  }

  /** The filter keeps every selected tab as often as it occurs, and nothing else. */
  lemma {:induction false} FilterCounts(tabs: seq<Tab>, tracked: set<int>)
    ensures forall t :: multiset(Filter(tabs, tracked))[t] == if Selected(t, tracked) then multiset(tabs)[t] else 0
  {
    if tabs != [] {
      FilterCounts(tabs[1..], tracked);
      assert tabs == [tabs[0]] + tabs[1..];
    }
  }

  /** `filter` keeps the order of its input: filtering a concatenation concatenates the
      filtered parts. */
  lemma {:induction false} FilterAppend(a: seq<Tab>, b: seq<Tab>, tracked: set<int>)
    ensures Filter(a + b, tracked) == Filter(a, tracked) + Filter(b, tracked)
  {
    if a == [] {
      assert a + b == b;
    } else {
      assert (a + b)[1..] == a[1..] + b;
      FilterAppend(a[1..], b, tracked);
    }
  }

  /** Non-decreasing `index`, the order `sort((a, b) => a.index - b.index)` produces. */
  predicate SortedByIndex(s: seq<Tab>) {
    forall i, j :: 0 <= i < j < |s| ==> s[i].index <= s[j].index
  }

  /** The tabs of `s` whose `index` is `k`, in their order in `s`. */
  function WithIndex(s: seq<Tab>, k: int): seq<Tab> {
    if s == [] then []
    else (if s[0].index == k then [s[0]] else []) + WithIndex(s[1..], k)
  }

  /** Puts `x` in front of the first tab whose index is not smaller. */
  function Insert(x: Tab, s: seq<Tab>): (r: seq<Tab>)
    ensures multiset(r) == multiset(s) + multiset{x}
    ensures |r| == |s| + 1
    ensures r[0] == x || (s != [] && r[0] == s[0])
  {
    if s == [] || x.index <= s[0].index then [x] + s
    else
      assert s == [s[0]] + s[1..];
      [s[0]] + Insert(x, s[1..])
  }

  lemma {:induction false} InsertSorted(x: Tab, s: seq<Tab>)
    requires SortedByIndex(s)
    ensures SortedByIndex(Insert(x, s))
  {
    if s != [] && x.index > s[0].index {
      var rest := Insert(x, s[1..]);
      InsertSorted(x, s[1..]);
      assert Insert(x, s) == [s[0]] + rest;
      assert s[0].index <= rest[0].index;
      forall i, j | 0 <= i < j < |rest| + 1
        ensures ([s[0]] + rest)[i].index <= ([s[0]] + rest)[j].index
      {
        if i > 0 {
          assert ([s[0]] + rest)[i] == rest[i - 1];
        }
        if i == 0 && j > 1 {
          assert rest[0].index <= rest[j - 1].index;
        }
      }
    }
  }

  /** The stable sort by `index` (JavaScript's `Array.prototype.sort` is stable): sorted,
      and a permutation of its input. */
  function SortByIndex(s: seq<Tab>): (r: seq<Tab>)
    ensures SortedByIndex(r)
    ensures multiset(r) == multiset(s)
    ensures |r| == |s|
  {
    if s == [] then []
    else
      assert s == [s[0]] + s[1..];
      InsertSorted(s[0], SortByIndex(s[1..]));
      Insert(s[0], SortByIndex(s[1..]))
  }

  lemma WithIndexCons(a: Tab, s: seq<Tab>, k: int)
    ensures WithIndex([a] + s, k) == (if a.index == k then [a] else []) + WithIndex(s, k)
  {
    assert ([a] + s)[1..] == s;
  }

  lemma {:induction false} InsertKeepsTies(x: Tab, s: seq<Tab>, k: int)
    ensures WithIndex(Insert(x, s), k) == (if x.index == k then [x] else []) + WithIndex(s, k)
  {
    if s == [] || x.index <= s[0].index {
      WithIndexCons(x, s, k);
    } else {
      var s0, tail := s[0], s[1..];
      assert s == [s0] + tail;
      InsertKeepsTies(x, tail, k);
      WithIndexCons(s0, Insert(x, tail), k);
      WithIndexCons(s0, tail, k);
      var xs := if x.index == k then [x] else [];
      var ss := if s0.index == k then [s0] else [];
      assert xs == [] || ss == [];
      assert WithIndex(Insert(x, s), k) == ss + (xs + WithIndex(tail, k));
      assert WithIndex(s, k) == ss + WithIndex(tail, k);
    }
  }

  /** Stability: tabs that share an index keep the order they had in `s`. */
  lemma {:induction false} SortIsStable(s: seq<Tab>, k: int)
    ensures WithIndex(SortByIndex(s), k) == WithIndex(s, k)
  {
    if s != [] {
      SortIsStable(s[1..], k);
      InsertKeepsTies(s[0], SortByIndex(s[1..]), k);
      WithIndexCons(s[0], s[1..], k);
      assert s == [s[0]] + s[1..];
    }
  }

  /** The tabs one tick acts on: the selected tabs in non-decreasing `index` order. */
  function Targets(tabs: seq<Tab>, tracked: set<int>): (r: seq<Tab>)
    ensures SortedByIndex(r)
  {
    SortByIndex(Filter(tabs, tracked))
  }

  /** The targets are exactly the selected tabs, each as often as it occurs in `tabs`. */
  lemma TargetsAreSelected(tabs: seq<Tab>, tracked: set<int>)
    ensures forall t :: multiset(Targets(tabs, tracked))[t] == if Selected(t, tracked) then multiset(tabs)[t] else 0
    ensures forall t :: t in Targets(tabs, tracked) <==> t in tabs && Selected(t, tracked)
  {
    var r := Targets(tabs, tracked);
    FilterCounts(tabs, tracked);
    assert forall t :: t in r <==> multiset(r)[t] > 0;
    assert forall t :: t in tabs <==> multiset(tabs)[t] > 0;
  }

  /** Targets sharing an index are acted on in the order `tabs.query` listed them. */
  lemma TargetsKeepQueryOrder(tabs: seq<Tab>, tracked: set<int>, k: int)
    ensures WithIndex(Targets(tabs, tracked), k) == WithIndex(Filter(tabs, tracked), k)
  {
    SortIsStable(Filter(tabs, tracked), k);
  }

  /** Two tabs, both tracked; the second is a `chrome://` page: only the first is a target. */
  lemma OnlyHttpTabIsTargeted()
    ensures Targets([Tab(1, 0, Some("https://a")), Tab(2, 1, Some("chrome://x"))], {1, 2})
      == [Tab(1, 0, Some("https://a"))]
  {
    var a := Tab(1, 0, Some("https://a"));
    var b := Tab(2, 1, Some("chrome://x"));
    assert StartsWith("https://a", "https://");
    assert !StartsWith("chrome://x", "http://") && !StartsWith("chrome://x", "https://") by {
      assert "chrome://x"[0] == 'c';
    }
    assert Filter([b], {1, 2}) == [];
    assert Filter([a, b], {1, 2}) == [a] by {
      assert [a, b][1..] == [b];
    }
  }
}
