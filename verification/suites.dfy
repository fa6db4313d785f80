/** The composite of test cases and nested suites, shared by both engines (the older one keeps its
    items in `_items`, the newer one in `items`; both only ever append). */
module Suites {

  /** An entry of a suite: a test case (of whichever engine) or a nested suite. */
  datatype Item<C> = CaseItem(testCase: C) | SuiteItem(suite: TestSuite<C>)

  /** The suites an item sequence holds directly. */
  function SuitesIn<C>(items: seq<Item<C>>): set<TestSuite<C>> {
    if items == [] then {}
    else
      var last := items[|items| - 1];
      SuitesIn(items[..|items| - 1]) + (if last.SuiteItem? then {last.suite} else {})
  }

  /** What every suite of `U` holds now. A run reads the suites' items as they are when it
      reaches them; nothing is recorded when a suite is nested. */
  ghost function ItemsOf<C>(U: set<TestSuite<C>>): (g: map<TestSuite<C>, seq<Item<C>>>)
    reads U
  {
    map t | t in U :: t.items
  }

  /** `g` records what every suite of `U` holds now. */
  ghost predicate Current<C>(g: map<TestSuite<C>, seq<Item<C>>>, U: set<TestSuite<C>>)
    reads U
  {
    forall t :: t in U ==> t in g && g[t] == t.items
  }

  /** In the suites recorded by `g`, `s` and every suite below it lie in `U`, and no suite lies
      below itself: below a suite, the rest of the tree lies in `U` without that suite. */
  ghost predicate AcyclicIn<C>(g: map<TestSuite<C>, seq<Item<C>>>, s: TestSuite<C>, U: set<TestSuite<C>>)
    decreases U
  {
    s in U && s in g && forall t :: t in SuitesIn(g[s]) ==> AcyclicIn(g, t, U - {s})
  }

  /** Every suite an item sequence holds directly is acyclic within `U`. */
  ghost predicate AllAcyclic<C>(g: map<TestSuite<C>, seq<Item<C>>>, items: seq<Item<C>>, U: set<TestSuite<C>>) {
    forall t :: t in SuitesIn(items) ==> AcyclicIn(g, t, U)
  }

  /** The cases `s` reaches, in the order a depth-first run visits them. */
  ghost function CasesIn<C>(g: map<TestSuite<C>, seq<Item<C>>>, s: TestSuite<C>, U: set<TestSuite<C>>): seq<C>
    requires AcyclicIn(g, s, U)
    decreases U, 0
  {
    CasesOf(g, g[s], U - {s})
  }

  /** The cases an item contributes, in depth-first order. */
  ghost function ItemCases<C>(g: map<TestSuite<C>, seq<Item<C>>>, it: Item<C>, U: set<TestSuite<C>>): seq<C>
    requires it.SuiteItem? ==> AcyclicIn(g, it.suite, U)
    decreases U, 1, 0
  {
    match it
    case CaseItem(c) => [c]
    case SuiteItem(t) => CasesIn(g, t, U)
  }

  /** The cases of an item sequence, in depth-first, pre-order, insertion order: each nested
      suite is flattened in place before its next sibling. */
  ghost function CasesOf<C>(g: map<TestSuite<C>, seq<Item<C>>>, items: seq<Item<C>>, U: set<TestSuite<C>>): seq<C>
    requires AllAcyclic(g, items, U)
    decreases U, 1, |items|
  {
    if items == [] then []
    else
      var last := items[|items| - 1];
      SuitesInSnoc(items[..|items| - 1], last);
      assert items == items[..|items| - 1] + [last];
      CasesOf(g, items[..|items| - 1], U) + ItemCases(g, last, U)
  }

  /** The suite graph below `s`, as it is now, has no cycle within `U`. */
  ghost predicate Acyclic<C>(s: TestSuite<C>, U: set<TestSuite<C>>)
    reads U
  {
    AcyclicIn(ItemsOf(U), s, U)
  }

  /** The cases a run of `s` reaches, as the suites are now. */
  ghost function Reached<C>(s: TestSuite<C>, U: set<TestSuite<C>>): seq<C>
    requires Acyclic(s, U)
    reads U
  {
    CasesIn(ItemsOf(U), s, U)
  }

  class TestSuite<C> {
    var name: string
    var items: seq<Item<C>>

    /** `new TestSuite(name)`: an empty suite. */
    constructor (name: string)
      ensures this.name == name && items == []
    {
      this.name := name;
      items := [];
    }

    /** add(item): appends a case or a suite, whether or not this suite is already nested;
        every other suite is left as it was. */
    method Add(it: Item<C>)
      modifies this
      ensures name == old(name) && items == old(items) + [it]
      ensures forall U: set<TestSuite<C>> | old(allocated(U)) ::
        ItemsOf(U) == if this in U then old(ItemsOf(U))[this := items] else old(ItemsOf(U))
    {
      items := items + [it];
    }

    /** getSize() / getLength(): the number of direct items. */
    function GetSize(): (n: nat)
      reads this
      ensures n == |items|
    {
      |items|
    }

    /** isEmpty(): no direct item. */
    function IsEmpty(): (r: bool)
      reads this
      ensures r <==> items == []
    {
      |items| == 0
    }
  }

  /** The suites below `xs + [it]` are those below `xs` and the item's own suite. */
  lemma SuitesInSnoc<C>(xs: seq<Item<C>>, it: Item<C>)
    ensures SuitesIn(xs + [it]) == SuitesIn(xs) + (if it.SuiteItem? then {it.suite} else {})
  {
    assert (xs + [it])[..|xs|] == xs;
  }

  /** A suite without items is acyclic in any set holding it and reaches no case. */
  lemma EmptyReachesNothing<C>(s: TestSuite<C>, U: set<TestSuite<C>>)
    requires s.IsEmpty() && s in U
    ensures Acyclic(s, U) && Reached(s, U) == []
  {
    var g := ItemsOf(U);
    assert g[s] == [];
    assert CasesIn(g, s, U) == CasesOf(g, [], U - {s});
  }

  /** Changing what a suite outside `U` holds changes nothing below a suite of `U`. */
  lemma {:induction false} Untouched<C>(g: map<TestSuite<C>, seq<Item<C>>>, s: TestSuite<C>, x: seq<Item<C>>, r: TestSuite<C>, U: set<TestSuite<C>>)
    requires s !in U && AcyclicIn(g, r, U)
    ensures AcyclicIn(g[s := x], r, U) && CasesIn(g[s := x], r, U) == CasesIn(g, r, U)
    decreases U, 0
  {
    UntouchedItems(g, s, x, g[r], U - {r});
  }

  /** The same for an item sequence. */
  lemma {:induction false} UntouchedItems<C>(g: map<TestSuite<C>, seq<Item<C>>>, s: TestSuite<C>, x: seq<Item<C>>, items: seq<Item<C>>, U: set<TestSuite<C>>)
    requires s !in U && AllAcyclic(g, items, U)
    ensures AllAcyclic(g[s := x], items, U) && CasesOf(g[s := x], items, U) == CasesOf(g, items, U)
    decreases U, 1, |items|
  {
    if items != [] {
      var init := items[..|items| - 1];
      var last := items[|items| - 1];
      SuitesInSnoc(init, last);
      assert items == init + [last];
      UntouchedItems(g, s, x, init, U);
      if last.SuiteItem? {
        Untouched(g, s, x, last.suite, U);
      }
      forall t | t in SuitesIn(items) ensures AcyclicIn(g[s := x], t, U) {
        if t !in SuitesIn(init) {
          Untouched(g, s, x, t, U);
        }
      }
    }
  }

  /** Appending an item to `s` keeps it acyclic and adds the item's cases after its own. */
  lemma Appended<C>(g: map<TestSuite<C>, seq<Item<C>>>, s: TestSuite<C>, it: Item<C>, U: set<TestSuite<C>>)
    requires AcyclicIn(g, s, U) && (it.SuiteItem? ==> AcyclicIn(g, it.suite, U - {s}))
    ensures var g2 := g[s := g[s] + [it]];
      AcyclicIn(g2, s, U) && CasesIn(g2, s, U) == CasesIn(g, s, U) + ItemCases(g, it, U - {s})
  {
    var xs := g[s];
    var g2 := g[s := xs + [it]];
    SuitesInSnoc(xs, it);
    UntouchedItems(g, s, xs + [it], xs, U - {s});
    if it.SuiteItem? {
      Untouched(g, s, xs + [it], it.suite, U - {s});
    }
    assert g2[s] == xs + [it];
    assert g2[s][..|g2[s]| - 1] == xs;
    assert CasesIn(g2, s, U) == CasesOf(g2, xs, U - {s}) + ItemCases(g2, it, U - {s});
  }

  /** A case appended to any suite keeps every suite above it acyclic: a suite may be filled
      after it was nested. */
  lemma {:induction false} CaseAddedBelow<C>(g: map<TestSuite<C>, seq<Item<C>>>, s: TestSuite<C>, c: C, r: TestSuite<C>, U: set<TestSuite<C>>)
    requires s in g && AcyclicIn(g, r, U)
    ensures AcyclicIn(g[s := g[s] + [CaseItem(c)]], r, U)
    decreases U
  {
    var g2 := g[s := g[s] + [CaseItem(c)]];
    SuitesInSnoc(g[s], CaseItem(c));
    assert SuitesIn(g2[r]) == SuitesIn(g[r]);
    forall t | t in SuitesIn(g2[r]) ensures AcyclicIn(g2, t, U - {r}) {
      CaseAddedBelow(g, s, c, t, U - {r});
    }
  }

  /** A suite held at index `i` is among the suites of the sequence. */
  lemma {:induction false} ItemSuiteIn<C>(items: seq<Item<C>>, i: nat)
    requires i < |items|
    ensures items[i].SuiteItem? ==> items[i].suite in SuitesIn(items)
    decreases |items|
  {
    if i < |items| - 1 {
      assert items[..|items| - 1][i] == items[i];
      ItemSuiteIn(items[..|items| - 1], i);
    }
  }

  /** The concatenation of a sequence of case sequences. */
  function Flatten<C>(parts: seq<seq<C>>): seq<C> {
    if parts == [] then [] else Flatten(parts[..|parts| - 1]) + parts[|parts| - 1]
  }

  /** Flattening distributes over concatenation of part sequences. */
  lemma {:induction false} FlattenAppend<C>(xs: seq<seq<C>>, ys: seq<seq<C>>)
    ensures Flatten(xs + ys) == Flatten(xs) + Flatten(ys)
    decreases |ys|
  {
    if ys == [] {
      assert xs + ys == xs;
    } else {
      var init := ys[..|ys| - 1];
      var last := ys[|ys| - 1];
      var all := xs + ys;
      assert all[..|all| - 1] == xs + init && all[|all| - 1] == last;
      assert Flatten(all) == Flatten(xs + init) + last;
      FlattenAppend(xs, init);
      assert Flatten(ys) == Flatten(init) + last;
    }
  }

  /** The cases of each item, in order; together they are the flattening of the sequence. */
  lemma {:induction false} CasesByItem<C>(g: map<TestSuite<C>, seq<Item<C>>>, items: seq<Item<C>>, U: set<TestSuite<C>>) returns (parts: seq<seq<C>>)
    requires AllAcyclic(g, items, U)
    ensures |parts| == |items| && Flatten(parts) == CasesOf(g, items, U)
    ensures forall k :: 0 <= k < |items| ==>
      (items[k].SuiteItem? ==> AcyclicIn(g, items[k].suite, U)) && parts[k] == ItemCases(g, items[k], U)
    decreases |items|
  {
    if items == [] {
      parts := [];
    } else {
      var init := items[..|items| - 1];
      var last := items[|items| - 1];
      SuitesInSnoc(init, last);
      assert items == init + [last];
      var front := CasesByItem(g, init, U);
      parts := front + [ItemCases(g, last, U)];
      assert parts[..|parts| - 1] == front;
      forall k | 0 <= k < |items|
        ensures (items[k].SuiteItem? ==> AcyclicIn(g, items[k].suite, U)) && parts[k] == ItemCases(g, items[k], U)
      {
        if k < |init| {
          assert items[k] == init[k];
        }
      }
    }
  }

  /** Visit order: a suite [A, [B], C] reaches A, then B, then C. */
  lemma VisitOrder<C>(s: TestSuite<C>, t: TestSuite<C>, a: C, b: C, c: C, U: set<TestSuite<C>>)
    requires Acyclic(s, U)
    requires s.items == [CaseItem(a), SuiteItem(t), CaseItem(c)] && t.items == [CaseItem(b)]
    ensures Reached(s, U) == [a, b, c]
  {
    var g := ItemsOf(U);
    var xs := s.items;
    var V := U - {s};
    assert g[s] == xs;
    SuitesInSnoc(xs[..2], xs[2]);
    SuitesInSnoc(xs[..1], xs[1]);
    assert xs == xs[..2] + [xs[2]] && xs[..2] == xs[..1] + [xs[1]];
    assert t in SuitesIn(xs);
    assert AcyclicIn(g, t, V) && g[t] == [CaseItem(b)];
    assert xs[..2][..1] == [CaseItem(a)];
    assert xs[..1][..0] == [];
    assert g[t][..0] == [];
    assert CasesOf(g, g[t], V - {t}) == [b];
    assert CasesIn(g, t, V) == [b];
    assert ItemCases(g, xs[1], V) == [b];
    assert CasesOf(g, xs[..1], V) == [a];
    assert CasesOf(g, xs[..2], V) == [a, b];
    assert CasesOf(g, xs, V) == [a, b, c];
    assert CasesIn(g, s, U) == CasesOf(g, xs, V);
  }

  /** A suite holding only a suite that holds only `c` is acyclic and reaches `c`. */
  lemma NestedCase<C>(g: map<TestSuite<C>, seq<Item<C>>>, outer: TestSuite<C>, inner: TestSuite<C>, c: C, U: set<TestSuite<C>>)
    requires U == {outer, inner} && outer != inner
    requires outer in g && inner in g && g[outer] == [SuiteItem(inner)] && g[inner] == [CaseItem(c)]
    ensures AcyclicIn(g, outer, U) && CasesIn(g, outer, U) == [c]
  {
    SuitesInSnoc([], SuiteItem(inner));
    assert [] + [SuiteItem(inner)] == [SuiteItem(inner)];
    assert SuitesIn(g[inner]) == {};
    assert AcyclicIn(g, inner, U - {outer});
    assert g[inner][..0] == [] && g[outer][..0] == [];
    assert CasesOf(g, g[inner], U - {outer} - {inner}) == [c];
    assert CasesIn(g, inner, U - {outer}) == [c];
    assert CasesOf(g, g[outer], U - {outer}) == [c];
  }

  /** A suite filled after it was nested is run in full: `outer.add(inner); inner.add(c)` leaves
      `c` among the cases `outer` reaches. */
  method LateAddition<C>(c: C) returns (outer: TestSuite<C>, inner: TestSuite<C>)
    ensures outer.items == [SuiteItem(inner)] && inner.items == [CaseItem(c)]
    ensures Acyclic(outer, {outer, inner}) && Reached(outer, {outer, inner}) == [c]
  {
    outer := new TestSuite("outer");
    inner := new TestSuite("inner");
    outer.Add(SuiteItem(inner));
    inner.Add(CaseItem(c));
    ghost var U := {outer, inner};
    NestedCase(ItemsOf(U), outer, inner, c, U);
  }
}
