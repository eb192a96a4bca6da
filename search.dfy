/** `searchAndSortRecords` (scripts/search.js): a case-insensitive category filter, a
    case-insensitive description search, then `Array.prototype.sort` with one of six comparators.
    The sort is modelled by insertion sort, which is proved to be the one and only stable sort for
    each comparator, so it stands for any stable sorting algorithm. */
module Search {
  import opened Text
  import opened Seqs
  import opened Patterns
  import opened Records

  datatype SortType = DateAsc | DateDesc | AmountAsc | AmountDesc | CategoryAsc | CategoryDesc | Unordered

  /** The `switch (sortType)`: the six known keys, and the default branch for anything else. */
  function ParseSortType(s: string): SortType {
    if s == "date-asc" then DateAsc
    else if s == "date-desc" then DateDesc
    else if s == "amount-asc" then AmountAsc
    else if s == "amount-desc" then AmountDesc
    else if s == "category-asc" then CategoryAsc
    else if s == "category-desc" then CategoryDesc
    else Unordered
  }

  /** The `{ query, category, sortType }` argument. */
  datatype Criteria = Criteria(query: string, category: string, sortType: string)

  /** The date `new Date(d || 0)` stands for, as `YYYY-MM-DD` text: a missing date is epoch 0,
      the first instant of 1970-01-01. */
  function DateKey(d: string): string {
    if d == "" then "1970-01-01" else d
  }

  /** The comparator handed to `sort`: negative when `a` belongs before `b`, positive when after,
      zero when the two tie. Dates are compared as `YYYY-MM-DD` text, whose order is the order in
      time, with a missing date read as 1970-01-01. */
  function Comparator(t: SortType, a: Record, b: Record): int {
    match t
    case DateAsc => Compare(DateKey(a.date), DateKey(b.date))
    case DateDesc => Compare(DateKey(b.date), DateKey(a.date))
    case AmountAsc => Cents(a.amount) - Cents(b.amount)
    case AmountDesc => Cents(b.amount) - Cents(a.amount)
    case CategoryAsc => Compare(a.category, b.category)
    case CategoryDesc => Compare(b.category, a.category)
    case Unordered => 0
  }

  lemma ComparatorAntisymmetric(t: SortType, a: Record, b: Record)
    ensures Comparator(t, a, b) == -Comparator(t, b, a)
  {
    CompareAntisymmetric(DateKey(a.date), DateKey(b.date));
    CompareAntisymmetric(a.category, b.category);
  }

  lemma ComparatorTransitive(t: SortType, a: Record, b: Record, c: Record)
    requires Comparator(t, a, b) <= 0 && Comparator(t, b, c) <= 0
    ensures Comparator(t, a, c) <= 0
  {
    match t
    case DateAsc => CompareTransitive(DateKey(a.date), DateKey(b.date), DateKey(c.date));
    case DateDesc => CompareTransitive(DateKey(c.date), DateKey(b.date), DateKey(a.date));
    case CategoryAsc => CompareTransitive(a.category, b.category, c.category);
    case CategoryDesc => CompareTransitive(c.category, b.category, a.category);
    case _ =>
  }

  /** Records that tie compare alike with every other record. */
  lemma ComparatorTieCongruent(t: SortType, a: Record, b: Record, c: Record)
    requires Comparator(t, a, b) == 0
    ensures Comparator(t, a, c) == Comparator(t, b, c)
  {
    CompareZeroIff(DateKey(a.date), DateKey(b.date));
    CompareZeroIff(DateKey(b.date), DateKey(a.date));
    CompareZeroIff(a.category, b.category);
    CompareZeroIff(b.category, a.category);
  }

  lemma ComparatorReflexive(t: SortType, a: Record)
    ensures Comparator(t, a, a) == 0
  {
    CompareZeroIff(DateKey(a.date), DateKey(a.date));
    CompareZeroIff(a.category, a.category);
  }

  // ---------------------------------------------------------------- sorting

  /** Every record comes no later in the comparator's order than every record after it. */
  ghost predicate Sorted(t: SortType, s: seq<Record>) {
    forall i, j :: 0 <= i < j < |s| ==> Comparator(t, s[i], s[j]) <= 0
  }

  /** The test "ties with `x`" under the comparator. */
  function TiesWith(t: SortType, x: Record): Record -> bool {
    y => Comparator(t, x, y) == 0
  }

  /** The records of `s` that tie with `x`, in their order in `s`. */
  function SameRank(t: SortType, x: Record, s: seq<Record>): seq<Record> {
    Filter(s, TiesWith(t, x))
  }

  /** What a stable sort of `s` must return: a permutation of `s`, sorted, in which every group of
      tying records keeps its order from `s`. */
  ghost predicate IsStableSortOf(t: SortType, r: seq<Record>, s: seq<Record>) {
    && multiset(r) == multiset(s)
    && Sorted(t, r)
    && forall x :: SameRank(t, x, r) == SameRank(t, x, s)
  }

  /** Puts `x` in front of the first record that does not come strictly before it. */
  function Insert(t: SortType, x: Record, s: seq<Record>): (r: seq<Record>)
    ensures multiset(r) == multiset(s) + multiset{x}
  {
    if s == [] || Comparator(t, x, s[0]) <= 0 then [x] + s
    else
      assert s == [s[0]] + s[1..];
      [s[0]] + Insert(t, x, s[1..])
  }

  /** `sort` with a comparator: insertion sort, each record placed ahead of the later ones it ties. */
  function StableSort(t: SortType, s: seq<Record>): (r: seq<Record>)
    ensures multiset(r) == multiset(s)
  {
    if s == [] then []
    else
      assert s == [s[0]] + s[1..];
      Insert(t, s[0], StableSort(t, s[1..]))
  }

  /** A record that comes no later than the first of a sorted sequence can go in front of it. */
  lemma ConsSorted(t: SortType, x: Record, s: seq<Record>)
    requires Sorted(t, s) && (s == [] || Comparator(t, x, s[0]) <= 0)
    ensures Sorted(t, [x] + s)
  {
    var r := [x] + s;
    forall j | 0 < j < |r| ensures Comparator(t, x, r[j]) <= 0 {
      assert r[j] == s[j - 1];
      if j > 1 { ComparatorTransitive(t, x, s[0], s[j - 1]); }
    }
    forall i, j | 0 < i < j < |r| ensures Comparator(t, r[i], r[j]) <= 0 {
      assert r[i] == s[i - 1] && r[j] == s[j - 1];
    }
  }

  /** A record that comes no later than `x` and than every record of `s` comes no later than
      anything in `Insert(t, x, s)`. */
  lemma BeforeInsert(t: SortType, y: Record, x: Record, s: seq<Record>)
    requires Comparator(t, y, x) <= 0
    requires forall k :: 0 <= k < |s| ==> Comparator(t, y, s[k]) <= 0
    ensures forall j :: 0 <= j < |Insert(t, x, s)| ==> Comparator(t, y, Insert(t, x, s)[j]) <= 0
  {
    var r := Insert(t, x, s);
    forall j | 0 <= j < |r| ensures Comparator(t, y, r[j]) <= 0 {
      assert r[j] in multiset(r);
      if r[j] != x {
        assert r[j] in multiset(s);
        var k :| 0 <= k < |s| && s[k] == r[j];
      }
    }
  }

  lemma SortedTail(t: SortType, s: seq<Record>)
    requires Sorted(t, s) && s != []
    ensures Sorted(t, s[1..])
  {
    forall i, j | 0 <= i < j < |s| - 1 ensures Comparator(t, s[1..][i], s[1..][j]) <= 0 {
      assert s[1..][i] == s[i + 1] && s[1..][j] == s[j + 1];
    }
  }

  lemma {:induction false} InsertSorted(t: SortType, x: Record, s: seq<Record>)
    requires Sorted(t, s)
    ensures Sorted(t, Insert(t, x, s))
  {
    if s == [] || Comparator(t, x, s[0]) <= 0 {
      ConsSorted(t, x, s);
    } else {
      var tail := Insert(t, x, s[1..]);
      SortedTail(t, s);
      InsertSorted(t, x, s[1..]);
      ComparatorAntisymmetric(t, x, s[0]);
      BeforeInsert(t, s[0], x, s[1..]);
      ConsSorted(t, s[0], tail);
      assert Insert(t, x, s) == [s[0]] + tail;
    }
  }

  lemma {:induction false} StableSortSorted(t: SortType, s: seq<Record>)
    ensures Sorted(t, StableSort(t, s))
  {
    if s != [] {
      StableSortSorted(t, s[1..]);
      InsertSorted(t, s[0], StableSort(t, s[1..]));
    }
  }

  /** Filtering a sequence that starts with `x`. */
  lemma FilterCons(x: Record, s: seq<Record>, p: Record -> bool)
    ensures Filter([x] + s, p) == (if p(x) then [x] else []) + Filter(s, p)
  {
    assert ([x] + s)[0] == x && ([x] + s)[1..] == s;
  }

  /** A record that comes strictly after `y` cannot tie with what `y` ties with. */
  lemma NotBothTie(t: SortType, x0: Record, x: Record, y: Record)
    requires Comparator(t, x, y) > 0
    ensures !(Comparator(t, x0, x) == 0 && Comparator(t, x0, y) == 0)
  {
    if Comparator(t, x0, x) == 0 {
      ComparatorTieCongruent(t, x0, x, y);
    }
  }

  /** Two records of which at most one is kept can be kept in either order. */
  lemma SwapKept(x: Record, y: Record, px: bool, py: bool, w: seq<Record>)
    requires !(px && py)
    ensures (if py then [y] else []) + ((if px then [x] else []) + w)
         == (if px then [x] else []) + ((if py then [y] else []) + w)
  {
  }

  /** Inserting `x` adds it to its own group of ties, in front, and leaves every other group alone. */
  lemma {:induction false} InsertSameRank(t: SortType, x0: Record, x: Record, s: seq<Record>)
    ensures SameRank(t, x0, Insert(t, x, s))
         == (if Comparator(t, x0, x) == 0 then [x] else []) + SameRank(t, x0, s)
  {
    var p := TiesWith(t, x0);
    if s == [] || Comparator(t, x, s[0]) <= 0 {
      FilterCons(x, s, p);
    } else {
      var tail := Insert(t, x, s[1..]);
      var px, py := Comparator(t, x0, x) == 0, Comparator(t, x0, s[0]) == 0;
      assert p(x) == px && p(s[0]) == py;
      NotBothTie(t, x0, x, s[0]);
      calc {
        SameRank(t, x0, Insert(t, x, s));
        SameRank(t, x0, [s[0]] + tail);
        { FilterCons(s[0], tail, p); }
        (if py then [s[0]] else []) + SameRank(t, x0, tail);
        { InsertSameRank(t, x0, x, s[1..]); }
        (if py then [s[0]] else []) + ((if px then [x] else []) + SameRank(t, x0, s[1..]));
        { SwapKept(x, s[0], px, py, SameRank(t, x0, s[1..])); }
        (if px then [x] else []) + ((if py then [s[0]] else []) + SameRank(t, x0, s[1..]));
        { FilterCons(s[0], s[1..], p); assert [s[0]] + s[1..] == s; }
        (if px then [x] else []) + SameRank(t, x0, s);
      }
    }
  }

  lemma {:induction false} StableSortSameRank(t: SortType, x0: Record, s: seq<Record>)
    ensures SameRank(t, x0, StableSort(t, s)) == SameRank(t, x0, s)
  {
    if s != [] {
      StableSortSameRank(t, x0, s[1..]);
      InsertSameRank(t, x0, s[0], StableSort(t, s[1..]));
      FilterCons(s[0], s[1..], TiesWith(t, x0));
      assert [s[0]] + s[1..] == s;
    }
  }

  /** The model of `sort` is a stable sort: a sorted permutation in which tying records keep their
      input order. */
  lemma StableSortIsStable(t: SortType, s: seq<Record>)
    ensures IsStableSortOf(t, StableSort(t, s), s)
  {
    StableSortSorted(t, s);
    forall x ensures SameRank(t, x, StableSort(t, s)) == SameRank(t, x, s) {
      StableSortSameRank(t, x, s);
    }
  }

  /** The first records of two sorted permutations of each other tie. */
  lemma SortedHeadsTie(t: SortType, a: seq<Record>, b: seq<Record>)
    requires a != [] && b != []
    requires multiset(a) == multiset(b) && Sorted(t, a) && Sorted(t, b)
    ensures Comparator(t, a[0], b[0]) == 0
  {
    assert a[0] in multiset(b) && b[0] in multiset(a);
    var i :| 0 <= i < |b| && b[i] == a[0];
    var j :| 0 <= j < |a| && a[j] == b[0];
    ComparatorReflexive(t, a[0]);
    ComparatorReflexive(t, b[0]);
    assert Comparator(t, b[0], a[0]) <= 0;
    assert Comparator(t, a[0], b[0]) <= 0;
    ComparatorAntisymmetric(t, a[0], b[0]);
  }

  lemma PrefixCancel(c: seq<Record>, u: seq<Record>, v: seq<Record>)
    requires c + u == c + v
    ensures u == v
  {
    assert u == (c + u)[|c|..];
    assert v == (c + v)[|c|..];
  }

  /** Two sequences with the same groups of ties and tying first records have the same first
      record, and then the same groups of ties after it. */
  lemma SameRankHeads(t: SortType, a: seq<Record>, b: seq<Record>)
    requires a != [] && b != [] && Comparator(t, a[0], b[0]) == 0
    requires forall x :: SameRank(t, x, a) == SameRank(t, x, b)
    ensures a[0] == b[0]
    ensures forall x :: SameRank(t, x, a[1..]) == SameRank(t, x, b[1..])
  {
    assert a == [a[0]] + a[1..] && b == [b[0]] + b[1..];
    ComparatorReflexive(t, a[0]);
    FilterCons(a[0], a[1..], TiesWith(t, a[0]));
    FilterCons(b[0], b[1..], TiesWith(t, a[0]));
    assert SameRank(t, a[0], a)[0] == a[0];
    assert SameRank(t, a[0], b)[0] == b[0];
    forall x ensures SameRank(t, x, a[1..]) == SameRank(t, x, b[1..]) {
      FilterCons(a[0], a[1..], TiesWith(t, x));
      FilterCons(b[0], b[1..], TiesWith(t, x));
      assert SameRank(t, x, a) == SameRank(t, x, b);
      PrefixCancel(if Comparator(t, x, a[0]) == 0 then [a[0]] else [], SameRank(t, x, a[1..]), SameRank(t, x, b[1..]));
    }
  }

  /** Two sorted sequences with the same records and the same order inside every group of ties are
      equal. */
  lemma {:induction false} SortedUnique(t: SortType, a: seq<Record>, b: seq<Record>)
    requires multiset(a) == multiset(b) && Sorted(t, a) && Sorted(t, b)
    requires forall x :: SameRank(t, x, a) == SameRank(t, x, b)
    ensures a == b
    decreases |a|
  {
    assert |b| == |multiset(b)| == |multiset(a)| == |a|;
    if a != [] {
      SortedHeadsTie(t, a, b);
      SameRankHeads(t, a, b);
      MultisetTail(a, b);
      SortedTail(t, a);
      SortedTail(t, b);
      SortedUnique(t, a[1..], b[1..]);
      assert a == [a[0]] + a[1..] && b == [b[0]] + b[1..];
    }
  }

  lemma MultisetTail(a: seq<Record>, b: seq<Record>)
    requires a != [] && b != [] && a[0] == b[0] && multiset(a) == multiset(b)
    ensures multiset(a[1..]) == multiset(b[1..])
  {
    assert a == [a[0]] + a[1..] && b == [b[0]] + b[1..];
    assert multiset(a) == multiset{a[0]} + multiset(a[1..]);
    assert multiset(b) == multiset{b[0]} + multiset(b[1..]);
    assert multiset(a[1..]) == multiset(a) - multiset{a[0]};
    assert multiset(b[1..]) == multiset(b) - multiset{b[0]};
  }

  /** And it is the only one: any stable sort of `s` returns exactly `StableSort(t, s)`, so the
      model does not depend on which stable algorithm the engine runs. */
  lemma StableSortUnique(t: SortType, s: seq<Record>, r: seq<Record>)
    requires IsStableSortOf(t, r, s)
    ensures r == StableSort(t, s)
  {
    StableSortIsStable(t, s);
    SortedUnique(t, r, StableSort(t, s));
  }

  /** With the default comparator every pair ties, so the order is left as it is. */
  lemma {:induction false} UnorderedSortIsIdentity(s: seq<Record>)
    ensures StableSort(Unordered, s) == s
  {
    if s != [] {
      UnorderedSortIsIdentity(s[1..]);
      assert [s[0]] + s[1..] == s;
    }
  }

  /** What "sorted" means for each key. */
  lemma SortedByKey(t: SortType, s: seq<Record>, i: int, j: int)
    requires Sorted(t, s) && 0 <= i < j < |s|
    ensures t == AmountAsc ==> Cents(s[i].amount) <= Cents(s[j].amount)
    ensures t == AmountDesc ==> Cents(s[i].amount) >= Cents(s[j].amount)
    ensures t == DateAsc ==> Compare(DateKey(s[i].date), DateKey(s[j].date)) <= 0
    ensures t == DateDesc ==> Compare(DateKey(s[j].date), DateKey(s[i].date)) <= 0
    ensures t == CategoryAsc ==> Compare(s[i].category, s[j].category) <= 0
    ensures t == CategoryDesc ==> Compare(s[j].category, s[i].category) <= 0
  {
  }

  // ---------------------------------------------------------------- filtering

  /** The category filter's test: equal after lower-casing, a missing category reading as "". */
  predicate InCategory(category: string, r: Record) {
    Lower(r.category) == Lower(category)
  }

  function CategoryTest(category: string): Record -> bool {
    r => InCategory(category, r)
  }

  /** The search's test: the lower-cased description contains the lower-cased, trimmed query. */
  predicate MatchesQuery(query: string, r: Record) {
    Contains(Lower(r.description), Trim(Lower(query)))
  }

  function QueryTest(query: string): Record -> bool {
    r => MatchesQuery(query, r)
  }

  /** `if (category) filtered = filtered.filter(...)`: an empty category filters nothing. */
  function CategoryFilter(rs: seq<Record>, category: string): seq<Record> {
    if category == "" then rs else Filter(rs, CategoryTest(category))
  }

  /** `if (query) filtered = filtered.filter(...)`: an empty query filters nothing. */
  function QueryFilter(rs: seq<Record>, query: string): seq<Record> {
    if query == "" then rs else Filter(rs, QueryTest(query))
  }

  /** Whether a record survives both filters. */
  predicate Selected(c: Criteria, r: Record) {
    && (c.category != "" ==> InCategory(c.category, r))
    && (c.query != "" ==> MatchesQuery(c.query, r))
  }

  function SelectedTest(c: Criteria): Record -> bool {
    r => Selected(c, r)
  }

  /** `searchAndSortRecords(records, criteria)`. */
  function SearchAndSort(rs: seq<Record>, c: Criteria): seq<Record> {
    StableSort(ParseSortType(c.sortType), QueryFilter(CategoryFilter(rs, c.category), c.query))
  }

  /** The two filters in turn keep exactly the selected records, in input order. */
  lemma {:induction false} FiltersSelect(rs: seq<Record>, c: Criteria)
    ensures QueryFilter(CategoryFilter(rs, c.category), c.query) == Filter(rs, SelectedTest(c))
  {
    if rs != [] {
      FiltersSelect(rs[1..], c);
      assert rs == [rs[0]] + rs[1..];
      FilterCons(rs[0], rs[1..], SelectedTest(c));
      if c.category == "" {
        if c.query != "" {
          FilterCons(rs[0], rs[1..], QueryTest(c.query));
        }
      } else {
        FilterCons(rs[0], rs[1..], CategoryTest(c.category));
        if InCategory(c.category, rs[0]) {
          assert CategoryFilter(rs, c.category) == [rs[0]] + CategoryFilter(rs[1..], c.category);
          if c.query != "" {
            FilterCons(rs[0], CategoryFilter(rs[1..], c.category), QueryTest(c.query));
          }
        } else {
          assert CategoryFilter(rs, c.category) == CategoryFilter(rs[1..], c.category);
        }
      }
    }
  }

  /** What `searchAndSortRecords` returns, for any records and criteria:
      - each record appears exactly as often as in the input if it passes both filters, and not
        at all otherwise (so everything returned comes from the input, and nothing that passes
        is lost);
      - the result is sorted by the chosen key;
      - records that tie keep their input order. */
  lemma SearchAndSortSpec(rs: seq<Record>, c: Criteria)
    ensures forall r :: multiset(SearchAndSort(rs, c))[r] == if Selected(c, r) then multiset(rs)[r] else 0
    ensures Sorted(ParseSortType(c.sortType), SearchAndSort(rs, c))
    ensures forall x :: SameRank(ParseSortType(c.sortType), x, SearchAndSort(rs, c))
                     == SameRank(ParseSortType(c.sortType), x, Filter(rs, SelectedTest(c)))
  {
    var t := ParseSortType(c.sortType);
    FiltersSelect(rs, c);
    forall r ensures multiset(SearchAndSort(rs, c))[r] == if Selected(c, r) then multiset(rs)[r] else 0 {
      FilterCount(rs, SelectedTest(c), r);
    }
    StableSortIsStable(t, Filter(rs, SelectedTest(c)));
  }

  /** Every returned record passes the category and query tests it was filtered by. */
  lemma ResultsPassFilters(rs: seq<Record>, c: Criteria, r: Record)
    requires r in SearchAndSort(rs, c)
    ensures r in rs
    ensures c.category != "" ==> Lower(r.category) == Lower(c.category)
    ensures c.query != "" ==> Contains(Lower(r.description), Trim(Lower(c.query)))
  {
    SearchAndSortSpec(rs, c);
    assert multiset(SearchAndSort(rs, c))[r] > 0;
  }

  /** An unknown or absent sort type returns the filtered records in their input order. */
  lemma UnknownSortKeepsOrder(rs: seq<Record>, c: Criteria)
    requires ParseSortType(c.sortType) == Unordered
    ensures SearchAndSort(rs, c) == Filter(rs, SelectedTest(c))
  {
    FiltersSelect(rs, c);
    UnorderedSortIsIdentity(Filter(rs, SelectedTest(c)));
  }

  /** A query of spaces only is truthy but trims to "", which every description contains: it
      keeps every record. */
  lemma BlankQueryKeepsAll(rs: seq<Record>, query: string)
    requires forall i :: 0 <= i < |query| ==> IsSpace(query[i])
    ensures QueryFilter(rs, query) == rs
  {
    if query != "" {
      TrimEmptyIff(Lower(query));
      forall i | 0 <= i < |rs| ensures QueryTest(query)(rs[i]) {
        ContainsEmpty(Lower(rs[i].description));
      }
      FilterKeepsAll(rs, QueryTest(query));
    }
  }

  /** Searching the result again with the same criteria changes nothing. */
  lemma SearchAndSortIdempotent(rs: seq<Record>, c: Criteria)
    ensures SearchAndSort(SearchAndSort(rs, c), c) == SearchAndSort(rs, c)
  {
    var t := ParseSortType(c.sortType);
    var r1 := SearchAndSort(rs, c);
    SearchAndSortSpec(rs, c);
    FiltersSelect(r1, c);
    forall i | 0 <= i < |r1| ensures SelectedTest(c)(r1[i]) {
      assert multiset(r1)[r1[i]] > 0;
    }
    FilterKeepsAll(r1, SelectedTest(c));
    StableSortUnique(t, r1, r1);
  }

  /** Sorting `amount-asc` records with amounts "12.5", "0" and "100" puts them in the order
      0, 12.5, 100. */
  lemma AmountAscendingExample(a: Record, b: Record, c: Record)
    requires a.amount == "12.5" && b.amount == "0" && c.amount == "100"
    ensures StableSort(AmountAsc, [a, b, c]) == [b, a, c]
  {
    AmountAcceptedExamples();
    SortThreeByAmount(a, b, c);
  }

  /** A missing date sorts as 1970-01-01: it ties with that date, so the two keep their input
      order, and a date before 1970 comes before it. */
  lemma MissingDateExample(a: Record, b: Record, c: Record)
    requires a.date == "1970-01-01" && b.date == "" && c.date == "1969-12-31"
    ensures Comparator(DateAsc, a, b) == 0
    ensures StableSort(DateAsc, [a, b]) == [a, b]
    ensures Comparator(DateAsc, c, b) < 0
  {
    CompareZeroIff("1970-01-01", "1970-01-01");
    assert StableSort(DateAsc, [b]) == [b] by { assert [b][1..] == []; }
    assert [a, b][1..] == [b];
    assert Compare("1969-12-31", "1970-01-01") == -1 by {
      assert "1969-12-31"[1..] == "969-12-31" && "1970-01-01"[1..] == "970-01-01";
      assert "969-12-31"[1..] == "69-12-31" && "970-01-01"[1..] == "70-01-01";
    }
  }

  /** Three records where the second comes first and the first comes before the third. */
  lemma SortThreeByAmount(a: Record, b: Record, c: Record)
    requires Cents(b.amount) < Cents(c.amount) && Cents(b.amount) < Cents(a.amount) < Cents(c.amount)
    ensures StableSort(AmountAsc, [a, b, c]) == [b, a, c]
  {
    var t := AmountAsc;
    assert StableSort(t, [c]) == [c] by { assert [c][1..] == []; }
    assert StableSort(t, [b, c]) == [b, c] by { assert [b, c][1..] == [c]; }
    assert Insert(t, a, [b, c]) == [b, a, c] by {
      assert [b, c][1..] == [c];
      assert Insert(t, a, [c]) == [a, c];
    }
    assert [a, b, c][1..] == [b, c];
  }
}
