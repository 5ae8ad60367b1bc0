/** The summary behind `/api/stats/:commodity?` (server.js lines 190-230), and the shared
    dataset that its sort reorders. */
module Statistics {
  import opened Results
  import opened Collections
  import opened Mandi
  import opened Filtering
  import opened Unique

  /** `Math.min(...records.map(r => r.min_price))`: the least minimum price. */
  function MinPrice(rs: seq<Record>): (m: int)
    requires |rs| > 0
    ensures forall r :: r in rs ==> m <= r.minPrice
    ensures exists r :: r in rs && m == r.minPrice
  {
    if |rs| == 1 then rs[0].minPrice
    else
      var rest := MinPrice(rs[1..]);
      assert forall r :: r in rs[1..] ==> r in rs;
      if rs[0].minPrice <= rest then rs[0].minPrice else rest
  }

  /** `Math.max(...records.map(r => r.max_price))`: the greatest maximum price. */
  function MaxPrice(rs: seq<Record>): (m: int)
    requires |rs| > 0
    ensures forall r :: r in rs ==> r.maxPrice <= m
    ensures exists r :: r in rs && m == r.maxPrice
  {
    if |rs| == 1 then rs[0].maxPrice
    else
      var rest := MaxPrice(rs[1..]);
      assert forall r :: r in rs[1..] ==> r in rs;
      if rest <= rs[0].maxPrice then rs[0].maxPrice else rest
  }

  /** `records.reduce((sum, r) => sum + r.modal_price, 0)`, the numerator of the average. */
  function ModalSum(rs: seq<Record>): int
  {
    if rs == [] then 0 else ModalSum(rs[..|rs| - 1]) + rs[|rs| - 1].modalPrice
  }

  /** Non-increasing in modal price. */
  predicate SortedByModalDesc(s: seq<Record>)
  {
    forall i, j :: 0 <= i < j < |s| ==> s[i].modalPrice >= s[j].modalPrice
  }

  /** Inserts `x` into a list sorted by descending modal price, after every element whose modal
      price is at least that of `x`. */
  function Insert(sorted: seq<Record>, x: Record): (out: seq<Record>)
    ensures multiset(out) == multiset(sorted) + multiset{x}
  {
    if sorted == [] then [x]
    else
      var init, last := sorted[..|sorted| - 1], sorted[|sorted| - 1];
      assert sorted == init + [last];
      if last.modalPrice >= x.modalPrice then sorted + [x]
      else Insert(init, x) + [last]
  }

  /** Inserting into a sorted list keeps it sorted. */
  lemma {:induction false} InsertSorted(sorted: seq<Record>, x: Record)
    requires SortedByModalDesc(sorted)
    ensures SortedByModalDesc(Insert(sorted, x))
  {
    if sorted != [] {
      var init, last := sorted[..|sorted| - 1], sorted[|sorted| - 1];
      assert sorted == init + [last];
      if last.modalPrice < x.modalPrice {
        InsertSorted(init, x);
        var front := Insert(init, x);
        assert forall m :: 0 <= m < |init| ==> init[m] == sorted[m];
        InsertKeepsFloor(init, x, last.modalPrice);
        assert Insert(sorted, x) == front + [last];
      }
    }
  }

  /** If `x` and every element of `sorted` have a modal price of at least `v`, so does every
      element after the insertion. */
  lemma InsertKeepsFloor(sorted: seq<Record>, x: Record, v: int)
    requires forall k :: 0 <= k < |sorted| ==> sorted[k].modalPrice >= v
    requires x.modalPrice >= v
    ensures forall k :: 0 <= k < |Insert(sorted, x)| ==> Insert(sorted, x)[k].modalPrice >= v
  {
    var out := Insert(sorted, x);
    forall k | 0 <= k < |out|
      ensures out[k].modalPrice >= v
    {
      assert out[k] in multiset(sorted) + multiset{x};
      if out[k] != x {
        assert out[k] in sorted;
      }
    }
  }

  /** `records.sort((a, b) => b.modal_price - a.modal_price)`. The engine's sort is stable, so
      records of equal modal price keep their order; this insertion sort does the same. */
  function SortByModalDesc(rs: seq<Record>): (s: seq<Record>)
    ensures SortedByModalDesc(s)
    ensures multiset(s) == multiset(rs)
  {
    if rs == [] then []
    else
      var init, last := rs[..|rs| - 1], rs[|rs| - 1];
      assert rs == init + [last];
      var sortedInit := SortByModalDesc(init);
      InsertSorted(sortedInit, last);
      Insert(sortedInit, last)
  }

  function ModalIs(v: int): Record -> bool
  {
    (r: Record) => r.modalPrice == v
  }

  /** Inserting `x` puts it after every element with its modal price. */
  lemma {:induction false} InsertKeepsTies(sorted: seq<Record>, x: Record, v: int)
    ensures Select(Insert(sorted, x), ModalIs(v)) ==
            Select(sorted, ModalIs(v)) + Select([x], ModalIs(v))
  {
    if sorted != [] {
      var init, last := sorted[..|sorted| - 1], sorted[|sorted| - 1];
      assert sorted == init + [last];
      if last.modalPrice >= x.modalPrice {
        SelectAppend(sorted, [x], ModalIs(v));
      } else {
        assert Insert(sorted, x) == Insert(init, x) + [last];
        InsertKeepsTies(init, x, v);
        TiesAfterSmaller(Insert(init, x), init, x, last, v);
      }
    }
  }

  /** The step of InsertKeepsTies where `x` passes an element of smaller modal price. */
  lemma TiesAfterSmaller(front: seq<Record>, init: seq<Record>, x: Record, last: Record, v: int)
    requires last.modalPrice < x.modalPrice
    requires Select(front, ModalIs(v)) == Select(init, ModalIs(v)) + Select([x], ModalIs(v))
    ensures Select(front + [last], ModalIs(v)) ==
            Select(init + [last], ModalIs(v)) + Select([x], ModalIs(v))
  {
    var p := ModalIs(v);
    SelectAppend(front, [last], p);
    SelectAppend(init, [last], p);
    assert Select([x], p) == [] || Select([last], p) == [];
  }

  /** The sort is stable: the records of any one modal price appear in their original order. */
  lemma {:induction false} SortIsStable(rs: seq<Record>, v: int)
    ensures Select(SortByModalDesc(rs), ModalIs(v)) == Select(rs, ModalIs(v))
  {
    if rs != [] {
      var init, last := rs[..|rs| - 1], rs[|rs| - 1];
      assert rs == init + [last];
      SortIsStable(init, v);
      InsertKeepsTies(SortByModalDesc(init), last, v);
      SelectAppend(init, [last], ModalIs(v));
    }
  }

  /** `sorted.slice(0, 5)`. */
  function TopMarkets(rs: seq<Record>): seq<Record>
  {
    var s := SortByModalDesc(rs);
    s[..if |s| < 5 then |s| else 5]
  }

  /** The top markets are the first five (or all, if fewer) records by descending modal price,
      taken from a permutation of the input: no record left out has a higher modal price than
      any record kept. */
  lemma TopMarketsSpec(rs: seq<Record>)
    ensures var top := TopMarkets(rs);
            && |top| == (if |rs| < 5 then |rs| else 5)
            && SortedByModalDesc(top)
            && multiset(top) <= multiset(rs)
            && forall r, t :: r in multiset(rs) - multiset(top) && t in top ==> r.modalPrice <= t.modalPrice
  {
    TopMarketsSize(rs);
    TopMarketsSorted(rs);
    TopMarketsDropsNoBetter(rs);
  }

  lemma TopMarketsSize(rs: seq<Record>)
    ensures |TopMarkets(rs)| == if |rs| < 5 then |rs| else 5
  {
    assert |SortByModalDesc(rs)| == |multiset(rs)| == |rs|;
  }

  lemma TopMarketsSorted(rs: seq<Record>)
    ensures SortedByModalDesc(TopMarkets(rs))
  {
    var s := SortByModalDesc(rs);
    assert forall i :: 0 <= i < |TopMarkets(rs)| ==> TopMarkets(rs)[i] == s[i];
  }

  lemma TopMarketsDropsNoBetter(rs: seq<Record>)
    ensures multiset(TopMarkets(rs)) <= multiset(rs)
    ensures forall r, t :: r in multiset(rs) - multiset(TopMarkets(rs)) && t in TopMarkets(rs) ==>
              r.modalPrice <= t.modalPrice
  {
    var s := SortByModalDesc(rs);
    var n := if |s| < 5 then |s| else 5;
    assert TopMarkets(rs) == s[..n];
    SplitMultiset(s, n);
    SortedSplit(s, n);
  }

  /** Cutting a list at `n` splits its multiset in two. */
  lemma SplitMultiset(s: seq<Record>, n: nat)
    requires n <= |s|
    ensures multiset(s[..n]) <= multiset(s)
    ensures multiset(s) - multiset(s[..n]) == multiset(s[n..])
  {
    assert s == s[..n] + s[n..];
  }

  /** In a sorted list, nothing after position `n` has a higher modal price than anything
      before it. */
  lemma SortedSplit(s: seq<Record>, n: nat)
    requires SortedByModalDesc(s) && n <= |s|
    ensures forall r, t :: r in s[n..] && t in s[..n] ==> r.modalPrice <= t.modalPrice
  {
    forall r, t | r in s[n..] && t in s[..n]
      ensures r.modalPrice <= t.modalPrice
    {
      var j :| 0 <= j < |s[n..]| && s[n..][j] == r;
      var i :| 0 <= i < n && s[..n][i] == t;
      assert s[i] == t && s[n + j] == r;
    }
  }

  /** The insertion-ordered object `statewise`: keys in order of first insertion, and the list
      collected under each key. */
  datatype StateGroups = StateGroups(order: seq<string>, groups: map<string, seq<Record>>)

  function StateIs(s: string): Record -> bool
  {
    (r: Record) => r.state == s
  }

  /** No record of a state that does not occur in the data is selected for it. */
  lemma AbsentStateSelectsNothing(rs: seq<Record>, s: string)
    requires s !in Column(rs, State)
    ensures Select(rs, StateIs(s)) == []
  {
    SelectMembership(rs, StateIs(s));
    ColumnMembership(rs, State, s);
    if Select(rs, StateIs(s)) != [] {
      assert Select(rs, StateIs(s))[0] in Select(rs, StateIs(s));
    }
  }

  /** The groups of a list of records: keys in order of first occurrence, each with the records
      of that state. */
  ghost predicate GroupsOf(order: seq<string>, groups: map<string, seq<Record>>, rs: seq<Record>)
  {
    && order == Distinct(Column(rs, State))
    && (forall s :: s in groups <==> s in order)
    && (forall s :: s in groups ==> groups[s] == Select(rs, StateIs(s)))
  }

  /** Pushing one more record onto the groups of a list gives the groups of the longer list:
      the record's state is appended to the key order the first time it is seen, and the record
      is appended to that state's group. */
  lemma PushKeepsGroups(order: seq<string>, groups: map<string, seq<Record>>, rs: seq<Record>, r: Record,
                        order': seq<string>, groups': map<string, seq<Record>>)
    requires GroupsOf(order, groups, rs)
    requires order' == if r.state in groups then order else order + [r.state]
    requires groups' == var withGroup := if r.state in groups then groups else groups[r.state := []];
                        withGroup[r.state := withGroup[r.state] + [r]]
    ensures GroupsOf(order', groups', rs + [r])
  {
    PushKeepsOrder(order, groups, rs, r);
    PushKeepsEntries(groups, rs, r, groups');
  }

  lemma PushKeepsOrder(order: seq<string>, groups: map<string, seq<Record>>, rs: seq<Record>, r: Record)
    requires order == Distinct(Column(rs, State))
    requires forall s :: s in groups <==> s in order
    ensures (if r.state in groups then order else order + [r.state]) == Distinct(Column(rs + [r], State))
  {
    ColumnSnoc(rs, r, State);
    DistinctSnoc(Column(rs, State), r.state);
  }

  lemma PushKeepsEntries(groups: map<string, seq<Record>>, rs: seq<Record>, r: Record,
                         groups': map<string, seq<Record>>)
    requires forall s :: s in groups ==> groups[s] == Select(rs, StateIs(s))
    requires r.state !in groups ==> r.state !in Column(rs, State)
    requires groups' == var withGroup := if r.state in groups then groups else groups[r.state := []];
                        withGroup[r.state := withGroup[r.state] + [r]]
    ensures forall s :: s in groups' ==> groups'[s] == Select(rs + [r], StateIs(s))
  {
    if r.state !in groups {
      AbsentStateSelectsNothing(rs, r.state);
    }
    forall s | s in groups'
      ensures groups'[s] == Select(rs + [r], StateIs(s))
    {
      SelectAppend(rs, [r], StateIs(s));
    }
  }

  /** The `reduce` that builds `statewise`: a group is opened the first time its state is seen,
      and each record is pushed onto the group of its state. */
  method GroupByState(rs: seq<Record>) returns (g: StateGroups)
    ensures g.order == Distinct(Column(rs, State))
    ensures forall s :: s in g.groups <==> s in g.order
    ensures forall s :: s in g.groups ==> g.groups[s] == Select(rs, StateIs(s))
  {
    var order: seq<string> := [];
    var groups: map<string, seq<Record>> := map[];
    var i := 0;
    while i < |rs|
      invariant 0 <= i <= |rs|
      invariant GroupsOf(order, groups, rs[..i])
    {
      var r := rs[i];
      var order', groups' := order, groups;
      if r.state !in groups {
        order' := order + [r.state];
        groups' := groups[r.state := []];
      }
      groups' := groups'[r.state := groups'[r.state] + [r]];
      PushKeepsGroups(order, groups, rs[..i], r, order', groups');
      TakeSnoc(rs, i);
      order, groups := order', groups';
      i := i + 1;
    }
    assert rs[..i] == rs;
    g := StateGroups(order, groups);
  }

  /** The sum of the group sizes for `keys`. */
  function GroupSizes(keys: seq<string>, rs: seq<Record>): nat
  {
    if keys == [] then 0
    else GroupSizes(keys[..|keys| - 1], rs) + |Select(rs, StateIs(keys[|keys| - 1]))|
  }

  /** One more record adds one to the group sizes when its state is among the keys. */
  lemma {:induction false} GroupSizesSnoc(keys: seq<string>, rs: seq<Record>, x: Record)
    requires NoDuplicates(keys)
    ensures GroupSizes(keys, rs + [x]) == GroupSizes(keys, rs) + (if x.state in keys then 1 else 0)
  {
    if keys != [] {
      var init, k := keys[..|keys| - 1], keys[|keys| - 1];
      assert keys == init + [k];
      GroupSizesSnoc(init, rs, x);
      SelectAppend(rs, [x], StateIs(k));
      assert x.state in keys <==> x.state in init || x.state == k;
      assert k !in init;
    }
  }

  /** `statewise` puts each record into the group of its own state and into no other, and the
      group sizes add up to the number of records. */
  lemma StatewisePartition(rs: seq<Record>)
    ensures var keys := Distinct(Column(rs, State));
            && (forall r :: r in rs ==> r.state in keys && r in Select(rs, StateIs(r.state)))
            && (forall k, r :: k in keys && r in Select(rs, StateIs(k)) ==> r.state == k)
            && GroupSizes(keys, rs) == |rs|
  {
    forall r | r in rs
      ensures r.state in Column(rs, State) && r in Select(rs, StateIs(r.state))
    {
      ColumnMembership(rs, State, r.state);
      SelectMembership(rs, StateIs(r.state));
    }
    forall k, r | r in Select(rs, StateIs(k))
      ensures r.state == k
    {
      SelectMembership(rs, StateIs(k));
    }
    GroupSizesTotal(rs);
  }

  /** The group sizes add up to the number of records. */
  lemma {:induction false} GroupSizesTotal(rs: seq<Record>)
    ensures GroupSizes(Distinct(Column(rs, State)), rs) == |rs|
  {
    if rs != [] {
      var init, x := rs[..|rs| - 1], rs[|rs| - 1];
      assert rs == init + [x];
      GroupSizesTotal(init);
      ColumnSnoc(init, x, State);
      DistinctSnoc(Column(init, State), x.state);
      var keys := Distinct(Column(init, State));
      GroupSizesSnoc(keys, init, x);
      if x.state !in keys {
        AbsentStateSelectsNothing(init, x.state);
        SelectAppend(init, [x], StateIs(x.state));
        assert keys + [x.state] == Distinct(Column(rs, State));
        assert (keys + [x.state])[..|keys|] == keys;
      }
    }
  }

  /** A list already sorted by descending modal price is left as it is, so a second sort of the
      shared dataset changes nothing. */
  lemma {:induction false} SortSortedIsIdentity(rs: seq<Record>)
    requires SortedByModalDesc(rs)
    ensures SortByModalDesc(rs) == rs
  {
    if rs != [] {
      var init, last := rs[..|rs| - 1], rs[|rs| - 1];
      assert rs == init + [last];
      assert SortedByModalDesc(init);
      SortSortedIsIdentity(init);
      if init != [] {
        assert init[|init| - 1] == rs[|rs| - 2];
      }
    }
  }

  /** Reordering the dataset changes no query's contents, only their order. */
  lemma ReorderKeepsSelection(data: seq<Record>, p: Record -> bool)
    ensures multiset(Select(SortByModalDesc(data), p)) == multiset(Select(data, p))
  {
    SelectMultiset(SortByModalDesc(data), p);
    SelectMultiset(data, p);
  }

  /** After the dataset is sorted, the general endpoint fails for the same requests and
      otherwise returns the same records with the same multiplicities, in sorted order. */
  lemma SortKeepsGeneralAnswers(data: seq<Record>, pairs: seq<PathPair>, q: QueryString)
    requires |pairs| == 4
    ensures General(SortByModalDesc(data), pairs, q).Success? == General(data, pairs, q).Success?
    ensures General(data, pairs, q).Success? ==>
              multiset(General(SortByModalDesc(data), pairs, q).value) == multiset(General(data, pairs, q).value)
              && SortedByModalDesc(General(SortByModalDesc(data), pairs, q).value)
  {
    var p := GeneralAccepts(PathFilters(pairs), q);
    ReorderKeepsSelection(data, p);
    SelectOfSortedIsSorted(SortByModalDesc(data), p);
  }

  /** Filtering a sorted list leaves it sorted. */
  lemma {:induction false} SelectOfSortedIsSorted(s: seq<Record>, p: Record -> bool)
    requires SortedByModalDesc(s)
    ensures SortedByModalDesc(Select(s, p))
  {
    if s != [] {
      SelectOfSortedIsSorted(s[1..], p);
      SelectMembership(s[1..], p);
      var rest := Select(s[1..], p);
      forall k | 0 <= k < |rest|
        ensures rest[k].modalPrice <= s[0].modalPrice
      {
        assert rest[k] in s[1..];
        var m :| 0 <= m < |s[1..]| && s[1..][m] == rest[k];
        assert s[m + 1] == rest[k];
      }
      assert s == [s[0]] + s[1..];
    }
  }

  datatype PriceStats = PriceStats(minPrice: int, maxPrice: int, modalSum: int)

  /** The body of a successful `/api/stats` response. The average modal price is represented by
      its numerator `modalSum` and its denominator `totalRecords`. */
  datatype CommodityStats = CommodityStats(
    totalRecords: nat,
    uniqueCommodities: seq<string>,
    priceStats: PriceStats,
    topMarkets: seq<Record>,
    statewise: StateGroups)

  /** What the statistics of a non-empty list of records are. */
  ghost predicate IsStatsOf(st: CommodityStats, recs: seq<Record>)
  {
    && st.totalRecords == |recs|
    && st.uniqueCommodities == Distinct(Column(recs, Commodity))
    && (forall r :: r in recs ==> st.priceStats.minPrice <= r.minPrice)
    && (exists r :: r in recs && st.priceStats.minPrice == r.minPrice)
    && (forall r :: r in recs ==> r.maxPrice <= st.priceStats.maxPrice)
    && (exists r :: r in recs && st.priceStats.maxPrice == r.maxPrice)
    && st.priceStats.modalSum == ModalSum(recs)
    && st.topMarkets == TopMarkets(recs)
    && GroupsOf(st.statewise.order, st.statewise.groups, SortByModalDesc(recs))
  }

  /** The `stats` object literal. Its fields are evaluated in order, so the count, the distinct
      commodities and the prices see the records before the sort, and `statewise` sees them
      after it. */
  method Aggregate(recs: seq<Record>) returns (st: CommodityStats)
    requires |recs| > 0
    ensures IsStatsOf(st, recs)
  {
    var uniqueCommodities := Distinct(Column(recs, Commodity));
    var priceStats := PriceStats(MinPrice(recs), MaxPrice(recs), ModalSum(recs));
    var sorted := SortByModalDesc(recs);
    var topMarkets := sorted[..if |sorted| < 5 then |sorted| else 5];
    var statewise := GroupByState(sorted);
    assert GroupsOf(statewise.order, statewise.groups, sorted);
    assert topMarkets == TopMarkets(recs);
    st := CommodityStats(|recs|, uniqueCommodities, priceStats, topMarkets, statewise);
  }

  /** The records the statistics are computed over: those whose commodity equals the parameter,
      ignoring case, when it is truthy; all records otherwise. */
  function StatsInput(data: seq<Record>, commodity: Option<string>): seq<Record>
  {
    if Truthy(commodity) then Select(data, FilterBy(Commodity, commodity.value, Exact)) else data
  }

  /** A named commodity that no record carries (ignoring case) leaves nothing to summarise. */
  lemma StatsInputEmptyIff(data: seq<Record>, commodity: Option<string>)
    ensures StatsInput(data, commodity) == [] <==>
            if Truthy(commodity)
            then forall r :: r in data ==> !Text.EqualsIgnoringCase(r.commodity, commodity.value)
            else data == []
  {
    if Truthy(commodity) {
      var p := FilterBy(Commodity, commodity.value, Exact);
      SelectMembership(data, p);
      if StatsInput(data, commodity) != [] {
        assert StatsInput(data, commodity)[0] in Select(data, p);
      }
    }
  }

  /** The `/api/stats/:commodity?` handler over a given dataset: "No records found for this
      commodity" when nothing is left after the optional filter, the statistics otherwise. */
  method StatsQuery(data: seq<Record>, commodity: Option<string>) returns (res: Result<CommodityStats, QueryError>)
    ensures res.Failure? <==> StatsInput(data, commodity) == []
    ensures res.Failure? ==> res.error == NoRecordsForCommodity
    ensures res.Success? ==> IsStatsOf(res.value, StatsInput(data, commodity))
  {
    var commodityRecords := data;
    if Truthy(commodity) {
      commodityRecords := Select(commodityRecords, FilterBy(Commodity, commodity.value, Exact));
    }
    if |commodityRecords| == 0 {
      return Failure(NoRecordsForCommodity);
    }
    var st := Aggregate(commodityRecords);
    return Success(st);
  }

  /** The dataset the service loaded at startup, shared by every handler. Handlers read
      `records`; the statistics handler without a commodity sorts it in place. */
  class Store {
    var records: seq<Record>

    constructor (loaded: seq<Record>)
      ensures records == loaded
    {
      records := loaded;
    }

    /** `/api/commodities/...` on the shared dataset. */
    method Commodities(pairs: seq<PathPair>, q: QueryString) returns (res: Result<seq<Record>, QueryError>)
      requires |pairs| == 4
      ensures res == General(records, pairs, q)
    {
      res := GeneralQuery(records, pairs, q);
    }

    /** `/api/commodity/...` on the shared dataset. */
    method CommodityExact(pairs: seq<PathPair>) returns (res: Result<seq<Record>, QueryError>)
      ensures res == Strict(records, pairs)
    {
      res := StrictQuery(records, pairs);
    }

    /** `/api/unique/:type?` on the shared dataset. */
    method Unique(typ: Option<string>) returns (resp: UniqueResponse)
      ensures resp == UniqueQuery(records, typ)
    {
      resp := UniqueQuery(records, typ);
    }

    /** `/api/stats/:commodity?` on the shared dataset. Without a commodity, the records being
        summarised are the shared array itself, so its sort by descending modal price outlives
        the request; with one, only a filtered copy is sorted. */
    method Stats(commodity: Option<string>) returns (res: Result<CommodityStats, QueryError>)
      modifies this
      ensures res.Failure? <==> StatsInput(old(records), commodity) == []
      ensures res.Failure? ==> res.error == NoRecordsForCommodity
      ensures res.Success? ==> IsStatsOf(res.value, StatsInput(old(records), commodity))
      ensures records == if res.Success? && !Truthy(commodity)
                         then SortByModalDesc(old(records)) else old(records)
      ensures multiset(records) == multiset(old(records))
    {
      res := StatsQuery(records, commodity);
      if res.Success? && !Truthy(commodity) {
        records := SortByModalDesc(records);
      }
    }
  }
}
