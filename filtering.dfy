/** The filter engine behind `/api/commodities/...` (substring path filters, exact query-string
    refinements) and `/api/commodity/...` (exact path filters), server.js lines 57-166. */
module Filtering {
  import opened Results
  import opened Text
  import opened Collections
  import opened Mandi

  /** How a path filter compares a record's field with the filter value. Both modes ignore case. */
  datatype Mode = Substring | Exact

  predicate FieldMatches(field: string, value: string, mode: Mode)
  {
    match mode
    case Substring => ContainsIgnoringCase(field, value)
    case Exact => EqualsIgnoringCase(field, value)
  }

  /** The callback handed to `filter` for attribute `a` and value `value`. */
  function FilterBy(a: Attr, value: string, mode: Mode): Record -> bool
  {
    r => FieldMatches(Field(r, a), value, mode)
  }

  /** The error responses of the query endpoints. */
  datatype QueryError =
    | InvalidType(validTypes: seq<string>)
    | NoMatchingRecords
    | NoRecordsForCommodity

  /** The `error` text each response body carries. */
  function Message(e: QueryError): string
  {
    match e
    case InvalidType(_) => "Invalid type"
    case NoMatchingRecords => "No matching records found"
    case NoRecordsForCommodity => "No records found for this commodity"
  }

  /** A parameter that JavaScript treats as true: present and not the empty string. */
  predicate Truthy(o: Option<string>)
  {
    o.Some? && o.value != ""
  }

  /** One `{ type, value }` slot of the route; either part may be missing. */
  datatype PathPair = PathPair(typ: Option<string>, value: Option<string>)

  /** `filter.type && filter.value`: only pairs with both parts take part in filtering. */
  predicate Kept(pp: PathPair)
  {
    Truthy(pp.typ) && Truthy(pp.value)
  }

  /** A kept pair, whose type name has not been checked yet. */
  datatype RawFilter = RawFilter(typ: string, value: string)

  /** `paramFilters`: the kept pairs, in route order. */
  function ParamFilters(pairs: seq<PathPair>): (fs: seq<RawFilter>)
    ensures |fs| <= |pairs|
    ensures forall f :: f in fs <==>
              exists i :: 0 <= i < |pairs| && Kept(pairs[i]) &&
                          f == RawFilter(pairs[i].typ.value, pairs[i].value.value)
  {
    if pairs == [] then []
    else
      var rest := ParamFilters(pairs[1..]);
      assert forall i :: 1 <= i < |pairs| ==> pairs[i] == pairs[1..][i - 1];
      (if Kept(pairs[0]) then [RawFilter(pairs[0].typ.value, pairs[0].value.value)] else []) + rest
  }

  /** Every filter names one of the four attributes. */
  predicate AllValid(fs: seq<RawFilter>)
  {
    forall f :: f in fs ==> ParseType(f.typ).Some?
  }

  /** A record passes a filter whose type is valid and whose test it meets. */
  predicate Passes(r: Record, f: RawFilter, mode: Mode)
  {
    match ParseType(f.typ)
    case None => false
    case Some(a) => FieldMatches(Field(r, a), f.value, mode)
  }

  predicate PassesAll(r: Record, fs: seq<RawFilter>, mode: Mode)
  {
    forall f :: f in fs ==> Passes(r, f, mode)
  }

  function AcceptsAll(fs: seq<RawFilter>, mode: Mode): Record -> bool
  {
    r => PassesAll(r, fs, mode)
  }

  /** What a chain of path filters yields: an invalid type anywhere is an error; otherwise the
      records that pass every filter at once, in data order. */
  function PathChain(data: seq<Record>, fs: seq<RawFilter>, mode: Mode): Result<seq<Record>, QueryError>
  {
    if AllValid(fs) then Success(Select(data, AcceptsAll(fs, mode)))
    else Failure(InvalidType(ValidTypes))
  }

  /** One more valid filter narrows the records that pass the filters before it. */
  lemma ChainStep(data: seq<Record>, fs: seq<RawFilter>, i: nat, mode: Mode)
    requires i < |fs| && AllValid(fs[..i]) && ParseType(fs[i].typ).Some?
    ensures AllValid(fs[..i + 1])
    ensures Select(data, AcceptsAll(fs[..i + 1], mode)) ==
            Select(Select(data, AcceptsAll(fs[..i], mode)),
                   FilterBy(ParseType(fs[i].typ).value, fs[i].value, mode))
  {
    var f, a := fs[i], ParseType(fs[i].typ).value;
    assert fs[..i + 1] == fs[..i] + [f];
    forall x
      ensures AcceptsAll(fs[..i + 1], mode)(x) ==
              (AcceptsAll(fs[..i], mode)(x) && FilterBy(a, f.value, mode)(x))
    {
      assert Passes(x, f, mode) == FilterBy(a, f.value, mode)(x);
    }
    SelectSelect(data, AcceptsAll(fs[..i], mode), FilterBy(a, f.value, mode), AcceptsAll(fs[..i + 1], mode));
  }

  /** The `paramFilters.forEach` loop: each filter narrows the previous result in turn; the first
      invalid type ends the chain with the "Invalid type" error. */
  method ApplyPathFilters(data: seq<Record>, fs: seq<RawFilter>, mode: Mode)
    returns (res: Result<seq<Record>, QueryError>)
    ensures res == PathChain(data, fs, mode)
  {
    var filtered := data;
    SelectAll(data, AcceptsAll(fs[..0], mode));
    var i := 0;
    while i < |fs|
      invariant 0 <= i <= |fs|
      invariant AllValid(fs[..i])
      invariant filtered == Select(data, AcceptsAll(fs[..i], mode))
    {
      var f := fs[i];
      var a := ParseType(f.typ);
      if a.None? {
        assert f in fs && !AllValid(fs);
        return Failure(InvalidType(ValidTypes));
      }
      ChainStep(data, fs, i, mode);
      filtered := Select(filtered, FilterBy(a.value, f.value, mode));
      i := i + 1;
    }
    assert fs[..i] == fs;
    return Success(filtered);
  }

  /** The `state`, `district`, `commodity` and `market` query-string parameters. */
  datatype QueryString = QueryString(
    state: Option<string>,
    district: Option<string>,
    commodity: Option<string>,
    market: Option<string>)

  /** A request without a query string. */
  const NoQuery := QueryString(None, None, None, None)

  function QueryValue(q: QueryString, a: Attr): Option<string>
  {
    match a
    case State => q.state
    case District => q.district
    case Commodity => q.commodity
    case Market => q.market
  }

  /** The refinement for attribute `a`: when its parameter is truthy, the field must equal it,
      ignoring case; otherwise it asks nothing. */
  predicate Refines(r: Record, q: QueryString, a: Attr)
  {
    Truthy(QueryValue(q, a)) ==> EqualsIgnoringCase(Field(r, a), QueryValue(q, a).value)
  }

  predicate PassesQuery(r: Record, q: QueryString)
  {
    Refines(r, q, State) && Refines(r, q, District) && Refines(r, q, Commodity) && Refines(r, q, Market)
  }

  function RefinedBy(q: QueryString): Record -> bool
  {
    r => PassesQuery(r, q)
  }

  /** `type1 === "state" && value1 && !type2`: the branch that filters by state alone. The type
      comparison is exact. */
  predicate StateShortcut(pairs: seq<PathPair>)
    requires |pairs| == 4
  {
    pairs[0].typ == Some("state") && Truthy(pairs[0].value) && !Truthy(pairs[1].typ)
  }

  /** The path filters the general endpoint applies: the state alone on the shortcut, the kept
      pairs otherwise. */
  function PathFilters(pairs: seq<PathPair>): seq<RawFilter>
    requires |pairs| == 4
  {
    if StateShortcut(pairs) then [RawFilter("state", pairs[0].value.value)] else ParamFilters(pairs)
  }

  function GeneralAccepts(fs: seq<RawFilter>, q: QueryString): Record -> bool
  {
    r => PassesAll(r, fs, Substring) && PassesQuery(r, q)
  }

  /** What `/api/commodities/...` answers: an invalid path type is an error; otherwise the records
      that contain every path value in the named field and equal every truthy query parameter,
      in data order. */
  function General(data: seq<Record>, pairs: seq<PathPair>, q: QueryString): Result<seq<Record>, QueryError>
    requires |pairs| == 4
  {
    var fs := PathFilters(pairs);
    if AllValid(fs) then Success(Select(data, GeneralAccepts(fs, q)))
    else Failure(InvalidType(ValidTypes))
  }

  /** The attribute the `k`-th query-string `if` refines, in source order. */
  function RefinedAttr(k: nat): Attr
    requires k < 4
  {
    if k == 0 then State else if k == 1 then District else if k == 2 then Commodity else Market
  }

  /** What the query-string refinements have kept after the first `k` of them. */
  function Stage(q: QueryString, k: nat): Record -> bool
  {
    r => (k >= 1 ==> Refines(r, q, State))
         && (k >= 2 ==> Refines(r, q, District))
         && (k >= 3 ==> Refines(r, q, Commodity))
         && (k >= 4 ==> Refines(r, q, Market))
  }

  /** The `k`-th query-string `if` takes the records of stage `k` to those of stage `k + 1`. */
  lemma StageStep(xs: seq<Record>, q: QueryString, k: nat)
    requires k < 4
    ensures var a := RefinedAttr(k);
            Select(xs, Stage(q, k + 1)) ==
            if Truthy(QueryValue(q, a))
            then Select(Select(xs, Stage(q, k)), FilterBy(a, QueryValue(q, a).value, Exact))
            else Select(xs, Stage(q, k))
  {
    var a := RefinedAttr(k);
    if Truthy(QueryValue(q, a)) {
      SelectSelect(xs, Stage(q, k), FilterBy(a, QueryValue(q, a).value, Exact), Stage(q, k + 1));
    } else {
      SelectCongruent(xs, Stage(q, k + 1), Stage(q, k));
    }
  }

  /** The four query-string `if`s of the general handler: each truthy parameter narrows the
      records to those whose field equals it, ignoring case. */
  method ApplyRefinements(records: seq<Record>, q: QueryString) returns (filtered: seq<Record>)
    ensures filtered == Select(records, RefinedBy(q))
  {
    filtered := records;
    SelectAll(records, Stage(q, 0));
    StageStep(records, q, 0);
    if Truthy(q.state) {
      filtered := Select(filtered, FilterBy(State, q.state.value, Exact));
    }
    assert filtered == Select(records, Stage(q, 1));
    StageStep(records, q, 1);
    if Truthy(q.district) {
      filtered := Select(filtered, FilterBy(District, q.district.value, Exact));
    }
    assert filtered == Select(records, Stage(q, 2));
    StageStep(records, q, 2);
    if Truthy(q.commodity) {
      filtered := Select(filtered, FilterBy(Commodity, q.commodity.value, Exact));
    }
    assert filtered == Select(records, Stage(q, 3));
    StageStep(records, q, 3);
    if Truthy(q.market) {
      filtered := Select(filtered, FilterBy(Market, q.market.value, Exact));
    }
    SelectCongruent(records, Stage(q, 4), RefinedBy(q));
  }

  /** On the shortcut, the state test of the handler is the chain of its one path filter. */
  lemma ShortcutFilter(data: seq<Record>, pairs: seq<PathPair>)
    requires |pairs| == 4 && StateShortcut(pairs)
    ensures AllValid(PathFilters(pairs))
    ensures Select(data, FilterBy(State, pairs[0].value.value, Substring))
         == Select(data, AcceptsAll(PathFilters(pairs), Substring))
  {
    var f := RawFilter("state", pairs[0].value.value);
    assert PathFilters(pairs) == [f];
    forall x
      ensures FilterBy(State, f.value, Substring)(x) == AcceptsAll([f], Substring)(x)
    {
      assert Passes(x, f, Substring) == FilterBy(State, f.value, Substring)(x);
    }
    SelectCongruent(data, FilterBy(State, f.value, Substring), AcceptsAll([f], Substring));
  }

  /** The `/api/commodities/:type1/:value1/.../:type4?/:value4?` handler: the state shortcut or
      the path filter chain, then the query-string refinements. */
  method GeneralQuery(data: seq<Record>, pairs: seq<PathPair>, q: QueryString)
    returns (res: Result<seq<Record>, QueryError>)
    requires |pairs| == 4
    ensures res == General(data, pairs, q)
  {
    var fs := PathFilters(pairs);
    var filtered: seq<Record>;
    if StateShortcut(pairs) {
      filtered := Select(data, FilterBy(State, pairs[0].value.value, Substring));
      ShortcutFilter(data, pairs);
    } else {
      var chained := ApplyPathFilters(data, fs, Substring);
      if chained.Failure? {
        return Failure(chained.error);
      }
      filtered := chained.value;
    }
    filtered := ApplyRefinements(filtered, q);
    SelectSelect(data, AcceptsAll(fs, Substring), RefinedBy(q), GeneralAccepts(fs, q));
    return Success(filtered);
  }

  /** What `/api/commodity/...` answers: an invalid type is an error, no exact match is
      "No matching records found", and otherwise the matching records in data order. */
  function Strict(data: seq<Record>, pairs: seq<PathPair>): Result<seq<Record>, QueryError>
  {
    var fs := ParamFilters(pairs);
    if !AllValid(fs) then Failure(InvalidType(ValidTypes))
    else if Select(data, AcceptsAll(fs, Exact)) == [] then Failure(NoMatchingRecords)
    else Success(Select(data, AcceptsAll(fs, Exact)))
  }

  /** The `/api/commodity/:type1/:value1/.../:type4?/:value4?` handler. */
  method StrictQuery(data: seq<Record>, pairs: seq<PathPair>) returns (res: Result<seq<Record>, QueryError>)
    ensures res == Strict(data, pairs)
    ensures res == Failure(NoMatchingRecords) <==>
            AllValid(ParamFilters(pairs)) &&
            forall r :: r in data ==> !PassesAll(r, ParamFilters(pairs), Exact)
  {
    var chained := ApplyPathFilters(data, ParamFilters(pairs), Exact);
    SelectMembership(data, AcceptsAll(ParamFilters(pairs), Exact));
    if chained.Failure? {
      return Failure(chained.error);
    }
    if |chained.value| == 0 {
      return Failure(NoMatchingRecords);
    }
    assert chained.value[0] in data && PassesAll(chained.value[0], ParamFilters(pairs), Exact);
    return Success(chained.value);
  }

  /** The general endpoint keeps, in data order and with their multiplicity, exactly the records
      whose named fields contain every path value and equal every truthy query parameter, both
      ignoring case. */
  lemma GeneralSound(data: seq<Record>, pairs: seq<PathPair>, q: QueryString)
    requires |pairs| == 4
    requires General(data, pairs, q).Success?
    ensures var out := General(data, pairs, q).value;
            && IsSubsequence(out, data)
            && (forall r, f :: r in out && f in PathFilters(pairs) ==>
                  f.typ in ValidTypes && ContainsIgnoringCase(Field(r, ParseType(f.typ).value), f.value))
            && (forall r, a :: r in out && Truthy(QueryValue(q, a)) ==>
                  EqualsIgnoringCase(Field(r, a), QueryValue(q, a).value))
            && (forall r :: r in data ==>
                  multiset(out)[r] ==
                  if PassesAll(r, PathFilters(pairs), Substring) && PassesQuery(r, q)
                  then multiset(data)[r] else 0)
  {
    var p := GeneralAccepts(PathFilters(pairs), q);
    assert General(data, pairs, q).value == Select(data, p);
    SelectIsSubsequence(data, p);
    SelectMultiset(data, p);
    GeneralMeetsTests(data, PathFilters(pairs), q);
  }

  /** Every record the general selection keeps meets every path filter and every refinement. */
  lemma GeneralMeetsTests(data: seq<Record>, fs: seq<RawFilter>, q: QueryString)
    ensures forall r, f :: r in Select(data, GeneralAccepts(fs, q)) && f in fs ==>
              f.typ in ValidTypes && ContainsIgnoringCase(Field(r, ParseType(f.typ).value), f.value)
    ensures forall r, a :: r in Select(data, GeneralAccepts(fs, q)) && Truthy(QueryValue(q, a)) ==>
              EqualsIgnoringCase(Field(r, a), QueryValue(q, a).value)
  {
    var out := Select(data, GeneralAccepts(fs, q));
    SelectMembership(data, GeneralAccepts(fs, q));
    forall r, f | r in out && f in fs
      ensures f.typ in ValidTypes && ContainsIgnoringCase(Field(r, ParseType(f.typ).value), f.value)
    {
      PassingFilterIsValid(r, f);
    }
    forall r, a | r in out && Truthy(QueryValue(q, a))
      ensures EqualsIgnoringCase(Field(r, a), QueryValue(q, a).value)
    {
      assert PassesQuery(r, q);
      assert Refines(r, q, a);
    }
  }

  /** A record passing a substring filter shows that the filter's type is valid. */
  lemma PassingFilterIsValid(r: Record, f: RawFilter)
    requires Passes(r, f, Substring)
    ensures f.typ in ValidTypes && ContainsIgnoringCase(Field(r, ParseType(f.typ).value), f.value)
  {
  }

  /** The general endpoint fails exactly when the shortcut is not taken and some kept pair names
      a type outside the four, and then with the "Invalid type" body listing all four. */
  lemma GeneralFailsOnInvalidType(data: seq<Record>, pairs: seq<PathPair>, q: QueryString)
    requires |pairs| == 4
    ensures General(data, pairs, q).Failure? <==>
            !StateShortcut(pairs) && exists f :: f in ParamFilters(pairs) && f.typ !in ValidTypes
    ensures General(data, pairs, q).Failure? ==>
            General(data, pairs, q).error == InvalidType(["state", "district", "commodity", "market"])
            && Message(General(data, pairs, q).error) == "Invalid type"
  {
  }

  /** A pair without both a type and a value is ignored: replacing it by another such pair does
      not change the filters. */
  lemma {:induction false} ParamFiltersIgnoreDropped(pairs: seq<PathPair>, i: nat, pp: PathPair)
    requires i < |pairs| && !Kept(pairs[i]) && !Kept(pp)
    ensures ParamFilters(pairs[i := pp]) == ParamFilters(pairs)
  {
    if i == 0 {
      assert pairs[i := pp][1..] == pairs[1..];
    } else {
      assert pairs[i := pp][1..] == pairs[1..][i - 1 := pp];
      ParamFiltersIgnoreDropped(pairs[1..], i - 1, pp);
    }
  }

  /** The state shortcut filters by the same single filter as the generic chain would, whenever
      no later pair is kept (which the router guarantees once `type2` is absent). */
  lemma StateShortcutIsGeneric(pairs: seq<PathPair>)
    requires |pairs| == 4 && StateShortcut(pairs) && !Kept(pairs[2]) && !Kept(pairs[3])
    ensures PathFilters(pairs) == ParamFilters(pairs) == [RawFilter("state", pairs[0].value.value)]
  {
    assert ParamFilters(pairs[3..]) == [] by {
      assert pairs[3..][1..] == [];
    }
    assert pairs[2..][1..] == pairs[3..];
    assert ParamFilters(pairs[2..]) == [];
    assert pairs[1..][1..] == pairs[2..];
    assert ParamFilters(pairs[1..]) == [];
  }

  /** The query-string refinements are further AND conditions on what the path filters keep:
      the general result is the path-only result narrowed by them. */
  lemma RefinementsNarrowPathResult(data: seq<Record>, pairs: seq<PathPair>, q: QueryString)
    requires |pairs| == 4
    ensures General(data, pairs, q) ==
            match General(data, pairs, NoQuery)
            case Failure(e) => Failure(e)
            case Success(out) => Success(Select(out, RefinedBy(q)))
    ensures General(data, pairs, q).Success? ==>
            IsSubsequence(General(data, pairs, q).value, General(data, pairs, NoQuery).value)
  {
    var fs := PathFilters(pairs);
    SelectCongruent(data, GeneralAccepts(fs, NoQuery), AcceptsAll(fs, Substring));
    SelectSelect(data, AcceptsAll(fs, Substring), RefinedBy(q), GeneralAccepts(fs, q));
    SelectIsSubsequence(Select(data, AcceptsAll(fs, Substring)), RefinedBy(q));
  }

  /** Absent or empty query parameters change nothing. */
  lemma AbsentRefinementsChangeNothing(data: seq<Record>, pairs: seq<PathPair>, q: QueryString)
    requires |pairs| == 4
    requires forall a :: !Truthy(QueryValue(q, a))
    ensures General(data, pairs, q) == General(data, pairs, NoQuery)
  {
    var fs := PathFilters(pairs);
    SelectCongruent(data, GeneralAccepts(fs, q), GeneralAccepts(fs, NoQuery));
  }

  /** Exact matching implies substring matching, filter by filter. */
  lemma ExactPassesSubstring(r: Record, f: RawFilter)
    requires Passes(r, f, Exact)
    ensures Passes(r, f, Substring)
  {
    EqualImpliesContains(Field(r, ParseType(f.typ).value), f.value);
  }

  /** For the same route, what the strict endpoint returns is what the general endpoint returns
      (without a query string) narrowed by the exact tests; so it is a subsequence of it. */
  lemma StrictWithinGeneral(data: seq<Record>, pairs: seq<PathPair>)
    requires |pairs| == 4
    requires Strict(data, pairs).Success?
    ensures General(data, pairs, NoQuery).Success?
    ensures Strict(data, pairs).value ==
            Select(General(data, pairs, NoQuery).value, AcceptsAll(ParamFilters(pairs), Exact))
    ensures IsSubsequence(Strict(data, pairs).value, General(data, pairs, NoQuery).value)
  {
    var fs, gs := ParamFilters(pairs), PathFilters(pairs);
    PathFiltersAmongParamFilters(pairs);
    ExactChainPassesGeneral(fs, gs);
    Narrowing(data, AcceptsAll(fs, Exact), GeneralAccepts(gs, NoQuery));
  }

  /** Every filter of the general chain is one of the kept pairs. */
  lemma PathFiltersAmongParamFilters(pairs: seq<PathPair>)
    requires |pairs| == 4
    ensures forall g :: g in PathFilters(pairs) ==> g in ParamFilters(pairs)
  {
    if StateShortcut(pairs) {
      assert RawFilter("state", pairs[0].value.value) in ParamFilters(pairs);
    }
  }

  /** A record passing every filter of `fs` exactly passes those of `gs`, drawn from `fs`, by
      substring. */
  lemma ExactChainPassesGeneral(fs: seq<RawFilter>, gs: seq<RawFilter>)
    requires forall g :: g in gs ==> g in fs
    ensures forall r :: AcceptsAll(fs, Exact)(r) ==> GeneralAccepts(gs, NoQuery)(r)
  {
    forall r | PassesAll(r, fs, Exact)
      ensures PassesAll(r, gs, Substring)
    {
      forall g | g in gs
        ensures Passes(r, g, Substring)
      {
        ExactPassesSubstring(r, g);
      }
    }
  }

  /** Applying a filter that is already in the chain again changes nothing. */
  lemma ReapplyingFilterChangesNothing(data: seq<Record>, fs: seq<RawFilter>, f: RawFilter, mode: Mode)
    requires f in fs
    ensures PathChain(data, fs + [f], mode) == PathChain(data, fs, mode)
  {
    SelectCongruent(data, AcceptsAll(fs + [f], mode), AcceptsAll(fs, mode));
  }
}
