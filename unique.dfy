/** The distinct values of each attribute, as `/api/unique/:type?` reports them
    (server.js lines 168-188). */
module Unique {
  import opened Results
  import opened Collections
  import opened Mandi

  /** `uniqueOptions`: one de-duplicated list per attribute. */
  datatype UniqueOptions = UniqueOptions(
    states: seq<string>,
    districts: seq<string>,
    commodities: seq<string>,
    markets: seq<string>)

  /** The keys of `uniqueOptions`, in the order `Object.keys` lists them. */
  const CategoryKeys: seq<string> := ["states", "districts", "commodities", "markets"]

  /** The attribute whose values a key lists. */
  function KeyAttr(key: string): Option<Attr>
  {
    if key == "states" then Some(State)
    else if key == "districts" then Some(District)
    else if key == "commodities" then Some(Commodity)
    else if key == "markets" then Some(Market)
    else None
  }

  function ListOf(u: UniqueOptions, a: Attr): seq<string>
  {
    match a
    case State => u.states
    case District => u.districts
    case Commodity => u.commodities
    case Market => u.markets
  }

  /** `[...new Set(records.map(r => r[a]))]` for each of the four attributes. */
  function BuildUniqueOptions(data: seq<Record>): UniqueOptions
  {
    UniqueOptions(
      Distinct(Column(data, State)),
      Distinct(Column(data, District)),
      Distinct(Column(data, Commodity)),
      Distinct(Column(data, Market)))
  }

  /** Each list has no duplicates, holds a value exactly when some record carries it in that
      attribute, and lists the values in the order of their first occurrence in the data. */
  lemma UniqueListSpec(data: seq<Record>, a: Attr)
    ensures var list := ListOf(BuildUniqueOptions(data), a);
            && NoDuplicates(list)
            && (forall v :: v in list <==> exists r :: r in data && Field(r, a) == v)
            && (forall i, j :: 0 <= i < j < |list| ==>
                  FirstIndex(Column(data, a), list[i]) < FirstIndex(Column(data, a), list[j]))
  {
    var list := ListOf(BuildUniqueOptions(data), a);
    assert list == Distinct(Column(data, a));
    forall v
      ensures v in list <==> exists r :: r in data && Field(r, a) == v
    {
      ColumnMembership(data, a, v);
    }
    DistinctInFirstOccurrenceOrder(Column(data, a));
  }

  /** The response: one list under its key, or every list with the available keys. */
  datatype UniqueResponse =
    | Single(key: string, values: seq<string>)
    | Everything(availableTypes: seq<string>, data: UniqueOptions)

  /** The `/api/unique/:type?` handler. A missing or unknown key answers with everything. */
  function UniqueQuery(data: seq<Record>, typ: Option<string>): (resp: UniqueResponse)
    ensures resp.Single? <==> typ.Some? && typ.value in CategoryKeys
    ensures resp.Single? ==>
              resp.key == typ.value &&
              resp.values == ListOf(BuildUniqueOptions(data), KeyAttr(typ.value).value)
    ensures resp.Everything? ==>
              resp.availableTypes == ["states", "districts", "commodities", "markets"] &&
              resp.data == BuildUniqueOptions(data)
  {
    var options := BuildUniqueOptions(data);
    if typ.None? || typ.value == "" || KeyAttr(typ.value).None? then Everything(CategoryKeys, options)
    else Single(typ.value, ListOf(options, KeyAttr(typ.value).value))
  }
}
