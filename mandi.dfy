/** The price records the service holds and the four attributes a client may filter on. */
module Mandi {
  import opened Results

  /** One price observation. Prices are whole numbers in this model. */
  datatype Record = Record(
    state: string,
    district: string,
    commodity: string,
    market: string,
    minPrice: int,
    maxPrice: int,
    modalPrice: int)

  /** The fixed set of filterable attributes. */
  datatype Attr = State | District | Commodity | Market

  /** `record[type]` for a valid type name. */
  function Field(r: Record, a: Attr): string
  {
    match a
    case State => r.state
    case District => r.district
    case Commodity => r.commodity
    case Market => r.market
  }

  /** The name a client writes for an attribute in a path. */
  function TypeName(a: Attr): string
  {
    match a
    case State => "state"
    case District => "district"
    case Commodity => "commodity"
    case Market => "market"
  }

  /** `validTypes`, in the order the error body lists them. */
  const ValidTypes: seq<string> := ["state", "district", "commodity", "market"]

  /** `validTypes.includes(t)`, answering with the attribute the name denotes. The comparison is
      exact: "State" is not a valid type. */
  function ParseType(t: string): (a: Option<Attr>)
    ensures a.Some? <==> t in ValidTypes
    ensures a.Some? ==> TypeName(a.value) == t
  {
    if t == "state" then Some(State)
    else if t == "district" then Some(District)
    else if t == "commodity" then Some(Commodity)
    else if t == "market" then Some(Market)
    else None
  }

  /** `records.map(r => r[a])`. */
  function Column(rs: seq<Record>, a: Attr): seq<string>
  {
    seq(|rs|, i requires 0 <= i < |rs| => Field(rs[i], a))
  }

  /** A value occurs in a column exactly when some record carries it in that attribute. */
  lemma ColumnMembership(rs: seq<Record>, a: Attr, v: string)
    ensures v in Column(rs, a) <==> exists r :: r in rs && Field(r, a) == v
  {
    var col := Column(rs, a);
    if v in col {
      var i :| 0 <= i < |col| && col[i] == v;
      assert rs[i] in rs;
    }
    if exists r :: r in rs && Field(r, a) == v {
      var r :| r in rs && Field(r, a) == v;
      var i :| 0 <= i < |rs| && rs[i] == r;
      assert col[i] == v;
    }
  }

  /** A column of a list with one more record is the old column with that record's value. */
  lemma ColumnSnoc(rs: seq<Record>, r: Record, a: Attr)
    ensures Column(rs + [r], a) == Column(rs, a) + [Field(r, a)]
  {
  }
}
