/** How the merged groups are listed: in a total order with one place for every key, up to a limit. */
module ResultOrder {
  import opened Common
  import opened ExchangeFrames
  import opened Moments
  import C = Coordinator

  datatype OrderKey = ByGroupKey | ByCount | BySum | ByMinimum | ByMaximum | ByMean | ByVariance

  datatype Options = Options(orderKey: OrderKey, descending: bool, nullsFirst: bool, limit: Option<U64>)

  datatype Row = Row(key: C.Key, aggregate: Aggregate)

  /** The population variance, which the machine computes from count and second moment. */
  type Variance = Aggregate -> Option<F64>

  // ---- Comparing ----

  function Sign(a: int, b: int): int {
    if a == b then 0 else if a < b then -1 else 1
  }

  /** Numbers by size, and every NaN behind all of them. */
  function CompareFloats(a: F64, b: F64): int {
    if IsNan(a) || IsNan(b) then (if IsNan(a) == IsNan(b) then 0 else if IsNan(a) then 1 else -1)
    else Sign(Magnitude(a), Magnitude(b))
  }

  datatype Comparison = Comparison(order: int, comparedNull: bool)

  function CompareOptional(a: Option<F64>, b: Option<F64>, nullsFirst: bool): Comparison {
    if a.Some? != b.Some? then Comparison(if a.Some? != nullsFirst then -1 else 1, true)
    else if a.None? then Comparison(0, true)
    else Comparison(CompareFloats(a.value, b.value), false)
  }

  function CompareBy(variance: Variance, options: Options, l: Row, r: Row): Comparison {
    var a, b := l.aggregate, r.aggregate;
    match options.orderKey
    case ByGroupKey => CompareOptional(l.key, r.key, options.nullsFirst)
    case ByCount => Comparison(Sign(a.count, b.count), false)
    case BySum => Comparison(CompareFloats(a.sum, b.sum), false)
    case ByMinimum => CompareOptional(a.minimum, b.minimum, options.nullsFirst)
    case ByMaximum => CompareOptional(a.maximum, b.maximum, options.nullsFirst)
    case ByMean => Comparison(CompareFloats(a.mean, b.mean), false)
    case ByVariance => CompareOptional(variance(a), variance(b), options.nullsFirst)
  }

  /** The comparison the result is sorted by: the chosen value, reversed unless a null decided, then the key. */
  predicate Precedes(variance: Variance, options: Options, l: Row, r: Row) {
    var c := CompareBy(variance, options, l, r);
    var order := if !c.comparedNull && options.descending then -c.order else c.order;
    if order != 0 then order < 0 else CompareOptional(l.key, r.key, true).order < 0
  }

  // ---- It is a total order ----

  /** A place on a line: nulls before or behind everything else, numbers by weight. */
  datatype Place = Place(side: int, weight: int)

  predicate Less(a: Place, b: Place) {
    a.side < b.side || (a.side == b.side && a.weight < b.weight)
  }

  function Weight(v: F64): int {
    if IsNan(v) then NEGATIVE_ZERO else Magnitude(v)
  }

  function PlaceOf(o: Option<F64>, nullsFirst: bool, descending: bool): Place {
    if o.None? then Place(if nullsFirst then 0 else 2, 0)
    else Place(1, if descending then -Weight(o.value) else Weight(o.value))
  }

  function RowPlace(variance: Variance, options: Options, row: Row): Place {
    var a, first, down := row.aggregate, options.nullsFirst, options.descending;
    match options.orderKey
    case ByGroupKey => PlaceOf(row.key, first, down)
    case ByCount => Place(1, if down then -(a.count as int) else a.count)
    case BySum => PlaceOf(Some(a.sum), first, down)
    case ByMinimum => PlaceOf(a.minimum, first, down)
    case ByMaximum => PlaceOf(a.maximum, first, down)
    case ByMean => PlaceOf(Some(a.mean), first, down)
    case ByVariance => PlaceOf(variance(a), first, down)
  }

  lemma CompareFloatsIsWeight(a: F64, b: F64)
    ensures CompareFloats(a, b) == Sign(Weight(a), Weight(b))
  {
  }

  /** Comparing optional values, reversed unless a null decided, is comparing their places. */
  lemma CompareOptionalIsPlace(a: Option<F64>, b: Option<F64>, nullsFirst: bool, descending: bool)
    ensures
      var c := CompareOptional(a, b, nullsFirst);
      var order := if !c.comparedNull && descending then -c.order else c.order;
      && (order < 0 <==> Less(PlaceOf(a, nullsFirst, descending), PlaceOf(b, nullsFirst, descending)))
      && (order == 0 <==> PlaceOf(a, nullsFirst, descending) == PlaceOf(b, nullsFirst, descending))
  {
    if a.Some? && b.Some? {
      CompareFloatsIsWeight(a.value, b.value);
    }
  }

  lemma CompareByIsPlace(variance: Variance, options: Options, l: Row, r: Row)
    ensures
      var c := CompareBy(variance, options, l, r);
      var order := if !c.comparedNull && options.descending then -c.order else c.order;
      && (order < 0 <==> Less(RowPlace(variance, options, l), RowPlace(variance, options, r)))
      && (order == 0 <==> RowPlace(variance, options, l) == RowPlace(variance, options, r))
  {
    var a, b, first, down := l.aggregate, r.aggregate, options.nullsFirst, options.descending;
    match options.orderKey
    case ByGroupKey => CompareOptionalIsPlace(l.key, r.key, first, down);
    case ByCount =>
    case BySum => CompareOptionalIsPlace(Some(a.sum), Some(b.sum), first, down);
    case ByMinimum => CompareOptionalIsPlace(a.minimum, b.minimum, first, down);
    case ByMaximum => CompareOptionalIsPlace(a.maximum, b.maximum, first, down);
    case ByMean => CompareOptionalIsPlace(Some(a.mean), Some(b.mean), first, down);
    case ByVariance => CompareOptionalIsPlace(variance(a), variance(b), first, down);
  }

  lemma PrecedesIsLexicographic(variance: Variance, options: Options, l: Row, r: Row)
    ensures
      var a, b := RowPlace(variance, options, l), RowPlace(variance, options, r);
      Precedes(variance, options, l, r) <==>
        Less(a, b) || (a == b && Less(PlaceOf(l.key, true, false), PlaceOf(r.key, true, false)))
  {
    CompareByIsPlace(variance, options, l, r);
    CompareOptionalIsPlace(l.key, r.key, true, false);
  }

  predicate CanonicalRow(row: Row) {
    CanonicalKey(row.key) == row.key
  }

  lemma SamePlaceSameKey(a: C.Key, b: C.Key)
    requires CanonicalKey(a) == a && CanonicalKey(b) == b && PlaceOf(a, true, false) == PlaceOf(b, true, false)
    ensures a == b
  {
  }

  /**
   Whatever the options, the comparison is a strict order, and it decides between any two rows under
   different keys: sorting has exactly one outcome.
   */
  lemma PrecedesIsTotal(variance: Variance, options: Options, a: Row, b: Row, c: Row)
    ensures !(Precedes(variance, options, a, b) && Precedes(variance, options, b, a))
    ensures Precedes(variance, options, a, b) && Precedes(variance, options, b, c) ==> Precedes(variance, options, a, c)
    ensures CanonicalRow(a) && CanonicalRow(b) && a.key != b.key ==>
      Precedes(variance, options, a, b) || Precedes(variance, options, b, a)
  {
    PrecedesIsLexicographic(variance, options, a, b);
    PrecedesIsLexicographic(variance, options, b, a);
    PrecedesIsLexicographic(variance, options, b, c);
    PrecedesIsLexicographic(variance, options, a, c);
    if CanonicalRow(a) && CanonicalRow(b) && PlaceOf(a.key, true, false) == PlaceOf(b.key, true, false) {
      SamePlaceSameKey(a.key, b.key);
    }
  }

  // ---- The listing ----

  predicate Sorted(variance: Variance, options: Options, rows: seq<Row>) {
    forall i, j :: 0 <= i < j < |rows| ==> Precedes(variance, options, rows[i], rows[j])
  }

  /** The rows are the groups, each once. */
  ghost predicate Lists(groups: C.Groups, rows: seq<Row>) {
    && (forall i :: 0 <= i < |rows| ==> rows[i].key in groups && groups[rows[i].key] == rows[i].aggregate)
    && (forall key :: key in groups ==> Row(key, groups[key]) in rows)
    && (forall i, j :: 0 <= i < j < |rows| ==> rows[i].key != rows[j].key)
  }

  /** The sorted listing of the groups, cut at the limit. */
  ghost predicate Presents(variance: Variance, options: Options, groups: C.Groups, rows: seq<Row>) {
    exists all :: IsListing(variance, options, groups, all) && rows == all[..Kept(options, |all|)]
  }

  ghost predicate IsListing(variance: Variance, options: Options, groups: C.Groups, all: seq<Row>) {
    Lists(groups, all) && Sorted(variance, options, all)
  }

  function Kept(options: Options, n: nat): (k: nat)
    ensures k <= n
  {
    if options.limit.Some? && options.limit.value < n then options.limit.value else n
  }

  lemma FirstIsFirst(variance: Variance, options: Options, a: seq<Row>, b: seq<Row>)
    requires Sorted(variance, options, a) && Sorted(variance, options, b) && a != [] && b != []
    requires forall row :: row in a <==> row in b
    ensures a[0] == b[0]
  {
    PrecedesIsTotal(variance, options, a[0], b[0], a[0]);
    assert a[0] in b && b[0] in a;
  }

  lemma SomeRow(rows: seq<Row>) returns (row: Row)
    requires rows != []
    ensures row in rows
  {
    row := rows[0];
  }

  /** Two sorted lists of the same rows are the same list. */
  lemma {:induction false} SortedIsUnique(variance: Variance, options: Options, a: seq<Row>, b: seq<Row>)
    requires Sorted(variance, options, a) && Sorted(variance, options, b) && forall row :: row in a <==> row in b
    ensures a == b
    decreases |a|
  {
    if a == [] {
      if b != [] {
        var row := SomeRow(b);
        assert false;
      }
    } else {
      assert a[0] in b;
      FirstIsFirst(variance, options, a, b);
      forall row
        ensures row in a[1..] <==> row in b[1..]
      {
        RestOf(variance, options, a, row);
        RestOf(variance, options, b, row);
      }
      SortedIsUnique(variance, options, a[1..], b[1..]);
    }
  }

  lemma RestOf(variance: Variance, options: Options, rows: seq<Row>, row: Row)
    requires Sorted(variance, options, rows) && rows != []
    ensures row in rows[1..] <==> row in rows && row != rows[0]
  {
    PrecedesIsTotal(variance, options, rows[0], rows[0], rows[0]);
    if row in rows[1..] {
      var k :| 0 <= k < |rows[1..]| && rows[1..][k] == row;
      assert Precedes(variance, options, rows[0], rows[k + 1]);
    }
  }

  /** So a query has one result: any two presentations of the same groups are equal. */
  lemma PresentationIsUnique(variance: Variance, options: Options, groups: C.Groups, a: seq<Row>, b: seq<Row>)
    requires Presents(variance, options, groups, a) && Presents(variance, options, groups, b)
    ensures a == b
  {
    var p :| IsListing(variance, options, groups, p) && a == p[..Kept(options, |p|)];
    var q :| IsListing(variance, options, groups, q) && b == q[..Kept(options, |q|)];
    SameRows(groups, p, q);
    SortedIsUnique(variance, options, p, q);
  }

  lemma SameRows(groups: C.Groups, p: seq<Row>, q: seq<Row>)
    requires Lists(groups, p) && Lists(groups, q)
    ensures forall row :: row in p <==> row in q
  {
    forall row | row in p
      ensures row in q
    {
      assert row == Row(row.key, groups[row.key]);
    }
    forall row | row in q
      ensures row in p
    {
      assert row == Row(row.key, groups[row.key]);
    }
  }

  // ---- Sorting and cutting ----

  /** Where a row belongs among sorted ones. */
  method FindPlace(variance: Variance, options: Options, rows: seq<Row>, row: Row) returns (at: nat)
    requires Sorted(variance, options, rows) && CanonicalRow(row)
    requires forall i :: 0 <= i < |rows| ==> CanonicalRow(rows[i]) && rows[i].key != row.key
    ensures at <= |rows|
    ensures forall i :: 0 <= i < at ==> Precedes(variance, options, rows[i], row)
    ensures forall i :: at <= i < |rows| ==> Precedes(variance, options, row, rows[i])
  {
    at := 0;
    while at < |rows| && Precedes(variance, options, rows[at], row)
      invariant at <= |rows| && forall i :: 0 <= i < at ==> Precedes(variance, options, rows[i], row)
    {
      at := at + 1;
    }
    forall i | at <= i < |rows|
      ensures Precedes(variance, options, row, rows[i])
    {
      PrecedesIsTotal(variance, options, row, rows[at], rows[i]);
    }
  }

  /** The groups listed so far: every row a group, each group outside `left` a row. */
  ghost predicate Listing(groups: C.Groups, left: set<C.Key>, rows: seq<Row>) {
    && (forall i :: 0 <= i < |rows| ==>
          rows[i].key in groups && rows[i].key !in left && groups[rows[i].key] == rows[i].aggregate)
    && (forall key :: key in groups && key !in left ==> Row(key, groups[key]) in rows)
  }

  /** The rows with one more at its place. */
  function Inserted(rows: seq<Row>, row: Row, at: nat): (all: seq<Row>)
    requires at <= |rows|
    ensures |all| == |rows| + 1
    ensures forall i :: 0 <= i < |all| ==> all[i] == if i < at then rows[i] else if i == at then row else rows[i - 1]
    ensures forall r :: r in all <==> r in rows || r == row
  {
    assert rows == rows[..at] + rows[at..];
    rows[..at] + [row] + rows[at..]
  }

  lemma InsertedSorted(variance: Variance, options: Options, rows: seq<Row>, row: Row, at: nat)
    requires Sorted(variance, options, rows) && at <= |rows|
    requires forall i :: 0 <= i < at ==> Precedes(variance, options, rows[i], row)
    requires forall i :: at <= i < |rows| ==> Precedes(variance, options, row, rows[i])
    ensures Sorted(variance, options, Inserted(rows, row, at))
  {
  }

  lemma InsertedListing(groups: C.Groups, left: set<C.Key>, rows: seq<Row>, key: C.Key, at: nat)
    requires Listing(groups, left, rows) && key in left && left <= groups.Keys && at <= |rows|
    ensures Listing(groups, left - {key}, Inserted(rows, Row(key, groups[key]), at))
  {
  }

  /** Sorted rows under canonical keys of one map never share a key. */
  lemma SortedIsDistinct(variance: Variance, options: Options, groups: C.Groups, rows: seq<Row>)
    requires Sorted(variance, options, rows) && Listing(groups, {}, rows)
    ensures Lists(groups, rows)
  {
    forall i, j | 0 <= i < j < |rows|
      ensures rows[i].key != rows[j].key
    {
      PrecedesIsTotal(variance, options, rows[i], rows[j], rows[i]);
    }
  }

  /** Lists the groups in whatever order the map gives them, sorts them, and keeps what the limit allows. */
  method Present(variance: Variance, options: Options, groups: C.Groups) returns (rows: seq<Row>)
    requires forall key :: key in groups ==> CanonicalKey(key) == key
    ensures Presents(variance, options, groups, rows)
  {
    rows := [];
    var left := groups.Keys;
    while left != {}
      invariant left <= groups.Keys && Listing(groups, left, rows) && Sorted(variance, options, rows)
      decreases left
    {
      var key :| key in left;
      var row := Row(key, groups[key]);
      var at := FindPlace(variance, options, rows, row);
      InsertedListing(groups, left, rows, key, at);
      InsertedSorted(variance, options, rows, row, at);
      rows, left := Inserted(rows, row, at), left - {key};
    }
    ghost var all := rows;
    SortedIsDistinct(variance, options, groups, all);
    assert IsListing(variance, options, groups, all);
    if options.limit.Some? && options.limit.value < |rows| {
      rows := rows[..options.limit.value];
    } else {
      assert all[..|all|] == all;
    }
  }

  // ---- What the result says ----

  lemma MentionedKeysAreCanonical(c: C.State, order: seq<Uuid>, key: C.Key)
    requires (forall i :: 0 <= i < |order| ==> order[i] in c.fragments) && C.MentionedBy(c, order, key)
    ensures CanonicalKey(key) == key
  {
  }

  /** A key is missing from a presentation only if the limit was reached by rows that come before it. */
  lemma MissingMeansLimited(variance: Variance, options: Options, groups: C.Groups, rows: seq<Row>, key: C.Key)
    requires Presents(variance, options, groups, rows)
    ensures forall i :: 0 <= i < |rows| ==> rows[i].key in groups && rows[i].aggregate == groups[rows[i].key]
    ensures forall i, j :: 0 <= i < j < |rows| ==> rows[i].key != rows[j].key
    ensures key in groups && (forall i :: 0 <= i < |rows| ==> rows[i].key != key) ==>
      && options.limit == Some(|rows|)
      && forall i :: 0 <= i < |rows| ==> Precedes(variance, options, rows[i], Row(key, groups[key]))
  {
    var all :| IsListing(variance, options, groups, all) && rows == all[..Kept(options, |all|)];
    assert forall i :: 0 <= i < |rows| ==> rows[i] == all[i];
    if key in groups && forall i :: 0 <= i < |rows| ==> rows[i].key != key {
      var j :| 0 <= j < |all| && all[j] == Row(key, groups[key]);
      assert j >= |rows|;
    }
  }

  lemma FinishedTotals(c: C.State, groups: C.Groups)
    requires C.Sound(c) && C.Finish(c) == Success(groups)
    ensures forall i :: 0 <= i < |c.order| ==> c.order[i] in c.fragments
    ensures C.Totals(c, c.order, groups) && forall key :: key in groups ==> CanonicalKey(key) == key
  {
    C.FinishConservesRows(c);
    forall key | key in groups
      ensures CanonicalKey(key) == key
    {
      MentionedKeysAreCanonical(c, c.order, key);
    }
  }

  /**
   The result of a finished query: every row counts all rows of its key over all tablets and holds what
   their partials come to, no key is listed twice, and a key some tablet mentions is missing only if rows
   before it reached the limit.
   */
  lemma ResultConservesRows(
    variance: Variance, options: Options, c: C.State, groups: C.Groups, rows: seq<Row>, key: C.Key)
    requires C.Sound(c) && C.Finish(c) == Success(groups) && Presents(variance, options, groups, rows)
    ensures forall i :: 0 <= i < |c.order| ==> c.order[i] in c.fragments
    ensures key in groups <==> C.MentionedBy(c, c.order, key)
    ensures forall i :: 0 <= i < |rows| && rows[i].key == key ==>
      && key in groups && rows[i].aggregate.count == C.TotalRows(c, c.order, key)
      && rows[i].aggregate == Whole(c.floats, C.Pieces(c, c.order, key))
    ensures forall i, j :: 0 <= i < j < |rows| ==> rows[i].key != rows[j].key
    ensures key in groups && (forall i :: 0 <= i < |rows| ==> rows[i].key != key) ==>
      && options.limit == Some(|rows|)
      && forall i :: 0 <= i < |rows| ==> Precedes(variance, options, rows[i], Row(key, groups[key]))
  {
    FinishedTotals(c, groups);
    C.FinishedKey(c, groups, key);
    MissingMeansLimited(variance, options, groups, rows, key);
  }
}
