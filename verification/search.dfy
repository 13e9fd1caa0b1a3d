/**
 * The part of the document store's search API the finder uses: the query
 * tree, the source projection, the pagination window and the sort keys of
 * one search request.
 */
module Search {
  import opened Wrappers

  /** A point as produced by the store client's point parser; the model
      carries it to the query and never computes with it. */
  datatype GeoPoint = GeoPoint(lat: real, lon: real)

  /** Inner-hit settings of a nested query; `fetchSource` false asks the
      store for offsets only, not for the matched elements' content. */
  datatype InnerHit = InnerHit(fetchSource: bool)

  /** A boolean query's `must` clauses are a multiset: the compiler adds
      them while iterating Go maps, whose order is unspecified. */
  datatype Query =
    | MatchAll
    | Bool(must: multiset<Query>)
    | Term(field: string, value: string)
    | QueryString(field: string, text: string)
    | Nested(path: string, inner: Query, innerHit: Option<InnerHit>)
    | GeoShape(field: string, point: GeoPoint)

  /** Which parts of the stored document the store sends back. */
  datatype SourceFilter = SourceFilter(fetchSource: bool, excludes: seq<string>)

  datatype SortKey = SortKey(field: string, ascending: bool)

  /** A store-side window value: `None` leaves the store's default in place. */
  datatype Window = Window(from: Option<int>, size: Option<int>)

  datatype SearchRequest = SearchRequest(
    docType: string,
    query: Query,
    source: Option<SourceFilter>,
    window: Window,
    sort: seq<SortKey>)
}
