/**
 * Turning a finder's filter specification into a search request: the
 * two-level nested boolean query, the pagination window and the sort keys.
 */
module Compiler {
  import opened Wrappers
  import opened Text
  import opened Finder
  import opened Search

  /** Nested paths of the alert document: infos inside an alert, areas inside an info. */
  const InfosPath := "infos"
  const AreasPath := "infos.areas"
  /** The polygon field the point is tested against. */
  const AreaPolygonsField := "infos.areas.polygons"
  /** The large derived field left out of returned documents. */
  const DerefUriField := "infos.resources.deref_uri"

  /** The leaf query one map entry becomes: a term query for an exact-match
      field, a query-string query for a free-text field. */
  function Leaf(text: bool, field: string, value: string): Query {
    if text then QueryString(field, value) else Term(field, value)
  }

  /** One leaf clause per entry of `fields`, in no particular order. */
  function Clauses(fields: map<string, string>, text: bool): (r: multiset<Query>)
    ensures forall k | k in fields :: r[Leaf(text, k, fields[k])] == 1
    ensures forall q | q in r ::
      && (if text then q.QueryString? else q.Term?)
      && q.field in fields && q == Leaf(text, q.field, fields[q.field])
    ensures |r| == |fields|
  {
    var s := set k | k in fields :: Leaf(text, k, fields[k]);
    LeafImageSize(fields, text);
    multiset(s)
  }

  /** The leaves of distinct keys are distinct, so there are as many leaves as keys. */
  lemma {:induction false} LeafImageSize(fields: map<string, string>, text: bool)
    ensures |set k | k in fields :: Leaf(text, k, fields[k])| == |fields|
    decreases |fields|
  {
    if |fields| != 0 {
      var k0 :| k0 in fields;
      var rest := fields - {k0};
      LeafImageSize(rest, text);
      var all := set k | k in fields :: Leaf(text, k, fields[k]);
      var restSet := set k | k in rest :: Leaf(text, k, rest[k]);
      forall q | q in all
        ensures q in restSet + {Leaf(text, k0, fields[k0])}
      {
        var k :| k in fields && q == Leaf(text, k, fields[k]);
        if k != k0 {
          assert k in rest && rest[k] == fields[k];
        }
      }
      assert all == restSet + {Leaf(text, k0, fields[k0])};
      assert Leaf(text, k0, fields[k0]) !in restSet;
    }
  }

  /** No alert, info or free-text field is set; the point is not looked at. */
  predicate NoFieldFilters(f: AlertsFinder) {
    |f.alertFields| == 0 && |f.alertInfoFields| == 0 && |f.alertInfoTextFields| == 0
  }

  /** Some info-level criterion is set, so the infos clause is needed. */
  predicate NeedsInfos(f: AlertsFinder) {
    |f.alertInfoFields| > 0 || |f.alertInfoTextFields| > 0 || f.coordinates.Some?
  }

  /** Offsets only, no content, for both nesting levels. */
  const OffsetsOnly := Some(InnerHit(false))

  /** The area clause: the point tested against the areas of one info block. */
  function AreaQuery(point: GeoPoint): Query {
    Nested(AreasPath, GeoShape(AreaPolygonsField, point), OffsetsOnly)
  }

  /** The area clause when a point is set, nothing otherwise. */
  function AreaClauses(coordinates: Option<GeoPoint>): (r: multiset<Query>)
    ensures forall p :: AreaQuery(p) in r <==> coordinates == Some(p)
    ensures forall q | q in r :: q.Nested? && q.path == AreasPath
    ensures |r| == if coordinates.Some? then 1 else 0
  {
    match coordinates
    case Some(p) => multiset{AreaQuery(p)}
    case None => multiset{}
  }

  /** The conjunction evaluated against each info block. */
  function InfoConjunction(f: AlertsFinder): multiset<Query> {
    Clauses(f.alertInfoFields, false) + Clauses(f.alertInfoTextFields, true)
      + AreaClauses(f.coordinates)
  }

  /** The infos clause. */
  function InfoQuery(f: AlertsFinder): Query {
    Nested(InfosPath, Bool(InfoConjunction(f)), OffsetsOnly)
  }

  /** The query and source projection `query` installs on the search. */
  datatype Compiled = Compiled(query: Query, source: Option<SourceFilter>)

  /** `query`: match-all with the default projection when no field filter
      is set; otherwise a conjunction of the alert-field terms and, when an
      info-level criterion is set, one infos clause. */
  function Compile(f: AlertsFinder): (r: Compiled)
    ensures NoFieldFilters(f) <==> r.query == MatchAll
    ensures NoFieldFilters(f) <==> r.source == None
    ensures !NoFieldFilters(f) ==> r.source == Some(SourceFilter(true, [DerefUriField]))
    ensures !NoFieldFilters(f) ==> r.query.Bool?
    ensures !NoFieldFilters(f) ==>
      |r.query.must| == |f.alertFields| + (if NeedsInfos(f) then 1 else 0)
    ensures !NoFieldFilters(f) ==>
      forall k | k in f.alertFields :: r.query.must[Term(k, f.alertFields[k])] == 1
    ensures !NoFieldFilters(f) ==> (NeedsInfos(f) <==> InfoQuery(f) in r.query.must)
  {
    if NoFieldFilters(f) then
      Compiled(MatchAll, None)
    else
      var infos := if NeedsInfos(f) then multiset{InfoQuery(f)} else multiset{};
      Compiled(Bool(Clauses(f.alertFields, false) + infos), Some(SourceFilter(true, [DerefUriField])))
  }

  /** `paginate`: a value reaches the store only when strictly positive;
      zero and negative values leave the store's default in place. */
  function Paginate(f: AlertsFinder): (w: Window)
    ensures w.from.Some? <==> f.from > 0
    ensures w.from.Some? ==> w.from.value == f.from
    ensures w.size.Some? <==> f.size > 0
    ensures w.size.Some? ==> w.size.value == f.size
  {
    Window(if f.from > 0 then Some(f.from) else None, if f.size > 0 then Some(f.size) else None)
  }

  /** The directive a sort key is written as: a leading dash for descending. */
  function Directive(k: SortKey): string {
    if k.ascending then k.field else "-" + k.field
  }

  /** One sort directive, trimmed; a leading dash makes it descending and is
      dropped from the field name. */
  function SortKeyOf(directive: string): (k: SortKey)
    ensures Directive(k) == TrimSpace(directive)
    ensures k.ascending <==> !HasPrefix(TrimSpace(directive), "-")
  {
    var s := TrimSpace(directive);
    if HasPrefix(s, "-") then
      assert s == "-" + s[1..];
      SortKey(s[1..], false)
    else
      SortKey(s, true)
  }

  /** The sort key the store's default relevance order uses. */
  const ScoreDescending := SortKey("_score", false)

  /** The keys of a list of directives, one each, in order. */
  function SortKeys(directives: seq<string>): (keys: seq<SortKey>)
    ensures |keys| == |directives|
  {
    seq(|directives|, i requires 0 <= i < |directives| => SortKeyOf(directives[i]))
  }

  /** `sorting`: one key per directive, in directive order, or relevance
      score descending when there is none. */
  function Sorting(f: AlertsFinder): (keys: seq<SortKey>)
    ensures f.sort == [] ==> keys == [ScoreDescending]
    ensures f.sort != [] ==> |keys| == |f.sort|
    ensures f.sort != [] ==> forall i | 0 <= i < |f.sort| :: keys[i] == SortKeyOf(f.sort[i])
  {
    if f.sort == [] then [ScoreDescending] else SortKeys(f.sort)
  }

  /** A sort key its directive can express: the field has no white space at
      the end, and an ascending field also none at the start and no leading dash. */
  predicate Expressible(k: SortKey) {
    if k.ascending then Trimmed(k.field) && !HasPrefix(k.field, "-")
    else k.field == [] || !IsSpace(k.field[|k.field| - 1])
  }

  /** Reading back the directive of an expressible key gives the key. */
  lemma SortKeyRoundTrip(k: SortKey)
    requires Expressible(k)
    ensures SortKeyOf(Directive(k)) == k
  {
    if k.ascending {
      assert TrimSpace(k.field) == k.field;
    } else {
      var d := "-" + k.field;
      assert d[0] == '-' && d[..1] == "-" && d[1..] == k.field;
      assert k.field != [] ==> d[|d| - 1] == k.field[|k.field| - 1];
      assert TrimSpace(d) == d;
    }
  }

  /** The directives given to a later `Sort` call become sort keys after
      the earlier ones; the relevance default only stands in for an empty list. */
  lemma SortingAfterSort(f: AlertsFinder, fields: seq<string>)
    ensures f.sort != [] ==> Sorting(Sort(f, fields)) == Sorting(f) + SortKeys(fields)
    ensures f.sort == [] && fields != [] ==> Sorting(Sort(f, fields)) == SortKeys(fields)
    ensures f.sort == [] && fields == [] ==> Sorting(Sort(f, fields)) == [ScoreDescending]
  {
    var g := Sort(f, fields);
    if f.sort != [] {
      assert Sorting(g) == Sorting(f) + SortKeys(fields);
    }
  }

  /** A dash makes a directive descending. */
  lemma DashDirectiveExample()
    ensures SortKeyOf("-effective") == SortKey("effective", false)
  {
    var d := "-effective";
    assert !IsSpace(d[0]) && !IsSpace(d[|d| - 1]);
    assert TrimSpace(d) == d;
    assert d[..1] == "-";
    assert d[1..] == "effective";
  }

  /** A directive without a dash is ascending. */
  lemma PlainDirectiveExample()
    ensures SortKeyOf("headline") == SortKey("headline", true)
  {
    var d := "headline";
    assert !IsSpace(d[0]) && !IsSpace(d[|d| - 1]);
    assert TrimSpace(d) == d;
    assert d[..1] != "-";
  }

  /** Zero keeps the store defaults; positive values are passed through. */
  lemma PaginateExamples()
    ensures Paginate(NewAlertsFinder()) == Window(None, None)
    ensures Paginate(Size(From(NewAlertsFinder(), 20), 10)) == Window(Some(20), Some(10))
    ensures Paginate(Size(From(NewAlertsFinder(), -5), 0)) == Window(None, None)
  {
  }

  /** The match-all guard looks only at the three field maps: a point given
      without any field filter does not restrict the search. */
  lemma PointAloneMatchesAll(p: GeoPoint)
    ensures Compile(Point(NewAlertsFinder(), p)) == Compiled(MatchAll, None)
    ensures Compile(Status(Point(NewAlertsFinder(), p), "Actual")).query.must[AreaQuery(p)] == 0
  {
    var f := Status(Point(NewAlertsFinder(), p), "Actual");
    NoAreaClauseAtTopLevel(f);
  }

  /** The top-level conjunction holds exactly the alert-field terms and,
      when needed, the infos clause. */
  lemma TopLevelClauses(f: AlertsFinder)
    requires !NoFieldFilters(f)
    ensures forall q | q in Compile(f).query.must ::
      q == InfoQuery(f) || (q.Term? && q.field in f.alertFields && q.value == f.alertFields[q.field])
  {
    var terms := Clauses(f.alertFields, false);
    var infos := if NeedsInfos(f) then multiset{InfoQuery(f)} else multiset{};
    assert Compile(f).query.must == terms + infos;
  }

  /** No geo-shape clause and no area clause sits at top level. */
  lemma NoAreaClauseAtTopLevel(f: AlertsFinder)
    requires !NoFieldFilters(f)
    ensures forall q | q in Compile(f).query.must ::
      !q.GeoShape? && !(q.Nested? && q.path == AreasPath)
  {
    TopLevelClauses(f);
    assert InfoQuery(f).path != AreasPath by {
      assert |InfosPath| != |AreasPath|;
    }
  }

  /** Inside the infos clause there is one term per info field. */
  lemma InfoTerms(f: AlertsFinder, k: string)
    requires k in f.alertInfoFields
    ensures InfoConjunction(f)[Term(k, f.alertInfoFields[k])] == 1
  {
    var q := Term(k, f.alertInfoFields[k]);
    assert Clauses(f.alertInfoTextFields, true)[q] == 0;
    assert AreaClauses(f.coordinates)[q] == 0;
  }

  /** Inside the infos clause there is one query-string query per free-text field. */
  lemma InfoTexts(f: AlertsFinder, k: string)
    requires k in f.alertInfoTextFields
    ensures InfoConjunction(f)[QueryString(k, f.alertInfoTextFields[k])] == 1
  {
    var q := QueryString(k, f.alertInfoTextFields[k]);
    assert Clauses(f.alertInfoFields, false)[q] == 0;
    assert AreaClauses(f.coordinates)[q] == 0;
  }

  /** Inside the infos clause the area clause appears exactly when a point is
      set, and nothing else is there. */
  lemma InfoArea(f: AlertsFinder, p: GeoPoint)
    ensures AreaQuery(p) in InfoConjunction(f) <==> f.coordinates == Some(p)
    ensures |InfoConjunction(f)| ==
      |f.alertInfoFields| + |f.alertInfoTextFields| + (if f.coordinates.Some? then 1 else 0)
  {
    assert AreaQuery(p) !in Clauses(f.alertInfoFields, false);
    assert AreaQuery(p) !in Clauses(f.alertInfoTextFields, true);
  }

  /** The nested path a field belongs to in the alert mapping: area fields
      to the areas path, other info fields to the infos path, the rest to the
      alert itself (the empty path). */
  function ScopeOf(field: string): string {
    if HasPrefix(field, AreasPath + ".") then AreasPath
    else if HasPrefix(field, InfosPath + ".") then InfosPath
    else ""
  }

  /** Every leaf of `q` sits under exactly the nested query of its own field's
      path, so all the predicates of one nested clause are tested against the
      same array element, never against elements of different blocks. */
  predicate ScopedIn(q: Query, path: string) {
    match q
    case MatchAll => true
    case Bool(must) => forall c | c in must :: ScopedIn(c, path)
    case Term(field, _) => ScopeOf(field) == path
    case QueryString(field, _) => ScopeOf(field) == path
    case GeoShape(field, _) => ScopeOf(field) == path
    case Nested(p, inner, _) => ScopeOf(p) == path && ScopedIn(inner, p)
  }

  /** The infos path hangs off the alert itself, and the areas path off infos. */
  lemma PathScopes()
    ensures ScopeOf(InfosPath) == ""
    ensures ScopeOf(AreasPath) == InfosPath
  {
    assert AreasPath[..6] == InfosPath + ".";
  }

  /** Scoping rejects a misplaced nested clause: the area clause is scoped
      inside the infos clause and nowhere else, and the infos clause only at
      the alert's top level. */
  lemma MisplacedNestingIsNotScoped(p: GeoPoint, q: Query)
    ensures ScopedIn(AreaQuery(p), InfosPath)
    ensures !ScopedIn(AreaQuery(p), "")
    ensures !ScopedIn(Bool(multiset{AreaQuery(p)}), "")
    ensures !ScopedIn(Nested(InfosPath, q, OffsetsOnly), InfosPath)
  {
    PathScopes();
    PolygonFieldScope();
    assert AreaQuery(p) in multiset{AreaQuery(p)};
  }

  /** The alert-field keys belong to the alert itself. */
  lemma AlertKeyScope(k: string)
    requires k in AlertKeys
    ensures ScopeOf(k) == ""
  {
    assert AreasPath + "." == "infos.areas." && InfosPath + "." == "infos.";
    NotPrefixAt(k, AreasPath + ".", 0);
    NotPrefixAt(k, InfosPath + ".", 0);
  }

  /** The info term and text keys belong to the infos path. */
  lemma InfoKeyScope(k: string)
    requires k in AlertInfoKeys || k in AlertInfoTextKeys
    ensures ScopeOf(k) == InfosPath
  {
    assert AreasPath + "." == "infos.areas." && InfosPath + "." == "infos.";
    NotPrefixAt(k, AreasPath + ".", 6);
    assert k[..6] == InfosPath + ".";
  }

  /** The polygon field belongs to the areas path. */
  lemma PolygonFieldScope()
    ensures ScopeOf(AreaPolygonsField) == AreasPath
  {
    assert AreaPolygonsField[..12] == AreasPath + ".";
  }

  /** Leaves of fields that all belong to `path` are scoped to `path`. */
  lemma ClausesScoped(fields: map<string, string>, text: bool, path: string)
    requires forall k | k in fields :: ScopeOf(k) == path
    ensures forall c | c in Clauses(fields, text) :: ScopedIn(c, path)
  {
    forall c | c in Clauses(fields, text)
      ensures ScopedIn(c, path)
    {
      assert ScopeOf(c.field) == path;
    }
  }

  /** Joining two conjunctions of scoped clauses keeps them scoped. */
  lemma UnionScoped(a: multiset<Query>, b: multiset<Query>, path: string)
    requires forall c | c in a :: ScopedIn(c, path)
    requires forall c | c in b :: ScopedIn(c, path)
    ensures forall c | c in a + b :: ScopedIn(c, path)
  {
  }

  /** The area clause is scoped to the infos path. */
  lemma AreaClausesScoped(coordinates: Option<GeoPoint>)
    ensures forall c | c in AreaClauses(coordinates) :: ScopedIn(c, InfosPath)
  {
    PolygonFieldScope();
    PathScopes();
    if coordinates.Some? {
      assert ScopedIn(AreaQuery(coordinates.value), InfosPath);
    }
  }

  /** The term and text clauses of a reachable finder's infos clause are scoped. */
  lemma InfoFieldClausesScoped(f: AlertsFinder)
    requires Valid(f)
    ensures forall c | c in Clauses(f.alertInfoFields, false) :: ScopedIn(c, InfosPath)
    ensures forall c | c in Clauses(f.alertInfoTextFields, true) :: ScopedIn(c, InfosPath)
  {
    forall k | k in f.alertInfoFields
      ensures ScopeOf(k) == InfosPath
    {
      assert k in Fields(f, AlertInfoFields);
      InfoKeyScope(k);
    }
    forall k | k in f.alertInfoTextFields
      ensures ScopeOf(k) == InfosPath
    {
      assert k in Fields(f, AlertInfoTextFields);
      InfoKeyScope(k);
    }
    ClausesScoped(f.alertInfoFields, false, InfosPath);
    ClausesScoped(f.alertInfoTextFields, true, InfosPath);
  }

  /** The infos clause of a reachable finder is scoped. */
  lemma InfoQueryScoped(f: AlertsFinder)
    requires Valid(f)
    ensures ScopedIn(InfoQuery(f), "")
  {
    var terms := Clauses(f.alertInfoFields, false);
    var texts := Clauses(f.alertInfoTextFields, true);
    var area := AreaClauses(f.coordinates);
    InfoFieldClausesScoped(f);
    AreaClausesScoped(f.coordinates);
    PathScopes();
    UnionScoped(terms, texts, InfosPath);
    UnionScoped(terms + texts, area, InfosPath);
    var all := terms + texts + area;
    assert ScopedIn(Bool(all), InfosPath);
    assert InfoQuery(f) == Nested(InfosPath, Bool(all), OffsetsOnly);
  }

  /** The compiled query of every reachable finder scopes each predicate
      to its own nesting level. */
  lemma CompiledQueryIsScoped(f: AlertsFinder)
    requires Valid(f)
    ensures ScopedIn(Compile(f).query, "")
  {
    if !NoFieldFilters(f) {
      forall k | k in f.alertFields
        ensures ScopeOf(k) == ""
      {
        assert k in Fields(f, AlertFields);
        AlertKeyScope(k);
      }
      ClausesScoped(f.alertFields, false, "");
      InfoQueryScoped(f);
      var infos := if NeedsInfos(f) then multiset{InfoQuery(f)} else multiset{};
      assert Compile(f).query.must == Clauses(f.alertFields, false) + infos;
    }
  }

  /** The whole search `Find` sends: type "alert", query, window and sort. */
  function Request(f: AlertsFinder): (r: SearchRequest)
    ensures r.docType == "alert"
    ensures r.query == MatchAll <==> NoFieldFilters(f)
    ensures r.source == None <==> NoFieldFilters(f)
    ensures !NoFieldFilters(f) ==> r.query == Compile(f).query && r.source == Compile(f).source
    ensures r.window.from.Some? <==> f.from > 0
    ensures r.window.from.Some? ==> r.window.from.value == f.from
    ensures r.window.size.Some? <==> f.size > 0
    ensures r.window.size.Some? ==> r.window.size.value == f.size
    ensures f.sort == [] ==> r.sort == [ScoreDescending]
    ensures f.sort != [] ==> |r.sort| == |f.sort|
    ensures f.sort != [] ==> forall i | 0 <= i < |f.sort| :: r.sort[i] == SortKeyOf(f.sort[i])
  {
    var c := Compile(f);
    SearchRequest("alert", c.query, c.source, Paginate(f), Sorting(f))
  }
}
