# CAP alert search and Category codec — a Dafny model

This project models two pure pieces of the CAP (Common Alerting Protocol) search and fetch services, and proves properties about them.

**The alerts finder** (`finder.dfy`, `search.dfy`, `compiler.dfy`, `results.dfy`) searches a document store of CAP alerts.
- A finder holds three keyed string maps: alert fields, info term fields and info free-text fields.
- It also holds an optional geographic point, `from`/`size` pagination and a list of sort directives.
- Each setter writes one slot and returns the updated finder.
- `Compile` turns the finder into the store's query:
  - a match-all query when no field map has an entry;
  - otherwise a boolean conjunction of one term per alert field, plus one nested `infos` clause when an info field or a point is set.
- The `infos` clause holds one term per info field and one query-string query per free-text field. When a point is set, it also holds a nested `infos.areas` geo-shape clause. Both nested levels ask for inner hits with offsets only.
- `Paginate` and `Sorting` translate the window and the sort directives into store parameters.
- `Find` sends the request to the store and rebuilds the flat inner-hit offsets into alert → info offset → area offsets.

The store and the document decoder are parameters of `Find`: `store: SearchRequest -> Result<SearchResult, E>` and `decode: seq<byte> -> Result<A, E>`. Their errors are passed through unchanged. Conjunction children are multisets because the Go code adds them while iterating maps, whose order is unspecified; the model makes no claim about clause order. A point does not count as a field filter. When it is the only criterion, the query is match-all and the point does not restrict the search. The model keeps this behaviour (`Compiler.PointAloneMatchesAll`).

The predicate `Compiler.ScopedIn` states the nesting discipline of the alert mapping. Every leaf sits directly under the nested query of its own field's path, and every nested query sits directly under the nested query of its parent path: `infos` at the alert's top level, `infos.areas` inside `infos`. It is proved for every finder reachable through the setters (`Finder.Valid`). Under this discipline, the area clause tests the point only against the areas of the info block whose term and text filters it is conjoined with (`Compiler.MisplacedNestingIsNotScoped` shows that a top-level area clause, or `infos` nested in `infos`, is not scoped).

**The Category codec** (`category.dfy`) models the `category` element of OASIS CAP v1.2, section 3.2.2. It is a Go `int` with thirteen named constants. `UnmarshalString` lower-cases its input and accepts the canonical names and the aliases `geo`, `met`, `env` and `infra`. `String` prints canonical names. The XML form shortens four of the names. `UnmarshalString` returns the receiver's new value together with the error. On failure the receiver keeps its old value.

`text.dfy` holds the `strings` routines used above: `TrimSpace`, `HasPrefix` and `ToLower`. `wrappers.dfy` holds `Option` and `Result`.

## Model

| member | source | states |
|---|---|---|
| Finder.NewAlertsFinder | cap-search/vendor/github.com/alerting/go-cap-process/db/elastic/alerts_finder.go:38-45 | a new finder has three empty maps, no point, zero pagination and no sort, and is valid |
| Finder.Put | cap-search/vendor/github.com/alerting/go-cap-process/db/elastic/alerts_finder.go:48-99 | a field write adds or overwrites exactly one key of exactly one map; the other entries and maps, the point, pagination and sort are unchanged |
| Finder.Status | cap-search/vendor/github.com/alerting/go-cap-process/db/elastic/alerts_finder.go:48-51 | writes only key `status` of the alert-field map |
| Finder.MessageType | cap-search/vendor/github.com/alerting/go-cap-process/db/elastic/alerts_finder.go:54-57 | writes only key `message_type` of the alert-field map |
| Finder.Scope | cap-search/vendor/github.com/alerting/go-cap-process/db/elastic/alerts_finder.go:60-63 | writes only key `scope` of the alert-field map |
| Finder.Language | cap-search/vendor/github.com/alerting/go-cap-process/db/elastic/alerts_finder.go:66-69 | writes only key `infos.language` of the info term map |
| Finder.Certainty | cap-search/vendor/github.com/alerting/go-cap-process/db/elastic/alerts_finder.go:72-75 | writes only key `infos.certainty` of the info term map |
| Finder.Severity | cap-search/vendor/github.com/alerting/go-cap-process/db/elastic/alerts_finder.go:78-81 | writes only key `infos.severity` of the info term map |
| Finder.Urgency | cap-search/vendor/github.com/alerting/go-cap-process/db/elastic/alerts_finder.go:84-87 | writes only key `infos.urgency` of the info term map |
| Finder.Headline | cap-search/vendor/github.com/alerting/go-cap-process/db/elastic/alerts_finder.go:90-93 | writes only key `infos.headline` of the info text map |
| Finder.Description | cap-search/vendor/github.com/alerting/go-cap-process/db/elastic/alerts_finder.go:96-99 | writes only key `infos.description` of the info text map |
| Finder.Point | cap-search/vendor/github.com/alerting/go-cap-process/db/elastic/alerts_finder.go:102-110 | sets the point; maps, pagination and sort are unchanged |
| Finder.From | cap-search/vendor/github.com/alerting/go-cap-process/db/elastic/alerts_finder.go:113-116 | stores the start offset as given; nothing else changes |
| Finder.Size | cap-search/vendor/github.com/alerting/go-cap-process/db/elastic/alerts_finder.go:119-122 | stores the page size as given; nothing else changes |
| Finder.Sort | cap-search/vendor/github.com/alerting/go-cap-process/db/elastic/alerts_finder.go:127-133 | appends the directives after the existing ones in call order; the existing ones are kept |
| Finder.LastWriteWins | cap-search/vendor/github.com/alerting/go-cap-process/db/elastic/alerts_finder.go:48-99 | writing a key twice equals writing only the second value |
| Finder.PutsCommute | cap-search/vendor/github.com/alerting/go-cap-process/db/elastic/alerts_finder.go:48-99 | writes to different slots commute, so filters can be given in any order |
| Finder.SortCallsConcatenate | cap-search/vendor/github.com/alerting/go-cap-process/db/elastic/alerts_finder.go:127-133 | two `Sort` calls equal one call with both lists, in call order |
| Compiler.Clauses | cap-search/vendor/github.com/alerting/go-cap-process/db/elastic/alerts_finder.go:198-200 | exactly one leaf clause per map entry, and nothing else |
| Compiler.LeafImageSize | cap-search/vendor/github.com/alerting/go-cap-process/db/elastic/alerts_finder.go:206-211 | distinct keys give distinct clauses, so the clause count equals the entry count |
| Compiler.AreaClauses | cap-search/vendor/github.com/alerting/go-cap-process/db/elastic/alerts_finder.go:214-222 | the `infos.areas` nested geo-shape clause is present exactly when a point is set |
| Compiler.Compile | cap-search/vendor/github.com/alerting/go-cap-process/db/elastic/alerts_finder.go:186-235 | match-all with no source projection if and only if all three maps are empty; otherwise a conjunction of one term per alert field plus the `infos` clause if and only if an info field, a text field or a point is set, with `infos.resources.deref_uri` excluded from returned documents |
| Compiler.PointAloneMatchesAll | cap-search/vendor/github.com/alerting/go-cap-process/db/elastic/alerts_finder.go:186-190 | a point with no field filter still gives match-all; with a field filter, the area clause is not at top level |
| Compiler.TopLevelClauses | cap-search/vendor/github.com/alerting/go-cap-process/db/elastic/alerts_finder.go:196-229 | every top-level clause of a filtered query is an alert-field term carrying that field's value, or the `infos` clause |
| Compiler.NoAreaClauseAtTopLevel | cap-search/vendor/github.com/alerting/go-cap-process/db/elastic/alerts_finder.go:196-229 | no top-level clause of a filtered query is a geo-shape or an `infos.areas` nested query |
| Compiler.InfoTerms | cap-search/vendor/github.com/alerting/go-cap-process/db/elastic/alerts_finder.go:206-208 | each info term field is exactly one term inside the `infos` conjunction |
| Compiler.InfoTexts | cap-search/vendor/github.com/alerting/go-cap-process/db/elastic/alerts_finder.go:209-211 | each info text field is exactly one query-string clause inside the `infos` conjunction |
| Compiler.InfoArea | cap-search/vendor/github.com/alerting/go-cap-process/db/elastic/alerts_finder.go:213-222 | the area clause is inside the `infos` conjunction if and only if that point is set, and the conjunction holds nothing besides the term, text and area clauses |
| Compiler.AlertKeyScope | cap-search/vendor/github.com/alerting/go-cap-process/db/elastic/alerts_finder.go:48-63 | the alert-field keys `status`, `message_type` and `scope` belong to the alert document itself |
| Compiler.InfoKeyScope | cap-search/vendor/github.com/alerting/go-cap-process/db/elastic/alerts_finder.go:66-99 | the info term and text keys all lie under `infos` and not under `infos.areas` |
| Compiler.PolygonFieldScope | cap-search/vendor/github.com/alerting/go-cap-process/db/elastic/alerts_finder.go:214-216 | the geo-shape field `infos.areas.polygons` lies under `infos.areas` |
| Compiler.AreaClausesScoped | cap-search/vendor/github.com/alerting/go-cap-process/db/elastic/alerts_finder.go:213-222 | the area clause keeps its geo-shape leaf under the `infos.areas` nested query |
| Compiler.InfoFieldClausesScoped | cap-search/vendor/github.com/alerting/go-cap-process/db/elastic/alerts_finder.go:205-211 | in a valid finder, the info term and text clauses are all scoped to `infos` |
| Compiler.ClausesScoped | cap-search/vendor/github.com/alerting/go-cap-process/db/elastic/alerts_finder.go:206-211 | the clauses of fields that all belong to one path are scoped to that path |
| Compiler.InfoQueryScoped | cap-search/vendor/github.com/alerting/go-cap-process/db/elastic/alerts_finder.go:203-228 | every leaf in the `infos` clause of a valid finder sits under its own nesting level |
| Compiler.CompiledQueryIsScoped | cap-search/vendor/github.com/alerting/go-cap-process/db/elastic/alerts_finder.go:196-229 | in the compiled query of any valid finder, every leaf sits under the nested query of its field's own path and every nested query under that of its parent path, so the geo-shape is only ever under `infos.areas` inside `infos` |
| Compiler.PathScopes | cap-search/vendor/github.com/alerting/go-cap-process/db/elastic/alerts_finder.go:203-228 | the `infos` nested path hangs off the alert itself, and `infos.areas` off `infos` |
| Compiler.MisplacedNestingIsNotScoped | cap-search/vendor/github.com/alerting/go-cap-process/db/elastic/alerts_finder.go:213-228 | the area clause is scoped inside `infos` but not at top level, alone or in a conjunction, and `infos` nested inside `infos` is not scoped |
| Compiler.Request | cap-search/vendor/github.com/alerting/go-cap-process/db/elastic/alerts_finder.go:136-139 | the request targets document type `alert`; its query is match-all and its source projection absent exactly when no field filter is set, and otherwise they are the compiled conjunction and projection; `from` and `size` are sent, with the finder's value, exactly when positive; an empty sort list becomes score descending, otherwise the key of each directive, in order |
| Compiler.Paginate | cap-search/vendor/github.com/alerting/go-cap-process/db/elastic/alerts_finder.go:237-247 | `from` and `size` reach the store if and only if strictly positive, unchanged; otherwise the store default stands |
| Compiler.PaginateExamples | cap-search/vendor/github.com/alerting/go-cap-process/db/elastic/alerts_finder.go:237-247 | 0/0 and negative values keep the defaults; 20/10 is passed as given |
| Compiler.SortKeyOf | cap-search/vendor/github.com/alerting/go-cap-process/db/elastic/alerts_finder.go:259-271 | writing the key back as a directive gives the trimmed input, and the key is descending exactly when the trimmed input starts with `-` |
| Text.TrimSpaceInfix | cap-search/vendor/github.com/alerting/go-cap-process/db/elastic/alerts_finder.go:260 | trimming a directive removes only white space: the result is the infix after the leading white space, and everything removed from either end is white space |
| Compiler.SortKeyRoundTrip | cap-search/vendor/github.com/alerting/go-cap-process/db/elastic/alerts_finder.go:259-271 | reading back the directive of any key a directive can express gives that key |
| Compiler.DashDirectiveExample | cap-search/vendor/github.com/alerting/go-cap-process/db/elastic/alerts_finder.go:259-271 | the directive `-effective` becomes the key (`effective`, descending) |
| Compiler.PlainDirectiveExample | cap-search/vendor/github.com/alerting/go-cap-process/db/elastic/alerts_finder.go:259-271 | the directive `headline` becomes the key (`headline`, ascending) |
| Compiler.Sorting | cap-search/vendor/github.com/alerting/go-cap-process/db/elastic/alerts_finder.go:251-277 | no directives give (`_score`, descending); otherwise one key per directive, in order |
| Compiler.SortingAfterSort | cap-search/vendor/github.com/alerting/go-cap-process/db/elastic/alerts_finder.go:251-277 | keys of later `Sort` calls follow earlier ones; the score default only replaces an empty list |
| Results.Offsets | cap-search/vendor/github.com/alerting/go-cap-process/db/elastic/alerts_finder.go:171-173 | the offsets of the area hits, one per hit, in store order |
| Results.InfoHitsOf | cap-search/vendor/github.com/alerting/go-cap-process/db/elastic/alerts_finder.go:164-178 | the map's keys are exactly the info inner-hit offsets; each key holds the area offsets of the last inner hit with that offset |
| Results.InfoHitsStep | cap-search/vendor/github.com/alerting/go-cap-process/db/elastic/alerts_finder.go:176 | a new entry adds its offset; the last hit for any other offset stays the last |
| Results.InfoHitsExample | cap-search/vendor/github.com/alerting/go-cap-process/db/elastic/alerts_finder.go:164-178 | info offsets 2 and 5, with areas 0 and 3 under 5, give `{2: [], 5: [0, 3]}` |
| Results.DuplicateOffsetKeepsLast | cap-search/vendor/github.com/alerting/go-cap-process/db/elastic/alerts_finder.go:176 | an offset reported twice keeps the later inner hit |
| Results.AssembleHits | cap-search/vendor/github.com/alerting/go-cap-process/db/elastic/alerts_finder.go:153-181 | succeeds if and only if every hit decodes, then gives one alert hit per raw hit in order; otherwise fails with the error of the first hit that does not decode |
| Results.Assemble | cap-search/vendor/github.com/alerting/go-cap-process/db/elastic/alerts_finder.go:148-183 | succeeds exactly when every hit decodes, then keeps the store total and gives one reassembled alert hit per raw hit, in order; otherwise fails with the error of the first hit that does not decode |
| Results.FirstFailureShifts | cap-search/vendor/github.com/alerting/go-cap-process/db/elastic/alerts_finder.go:153-157 | the first decode failure after a decoded head is the first failure of the whole list |
| Results.DecodedShifts | cap-search/vendor/github.com/alerting/go-cap-process/db/elastic/alerts_finder.go:153-157 | every hit decodes exactly when the first one does and every later one does |
| Results.AssembledShape | cap-search/vendor/github.com/alerting/go-cap-process/db/elastic/alerts_finder.go:148-181 | the total is copied verbatim; there is one alert hit per raw hit, holding that hit's decoded document; a hit with no `infos` inner hits has an empty info map |
| Results.CollectAreaHits | cap-search/vendor/github.com/alerting/go-cap-process/db/elastic/alerts_finder.go:166-174 | the area offsets of one info hit, in store order, or empty when it has no area inner hits |
| Results.CollectInfoHits | cap-search/vendor/github.com/alerting/go-cap-process/db/elastic/alerts_finder.go:161-178 | the loop builds exactly the reference info-offset map |
| Results.CollectAlertHits | cap-search/vendor/github.com/alerting/go-cap-process/db/elastic/alerts_finder.go:153-184 | the loop over the store's hits yields exactly the reference assembly: all hits reassembled in order, or the first decode error |
| Results.AllDecodedAssembles | cap-search/vendor/github.com/alerting/go-cap-process/db/elastic/alerts_finder.go:153-184 | when every hit decodes, the assembly is the store's total with exactly those reassembled hits |
| Results.Find | cap-search/vendor/github.com/alerting/go-cap-process/db/elastic/alerts_finder.go:136-184 | a store error is returned as is; otherwise the result equals the reference assembly of the store's answer |
| Results.FirstFailureIsReported | cap-search/vendor/github.com/alerting/go-cap-process/db/elastic/alerts_finder.go:153-157 | when hit n is the first that does not decode, the whole assembly fails with that hit's error |
| Results.FirstFailureOfHits | cap-search/vendor/github.com/alerting/go-cap-process/db/elastic/alerts_finder.go:153-157 | the same on the hit list, by induction on n |
| Categories.String | cap-get/vendor/github.com/alerting/go-cap/category.go:105-135 | non-empty exactly for the thirteen named constants |
| Categories.StringInjective | cap-get/vendor/github.com/alerting/go-cap/category.go:105-134 | distinct named constants print differently |
| Categories.XmlString | cap-get/vendor/github.com/alerting/go-cap/category.go:87-101 | differs from the canonical name exactly for Geological, Meteorological, Environment and Infrastructure, which become Geo, Met, Env and Infra |
| Categories.UnmarshalString | cap-get/vendor/github.com/alerting/go-cap/category.go:29-61 | on success the receiver holds a parsable category; on failure it is unchanged and the error names the lower-cased value |
| Categories.CaseInsensitive | cap-get/vendor/github.com/alerting/go-cap/category.go:29-30 | a value and its lower-cased form have the same outcome |
| Categories.UnmarshalSound | cap-get/vendor/github.com/alerting/go-cap/category.go:32-55 | a value that parses is, once lower-cased, a spelling of the category it parsed into |
| Categories.UnmarshalComplete | cap-get/vendor/github.com/alerting/go-cap/category.go:32-55 | every spelling of a parsable category parses into it, whatever the receiver held |
| Categories.UnmarshalSucceedsIff | cap-get/vendor/github.com/alerting/go-cap/category.go:29-61 | a value parses if and only if, once lower-cased, it spells some parsable category |
| Categories.GeoAlias | cap-get/vendor/github.com/alerting/go-cap/category.go:32-33 | `geo` and `geological` both parse into Geological, whatever the receiver held |
| Categories.MetAlias | cap-get/vendor/github.com/alerting/go-cap/category.go:34-35 | `met` and `meteorological` both parse into Meteorological, whatever the receiver held |
| Categories.EnvAlias | cap-get/vendor/github.com/alerting/go-cap/category.go:46-47 | `env` and `environment` both parse into Environment, whatever the receiver held |
| Categories.InfraAlias | cap-get/vendor/github.com/alerting/go-cap/category.go:50-51 | `infra` and `infrastructure` both parse into Infrastructure, whatever the receiver held |
| Categories.ParsesAsLower | cap-get/vendor/github.com/alerting/go-cap/category.go:30-55 | an already lower-case value that the decision chain accepts parses into that category with no error |
| Categories.StringRoundTrip | cap-get/vendor/github.com/alerting/go-cap/category.go:105-129 | for Geological to Other, parsing the printed name gives the category back |
| Categories.XmlRoundTrip | cap-get/vendor/github.com/alerting/go-cap/category.go:87-101 | every XML form of a parsable category parses back into that category |
| Categories.UnknownDoesNotParse | cap-get/vendor/github.com/alerting/go-cap/category.go:56-58 | `Unknown` is printed but refused by the parser, and the receiver is left unchanged |

## Left out

- The request handlers (`cap-search/handler.go`, `cap-get/handler.go`) are left out. They read the environment and URL query strings, parse times and floats, and call `log.Fatal`.
- The information-level finder (`db.InfoFinder`) is not modelled.
- Parsing the `"lat,lon"` text in `Point` is left out, together with the panic on malformed input. That parsing is done by the store client library, so `Finder.Point` takes the already-parsed point. The point is an opaque pair of reals that is carried, never computed with.
- The store client is left out: index selection, the HTTP call and the JSON decoding of `cap.Alert`. `Results.Find` takes the store as a function from request to answer and the decoder as a function from bytes to a result. The index name is a client setting, so `SearchRequest` omits it.
- `UnmarshalXML`, `UnmarshalJSON`, `MarshalJSON` and the encoder call in `MarshalXML` are left out. They delegate to Go's XML and JSON encoders. Only the strings they wrap are modelled (`UnmarshalString`, `String`, `XmlString`).
- Geo-shape containment and relevance scoring are left out, because the store evaluates them. The model proves the shape of the query, not its meaning under the store's semantics.
- The store's nested-hit identity is reduced to one number. `NestedHit.offset` is the top-level `Nested.Offset` the code reads for both info and area hits; its `Field`/`Child` chain is dropped. That the store places an area's own offset there, for a hit two levels deep, is assumed and not modelled.
- Serialising the results to JSON is left out: integer map keys written as strings, and the serialise/parse round trip.
- The setters update a new value: Go's setters mutate the finder through its pointer and return the same pointer. The two agree for callers that use the returned finder; a caller that keeps an older copy of the pointer would see the change, and the model does not describe that aliasing.
- Go strings are byte strings that may hold invalid UTF-8, which `strings.ToLower` and `strings.TrimSpace` treat as U+FFFD. A Dafny `string` holds Unicode scalar values only, so such inputs are not modelled.
- Text.ToLower: lower-cases ASCII letters only, whereas Go's `strings.ToLower` also maps non-ASCII letters. Every accepted spelling is ASCII, but a non-ASCII input whose Unicode lower-casing yields an accepted spelling is refused by the model and accepted by Go.
- Integer widths are not modelled. Go `int` and `int64` for `from`, `size`, offsets and the total become unbounded integers. The code does no arithmetic on them, so wrap-around cannot arise.
- Behaviour kept exactly as the code has it:
  - negative `from`/`size` values are stored as given, not clamped, and `paginate` ignores them;
  - this finder has no instruction text filter;
  - a leading `-` on a sort directive is removed when the directive is translated, not when it is stored, and the directive is trimmed first;
  - a point does not by itself leave the match-all path.
