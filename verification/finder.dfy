/**
 * The alerts finder's filter specification: three keyed string maps (alert
 * fields, info term fields, info free-text fields), an optional point,
 * pagination and a list of sort directives, built up by setter calls.
 * Each setter returns the updated specification, as the Go builder returns
 * its receiver for chaining.
 */
module Finder {
  import opened Wrappers
  import Search

  datatype AlertsFinder = AlertsFinder(
    from: int,
    size: int,
    sort: seq<string>,
    alertFields: map<string, string>,
    alertInfoFields: map<string, string>,
    alertInfoTextFields: map<string, string>,
    coordinates: Option<Search.GeoPoint>)

  /** Names the three field maps of a finder. */
  datatype FieldMap = AlertFields | AlertInfoFields | AlertInfoTextFields

  function Fields(f: AlertsFinder, m: FieldMap): map<string, string> {
    match m
    case AlertFields => f.alertFields
    case AlertInfoFields => f.alertInfoFields
    case AlertInfoTextFields => f.alertInfoTextFields
  }

  /** The keys the setters write, per map. */
  const AlertKeys: set<string> := {"status", "message_type", "scope"}
  const AlertInfoKeys: set<string> :=
    {"infos.language", "infos.certainty", "infos.severity", "infos.urgency"}
  const AlertInfoTextKeys: set<string> := {"infos.headline", "infos.description"}

  function KeysOf(m: FieldMap): set<string> {
    match m
    case AlertFields => AlertKeys
    case AlertInfoFields => AlertInfoKeys
    case AlertInfoTextFields => AlertInfoTextKeys
  }

  /** Every key in every map is one a setter writes into that map: true of
      every finder reachable from `NewAlertsFinder` by setter calls. */
  predicate Valid(f: AlertsFinder) {
    forall m :: Fields(f, m).Keys <= KeysOf(m)
  }

  /** `NewAlertsFinder`: no filter, no point, default pagination, no sort. */
  function NewAlertsFinder(): (f: AlertsFinder)
    ensures forall m :: Fields(f, m) == map[]
    ensures f.coordinates == None && f.from == 0 && f.size == 0 && f.sort == []
    ensures Valid(f)
  {
    AlertsFinder(0, 0, [], map[], map[], map[], None)
  }

  /** Everything outside the three field maps is the same in `f` and `r`. */
  predicate SameSettings(f: AlertsFinder, r: AlertsFinder) {
    r.coordinates == f.coordinates && r.from == f.from && r.size == f.size && r.sort == f.sort
  }

  /** `r` is `f` with exactly `key` of map `m` set to `value`: that key is
      added or overwritten, every other entry of `m`, the other two maps,
      the point, the pagination and the sort are unchanged. */
  ghost predicate WritesOnly(f: AlertsFinder, r: AlertsFinder, m: FieldMap, key: string, value: string) {
    && Fields(r, m).Keys == Fields(f, m).Keys + {key}
    && Fields(r, m)[key] == value
    && (forall k | k in Fields(f, m) && k != key :: Fields(r, m)[k] == Fields(f, m)[k])
    && (forall m' | m' != m :: Fields(r, m') == Fields(f, m'))
    && SameSettings(f, r)
  }

  /** The single write every field setter performs. */
  function Put(f: AlertsFinder, m: FieldMap, key: string, value: string): (r: AlertsFinder)
    ensures WritesOnly(f, r, m, key, value)
    ensures Valid(f) && key in KeysOf(m) ==> Valid(r)
  {
    match m
    case AlertFields => f.(alertFields := f.alertFields[key := value])
    case AlertInfoFields => f.(alertInfoFields := f.alertInfoFields[key := value])
    case AlertInfoTextFields => f.(alertInfoTextFields := f.alertInfoTextFields[key := value])
  }

  function Status(f: AlertsFinder, status: string): (r: AlertsFinder)
    ensures WritesOnly(f, r, AlertFields, "status", status)
    ensures Valid(f) ==> Valid(r)
  {
    Put(f, AlertFields, "status", status)
  }

  function MessageType(f: AlertsFinder, messageType: string): (r: AlertsFinder)
    ensures WritesOnly(f, r, AlertFields, "message_type", messageType)
    ensures Valid(f) ==> Valid(r)
  {
    Put(f, AlertFields, "message_type", messageType)
  }

  function Scope(f: AlertsFinder, scope: string): (r: AlertsFinder)
    ensures WritesOnly(f, r, AlertFields, "scope", scope)
    ensures Valid(f) ==> Valid(r)
  {
    Put(f, AlertFields, "scope", scope)
  }

  function Language(f: AlertsFinder, language: string): (r: AlertsFinder)
    ensures WritesOnly(f, r, AlertInfoFields, "infos.language", language)
    ensures Valid(f) ==> Valid(r)
  {
    Put(f, AlertInfoFields, "infos.language", language)
  }

  function Certainty(f: AlertsFinder, certainty: string): (r: AlertsFinder)
    ensures WritesOnly(f, r, AlertInfoFields, "infos.certainty", certainty)
    ensures Valid(f) ==> Valid(r)
  {
    Put(f, AlertInfoFields, "infos.certainty", certainty)
  }

  function Severity(f: AlertsFinder, severity: string): (r: AlertsFinder)
    ensures WritesOnly(f, r, AlertInfoFields, "infos.severity", severity)
    ensures Valid(f) ==> Valid(r)
  {
    Put(f, AlertInfoFields, "infos.severity", severity)
  }

  function Urgency(f: AlertsFinder, urgency: string): (r: AlertsFinder)
    ensures WritesOnly(f, r, AlertInfoFields, "infos.urgency", urgency)
    ensures Valid(f) ==> Valid(r)
  {
    Put(f, AlertInfoFields, "infos.urgency", urgency)
  }

  function Headline(f: AlertsFinder, headline: string): (r: AlertsFinder)
    ensures WritesOnly(f, r, AlertInfoTextFields, "infos.headline", headline)
    ensures Valid(f) ==> Valid(r)
  {
    Put(f, AlertInfoTextFields, "infos.headline", headline)
  }

  function Description(f: AlertsFinder, description: string): (r: AlertsFinder)
    ensures WritesOnly(f, r, AlertInfoTextFields, "infos.description", description)
    ensures Valid(f) ==> Valid(r)
  {
    Put(f, AlertInfoTextFields, "infos.description", description)
  }

  /** `Point`, once the coordinate text has been parsed: only the point changes. */
  function Point(f: AlertsFinder, point: Search.GeoPoint): (r: AlertsFinder)
    ensures r.coordinates == Some(point)
    ensures forall m :: Fields(r, m) == Fields(f, m)
    ensures r.from == f.from && r.size == f.size && r.sort == f.sort
    ensures Valid(f) ==> Valid(r)
  {
    f.(coordinates := Some(point))
  }

  /** `From`: stores the value as given, negative or not; only `from` changes. */
  function From(f: AlertsFinder, from: int): (r: AlertsFinder)
    ensures r.from == from
    ensures forall m :: Fields(r, m) == Fields(f, m)
    ensures r.coordinates == f.coordinates && r.size == f.size && r.sort == f.sort
    ensures Valid(f) ==> Valid(r)
  {
    f.(from := from)
  }

  /** `Size`: stores the value as given, negative or not; only `size` changes. */
  function Size(f: AlertsFinder, size: int): (r: AlertsFinder)
    ensures r.size == size
    ensures forall m :: Fields(r, m) == Fields(f, m)
    ensures r.coordinates == f.coordinates && r.from == f.from && r.sort == f.sort
    ensures Valid(f) ==> Valid(r)
  {
    f.(size := size)
  }

  /** `Sort`: the new directives follow the existing ones, in call order;
      none of the existing ones is dropped or replaced. */
  function Sort(f: AlertsFinder, fields: seq<string>): (r: AlertsFinder)
    ensures |r.sort| == |f.sort| + |fields|
    ensures r.sort[..|f.sort|] == f.sort
    ensures r.sort[|f.sort|..] == fields
    ensures forall m :: Fields(r, m) == Fields(f, m)
    ensures r.coordinates == f.coordinates && r.from == f.from && r.size == f.size
    ensures Valid(f) ==> Valid(r)
  {
    f.(sort := f.sort + fields)
  }

  /** Setting the same key twice keeps only the second value. */
  lemma LastWriteWins(f: AlertsFinder, m: FieldMap, key: string, first: string, second: string)
    ensures Put(Put(f, m, key, first), m, key, second) == Put(f, m, key, second)
  {
    var once := Put(f, m, key, second);
    var twice := Put(Put(f, m, key, first), m, key, second);
    assert Fields(twice, m) == Fields(once, m);
    assert forall m' :: Fields(twice, m') == Fields(once, m');
  }

  /** Writes to different slots commute: filters may be given in any order. */
  lemma PutsCommute(f: AlertsFinder, m1: FieldMap, k1: string, v1: string, m2: FieldMap, k2: string, v2: string)
    requires m1 != m2 || k1 != k2
    ensures Put(Put(f, m1, k1, v1), m2, k2, v2) == Put(Put(f, m2, k2, v2), m1, k1, v1)
  {
    if m1 == m2 {
      var fields := Fields(f, m1);
      assert fields[k1 := v1][k2 := v2] == fields[k2 := v2][k1 := v1];
    }
  }

  /** Two `Sort` calls are one call with both argument lists, in call order. */
  lemma SortCallsConcatenate(f: AlertsFinder, first: seq<string>, second: seq<string>)
    ensures Sort(Sort(f, first), second) == Sort(f, first + second)
  {
    assert f.sort + first + second == f.sort + (first + second);
  }
}
