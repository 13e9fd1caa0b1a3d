/**
 * The `category` element of an alert's info block (OASIS CAP v1.2,
 * section 3.2.2): a closed enumeration held in a Go `int`, with a
 * case-insensitive parser that accepts short aliases, a canonical printer,
 * and the shortened spellings used in the XML form.
 */
module Categories {
  import opened Wrappers
  import Text

  /** Go's `type Category int`: any integer can be held, thirteen are named. */
  type Category = int

  const Unknown: Category := 0
  const Geological: Category := 1
  const Meteorological: Category := 2
  const Safety: Category := 3
  const Security: Category := 4
  const Rescue: Category := 5
  const Fire: Category := 6
  const Health: Category := 7
  const Environment: Category := 8
  const Transport: Category := 9
  const Infrastructure: Category := 10
  const CBRNE: Category := 11
  const Other: Category := 12

  /** One of the thirteen named constants. */
  predicate Named(c: Category) {
    Unknown <= c <= Other
  }

  /** A category a string can be parsed into: every named one but Unknown. */
  predicate Parsable(c: Category) {
    Geological <= c <= Other
  }

  /** `Category.String`: the canonical name; Unknown prints as "Unknown", an
      integer outside the enumeration prints as the empty string. */
  function String(c: Category): (r: string)
    ensures Named(c) <==> r != ""
  {
    if c == Geological then "Geological"
    else if c == Meteorological then "Meteorological"
    else if c == Safety then "Safety"
    else if c == Security then "Security"
    else if c == Rescue then "Rescue"
    else if c == Fire then "Fire"
    else if c == Health then "Health"
    else if c == Environment then "Environment"
    else if c == Transport then "Transport"
    else if c == Infrastructure then "Infrastructure"
    else if c == CBRNE then "CBRNE"
    else if c == Other then "Other"
    else if c == Unknown then "Unknown"
    else ""
  }

  /** The text `MarshalXML` writes: the canonical name, except that four
      categories are written in their short form. */
  function XmlString(c: Category): (r: string)
    ensures r != String(c) <==> c in {Geological, Meteorological, Environment, Infrastructure}
    ensures c == Geological ==> r == "Geo"
    ensures c == Meteorological ==> r == "Met"
    ensures c == Environment ==> r == "Env"
    ensures c == Infrastructure ==> r == "Infra"
  {
    var str := String(c);
    if str == "Geological" then "Geo"
    else if str == "Meteorological" then "Met"
    else if str == "Environment" then "Env"
    else if str == "Infrastructure" then "Infra"
    else str
  }

  /** The decision chain of `UnmarshalString`, applied to an already lower-cased value. */
  function FromLower(value: string): Option<Category> {
    if value == "geo" || value == "geological" then Some(Geological)
    else if value == "met" || value == "meteorological" then Some(Meteorological)
    else if value == "safety" then Some(Safety)
    else if value == "security" then Some(Security)
    else if value == "rescue" then Some(Rescue)
    else if value == "fire" then Some(Fire)
    else if value == "health" then Some(Health)
    else if value == "env" || value == "environment" then Some(Environment)
    else if value == "transport" then Some(Transport)
    else if value == "infra" || value == "infrastructure" then Some(Infrastructure)
    else if value == "cbrne" then Some(CBRNE)
    else if value == "other" then Some(Other)
    else None
  }

  /** The receiver after `UnmarshalString`, and the error it returned (None for nil). */
  datatype Unmarshalled = Unmarshalled(category: Category, err: Option<string>)

  /** `(*Category).UnmarshalString`: on success the receiver holds a parsable
      category; on failure it is left as it was and the error names the
      lower-cased value. */
  function UnmarshalString(receiver: Category, value: string): (r: Unmarshalled)
    ensures r.err.None? ==> Parsable(r.category)
    ensures r.err.Some? ==> r.category == receiver
    ensures r.err.Some? ==> r.err.value == "Unknown Category value: " + Text.ToLower(value)
  {
    var lower := Text.ToLower(value);
    match FromLower(lower)
    case Some(c) => Unmarshalled(c, None)
    case None => Unmarshalled(receiver, Some("Unknown Category value: " + lower))
  }

  /** Every spelling (after lower-casing) that names `c`: its canonical name
      and its XML short form. */
  function Spellings(c: Category): set<string> {
    {Text.ToLower(String(c)), Text.ToLower(XmlString(c))}
  }

  /** The lower-cased canonical and short names of the first six categories. */
  lemma LowerNamesFirst()
    ensures Text.ToLower("Geological") == "geological" && Text.ToLower("Geo") == "geo"
    ensures Text.ToLower("Meteorological") == "meteorological" && Text.ToLower("Met") == "met"
    ensures Text.ToLower("Safety") == "safety"
    ensures Text.ToLower("Security") == "security"
    ensures Text.ToLower("Rescue") == "rescue"
    ensures Text.ToLower("Fire") == "fire"
  {
  }

  /** The lower-cased canonical and short names of the last six categories. */
  lemma LowerNamesLast()
    ensures Text.ToLower("Health") == "health"
    ensures Text.ToLower("Environment") == "environment" && Text.ToLower("Env") == "env"
    ensures Text.ToLower("Transport") == "transport"
    ensures Text.ToLower("Infrastructure") == "infrastructure" && Text.ToLower("Infra") == "infra"
    ensures Text.ToLower("CBRNE") == "cbrne"
    ensures Text.ToLower("Other") == "other"
  {
  }

  /** Parsing is case-insensitive: a value and its lower-cased form have the same outcome. */
  lemma CaseInsensitive(receiver: Category, value: string)
    ensures UnmarshalString(receiver, value) == UnmarshalString(receiver, Text.ToLower(value))
  {
    Text.ToLowerIdempotent(value);
  }

  /** Whatever parses names the category it was parsed into. */
  lemma UnmarshalSound(receiver: Category, value: string)
    ensures UnmarshalString(receiver, value).err.None? ==>
      Text.ToLower(value) in Spellings(UnmarshalString(receiver, value).category)
  {
    LowerNamesFirst();
    LowerNamesLast();
  }

  /** Every spelling of a parsable category parses into it, whatever the receiver held. */
  lemma UnmarshalComplete(receiver: Category, value: string, c: Category)
    requires Parsable(c)
    requires Text.ToLower(value) in Spellings(c)
    ensures UnmarshalString(receiver, value) == Unmarshalled(c, None)
  {
    LowerNamesFirst();
    LowerNamesLast();
  }

  /** A value parses if and only if, lower-cased, it spells some parsable category. */
  lemma UnmarshalSucceedsIff(receiver: Category, value: string)
    ensures UnmarshalString(receiver, value).err.None? <==>
      exists c :: Parsable(c) && Text.ToLower(value) in Spellings(c)
  {
    var r := UnmarshalString(receiver, value);
    if r.err.None? {
      UnmarshalSound(receiver, value);
      assert Parsable(r.category) && Text.ToLower(value) in Spellings(r.category);
    } else if c :| Parsable(c) && Text.ToLower(value) in Spellings(c) {
      UnmarshalComplete(receiver, value, c);
      assert false;
    }
  }

  /** A lower-case value is parsed by the decision chain directly. */
  lemma ParsesAsLower(receiver: Category, value: string)
    requires Text.ToLower(value) == value && FromLower(value).Some?
    ensures UnmarshalString(receiver, value) == Unmarshalled(FromLower(value).value, None)
  {
  }

  /** A short alias and the full name it abbreviates parse into the same category. */
  predicate AliasOf(receiver: Category, short: string, full: string, c: Category) {
    UnmarshalString(receiver, short) == UnmarshalString(receiver, full) == Unmarshalled(c, None)
  }

  lemma GeoAlias(receiver: Category)
    ensures AliasOf(receiver, "geo", "geological", Geological)
  {
    assert Text.ToLower("geo") == "geo";
    assert Text.ToLower("geological") == "geological";
  }

  lemma MetAlias(receiver: Category)
    ensures AliasOf(receiver, "met", "meteorological", Meteorological)
  {
    assert Text.ToLower("met") == "met";
    assert Text.ToLower("meteorological") == "meteorological";
  }

  lemma EnvAlias(receiver: Category)
    ensures AliasOf(receiver, "env", "environment", Environment)
  {
    assert Text.ToLower("env") == "env";
    assert Text.ToLower("environment") == "environment";
  }

  lemma InfraAlias(receiver: Category)
    ensures AliasOf(receiver, "infra", "infrastructure", Infrastructure)
  {
    assert Text.ToLower("infra") == "infra";
    assert Text.ToLower("infrastructure") == "infrastructure";
  }

  /** Printing then parsing gives back every parsable category. */
  lemma StringRoundTrip(receiver: Category, c: Category)
    requires Parsable(c)
    ensures UnmarshalString(receiver, String(c)) == Unmarshalled(c, None)
  {
    UnmarshalComplete(receiver, String(c), c);
  }

  /** The XML form, short or not, parses back into the category it was written from. */
  lemma XmlRoundTrip(receiver: Category, c: Category)
    requires Parsable(c)
    ensures UnmarshalString(receiver, XmlString(c)) == Unmarshalled(c, None)
  {
    UnmarshalComplete(receiver, XmlString(c), c);
  }

  /** "Unknown" is printed, but is refused by the parser and leaves the receiver alone. */
  lemma UnknownDoesNotParse(receiver: Category)
    ensures UnmarshalString(receiver, String(Unknown)).err.Some?
    ensures UnmarshalString(receiver, String(Unknown)).category == receiver
  {
    assert Text.ToLower("Unknown") == "unknown";
  }

  /** Distinct named categories print differently. */
  lemma StringInjective(a: Category, b: Category)
    requires Named(a) && Named(b)
    requires String(a) == String(b)
    ensures a == b
  {
  }
}
