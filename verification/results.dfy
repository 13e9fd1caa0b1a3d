/**
 * The store's raw response and the finder's public result shape, and the
 * reassembly of the flat inner-hit offsets into alert -> matched info
 * blocks -> matched areas.
 */
module Results {
  import opened Wrappers
  import opened Finder
  import opened Search
  import Compiler

  newtype byte = x: int | 0 <= x < 256

  /** A nested element that matched: the `Nested.Offset` the store reports
      for it (the rest of the store's nested identity is dropped) and the
      inner hits of the nested queries below it, keyed by path. */
  datatype NestedHit = NestedHit(offset: int, innerHits: map<string, seq<NestedHit>>)

  /** A matched alert: its stored document, undecoded, and its inner hits by path. */
  datatype SearchHit = SearchHit(source: seq<byte>, innerHits: map<string, seq<NestedHit>>)

  /** The store's answer: the total match count and one page of hits. */
  datatype SearchResult = SearchResult(totalHits: int, hits: seq<SearchHit>)

  /** One matched info block: the offsets of its matched areas, in store order. */
  datatype InfoHit = InfoHit(areaHits: seq<int>)

  /** One matched alert: the decoded alert and its matched info blocks by offset. */
  datatype AlertHit<A> = AlertHit(alert: A, infoHits: map<int, InfoHit>)

  datatype AlertsResults<A> = AlertsResults(total: int, hits: seq<AlertHit<A>>)

  /** The inner hits under `path`, or none when the path is absent. */
  function InnerHitsAt(inner: map<string, seq<NestedHit>>, path: string): seq<NestedHit> {
    if path in inner then inner[path] else []
  }

  /** The offsets of a list of nested hits, in order. */
  function Offsets(hits: seq<NestedHit>): (r: seq<int>)
    ensures |r| == |hits|
    ensures forall i | 0 <= i < |hits| :: r[i] == hits[i].offset
  {
    seq(|hits|, i requires 0 <= i < |hits| => hits[i].offset)
  }

  /** The info hit one matched info block becomes. */
  function InfoHitOf(h: NestedHit): InfoHit {
    InfoHit(Offsets(InnerHitsAt(h.innerHits, Compiler.AreasPath)))
  }

  /** `hits[i]` is the last of `hits` with its offset. */
  predicate LastWithOffset(hits: seq<NestedHit>, i: int)
    requires 0 <= i < |hits|
  {
    forall j | i < j < |hits| :: hits[j].offset != hits[i].offset
  }

  /** The offset map the loop over the infos inner hits builds: one entry per
      distinct offset, and for an offset met more than once, the last hit's. */
  function InfoHitsOf(hits: seq<NestedHit>): (r: map<int, InfoHit>)
    ensures forall o :: o in r <==> o in Offsets(hits)
    ensures forall i | 0 <= i < |hits| && LastWithOffset(hits, i) :: r[hits[i].offset] == InfoHitOf(hits[i])
  {
    if hits == [] then map[]
    else
      var prefix := hits[..|hits| - 1];
      var last := hits[|hits| - 1];
      InfoHitsStep(hits);
      InfoHitsOf(prefix)[last.offset := InfoHitOf(last)]
  }

  /** The offsets of a list are those of all but its last hit, then the last
      one's; and the last hit with a given offset is either the list's last
      hit or the last with that offset among the others. */
  lemma InfoHitsStep(hits: seq<NestedHit>)
    requires hits != []
    ensures Offsets(hits) == Offsets(hits[..|hits| - 1]) + [hits[|hits| - 1].offset]
    ensures forall i | 0 <= i < |hits| - 1 && LastWithOffset(hits, i) ::
      LastWithOffset(hits[..|hits| - 1], i) && hits[i].offset != hits[|hits| - 1].offset
  {
    var prefix := hits[..|hits| - 1];
    assert forall i | 0 <= i < |prefix| :: prefix[i] == hits[i];
  }

  /** Info offsets 2 and 5 matched, and within 5 the areas at offsets 0 and 3:
      the map has exactly those two keys, with the area offsets in store order. */
  lemma InfoHitsExample()
    ensures InfoHitsOf([
        NestedHit(2, map[]),
        NestedHit(5, map[Compiler.AreasPath := [NestedHit(0, map[]), NestedHit(3, map[])]])])
      == map[2 := InfoHit([]), 5 := InfoHit([0, 3])]
  {
    var a := NestedHit(2, map[]);
    var b := NestedHit(5, map[Compiler.AreasPath := [NestedHit(0, map[]), NestedHit(3, map[])]]);
    assert [a, b][..1] == [a];
    assert [a][..0] == [];
    assert Offsets([NestedHit(0, map[]), NestedHit(3, map[])]) == [0, 3];
  }

  /** An offset reported twice keeps the inner hit reported last. */
  lemma DuplicateOffsetKeepsLast(first: NestedHit, second: NestedHit)
    requires first.offset == second.offset
    ensures InfoHitsOf([first, second]) == map[second.offset := InfoHitOf(second)]
  {
    assert [first, second][..1] == [first];
    assert [first][..0] == [];
  }

  /** The alert hit a raw hit becomes once its document is decoded. */
  function AlertHitOf<A>(h: SearchHit, alert: A): AlertHit<A> {
    AlertHit(alert, InfoHitsOf(InnerHitsAt(h.innerHits, Compiler.InfosPath)))
  }

  /** Decoding succeeds for every hit before position `n`. */
  predicate DecodedUpTo<A, E>(hits: seq<SearchHit>, decode: seq<byte> -> Result<A, E>, n: int)
    requires 0 <= n <= |hits|
  {
    forall j | 0 <= j < n :: decode(hits[j].source).Success?
  }

  /** The assembled hits of one page: every hit decoded and reassembled in
      order, or the error of the first hit that does not decode. */
  function AssembleHits<A, E>(hits: seq<SearchHit>, decode: seq<byte> -> Result<A, E>): (r: Result<seq<AlertHit<A>>, E>)
    ensures r.Success? <==> DecodedUpTo(hits, decode, |hits|)
    ensures r.Success? ==> |r.value| == |hits|
    ensures r.Success? ==>
      forall i | 0 <= i < |hits| :: r.value[i] == AlertHitOf(hits[i], decode(hits[i].source).value)
    ensures r.Failure? ==> exists i | 0 <= i < |hits| ::
      DecodedUpTo(hits, decode, i) && decode(hits[i].source) == Failure(r.error)
  {
    if hits == [] then Success([])
    else
      match decode(hits[0].source)
      case Failure(e) =>
        assert DecodedUpTo(hits, decode, 0);
        Failure(e)
      case Success(a) =>
        DecodedShifts(hits, decode);
        match AssembleHits(hits[1..], decode)
        case Failure(e) =>
          FirstFailureShifts(hits, decode, e);
          Failure(e)
        case Success(rest) =>
          var out := [AlertHitOf(hits[0], a)] + rest;
          assert forall j | 1 <= j < |hits| :: hits[j] == hits[1..][j - 1] && out[j] == rest[j - 1];
          Success(out)
  }

  /** Every hit decodes exactly when the first does and every later one does. */
  lemma DecodedShifts<A, E>(hits: seq<SearchHit>, decode: seq<byte> -> Result<A, E>)
    requires hits != []
    ensures DecodedUpTo(hits, decode, |hits|) <==>
      decode(hits[0].source).Success? && DecodedUpTo(hits[1..], decode, |hits| - 1)
  {
    assert forall j | 1 <= j < |hits| :: hits[j] == hits[1..][j - 1];
  }

  /** A first decode failure in the tail, after a head that decodes, is a
      first decode failure of the whole list. */
  lemma FirstFailureShifts<A, E>(hits: seq<SearchHit>, decode: seq<byte> -> Result<A, E>, e: E)
    requires hits != [] && decode(hits[0].source).Success?
    requires exists i | 0 <= i < |hits[1..]| ::
      DecodedUpTo(hits[1..], decode, i) && decode(hits[1..][i].source) == Failure(e)
    ensures exists i | 0 <= i < |hits| ::
      DecodedUpTo(hits, decode, i) && decode(hits[i].source) == Failure(e)
  {
    var i :| 0 <= i < |hits[1..]| && DecodedUpTo(hits[1..], decode, i)
      && decode(hits[1..][i].source) == Failure(e);
    assert DecodedUpTo(hits, decode, i + 1);
  }

  /** The result `Find` assembles from the store's answer. */
  function Assemble<A, E>(raw: SearchResult, decode: seq<byte> -> Result<A, E>): (r: Result<AlertsResults<A>, E>)
    ensures r.Success? <==> DecodedUpTo(raw.hits, decode, |raw.hits|)
    ensures r.Success? ==> r.value.total == raw.totalHits && |r.value.hits| == |raw.hits|
    ensures r.Success? ==> forall i | 0 <= i < |raw.hits| ::
      r.value.hits[i] == AlertHitOf(raw.hits[i], decode(raw.hits[i].source).value)
    ensures r.Failure? ==> exists i | 0 <= i < |raw.hits| ::
      DecodedUpTo(raw.hits, decode, i) && decode(raw.hits[i].source) == Failure(r.error)
  {
    match AssembleHits(raw.hits, decode)
    case Success(hits) => Success(AlertsResults(raw.totalHits, hits))
    case Failure(e) => Failure(e)
  }

  /** A successful assembly keeps the store's total and has one alert hit
      per raw hit, in order, holding that hit's decoded document; an alert hit
      without info inner hits has an empty info map. */
  lemma AssembledShape<A, E>(raw: SearchResult, decode: seq<byte> -> Result<A, E>)
    ensures Assemble(raw, decode).Success? <==> DecodedUpTo(raw.hits, decode, |raw.hits|)
    ensures Assemble(raw, decode).Success? ==>
      var res := Assemble(raw, decode).value;
      && res.total == raw.totalHits
      && |res.hits| == |raw.hits|
      && forall i | 0 <= i < |raw.hits| ::
           && res.hits[i].alert == decode(raw.hits[i].source).value
           && (Compiler.InfosPath !in raw.hits[i].innerHits ==> res.hits[i].infoHits == map[])
  {
  }

  /** The loop over one info hit's area inner hits: their offsets, in store
      order, or none when the info hit has no area inner hits. */
  method CollectAreaHits(infoHit: NestedHit) returns (areaHits: seq<int>)
    ensures |areaHits| == |InnerHitsAt(infoHit.innerHits, Compiler.AreasPath)|
    ensures forall i | 0 <= i < |areaHits| ::
      areaHits[i] == InnerHitsAt(infoHit.innerHits, Compiler.AreasPath)[i].offset
  {
    areaHits := [];
    if Compiler.AreasPath in infoHit.innerHits {
      var areas := infoHit.innerHits[Compiler.AreasPath];
      var m := 0;
      while m < |areas|
        invariant 0 <= m <= |areas|
        invariant |areaHits| == m
        invariant forall i | 0 <= i < m :: areaHits[i] == areas[i].offset
      {
        areaHits := areaHits + [areas[m].offset];
        m := m + 1;
      }
    }
  }

  /** The loop over one alert hit's info inner hits: the offset map of
      `InfoHitsOf`, empty when the alert hit has no info inner hits. */
  method CollectInfoHits(alertHit: SearchHit) returns (infoHits: map<int, InfoHit>)
    ensures infoHits == InfoHitsOf(InnerHitsAt(alertHit.innerHits, Compiler.InfosPath))
  {
    infoHits := map[];
    if Compiler.InfosPath in alertHit.innerHits {
      var infos := alertHit.innerHits[Compiler.InfosPath];
      var k := 0;
      while k < |infos|
        invariant 0 <= k <= |infos|
        invariant infoHits == InfoHitsOf(infos[..k])
      {
        var infoHit := infos[k];
        var areaHits := CollectAreaHits(infoHit);
        assert areaHits == Offsets(InnerHitsAt(infoHit.innerHits, Compiler.AreasPath));
        assert infos[..k + 1][..k] == infos[..k];
        assert InfoHitsOf(infos[..k + 1]) == InfoHitsOf(infos[..k])[infoHit.offset := InfoHitOf(infoHit)];
        infoHits := infoHits[infoHit.offset := InfoHit(areaHits)];
        k := k + 1;
      }
      assert infos[..k] == infos;
    }
  }

  /** The loop over the store's hits: each is decoded and reassembled in
      order, and the first decode error ends the loop and is returned. */
  method CollectAlertHits<A, E>(raw: SearchResult, decode: seq<byte> -> Result<A, E>)
    returns (r: Result<AlertsResults<A>, E>)
    ensures r == Assemble(raw, decode)
  {
    var hits: seq<AlertHit<A>> := [];
    var n := 0;
    while n < |raw.hits|
      invariant 0 <= n <= |raw.hits|
      invariant DecodedUpTo(raw.hits, decode, n)
      invariant |hits| == n
      invariant forall i | 0 <= i < n :: hits[i] == AlertHitOf(raw.hits[i], decode(raw.hits[i].source).value)
    {
      var alertHit := raw.hits[n];
      var decoded := decode(alertHit.source);
      if decoded.Failure? {
        FirstFailureIsReported(raw, decode, n);
        return Failure(decoded.error);
      }
      var infoHits := CollectInfoHits(alertHit);
      assert AlertHit(decoded.value, infoHits) == AlertHitOf(alertHit, decoded.value);
      hits := hits + [AlertHit(decoded.value, infoHits)];
      n := n + 1;
    }
    AllDecodedAssembles(raw, decode, hits);
    r := Success(AlertsResults(raw.totalHits, hits));
  }

  /** When every hit decodes, assembly yields exactly the hits reassembled in order. */
  lemma AllDecodedAssembles<A, E>(raw: SearchResult, decode: seq<byte> -> Result<A, E>, out: seq<AlertHit<A>>)
    requires DecodedUpTo(raw.hits, decode, |raw.hits|)
    requires |out| == |raw.hits|
    requires forall i | 0 <= i < |raw.hits| ::
      out[i] == AlertHitOf(raw.hits[i], decode(raw.hits[i].source).value)
    ensures Assemble(raw, decode) == Success(AlertsResults(raw.totalHits, out))
  {
    var r := AssembleHits(raw.hits, decode);
    assert r.value == out;
  }

  /** `Find`: sends the compiled request to the store, then reassembles
      every hit's inner-hit offsets into the result shape; the store's error,
      or the first decode error, is returned instead of any result. */
  method Find<A, E>(f: AlertsFinder, store: SearchRequest -> Result<SearchResult, E>,
                    decode: seq<byte> -> Result<A, E>)
    returns (r: Result<AlertsResults<A>, E>)
    ensures store(Compiler.Request(f)).Failure? ==> r == Failure(store(Compiler.Request(f)).error)
    ensures store(Compiler.Request(f)).Success? ==> r == Assemble(store(Compiler.Request(f)).value, decode)
  {
    var response := store(Compiler.Request(f));
    if response.Failure? {
      return Failure(response.error);
    }
    r := CollectAlertHits(response.value, decode);
  }

  /** When hit `n` is the first that does not decode, assembly fails with its error. */
  lemma FirstFailureIsReported<A, E>(raw: SearchResult, decode: seq<byte> -> Result<A, E>, n: int)
    requires 0 <= n < |raw.hits|
    requires DecodedUpTo(raw.hits, decode, n) && decode(raw.hits[n].source).Failure?
    ensures Assemble(raw, decode) == Failure(decode(raw.hits[n].source).error)
  {
    FirstFailureOfHits(raw.hits, decode, n);
  }

  /** `FirstFailureIsReported` on the hit list itself, by induction on `n`. */
  lemma {:induction false} FirstFailureOfHits<A, E>(hits: seq<SearchHit>, decode: seq<byte> -> Result<A, E>, n: int)
    requires 0 <= n < |hits|
    requires DecodedUpTo(hits, decode, n) && decode(hits[n].source).Failure?
    ensures AssembleHits(hits, decode) == Failure(decode(hits[n].source).error)
  {
    if n > 0 {
      assert DecodedUpTo(hits[1..], decode, n - 1);
      FirstFailureOfHits(hits[1..], decode, n - 1);
    }
  }
}
