/**
 * app/show/details.go: the lookup URLs of a list of shows, and the show
 * details decoded from the rate-limited lookups.
 */
module Details {
  import opened Wrappers
  import opened Errors
  import opened Text
  import opened Requester
  import opened Channels
  import opened ShowRecords
  import Shows
  import Genres
  import Seqs

  /** One entry of the lookup response's `results`. */
  datatype LookupResult = LookupResult(
    collectionId: int, artistName: string, collectionName: string, genreIds: seq<string>,
    artworkURL30: string, artworkURL60: string, artworkURL100: string, feedURL: string)
  datatype LookupResponse = LookupResponse(results: seq<LookupResult>)

  /**
   * The dynamic type of an `interface{}` entity: a `lookupResponse` value, or
   * anything else (the `*lookupResponse` the decoder returns on error, a
   * `*RequestResult`, ...), which the type assertion rejects.
   */
  datatype LookupEntity = LookupValue(response: LookupResponse) | OtherValue

  /** `json.Unmarshal` into a `lookupResponse`. */
  type LookupUnmarshal = seq<byte> -> Result<LookupResponse, Error>

  /** `time.Second` in nanoseconds. */
  const Second: int := 1_000_000_000

  /** `fmt.Sprintf("%s=%d", "https://itunes.apple.com/lookup?id", id)` */
  function LookupURL(id: int): string
  {
    "https://itunes.apple.com/lookup?id" + "=" + FormatDecimal(id)
  }

  /** The ID is the decimal text after the fixed prefix, so distinct IDs give distinct URLs. */
  lemma LookupURLCarriesID(id: int)
    ensures "https://itunes.apple.com/lookup?id=" <= LookupURL(id)
    ensures ParseDecimal(LookupURL(id)[|"https://itunes.apple.com/lookup?id="|..]) == Ok(id)
  {
    assert LookupURL(id) == "https://itunes.apple.com/lookup?id=" + FormatDecimal(id);
    assert LookupURL(id)[|"https://itunes.apple.com/lookup?id="|..] == FormatDecimal(id);
    FormatThenParse(id);
  }

  lemma LookupURLInjective(m: int, n: int)
    requires LookupURL(m) == LookupURL(n)
    ensures m == n
  {
    LookupURLCarriesID(m);
    LookupURLCarriesID(n);
  }

  /** The URL the details step asks for is the one the show step's API lookup uses. */
  lemma LookupURLMatchesShowAPI(genre: Genres.Genre, id: int)
    ensures LookupURL(id) == Shows.ShowAPIURL(Shows.ShowsRequestOptions(genre), id)
  {
  }

  /**
   * `GetDetailsRequestOptions`: one lookup URL per show, in show order, and
   * five seconds between requests.
   */
  method GetDetailsRequestOptions(shows: seq<Shows.Show>) returns (opt: LimitedRequestOptions)
    ensures |opt.lookupURL| == |shows|
    ensures forall i :: 0 <= i < |shows| ==> opt.lookupURL[i] == LookupURL(shows[i].id)
    ensures opt.duration == 5 * Second
  {
    var urls: seq<string> := [];
    for i := 0 to |shows|
      invariant |urls| == i
      invariant forall j :: 0 <= j < i ==> urls[j] == LookupURL(shows[j].id)
    {
      var url := LookupURL(shows[i].id);
      urls := urls + [url];
    }
    opt := LimitedRequestOptions(urls, 5 * Second);
  }

  /** `lookupDecoder`: the decoded response as a value, or a pointer alongside the decoding error. */
  function LookupDecoder(unmarshal: LookupUnmarshal): (d: Decoder<LookupEntity>)
    ensures forall url, body :: unmarshal(body).Ok? ==> d(url, body) == (Some(LookupValue(unmarshal(body).value)), None)
    ensures forall url, body :: unmarshal(body).Err? ==> d(url, body) == (Some(OtherValue), Some(unmarshal(body).error))
  {
    (url: string, body: seq<byte>) =>
      match unmarshal(body)
      case Ok(r) => (Some(LookupValue(r)), None)
      case Err(e) => (Some(OtherValue), Some(e))
  }

  /**
   * `getLookupDetails`: only a `lookupResponse` value is accepted, it must
   * hold a result, and the first result gives the details; description and
   * last podcast stay empty.
   */
  function GetLookupDetails(entity: Option<LookupEntity>): (r: Result<ShowDetails, Error>)
    ensures !(entity.Some? && entity.value.LookupValue?) ==> r == Err(Message("Invalid entity detected"))
    ensures entity.Some? && entity.value.LookupValue? && entity.value.response.results == [] ==>
      r == Err(Message("Show is not found"))
    ensures entity.Some? && entity.value.LookupValue? && entity.value.response.results != [] ==>
      var a := entity.value.response.results[0];
      && r.Ok?
      && r.value.id == a.collectionId && r.value.name == a.collectionName && r.value.artist == a.artistName
      && r.value.rss == a.feedURL && r.value.genres == a.genreIds
      && r.value.image == ShowImage(a.artworkURL100, a.artworkURL30, a.artworkURL60)
      && r.value.description == "" && r.value.lastPodcast == Podcast("", "", "")
  {
    match entity
    case Some(LookupValue(res)) =>
      if |res.results| == 0 then Err(Message("Show is not found"))
      else
        var a := res.results[0];
        Ok(ShowDetails(a.collectionId, a.feedURL, a.collectionName, a.genreIds, a.artistName,
                       ShowImage(a.artworkURL100, a.artworkURL30, a.artworkURL60), "", Podcast("", "", "")))
    case _ => Err(Message("Invalid entity detected"))
  }

  /** Entries after the first result are ignored. */
  lemma LookupDetailsUseFirstResult(a: LookupResult, rest: seq<LookupResult>)
    ensures GetLookupDetails(Some(LookupValue(LookupResponse([a] + rest))))
         == GetLookupDetails(Some(LookupValue(LookupResponse([a]))))
  {
  }

  /**
   * What the loop of `GetDetails` does with one result, as intended: a
   * result carrying an error goes to the errors untouched, anything else is
   * handed to `getLookupDetails` by its entity.
   */
  function Classify(r: RequestResult<LookupEntity>): (c: Result<ShowDetails, Error>)
    ensures r.error.Some? ==> c == Err(r.error.value)
    ensures r.error.None? ==> c == GetLookupDetails(r.entity)
  {
    if r.error.Some? then Err(r.error.value) else GetLookupDetails(r.entity)
  }

  /** A result's entity plays no part when the result carries an error. */
  lemma ErrorBeforeEntity(r: RequestResult<LookupEntity>, entity: Option<LookupEntity>)
    requires r.error.Some?
    ensures Classify(r) == Classify(r.(entity := entity))
  {
  }

  /** One more result goes to the end of the details or of the errors. */
  lemma ClassifyStep(rs: seq<RequestResult<LookupEntity>>, r: RequestResult<LookupEntity>)
    ensures Classify(r).Ok? ==>
              Seqs.Split(Seqs.Map(Classify, rs + [r])) ==
              (Seqs.Split(Seqs.Map(Classify, rs)).0 + [Classify(r).value], Seqs.Split(Seqs.Map(Classify, rs)).1)
    ensures Classify(r).Err? ==>
              Seqs.Split(Seqs.Map(Classify, rs + [r])) ==
              (Seqs.Split(Seqs.Map(Classify, rs)).0, Seqs.Split(Seqs.Map(Classify, rs)).1 + [Classify(r).error])
  {
    Seqs.MapSnoc(Classify, rs, r);
    Seqs.SplitSnoc(Seqs.Map(Classify, rs), Classify(r));
  }

  /** The loop of `GetDetails` (lines 64-77) over the closed result channel. */
  method CollectDetails(out: Channel<RequestResult<LookupEntity>>)
    returns (details: seq<ShowDetails>, errs: seq<Error>, ghost taken: seq<RequestResult<LookupEntity>>)
    requires out.Valid() && out.closed
    modifies out
    ensures taken == old(out.buffer)
    ensures (details, errs) == Seqs.Split(Seqs.Map(Classify, taken))
  {
    details := [];
    errs := [];
    ghost var all := out.buffer;
    taken := [];
    while true
      invariant out.Valid() && out.closed
      invariant taken + out.buffer == all
      invariant (details, errs) == Seqs.Split(Seqs.Map(Classify, taken))
      decreases |out.buffer|
    {
      var en := out.Receive();
      if en.None? {
        break;
      }
      var r := en.value;
      ClassifyStep(taken, r);
      assert taken + [r] + out.buffer == all;
      taken := taken + [r];
      if r.error.Some? {
        errs := errs + [r.error.value];
        continue;
      }
      var det := GetLookupDetails(r.entity);
      if det.Err? {
        errs := errs + [det.error];
        continue;
      }
      details := details + [det.value];
    }
  }

  /**
   * `GetDetails` (with the entity passed on, see `ClassifyAsWritten`): the
   * limiter's results, in URL order, each put into exactly one of the two
   * lists.
   */
  method GetDetails(opt: LimitedRequestOptions, net: string -> Response, unmarshal: LookupUnmarshal)
    returns (details: seq<ShowDetails>, errs: seq<Error>)
    requires |opt.lookupURL| == 0 || opt.duration > 0
    ensures (details, errs) == Seqs.Split(Seqs.Map(Classify, FetchAll(opt.lookupURL, net, LookupDecoder(unmarshal))))
    ensures |details| + |errs| == |opt.lookupURL|
  {
    var out := RequestEntitiesWithLimiter(opt, net, LookupDecoder(unmarshal));
    ghost var taken;
    details, errs, taken := CollectDetails(out);
  }

  /** Every detail comes from a successful lookup, every error from a failed one, and nothing else is returned. */
  lemma GetDetailsMembers(results: seq<RequestResult<LookupEntity>>, d: ShowDetails, e: Error)
    ensures d in Seqs.Split(Seqs.Map(Classify, results)).0 <==> exists i :: 0 <= i < |results| && Classify(results[i]) == Ok(d)
    ensures e in Seqs.Split(Seqs.Map(Classify, results)).1 <==> exists i :: 0 <= i < |results| && Classify(results[i]) == Err(e)
  {
    var cs := Seqs.Map(Classify, results);
    Seqs.SplitMembers(cs);
    if Ok(d) in cs {
      var i :| 0 <= i < |cs| && cs[i] == Ok(d);
      assert Classify(results[i]) == Ok(d);
    }
    if Err(e) in cs {
      var i :| 0 <= i < |cs| && cs[i] == Err(e);
      assert Classify(results[i]) == Err(e);
    }
  }

  /**
   * The loop body of `GetDetails` as written: it passes the whole result
   * `en`, a `*RequestResult`, where `getLookupDetails` expects the entity;
   * a `*RequestResult` is never a `lookupResponse`.
   */
  function ClassifyAsWritten(r: RequestResult<LookupEntity>): (c: Result<ShowDetails, Error>)
    ensures r.error.Some? ==> c == Err(r.error.value)
    ensures r.error.None? ==> c == Err(Message("Invalid entity detected"))
  {
    if r.error.Some? then Err(r.error.value) else GetLookupDetails(Some(OtherValue))
  }

  /** As written, no lookup ever yields details: every error-free result becomes "Invalid entity detected". */
  lemma {:induction false} AsWrittenYieldsNoDetails(results: seq<RequestResult<LookupEntity>>)
    ensures Seqs.Split(Seqs.Map(ClassifyAsWritten, results)).0 == []
    ensures |Seqs.Split(Seqs.Map(ClassifyAsWritten, results)).1| == |results|
  {
    if results != [] {
      var init := results[..|results| - 1];
      var last := results[|results| - 1];
      AsWrittenYieldsNoDetails(init);
      assert results == init + [last];
      Seqs.MapConcat(ClassifyAsWritten, init, [last]);
      Seqs.SplitSnoc(Seqs.Map(ClassifyAsWritten, init), ClassifyAsWritten(last));
    }
  }

  /**
   * A lookup answered 200 with one result: as written it is rejected as an
   * invalid entity, as intended it gives that show's details; an answer with
   * no results is "Show is not found" only as intended.
   */
  lemma AsWrittenRejectsDecodedLookup(url: string, net: string -> Response, unmarshal: LookupUnmarshal)
    requires net(url).Response? && net(url).statusCode == 200 && net(url).body.Body?
    requires unmarshal(net(url).body.bytes).Ok?
    ensures var r := GetEntitiesFromRequest(url, net(url), LookupDecoder(unmarshal));
      && ClassifyAsWritten(r) == Err(Message("Invalid entity detected"))
      && (unmarshal(net(url).body.bytes).value.results != [] ==> Classify(r).Ok?)
      && (unmarshal(net(url).body.bytes).value.results == [] ==> Classify(r) == Err(Message("Show is not found")))
  {
  }
}
