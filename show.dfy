/**
 * app/show/show.go: the shows listed on a genre page, each completed from the
 * iTunes lookup API and, when it has one, its RSS feed.
 */
module Shows {
  import opened Wrappers
  import opened Errors
  import opened Text
  import opened Channels
  import opened Crawler
  import opened Requester
  import opened Genres
  import Seqs

  datatype ShowImage = ShowImage(small: string, medium: string, big: string)
  datatype Podcast = Podcast(title: string, description: string)
  datatype Show = Show(
    id: int, name: string, artist: string, rss: string, genres: seq<string>,
    image: ShowImage, description: string, lastPodcast: Podcast, language: string)

  /** The page to scrape for show links, and the lookup API prefix an ID is appended to. */
  datatype ShowRequestOptions = ShowRequestOptions(request: PageRequest, showDetailsURL: string)

  /** One entry of the lookup API's `results`. */
  datatype ApiResult = ApiResult(
    collectionId: int, artistId: int, artistName: string, collectionName: string,
    genreIds: seq<string>, artworkURL30: string, artworkURL60: string, artworkURL100: string,
    feedURL: string)
  datatype ApiResponse = ApiResponse(results: seq<ApiResult>)

  datatype RSSItem = RSSItem(title: string, description: string)
  datatype RSSChannel = RSSChannel(description: string, item: RSSItem)
  datatype RSS = RSS(channel: RSSChannel)

  /** `&RSS{}`: what a show gets when it has no feed or the feed cannot be read. */
  const EmptyRSS := RSS(RSSChannel("", RSSItem("", "")))

  /** The two library decoders, `json.Unmarshal` into an `apiResponse` and `xml.Unmarshal` into an `RSS`. */
  type ApiUnmarshal = seq<byte> -> Result<ApiResponse, Error>
  type RSSUnmarshal = seq<byte> -> Result<RSS, Error>

  function ShowsRequestOptions(genre: Genre): (o: ShowRequestOptions)
    ensures o.request.lookupURL == genre.url
    ensures o.request.pattern == "div[id=selectedcontent] .column a[href]"
    ensures o.showDetailsURL == "https://itunes.apple.com/lookup?id="
  {
    ShowRequestOptions(
      PageRequest(genre.url, "div[id=selectedcontent] .column a[href]"),
      "https://itunes.apple.com/lookup?id=")
  }

  /** `fmt.Sprintf("%s%d", options.ShowDetailsURL, id)` */
  function ShowAPIURL(options: ShowRequestOptions, id: int): string
  {
    options.showDetailsURL + FormatDecimal(id)
  }

  /** The ID can be read back from the lookup URL, so distinct IDs give distinct URLs. */
  lemma ShowAPIURLCarriesID(options: ShowRequestOptions, id: int)
    ensures options.showDetailsURL <= ShowAPIURL(options, id)
    ensures ParseDecimal(ShowAPIURL(options, id)[|options.showDetailsURL|..]) == Ok(id)
  {
    assert ShowAPIURL(options, id)[|options.showDetailsURL|..] == FormatDecimal(id);
    FormatThenParse(id);
  }

  lemma ShowAPIURLInjective(options: ShowRequestOptions, m: int, n: int)
    requires ShowAPIURL(options, m) == ShowAPIURL(options, n)
    ensures m == n
  {
    ShowAPIURLCarriesID(options, m);
    ShowAPIURLCarriesID(options, n);
  }

  /**
   * `getShowFromAPI`: a transport or read failure is returned as it is;
   * otherwise the body is decoded whatever the status code.
   */
  function GetShowFromAPI(id: int, options: ShowRequestOptions, net: string -> Response, unmarshal: ApiUnmarshal)
    : (r: Result<ApiResponse, Error>)
    ensures var resp := net(ShowAPIURL(options, id));
      && (resp.TransportFailure? ==> r == Err(resp.err))
      && (resp.Response? && resp.body.ReadFailure? ==> r == Err(resp.body.err))
      && (resp.Response? && resp.body.Body? ==> r == unmarshal(resp.body.bytes))
  {
    match net(ShowAPIURL(options, id))
    case TransportFailure(e) => Err(e)
    case Response(_, ReadFailure(e)) => Err(e)
    case Response(_, Body(bytes)) => unmarshal(bytes)
  }

  /** Unlike the requester, the API fetch never looks at the status code. */
  lemma APIIgnoresStatus(id: int, options: ShowRequestOptions, net: string -> Response, net': string -> Response,
                         unmarshal: ApiUnmarshal)
    requires net(ShowAPIURL(options, id)).Response? && net'(ShowAPIURL(options, id)).Response?
    requires net(ShowAPIURL(options, id)).body == net'(ShowAPIURL(options, id)).body
    ensures GetShowFromAPI(id, options, net, unmarshal) == GetShowFromAPI(id, options, net', unmarshal)
  {
  }

  /** `getShowFromRSS`: the same three steps for the feed URL. */
  function GetShowFromRSS(url: string, net: string -> Response, unmarshal: RSSUnmarshal): (r: Result<RSS, Error>)
    ensures net(url).TransportFailure? ==> r == Err(net(url).err)
    ensures net(url).Response? && net(url).body.ReadFailure? ==> r == Err(net(url).body.err)
    ensures net(url).Response? && net(url).body.Body? ==> r == unmarshal(net(url).body.bytes)
  {
    match net(url)
    case TransportFailure(e) => Err(e)
    case Response(_, ReadFailure(e)) => Err(e)
    case Response(_, Body(bytes)) => unmarshal(bytes)
  }

  /** `newShow`: the first API result and the feed's channel texts; the language is always left empty. */
  function NewShow(api: ApiResponse, rss: RSS): (s: Show)
    requires |api.results| > 0
    ensures var a := api.results[0];
      && s.id == a.collectionId && s.name == a.collectionName && s.artist == a.artistName
      && s.rss == a.feedURL && s.genres == a.genreIds
      && s.image == ShowImage(a.artworkURL30, a.artworkURL60, a.artworkURL100)
    ensures s.description == rss.channel.description
    ensures s.lastPodcast == Podcast(rss.channel.item.title, rss.channel.item.description)
    ensures s.language == ""
  {
    var a := api.results[0];
    Show(a.collectionId, a.collectionName, a.artistName, a.feedURL, a.genreIds,
         ShowImage(a.artworkURL30, a.artworkURL60, a.artworkURL100),
         rss.channel.description, Podcast(rss.channel.item.title, rss.channel.item.description), "")
  }

  /** Results after the first one, and the artist ID, play no part. */
  lemma NewShowUsesFirstResultOnly(a: ApiResult, b: ApiResult, rest: seq<ApiResult>, rss: RSS)
    requires a.collectionId == b.collectionId && a.collectionName == b.collectionName
    requires a.artistName == b.artistName && a.feedURL == b.feedURL && a.genreIds == b.genreIds
    requires a.artworkURL30 == b.artworkURL30 && a.artworkURL60 == b.artworkURL60 && a.artworkURL100 == b.artworkURL100
    ensures NewShow(ApiResponse([a] + rest), rss) == NewShow(ApiResponse([b]), rss)
  {
  }

  /**
   * `getShowDetails` indexes `Results[0]` unchecked: the lookup the API
   * answers for this show's ID must hold at least one result.
   */
  predicate ResultsPresent(showURL: string, options: ShowRequestOptions, net: string -> Response, api: ApiUnmarshal)
  {
    var id := GetEntityIDFromURL(showURL);
    id.Ok? ==> AnswerHasResult(id.value, options, net, api)
  }

  /** A successful lookup of `id` holds at least one result. */
  predicate AnswerHasResult(id: int, options: ShowRequestOptions, net: string -> Response, api: ApiUnmarshal)
  {
    var details := GetShowFromAPI(id, options, net, api);
    details.Ok? ==> |details.value.results| > 0
  }

  /** Every scraped link's lookup, when it succeeds, holds at least one result. */
  predicate LinksAnswered(entities: map<string, string>, options: ShowRequestOptions, net: string -> Response, api: ApiUnmarshal)
  {
    forall name :: name in entities ==> ResultsPresent(entities[name], options, net, api)
  }

  /** The feed of the API answer, or `&RSS{}` when there is none or it cannot be read. */
  function FeedOf(details: ApiResponse, net: string -> Response, rss: RSSUnmarshal): (r: RSS)
    requires |details.results| > 0
    ensures details.results[0].feedURL == "" ==> r == EmptyRSS
    ensures details.results[0].feedURL != "" ==>
      r == match GetShowFromRSS(details.results[0].feedURL, net, rss) case Ok(f) => f case Err(_) => EmptyRSS
  {
    var feed := details.results[0].feedURL;
    if feed == "" then EmptyRSS
    else match GetShowFromRSS(feed, net, rss)
      case Ok(f) => f
      case Err(_) => EmptyRSS
  }

  /**
   * `getShowDetails`: the ID from the show URL, the API answer for it, and
   * the feed when the answer names one; an ID or API error is returned as it is.
   */
  function GetShowDetails(showURL: string, options: ShowRequestOptions, net: string -> Response,
                          api: ApiUnmarshal, rss: RSSUnmarshal): (r: Result<Show, Error>)
    requires ResultsPresent(showURL, options, net, api)
    ensures GetEntityIDFromURL(showURL).Err? ==> r == Err(GetEntityIDFromURL(showURL).error)
    ensures GetEntityIDFromURL(showURL).Ok? ==>
      var details := GetShowFromAPI(GetEntityIDFromURL(showURL).value, options, net, api);
      && (details.Err? ==> r == Err(details.error))
      && (details.Ok? ==> r == Ok(NewShow(details.value, FeedOf(details.value, net, rss))))
  {
    match GetEntityIDFromURL(showURL)
    case Err(e) => Err(e)
    case Ok(id) =>
      match GetShowFromAPI(id, options, net, api)
      case Err(e) => Err(e)
      case Ok(details) => Ok(NewShow(details, FeedOf(details, net, rss)))
  }

  /** A failed feed leaves a show without description and last podcast; the show is still built. */
  lemma RSSFailureIgnored(showURL: string, options: ShowRequestOptions, net: string -> Response,
                          api: ApiUnmarshal, rss: RSSUnmarshal)
    requires ResultsPresent(showURL, options, net, api)
    requires GetEntityIDFromURL(showURL).Ok?
    requires GetShowFromAPI(GetEntityIDFromURL(showURL).value, options, net, api).Ok?
    requires var details := GetShowFromAPI(GetEntityIDFromURL(showURL).value, options, net, api).value;
      details.results[0].feedURL == "" || GetShowFromRSS(details.results[0].feedURL, net, rss).Err?
    ensures GetShowDetails(showURL, options, net, api, rss).Ok?
    ensures GetShowDetails(showURL, options, net, api, rss).value.description == ""
    ensures GetShowDetails(showURL, options, net, api, rss).value.lastPodcast == Podcast("", "")
  {
  }

  /** Without a feed URL only the API is asked: the rest of the network does not matter. */
  lemma NoFeedNoRSSRequest(showURL: string, options: ShowRequestOptions, net: string -> Response,
                           net': string -> Response, api: ApiUnmarshal, rss: RSSUnmarshal)
    requires ResultsPresent(showURL, options, net, api)
    requires GetEntityIDFromURL(showURL).Ok?
    requires var url := ShowAPIURL(options, GetEntityIDFromURL(showURL).value); net(url) == net'(url)
    requires var details := GetShowFromAPI(GetEntityIDFromURL(showURL).value, options, net, api);
      details.Ok? ==> details.value.results[0].feedURL == ""
    ensures ResultsPresent(showURL, options, net', api)
    ensures GetShowDetails(showURL, options, net, api, rss) == GetShowDetails(showURL, options, net', api, rss)
  {
  }

  /** The outcome for each visited name, in visiting order. */
  function DetailsAlong(labels: seq<string>, entities: map<string, string>, options: ShowRequestOptions,
                        net: string -> Response, api: ApiUnmarshal, rss: RSSUnmarshal): (r: seq<Result<Show, Error>>)
    requires forall i :: 0 <= i < |labels| ==> labels[i] in entities
    requires forall i :: 0 <= i < |labels| ==> ResultsPresent(entities[labels[i]], options, net, api)
    ensures |r| == |labels|
    ensures forall i :: 0 <= i < |labels| ==> r[i] == GetShowDetails(entities[labels[i]], options, net, api, rss)
  {
    seq(|labels|, i requires 0 <= i < |labels| => GetShowDetails(entities[labels[i]], options, net, api, rss))
  }

  lemma DetailsAlongSnoc(names: seq<string>, name: string, entities: map<string, string>, options: ShowRequestOptions,
                         net: string -> Response, api: ApiUnmarshal, rss: RSSUnmarshal)
    requires forall i :: 0 <= i < |names| ==> names[i] in entities
    requires name in entities
    requires forall i :: 0 <= i < |names| ==> ResultsPresent(entities[names[i]], options, net, api)
    requires ResultsPresent(entities[name], options, net, api)
    ensures forall i :: 0 <= i < |names + [name]| ==> (names + [name])[i] in entities
    ensures forall i :: 0 <= i < |names + [name]| ==> ResultsPresent(entities[(names + [name])[i]], options, net, api)
    ensures DetailsAlong(names + [name], entities, options, net, api, rss)
            == DetailsAlong(names, entities, options, net, api, rss) + [GetShowDetails(entities[name], options, net, api, rss)]
  {
    var l := names + [name];
    forall i | 0 <= i < |l|
      ensures l[i] in entities && ResultsPresent(entities[l[i]], options, net, api)
    {
      if i < |names| {
        assert l[i] == names[i];
      }
    }
    var a := DetailsAlong(l, entities, options, net, api, rss);
    var b := DetailsAlong(names, entities, options, net, api, rss);
    var last := GetShowDetails(entities[name], options, net, api, rss);
    forall i | 0 <= i < |a|
      ensures a[i] == (b + [last])[i]
    {
      if i < |names| {
        assert l[i] == names[i];
      } else {
        assert l[i] == name;
      }
    }
    assert a == b + [last];
  }

  /**
   * The goroutine of `getShowsFromEntities` for one link: the show goes to
   * `resCh`, or the error to `errCh`; `done` is what the goroutines finished
   * so far produced, and this one's outcome is appended to it.
   */
  method ShowWorker(showURL: string, options: ShowRequestOptions, net: string -> Response,
                    api: ApiUnmarshal, rss: RSSUnmarshal, resCh: Channel<Show>, errCh: Channel<Error>,
                    ghost done: seq<Result<Show, Error>>)
    requires ResultsPresent(showURL, options, net, api)
    requires resCh.Valid() && !resCh.closed && |resCh.buffer| < resCh.capacity
    requires errCh.Valid() && !errCh.closed && |errCh.buffer| < errCh.capacity
    requires (resCh.buffer, errCh.buffer) == Seqs.Split(done)
    modifies resCh, errCh
    ensures resCh.Valid() && !resCh.closed && errCh.Valid() && !errCh.closed
    ensures (resCh.buffer, errCh.buffer) == Seqs.Split(done + [GetShowDetails(showURL, options, net, api, rss)])
  {
    var outcome := GetShowDetails(showURL, options, net, api, rss);
    Seqs.SplitSnoc(done, outcome);
    if outcome.Err? {
      errCh.Send(outcome.error);
    } else {
      resCh.Send(outcome.value);
    }
  }

  /**
   * `getShowsFromEntities`: one goroutine per scraped link, each sending the
   * show or the error to its channel. Completion order is arbitrary; `visited`
   * is the order in which this run completed them, each name exactly once.
   */
  method GetShowsFromEntities(entities: map<string, string>, options: ShowRequestOptions,
                              net: string -> Response, api: ApiUnmarshal, rss: RSSUnmarshal)
    returns (resCh: Channel<Show>, errCh: Channel<Error>, ghost visited: seq<string>)
    requires LinksAnswered(entities, options, net, api)
    ensures fresh(resCh) && fresh(errCh) && resCh.Valid() && errCh.Valid() && resCh.closed && errCh.closed
    ensures |visited| == |entities|
    ensures forall i :: 0 <= i < |visited| ==> visited[i] in entities
    ensures forall i, j :: 0 <= i < j < |visited| ==> visited[i] != visited[j]
    ensures forall i :: 0 <= i < |visited| ==> ResultsPresent(entities[visited[i]], options, net, api)
    ensures (resCh.buffer, errCh.buffer) == Seqs.Split(DetailsAlong(visited, entities, options, net, api, rss))
  {
    errCh := new Channel(|entities|);
    resCh := new Channel(|entities|);
    visited := [];
    var remaining := entities.Keys;
    Seqs.TraversalStart(entities.Keys);
    while remaining != {}
      invariant resCh.Valid() && errCh.Valid() && !resCh.closed && !errCh.closed
      invariant resCh.capacity == |entities| && errCh.capacity == |entities|
      invariant Seqs.Traversal(visited, remaining, entities.Keys)
      invariant (resCh.buffer, errCh.buffer) == Seqs.Split(DetailsAlong(visited, entities, options, net, api, rss))
      decreases remaining
    {
      var name :| name in remaining;
      assert |visited| < |entities|;
      DetailsAlongSnoc(visited, name, entities, options, net, api, rss);
      ShowWorker(entities[name], options, net, api, rss, resCh, errCh,
                 DetailsAlong(visited, entities, options, net, api, rss));
      Seqs.TraversalStep(visited, remaining, entities.Keys, name);
      visited := visited + [name];
      remaining := remaining - {name};
    }
    Seqs.TraversalEnd(visited, entities.Keys);
    errCh.Close();
    resCh.Close();
  }

  /**
   * `GetShows`: a failed scrape gives no shows and exactly that error;
   * otherwise every scraped link gives exactly one show or one error.
   */
  method GetShows(options: ShowRequestOptions, scraped: Result<map<string, string>, Error>,
                  net: string -> Response, api: ApiUnmarshal, rss: RSSUnmarshal)
    returns (shows: seq<Show>, errors: seq<Error>, ghost visited: seq<string>)
    requires scraped.Ok? ==> LinksAnswered(scraped.value, options, net, api)
    ensures scraped.Err? ==> shows == [] && errors == [scraped.error]
    ensures scraped.Ok? ==>
      && |visited| == |scraped.value|
      && (forall i :: 0 <= i < |visited| ==> visited[i] in scraped.value)
      && (forall i, j :: 0 <= i < j < |visited| ==> visited[i] != visited[j])
      && (forall i :: 0 <= i < |visited| ==> ResultsPresent(scraped.value[visited[i]], options, net, api))
      && (shows, errors) == Seqs.Split(DetailsAlong(visited, scraped.value, options, net, api, rss))
    ensures scraped.Ok? ==> |shows| + |errors| == |scraped.value|
  {
    if scraped.Err? {
      return [], [scraped.error], [];
    }
    var resCh, errCh;
    resCh, errCh, visited := GetShowsFromEntities(scraped.value, options, net, api, rss);
    shows := Drain(resCh);
    errors := Drain(errCh);
  }

  /** Every show returned was built from one of the visited links, and every built show is returned. */
  lemma ShowsFromLinks(labels: seq<string>, entities: map<string, string>, options: ShowRequestOptions,
                       net: string -> Response, api: ApiUnmarshal, rss: RSSUnmarshal, s: Show)
    requires forall i :: 0 <= i < |labels| ==> labels[i] in entities
    requires forall i :: 0 <= i < |labels| ==> ResultsPresent(entities[labels[i]], options, net, api)
    ensures s in Seqs.Split(DetailsAlong(labels, entities, options, net, api, rss)).0 <==>
            exists i :: 0 <= i < |labels| && GetShowDetails(entities[labels[i]], options, net, api, rss) == Ok(s)
  {
    var along := DetailsAlong(labels, entities, options, net, api, rss);
    Seqs.SplitMembers(along);
    if Ok(s) in along {
      var i :| 0 <= i < |along| && along[i] == Ok(s);
      assert GetShowDetails(entities[labels[i]], options, net, api, rss) == Ok(s);
    }
  }
}
