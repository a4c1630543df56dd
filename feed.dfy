/**
 * app/show/feed.go: the RSS feeds of the shows that have one, fetched all at
 * once, each turned into a feed summary of the show whose feed URL it is.
 */
module Feeds {
  import opened Wrappers
  import opened Errors
  import opened Text
  import opened Channels
  import opened Requester
  import opened ShowRecords
  import Seqs

  datatype RSSItem = RSSItem(title: string, description: string)
  datatype RSSChannel = RSSChannel(description: string, language: string, lastBuildDate: string, item: RSSItem)
  datatype RSS = RSS(channel: RSSChannel)

  /** The dynamic type of an `interface{}` entity: an `RSS` value, or anything else (such as the `*RSS` of a failed decode). */
  datatype FeedEntity = RSSValue(rss: RSS) | OtherValue

  /** `xml.Unmarshal` into an `RSS`. */
  type RSSUnmarshal = seq<byte> -> Result<RSS, Error>

  function RSSOf(d: ShowDetails): string { d.rss }
  function IDOf(d: ShowDetails): int { d.id }

  /** The shows that have a feed URL, in their order. */
  function WithFeed(shows: seq<ShowDetails>): (r: seq<ShowDetails>)
    ensures |r| <= |shows|
    ensures forall i :: 0 <= i < |r| ==> r[i].rss != ""
  {
    if shows == [] then []
    else
      var last := shows[|shows| - 1];
      WithFeed(shows[..|shows| - 1]) + (if last.rss != "" then [last] else [])
  }

  /** Filtering keeps exactly the shows with a feed ... */
  lemma {:induction false} WithFeedMembers(shows: seq<ShowDetails>, d: ShowDetails)
    ensures d in WithFeed(shows) <==> d in shows && d.rss != ""
  {
    if shows != [] {
      var init := shows[..|shows| - 1];
      WithFeedMembers(init, d);
      assert shows == init + [shows[|shows| - 1]];
    }
  }

  /** ... and their relative order: it distributes over concatenation. */
  lemma {:induction false} WithFeedConcat(s: seq<ShowDetails>, t: seq<ShowDetails>)
    ensures WithFeed(s + t) == WithFeed(s) + WithFeed(t)
  {
    if t == [] {
      assert s + t == s;
    } else {
      var t' := t[..|t| - 1];
      assert (s + t)[..|s + t| - 1] == s + t';
      WithFeedConcat(s, t');
    }
  }

  /** The feed URLs requested, one per show with a feed, in show order. */
  function FeedURLs(shows: seq<ShowDetails>): seq<string>
  {
    Seqs.Map(RSSOf, WithFeed(shows))
  }

  /** One URL per show with a feed, that show's feed URL, never empty. */
  lemma FeedURLsOfFeeds(shows: seq<ShowDetails>)
    ensures |FeedURLs(shows)| == |WithFeed(shows)|
    ensures forall i :: 0 <= i < |FeedURLs(shows)| ==> FeedURLs(shows)[i] == WithFeed(shows)[i].rss != ""
  {
  }

  /** feed URL -> show ID, built from the shows with a feed; a later show with the same URL wins. */
  function URLToID(shows: seq<ShowDetails>): map<string, int>
  {
    Seqs.LastBy(WithFeed(shows), RSSOf, IDOf)
  }

  /** `getShowsURLToID` */
  method GetShowsURLToID(shows: seq<ShowDetails>) returns (res: map<string, int>)
    ensures res == URLToID(shows)
  {
    res := map[];
    for i := 0 to |shows|
      invariant res == URLToID(shows[..i])
    {
      var details := shows[i];
      assert shows[..i + 1] == shows[..i] + [details];
      WithFeedConcat(shows[..i], [details]);
      assert [details][..0] == [];
      if details.rss != "" {
        Seqs.LastBySnoc(WithFeed(shows[..i]), details, RSSOf, IDOf);
        res := res[details.rss := details.id];
      } else {
        assert WithFeed(shows[..i + 1]) == WithFeed(shows[..i]);
      }
    }
    assert shows[..|shows|] == shows;
  }

  /** `getRequestOptions` */
  method GetRequestOptions(shows: seq<ShowDetails>) returns (opt: RequestOptions)
    ensures opt.lookupURL == FeedURLs(shows)
  {
    var urls: seq<string> := [];
    for i := 0 to |shows|
      invariant urls == FeedURLs(shows[..i])
    {
      var details := shows[i];
      assert shows[..i + 1] == shows[..i] + [details];
      WithFeedConcat(shows[..i], [details]);
      assert [details][..0] == [];
      if details.rss != "" {
        Seqs.MapSnoc(RSSOf, WithFeed(shows[..i]), details);
        urls := urls + [details.rss];
      } else {
        assert WithFeed(shows[..i + 1]) == WithFeed(shows[..i]);
      }
    }
    assert shows[..|shows|] == shows;
    opt := RequestOptions(urls);
  }

  /** Around a show with a feed, the filtered list is the filtered prefix, that show, and the filtered suffix. */
  lemma WithFeedAround(shows: seq<ShowDetails>, i: nat)
    requires i < |shows| && shows[i].rss != ""
    ensures WithFeed(shows) == WithFeed(shows[..i]) + [shows[i]] + WithFeed(shows[i + 1..])
  {
    var a, x, b := shows[..i], [shows[i]], shows[i + 1..];
    assert shows[i..] == x + b;
    assert shows == a + shows[i..];
    WithFeedConcat(a, x + b);
    WithFeedConcat(x, b);
    assert WithFeed(x) == [shows[i]] by {
      assert x[..|x| - 1] == [];
      assert WithFeed(x) == WithFeed([]) + [shows[i]];
    }
    assert WithFeed(shows) == WithFeed(a) + (WithFeed(x) + WithFeed(b));
  }

  /** Every show's non-empty feed URL maps to the ID of the last show with that URL. */
  lemma URLToIDLastWins(shows: seq<ShowDetails>, i: nat)
    requires i < |shows| && shows[i].rss != ""
    requires forall j :: i < j < |shows| ==> shows[j].rss != shows[i].rss
    ensures shows[i].rss in URLToID(shows)
    ensures URLToID(shows)[shows[i].rss] == shows[i].id
  {
    var post := shows[i + 1..];
    WithFeedAround(shows, i);
    var w, after := WithFeed(shows), WithFeed(post);
    var k := |WithFeed(shows[..i])|;
    assert w[k] == shows[i];
    forall j | k < j < |w|
      ensures w[j].rss != shows[i].rss
    {
      assert w[j] == after[j - k - 1];
      WithFeedMembers(post, w[j]);
      var m :| 0 <= m < |post| && post[m] == w[j];
      assert shows[i + 1 + m] == post[m];
    }
    Seqs.LastByValue(w, RSSOf, IDOf, k);
  }

  /** The requested URLs are exactly the keys of the URL map. */
  lemma RequestedURLsAreMapped(shows: seq<ShowDetails>)
    ensures forall u :: u in FeedURLs(shows) <==> u in URLToID(shows)
  {
    var w := WithFeed(shows);
    assert URLToID(shows).Keys == set i | 0 <= i < |w| :: RSSOf(w[i]);
    forall u | u in URLToID(shows)
      ensures u in FeedURLs(shows)
    {
      var i :| 0 <= i < |w| && RSSOf(w[i]) == u;
      assert FeedURLs(shows)[i] == u;
    }
  }

  /** `strings.Split(strings.ToLower(lang), "-")[0]` */
  function FeedLanguage(lang: string): (r: string)
    ensures '-' !in r && |r| <= |lang|
    ensures forall i :: 0 <= i < |r| ==> r[i] == LowerChar(lang[i])
    ensures |r| < |lang| ==> LowerChar(lang[|r|]) == '-'
  {
    FirstField(ToLowerAscii(lang), '-')
  }

  lemma FeedLanguageExamples()
    ensures FeedLanguage("en-US") == "en"
    ensures FeedLanguage("") == ""
    ensures FeedLanguage("EN") == "en"
  {
    var low := ToLowerAscii("en-US");
    assert low == "en-us";
    assert low[1..][1..] == "-us";
    assert FirstField(low, '-') == "en";
    var up := ToLowerAscii("EN");
    assert up == "en";
    assert up[1..][1..] == [];
    assert FirstField(up, '-') == "en";
  }

  /**
   * `getFeedData`: only an `RSS` value is accepted and its URL must map to a
   * show; the channel texts are copied and the language normalised.
   */
  function GetFeedData(entity: Option<FeedEntity>, url: string, urlToID: map<string, int>): (r: Result<Feed, Error>)
    ensures !(entity.Some? && entity.value.RSSValue?) ==> r == Err(Message("Invalid entity detected"))
    ensures entity.Some? && entity.value.RSSValue? && url !in urlToID ==> r == Err(Message("Cannot retrieve the show id"))
    ensures entity.Some? && entity.value.RSSValue? && url in urlToID ==>
      var c := entity.value.rss.channel;
      r == Ok(Feed(urlToID[url], FeedLanguage(c.language), c.description,
                   Podcast(c.item.title, c.lastBuildDate, c.item.description)))
  {
    match entity
    case Some(RSSValue(rss)) =>
      if url !in urlToID then Err(Message("Cannot retrieve the show id"))
      else
        var c := rss.channel;
        Ok(Feed(urlToID[url], FeedLanguage(c.language), c.description,
                Podcast(c.item.title, c.lastBuildDate, c.item.description)))
    case _ => Err(Message("Invalid entity detected"))
  }

  /** `rssDecoder`: the decoded feed as a value, or a pointer alongside the decoding error. */
  function RSSDecoder(unmarshal: RSSUnmarshal): (d: Decoder<FeedEntity>)
    ensures forall url, body :: unmarshal(body).Ok? ==> d(url, body) == (Some(RSSValue(unmarshal(body).value)), None)
    ensures forall url, body :: unmarshal(body).Err? ==> d(url, body) == (Some(OtherValue), Some(unmarshal(body).error))
  {
    (url: string, body: seq<byte>) =>
      match unmarshal(body)
      case Ok(r) => (Some(RSSValue(r)), None)
      case Err(e) => (Some(OtherValue), Some(e))
  }

  /** What the loop of `GetFeed` does with one result. */
  function Classify(r: RequestResult<FeedEntity>, urlToID: map<string, int>): (c: Result<Feed, Error>)
    ensures r.error.Some? ==> c == Err(r.error.value)
    ensures r.error.None? ==> c == GetFeedData(r.entity, r.url, urlToID)
  {
    if r.error.Some? then Err(r.error.value) else GetFeedData(r.entity, r.url, urlToID)
  }

  function ClassifyWith(urlToID: map<string, int>): RequestResult<FeedEntity> -> Result<Feed, Error>
  {
    r => Classify(r, urlToID)
  }

  lemma ClassifyStep(urlToID: map<string, int>, done: seq<RequestResult<FeedEntity>>, r: RequestResult<FeedEntity>)
    ensures var before := Seqs.Split(Seqs.Map(ClassifyWith(urlToID), done));
      Seqs.Split(Seqs.Map(ClassifyWith(urlToID), done + [r]))
      == match Classify(r, urlToID)
         case Ok(f) => (before.0 + [f], before.1)
         case Err(e) => (before.0, before.1 + [e])
  {
    Seqs.MapSnoc(ClassifyWith(urlToID), done, r);
    assert ClassifyWith(urlToID)(r) == Classify(r, urlToID);
    Seqs.SplitSnoc(Seqs.Map(ClassifyWith(urlToID), done), Classify(r, urlToID));
  }

  /** The loop of `GetFeed` (lines 48-59) over the closed result channel. */
  method CollectFeeds(out: Channel<RequestResult<FeedEntity>>, urlToID: map<string, int>)
    returns (feedList: seq<Feed>, errs: seq<Error>, ghost completed: seq<RequestResult<FeedEntity>>)
    requires out.Valid() && out.closed
    modifies out
    ensures completed == old(out.buffer)
    ensures (feedList, errs) == Seqs.Split(Seqs.Map(ClassifyWith(urlToID), completed))
  {
    feedList := [];
    errs := [];
    ghost var all := out.buffer;
    completed := [];
    while true
      invariant out.Valid() && out.closed
      invariant completed + out.buffer == all
      invariant (feedList, errs) == Seqs.Split(Seqs.Map(ClassifyWith(urlToID), completed))
      decreases |out.buffer|
    {
      var entity := out.Receive();
      if entity.None? {
        break;
      }
      var r := entity.value;
      ClassifyStep(urlToID, completed, r);
      assert completed + [r] + out.buffer == all;
      completed := completed + [r];
      if r.error.Some? {
        errs := errs + [r.error.value];
        continue;
      }
      var feed := GetFeedData(r.entity, r.url, urlToID);
      if feed.Err? {
        errs := errs + [feed.error];
      } else {
        feedList := feedList + [feed.value];
      }
    }
  }

  /**
   * `GetFeed`: the feeds of all shows with a feed URL, fetched at once.
   * `completed` is the order in which this run's fetches completed, a
   * permutation of the fetch results; each result lands in exactly one list.
   */
  method GetFeed(shows: seq<ShowDetails>, net: string -> Response, unmarshal: RSSUnmarshal)
    returns (feedList: seq<Feed>, errs: seq<Error>, ghost completed: seq<RequestResult<FeedEntity>>)
    ensures multiset(completed) == multiset(FetchAll(FeedURLs(shows), net, RSSDecoder(unmarshal)))
    ensures (feedList, errs) == Seqs.Split(Seqs.Map(ClassifyWith(URLToID(shows)), completed))
    ensures |feedList| + |errs| == |FeedURLs(shows)|
  {
    var urlToID := GetShowsURLToID(shows);
    var opt := GetRequestOptions(shows);
    var out := RequestEntities(opt, net, RSSDecoder(unmarshal));
    feedList, errs, completed := CollectFeeds(out, urlToID);
    assert |completed| == |multiset(completed)|;
  }

  /**
   * Within one `GetFeed` call every fetched URL maps to a show, so an
   * error-free result is either a feed or an invalid entity, never an
   * unknown show.
   */
  lemma NoUnknownShow(shows: seq<ShowDetails>, net: string -> Response, unmarshal: RSSUnmarshal,
                      completed: seq<RequestResult<FeedEntity>>, r: RequestResult<FeedEntity>)
    requires multiset(completed) == multiset(FetchAll(FeedURLs(shows), net, RSSDecoder(unmarshal)))
    requires r in completed
    ensures r.url in URLToID(shows)
    ensures r.error.None? && Classify(r, URLToID(shows)).Err? ==>
      Classify(r, URLToID(shows)).error == Message("Invalid entity detected")
  {
    var fetched := FetchAll(FeedURLs(shows), net, RSSDecoder(unmarshal));
    assert r in multiset(fetched);
    var i :| 0 <= i < |fetched| && fetched[i] == r;
    RequestedURLsAreMapped(shows);
    assert r.url == FeedURLs(shows)[i];
  }

  /** The feeds and errors do not depend on completion order beyond their arrangement. */
  lemma FeedOrderIrrelevant(urlToID: map<string, int>, c1: seq<RequestResult<FeedEntity>>, c2: seq<RequestResult<FeedEntity>>)
    requires multiset(c1) == multiset(c2)
    ensures multiset(Seqs.Split(Seqs.Map(ClassifyWith(urlToID), c1)).0) == multiset(Seqs.Split(Seqs.Map(ClassifyWith(urlToID), c2)).0)
    ensures multiset(Seqs.Split(Seqs.Map(ClassifyWith(urlToID), c1)).1) == multiset(Seqs.Split(Seqs.Map(ClassifyWith(urlToID), c2)).1)
  {
    Seqs.MapPermutation(ClassifyWith(urlToID), c1, c2);
    Seqs.SplitPermutation(Seqs.Map(ClassifyWith(urlToID), c1), Seqs.Map(ClassifyWith(urlToID), c2));
  }
}
