/**
 * app/crawler/requester.go: fetching one URL into a `RequestResult`, and the
 * two dispatchers that fetch a list of URLs, either all at once (one goroutine
 * per URL, results in completion order) or through a single rate-limited
 * worker (results in input order).
 */
module Requester {
  import opened Wrappers
  import opened Errors
  import opened Channels
  import Seqs

  type byte = b: int | 0 <= b < 256

  /** What `http.Get` and `ioutil.ReadAll` produce for one URL. */
  datatype Body = Body(bytes: seq<byte>) | ReadFailure(err: Error)
  datatype Response =
    | TransportFailure(err: Error)
    | Response(statusCode: int, body: Body)

  /** The outcome for one URL: the decoded entity (nil when absent) and an error (nil when absent). */
  datatype RequestResult<E> = RequestResult(url: string, entity: Option<E>, error: Option<Error>)

  datatype RequestOptions = RequestOptions(lookupURL: seq<string>)

  /** `duration` is in nanoseconds, as Go's `time.Duration`. */
  datatype LimitedRequestOptions = LimitedRequestOptions(lookupURL: seq<string>, duration: int)

  /** A `RequestDecoder`: the URL and the body in, an entity and an error out (both may be present). */
  type Decoder<E> = (string, seq<byte>) -> (Option<E>, Option<Error>)

  function UnreachableURL(url: string): Error
  {
    Message("Unreachable URL: " + url)
  }

  /**
   * `getEntitiesFromRequest`, with the network's answer for `url` given as
   * `response`: a transport or read failure is returned as it is, a status
   * other than 200 is "Unreachable URL: <url>", and only a readable 200
   * response reaches the decoder, whose two outputs are returned unchanged.
   */
  function GetEntitiesFromRequest<E>(url: string, response: Response, decoder: Decoder<E>): (r: RequestResult<E>)
    ensures r.url == url
    ensures response.TransportFailure? ==> r.entity.None? && r.error == Some(response.err)
    ensures response.Response? && response.statusCode != 200 ==>
              r.entity.None? && r.error == Some(UnreachableURL(url))
    ensures response.Response? && response.statusCode == 200 && response.body.ReadFailure? ==>
              r.entity.None? && r.error == Some(response.body.err)
    ensures response.Response? && response.statusCode == 200 && response.body.Body? ==>
              (r.entity, r.error) == decoder(url, response.body.bytes)
  {
    match response
    case TransportFailure(err) => RequestResult(url, None, Some(err))
    case Response(status, body) =>
      if status != 200 then RequestResult(url, None, Some(UnreachableURL(url)))
      else match body
        case ReadFailure(err) => RequestResult(url, None, Some(err))
        case Body(bytes) =>
          var (entity, err) := decoder(url, bytes);
          RequestResult(url, entity, err)
  }

  /** A result carries no error only when the URL answered 200 with a readable body the decoder accepted. */
  lemma NoErrorOnlyFromDecodedBody<E>(url: string, response: Response, decoder: Decoder<E>)
    requires GetEntitiesFromRequest(url, response, decoder).error.None?
    ensures response.Response? && response.statusCode == 200 && response.body.Body?
    ensures decoder(url, response.body.bytes).1.None?
  {
  }

  /** Unless the URL answered 200 with a readable body, the decoder plays no part in the result. */
  lemma DecoderOnlyOnReadable200<E>(url: string, response: Response, d1: Decoder<E>, d2: Decoder<E>)
    requires !(response.Response? && response.statusCode == 200 && response.body.Body?)
    ensures GetEntitiesFromRequest(url, response, d1) == GetEntitiesFromRequest(url, response, d2)
  {
  }

  /** The results a sequential run over `urls` would give, in input order. */
  function FetchAll<E>(urls: seq<string>, net: string -> Response, decoder: Decoder<E>): (rs: seq<RequestResult<E>>)
    ensures |rs| == |urls|
    ensures forall i :: 0 <= i < |urls| ==> rs[i] == GetEntitiesFromRequest(urls[i], net(urls[i]), decoder)
  {
    seq(|urls|, i requires 0 <= i < |urls| => GetEntitiesFromRequest(urls[i], net(urls[i]), decoder))
  }

  lemma FetchAllConcat<E>(u: seq<string>, v: seq<string>, net: string -> Response, decoder: Decoder<E>)
    ensures FetchAll(u + v, net, decoder) == FetchAll(u, net, decoder) + FetchAll(v, net, decoder)
  {
  }

  function URLs<E>(rs: seq<RequestResult<E>>): (us: seq<string>)
    ensures |us| == |rs| && forall i :: 0 <= i < |rs| ==> us[i] == rs[i].url
  {
    seq(|rs|, i requires 0 <= i < |rs| => rs[i].url)
  }

  /** Each result names the URL it was requested for. */
  lemma URLsOfFetchAll<E>(urls: seq<string>, net: string -> Response, decoder: Decoder<E>)
    ensures URLs(FetchAll(urls, net, decoder)) == urls
  {
  }

  /** Fetching one URL, as a function value. */
  function Fetcher<E>(net: string -> Response, decoder: Decoder<E>): string -> RequestResult<E>
  {
    url => GetEntitiesFromRequest(url, net(url), decoder)
  }

  /** Fetching the URLs in another order gives the same results in that order. */
  lemma FetchAllPermutation<E>(u: seq<string>, v: seq<string>, net: string -> Response, decoder: Decoder<E>)
    requires multiset(u) == multiset(v)
    ensures multiset(FetchAll(u, net, decoder)) == multiset(FetchAll(v, net, decoder))
  {
    assert FetchAll(u, net, decoder) == Seqs.Map(Fetcher(net, decoder), u);
    assert FetchAll(v, net, decoder) == Seqs.Map(Fetcher(net, decoder), v);
    Seqs.MapPermutation(Fetcher(net, decoder), u, v);
  }

  /**
   * `RequestEntities`: one goroutine per URL, each sending its result to a
   * channel with room for all of them; the channel is closed once every
   * goroutine is done. The goroutine that finishes next is chosen arbitrarily,
   * so the results are those of `FetchAll` in some order.
   */
  method RequestEntities<E>(opt: RequestOptions, net: string -> Response, decoder: Decoder<E>)
    returns (results: Channel<RequestResult<E>>)
    ensures fresh(results) && results.Valid() && results.closed
    ensures multiset(results.buffer) == multiset(FetchAll(opt.lookupURL, net, decoder))
    ensures multiset(URLs(results.buffer)) == multiset(opt.lookupURL)
  {
    var numb := |opt.lookupURL|;
    results := new Channel<RequestResult<E>>(numb);
    var running := opt.lookupURL;
    ghost var sent: seq<string> := [];
    while running != []
      invariant results.Valid() && !results.closed && results.capacity == numb
      invariant |sent| + |running| == numb
      invariant results.buffer == FetchAll(sent, net, decoder)
      invariant multiset(sent) + multiset(running) == multiset(opt.lookupURL)
      decreases |running|
    {
      var k :| 0 <= k < |running|;
      var url := running[k];
      results.Send(GetEntitiesFromRequest(url, net(url), decoder));
      FetchAllConcat(sent, [url], net, decoder);
      Seqs.RemoveAt(running, k);
      sent := sent + [url];
      running := running[..k] + running[k + 1..];
    }
    results.Close();
    FetchAllPermutation(sent, opt.lookupURL, net, decoder);
    URLsOfFetchAll(sent, net, decoder);
  }

  /**
   * `RequestEntitiesWithLimiter`: every URL is queued on `in`, which is then
   * closed; one worker takes the URLs from `in` in order, waits for the next
   * tick and sends each result to `out`, closing `out` after the last one.
   * `time.Tick` of a non-positive duration gives a nil channel, on which the
   * worker would wait forever at its first URL, so the duration must be
   * positive unless there are no URLs (the worker then closes `out` at once).
   */
  method RequestEntitiesWithLimiter<E>(opt: LimitedRequestOptions, net: string -> Response, decoder: Decoder<E>)
    returns (out: Channel<RequestResult<E>>)
    requires |opt.lookupURL| == 0 || opt.duration > 0
    ensures fresh(out) && out.Valid() && out.closed
    ensures out.buffer == FetchAll(opt.lookupURL, net, decoder)
  {
    var urls := |opt.lookupURL|;
    var inCh := new Channel<string>(urls);
    out := new Channel<RequestResult<E>>(urls);
    for k := 0 to urls
      invariant inCh.Valid() && !inCh.closed && inCh.capacity == urls
      invariant out.Valid() && !out.closed && out.capacity == urls && out.buffer == []
      invariant inCh.buffer == opt.lookupURL[..k]
    {
      inCh.Send(opt.lookupURL[k]);
      assert opt.lookupURL[..k + 1] == opt.lookupURL[..k] + [opt.lookupURL[k]];
    }
    assert opt.lookupURL[..urls] == opt.lookupURL;
    inCh.Close();

    LimitedWorker(inCh, out, net, decoder);
  }

  /**
   * The worker goroutine of `RequestEntitiesWithLimiter`: for each URL taken
   * from the closed `in`, in order, one result is sent to `out`; `out` is
   * closed after the last one.
   */
  method LimitedWorker<E>(inCh: Channel<string>, out: Channel<RequestResult<E>>,
                          net: string -> Response, decoder: Decoder<E>)
    requires inCh.Valid() && inCh.closed
    requires out.Valid() && !out.closed && |out.buffer| + |inCh.buffer| <= out.capacity
    modifies inCh, out
    ensures inCh.Valid() && inCh.buffer == []
    ensures out.Valid() && out.closed
    ensures out.buffer == old(out.buffer) + FetchAll(old(inCh.buffer), net, decoder)
  {
    ghost var queued := inCh.buffer;
    ghost var sentBefore := out.buffer;
    ghost var taken: seq<string> := [];
    while true
      invariant inCh.Valid() && inCh.closed
      invariant out.Valid() && !out.closed && |out.buffer| + |inCh.buffer| <= out.capacity
      invariant taken + inCh.buffer == queued
      invariant out.buffer == sentBefore + FetchAll(taken, net, decoder)
      decreases |inCh.buffer|
    {
      var next := inCh.Receive();
      if next.None? {
        break;
      }
      var url := next.value;
      out.Send(GetEntitiesFromRequest(url, net(url), decoder));
      FetchAllConcat(taken, [url], net, decoder);
      taken := taken + [url];
    }
    out.Close();
  }

  /** The rate-limited dispatcher gives the same results as the unlimited one, in input order. */
  lemma LimiterIsOrderedDispatch<E>(
    unlimited: seq<RequestResult<E>>, limited: seq<RequestResult<E>>,
    urls: seq<string>, net: string -> Response, decoder: Decoder<E>)
    requires multiset(unlimited) == multiset(FetchAll(urls, net, decoder))
    requires limited == FetchAll(urls, net, decoder)
    ensures multiset(limited) == multiset(unlimited)
    ensures URLs(limited) == urls
  {
    URLsOfFetchAll(urls, net, decoder);
  }
}
