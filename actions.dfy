/**
 * app/actions.go, `actionDetails` (lines 45-62): which shows to fetch details
 * for, given the details already cached, and the cache saved afterwards.
 */
module Actions {
  import opened Wrappers
  import opened Errors
  import opened ShowRecords
  import opened Requester
  import Shows
  import Details
  import Seqs

  /** The IDs of the cached details. */
  function CachedIDSet(cache: seq<ShowDetails>): set<int>
  {
    set i | 0 <= i < |cache| :: cache[i].id
  }

  /** The `inCache` loop: every cached ID marked with 1. */
  method CachedIDs(cache: seq<ShowDetails>) returns (inCache: map<int, int>)
    ensures inCache.Keys == CachedIDSet(cache)
    ensures forall id :: id in inCache ==> inCache[id] == 1
  {
    inCache := map[];
    for i := 0 to |cache|
      invariant inCache.Keys == CachedIDSet(cache[..i])
      invariant forall id :: id in inCache ==> inCache[id] == 1
    {
      assert CachedIDSet(cache[..i + 1]) == CachedIDSet(cache[..i]) + {cache[i].id} by {
        assert forall j :: 0 <= j < i ==> cache[..i + 1][j] == cache[..i][j];
      }
      inCache := inCache[cache[i].id := 1];
    }
    assert cache[..|cache|] == cache;
  }

  /** The shows whose ID is not cached, in their order. */
  function Uncached(shows: seq<Shows.Show>, cached: set<int>): seq<Shows.Show>
  {
    if shows == [] then []
    else
      var last := shows[|shows| - 1];
      Uncached(shows[..|shows| - 1], cached) + (if last.id !in cached then [last] else [])
  }

  /** The first `n` elements of `s`, or all of them. */
  function Take<T>(s: seq<T>, n: nat): (r: seq<T>)
    ensures |r| <= n && r <= s
    ensures |s| <= n ==> r == s
    ensures |s| > n ==> |r| == n
  {
    if |s| <= n then s else s[..n]
  }

  /** The selection loop filling `fresh`: a show is taken when it is not cached and the batch has room. */
  method SelectFresh(shows: seq<Shows.Show>, inCache: map<int, int>, chunk: nat) returns (batch: seq<Shows.Show>)
    ensures batch == Take(Uncached(shows, inCache.Keys), chunk)
  {
    batch := [];
    for i := 0 to |shows|
      invariant batch == Take(Uncached(shows[..i], inCache.Keys), chunk)
    {
      var show := shows[i];
      assert shows[..i + 1][..i] == shows[..i];
      if show.id !in inCache && |batch| < chunk {
        batch := batch + [show];
      }
    }
    assert shows[..|shows|] == shows;
  }

  lemma {:induction false} UncachedMembers(shows: seq<Shows.Show>, cached: set<int>, s: Shows.Show)
    ensures s in Uncached(shows, cached) <==> s in shows && s.id !in cached
  {
    if shows != [] {
      var init := shows[..|shows| - 1];
      UncachedMembers(init, cached, s);
      assert shows == init + [shows[|shows| - 1]];
    }
  }

  lemma {:induction false} UncachedConcat(a: seq<Shows.Show>, b: seq<Shows.Show>, cached: set<int>)
    ensures Uncached(a + b, cached) == Uncached(a, cached) + Uncached(b, cached)
  {
    if b == [] {
      assert a + b == a;
    } else {
      var b' := b[..|b| - 1];
      assert (a + b)[..|a + b| - 1] == a + b';
      UncachedConcat(a, b', cached);
    }
  }

  /** No cached show is selected, and the batch never exceeds the chunk size. */
  lemma FreshIsUncachedAndBounded(shows: seq<Shows.Show>, cached: set<int>, chunk: nat)
    ensures |Take(Uncached(shows, cached), chunk)| <= chunk
    ensures forall s :: s in Take(Uncached(shows, cached), chunk) ==> s in shows && s.id !in cached
    ensures chunk == 0 ==> Take(Uncached(shows, cached), chunk) == []
  {
    forall s | s in Take(Uncached(shows, cached), chunk)
      ensures s in shows && s.id !in cached
    {
      UncachedMembers(shows, cached, s);
    }
  }

  /**
   * The batch is what the uncached shows of some prefix of `shows` give, in
   * order, and no uncached show is passed over while there is room: either
   * the batch is full or it holds every uncached show.
   */
  lemma FreshIsPrefixOfUncached(shows: seq<Shows.Show>, cached: set<int>, chunk: nat)
    ensures Take(Uncached(shows, cached), chunk) <= Uncached(shows, cached)
    ensures |Take(Uncached(shows, cached), chunk)| == chunk
         || Take(Uncached(shows, cached), chunk) == Uncached(shows, cached)
  {
  }

  /** Two uncached shows with the same ID are both selected: there is no de-duplication. */
  lemma DuplicatesBothSelected(s: Shows.Show, cached: set<int>)
    requires s.id !in cached
    ensures Take(Uncached([s, s], cached), 2) == [s, s]
  {
    assert [s, s][..1] == [s];
    assert [s][..0] == [];
    assert Uncached([s], cached) == [s];
    assert Uncached([s, s], cached) == [s] + [s];
  }

  /**
   * The cache to save: nothing when a fetch failed (`stopOnErrors` exits
   * first), otherwise the old cache followed by the new details.
   */
  function NextCache(cache: seq<ShowDetails>, details: seq<ShowDetails>, errs: seq<Error>): (r: Option<seq<ShowDetails>>)
    ensures r.None? <==> |errs| > 0
    ensures r.Some? ==> cache <= r.value && r.value[|cache|..] == details
  {
    if |errs| > 0 then None else Some(cache + details)
  }

  /** The merge is a plain append, not a keyed union: details already cached are stored again. */
  lemma CacheMergeKeepsDuplicates(d: ShowDetails)
    ensures NextCache([d], [d], []) == Some([d, d])
    ensures |NextCache([d], [d], []).value| == 2
  {
    assert [d] + [d] == [d, d];
  }

  /**
   * Across runs: a show whose details were saved is never selected again,
   * because its ID is now in the cache.
   */
  lemma SavedShowNotRefetched(cache: seq<ShowDetails>, details: seq<ShowDetails>, shows: seq<Shows.Show>,
                              chunk: nat, i: nat)
    requires i < |details|
    ensures NextCache(cache, details, []).Some?
    ensures var next := NextCache(cache, details, []).value;
      forall s :: s in Take(Uncached(shows, CachedIDSet(next)), chunk) ==> s.id != details[i].id
  {
    var next := NextCache(cache, details, []).value;
    assert next[|cache| + i] == details[i];
    assert details[i].id in CachedIDSet(next);
    FreshIsUncachedAndBounded(shows, CachedIDSet(next), chunk);
  }

  /** The lookup URLs of a batch, in batch order. */
  function BatchURLs(batch: seq<Shows.Show>): seq<string>
  {
    seq(|batch|, i requires 0 <= i < |batch| => Details.LookupURL(batch[i].id))
  }

  /** The lookup of one show, classified as `GetDetails` does once its entity is passed on (see `Details.Classify`). */
  function Lookup(s: Shows.Show, net: string -> Response, unmarshal: Details.LookupUnmarshal): Result<ShowDetails, Error>
  {
    var url := Details.LookupURL(s.id);
    Details.Classify(GetEntitiesFromRequest(url, net(url), Details.LookupDecoder(unmarshal)))
  }

  /** The details and errors the corrected `GetDetails` returns for a batch. */
  function Fetched(batch: seq<Shows.Show>, net: string -> Response, unmarshal: Details.LookupUnmarshal)
    : (seq<ShowDetails>, seq<Error>)
  {
    Seqs.Split(Seqs.Map(Details.Classify, FetchAll(BatchURLs(batch), net, Details.LookupDecoder(unmarshal))))
  }

  /**
   * A round saves nothing exactly when the lookup of some batch show fails;
   * otherwise it saves the old cache followed by each batch show's details,
   * in batch order.
   */
  lemma NextCacheOfBatch(cache: seq<ShowDetails>, batch: seq<Shows.Show>, net: string -> Response,
                         unmarshal: Details.LookupUnmarshal)
    ensures var fetched := Fetched(batch, net, unmarshal);
      var next := NextCache(cache, fetched.0, fetched.1);
      && (next.None? <==> exists i :: 0 <= i < |batch| && Lookup(batch[i], net, unmarshal).Err?)
      && (next.Some? ==>
            && |next.value| == |cache| + |batch|
            && next.value[..|cache|] == cache
            && forall i :: 0 <= i < |batch| ==> Lookup(batch[i], net, unmarshal) == Ok(next.value[|cache| + i]))
  {
    var fetched := Fetched(batch, net, unmarshal);
    FetchedMeaning(batch, net, unmarshal);
    if fetched.1 == [] {
      var next := cache + fetched.0;
      assert next[..|cache|] == cache;
      assert forall i :: 0 <= i < |batch| ==> next[|cache| + i] == fetched.0[i];
    }
  }

  /** The batch's lookups give no error exactly when each succeeds; then the details are theirs, in batch order. */
  lemma FetchedMeaning(batch: seq<Shows.Show>, net: string -> Response, unmarshal: Details.LookupUnmarshal)
    ensures var fetched := Fetched(batch, net, unmarshal);
      && (fetched.1 == [] <==> forall i :: 0 <= i < |batch| ==> Lookup(batch[i], net, unmarshal).Ok?)
      && (fetched.1 == [] ==>
            && |fetched.0| == |batch|
            && forall i :: 0 <= i < |batch| ==> Lookup(batch[i], net, unmarshal) == Ok(fetched.0[i]))
  {
    var urls := BatchURLs(batch);
    var rs := FetchAll(urls, net, Details.LookupDecoder(unmarshal));
    var cs := Seqs.Map(Details.Classify, rs);
    forall i | 0 <= i < |batch|
      ensures cs[i] == Lookup(batch[i], net, unmarshal)
    {
      assert urls[i] == Details.LookupURL(batch[i].id);
      assert rs[i] == GetEntitiesFromRequest(urls[i], net(urls[i]), Details.LookupDecoder(unmarshal));
    }
    Seqs.SplitNoErrors(cs);
    if Seqs.Split(cs).1 == [] {
      Seqs.SplitAllOk(cs);
    }
  }

  /**
   * Lines 45-62 end to end over abstract lookups: the cache IDs, the batch,
   * its details fetched through the limiter, and the cache to save, which is
   * absent when any fetch failed and otherwise holds one new entry per
   * selected show after the old cache.
   */
  method DetailsRound(shows: seq<Shows.Show>, cache: seq<ShowDetails>, chunk: nat,
                      net: string -> Response, unmarshal: Details.LookupUnmarshal)
    returns (saved: Option<seq<ShowDetails>>)
    ensures var fetched := Fetched(Take(Uncached(shows, CachedIDSet(cache)), chunk), net, unmarshal);
      saved == NextCache(cache, fetched.0, fetched.1)
    ensures saved.Some? ==> cache <= saved.value
    ensures saved.Some? ==> |saved.value| == |cache| + |Take(Uncached(shows, CachedIDSet(cache)), chunk)|
  {
    var inCache := CachedIDs(cache);
    var batch := SelectFresh(shows, inCache, chunk);
    var opt := Details.GetDetailsRequestOptions(batch);
    assert opt.lookupURL == BatchURLs(batch);
    var details, errs := Details.GetDetails(opt, net, unmarshal);
    saved := NextCache(cache, details, errs);
  }

  /**
   * With `GetDetails` as written (details.go:68 passes the whole result), every
   * lookup of a non-empty batch is an error, so a round never saves anything.
   */
  lemma AsWrittenRoundSavesNothing(cache: seq<ShowDetails>, batch: seq<Shows.Show>, net: string -> Response,
                                   unmarshal: Details.LookupUnmarshal)
    requires |batch| > 0
    ensures var split := Seqs.Split(Seqs.Map(Details.ClassifyAsWritten,
                                             FetchAll(BatchURLs(batch), net, Details.LookupDecoder(unmarshal))));
      NextCache(cache, split.0, split.1).None?
  {
    Details.AsWrittenYieldsNoDetails(FetchAll(BatchURLs(batch), net, Details.LookupDecoder(unmarshal)));
  }
}
