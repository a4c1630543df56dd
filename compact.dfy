/**
 * app/compact.go: the compact show records written for consumers, filled in
 * from ID-keyed maps of genres, show details and feeds.
 */
module Compact {
  import opened Wrappers
  import opened Text
  import opened ShowRecords
  import Genres
  import Seqs

  datatype CompactShowImage = CompactShowImage(big: string, small: string, medium: string)

  /** The show this revision of compact.go reads: an ID, a name and the show page URL. */
  datatype Show = Show(id: int, name: string, url: string)

  /** All fields of a `CompactShow`, as one value. */
  datatype CompactRecord = CompactRecord(
    id: int, showURL: string, feedURL: string, name: string, desc: string, artist: string,
    language: string, genres: seq<string>, image: CompactShowImage)

  function GenreID(g: Genres.Genre): int { g.id }
  function GenreItself(g: Genres.Genre): Genres.Genre { g }
  function DetailsID(d: ShowDetails): int { d.id }
  function DetailsItself(d: ShowDetails): ShowDetails { d }
  function FeedID(f: Feed): int { f.id }
  function FeedItself(f: Feed): Feed { f }

  /** `getGenresMap`: every genre under its ID, the last one winning. */
  method GetGenresMap(genres: seq<Genres.Genre>) returns (res: map<int, Genres.Genre>)
    ensures res == Seqs.LastBy(genres, GenreID, GenreItself)
  {
    res := map[];
    for i := 0 to |genres|
      invariant res == Seqs.LastBy(genres[..i], GenreID, GenreItself)
    {
      var genre := genres[i];
      assert genres[..i + 1] == genres[..i] + [genre];
      Seqs.LastBySnoc(genres[..i], genre, GenreID, GenreItself);
      res := res[genre.id := genre];
    }
    assert genres[..|genres|] == genres;
  }

  /** `getDetailsMap` */
  method GetDetailsMap(details: seq<ShowDetails>) returns (res: map<int, ShowDetails>)
    ensures res == Seqs.LastBy(details, DetailsID, DetailsItself)
  {
    res := map[];
    for i := 0 to |details|
      invariant res == Seqs.LastBy(details[..i], DetailsID, DetailsItself)
    {
      var d := details[i];
      assert details[..i + 1] == details[..i] + [d];
      Seqs.LastBySnoc(details[..i], d, DetailsID, DetailsItself);
      res := res[d.id := d];
    }
    assert details[..|details|] == details;
  }

  /** `getFeedsMap` */
  method GetFeedsMap(feeds: seq<Feed>) returns (res: map<int, Feed>)
    ensures res == Seqs.LastBy(feeds, FeedID, FeedItself)
  {
    res := map[];
    for i := 0 to |feeds|
      invariant res == Seqs.LastBy(feeds[..i], FeedID, FeedItself)
    {
      var feed := feeds[i];
      assert feeds[..i + 1] == feeds[..i] + [feed];
      Seqs.LastBySnoc(feeds[..i], feed, FeedID, FeedItself);
      res := res[feed.id := feed];
    }
    assert feeds[..|feeds|] == feeds;
  }

  /**
   * The names of the genres whose ID text parses as an integer and is in
   * `gen`, in the order of `ids`; other IDs are skipped.
   */
  function GenreNames(ids: seq<string>, gen: map<int, Genres.Genre>): seq<string>
  {
    if ids == [] then []
    else
      var init := GenreNames(ids[..|ids| - 1], gen);
      match ParseDecimal(ids[|ids| - 1])
      case Ok(id) => if id in gen then init + [gen[id].name] else init
      case Err(_) => init
  }

  /** Never more names than IDs. */
  lemma {:induction false} GenreNamesBound(ids: seq<string>, gen: map<int, Genres.Genre>)
    ensures |GenreNames(ids, gen)| <= |ids|
  {
    if ids != [] {
      GenreNamesBound(ids[..|ids| - 1], gen);
    }
  }

  /** Without known genres nothing is resolved. */
  lemma {:induction false} GenreNamesNoGenres(ids: seq<string>)
    ensures GenreNames(ids, map[]) == []
  {
    if ids != [] {
      GenreNamesNoGenres(ids[..|ids| - 1]);
    }
  }

  /** When every ID parses and is known, each gives its genre's name, in order. */
  lemma {:induction false} GenreNamesAllKnown(ids: seq<string>, gen: map<int, Genres.Genre>)
    requires forall i :: 0 <= i < |ids| ==> ParseDecimal(ids[i]).Ok? && ParseDecimal(ids[i]).value in gen
    ensures |GenreNames(ids, gen)| == |ids|
    ensures forall i :: 0 <= i < |ids| ==> GenreNames(ids, gen)[i] == gen[ParseDecimal(ids[i]).value].name
  {
    if ids != [] {
      var init := ids[..|ids| - 1];
      assert forall i :: 0 <= i < |init| ==> init[i] == ids[i];
      GenreNamesAllKnown(init, gen);
    }
  }

  /** The names of two lists of IDs follow one another. */
  lemma {:induction false} GenreNamesConcat(a: seq<string>, b: seq<string>, gen: map<int, Genres.Genre>)
    ensures GenreNames(a + b, gen) == GenreNames(a, gen) + GenreNames(b, gen)
  {
    if b == [] {
      assert a + b == a;
    } else {
      var b' := b[..|b| - 1];
      assert (a + b)[..|a + b| - 1] == a + b';
      GenreNamesConcat(a, b', gen);
    }
  }

  /** An ID that is not a number is skipped. */
  lemma GenreNamesSkipsNonNumeric(a: seq<string>, bad: string, b: seq<string>, gen: map<int, Genres.Genre>)
    requires ParseDecimal(bad).Err?
    ensures GenreNames(a + [bad] + b, gen) == GenreNames(a + b, gen)
  {
    GenreNamesConcat(a + [bad], b, gen);
    GenreNamesConcat(a, [bad], gen);
    GenreNamesConcat(a, b, gen);
    assert [bad][..0] == [];
  }

  class CompactShow {
    var id: int
    var showURL: string
    var feedURL: string
    var name: string
    var desc: string
    var artist: string
    var language: string
    var genres: seq<string>
    var image: CompactShowImage

    function Record(): CompactRecord
      reads this
    {
      CompactRecord(id, showURL, feedURL, name, desc, artist, language, genres, image)
    }

    /** `NewCompactShow`: the show's ID, name and page URL; every other field empty. */
    constructor (show: Show)
      ensures Record() == CompactRecord(show.id, show.url, "", show.name, "", "", "", [], CompactShowImage("", "", ""))
    {
      id := show.id;
      name := show.name;
      showURL := show.url;
      feedURL := "";
      desc := "";
      artist := "";
      language := "";
      genres := [];
      image := CompactShowImage("", "", "");
    }

    /** `SetFromFeed`: language and description from the show's feed, if there is one. */
    method SetFromFeed(list: map<int, Feed>) returns (ok: bool)
      modifies this
      ensures ok <==> old(id) in list
      ensures !ok ==> Record() == old(Record())
      ensures ok ==> Record() == old(Record()).(language := list[old(id)].language, desc := list[old(id)].description)
    {
      if id !in list {
        return false;
      }
      var feed := list[id];
      language := feed.language;
      desc := feed.description;
      return true;
    }

    /**
     * `SetFromDetails`: name, feed URL and images from the show's details, if
     * there are any, and the names of its resolvable genres.
     */
    method SetFromDetails(list: map<int, ShowDetails>, gen: map<int, Genres.Genre>) returns (ok: bool)
      modifies this
      ensures ok <==> old(id) in list
      ensures !ok ==> Record() == old(Record())
      ensures ok ==>
        var d := list[old(id)];
        Record() == old(Record()).(
          name := d.name, feedURL := d.rss,
          image := CompactShowImage(d.image.big, d.image.small, d.image.medium),
          genres := GenreNames(d.genres, gen))
    {
      if id !in list {
        return false;
      }
      var details := list[id];
      name := details.name;
      feedURL := details.rss;
      image := image.(big := details.image.big);
      image := image.(medium := details.image.medium);
      image := image.(small := details.image.small);

      genres := [];
      for i := 0 to |details.genres|
        invariant genres == GenreNames(details.genres[..i], gen)
        invariant id == old(id) && showURL == old(showURL) && desc == old(desc)
        invariant artist == old(artist) && language == old(language)
        invariant name == details.name && feedURL == details.rss
        invariant image == CompactShowImage(details.image.big, details.image.small, details.image.medium)
      {
        var idStr := details.genres[i];
        assert details.genres[..i + 1][..i] == details.genres[..i];
        var genreID := ParseDecimal(idStr);
        if genreID.Err? {
          continue;
        }
        if genreID.value !in gen {
          continue;
        }
        genres := genres + [gen[genreID.value].name];
      }
      assert details.genres[..|details.genres|] == details.genres;
      return true;
    }
  }
}
