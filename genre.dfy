/** app/genre/genre.go: genres built from the labels and links scraped off the genre index page. */
module Genres {
  import opened Wrappers
  import opened Errors
  import opened Crawler
  import Seqs

  datatype Genre = Genre(id: int, name: string, url: string)

  function NewGenre(id: int, name: string, url: string): (g: Genre)
    ensures g.id == id && g.name == name && g.url == url
  {
    Genre(id, name, url)
  }

  /** The page listing every podcast genre, and the selector for its genre links. */
  function GenresRequestOptions(): (r: PageRequest)
    ensures |r.lookupURL| > 0 && |r.pattern| > 0
    ensures r.lookupURL == "https://podcasts.apple.com/us/genre/podcasts/id26"
    ensures r.pattern == ".top-level-genre, .top-level-subgenres a[href]"
  {
    PageRequest("https://podcasts.apple.com/us/genre/podcasts/id26", ".top-level-genre, .top-level-subgenres a[href]")
  }

  /**
   * The genres the loop of `GetGenres` has built after visiting the labels
   * `names` in this order, reading IDs with `parse`, and the parse error that
   * stopped it, if any.
   */
  function GenresAlong(names: seq<string>, entities: map<string, string>, parse: string -> Result<int, Error>)
    : (seq<Genre>, Option<Error>)
    requires forall i :: 0 <= i < |names| ==> names[i] in entities
  {
    if names == [] then ([], None)
    else
      var before := GenresAlong(names[..|names| - 1], entities, parse);
      var name := names[|names| - 1];
      if before.1.Some? then before
      else match parse(entities[name])
        case Err(e) => (before.0, Some(e))
        case Ok(id) => (before.0 + [NewGenre(id, name, entities[name])], None)
  }

  /** Genre `g` is the one built from label `name`: its link and the ID parsed from that link. */
  predicate BuiltFrom(g: Genre, name: string, entities: map<string, string>, parse: string -> Result<int, Error>)
  {
    name in entities && g.name == name && g.url == entities[name] && parse(g.url) == Ok(g.id)
  }

  /**
   * Without an error every visited label gave one genre, in visiting order;
   * an error comes from the first label whose link does not parse, and the
   * genres before it are kept.
   */
  lemma {:induction false} GenresAlongMeaning(names: seq<string>, entities: map<string, string>, parse: string -> Result<int, Error>)
    requires forall i :: 0 <= i < |names| ==> names[i] in entities
    ensures var (genres, err) := GenresAlong(names, entities, parse);
      && |genres| <= |names|
      && (forall i :: 0 <= i < |genres| ==> BuiltFrom(genres[i], names[i], entities, parse))
      && (err.None? ==> |genres| == |names|)
      && (err.Some? ==> |genres| < |names| && parse(entities[names[|genres|]]) == Err(err.value))
  {
    if names != [] {
      var init := names[..|names| - 1];
      GenresAlongMeaning(init, entities, parse);
      assert forall i :: 0 <= i < |init| ==> init[i] == names[i];
    }
  }

  /** What `GenresAlong` gives, without reference to the order the labels were visited in. */
  lemma GenresAlongResult(names: seq<string>, entities: map<string, string>, parse: string -> Result<int, Error>)
    requires forall i :: 0 <= i < |names| ==> names[i] in entities
    ensures var (genres, err) := GenresAlong(names, entities, parse);
      && (forall g :: g in genres ==> BuiltFrom(g, g.name, entities, parse))
      && (err.None? ==> |genres| == |names|)
      && (err.Some? ==> exists name :: name in entities && parse(entities[name]) == Err(err.value))
  {
    GenresAlongMeaning(names, entities, parse);
    var (genres, err) := GenresAlong(names, entities, parse);
    if err.Some? {
      assert names[|genres|] in entities;
    }
  }

  /** Once a label fails, visiting more labels changes nothing. */
  lemma {:induction false} GenresAlongStops(names: seq<string>, more: seq<string>, entities: map<string, string>,
                                            parse: string -> Result<int, Error>)
    requires forall i :: 0 <= i < |names| ==> names[i] in entities
    requires forall i :: 0 <= i < |more| ==> more[i] in entities
    requires GenresAlong(names, entities, parse).1.Some?
    ensures GenresAlong(names + more, entities, parse) == GenresAlong(names, entities, parse)
  {
    if more == [] {
      assert names + more == names;
    } else {
      var m := more[..|more| - 1];
      assert (names + more)[..|names + more| - 1] == names + m;
      GenresAlongStops(names, m, entities, parse);
    }
  }

  /** One more label after an error-free prefix. */
  lemma GenresAlongStep(names: seq<string>, name: string, entities: map<string, string>, parse: string -> Result<int, Error>)
    requires forall i :: 0 <= i < |names| ==> names[i] in entities
    requires name in entities
    requires GenresAlong(names, entities, parse).1.None?
    ensures forall i :: 0 <= i < |names + [name]| ==> (names + [name])[i] in entities
    ensures GenresAlong(names + [name], entities, parse)
            == match parse(entities[name])
               case Err(e) => (GenresAlong(names, entities, parse).0, Some(e))
               case Ok(id) => (GenresAlong(names, entities, parse).0 + [NewGenre(id, name, entities[name])], None)
  {
    assert (names + [name])[..|names|] == names;
  }

  /**
   * `GetGenres`: a failed scrape gives no genres and the error wrapped with
   * the lookup URL. Otherwise the labels are visited in the map's (arbitrary)
   * order, recorded in `visited`, each label at most once; the result is what
   * `GenresAlong` says of that order with `GetEntityIDFromURL` as parser, and without an error every label was
   * visited.
   */
  method GetGenres(options: PageRequest, scraped: Result<map<string, string>, Error>)
    returns (genres: seq<Genre>, err: Option<Error>, ghost visited: seq<string>)
    ensures scraped.Err? ==>
              && genres == [] && visited == []
              && err == Some(Wrap("genres cannot be loaded from URL: " + options.lookupURL, scraped.error))
    ensures scraped.Ok? ==> (forall i :: 0 <= i < |visited| ==> visited[i] in scraped.value)
    ensures scraped.Ok? ==> (genres, err) == GenresAlong(visited, scraped.value, GetEntityIDFromURL)
    ensures forall i, j :: 0 <= i < j < |visited| ==> visited[i] != visited[j]
    ensures scraped.Ok? && err.None? ==> (forall k :: k in scraped.value <==> k in visited)
    ensures scraped.Ok? && err.Some? ==> |visited| == |genres| + 1
    ensures scraped.Ok? ==> forall g :: g in genres ==> BuiltFrom(g, g.name, scraped.value, GetEntityIDFromURL)
    ensures scraped.Ok? && err.None? ==> |genres| == |scraped.value|
    ensures scraped.Ok? && err.Some? ==>
              exists name :: name in scraped.value && GetEntityIDFromURL(scraped.value[name]) == Err(err.value)
  {
    genres := [];
    visited := [];
    if scraped.Err? {
      err := Some(Wrap("genres cannot be loaded from URL: " + options.lookupURL, scraped.error));
      return;
    }
    var entities := scraped.value;
    var remaining := entities.Keys;
    Seqs.TraversalStart(entities.Keys);
    while remaining != {}
      invariant Seqs.Traversal(visited, remaining, entities.Keys)
      invariant |visited| == |genres|
      invariant GenresAlong(visited, entities, GetEntityIDFromURL) == (genres, None)
      decreases remaining
    {
      var name :| name in remaining;
      var url := entities[name];
      GenresAlongStep(visited, name, entities, GetEntityIDFromURL);
      Seqs.TraversalStep(visited, remaining, entities.Keys, name);
      visited := visited + [name];
      remaining := remaining - {name};
      var id := GetEntityIDFromURL(url);
      if id.Err? {
        err := Some(id.error);
        GenresAlongResult(visited, entities, GetEntityIDFromURL);
        return;
      }
      genres := genres + [NewGenre(id.value, name, url)];
    }
    Seqs.TraversalEnd(visited, entities.Keys);
    GenresAlongResult(visited, entities, GetEntityIDFromURL);
    assert |entities| == |entities.Keys|;
    err := None;
  }
}
