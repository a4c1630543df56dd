/**
 * app/crawler/crawler.go: the ID carried by an entity URL, and the merge of the
 * per-page scrape results that `ScrapeEntities` collects from its goroutines.
 */
module Crawler {
  import opened Wrappers
  import opened Errors
  import opened Text

  datatype ScraperOptions = ScraperOptions(lookupURL: seq<string>, pattern: string)

  /** What one page yields: label -> link, and the errors met while visiting it. */
  datatype ScrapeResult = ScrapeResult(entities: map<string, string>, errors: seq<Error>)

  /**
   * The single-page options (`LookupURL string`, `Pattern string`) that
   * genre.go and show.go pass to the crawler's `GetEntities`.
   */
  datatype PageRequest = PageRequest(lookupURL: string, pattern: string)

  /** What `strconv.Atoi` is given: the last '/'-segment of `url` with one leading "id" removed. */
  function IDText(url: string): string
  {
    TrimPrefix(LastSegment(url), "id")
  }

  /**
   * `GetEntityIDFromURL`: the integer after "id" in the last path segment; a
   * remainder that is not an integer gives the `Atoi` error wrapped with the URL.
   */
  function GetEntityIDFromURL(url: string): (r: Result<int, Error>)
    ensures r.Err? ==> r.error == Wrap("ID cannot be parsed from URL: " + url, SyntaxError(IDText(url)))
    ensures r.Err? ==> Cause(r.error) == SyntaxError(IDText(url))
  {
    match ParseDecimal(IDText(url))
    case Ok(id) => Ok(id)
    case Err(e) => Err(Wrap("ID cannot be parsed from URL: " + url, e))
  }

  /** Only the text after the last '/' matters. */
  lemma IDDependsOnLastSegment(u: string, v: string)
    requires LastSegment(u) == LastSegment(v)
    ensures GetEntityIDFromURL(u).Ok? == GetEntityIDFromURL(v).Ok?
    ensures GetEntityIDFromURL(u).Ok? ==> GetEntityIDFromURL(u).value == GetEntityIDFromURL(v).value
  {
  }

  /** A URL whose last segment is "id" followed by the decimal form of `n` carries `n`. */
  lemma IDOfEntityURL(prefix: string, n: int)
    ensures GetEntityIDFromURL(prefix + "/id" + FormatDecimal(n)) == Ok(n)
  {
    var digits := FormatDecimal(n);
    assert '/' !in "id" + digits;
    assert prefix + "/id" + digits == prefix + "/" + ("id" + digits);
    LastSegmentAfterSlash(prefix, "id" + digits);
    assert "id" <= "id" + digits;
    FormatThenParse(n);
  }

  /** Without the "id" prefix, a decimal last segment is read as it is. */
  lemma IDOfBareNumber(prefix: string, n: int)
    ensures GetEntityIDFromURL(prefix + "/" + FormatDecimal(n)) == Ok(n)
  {
    var digits := FormatDecimal(n);
    assert '/' !in digits;
    LastSegmentAfterSlash(prefix, digits);
    assert |digits| > 0 && digits[0] != 'i';
    assert !("id" <= digits);
    FormatThenParse(n);
  }

  /** Only one "id" is removed: "idid<n>" does not parse. */
  lemma OneIDPrefixRemoved(prefix: string, n: int)
    ensures GetEntityIDFromURL(prefix + "/idid" + FormatDecimal(n)).Err?
  {
    var digits := FormatDecimal(n);
    var rest := "id" + digits;
    var last := "id" + rest;
    assert '/' !in last by {
      assert AllDigits(digits) || (digits[0] == '-' && AllDigits(digits[1..]));
      assert forall c :: c in digits ==> c != '/';
    }
    assert prefix + "/idid" + digits == prefix + "/" + last;
    LastSegmentAfterSlash(prefix, last);
    assert IDText(prefix + "/idid" + digits) == rest by {
      assert last[|"id"|..] == rest;
    }
    assert rest[0] == 'i' && !IsSign(rest[0]) && !IsDigit(rest[0]);
  }

  lemma SyntaxErrorOfD()
    ensures SyntaxError("d") == Message("strconv.Atoi: parsing \"d\": invalid syntax")
  {
  }

  /** ".../idd": the remainder "d" is not a number, and the cause names it. */
  lemma NonNumericID(prefix: string)
    ensures GetEntityIDFromURL(prefix + "/idd")
            == Err(Wrapped("ID cannot be parsed from URL: " + prefix + "/idd", Message("strconv.Atoi: parsing \"d\": invalid syntax")))
  {
    var url := prefix + "/idd";
    assert url == prefix + "/" + "idd";
    LastSegmentAfterSlash(prefix, "idd");
    assert IDText(url) == "d" by {
      assert "id" <= "idd";
      assert "idd"[2..] == "d";
    }
    assert ParseDecimal("d") == Err(SyntaxError("d")) by {
      assert !IsSign('d') && !IsDigit('d');
    }
    SyntaxErrorOfD();
    assert "ID cannot be parsed from URL: " + prefix + "/idd" == "ID cannot be parsed from URL: " + url;
  }

  /** A page's entities enter the merged map only under labels not seen before. */
  function Absorb(merged: map<string, string>, page: map<string, string>): map<string, string>
  {
    merged + (page - merged.Keys)
  }

  /** The label map after the merge loop has processed `pages`, in that order. */
  function MergedEntities(pages: seq<ScrapeResult>): map<string, string>
  {
    if pages == [] then map[]
    else Absorb(MergedEntities(pages[..|pages| - 1]), pages[|pages| - 1].entities)
  }

  /** The error list after the merge loop has processed `pages`. */
  function MergedErrors(pages: seq<ScrapeResult>): seq<Error>
  {
    if pages == [] then []
    else MergedErrors(pages[..|pages| - 1]) + pages[|pages| - 1].errors
  }

  /**
   * The merge half of `ScrapeEntities` (lines 46-62), over the page results in
   * the order the goroutines delivered them: errors are appended, and a label
   * is added only if no earlier page had it.
   */
  method MergeScrapes(pages: seq<ScrapeResult>) returns (res: map<string, string>, err: seq<Error>)
    ensures res == MergedEntities(pages)
    ensures err == MergedErrors(pages)
  {
    res := map[];
    err := [];
    for i := 0 to |pages|
      invariant res == MergedEntities(pages[..i])
      invariant err == MergedErrors(pages[..i])
    {
      var scrape := pages[i];
      assert pages[..i + 1][..i] == pages[..i];
      if |scrape.errors| > 0 {
        err := err + scrape.errors;
      }
      ghost var before := res;
      var remaining := scrape.entities.Keys;
      while remaining != {}
        invariant remaining <= scrape.entities.Keys
        invariant res.Keys == before.Keys + (scrape.entities.Keys - remaining)
        invariant forall k :: k in before ==> res[k] == before[k]
        invariant forall k :: k in scrape.entities.Keys - remaining && k !in before ==> res[k] == scrape.entities[k]
        decreases remaining
      {
        var name :| name in remaining;
        if name !in res {
          res := res[name := scrape.entities[name]];
        }
        remaining := remaining - {name};
      }
      assert res == Absorb(before, scrape.entities);
    }
    assert pages[..|pages|] == pages;
  }

  /** The merged labels are exactly the labels of all pages together. */
  lemma {:induction false} MergedKeys(pages: seq<ScrapeResult>)
    ensures forall k :: k in MergedEntities(pages) <==> exists i :: 0 <= i < |pages| && k in pages[i].entities
  {
    if pages != [] {
      var init := pages[..|pages| - 1];
      MergedKeys(init);
      forall k | k in MergedEntities(pages)
        ensures exists i :: 0 <= i < |pages| && k in pages[i].entities
      {
        if k in MergedEntities(init) {
          var i :| 0 <= i < |init| && k in init[i].entities;
          assert pages[i] == init[i];
        } else {
          assert k in pages[|pages| - 1].entities;
        }
      }
      forall k, i | 0 <= i < |pages| && k in pages[i].entities
        ensures k in MergedEntities(pages)
      {
        if i < |pages| - 1 {
          assert init[i] == pages[i];
        }
      }
    }
  }

  /** A label keeps the link of the first page that had it; later pages never overwrite it. */
  lemma {:induction false} FirstPageWins(pages: seq<ScrapeResult>, i: nat, k: string)
    requires i < |pages| && k in pages[i].entities
    requires forall j :: 0 <= j < i ==> k !in pages[j].entities
    ensures k in MergedEntities(pages)
    ensures MergedEntities(pages)[k] == pages[i].entities[k]
  {
    var init := pages[..|pages| - 1];
    if i == |pages| - 1 {
      MergedKeys(init);
      assert forall j :: 0 <= j < |init| ==> init[j] == pages[j];
      assert k !in MergedEntities(init);
    } else {
      assert init[i] == pages[i];
      assert forall j :: 0 <= j < i ==> init[j] == pages[j];
      FirstPageWins(init, i, k);
    }
  }

  lemma {:induction false} MergedErrorsConcat(p: seq<ScrapeResult>, q: seq<ScrapeResult>)
    ensures MergedErrors(p + q) == MergedErrors(p) + MergedErrors(q)
  {
    if q == [] {
      assert p + q == p;
    } else {
      var q', x := q[..|q| - 1], q[|q| - 1];
      assert (p + q)[..|p + q| - 1] == p + q';
      assert (p + q)[|p + q| - 1] == x;
      MergedErrorsConcat(p, q');
      assert MergedErrors(p + q) == MergedErrors(p + q') + x.errors;
      assert MergedErrors(q) == MergedErrors(q') + x.errors;
    }
  }

  /** No error is dropped: each page's errors appear whole, after those of the pages before it. */
  lemma {:induction false} MergedErrorsInOrder(pages: seq<ScrapeResult>, i: nat)
    requires i < |pages|
    ensures MergedErrors(pages) == MergedErrors(pages[..i]) + pages[i].errors + MergedErrors(pages[i + 1..])
  {
    var single := [pages[i]];
    assert single[..0] == [];
    assert MergedErrors(single) == pages[i].errors;
    assert pages[i..] == single + pages[i + 1..];
    MergedErrorsConcat(single, pages[i + 1..]);
    assert pages == pages[..i] + pages[i..];
    MergedErrorsConcat(pages[..i], pages[i..]);
  }
}
