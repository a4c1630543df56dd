/** app/options.go: the command-line options and the check of the requested data type. */
module AppOptions {
  import opened Wrappers
  import opened Errors

  /** The parsed flags: `-parse` (the data type), `-chunk` and `-out`. */
  datatype Options = Options(typ: string, chunk: int, out: string)

  const ValidTypes: seq<string> := ["genres", "shows", "details", "feed"]

  /** The flag defaults: no type, chunk 0, output "/tmp/data.json". */
  const DefaultOptions := Options("", 0, "/tmp/data.json")

  /** `isTypeValid`: a loop over the known types with an early return. */
  method IsTypeValid(o: Options) returns (valid: bool)
    ensures valid <==> o.typ in ValidTypes
  {
    var types := ValidTypes;
    for i := 0 to |types|
      invariant o.typ !in types[..i]
    {
      if o.typ == types[i] {
        return true;
      }
    }
    assert types[..|types|] == types;
    return false;
  }

  /** The type is matched exactly: no singular form, no other case, and the default "" is refused. */
  lemma ValidTypeIsExact()
    ensures "genres" in ValidTypes && "feed" in ValidTypes
    ensures "genre" !in ValidTypes && "Genres" !in ValidTypes && "" !in ValidTypes
    ensures DefaultOptions.typ !in ValidTypes
  {
  }

  /** The validity decision of `newOptions` over already-parsed flags. */
  method NewOptions(parsed: Options) returns (r: Result<Options, Error>)
    ensures r.Err? <==> parsed.typ !in ValidTypes
    ensures r.Err? ==> r.error == Message("Invalid data type")
    ensures r.Ok? ==> r.value == parsed
  {
    var valid := IsTypeValid(parsed);
    if !valid {
      return Err(Message("Invalid data type"));
    }
    return Ok(parsed);
  }
}
