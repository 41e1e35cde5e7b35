/** The options record of a load call and its defaulting. */
module Options {
  import opened Results

  /** `LoadOptions`: file name, overwrite policy, debug logging, and how many parent directories to search. */
  datatype LoadOptions = LoadOptions(pathname: string, overwrite: bool, debug: bool, maxLevels: int)

  /** Options a load can run with: a file name to look for and at least one level to climb. */
  predicate Usable(o: LoadOptions)
  {
    o.pathname != "" && o.maxLevels > 0
  }

  /** `DefaultLoadOptions`: `.env`, no overwrite, no debug, three levels. */
  function DefaultLoadOptions(): (o: LoadOptions)
    ensures Usable(o)
    ensures o.pathname == ".env" && !o.overwrite && !o.debug && o.maxLevels == 3
  {
    LoadOptions(".env", false, false, 3)
  }

  /**
   * `parseOptions`: the first option record if there is one and it is not nil
   * (`None` stands for `nil`), with an empty file name and a
   * non-positive level count replaced by their defaults; the defaults
   * otherwise. The record is a value, so the caller's copy never changes.
   */
  function ParseOptions(opts: seq<Option<LoadOptions>>): (r: LoadOptions)
    ensures Usable(r)
    ensures (|opts| == 0 || opts[0].None?) ==> r == DefaultLoadOptions()
    ensures |opts| > 0 && opts[0].Some? ==>
              var given := opts[0].value;
              r.overwrite == given.overwrite && r.debug == given.debug &&
              r.pathname == (if given.pathname == "" then ".env" else given.pathname) &&
              r.maxLevels == (if given.maxLevels <= 0 then 3 else given.maxLevels)
  {
    if |opts| > 0 && opts[0].Some? then
      var result := opts[0].value;
      var result := if result.pathname == "" then result.(pathname := ".env") else result;
      var result := if result.maxLevels <= 0 then result.(maxLevels := 3) else result;
      result
    else
      DefaultLoadOptions()
  }

  /** Options that are already usable pass through unchanged, so defaulting twice is defaulting once. */
  lemma ParseOptionsKeepsUsable(o: LoadOptions)
    requires Usable(o)
    ensures ParseOptions([Some(o)]) == o
  {
  }

  lemma ParseOptionsIdempotent(opts: seq<Option<LoadOptions>>)
    ensures ParseOptions([Some(ParseOptions(opts))]) == ParseOptions(opts)
  {
    ParseOptionsKeepsUsable(ParseOptions(opts));
  }

  /** Only the first option record is read. */
  lemma ParseOptionsReadsFirst(opts: seq<Option<LoadOptions>>)
    requires |opts| > 0
    ensures ParseOptions(opts) == ParseOptions([opts[0]])
  {
  }
}
