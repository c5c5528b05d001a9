/** minigrep's library: building the search configuration from the command
    line arguments, and the two line matchers. */
module Minigrep {
  import opened Strings
  import opened Filtering

  datatype Result<T> = Ok(value: T) | Err(error: string)

  /** The search to run: what to look for, in which file, and whether case
      must match. */
  datatype Config = Config(query: string, filename: string, caseSensitive: bool)

  const NotEnoughArguments: string := "not enough arguments"

  /* ---------------------------------------------------------------------
     Configuration
     --------------------------------------------------------------------- */

  /** Builds the configuration from the argument list, whose first element
      (the program name) is ignored. `caseInsensitiveSet` stands for a
      successful read of the CASE_INSENSITIVE environment variable. */
  function NewConfig(args: seq<string>, caseInsensitiveSet: bool): (r: Result<Config>)
    ensures r.Err? <==> |args| < 3
    ensures r.Err? ==> r.error == NotEnoughArguments
    ensures r.Ok? ==> r.value.query == args[1] && r.value.filename == args[2]
    ensures r.Ok? ==> (r.value.caseSensitive <==> !caseInsensitiveSet)
  {
    if |args| < 3 then
      Err(NotEnoughArguments)
    else
      Ok(Config(args[1], args[2], !caseInsensitiveSet))
  }

  /* ---------------------------------------------------------------------
     Line matching
     --------------------------------------------------------------------- */

  /** The test `Search` applies to a line. */
  function HasQuery(query: string): string -> bool {
    line => Contains(line, query)
  }

  /** The test `SearchCaseInsensitive` applies to a line. */
  function HasQueryIgnoringCase(query: string): string -> bool {
    line => Contains(Lower(line), Lower(query))
  }

  /** The lines of `contents` that contain `query`, in order. */
  function Matching(query: string, contents: string): seq<string> {
    Filter(Lines(contents), HasQuery(query))
  }

  /** The lines of `contents` whose lowercase form contains the lowercase
      form of `query`, in order and as they appear in `contents`. */
  function MatchingIgnoringCase(query: string, contents: string): seq<string> {
    Filter(Lines(contents), HasQueryIgnoringCase(query))
  }

  /** Collects, line by line, the lines of `contents` that contain `query`. */
  method Search(query: string, contents: string) returns (results: seq<string>)
    ensures results == Matching(query, contents)
  {
    var lines := Lines(contents);
    results := [];
    for i := 0 to |lines|
      invariant results == Filter(lines[..i], HasQuery(query))
    {
      var line := lines[i];
      FilterExtend(lines, i, HasQuery(query));
      if Contains(line, query) {
        results := results + [line];
      }
    }
    assert lines[..|lines|] == lines;
  }

  /** Like `Search`, but compares the lowercase forms of the query and of
      each line; the lines collected are the original ones. */
  method SearchCaseInsensitive(query: string, contents: string) returns (results: seq<string>)
    ensures results == MatchingIgnoringCase(query, contents)
  {
    var lowered := Lower(query);
    var lines := Lines(contents);
    results := [];
    for i := 0 to |lines|
      invariant results == Filter(lines[..i], HasQueryIgnoringCase(query))
    {
      var line := lines[i];
      FilterExtend(lines, i, HasQueryIgnoringCase(query));
      if Contains(Lower(line), lowered) {
        results := results + [line];
      }
    }
    assert lines[..|lines|] == lines;
  }

  /** The search `run` performs once the file has been read: `file` is the
      outcome of reading `config.filename`. A read error is passed on and
      nothing is printed; otherwise the result is the sequence of lines
      printed, from the matcher the configuration selects. */
  method Run(config: Config, file: Result<string>) returns (r: Result<seq<string>>)
    ensures file.Err? ==> r == Err(file.error)
    ensures file.Ok? && config.caseSensitive ==> r == Ok(Matching(config.query, file.value))
    ensures file.Ok? && !config.caseSensitive ==> r == Ok(MatchingIgnoringCase(config.query, file.value))
  {
    if file.Err? {
      return Err(file.error);
    }
    var results;
    if config.caseSensitive {
      results := Search(config.query, file.value);
    } else {
      results := SearchCaseInsensitive(config.query, file.value);
    }
    return Ok(results);
  }

  /* ---------------------------------------------------------------------
     Properties of the matchers
     --------------------------------------------------------------------- */

  /** A line is returned by `Search` exactly when it is a line of `contents`
      in which `query` occurs. */
  lemma MatchingExactly(query: string, contents: string, line: string)
    ensures line in Matching(query, contents) <==> line in Lines(contents) && Occurs(query, line)
  {
    FilterMembership(Lines(contents), HasQuery(query), line);
    ContainsOccurs(line, query);
  }

  /** `Search` keeps the order of the lines and neither drops nor merges
      repeated matching lines. */
  lemma MatchingPreservesOrderAndRepeats(query: string, contents: string, line: string)
    ensures IsSubsequence(Matching(query, contents), Lines(contents))
    ensures Occurs(query, line) ==>
              multiset(Matching(query, contents))[line] == multiset(Lines(contents))[line]
  {
    FilterIsSubsequence(Lines(contents), HasQuery(query));
    FilterCount(Lines(contents), HasQuery(query), line);
    ContainsOccurs(line, query);
  }

  /** The empty query matches every line, so `Search` returns all of them. */
  lemma EmptyQueryMatchesAll(contents: string)
    ensures Matching("", contents) == Lines(contents)
  {
    FilterAll(Lines(contents), HasQuery(""));
  }

  /** A line is returned by `SearchCaseInsensitive` exactly when it is a line
      of `contents` whose lowercase form contains the lowercase query; the
      line returned is the original line of `contents`. */
  lemma MatchingIgnoringCaseExactly(query: string, contents: string, line: string)
    ensures line in MatchingIgnoringCase(query, contents) <==>
              line in Lines(contents) && Occurs(Lower(query), Lower(line))
    ensures IsSubsequence(MatchingIgnoringCase(query, contents), Lines(contents))
  {
    FilterMembership(Lines(contents), HasQueryIgnoringCase(query), line);
    ContainsOccurs(Lower(line), Lower(query));
    FilterIsSubsequence(Lines(contents), HasQueryIgnoringCase(query));
  }

  /** `SearchCaseInsensitive` neither drops nor merges repeated matching
      lines. */
  lemma MatchingIgnoringCaseKeepsRepeats(query: string, contents: string, line: string)
    ensures Occurs(Lower(query), Lower(line)) ==>
              multiset(MatchingIgnoringCase(query, contents))[line] == multiset(Lines(contents))[line]
  {
    FilterCount(Lines(contents), HasQueryIgnoringCase(query), line);
    ContainsOccurs(Lower(line), Lower(query));
  }

  /** Ignoring case only adds matches: the case-sensitive result is a
      subsequence of the case-insensitive one, and so at most as long. */
  lemma IgnoringCaseFindsMore(query: string, contents: string)
    ensures IsSubsequence(Matching(query, contents), MatchingIgnoringCase(query, contents))
    ensures |Matching(query, contents)| <= |MatchingIgnoringCase(query, contents)|
  {
    var lines := Lines(contents);
    forall i | 0 <= i < |lines|
      ensures HasQuery(query)(lines[i]) ==> HasQueryIgnoringCase(query)(lines[i])
    {
      ContainsOccurs(lines[i], query);
      ContainsOccurs(Lower(lines[i]), Lower(query));
      if Contains(lines[i], query) {
        OccursLower(query, lines[i]);
      }
    }
    FilterMonotone(lines, HasQuery(query), HasQueryIgnoringCase(query));
    SubsequenceLength(Matching(query, contents), MatchingIgnoringCase(query, contents));
  }

  /** The case of the query does not matter to `SearchCaseInsensitive`. */
  lemma IgnoringCaseOfQuery(query: string, contents: string)
    ensures MatchingIgnoringCase(Lower(query), contents) == MatchingIgnoringCase(query, contents)
  {
    var lines := Lines(contents);
    LowerIdempotent(query);
    FilterCongruent(lines, HasQueryIgnoringCase(Lower(query)), HasQueryIgnoringCase(query));
  }
}
