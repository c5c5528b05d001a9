/** How the minigrep binary hands its command line to `NewConfig`. The
    command line `argv` starts with the program name, as the process's
    argument list does. */
module Binary {
  import opened Minigrep

  /** The argument list the binary passes on as written: the command line
      without its first element. */
  function ArgsAsWritten(argv: seq<string>): (args: seq<string>)
    ensures |args| == if argv == [] then 0 else |argv| - 1
    ensures forall i :: 0 <= i < |args| ==> args[i] == argv[i + 1]
  {
    if argv == [] then [] else argv[1..]
  }

  /** The configuration the binary builds as written. */
  function ConfigAsWritten(argv: seq<string>, caseInsensitiveSet: bool): Result<Config> {
    NewConfig(ArgsAsWritten(argv), caseInsensitiveSet)
  }

  /** The configuration the binary evidently means to build: `NewConfig`
      already skips the program name itself, so it gets the whole command
      line. */
  function ConfigIntended(argv: seq<string>, caseInsensitiveSet: bool): Result<Config> {
    NewConfig(argv, caseInsensitiveSet)
  }

  /** As written, the invocation `minigrep QUERY FILE` that the library's
      tests assume, by passing the program name as `args[0]`, is refused for
      lack of arguments. */
  lemma AsWrittenRejectsQueryAndFile(query: string, filename: string, caseInsensitiveSet: bool)
    ensures ConfigAsWritten(["minigrep", query, filename], caseInsensitiveSet) == Err(NotEnoughArguments)
  {
  }

  /** As written, a command line is accepted only with three user arguments,
      of which the first is ignored and the second is taken as the query. */
  lemma AsWrittenIgnoresFirstArgument(argv: seq<string>, caseInsensitiveSet: bool)
    ensures ConfigAsWritten(argv, caseInsensitiveSet).Ok? <==> |argv| >= 4
    ensures |argv| >= 4 ==>
              ConfigAsWritten(argv, caseInsensitiveSet) == Ok(Config(argv[2], argv[3], !caseInsensitiveSet))
  {
  }

  /** Corrected, `minigrep QUERY FILE ...` searches for QUERY in FILE, and
      fewer than two user arguments are refused. */
  lemma IntendedTakesQueryAndFile(argv: seq<string>, caseInsensitiveSet: bool)
    ensures ConfigIntended(argv, caseInsensitiveSet).Err? <==> |argv| < 3
    ensures |argv| >= 3 ==>
              ConfigIntended(argv, caseInsensitiveSet) == Ok(Config(argv[1], argv[2], !caseInsensitiveSet))
  {
  }
}
