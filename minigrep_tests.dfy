/** The unit tests of minigrep's library that do not touch the file system,
    stated as lemmas about the model. */
module MinigrepTests {
  import opened Strings
  import opened Filtering
  import opened Minigrep

  /** Three arguments make a valid configuration. */
  lemma NewValidConfig(caseInsensitiveSet: bool)
    ensures NewConfig(["minigrep", "foo", "bar"], caseInsensitiveSet).Ok?
  {
  }

  /** Two arguments are not enough. */
  lemma NewInvalidConfig(caseInsensitiveSet: bool)
    ensures NewConfig(["minigrep", "foo"], caseInsensitiveSet) == Err("not enough arguments")
  {
  }

  /** The texts the two matcher tests search, laid out line by line as the
      tests write them. */
  const DuctTapePoem: string :=
    "Rust:\n" +
    "safe, fast, productive.\n" +
    "Pick three.\n" +
    "Duct tape."

  const TrustMePoem: string :=
    "Rust:\n" +
    "safe, fast, productive.\n" +
    "Pick three.\n" +
    "Trust me."

  /* Splitting and filtering four lines. */

  lemma FilterFour<T>(a: T, b: T, c: T, d: T, p: T -> bool)
    ensures Filter([a, b, c, d], p) == Filter([a], p) + Filter([b], p) + Filter([c], p) + Filter([d], p)
  {
    assert [a, b, c, d] == [a] + [b] + [c] + [d];
    FilterAppend([a] + [b] + [c], [d], p);
    FilterAppend([a] + [b], [c], p);
    FilterAppend([a], [b], p);
  }

  lemma FilterOne<T>(a: T, p: T -> bool)
    ensures Filter([a], p) == if p(a) then [a] else []
  {
  }

  /** The three lines both texts share. */
  const Verse: seq<string> := ["Rust:", "safe, fast, productive.", "Pick three."]

  lemma VerseIsPlain()
    ensures forall l :: l in Verse ==> '\n' !in l && !EndsWithCR(l)
  {
    assert '\n' !in "Rust:" && !EndsWithCR("Rust:");
    assert '\n' !in "safe, fast, productive." && !EndsWithCR("safe, fast, productive.");
    assert '\n' !in "Pick three." && !EndsWithCR("Pick three.");
  }

  lemma VerseText()
    ensures Unlines(Verse) == "Rust:\n" + "safe, fast, productive.\n" + "Pick three.\n"
  {
  }

  lemma DuctTapeLines()
    ensures Lines(DuctTapePoem) == ["Rust:", "safe, fast, productive.", "Pick three.", "Duct tape."]
  {
    VerseText();
    VerseIsPlain();
    LinesOfUnlines(Verse, "Duct tape.");
  }

  lemma TrustMeLines()
    ensures Lines(TrustMePoem) == ["Rust:", "safe, fast, productive.", "Pick three.", "Trust me."]
  {
    VerseText();
    VerseIsPlain();
    LinesOfUnlines(Verse, "Trust me.");
  }

  /* Which lines contain "duct". */

  lemma DuctInSecondLine(line: string)
    requires line == "safe, fast, productive."
    ensures HasQuery("duct")(line)
  {
    ContainsOccurs(line, "duct");
    assert line[15..19] == "duct";
  }

  lemma NoDuctElsewhere(line: string)
    requires line == "Rust:" || line == "Pick three." || line == "Duct tape."
    ensures !HasQuery("duct")(line)
  {
    NotContainsWithoutFirst(line, "duct");
  }

  /* Which lines contain "rust" once lowercased. */

  /** "rust" is not in `a + b` when `a` has no 'r' and `b` has its only 'r'
      at the front, not followed by "ust". */
  lemma NotContainsAfterOnlyR(a: string, b: string)
    requires 'r' !in a && b != [] && 'r' !in b[1..] && !IsPrefix("rust", b)
    ensures !Contains(a + b, "rust")
  {
    ContainsOccurs(a + b, "rust");
    NotOccursWithoutFirst("rust", b[1..]);
    OccursShift("rust", b);
    NotOccursAppend("rust", a, b);
  }

  lemma LowerQuery(query: string)
    requires query == "rUsT"
    ensures Lower(query) == "rust"
  {
  }

  lemma LowerRust(line: string)
    requires line == "Rust:"
    ensures Lower(line) == "rust:"
  {
  }

  lemma LowerSecondLine(line: string)
    requires line == "safe, fast, productive."
    ensures Lower(line) == line
  {
  }

  lemma LowerPickThree(line: string)
    requires line == "Pick three."
    ensures Lower(line) == "pick three."
  {
  }

  lemma LowerTrustMe(line: string)
    requires line == "Trust me."
    ensures Lower(line) == "trust me."
  {
  }

  lemma LowerDuctTape(line: string)
    requires line == "Duct tape."
    ensures Lower(line) == "duct tape."
  {
  }

  lemma RustInFirstLine(line: string)
    requires line == "Rust:"
    ensures HasQueryIgnoringCase("rUsT")(line)
  {
    LowerQuery("rUsT");
    LowerRust(line);
    assert IsPrefix("rust", "rust:");
  }

  lemma RustInTrustMe(line: string)
    requires line == "Trust me."
    ensures HasQueryIgnoringCase("rUsT")(line)
  {
    LowerQuery("rUsT");
    LowerTrustMe(line);
    var lowered := "trust me.";
    assert lowered[1..] == "rust me.";
    assert IsPrefix("rust", "rust me.");
  }

  lemma NoRustInSecondLine(line: string)
    requires line == "safe, fast, productive."
    ensures !HasQueryIgnoringCase("rUsT")(line)
  {
    LowerQuery("rUsT");
    LowerSecondLine(line);
    assert "safe, fast, p" + "roductive." == line;
    NotContainsAfterOnlyR("safe, fast, p", "roductive.");
  }

  lemma NoRustInPickThree(line: string)
    requires line == "Pick three."
    ensures !HasQueryIgnoringCase("rUsT")(line)
  {
    LowerQuery("rUsT");
    LowerPickThree(line);
    assert "pick th" + "ree." == "pick three.";
    NotContainsAfterOnlyR("pick th", "ree.");
  }

  lemma NoRustInDuctTape(line: string)
    requires line == "Duct tape."
    ensures !HasQueryIgnoringCase("rUsT")(line)
  {
    LowerQuery("rUsT");
    LowerDuctTape(line);
    NotContainsWithoutFirst("duct tape.", "rust");
  }

  /* The tests. */

  /** "duct" (as in "productive") is found only in the second line. */
  lemma CaseSensitive()
    ensures Matching("duct", DuctTapePoem) == ["safe, fast, productive."]
  {
    var p := HasQuery("duct");
    DuctTapeLines();
    FilterFour("Rust:", "safe, fast, productive.", "Pick three.", "Duct tape.", p);
    NoDuctElsewhere("Rust:");
    FilterOne("Rust:", p);
    DuctInSecondLine("safe, fast, productive.");
    FilterOne("safe, fast, productive.", p);
    NoDuctElsewhere("Pick three.");
    FilterOne("Pick three.", p);
    NoDuctElsewhere("Duct tape.");
    FilterOne("Duct tape.", p);
  }

  /** "rUsT" ignoring case is found in "Rust:" and in "Trust me.", which are
      returned as written. */
  lemma CaseInsensitive()
    ensures MatchingIgnoringCase("rUsT", TrustMePoem) == ["Rust:", "Trust me."]
  {
    var p := HasQueryIgnoringCase("rUsT");
    TrustMeLines();
    FilterFour("Rust:", "safe, fast, productive.", "Pick three.", "Trust me.", p);
    RustInFirstLine("Rust:");
    FilterOne("Rust:", p);
    NoRustInSecondLine("safe, fast, productive.");
    FilterOne("safe, fast, productive.", p);
    NoRustInPickThree("Pick three.");
    FilterOne("Pick three.", p);
    RustInTrustMe("Trust me.");
    FilterOne("Trust me.", p);
  }

  /** On the first text, "rUsT" ignoring case is found only in "Rust:". */
  lemma CaseInsensitiveOnDuctTape()
    ensures MatchingIgnoringCase("rUsT", DuctTapePoem) == ["Rust:"]
  {
    var p := HasQueryIgnoringCase("rUsT");
    DuctTapeLines();
    FilterFour("Rust:", "safe, fast, productive.", "Pick three.", "Duct tape.", p);
    RustInFirstLine("Rust:");
    FilterOne("Rust:", p);
    NoRustInSecondLine("safe, fast, productive.");
    FilterOne("safe, fast, productive.", p);
    NoRustInPickThree("Pick three.");
    FilterOne("Pick three.", p);
    NoRustInDuctTape("Duct tape.");
    FilterOne("Duct tape.", p);
  }
}
