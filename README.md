# minigrep in Dafny

A model of the library of `minigrep`, the small text search utility of the
Rust book: building the search configuration from the command-line
arguments (`Config::new`), and the two line matchers `search` and
`search_case_insensitive`, which return, in order, every line of a text that
contains the query (optionally comparing lowercased forms). The dispatch of
`run` between the two matchers is modelled over an already-read file.

Files:

- `strings.dfy` (module `Strings`): the three standard-library string
  operations the matchers rely on: `Lines` (Rust's `str::lines`), `Contains`
  (`str::contains`, proved to decide the containment predicate `Occurs`) and
  `Lower` (`str::to_lowercase`, ASCII letters only).
- `filtering.dfy` (module `Filtering`): `Filter`, the order-preserving filter
  a push-if-matching loop builds, and `IsSubsequence`, with their lemmas.
- `minigrep.dfy` (module `Minigrep`): `Config`, `NewConfig`, the methods
  `Search`, `SearchCaseInsensitive` and `Run`, the specification functions
  `Matching` and `MatchingIgnoringCase`, and the properties of the matchers.
- `binary.dfy` (module `Binary`): how the binary passes its command line to
  `Config::new`.
- `minigrep_tests.dfy` (module `MinigrepTests`): the library's unit tests
  that do not touch the file system, as lemmas.

Modelling decisions:

- `Search` and `SearchCaseInsensitive` are methods with a loop over
  `Lines(contents)` that appends each matching line to `results`, as the
  source's `for line in contents.lines()` loop pushes onto a `Vec`; each is
  proved equal to the filter of the lines by its test (`Matching`,
  `MatchingIgnoringCase`). The case-insensitive method lowercases the query
  once, before the loop, as the source does.
- The read of the `CASE_INSENSITIVE` environment variable becomes the
  parameter `caseInsensitiveSet` of `NewConfig`: true when
  `env::var("CASE_INSENSITIVE")` succeeds. `case_sensitive` is
  `env::var(..).is_err()`, so a variable that is set to a value that is not
  valid Unicode also leaves the search case-sensitive; the parameter is then
  false.
- `Config::new` ignores `args[0]` and needs at least three elements; the
  model keeps it exactly as written. The binary (`minigrep/src/main.rs:9`)
  already drops the program name with `skip(1)` before calling it, so it
  needs three user arguments and ignores the first; `binary.dfy` (module
  `Binary`) states this, and the corrected hand-over, under "## Findings".
- `MinigrepTests.CaseInsensitiveOnDuctTape` also checks the
  case-insensitive matcher on the first test text, where only "Rust:"
  matches.
- `Lines` follows `str::lines` as `split_terminator('\n')` with one trailing
  `'\r'` removed from every piece: a final `'\n'` does not start an empty
  line, an unterminated last piece is a line, and an unterminated last piece
  ending in a bare `'\r'` also loses it (as `str::lines` did in the Rust
  releases contemporary with this code).
- The results are owned strings rather than `&str` views into `contents`.
- The test texts are written as the concatenation of their lines
  (`"Rust:\n" + "safe, fast, productive.\n" + ...`), which is the same string
  the source's multi-line literals denote.

## Model

| member | source | states |
|---|---|---|
| Minigrep.NewConfig | minigrep/src/lib.rs:12-26 | fails exactly when there are fewer than 3 arguments, with the message "not enough arguments"; otherwise the query is `args[1]`, the file name `args[2]`, and the search is case-sensitive iff the CASE_INSENSITIVE toggle is not set |
| Minigrep.Search | minigrep/src/lib.rs:45-55 | the loop's result is exactly the lines of `contents` that contain `query`, in order (the filter `Matching`) |
| Minigrep.SearchCaseInsensitive | minigrep/src/lib.rs:57-68 | the loop's result is exactly the original lines of `contents` whose lowercase form contains the lowercase query, in order (`MatchingIgnoringCase`) |
| Minigrep.Run | minigrep/src/lib.rs:29-43 | a failed file read is passed on with its error and no lines; otherwise the printed lines are the case-sensitive matches when the configuration is case-sensitive and the case-insensitive matches otherwise |
| Minigrep.HasQuery | minigrep/src/lib.rs:49 | definition of the per-line test of `search`: `line.contains(query)` |
| Minigrep.HasQueryIgnoringCase | minigrep/src/lib.rs:58-62 | definition of the per-line test of `search_case_insensitive`: the lowercased line contains the lowercased query |
| Minigrep.Matching | minigrep/src/lib.rs:45-55 | definition: what `search` returns, the lines of `contents` filtered by `line.contains(query)` |
| Minigrep.MatchingIgnoringCase | minigrep/src/lib.rs:57-68 | definition: what `search_case_insensitive` returns, the original lines of `contents` filtered by "the lowercased line contains the lowercased query" |
| Minigrep.MatchingExactly | minigrep/src/lib.rs:48-52 | a line is returned by search iff it is a line of `contents` in which `query` occurs as a contiguous substring (soundness and completeness) |
| Minigrep.MatchingPreservesOrderAndRepeats | minigrep/src/lib.rs:46-54 | search's result is an order-preserving subsequence of the lines, and every matching line appears as often as in the input (no deduplication) |
| Minigrep.EmptyQueryMatchesAll | minigrep/src/lib.rs:49 | the empty query returns all lines of `contents` unchanged |
| Minigrep.MatchingIgnoringCaseExactly | minigrep/src/lib.rs:58-64 | a line is returned iff it is a line of `contents` whose lowercase form contains the lowercase query; the result is a subsequence of the original lines, so the returned lines are the un-lowered ones |
| Minigrep.MatchingIgnoringCaseKeepsRepeats | minigrep/src/lib.rs:59-67 | every line matching ignoring case appears in the result as often as in the input (no deduplication) |
| Minigrep.IgnoringCaseFindsMore | minigrep/src/lib.rs:45-68 | the case-sensitive result is a subsequence of the case-insensitive result, hence no longer |
| Minigrep.IgnoringCaseOfQuery | minigrep/src/lib.rs:58 | lowercasing the query first does not change the case-insensitive result |
| Strings.Lines | minigrep/src/lib.rs:48 | definition of `str::lines`: `split_terminator('\n')` with one trailing '\r' removed from each piece |
| Strings.LineEnd | minigrep/src/lib.rs:48 | the split point of `lines`: the index of the first '\n', or the length when there is none |
| Strings.LinesHaveNoNewline | minigrep/src/lib.rs:48 | no line produced by `lines` contains '\n' |
| Strings.LinesCons | minigrep/src/lib.rs:48 | a piece terminated by '\n' is the first line, with one trailing '\r' removed |
| Strings.LinesCRLF | minigrep/src/lib.rs:48 | a piece terminated by "\r\n" is the first line without the '\r' |
| Strings.LinesLast | minigrep/src/lib.rs:48 | an unterminated non-empty last piece is still a line |
| Strings.LinesOfUnlines | minigrep/src/lib.rs:48 | splitting recovers lines joined with '\n' terminators and an optional unterminated last line; a final '\n' produces no empty last line |
| Strings.UnlinesOfLines | minigrep/src/lib.rs:48 | for text without '\r' whose last line is terminated, re-joining the lines gives back the text |
| Strings.IsPrefix | minigrep/src/lib.rs:49 | the character-by-character prefix test agrees with slice equality |
| Strings.Contains | minigrep/src/lib.rs:49 | definition of `str::contains`: the query is a prefix of the line at some start position, tried left to right |
| Strings.ContainsOccurs | minigrep/src/lib.rs:49 | `Contains(line, query)` holds iff some slice `line[i..j]` equals `query` |
| Strings.OccursShift | minigrep/src/lib.rs:49 | when the query is not a prefix of the line, it occurs in the line iff it occurs in the line without its first character |
| Strings.NotOccursWithoutFirst | minigrep/src/lib.rs:49 | a query whose first character is absent from the line does not occur in it |
| Strings.NotContainsWithoutFirst | minigrep/src/lib.rs:49 | the same for `Contains` |
| Strings.NotOccursAppend | minigrep/src/lib.rs:49 | a query absent from `b` whose first character is absent from `a` does not occur in `a + b` |
| Strings.LowerChar | minigrep/src/lib.rs:58 | an ASCII upper-case letter becomes the corresponding lower-case letter, every other character is unchanged, and the result is never upper-case |
| Strings.Lower | minigrep/src/lib.rs:58 | definition of `to_lowercase` on ASCII letters: `LowerChar` applied to every character |
| Strings.LowerLowercases | minigrep/src/lib.rs:58 | lowercasing keeps the length, leaves no upper-case letter, and changes no character that is not an upper-case letter |
| Strings.OccursLower | minigrep/src/lib.rs:58-62 | a substring occurrence survives lowercasing both the query and the line |
| Strings.LowerIdempotent | minigrep/src/lib.rs:58-62 | lowercasing twice is lowercasing once |
| Filtering.Filter | minigrep/src/lib.rs:46-54 | definition: the `results` vector the push-if-matching loop builds, i.e. the elements that pass the test, in order and with repeats |
| Filtering.FilterExtend | minigrep/src/lib.rs:48-52 | one more loop iteration appends the current line exactly when it passes the test |
| Filtering.FilterMembership | minigrep/src/lib.rs:48-52 | an element is kept iff it is in the input and passes the test |
| Filtering.FilterCount | minigrep/src/lib.rs:46-54 | a passing element is kept as many times as it occurs; a failing one never |
| Filtering.FilterIsSubsequence | minigrep/src/lib.rs:46-54 | the filter is an order-preserving subsequence of its input |
| Filtering.FilterAll | minigrep/src/lib.rs:49 | a test every element passes keeps the whole input |
| Filtering.FilterCongruent | minigrep/src/lib.rs:58-62 | tests that agree on every element filter alike |
| Filtering.FilterMonotone | minigrep/src/lib.rs:45-68 | a test implied by another keeps a supersequence of what the other keeps |
| Filtering.FilterAppend | minigrep/src/lib.rs:48-52 | filtering distributes over concatenation |
| Filtering.SubsequenceLength | minigrep/src/lib.rs:46-54 | a subsequence is never longer than its source |
| Binary.ArgsAsWritten | minigrep/src/main.rs:9 | the list passed on is the command line without its first element, element for element |
| Binary.ConfigAsWritten | minigrep/src/main.rs:9-10 | definition: the configuration `main` builds, `Config::new` applied to the command line without its first element |
| Binary.ConfigIntended | minigrep/src/main.rs:9-10 | definition: the corrected configuration, `Config::new` applied to the whole command line |
| Binary.AsWrittenRejectsQueryAndFile | minigrep/src/main.rs:9-10 | as written, `minigrep QUERY FILE` is refused with "not enough arguments" |
| Binary.AsWrittenIgnoresFirstArgument | minigrep/src/main.rs:9-10 | as written, a command line is accepted iff it has at least three user arguments, and then the second is the query and the third the file name |
| Binary.IntendedTakesQueryAndFile | minigrep/src/lib.rs:13-18 | passing the whole command line, fewer than two user arguments are refused and otherwise the first is the query and the second the file name |
| MinigrepTests.NewValidConfig | minigrep/src/lib.rs:74-81 | `["minigrep", "foo", "bar"]` makes a valid configuration |
| MinigrepTests.NewInvalidConfig | minigrep/src/lib.rs:83-88 | `["minigrep", "foo"]` fails with "not enough arguments" |
| MinigrepTests.CaseSensitive | minigrep/src/lib.rs:111-121 | "duct" in the "Duct tape." text yields only "safe, fast, productive." |
| MinigrepTests.CaseInsensitive | minigrep/src/lib.rs:123-136 | "rUsT" ignoring case in the "Trust me." text yields "Rust:" and "Trust me." |
| MinigrepTests.CaseInsensitiveOnDuctTape | minigrep/src/lib.rs:57-68 | "rUsT" ignoring case in the "Duct tape." text yields only "Rust:" |

## Left out

- `run`'s file read (`fs::read_to_string`) and printing (`println!`): file and
  console I/O. `Minigrep.Run` takes the outcome of the read as a parameter
  and returns the lines that would be printed.
- The rest of `minigrep/src/main.rs`: process glue (reading `env::args`,
  `eprintln!`, `process::exit`); only its hand-over of the arguments is
  modelled.
- Reading the `CASE_INSENSITIVE` environment variable: replaced by the
  explicit parameter `caseInsensitiveSet`.
- The file-not-found and file-exists tests (minigrep/src/lib.rs:90-109): they
  depend on the file system.
- Strings.Lower, Strings.LowerChar: only ASCII letters are lowercased. Full Unicode
  `to_lowercase` (its tables, characters that lowercase to several, and the
  context rule for Greek final sigma) is not modelled. In particular
  `Minigrep.IgnoringCaseFindsMore` rests on lowercasing being a
  per-character map and is not claimed for full Unicode.
- Search idempotence: the model's matchers are deterministic functions of
  their inputs, so calling them twice with the same inputs gives the same
  result by construction; no separate lemma states it.
- Rust lifetimes and borrowing: results are sequences of owned strings, not
  views into `contents`.

## Findings

| source | as written | input that shows it | evidently intended | confidence | as-written member | corrected member |
|---|---|---|---|---|---|---|
| minigrep/src/main.rs:9 | `env::args().skip(1)` drops the program name before `Config::new`, which drops `args[0]` again | `minigrep frog poem.txt` is refused with "not enough arguments"; `minigrep x frog poem.txt` searches for "frog" | pass the whole command line, as `Config::new` reads the query at index 1 and the file name at index 2 | high, not executed | Binary.AsWrittenRejectsQueryAndFile | Binary.IntendedTakesQueryAndFile |
