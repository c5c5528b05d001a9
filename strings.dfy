/** The three operations on text that minigrep borrows from Rust's standard
    library: splitting a string into lines (`str::lines`), substring
    containment (`str::contains`) and lowercasing (`str::to_lowercase`,
    here restricted to ASCII letters). */
module Strings {

  /* ---------------------------------------------------------------------
     Line splitting
     --------------------------------------------------------------------- */

  /** Index of the first '\n' in `s`, or `|s|` when there is none. */
  function LineEnd(s: string): (k: nat)
    ensures k <= |s|
    ensures k < |s| ==> s[k] == '\n'
    ensures forall i :: 0 <= i < k ==> s[i] != '\n'
  {
    if s == [] || s[0] == '\n' then 0 else 1 + LineEnd(s[1..])
  }

  predicate EndsWithCR(s: string) {
    s != [] && s[|s| - 1] == '\r'
  }

  /** Removes one trailing carriage return, if there is one. */
  function StripCR(s: string): string {
    if EndsWithCR(s) then s[..|s| - 1] else s
  }

  /** The lines of `s`: the pieces between '\n' terminators, each with one
      trailing '\r' removed. A final '\n' does not start an empty last line,
      and an unterminated last piece is still a line. */
  function Lines(s: string): seq<string>
    decreases |s|
  {
    if s == [] then []
    else
      var k := LineEnd(s);
      [StripCR(s[..k])] + (if k < |s| then Lines(s[k + 1..]) else [])
  }

  /** Each line followed by its '\n' terminator, concatenated. */
  function Unlines(ls: seq<string>): string {
    if ls == [] then [] else ls[0] + "\n" + Unlines(ls[1..])
  }

  /** No line that `Lines` produces holds a line break. */
  lemma {:induction false} LinesHaveNoNewline(s: string)
    ensures forall l :: l in Lines(s) ==> '\n' !in l
    decreases |s|
  {
    if s != [] {
      var k := LineEnd(s);
      var first := StripCR(s[..k]);
      assert first == s[..|first|];
      assert '\n' !in first;
      if k < |s| {
        LinesHaveNoNewline(s[k + 1..]);
        assert Lines(s) == [first] + Lines(s[k + 1..]);
      } else {
        assert Lines(s) == [first];
      }
    }
  }

  /** A piece terminated by '\n' is the first line. */
  lemma LinesCons(l: string, rest: string)
    requires '\n' !in l
    ensures Lines(l + "\n" + rest) == [StripCR(l)] + Lines(rest)
  {
    var s := l + "\n" + rest;
    assert s[|l|] == '\n';
    assert forall i :: 0 <= i < |l| ==> s[i] == l[i];
    assert LineEnd(s) == |l|;
    assert s[..|l|] == l;
    assert s[|l| + 1..] == rest;
  }

  /** An unterminated, non-empty piece is the last line. */
  lemma LinesLast(l: string)
    requires l != [] && '\n' !in l
    ensures Lines(l) == [StripCR(l)]
  {
    assert LineEnd(l) == |l|;
    assert l[..|l|] == l;
  }

  /** A piece terminated by "\r\n" is the first line, without the '\r'. */
  lemma LinesCRLF(l: string, rest: string)
    requires '\n' !in l
    ensures Lines(l + "\r\n" + rest) == [l] + Lines(rest)
  {
    assert l + "\r\n" + rest == (l + "\r") + "\n" + rest;
    assert (l + "\r")[..|l|] == l;
    LinesCons(l + "\r", rest);
  }

  /** Splitting undoes joining: terminated lines followed by an optional
      unterminated last line split back into those lines, provided none of
      them carries a line break of its own or ends with '\r'. */
  lemma {:induction false} LinesOfUnlines(ls: seq<string>, last: string)
    requires forall l :: l in ls ==> '\n' !in l && !EndsWithCR(l)
    requires '\n' !in last && !EndsWithCR(last)
    ensures Lines(Unlines(ls) + last) == ls + (if last == [] then [] else [last])
  {
    if ls == [] {
      assert Unlines(ls) + last == last;
      if last != [] {
        LinesLast(last);
      }
    } else {
      assert ls[0] in ls;
      var rest := Unlines(ls[1..]) + last;
      assert Unlines(ls) + last == ls[0] + "\n" + rest;
      LinesCons(ls[0], rest);
      LinesOfUnlines(ls[1..], last);
    }
  }

  /** Joining undoes splitting, for text without carriage returns whose last
      line is terminated. */
  lemma {:induction false} UnlinesOfLines(s: string)
    requires '\r' !in s
    requires s == [] || s[|s| - 1] == '\n'
    ensures Unlines(Lines(s)) == s
    decreases |s|
  {
    if s != [] {
      var k := LineEnd(s);
      assert k < |s|;
      assert '\r' !in s[..k];
      assert StripCR(s[..k]) == s[..k];
      var tail := s[k + 1..];
      assert '\r' !in tail;
      assert tail == [] || tail[|tail| - 1] == '\n';
      UnlinesOfLines(tail);
      assert Lines(s) == [s[..k]] + Lines(tail);
      assert Lines(s)[1..] == Lines(tail);
      assert s == s[..k] + "\n" + tail;
    }
  }

  /* ---------------------------------------------------------------------
     Containment
     --------------------------------------------------------------------- */

  /** `query` appears in `line` as a contiguous run of characters. */
  ghost predicate Occurs(query: string, line: string) {
    exists i, j :: 0 <= i <= j <= |line| && line[i..j] == query
  }

  /** `p` is a prefix of `s`, compared character by character. */
  predicate IsPrefix(p: string, s: string)
    ensures IsPrefix(p, s) <==> |p| <= |s| && s[..|p|] == p
  {
    p == [] || (s != [] && p[0] == s[0] && IsPrefix(p[1..], s[1..]))
  }

  /** Substring test, trying the start positions from left to right. */
  predicate Contains(line: string, query: string)
    decreases |line|
  {
    IsPrefix(query, line) || (line != [] && Contains(line[1..], query))
  }

  /** `Contains` decides `Occurs`. */
  lemma {:induction false} ContainsOccurs(line: string, query: string)
    ensures Contains(line, query) <==> Occurs(query, line)
    decreases |line|
  {
    if IsPrefix(query, line) {
      assert line[0..|query|] == query;
    } else if line != [] {
      OccursShift(query, line);
      ContainsOccurs(line[1..], query);
    }
  }

  /** When `query` is not a prefix of `line`, it occurs in `line` exactly when
      it occurs in `line` without its first character. */
  lemma OccursShift(query: string, line: string)
    requires line != [] && !IsPrefix(query, line)
    ensures Occurs(query, line) <==> Occurs(query, line[1..])
  {
    if Occurs(query, line) {
      OccursDropFirst(query, line);
    }
    if Occurs(query, line[1..]) {
      var tail := line[1..];
      var i, j :| 0 <= i <= j <= |tail| && tail[i..j] == query;
      assert line[i + 1..j + 1] == tail[i..j];
    }
  }

  lemma OccursDropFirst(query: string, line: string)
    requires Occurs(query, line) && !IsPrefix(query, line)
    ensures Occurs(query, line[1..])
  {
    var i, j :| 0 <= i <= j <= |line| && line[i..j] == query;
    assert i > 0;
    assert line[1..][i - 1..j - 1] == line[i..j];
  }

  /** A query whose first character is missing from `line` does not occur
      in it. */
  lemma NotOccursWithoutFirst(query: string, line: string)
    requires query != [] && query[0] !in line
    ensures !Occurs(query, line)
  {
    forall i, j | 0 <= i <= j <= |line|
      ensures line[i..j] != query
    {
      if i < j {
        assert line[i..j][0] == line[i];
      }
    }
  }

  /** `Contains` is false when the first character of the query is missing. */
  lemma NotContainsWithoutFirst(line: string, query: string)
    requires query != [] && query[0] !in line
    ensures !Contains(line, query)
  {
    ContainsOccurs(line, query);
    NotOccursWithoutFirst(query, line);
  }

  /** A query that does not occur in `b` and whose first character is
      missing from `a` does not occur in `a + b`. */
  lemma NotOccursAppend(query: string, a: string, b: string)
    requires query != [] && query[0] !in a && !Occurs(query, b)
    ensures !Occurs(query, a + b)
  {
    var line := a + b;
    forall i, j | 0 <= i <= j <= |line|
      ensures line[i..j] != query
    {
      if i < |a| && i < j {
        assert line[i..j][0] == a[i];
      } else if |a| <= i {
        assert line[i..j] == b[i - |a|..j - |a|];
      }
    }
  }

  /* ---------------------------------------------------------------------
     Lowercasing (ASCII letters only)
     --------------------------------------------------------------------- */

  /** The lower-case form of an ASCII upper-case letter; any other character
      is its own lower-case form. */
  function LowerChar(c: char): (r: char)
    ensures !('A' <= r <= 'Z')
    ensures 'A' <= c <= 'Z' ==> 'a' <= r <= 'z' && r as int - 'a' as int == c as int - 'A' as int
    ensures !('A' <= c <= 'Z') ==> r == c
  {
    if 'A' <= c <= 'Z' then (c as int + 32) as char else c
  }

  /** `s` with every ASCII upper-case letter replaced by its lower-case form. */
  function Lower(s: string): string {
    seq(|s|, i requires 0 <= i < |s| => LowerChar(s[i]))
  }

  /** Lowercasing keeps the length, leaves no upper-case letter, and changes
      nothing but upper-case letters. */
  lemma LowerLowercases(s: string)
    ensures |Lower(s)| == |s|
    ensures forall i :: 0 <= i < |s| ==> !('A' <= Lower(s)[i] <= 'Z')
    ensures forall i :: 0 <= i < |s| && !('A' <= s[i] <= 'Z') ==> Lower(s)[i] == s[i]
  {
  }

  /** Lowercasing twice is lowercasing once. */
  lemma LowerIdempotent(s: string)
    ensures Lower(Lower(s)) == Lower(s)
  {
  }

  /** A match survives lowercasing both sides. */
  lemma OccursLower(query: string, line: string)
    requires Occurs(query, line)
    ensures Occurs(Lower(query), Lower(line))
  {
    var i, j :| 0 <= i <= j <= |line| && line[i..j] == query;
    assert Lower(line)[i..j] == Lower(query);
  }
}
