/** What the other modules need of strings. */
module Strings {

  predicate HasPrefix(s: string, start: string) {
    |start| <= |s| && s[..|start|] == start
  }

  predicate HasSuffix(s: string, end: string) {
    |end| <= |s| && s[|s| - |end|..] == end
  }

  function Join(parts: seq<string>, separator: string): string {
    if |parts| == 0 then "" else if |parts| == 1 then parts[0]
    else parts[0] + separator + Join(parts[1..], separator)
  }

  // Without the line ends it ends in.
  function TrimRight(s: string): string {
    if |s| > 0 && s[|s| - 1] == '\n' then TrimRight(s[..|s| - 1]) else s
  }

  function Split(s: string): (lines: seq<string>)
    ensures |lines| > 0
  {
    if |s| == 0 then [""]
    else
      var rest := Split(s[1..]);
      if s[0] == '\n' then [""] + rest else [[s[0]] + rest[0]] + rest[1..]
  }

  lemma {:induction false} JoinReadsSplit(s: string)
    ensures Join(Split(s), "\n") == s
  {
    if |s| > 0 {
      JoinReadsSplit(s[1..]);
      var rest := Split(s[1..]);
      assert Split(s)[1..] == if s[0] == '\n' then rest else rest[1..];
      assert s == [s[0]] + s[1..];
      if s[0] != '\n' && |rest| > 1 {
        assert Join(Split(s), "\n") == [s[0]] + (rest[0] + "\n" + Join(rest[1..], "\n"));
      }
    }
  }

  // One part more comes after a separator.
  lemma {:induction false} JoinSnoc(parts: seq<string>, x: string, separator: string)
    ensures Join(parts + [x], separator) == if |parts| == 0 then x else Join(parts, separator) + separator + x
  {
    if |parts| == 0 {
      assert parts + [x] == [x];
    } else {
      JoinSnoc(parts[1..], x, separator);
      assert (parts + [x])[1..] == parts[1..] + [x];
    }
  }

  // Splitting leaves no line end inside a line.
  lemma {:induction false} SplitLines(s: string)
    ensures forall line <- Split(s) :: '\n' !in line
  {
    if |s| > 0 {
      SplitLines(s[1..]);
      var rest := Split(s[1..]);
      assert rest[0] in rest;
      forall line | line in Split(s) ensures '\n' !in line {
        assert s[0] != '\n' && line in rest[1..] ==> line in rest;
      }
    }
  }

  // Trimming takes line ends off the end, and all of them.
  lemma {:induction false} TrimRightTrims(s: string)
    ensures var t := TrimRight(s);
            && |t| <= |s| && s[..|t|] == t && (forall i :: |t| <= i < |s| ==> s[i] == '\n')
            && (|t| > 0 ==> t[|t| - 1] != '\n')
  {
    if |s| > 0 && s[|s| - 1] == '\n' {
      TrimRightTrims(s[..|s| - 1]);
    }
  }
}
