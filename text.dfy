/** The three routines of Go's `strings` package that the classifier relies on:
    `Split` with a one-character separator, `ToUpper` and `Title`, the last two
    restricted to ASCII. */
module Text {

  /** `strings.Split(s, string(sep))`: the pieces of `s` between occurrences of
      `sep`, so one more piece than there are separators; `""` splits to `[""]`. */
  function Split(s: string, sep: char): (r: seq<string>)
    ensures |r| >= 1
    ensures sep in s <==> |r| > 1
    ensures forall i :: 0 <= i < |r| ==> sep !in r[i]
    decreases |s|
  {
    if s == [] then [[]]
    else
      var rest := Split(s[1..], sep);
      assert sep in s <==> s[0] == sep || sep in s[1..];
      if s[0] == sep then [[]] + rest
      else [[s[0]] + rest[0]] + rest[1..]
  }

  /** `strings.Join(parts, string(sep))`, the inverse of `Split`. */
  function Join(parts: seq<string>, sep: char): string
    requires |parts| >= 1
    decreases |parts|
  {
    if |parts| == 1 then parts[0] else parts[0] + [sep] + Join(parts[1..], sep)
  }

  /** Joining the pieces of a split gives back the original string. */
  lemma {:induction false} SplitThenJoin(s: string, sep: char)
    ensures Join(Split(s, sep), sep) == s
    decreases |s|
  {
    if s != [] {
      var rest := Split(s[1..], sep);
      SplitThenJoin(s[1..], sep);
      if s[0] != sep && |rest| > 1 {
        var r := Split(s, sep);
        assert r[1..] == rest[1..];
        assert Join(rest, sep) == rest[0] + [sep] + Join(rest[1..], sep);
      }
    }
  }

  /** A string without the separator is a single piece. */
  lemma {:induction false} SplitWithoutSep(a: string, sep: char)
    requires sep !in a
    ensures Split(a, sep) == [a]
    decreases |a|
  {
    if a != [] {
      SplitWithoutSep(a[1..], sep);
      assert [a[0]] + a[1..] == a;
    }
  }

  /** Splitting at the first separator: everything before it is the first piece. */
  lemma {:induction false} SplitAtFirst(a: string, b: string, sep: char)
    requires sep !in a
    ensures Split(a + [sep] + b, sep) == [a] + Split(b, sep)
    decreases |a|
  {
    var s := a + [sep] + b;
    if a == [] {
      assert s[1..] == b;
    } else {
      assert s[1..] == a[1..] + [sep] + b;
      SplitAtFirst(a[1..], b, sep);
      assert [a[0]] + a[1..] == a;
    }
  }

  /** Splitting a join of separator-free pieces gives back the pieces. */
  lemma {:induction false} JoinThenSplit(parts: seq<string>, sep: char)
    requires |parts| >= 1
    requires forall i :: 0 <= i < |parts| ==> sep !in parts[i]
    ensures Split(Join(parts, sep), sep) == parts
    decreases |parts|
  {
    if |parts| == 1 {
      SplitWithoutSep(parts[0], sep);
    } else {
      JoinThenSplit(parts[1..], sep);
      SplitAtFirst(parts[0], Join(parts[1..], sep), sep);
      assert [parts[0]] + parts[1..] == parts;
    }
  }

  /** `unicode.ToUpper` on ASCII letters; every other character is left alone. */
  function UpperChar(c: char): (r: char)
    ensures !('a' <= r <= 'z')
    ensures 'a' <= c <= 'z' ==> 'A' <= r <= 'Z'
    ensures r != c ==> 'a' <= c <= 'z'
  {
    if 'a' <= c <= 'z' then (c as int - 32) as char else c
  }

  /** `strings.ToUpper`, character by character. */
  function Upper(s: string): (r: string)
    ensures |r| == |s|
    ensures forall i :: 0 <= i < |s| ==> r[i] == UpperChar(s[i])
    decreases |s|
  {
    if s == [] then [] else [UpperChar(s[0])] + Upper(s[1..])
  }

  /** The word-boundary test of `strings.Title` for ASCII: anything but a letter,
      a digit or `_` separates words. */
  predicate IsSeparator(c: char)
  {
    c as int < 128 && !('0' <= c <= '9' || 'a' <= c <= 'z' || 'A' <= c <= 'Z' || c == '_')
  }

  /** `strings.Title` with `prev` the character before `s`. */
  function TitleAfter(prev: char, s: string): (r: string)
    ensures |r| == |s|
    ensures s != [] ==> r[0] == if IsSeparator(prev) then UpperChar(s[0]) else s[0]
    ensures forall i :: 1 <= i < |s| ==>
      r[i] == if IsSeparator(s[i - 1]) then UpperChar(s[i]) else s[i]
    decreases |s|
  {
    if s == [] then []
    else [if IsSeparator(prev) then UpperChar(s[0]) else s[0]] + TitleAfter(s[0], s[1..])
  }

  /** `strings.Title`: the first letter of every word is upper-cased, the
      rest of the string is unchanged. */
  function Title(s: string): (r: string)
    ensures |r| == |s|
    ensures s != [] ==> r[0] == UpperChar(s[0])
    ensures forall i :: 1 <= i < |s| ==>
      r[i] == if IsSeparator(s[i - 1]) then UpperChar(s[i]) else s[i]
  {
    TitleAfter(' ', s)
  }

  /** A single word (no separator in it) gets only its first letter upper-cased. */
  lemma TitleOfWord(s: string)
    requires forall i :: 0 <= i < |s| ==> !IsSeparator(s[i])
    ensures Title(s) == if s == [] then [] else [UpperChar(s[0])] + s[1..]
  {
    if s != [] {
      var r := [UpperChar(s[0])] + s[1..];
      forall i | 0 <= i < |s|
        ensures Title(s)[i] == r[i]
      {
        if i > 0 {
          assert !IsSeparator(s[i - 1]);
        }
      }
    }
  }
}
