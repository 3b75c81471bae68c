/**
 * Python's `str.split` with an explicit one-character separator, and its
 * inverse `sep.join`. With an explicit separator Python keeps empty pieces:
 * "a//b" gives three pieces and "" gives one.
 */
module Text {

  /** `s.split(sep)`. */
  function Split(s: string, sep: char): (parts: seq<string>)
    ensures |parts| >= 1
    decreases |s|
  {
    if s == [] then [""]
    else
      var rest := Split(s[1..], sep);
      if s[0] == sep then [""] + rest
      else [[s[0]] + rest[0]] + rest[1..]
  }

  /** `sep.join(parts)`. */
  function Join(parts: seq<string>, sep: char): string
    requires |parts| >= 1
    decreases |parts|
  {
    if |parts| == 1 then parts[0] else parts[0] + [sep] + Join(parts[1..], sep)
  }

  function Last<T>(s: seq<T>): T
    requires |s| >= 1
  {
    s[|s| - 1]
  }

  lemma JoinConsHead(c: char, p: string, ps: seq<string>, sep: char)
    ensures Join([[c] + p] + ps, sep) == [c] + Join([p] + ps, sep)
  {
    if ps != [] {
      assert ([[c] + p] + ps)[1..] == ps;
      assert ([p] + ps)[1..] == ps;
    }
  }

  /** Joining the pieces gives back the string. */
  lemma {:induction false} SplitJoin(s: string, sep: char)
    ensures Join(Split(s, sep), sep) == s
    decreases |s|
  {
    if s != [] {
      var rest := Split(s[1..], sep);
      SplitJoin(s[1..], sep);
      if s[0] == sep {
        assert ([""] + rest)[1..] == rest;
      } else {
        JoinConsHead(s[0], rest[0], rest[1..], sep);
        assert [rest[0]] + rest[1..] == rest;
      }
    }
  }

  /** No piece contains the separator. */
  lemma {:induction false} SplitPiecesHaveNoSep(s: string, sep: char)
    ensures forall k :: 0 <= k < |Split(s, sep)| ==> sep !in Split(s, sep)[k]
    decreases |s|
  {
    if s != [] {
      SplitPiecesHaveNoSep(s[1..], sep);
    }
  }

  /** There is one more piece than there are separators. */
  lemma {:induction false} SplitCount(s: string, sep: char)
    ensures |Split(s, sep)| == multiset(s)[sep] + 1
    decreases |s|
  {
    if s != [] {
      SplitCount(s[1..], sep);
      assert s == [s[0]] + s[1..];
    }
  }

  /** A string without the separator is a single piece; one separator after it starts a new piece. */
  lemma {:induction false} SplitAfterPiece(p: string, t: string, sep: char)
    requires sep !in p
    ensures Split(p + [sep] + t, sep) == [p] + Split(t, sep)
    ensures Split(p, sep) == [p]
    decreases |p|
  {
    if p != [] {
      SplitAfterPiece(p[1..], t, sep);
      assert (p + [sep] + t)[1..] == p[1..] + [sep] + t;
      assert [p[0]] + p[1..] == p;
    } else {
      assert [] + [sep] + t == [sep] + t;
      assert ([sep] + t)[1..] == t;
    }
  }

  /** Splitting a join of separator-free pieces gives back the pieces. */
  lemma {:induction false} JoinSplit(parts: seq<string>, sep: char)
    requires |parts| >= 1
    requires forall k :: 0 <= k < |parts| ==> sep !in parts[k]
    ensures Split(Join(parts, sep), sep) == parts
    decreases |parts|
  {
    SplitAfterPiece(parts[0], [], sep);
    if |parts| > 1 {
      JoinSplit(parts[1..], sep);
      SplitAfterPiece(parts[0], Join(parts[1..], sep), sep);
      assert [parts[0]] + parts[1..] == parts;
    }
  }

  /** A join ends with its last piece, after the separator unless there is only one piece. */
  lemma {:induction false} JoinLast(parts: seq<string>, sep: char) returns (pre: string)
    requires |parts| >= 1
    ensures Join(parts, sep) == pre + Last(parts)
    ensures |parts| == 1 ==> pre == []
    ensures |parts| > 1 ==> pre != [] && pre[|pre| - 1] == sep
    decreases |parts|
  {
    if |parts| == 1 {
      pre := [];
    } else {
      var rest := JoinLast(parts[1..], sep);
      pre := parts[0] + [sep] + rest;
      assert Last(parts[1..]) == Last(parts);
      assert Join(parts, sep) == parts[0] + [sep] + (rest + Last(parts));
    }
  }

  /** Joining one more piece appends the separator and the piece. */
  lemma {:induction false} JoinSnoc(parts: seq<string>, q: string, sep: char)
    requires |parts| >= 1
    ensures Join(parts + [q], sep) == Join(parts, sep) + [sep] + q
    decreases |parts|
  {
    if |parts| > 1 {
      assert (parts + [q])[1..] == parts[1..] + [q];
      JoinSnoc(parts[1..], q, sep);
    }
  }

  /** A string ends with its last piece, after a separator unless it is the only piece. */
  lemma SplitLastPiece(s: string, sep: char) returns (pre: string)
    ensures s == pre + Last(Split(s, sep))
    ensures pre == [] || pre[|pre| - 1] == sep
  {
    SplitJoin(s, sep);
    pre := JoinLast(Split(s, sep), sep);
  }

  /** With two pieces or more, a string ends with its last two pieces around a separator. */
  lemma SplitLastTwo(s: string, sep: char) returns (pre: string)
    requires |Split(s, sep)| >= 2
    ensures var p := Split(s, sep); s == pre + p[|p| - 2] + [sep] + p[|p| - 1]
    ensures pre == [] || pre[|pre| - 1] == sep
  {
    var p := Split(s, sep);
    var n := |p|;
    SplitJoin(s, sep);
    assert p[..n - 1] + [p[n - 1]] == p;
    JoinSnoc(p[..n - 1], p[n - 1], sep);
    pre := JoinLast(p[..n - 1], sep);
    assert Last(p[..n - 1]) == p[n - 2];
  }
}
