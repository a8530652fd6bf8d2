/**
 * The two string operations the profile handler applies to the `skills`
 * field: `String.prototype.split` with a one-character separator and
 * `String.prototype.trim`.
 */
module JsString {

  /** The characters `trim` removes: ECMAScript WhiteSpace and LineTerminator. */
  predicate IsWhitespace(c: char)
  {
    || c == '\t' || c == '\n' || c == '\U{000B}' || c == '\U{000C}' || c == '\r'
    || c == ' ' || c == '\U{00A0}' || c == '\U{1680}'
    || ('\U{2000}' <= c <= '\U{200A}')
    || c == '\U{2028}' || c == '\U{2029}' || c == '\U{202F}' || c == '\U{205F}'
    || c == '\U{3000}' || c == '\U{FEFF}'
  }

  ghost predicate AllWhitespace(s: string)
  {
    forall k | 0 <= k < |s| :: IsWhitespace(s[k])
  }

  /** Neither end of `s` is whitespace. */
  predicate IsTrimmed(s: string)
  {
    s == [] || (!IsWhitespace(s[0]) && !IsWhitespace(s[|s| - 1]))
  }

  /** The number of occurrences of `c` in `s`. */
  function Count(s: string, c: char): (n: nat)
    ensures n <= |s|
    ensures n == 0 <==> c !in s
  {
    if s == [] then 0
    else (if s[0] == c then 1 else 0) + Count(s[1..], c)
  }

  /** The inverse of `split`: the pieces with `sep` between consecutive ones. */
  function Join(pieces: seq<string>, sep: char): string
  {
    if |pieces| == 0 then ""
    else if |pieces| == 1 then pieces[0]
    else pieces[0] + [sep] + Join(pieces[1..], sep)
  }

  /**
   * `s.split(sep)`: the maximal runs of `s` between occurrences of `sep`,
   * in order; always one more piece than there are separators, so the
   * empty string splits into one empty piece.
   */
  function Split(s: string, sep: char): (pieces: seq<string>)
    ensures |pieces| == Count(s, sep) + 1
    ensures forall k | 0 <= k < |pieces| :: sep !in pieces[k]
    decreases |s|
  {
    if s == [] then [""]
    else
      var rest := Split(s[1..], sep);
      if s[0] == sep then [""] + rest
      else [[s[0]] + rest[0]] + rest[1..]
  }

  /** Joining the pieces of a split gives back the string. */
  lemma {:induction false} JoinSplit(s: string, sep: char)
    ensures Join(Split(s, sep), sep) == s
    decreases |s|
  {
    if s != [] {
      var rest := Split(s[1..], sep);
      JoinSplit(s[1..], sep);
      HeadTail(s);
      if s[0] == sep {
        assert Split(s, sep) == [""] + rest;
        JoinCons("", rest, sep);
        EmptyPrefix("", [sep]);
      } else {
        assert Split(s, sep) == [[s[0]] + rest[0]] + rest[1..];
        JoinGrowFirst(s[0], rest, sep);
      }
    }
  }

  /** Joining a piece in front of a non-empty list of pieces puts one separator between. */
  lemma JoinCons(p: string, pieces: seq<string>, sep: char)
    requires pieces != []
    ensures Join([p] + pieces, sep) == p + [sep] + Join(pieces, sep)
  {
    assert ([p] + pieces)[1..] == pieces;
  }

  /** Prepending a character to the first piece prepends it to the join. */
  lemma JoinGrowFirst(c: char, pieces: seq<string>, sep: char)
    requires pieces != []
    ensures Join([[c] + pieces[0]] + pieces[1..], sep) == [c] + Join(pieces, sep)
  {
    if |pieces| == 1 {
      assert [[c] + pieces[0]] + pieces[1..] == [[c] + pieces[0]];
    } else {
      JoinCons([c] + pieces[0], pieces[1..], sep);
      HeadTail(pieces);
      JoinCons(pieces[0], pieces[1..], sep);
      assert [c] + pieces[0] + [sep] + Join(pieces[1..], sep) == [c] + (pieces[0] + [sep] + Join(pieces[1..], sep));
    }
  }

  /** Splitting a string that starts with separator-free text `a`. */
  lemma {:induction false} SplitAfterPrefix(a: string, t: string, sep: char)
    requires sep !in a
    ensures Split(a + t, sep) == [a + Split(t, sep)[0]] + Split(t, sep)[1..]
    decreases |a|
  {
    if a == [] {
      var rest := Split(t, sep);
      EmptyPrefix(a, t);
      EmptyPrefix(a, rest[0]);
      HeadTail(rest);
    } else {
      SplitAfterPrefix(a[1..], t, sep);
      SplitAfterPrefixStep(a, t, sep);
    }
  }

  /** The inductive step of `SplitAfterPrefix`: one more leading character. */
  lemma SplitAfterPrefixStep(a: string, t: string, sep: char)
    requires a != [] && sep !in a
    requires Split(a[1..] + t, sep) == [a[1..] + Split(t, sep)[0]] + Split(t, sep)[1..]
    ensures Split(a + t, sep) == [a + Split(t, sep)[0]] + Split(t, sep)[1..]
  {
    var b := a[1..];
    ConcatAfterHead(a, t);
    SplitNonSeparator(a[0], b + t, sep);
    FirstPieceGrows(a[0], b, Split(b + t, sep), Split(t, sep), Split(a + t, sep));
    HeadTail(a);
  }

  lemma ConcatAfterHead<T>(a: seq<T>, t: seq<T>)
    requires a != []
    ensures a + t == [a[0]] + (a[1..] + t)
  {
    assert a == [a[0]] + a[1..];
  }

  /** Prepending `c` to the first piece of a piece list whose first piece already starts with `b`. */
  lemma FirstPieceGrows<T>(c: T, b: seq<T>, r: seq<seq<T>>, rest: seq<seq<T>>, s: seq<seq<T>>)
    requires |rest| >= 1
    requires r == [b + rest[0]] + rest[1..]
    requires s == [[c] + r[0]] + r[1..]
    ensures s == [([c] + b) + rest[0]] + rest[1..]
  {
    assert r[0] == b + rest[0];
    assert r[1..] == rest[1..];
    assert [c] + (b + rest[0]) == ([c] + b) + rest[0];
  }

  lemma EmptyPrefix<T>(a: seq<T>, t: seq<T>)
    requires a == []
    ensures a + t == t
  {
  }

  lemma HeadTail<T>(xs: seq<T>)
    requires xs != []
    ensures [xs[0]] + xs[1..] == xs
  {
  }

  /** A leading character other than the separator joins the first piece. */
  lemma SplitNonSeparator(c: char, s: string, sep: char)
    requires c != sep
    ensures Split([c] + s, sep) == [[c] + Split(s, sep)[0]] + Split(s, sep)[1..]
  {
    assert ([c] + s)[1..] == s;
  }

  /** Splitting the join of separator-free pieces gives back the pieces. */
  lemma {:induction false} SplitJoin(pieces: seq<string>, sep: char)
    requires |pieces| >= 1
    requires forall k | 0 <= k < |pieces| :: sep !in pieces[k]
    ensures Split(Join(pieces, sep), sep) == pieces
    decreases |pieces|
  {
    if |pieces| == 1 {
      SplitAfterPrefix(pieces[0], "", sep);
      assert pieces[0] + "" == pieces[0];
    } else {
      var tail := Join(pieces[1..], sep);
      assert Join(pieces, sep) == pieces[0] + ([sep] + tail);
      SplitJoin(pieces[1..], sep);
      var after := Split([sep] + tail, sep);
      assert ([sep] + tail)[1..] == tail;
      assert after == [""] + pieces[1..];
      SplitAfterPrefix(pieces[0], [sep] + tail, sep);
      assert after[0] == "" && after[1..] == pieces[1..];
      assert pieces[0] + "" == pieces[0];
      assert pieces == [pieces[0] + ""] + pieces[1..];
    }
  }

  /** `s.trimStart()`: drops the leading whitespace and nothing else. */
  function TrimStart(s: string): (r: string)
    ensures |r| <= |s| && r == s[|s| - |r|..]
    ensures forall k | 0 <= k < |s| - |r| :: IsWhitespace(s[k])
    ensures r == [] || !IsWhitespace(r[0])
  {
    if s != [] && IsWhitespace(s[0]) then TrimStart(s[1..]) else s
  }

  /** `s.trimEnd()`: drops the trailing whitespace and nothing else. */
  function TrimEnd(s: string): (r: string)
    ensures |r| <= |s| && r == s[..|r|]
    ensures forall k | |r| <= k < |s| :: IsWhitespace(s[k])
    ensures r == [] || !IsWhitespace(r[|r| - 1])
  {
    if s != [] && IsWhitespace(s[|s| - 1]) then TrimEnd(s[..|s| - 1]) else s
  }

  /** `s.trim()`: a substring of `s` with no whitespace at either end. */
  function Trim(s: string): (r: string)
    ensures IsTrimmed(r)
    ensures forall c | c in r :: c in s
  {
    TrimEnd(TrimStart(s))
  }

  lemma {:induction false} TrimStartAfterWhitespace(a: string, t: string)
    requires AllWhitespace(a)
    requires t == [] || !IsWhitespace(t[0])
    ensures TrimStart(a + t) == t
    decreases |a|
  {
    if a != [] {
      assert (a + t)[1..] == a[1..] + t;
      TrimStartAfterWhitespace(a[1..], t);
    }
  }

  lemma {:induction false} TrimEndBeforeWhitespace(t: string, b: string)
    requires AllWhitespace(b)
    requires t == [] || !IsWhitespace(t[|t| - 1])
    ensures TrimEnd(t + b) == t
    decreases |b|
  {
    if b != [] {
      assert (t + b)[..|t + b| - 1] == t + b[..|b| - 1];
      TrimEndBeforeWhitespace(t, b[..|b| - 1]);
    }
  }

  /**
   * `trim` is characterised by what it keeps: for any text `m` with no
   * whitespace at its ends, surrounded by whitespace only, `trim` gives `m`.
   */
  lemma TrimKeepsTrimmedCore(a: string, m: string, b: string)
    requires AllWhitespace(a) && AllWhitespace(b) && IsTrimmed(m)
    ensures Trim(a + m + b) == m
  {
    if m == [] {
      assert a + m + b == (a + b) + "";
      assert AllWhitespace(a + b);
      TrimStartAfterWhitespace(a + b, "");
    } else {
      assert a + m + b == a + (m + b);
      TrimStartAfterWhitespace(a, m + b);
      TrimEndBeforeWhitespace(m, b);
    }
  }

  /** Trimming twice is trimming once. */
  lemma TrimIdempotent(s: string)
    ensures Trim(Trim(s)) == Trim(s)
  {
    var t := Trim(s);
    assert TrimStart(t) == t;
    assert TrimEnd(t) == t;
  }
}
