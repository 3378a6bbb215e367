/**
 * The string helpers the core relies on: String.trim, Character.isWhitespace and
 * the Spring StringUtils operations commaDelimitedListToStringArray,
 * tokenizeToStringArray (trimming tokens with String.trim and dropping empty
 * ones) and hasText, written from their documented behaviour.
 */
module JavaText {

  /** Character.isWhitespace: the ASCII controls TAB..CR and FS..US, plus the
      Unicode space, line and paragraph separators other than the no-break ones. */
  predicate IsWhitespace(c: char) {
    c == ' ' || ('\t' <= c <= '\r') || ('\U{001C}' <= c <= '\U{001F}')
    || c == '\U{1680}' || ('\U{2000}' <= c <= '\U{2006}') || ('\U{2008}' <= c <= '\U{200A}')
    || c == '\U{2028}' || c == '\U{2029}' || c == '\U{205F}' || c == '\U{3000}'
  }

  /** The characters String.trim removes: every code point up to U+0020. */
  predicate IsTrimmable(c: char) {
    c <= ' '
  }

  /** Nothing String.trim would remove at either end (the empty string qualifies). */
  predicate IsTrimmed(s: string) {
    s == [] || (!IsTrimmable(s[0]) && !IsTrimmable(s[|s| - 1]))
  }

  /** StringUtils.hasText: some character is not whitespace. */
  predicate HasText(s: string) {
    exists i | 0 <= i < |s| :: !IsWhitespace(s[i])
  }

  function TrimLeading(s: string): (r: string)
    ensures |r| <= |s| && r == s[|s| - |r|..]
    ensures r == [] || !IsTrimmable(r[0])
    ensures forall i :: 0 <= i < |s| - |r| ==> IsTrimmable(s[i])
  {
    if |s| > 0 && IsTrimmable(s[0]) then TrimLeading(s[1..]) else s
  }

  function TrimTrailing(s: string): (r: string)
    ensures |r| <= |s| && r == s[..|r|]
    ensures r == [] || !IsTrimmable(r[|r| - 1])
    ensures forall i :: |r| <= i < |s| ==> IsTrimmable(s[i])
  {
    if |s| > 0 && IsTrimmable(s[|s| - 1]) then TrimTrailing(s[..|s| - 1]) else s
  }

  /** String.trim. */
  function Trim(s: string): (r: string)
  {
    TrimTrailing(TrimLeading(s))
  }

  /** Trimming leaves a trimmed string. */
  lemma TrimIsTrimmed(s: string)
    ensures IsTrimmed(Trim(s))
  {
    var l := TrimLeading(s);
    var r := Trim(s);
    if r != [] {
      assert r[0] == l[0];
    }
  }

  /** A string that is already trimmed is kept as it is. */
  lemma TrimKeepsTrimmed(s: string)
    requires IsTrimmed(s)
    ensures Trim(s) == s
  {
  }

  /** Some character survives String.trim. */
  predicate HasTrimmedText(s: string) {
    exists i | 0 <= i < |s| :: !IsTrimmable(s[i])
  }

  /** Trimming empties exactly the strings made only of trimmable characters. */
  lemma TrimEmptyIffNoText(s: string)
    ensures Trim(s) == [] <==> !HasTrimmedText(s)
  {
    var l := TrimLeading(s);
    var r := Trim(s);
    if HasTrimmedText(s) {
      var i :| 0 <= i < |s| && !IsTrimmable(s[i]);
      assert |s| - |l| <= i;
      assert l[i - (|s| - |l|)] == s[i];
      assert l != [];
      assert r != [] by { assert !IsTrimmable(l[0]); }
    }
    if r != [] {
      assert l[0] == s[|s| - |l|];
      assert !IsTrimmable(s[|s| - |l|]);
    }
  }

  /** Trimming adds no character. */
  lemma TrimAddsNothing(s: string, d: char)
    requires d !in s
    ensures d !in Trim(s)
  {
  }

  /** Split at every occurrence of d, keeping empty pieces: the pieces of
      String.indexOf-driven splitting, as in StringUtils.delimitedListToStringArray
      for a non-empty input. */
  function SplitOn(s: string, d: char): (r: seq<string>)
    ensures |r| >= 1
  {
    if s == [] then [""]
    else
      var rest := SplitOn(s[1..], d);
      if s[0] == d then [""] + rest else [[s[0]] + rest[0]] + rest[1..]
  }

  /** Glue pieces back together with d in between. */
  function Join(pieces: seq<string>, d: char): string
  {
    if |pieces| == 0 then ""
    else if |pieces| == 1 then pieces[0]
    else pieces[0] + [d] + Join(pieces[1..], d)
  }

  /** Splitting is undone by joining. */
  lemma {:induction false} JoinSplitOn(s: string, d: char)
    ensures Join(SplitOn(s, d), d) == s
  {
    if s != [] {
      var rest := SplitOn(s[1..], d);
      var r := SplitOn(s, d);
      JoinSplitOn(s[1..], d);
      if s[0] != d {
        if |rest| == 1 {
          assert Join(r, d) == [s[0]] + rest[0];
        } else {
          assert r[1..] == rest[1..];
          assert Join(r, d) == r[0] + [d] + Join(rest[1..], d);
        }
      } else {
        assert r[1..] == rest;
      }
      assert s == [s[0]] + s[1..];
    }
  }

  /** No piece holds the delimiter. */
  lemma {:induction false} SplitOnPiecesFree(s: string, d: char)
    ensures forall i :: 0 <= i < |SplitOn(s, d)| ==> d !in SplitOn(s, d)[i]
  {
    if s != [] {
      var rest := SplitOn(s[1..], d);
      var r := SplitOn(s, d);
      SplitOnPiecesFree(s[1..], d);
      if s[0] != d {
        forall i | 0 <= i < |r| ensures d !in r[i] {
          if i > 0 { assert r[i] == rest[i]; }
          else { assert r[0] == [s[0]] + rest[0]; }
        }
      } else {
        forall i | 0 <= i < |r| ensures d !in r[i] {
          if i > 0 { assert r[i] == rest[i - 1]; }
        }
      }
    }
  }

  /** There is one piece more than there are delimiters. */
  lemma {:induction false} SplitOnCount(s: string, d: char)
    ensures |SplitOn(s, d)| == multiset(s)[d] + 1
  {
    if s != [] {
      SplitOnCount(s[1..], d);
      assert s == [s[0]] + s[1..];
      assert multiset(s) == multiset{s[0]} + multiset(s[1..]);
    }
  }

  /** A string without the delimiter is a single piece. */
  lemma {:induction false} SplitOnNoDelimiter(s: string, d: char)
    requires d !in s
    ensures SplitOn(s, d) == [s]
  {
    if s != [] {
      SplitOnNoDelimiter(s[1..], d);
      assert [s[0]] + s[1..] == s;
    }
  }

  /** A delimiter after a delimiter-free prefix ends the first piece there. */
  lemma {:induction false} SplitOnPrefix(a: string, b: string, d: char)
    requires d !in a
    ensures SplitOn(a + [d] + b, d) == [a] + SplitOn(b, d)
  {
    if a == [] {
      assert a + [d] + b == [d] + b;
      assert ([d] + b)[1..] == b;
    } else {
      assert (a + [d] + b)[1..] == a[1..] + [d] + b;
      SplitOnPrefix(a[1..], b, d);
      assert [a[0]] + a[1..] == a;
    }
  }

  /** Joining delimiter-free pieces is undone by splitting. */
  lemma {:induction false} SplitJoin(pieces: seq<string>, d: char)
    requires |pieces| >= 1
    requires forall i :: 0 <= i < |pieces| ==> d !in pieces[i]
    ensures SplitOn(Join(pieces, d), d) == pieces
    decreases |pieces|
  {
    if |pieces| == 1 {
      SplitOnNoDelimiter(pieces[0], d);
    } else {
      var rest := pieces[1..];
      assert forall i :: 0 <= i < |rest| ==> rest[i] == pieces[i + 1];
      SplitJoin(rest, d);
      SplitOnPrefix(pieces[0], Join(rest, d), d);
      assert pieces == [pieces[0]] + rest;
    }
  }

  /** Two or more pieces join into a string holding the delimiter. */
  lemma JoinHasDelimiter(pieces: seq<string>, d: char)
    requires |pieces| >= 2
    ensures d in Join(pieces, d)
  {
    assert Join(pieces, d) == pieces[0] + [d] + Join(pieces[1..], d);
    assert (pieces[0] + [d] + Join(pieces[1..], d))[|pieces[0]|] == d;
  }

  /** StringUtils.commaDelimitedListToStringArray: no fields for the empty
      string, otherwise every comma-separated field, empty ones included. */
  function CommaDelimitedList(s: string): (r: seq<string>)
  {
    if s == "" then [] else SplitOn(s, ',')
  }

  /** Keep the trimmed pieces that are still non-empty. */
  function TrimAndDropEmpty(pieces: seq<string>): seq<string>
  {
    if pieces == [] then []
    else
      var t := Trim(pieces[0]);
      if t == "" then TrimAndDropEmpty(pieces[1..]) else [t] + TrimAndDropEmpty(pieces[1..])
  }

  /** StringUtils.tokenizeToStringArray(s, [d]): the maximal runs of characters
      other than d (java.util.StringTokenizer), each trimmed, empty ones dropped. */
  function Tokenize(s: string, d: char): seq<string>
  {
    TrimAndDropEmpty(SplitOn(s, d))
  }

  lemma {:induction false} TrimAndDropEmptyTokens(pieces: seq<string>, d: char)
    requires forall i :: 0 <= i < |pieces| ==> d !in pieces[i]
    ensures forall i :: 0 <= i < |TrimAndDropEmpty(pieces)| ==>
      var t := TrimAndDropEmpty(pieces)[i]; t != "" && IsTrimmed(t) && d !in t
  {
    if pieces != [] {
      TrimAndDropEmptyTokens(pieces[1..], d);
      TrimIsTrimmed(pieces[0]);
      TrimAddsNothing(pieces[0], d);
      var rest := TrimAndDropEmpty(pieces[1..]);
      var t := Trim(pieces[0]);
      if t != "" {
        var r := TrimAndDropEmpty(pieces);
        assert r == [t] + rest;
        forall i | 0 <= i < |r| ensures r[i] != "" && IsTrimmed(r[i]) && d !in r[i] {
          if i > 0 { assert r[i] == rest[i - 1]; }
        }
      }
    }
  }

  /** Every token is non-empty, trimmed and free of the delimiter. */
  lemma TokenizeTokens(s: string, d: char)
    ensures forall i :: 0 <= i < |Tokenize(s, d)| ==>
      var t := Tokenize(s, d)[i]; t != "" && IsTrimmed(t) && d !in t
  {
    SplitOnPiecesFree(s, d);
    TrimAndDropEmptyTokens(SplitOn(s, d), d);
  }

  /** "name=value" with trimmed, delimiter-free, non-empty sides tokenizes to its two sides. */
  lemma TokenizePair(a: string, b: string, d: char)
    requires a != "" && IsTrimmed(a) && d !in a
    requires b != "" && IsTrimmed(b) && d !in b
    ensures Tokenize(a + [d] + b, d) == [a, b]
  {
    SplitOnPrefix(a, b, d);
    SplitOnNoDelimiter(b, d);
    TrimKeepsTrimmed(a);
    TrimKeepsTrimmed(b);
    assert SplitOn(a + [d] + b, d) == [a, b];
    var ps := [a, b];
    assert ps[1..] == [b];
    assert TrimAndDropEmpty([b]) == [b] by { assert [b][1..] == []; }
  }

  /** A trimmed word without the delimiter is its own single token. */
  lemma TokenizeWord(a: string, d: char)
    requires a != "" && IsTrimmed(a) && d !in a
    ensures Tokenize(a, d) == [a]
  {
    SplitOnNoDelimiter(a, d);
    TrimKeepsTrimmed(a);
    assert TrimAndDropEmpty([a]) == [a] by { assert [a][1..] == []; }
  }

  /** A trimmed key followed by the delimiter and nothing else is a single
      token: the empty piece after the delimiter is dropped. */
  lemma TokenizeKeyOnly(a: string, d: char)
    requires a != "" && IsTrimmed(a) && d !in a
    ensures Tokenize(a + [d], d) == [a]
  {
    assert SplitOn(a + [d], d) == [a, ""] by {
      SplitOnPrefix(a, "", d);
      assert a + [d] + "" == a + [d];
      assert SplitOn("", d) == [""];
    }
    assert TrimAndDropEmpty([""]) == [] by {
      assert Trim("") == "";
      assert [""][1..] == [];
    }
    assert TrimAndDropEmpty([a, ""]) == [a] by {
      TrimKeepsTrimmed(a);
      assert [a, ""][1..] == [""];
    }
  }
}
