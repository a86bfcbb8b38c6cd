/** Splitting and joining strings. */
module Strings {

  /** Position of the first `c` at or after the start, or the length. */
  function IndexOf(s: string, c: char): (i: nat)
    ensures i <= |s|
    ensures i < |s| ==> s[i] == c
    ensures c !in s[..i]
  {
    if s == "" then 0
    else if s[0] == c then 0
    else
      var i := 1 + IndexOf(s[1..], c);
      assert s[..i] == [s[0]] + s[1..][..i - 1];
      i
  }

  lemma IndexOfIs(s: string, c: char, i: nat)
    requires i <= |s| && c !in s[..i] && (i < |s| ==> s[i] == c)
    ensures IndexOf(s, c) == i
  {
    var j := IndexOf(s, c);
    assert forall k :: 0 <= k < i ==> s[k] in s[..i];
    assert forall k :: 0 <= k < j ==> s[k] in s[..j];
  }

  /** `str.split(c)`: at least one piece. */
  function SplitOn(s: string, c: char): (pieces: seq<string>)
    ensures |pieces| >= 1
    ensures forall p :: p in pieces ==> c !in p
    decreases |s|
  {
    var i := IndexOf(s, c);
    if i == |s| then [s[..i]] else [s[..i]] + SplitOn(s[i + 1..], c)
  }

  /** `sep.join(pieces)`. */
  function Join(pieces: seq<string>, sep: string): string {
    if |pieces| == 0 then ""
    else if |pieces| == 1 then pieces[0]
    else pieces[0] + sep + Join(pieces[1..], sep)
  }

  lemma {:induction false} SplitOfJoin(pieces: seq<string>, c: char)
    requires |pieces| >= 1 && forall p :: p in pieces ==> c !in p
    ensures SplitOn(Join(pieces, [c]), c) == pieces
  {
    var s := Join(pieces, [c]);
    var head := pieces[0];
    assert c !in head;
    assert s[..|head|] == head;
    IndexOfIs(s, c, |head|);
    if |pieces| > 1 {
      SplitOfJoin(pieces[1..], c);
      assert s[|head| + 1..] == Join(pieces[1..], [c]);
    }
  }

  lemma JoinCons(head: string, pieces: seq<string>, sep: string)
    requires pieces != []
    ensures Join([head] + pieces, sep) == head + sep + Join(pieces, sep)
  {
    assert ([head] + pieces)[1..] == pieces;
  }

  lemma {:induction false} JoinOfSplit(s: string, c: char)
    ensures Join(SplitOn(s, c), [c]) == s
    decreases |s|
  {
    hide Join, IndexOf;
    var i := IndexOf(s, c);
    if i < |s| {
      JoinOfSplit(s[i + 1..], c);
      JoinCons(s[..i], SplitOn(s[i + 1..], c), [c]);
      assert s == s[..i] + [c] + s[i + 1..];
    } else {
      JoinOne(s[..i], [c]);
    }
  }

  lemma JoinOne(piece: string, sep: string)
    ensures Join([piece], sep) == piece
  {
  }

  /** A joined string contains only characters of its pieces and separators. */
  lemma {:induction false} JoinChars(pieces: seq<string>, sep: string, ch: char)
    requires ch in Join(pieces, sep)
    ensures ch in sep || exists p :: p in pieces && ch in p
  {
    if |pieces| == 1 {
      assert pieces[0] in pieces;
    } else if |pieces| > 1 {
      assert pieces[0] in pieces;
      if ch !in pieces[0] && ch !in sep {
        JoinChars(pieces[1..], sep, ch);
      }
    }
  }

  predicate IsSpace(c: char) {
    c == ' ' || '\t' <= c <= '\r' || '\U{1C}' <= c <= '\U{1F}'
  }

  predicate IsWord(s: string) {
    s != "" && forall i :: 0 <= i < |s| ==> !IsSpace(s[i])
  }

  function WordLength(s: string): (n: nat)
    ensures n <= |s|
    ensures forall i :: 0 <= i < n ==> !IsSpace(s[i])
    ensures n < |s| ==> IsSpace(s[n])
  {
    if s == "" || IsSpace(s[0]) then 0 else 1 + WordLength(s[1..])
  }

  /** `str.split()`: the maximal runs of non-space characters. */
  function Words(s: string): (words: seq<string>)
    ensures forall w :: w in words ==> IsWord(w)
    decreases |s|
  {
    if s == "" then []
    else if IsSpace(s[0]) then Words(s[1..])
    else
      var n := WordLength(s);
      [s[..n]] + Words(s[n..])
  }

  lemma {:induction false} WordsOfJoin(words: seq<string>)
    requires forall w :: w in words ==> IsWord(w)
    ensures Words(Join(words, " ")) == words
  {
    if |words| > 0 {
      var s := Join(words, " ");
      var head := words[0];
      assert IsWord(head);
      assert s[..|head|] == head;
      assert |words| > 1 ==> s[|head|] == ' ';
      WordLengthIs(s, |head|);
      if |words| > 1 {
        assert s[|head|..][1..] == Join(words[1..], " ");
        WordsOfJoin(words[1..]);
        assert Words(s[|head|..]) == Words(s[|head|..][1..]);
      } else {
        assert s[|head|..] == "";
      }
    }
  }

  lemma WordLengthIs(s: string, n: nat)
    requires n <= |s| && (forall i :: 0 <= i < n ==> !IsSpace(s[i])) && (n < |s| ==> IsSpace(s[n]))
    ensures WordLength(s) == n
  {
  }

  lemma FirstWord(s: string)
    requires s != "" && !IsSpace(s[0])
    ensures WordLength(s) > 0 && Words(s) == [s[..WordLength(s)]] + Words(s[WordLength(s)..])
  {
  }

  lemma SpaceFirst(s: string)
    requires s != "" && IsSpace(s[0])
    ensures Words(s) == Words(s[1..])
  {
  }

  /** Splitting goes by every ASCII white-space character: what stands before one and what stands behind it
      split on their own. */
  lemma {:induction false} WordsOfSum(a: string, c: char, b: string)
    requires c in " \t\n\r\U{0B}\U{0C}\U{1C}\U{1D}\U{1E}\U{1F}"
    ensures Words(a + [c] + b) == Words(a) + Words(b)
    decreases |a|
  {
    hide Words, WordLength;
    var s := a + [c] + b;
    if a == "" {
      SpaceFirst(s);
      assert s[1..] == b;
      assert Words("") == [] by { NoWords(); }
    } else if IsSpace(a[0]) {
      SpaceFirst(a);
      SpaceFirst(s);
      assert s[1..] == a[1..] + [c] + b;
      WordsOfSum(a[1..], c, b);
    } else {
      FirstWord(a);
      FirstWord(s);
      var n := WordLength(a);
      WordLengthIs(s, n);
      assert s[..n] == a[..n] && s[n..] == a[n..] + [c] + b;
      WordsOfSum(a[n..], c, b);
    }
  }

  lemma NoWords()
    ensures Words("") == []
  {
  }
}
