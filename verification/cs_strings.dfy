/** The few members of .NET's `System.String` the modelled code relies on,
    with their edge cases (a missing character, an out-of-range argument). */
module CsStrings {
  import opened Outcomes

  /** `String.IndexOf(char)`: the first position of `c`, or -1 when absent. */
  function IndexOf(s: string, c: char): (i: int)
    ensures -1 <= i < |s|
    ensures i == -1 <==> c !in s
    ensures 0 <= i ==> s[i] == c && c !in s[..i]
  {
    if |s| == 0 then -1
    else if s[0] == c then 0
    else
      var j := IndexOf(s[1..], c);
      if j == -1 then -1
      else
        assert s[..j + 1] == [s[0]] + s[1..][..j];
        j + 1
  }

  /** `String.LastIndexOf`: the last position of `c`, or -1 when absent. */
  function LastIndexOf(s: string, c: char): (i: int)
    ensures -1 <= i < |s|
    ensures i == -1 <==> c !in s
    ensures 0 <= i ==> s[i] == c && c !in s[i + 1..]
  {
    if |s| == 0 then -1
    else if s[|s| - 1] == c then |s| - 1
    else
      var j := LastIndexOf(s[..|s| - 1], c);
      assert s == s[..|s| - 1] + [s[|s| - 1]];
      if j == -1 then -1
      else
        assert s[j + 1..] == s[..|s| - 1][j + 1..] + [s[|s| - 1]];
        j
  }

  /** `String.Substring(start, length)`: throws unless the range lies inside `s`. */
  function Substring(s: string, start: int, length: int): (r: Result<string>)
    ensures r.Success? <==> 0 <= start && 0 <= length && start + length <= |s|
    ensures r.Failure? ==> r.error == ArgumentOutOfRange
    ensures r.Success? ==> |r.value| == length
    ensures r.Success? ==> forall k :: 0 <= k < length ==> r.value[k] == s[start + k]
  {
    if 0 <= start && 0 <= length && start + length <= |s| then Success(s[start..start + length])
    else Failure(ArgumentOutOfRange)
  }

  /** `String.Substring(start)`: the suffix from `start`; throws unless `0 <= start <= |s|`. */
  function SubstringFrom(s: string, start: int): (r: Result<string>)
    ensures r.Success? <==> 0 <= start <= |s|
    ensures r.Failure? ==> r.error == ArgumentOutOfRange
    ensures r.Success? ==> s[..start] + r.value == s
  {
    if 0 <= start <= |s| then
      assert s[..start] + s[start..] == s;
      Success(s[start..])
    else Failure(ArgumentOutOfRange)
  }

  /** Number of occurrences of `c` in `s`. */
  function Count(s: string, c: char): nat
  {
    if |s| == 0 then 0
    else (if s[0] == c then 1 else 0) + Count(s[1..], c)
  }

  /** The pieces joined back with `c` between consecutive ones. */
  function Join(pieces: seq<string>, c: char): string
  {
    if |pieces| == 0 then ""
    else if |pieces| == 1 then pieces[0]
    else pieces[0] + [c] + Join(pieces[1..], c)
  }

  /** `String.Split(char)`: one piece more than there are separators, none
      of them holding the separator (pieces may be empty), and together with
      the separators they spell the string. */
  function Split(s: string, c: char): (pieces: seq<string>)
    ensures |pieces| == Count(s, c) + 1
    ensures forall k :: 0 <= k < |pieces| ==> c !in pieces[k]
    ensures Join(pieces, c) == s
  {
    SplitProperties(s, c);
    SplitPieces(s, c)
  }

  /** The recursion behind `Split`: the text up to the first separator,
      then the pieces of the rest. */
  function SplitPieces(s: string, c: char): (pieces: seq<string>)
    decreases |s|
  {
    var i := IndexOf(s, c);
    if i == -1 then [s] else [s[..i]] + SplitPieces(s[i + 1..], c)
  }

  /** Joining the pieces gives back the string; no piece holds the
      separator; there is one piece more than there are separators. */
  lemma {:induction false} SplitProperties(s: string, c: char)
    decreases |s|
    ensures |SplitPieces(s, c)| == Count(s, c) + 1
    ensures forall k :: 0 <= k < |SplitPieces(s, c)| ==> c !in SplitPieces(s, c)[k]
    ensures Join(SplitPieces(s, c), c) == s
  {
    var i := IndexOf(s, c);
    if i == -1 {
      CountAbsent(s, c);
    } else {
      var rest := s[i + 1..];
      SplitProperties(rest, c);
      CountAround(s, c, i);
      var ps := SplitPieces(s, c);
      assert ps == [s[..i]] + SplitPieces(rest, c);
      assert forall k :: 0 < k < |ps| ==> ps[k] == SplitPieces(rest, c)[k - 1];
      assert s == s[..i] + [c] + rest;
    }
  }

  lemma {:induction false} CountAbsent(s: string, c: char)
    requires c !in s
    ensures Count(s, c) == 0
  {
    if |s| > 0 {
      assert c !in s[1..];
      CountAbsent(s[1..], c);
    }
  }

  lemma {:induction false} CountAppend(a: string, b: string, c: char)
    ensures Count(a + b, c) == Count(a, c) + Count(b, c)
  {
    if |a| == 0 {
      assert a + b == b;
    } else {
      assert (a + b)[1..] == a[1..] + b;
      CountAppend(a[1..], b, c);
    }
  }

  lemma CountAround(s: string, c: char, i: int)
    requires 0 <= i < |s| && s[i] == c && c !in s[..i]
    ensures Count(s, c) == Count(s[i + 1..], c) + 1
  {
    assert s == s[..i] + ([c] + s[i + 1..]);
    CountAppend(s[..i], [c] + s[i + 1..], c);
    CountAbsent(s[..i], c);
    assert ([c] + s[i + 1..])[1..] == s[i + 1..];
  }

  /** Splitting undoes joining: pieces free of the separator come back unchanged. */
  lemma {:induction false} SplitJoin(pieces: seq<string>, c: char)
    requires |pieces| >= 1
    requires forall k :: 0 <= k < |pieces| ==> c !in pieces[k]
    ensures SplitPieces(Join(pieces, c), c) == pieces
    ensures Split(Join(pieces, c), c) == pieces
  {
    if |pieces| == 1 {
      assert IndexOf(pieces[0], c) == -1;
    } else {
      var s := Join(pieces, c);
      assert s == pieces[0] + [c] + Join(pieces[1..], c);
      var i := |pieces[0]|;
      assert s[i] == c && s[..i] == pieces[0];
      assert IndexOf(s, c) == i;
      assert s[i + 1..] == Join(pieces[1..], c);
      assert SplitPieces(s, c) == [s[..i]] + SplitPieces(s[i + 1..], c);
      assert forall k :: 0 <= k < |pieces[1..]| ==> pieces[1..][k] == pieces[k + 1];
      SplitJoin(pieces[1..], c);
      assert pieces == [pieces[0]] + pieces[1..];
    }
  }
}
