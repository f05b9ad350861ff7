/** The editor's `CamelCase`: split on `' '`, upper-case the first character
    of every piece, keep the rest, and concatenate. Upper-casing is a
    parameter `upper`: the culture-dependent `ToUpper` is not modelled, and
    one character is assumed to map to one character. */
module CamelCasing {
  import opened Outcomes
  import opened CsStrings

  /** `word[0].ToString().ToUpper() + word.Substring(1)`; `word[0]` throws on
      an empty piece. */
  function Capitalise(upper: char -> char, word: string): (r: Result<string>)
    ensures r.Failure? <==> word == ""
    ensures r.Failure? ==> r.error == IndexOutOfRange
    ensures r.Success? ==> |r.value| == |word| && r.value[0] == upper(word[0]) && r.value[1..] == word[1..]
  {
    if |word| == 0 then Failure(IndexOutOfRange) else Success([upper(word[0])] + word[1..])
  }

  /** The `foreach` over the pieces: the capitalised pieces in order; the
      first empty piece throws. */
  function CapitaliseAll(upper: char -> char, words: seq<string>): (r: Result<string>)
    ensures r.Failure? <==> exists k :: 0 <= k < |words| && words[k] == ""
    ensures r.Failure? ==> r.error == IndexOutOfRange
  {
    if |words| == 0 then Success("")
    else
      match Capitalise(upper, words[0])
      case Failure(e) => Failure(e)
      case Success(first) =>
        match CapitaliseAll(upper, words[1..])
        case Failure(e) =>
          assert exists k :: 0 <= k < |words| && words[k] == "" by {
            var k :| 0 <= k < |words[1..]| && words[1..][k] == "";
            assert words[k + 1] == "";
          }
          Failure(e)
        case Success(rest) =>
          assert forall k :: 0 < k < |words| ==> words[k] == words[1..][k - 1];
          Success(first + rest)
  }

  /** `CamelCase`: throws (`IndexOutOfRange`) exactly when the string is
      not well spaced: empty, or with a leading, trailing or doubled space. */
  function CamelCase(upper: char -> char, str: string): (r: Result<string>)
    ensures r.Failure? <==> !WellSpaced(str)
    ensures r.Failure? ==> r.error == IndexOutOfRange
  {
    SplitNonEmptyIff(str);
    CapitaliseAll(upper, Split(str, ' '))
  }

  /** No piece of the split is empty: the string is non-empty, neither
      starts nor ends with a space, and has no two spaces in a row. */
  predicate WellSpaced(s: string) {
    && |s| > 0
    && s[0] != ' '
    && s[|s| - 1] != ' '
    && forall i :: 0 <= i < |s| - 1 ==> !(s[i] == ' ' && s[i + 1] == ' ')
  }

  /** Reference definition, character by character: every space is dropped
      and every character at the start of a word (`atStart`) is upper-cased. */
  function CamelSpec(upper: char -> char, s: string, atStart: bool): string
  {
    if |s| == 0 then ""
    else if s[0] == ' ' then CamelSpec(upper, s[1..], true)
    else [if atStart then upper(s[0]) else s[0]] + CamelSpec(upper, s[1..], false)
  }

  /** Inside a word nothing changes. */
  lemma {:induction false} CamelSpecInsideWord(upper: char -> char, p: string, t: string)
    requires ' ' !in p
    ensures CamelSpec(upper, p + t, false) == p + CamelSpec(upper, t, false)
  {
    if |p| > 0 {
      assert (p + t)[1..] == p[1..] + t;
      assert ' ' !in p[1..];
      CamelSpecInsideWord(upper, p[1..], t);
      assert p == [p[0]] + p[1..];
    } else {
      assert p + t == t;
    }
  }

  /** A word at the start: its first character upper-cased, the rest kept. */
  lemma CamelSpecOfWord(upper: char -> char, w: string, t: string)
    requires w != "" && ' ' !in w
    ensures CamelSpec(upper, w + t, true) == ([upper(w[0])] + w[1..]) + CamelSpec(upper, t, false)
  {
    var s := w + t;
    assert s[0] == w[0];
    assert s[1..] == w[1..] + t;
    assert ' ' !in w[1..];
    CamelSpecInsideWord(upper, w[1..], t);
  }

  /** `WellSpaced` around the first space at `i`: the part before is a
      non-empty word and the part after is itself well spaced. */
  lemma WellSpacedAtFirstSpace(s: string, i: int)
    requires 0 <= i < |s| && s[i] == ' ' && ' ' !in s[..i]
    ensures WellSpaced(s) <==> i > 0 && WellSpaced(s[i + 1..])
  {
    var rest := s[i + 1..];
    if WellSpaced(s) {
      assert i > 0;
      assert |rest| > 0;
      assert rest[0] != ' ' by { assert rest[0] == s[i + 1]; }
      forall k | 0 <= k < |rest| - 1
        ensures !(rest[k] == ' ' && rest[k + 1] == ' ')
      {
        assert rest[k] == s[i + 1 + k] && rest[k + 1] == s[i + 2 + k];
      }
    }
    if i > 0 && WellSpaced(rest) {
      assert s[0] == s[..i][0];
      assert s[|s| - 1] == rest[|rest| - 1];
      forall k | 0 <= k < |s| - 1
        ensures !(s[k] == ' ' && s[k + 1] == ' ')
      {
        if k < i - 1 {
          assert s[k] == s[..i][k];
        } else if k == i - 1 {
          assert s[k] == s[..i][k];
        } else if k == i {
          assert s[k + 1] == rest[0];
        } else {
          assert s[k] == rest[k - i - 1] && s[k + 1] == rest[k - i];
        }
      }
    }
  }

  /** No piece is empty. */
  predicate NoEmptyPiece(pieces: seq<string>) {
    forall k :: 0 <= k < |pieces| ==> pieces[k] != ""
  }

  lemma NoEmptyPieceCons(p: string, ps: seq<string>)
    ensures NoEmptyPiece([p] + ps) <==> p != "" && NoEmptyPiece(ps)
  {
    var all := [p] + ps;
    assert forall k :: 0 < k < |all| ==> all[k] == ps[k - 1];
    if p != "" && NoEmptyPiece(ps) {
      forall k | 0 <= k < |all| ensures all[k] != "" {
        if k > 0 { assert all[k] == ps[k - 1]; }
      }
    }
    if NoEmptyPiece(all) {
      assert all[0] == p;
      forall k | 0 <= k < |ps| ensures ps[k] != "" {
        assert ps[k] == all[k + 1];
      }
    }
  }

  /** Splitting on spaces yields no empty piece exactly when the string is
      well spaced. */
  lemma {:induction false} SplitNonEmptyIff(s: string)
    decreases |s|
    ensures NoEmptyPiece(SplitPieces(s, ' ')) <==> WellSpaced(s)
  {
    var i := IndexOf(s, ' ');
    if i == -1 {
      assert SplitPieces(s, ' ') == [s];
      forall k | 0 <= k < |s| ensures s[k] != ' ' {
        assert s[k] in s;
      }
      assert [s][0] == s;
      assert NoEmptyPiece([s]) <==> s != "";
      if |s| > 0 {
        assert s[0] != ' ' && s[|s| - 1] != ' ';
        assert WellSpaced(s);
      }
    } else {
      var rest := s[i + 1..];
      SplitNonEmptyIff(rest);
      WellSpacedAtFirstSpace(s, i);
      assert SplitPieces(s, ' ') == [s[..i]] + SplitPieces(rest, ' ');
      NoEmptyPieceCons(s[..i], SplitPieces(rest, ' '));
      assert |s[..i]| == i;
    }
  }

  /** Capitalising and concatenating non-empty, space-free pieces agrees
      with the reference definition on the pieces joined by spaces. */
  lemma {:induction false} CapitaliseAllIsSpec(upper: char -> char, words: seq<string>)
    requires |words| >= 1
    requires forall k :: 0 <= k < |words| ==> words[k] != "" && ' ' !in words[k]
    ensures CapitaliseAll(upper, words) == Success(CamelSpec(upper, Join(words, ' '), true))
  {
    var w := words[0];
    var first := [upper(w[0])] + w[1..];
    assert Capitalise(upper, w) == Success(first);
    if |words| == 1 {
      CamelSpecOfWord(upper, w, "");
      assert w + "" == w;
      assert CapitaliseAll(upper, words[1..]) == Success("");
      assert CapitaliseAll(upper, words) == Success(first + "");
    } else {
      var j := Join(words[1..], ' ');
      assert forall k :: 0 <= k < |words[1..]| ==> words[1..][k] == words[k + 1];
      CapitaliseAllIsSpec(upper, words[1..]);
      assert Join(words, ' ') == w + ([' '] + j);
      CamelSpecOfWord(upper, w, [' '] + j);
      assert ([' '] + j)[1..] == j;
      assert CamelSpec(upper, [' '] + j, false) == CamelSpec(upper, j, true);
      assert CapitaliseAll(upper, words) == Success(first + CamelSpec(upper, j, true));
    }
  }

  /** On a well-spaced string `CamelCase` succeeds with the reference
      result: spaces dropped, each word's first character upper-cased. */
  lemma CamelCaseIsSpec(upper: char -> char, str: string)
    requires WellSpaced(str)
    ensures CamelCase(upper, str) == Success(CamelSpec(upper, str, true))
  {
    SplitNonEmptyIff(str);
    SplitProperties(str, ' ');
    var ps := SplitPieces(str, ' ');
    assert forall k :: 0 <= k < |ps| ==> ps[k] != "" && ' ' !in ps[k];
    CapitaliseAllIsSpec(upper, ps);
  }

  /** The reference result is one character shorter per space. */
  lemma {:induction false} CamelSpecLength(upper: char -> char, s: string, atStart: bool)
    ensures |CamelSpec(upper, s, atStart)| == |s| - Count(s, ' ')
  {
    if |s| > 0 {
      CamelSpecLength(upper, s[1..], true);
      CamelSpecLength(upper, s[1..], false);
    }
  }

  /** The reference result holds no space when upper-casing never turns a
      non-space into a space. */
  lemma {:induction false} CamelSpecHasNoSpace(upper: char -> char, s: string, atStart: bool)
    requires forall c :: c != ' ' ==> upper(c) != ' '
    ensures ' ' !in CamelSpec(upper, s, atStart)
  {
    if |s| > 0 {
      CamelSpecHasNoSpace(upper, s[1..], true);
      CamelSpecHasNoSpace(upper, s[1..], false);
    }
  }

  /** What `CamelCase` returns on a well-spaced string: the input less its
      spaces, as long as the input minus the number of spaces, with no
      space in it. */
  lemma CamelCaseResult(upper: char -> char, str: string)
    requires WellSpaced(str)
    requires forall c :: c != ' ' ==> upper(c) != ' '
    ensures CamelCase(upper, str).Success?
    ensures |CamelCase(upper, str).value| == |str| - Count(str, ' ')
    ensures ' ' !in CamelCase(upper, str).value
  {
    CamelCaseIsSpec(upper, str);
    CamelSpecLength(upper, str, true);
    CamelSpecHasNoSpace(upper, str, true);
  }
}
