/**
 * The parts of `java.lang.String` that the suggestion bridge relies on:
 * the first occurrence of a character and `String.split` with a
 * one-character, non-metacharacter pattern (such as " " or ":"), which
 * the JDK handles without a regular expression.
 */
module JavaString {

  /** Every character of `s` is `ch` (true of the empty string). */
  predicate AllChars(s: string, ch: char)
  {
    forall i :: 0 <= i < |s| ==> s[i] == ch
  }

  /** `t` is a suffix of `s`. */
  predicate IsSuffix(t: string, s: string)
  {
    |t| <= |s| && s[|s| - |t|..] == t
  }

  /** The prefix of `s` before the first `ch`; all of `s` when `ch` does not occur. */
  function TakeUntil(s: string, ch: char): (r: string)
    ensures |r| <= |s| && r == s[..|r|]
    ensures ch !in r
    ensures |r| < |s| <==> ch in s
    ensures |r| < |s| ==> s[|r|] == ch
  {
    if |s| == 0 then ""
    else if s[0] == ch then ""
    else [s[0]] + TakeUntil(s[1..], ch)
  }

  /**
   * The pieces of `s` between occurrences of `ch`, empty pieces included
   * (what `split` computes before it discards trailing empty strings).
   */
  function SplitAll(s: string, ch: char): (r: seq<string>)
    ensures |r| >= 1
    ensures r[0] == TakeUntil(s, ch)
    decreases |s|
  {
    var head := TakeUntil(s, ch);
    if |head| == |s| then [s]
    else [head] + SplitAll(s[|head| + 1..], ch)
  }

  /** The pieces joined back together with `ch` between neighbours. */
  function Join(pieces: seq<string>, ch: char): string
  {
    if |pieces| == 0 then ""
    else if |pieces| == 1 then pieces[0]
    else pieces[0] + [ch] + Join(pieces[1..], ch)
  }

  /** `p` with its trailing empty strings removed. */
  function StripTrailingEmpty(p: seq<string>): (r: seq<string>)
    ensures |r| <= |p| && r == p[..|r|]
    ensures |r| > 0 ==> r[|r| - 1] != ""
    ensures forall i :: |r| <= i < |p| ==> p[i] == ""
  {
    if |p| == 0 then []
    else if p[|p| - 1] == "" then StripTrailingEmpty(p[..|p| - 1])
    else p
  }

  /**
   * `s.split(String.valueOf(ch))` in Java, for a `ch` that is not one of the
   * regular-expression metacharacters `.$|()[{^?*+\` (the bridge splits on
   * ' ' and ':'): when `ch` does not occur the result is `[s]` (so the empty
   * string gives `[""]`); otherwise the pieces between occurrences, with
   * trailing empty strings discarded.
   */
  function Split(s: string, ch: char): (r: seq<string>)
    ensures forall i :: 0 <= i < |r| ==> ch !in r[i]
    ensures |r| > 0 && r[|r| - 1] == "" ==> s == "" && r == [""]
  {
    if ch !in s then [s]
    else
      SplitAllPieces(s, ch);
      StripTrailingEmpty(SplitAll(s, ch))
  }

  /** Splitting loses nothing: the pieces and the separators rebuild `s`. */
  lemma {:induction false} JoinSplitAll(s: string, ch: char)
    ensures Join(SplitAll(s, ch), ch) == s
    decreases |s|
  {
    var k := |TakeUntil(s, ch)|;
    if k < |s| {
      JoinSplitAll(s[k + 1..], ch);
      JoinSplitAllStep(s, ch);
      Reassemble(s, k);
    }
  }

  /** One step of splitting: the first piece, the separator, and the split of the rest. */
  lemma JoinSplitAllStep(s: string, ch: char)
    requires ch in s
    ensures var k := |TakeUntil(s, ch)|;
      Join(SplitAll(s, ch), ch) == s[..k] + [ch] + Join(SplitAll(s[k + 1..], ch), ch)
  {
    var head := TakeUntil(s, ch);
    SplitAllStep(s, ch);
    JoinCons(head, SplitAll(s[|head| + 1..], ch), ch);
  }

  lemma JoinCons(head: string, tail: seq<string>, ch: char)
    requires |tail| >= 1
    ensures Join([head] + tail, ch) == head + [ch] + Join(tail, ch)
  {
    assert ([head] + tail)[1..] == tail;
  }

  lemma Reassemble(s: string, k: nat)
    requires k < |s|
    ensures s == s[..k] + [s[k]] + s[k + 1..]
  {
  }

  /** No piece contains the separator. */
  lemma {:induction false} SplitAllPieces(s: string, ch: char)
    ensures forall i :: 0 <= i < |SplitAll(s, ch)| ==> ch !in SplitAll(s, ch)[i]
    decreases |s|
  {
    var head := TakeUntil(s, ch);
    if |head| < |s| {
      var rest := s[|head| + 1..];
      SplitAllPieces(rest, ch);
      assert SplitAll(s, ch) == [head] + SplitAll(rest, ch);
    }
  }

  /** Every piece is the empty string. */
  predicate AllEmpty(pieces: seq<string>)
  {
    forall i :: 0 <= i < |pieces| ==> pieces[i] == ""
  }

  /** All pieces are empty exactly when `s` consists of `ch` only. */
  lemma {:induction false} SplitAllAllEmpty(s: string, ch: char)
    ensures AllEmpty(SplitAll(s, ch)) <==> AllChars(s, ch)
    decreases |s|
  {
    if ch !in s {
      WithoutSeparator(s, ch);
    } else {
      var head := TakeUntil(s, ch);
      SplitAllAllEmpty(s[|head| + 1..], ch);
      SplitAllStep(s, ch);
      AllEmptyCons(head, SplitAll(s[|head| + 1..], ch));
      if s[0] == ch {
        AllCharsCons(s, ch);
      } else {
        assert s[0] == head[0];
      }
    }
  }

  lemma WithoutSeparator(s: string, ch: char)
    requires ch !in s
    ensures SplitAll(s, ch) == [s]
    ensures AllEmpty([s]) <==> AllChars(s, ch)
  {
    if |s| > 0 {
      assert s[0] in s;
    }
  }

  lemma SplitAllStep(s: string, ch: char)
    requires ch in s
    ensures SplitAll(s, ch) == [TakeUntil(s, ch)] + SplitAll(s[|TakeUntil(s, ch)| + 1..], ch)
  {
  }

  lemma AllEmptyCons(head: string, tail: seq<string>)
    ensures AllEmpty([head] + tail) <==> head == "" && AllEmpty(tail)
  {
    if head == "" && AllEmpty(tail) {
      forall i | 0 <= i < |[head] + tail| ensures ([head] + tail)[i] == "" {
        if i > 0 { assert ([head] + tail)[i] == tail[i - 1]; }
      }
    }
    if AllEmpty([head] + tail) {
      assert ([head] + tail)[0] == head;
      forall i | 0 <= i < |tail| ensures tail[i] == "" {
        assert ([head] + tail)[i + 1] == tail[i];
      }
    }
  }

  lemma AllCharsCons(s: string, ch: char)
    requires |s| > 0
    ensures AllChars(s, ch) <==> s[0] == ch && AllChars(s[1..], ch)
  {
    if s[0] == ch && AllChars(s[1..], ch) {
      forall i | 0 <= i < |s| ensures s[i] == ch {
        if i > 0 { assert s[i] == s[1..][i - 1]; }
      }
    }
  }

  /** `split` yields no element exactly when `s` is non-empty and made of `ch` only. */
  lemma SplitIsEmpty(s: string, ch: char)
    ensures Split(s, ch) == [] <==> |s| > 0 && AllChars(s, ch)
  {
    if ch in s {
      SplitAllAllEmpty(s, ch);
      var pieces := SplitAll(s, ch);
      var r := StripTrailingEmpty(pieces);
      assert Split(s, ch) == r;
      assert r != [] ==> r[|r| - 1] == pieces[|r| - 1];
    } else if |s| > 0 {
      assert s[0] != ch;
    }
  }

  /** When `split` yields anything, its first element is the text before the first `ch`. */
  lemma SplitFirst(s: string, ch: char)
    requires Split(s, ch) != []
    ensures Split(s, ch)[0] == TakeUntil(s, ch)
  {
  }

  /**
   * Cutting `s` at its first `c1` and then cutting the result at its first
   * `c2` is cutting `s` at its first `c2`, when that `c2` comes before any `c1`.
   */
  lemma {:induction false} TakeUntilOfPrefix(s: string, c1: char, c2: char)
    requires c2 in TakeUntil(s, c1)
    ensures TakeUntil(TakeUntil(s, c1), c2) == TakeUntil(s, c2)
    decreases |s|
  {
    var t := TakeUntil(s, c1);
    assert |s| > 0 && s[0] != c1 && t == [s[0]] + TakeUntil(s[1..], c1);
    if s[0] != c2 {
      assert c2 in TakeUntil(s[1..], c1);
      TakeUntilOfPrefix(s[1..], c1, c2);
      assert t[0] == s[0] && t[1..] == TakeUntil(s[1..], c1);
    }
  }
}
