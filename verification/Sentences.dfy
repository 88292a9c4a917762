/** Whitespace normalisation and sentence splitting, on ASCII text. */
module Sentences {
  import opened Wrappers

  function Join(parts: seq<string>): string {
    if parts == [] then "" else if |parts| == 1 then parts[0] else parts[0] + " " + Join(parts[1..])
  }

  /** The length of the leading run of non-space characters. */
  function WordLength(s: string): (n: nat)
    ensures n <= |s| && (forall i :: 0 <= i < n ==> !IsSpace(s[i])) && (n < |s| ==> IsSpace(s[n]))
  {
    if s == "" || IsSpace(s[0]) then 0 else 1 + WordLength(s[1..])
  }

  /** `text.split()`. */
  function Words(s: string): (r: seq<string>)
    ensures forall i :: 0 <= i < |r| ==> IsWord(r[i])
  {
    if s == "" then []
    else if IsSpace(s[0]) then Words(s[1..])
    else [s[..WordLength(s)]] + Words(s[WordLength(s)..])
  }

  predicate IsWord(w: string) { w != "" && forall i :: 0 <= i < |w| ==> !IsSpace(w[i]) }

  function Normalize(text: string): string { Join(Words(text)) }

  /** No whitespace at either end, no two in a row, and every one a plain space. */
  predicate Tidy(s: string) {
    && (s != "" ==> !IsSpace(s[0]) && !IsSpace(s[|s| - 1]))
    && (forall i :: 0 <= i < |s| && IsSpace(s[i]) ==> s[i] == ' ')
    && (forall i :: 0 <= i < |s| - 1 ==> !(IsSpace(s[i]) && IsSpace(s[i + 1])))
  }

  lemma TidyWord(w: string, rest: string)
    requires IsWord(w) && rest != "" && Tidy(rest)
    ensures Tidy(w + " " + rest)
  {
    var s := w + " " + rest;
    assert forall i :: 0 <= i < |w| ==> s[i] == w[i];
    assert forall i :: |w| < i < |s| ==> s[i] == rest[i - |w| - 1];
  }

  lemma {:induction false} JoinedWordsTidy(words: seq<string>)
    requires forall i :: 0 <= i < |words| ==> IsWord(words[i])
    ensures Tidy(Join(words)) && (words != [] ==> Join(words) != "")
  {
    if |words| > 1 {
      JoinedWordsTidy(words[1..]);
      TidyWord(words[0], Join(words[1..]));
    }
  }

  /** A space after a full stop, question or exclamation mark and before a capital letter,
      a digit or an opening parenthesis. */
  predicate Boundary(s: string, i: nat) {
    && 0 < i && i + 1 < |s| && s[i] == ' '
    && s[i - 1] in {'.', '!', '?'}
    && ('A' <= s[i + 1] <= 'Z' || '0' <= s[i + 1] <= '9' || s[i + 1] == '(')
  }

  /** The first boundary at or after `i`, or the end of the text. */
  function NextBoundary(s: string, i: nat): (n: nat)
    requires i <= |s|
    ensures i <= n <= |s| && (n < |s| ==> Boundary(s, n)) && forall j :: i <= j < n ==> !Boundary(s, j)
    decreases |s| - i
  {
    if i == |s| || Boundary(s, i) then i else NextBoundary(s, i + 1)
  }

  function Split(s: string): seq<string> {
    var n := NextBoundary(s, 0);
    if n == |s| then [s] else [s[..n]] + Split(s[n + 1..])
  }

  function SplitSentences(text: string): seq<string> {
    var normalized := Normalize(text);
    if normalized == "" then [] else Split(normalized)
  }

  /** Splitting loses nothing: the sentences, joined by single spaces, are the text. */
  lemma {:induction false} JoinOfSplit(s: string)
    ensures Join(Split(s)) == s && Split(s) != []
  {
    var n := NextBoundary(s, 0);
    if n < |s| {
      JoinOfSplit(s[n + 1..]);
      assert Split(s)[1..] == Split(s[n + 1..]);
      assert s == s[..n] + " " + s[n + 1..];
    }
  }

  lemma TailTidy(s: string, n: nat)
    requires Tidy(s) && Boundary(s, n)
    ensures Tidy(s[n + 1..]) && s[n + 1..] != "" && Tidy(s[..n]) && s[..n] != ""
  {
    var head, tail := s[..n], s[n + 1..];
    assert forall i :: 0 <= i < |tail| ==> tail[i] == s[n + 1 + i];
    assert forall i :: 0 <= i < |head| ==> head[i] == s[i];
    assert !(IsSpace(s[n]) && IsSpace(s[n + 1]));
  }

  /** No sentence is empty or has whitespace at an end, so stripping the parts and
      dropping empty ones changes nothing. */
  lemma {:induction false} SentencesAreStripped(s: string, k: nat)
    requires Tidy(s) && s != "" && k < |Split(s)|
    ensures Split(s)[k] != "" && Tidy(Split(s)[k])
  {
    var n := NextBoundary(s, 0);
    if n < |s| {
      TailTidy(s, n);
      if k > 0 { SentencesAreStripped(s[n + 1..], k - 1); }
    }
  }

  /** The sentences of a text are non-empty, and joined they are its normalised form. */
  lemma SplitSentencesSound(text: string)
    ensures Join(SplitSentences(text)) == Normalize(text)
    ensures forall k :: 0 <= k < |SplitSentences(text)| ==>
      SplitSentences(text)[k] != "" && Tidy(SplitSentences(text)[k])
  {
    JoinedWordsTidy(Words(text));
    var s := Normalize(text);
    if s != "" {
      JoinOfSplit(s);
      forall k | 0 <= k < |Split(s)|
        ensures Split(s)[k] != "" && Tidy(Split(s)[k])
      {
        SentencesAreStripped(s, k);
      }
    }
  }
}
