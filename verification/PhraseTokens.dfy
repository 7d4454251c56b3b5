/** The words of a text and of a transcript, said of the characters and of the segments
    (crates/cli/src/plan_transcript_trim_edl_cmd.rs). */
module PhraseTokens {
  import opened Sequences
  import opened PlanRanges
  import opened PhraseSearch

  // ---------------------------------------------------------------- the words of a text

  /** An ASCII letter or digit. */
  predicate Alphanumeric(c: char) { '0' <= c <= '9' || 'A' <= c <= 'Z' || 'a' <= c <= 'z' }

  /** `d` is `c`, in lower case if it is a capital. */
  predicate Lowers(c: char, d: char) { if 'A' <= c <= 'Z' then d as int == c as int + 32 else d == c }

  /** Character `k` of the token is the letter or digit at `at + k`. */
  predicate WrittenChar(text: string, token: string, at: nat, k: nat)
    requires at + |token| <= |text| && k < |token|
  {
    Alphanumeric(text[at + k]) && Lowers(text[at + k], token[k])
  }

  /** The token is written in the text from `at` on. */
  ghost predicate WrittenAt(text: string, token: string, at: nat) {
    at + |token| <= |text| && forall k :: 0 <= k < |token| ==> WrittenChar(text, token, at, k)
  }

  predicate Within(at: nat, token: string, i: nat) { at <= i < at + |token| }

  /** The tokens are written one after the other, not touching, and together they hold every letter and digit from
      `from` on: they are the longest stretches of these. */
  ghost predicate AreWritten(text: string, tokens: seq<string>, at: seq<nat>, from: nat) {
    && |at| == |tokens|
    && (forall t :: 0 <= t < |tokens| ==> tokens[t] != "" && from <= at[t] && WrittenAt(text, tokens[t], at[t]))
    && (forall t, u :: 0 <= t < u < |tokens| ==> at[t] + |tokens[t]| < at[u])
    && forall i :: from <= i < |text| && Alphanumeric(text[i]) ==>
         exists t :: 0 <= t < |tokens| && Within(at[t], tokens[t], i)
  }

  lemma PlainExactly(c: char)
    ensures Plain(c) == ' ' <==> !Alphanumeric(c)
    ensures Alphanumeric(c) ==> Lowers(c, Plain(c))
  {}

  /** While reading: `word` is what has been read of a word, and what was read before it is not part of it. */
  ghost predicate Reading(text: string, i: nat, word: string) {
    && |word| <= i <= |text| && WrittenAt(text, word, i - |word|)
    && (i - |word| == 0 || !Alphanumeric(text[i - |word| - 1]))
  }

  lemma {:induction false} SplitWrites(text: string, i: nat, word: string) returns (at: seq<nat>)
    requires Reading(text, i, word)
    ensures AreWritten(text, Split(AllPlain(text)[i..], word), at, i - |word|)
    decreases |text| - i
  {
    hide Plain, Alphanumeric, AllPlain, Lowers, WrittenAt, AreWritten, Flush, Split;
    SplitStep(text, i, word);
    if i == |text| {
      at := Flushed(text, i, word);
    } else {
      PlainExactly(text[i]);
      if Alphanumeric(text[i]) {
        WordGrows(text, i, word, Plain(text[i]));
        at := SplitWrites(text, i + 1, word + [Plain(text[i])]);
      } else {
        NothingRead(text, i + 1);
        at := SplitWrites(text, i + 1, "");
        at := WordEnds(text, i, word, Split(AllPlain(text)[i+1..], ""), at);
      }
    }
  }

  lemma NothingRead(text: string, i: nat)
    requires 0 < i <= |text| && !Alphanumeric(text[i - 1])
    ensures Reading(text, i, "")
  {}

  /** Splitting reads one character. */
  lemma SplitStep(text: string, i: nat, word: string)
    requires i <= |text|
    ensures |AllPlain(text)| == |text|
    ensures Split(AllPlain(text)[i..], word) ==
      if i == |text| then Flush(word)
      else if Alphanumeric(text[i]) then Split(AllPlain(text)[i+1..], word + [Plain(text[i])])
      else Flush(word) + Split(AllPlain(text)[i+1..], "")
  {
    if i < |text| {
      PlainExactly(text[i]);
      var rest := AllPlain(text)[i..];
      assert rest[0] == Plain(text[i]) && rest[1..] == AllPlain(text)[i+1..];
      hide Plain, Alphanumeric, AllPlain, Lowers;
    }
  }

  lemma Flushed(text: string, i: nat, word: string) returns (at: seq<nat>)
    requires Reading(text, i, word) && i == |text|
    ensures AreWritten(text, Flush(word), at, i - |word|)
  {
    at := if word == "" then [] else [i - |word|];
    if word != "" {
      assert forall k :: i - |word| <= k < i ==> Within(at[0], Flush(word)[0], k);
    }
  }

  lemma WrittenGrows(text: string, word: string, at: nat, c: char)
    requires WrittenAt(text, word, at) && at + |word| < |text|
    requires Alphanumeric(text[at + |word|]) && Lowers(text[at + |word|], c)
    ensures WrittenAt(text, word + [c], at)
  {
    hide Alphanumeric, Lowers;
    var longer := word + [c];
    forall k | 0 <= k < |longer| ensures WrittenChar(text, longer, at, k) {
      if k < |word| { assert WrittenChar(text, word, at, k); }
    }
  }

  lemma WordGrows(text: string, i: nat, word: string, c: char)
    requires Reading(text, i, word) && i < |text| && Alphanumeric(text[i]) && Lowers(text[i], c)
    ensures Reading(text, i + 1, word + [c])
  {
    hide Alphanumeric, Lowers, WrittenAt;
    WrittenGrows(text, word, i - |word|, c);
    assert |word + [c]| == |word| + 1;
  }

  lemma WordEnds(text: string, i: nat, word: string, rest: seq<string>, later: seq<nat>) returns (at: seq<nat>)
    requires Reading(text, i, word) && i < |text| && !Alphanumeric(text[i]) && AreWritten(text, rest, later, i + 1)
    ensures AreWritten(text, Flush(word) + rest, at, i - |word|)
  {
    hide Alphanumeric, Lowers, WrittenAt, AreWritten;
    if word == "" {
      at := later;
      NothingBetween(text, i, rest, later);
      assert Flush(word) + rest == rest;
    } else {
      at := [i - |word|] + later;
      FirstWordWritten(text, i, word, rest, later);
    }
  }

  lemma NothingBetween(text: string, i: nat, tokens: seq<string>, at: seq<nat>)
    requires i < |text| && !Alphanumeric(text[i]) && AreWritten(text, tokens, at, i + 1)
    ensures AreWritten(text, tokens, at, i)
  {
    hide Alphanumeric, WrittenAt, Within;
  }

  lemma FirstWordWritten(text: string, i: nat, word: string, rest: seq<string>, later: seq<nat>)
    requires word != "" && |word| <= i < |text| && !Alphanumeric(text[i]) && WrittenAt(text, word, i - |word|)
    requires AreWritten(text, rest, later, i + 1)
    ensures AreWritten(text, [word] + rest, [i - |word|] + later, i - |word|)
  {
    hide Alphanumeric, WrittenAt;
    var tokens, at := [word] + rest, [i - |word|] + later;
    forall k | i - |word| <= k < |text| && Alphanumeric(text[k])
      ensures exists t :: 0 <= t < |tokens| && Within(at[t], tokens[t], k)
    {
      if k < i {
        assert Within(at[0], tokens[0], k);
      } else {
        assert i + 1 <= k;
        var t :| 0 <= t < |rest| && Within(later[t], rest[t], k);
        assert Within(at[t+1], tokens[t+1], k);
      }
    }
  }

  /** The tokens of a text are its longest stretches of ASCII letters and digits, in order, in lower case. */
  lemma TokensAreWritten(text: string) returns (at: seq<nat>)
    ensures AreWritten(text, Tokenize(text), at, 0)
  {
    at := SplitWrites(text, 0, "");
    assert AllPlain(text)[0..] == AllPlain(text);
  }

  /** A list that leaves out no letter or digit has a first token no later than any other list's. */
  lemma FirstIsFirst(text: string, a: seq<string>, at: seq<nat>, b: seq<string>, bt: seq<nat>, from: nat)
    requires AreWritten(text, a, at, from) && AreWritten(text, b, bt, from) && a != []
    ensures b != [] && bt[0] <= at[0]
  {
    InsideIsAlphanumeric(text, a[0], at[0], 0);
    hide Alphanumeric, Lowers;
    var t :| 0 <= t < |b| && Within(bt[t], b[t], at[0]);
  }

  lemma InsideIsAlphanumeric(text: string, token: string, at: nat, k: nat)
    requires WrittenAt(text, token, at) && k < |token|
    ensures at + k < |text| && Alphanumeric(text[at + k])
  {
    assert WrittenChar(text, token, at, k);
  }

  /** The first token ends with the text or before something else. */
  lemma FirstEnds(text: string, a: seq<string>, at: seq<nat>, from: nat)
    requires AreWritten(text, a, at, from) && a != []
    ensures var end := at[0] + |a[0]|; end < |text| ==> !Alphanumeric(text[end])
  {
    hide Alphanumeric, Lowers;
    var end := at[0] + |a[0]|;
    forall t | 0 <= t < |a| ensures !Within(at[t], a[t], end) {}
  }

  lemma FirstIsLongest(text: string, a: seq<string>, at: seq<nat>, b: seq<string>, bt: seq<nat>, from: nat)
    requires AreWritten(text, a, at, from) && AreWritten(text, b, bt, from) && a != [] && b != [] && at[0] == bt[0]
    ensures |b[0]| <= |a[0]|
  {
    hide Alphanumeric, Lowers;
    FirstEnds(text, a, at, from);
    if |a[0]| < |b[0]| { InsideIsAlphanumeric(text, b[0], bt[0], |a[0]|); }
  }

  lemma SameText(text: string, a: string, b: string, at: nat)
    requires WrittenAt(text, a, at) && WrittenAt(text, b, at) && |a| == |b|
    ensures a == b
  {
    forall k | 0 <= k < |a| ensures a[k] == b[k] {
      assert WrittenChar(text, a, at, k) && WrittenChar(text, b, at, k);
    }
  }

  lemma RestWritten(text: string, a: seq<string>, at: seq<nat>, from: nat)
    requires AreWritten(text, a, at, from) && a != []
    ensures AreWritten(text, a[1..], at[1..], at[0] + |a[0]|)
  {
    hide Alphanumeric, Lowers, WrittenAt;
    var end := at[0] + |a[0]|;
    forall i | end <= i < |text| && Alphanumeric(text[i])
      ensures exists t :: 0 <= t < |a[1..]| && Within(at[1..][t], a[1..][t], i)
    {
      var t :| 0 <= t < |a| && Within(at[t], a[t], i);
      assert Within(at[1..][t-1], a[1..][t-1], i);
    }
  }

  /** No other list of words is written so. */
  lemma {:induction false} WrittenDetermines(text: string, a: seq<string>, at: seq<nat>, b: seq<string>, bt: seq<nat>,
                                             from: nat)
    requires AreWritten(text, a, at, from) && AreWritten(text, b, bt, from)
    ensures a == b
  {
    hide WrittenAt, Alphanumeric, Within;
    if a != [] { FirstIsFirst(text, a, at, b, bt, from); }
    if b != [] { FirstIsFirst(text, b, bt, a, at, from); }
    if a != [] && b != [] {
      SameFirst(text, a, at, b, bt, from);
      RestWritten(text, a, at, from);
      RestWritten(text, b, bt, from);
      WrittenDetermines(text, a[1..], at[1..], b[1..], bt[1..], at[0] + |a[0]|);
      assert a == [a[0]] + a[1..] && b == [b[0]] + b[1..];
    }
  }

  lemma SameFirst(text: string, a: seq<string>, at: seq<nat>, b: seq<string>, bt: seq<nat>, from: nat)
    requires AreWritten(text, a, at, from) && AreWritten(text, b, bt, from) && a != [] && b != []
    requires at[0] == bt[0]
    ensures a[0] == b[0]
  {
    FirstIsLongest(text, a, at, b, bt, from);
    FirstIsLongest(text, b, bt, a, at, from);
    SameText(text, a[0], b[0], at[0]);
    hide WrittenAt;
  }

  // ---------------------------------------------------------------- case does not matter

  /** The texts differ at most in the case of ASCII letters. */
  predicate SameButCase(a: string, b: string) {
    |a| == |b| && forall i :: 0 <= i < |a| ==> a[i] == b[i] || Lowers(a[i], b[i]) || Lowers(b[i], a[i])
  }

  lemma TokensIgnoreCase(a: string, b: string)
    requires SameButCase(a, b)
    ensures Tokenize(a) == Tokenize(b)
  {
    forall i | 0 <= i < |a| ensures Plain(a[i]) == Plain(b[i]) {}
    assert AllPlain(a) == AllPlain(b);
  }

  /** The search finds a phrase whatever the case of its letters and of the transcript's. */
  lemma SearchIgnoresCase(a: seq<TranscriptSegment>, b: seq<TranscriptSegment>, phrase: string, other: string)
    requires |a| == |b| && SameButCase(phrase, other)
    requires forall s :: 0 <= s < |a| ==> SameButCase(a[s].text, b[s].text)
    ensures FindPhrase(a, phrase) == FindPhrase(b, other)
  {
    TokensIgnoreCase(phrase, other);
    hide Tokenize, SameButCase;
    StreamsIgnoreCase(a, b, |a|);
  }

  lemma {:induction false} StreamsIgnoreCase(a: seq<TranscriptSegment>, b: seq<TranscriptSegment>, n: nat)
    requires n <= |a| == |b| && forall s :: 0 <= s < |a| ==> SameButCase(a[s].text, b[s].text)
    ensures TokensOf(a, n) == TokensOf(b, n)
  {
    hide Tokenize, SameButCase;
    if n == 0 {
    } else {
      StreamsIgnoreCase(a, b, n - 1);
      TokensIgnoreCase(a[n-1].text, b[n-1].text);
    }
  }

  // ---------------------------------------------------------------- the stream of a transcript

  /** The words of the stream that come from segment `s`, in order. */
  function WordsFrom(tokens: seq<TranscriptToken>, s: nat): seq<string> {
    if tokens == [] then []
    else (if tokens[0].segment == s then [tokens[0].text] else []) + WordsFrom(tokens[1..], s)
  }

  lemma {:induction false} WordsFromConcat(a: seq<TranscriptToken>, b: seq<TranscriptToken>, s: nat)
    ensures WordsFrom(a + b, s) == WordsFrom(a, s) + WordsFrom(b, s)
  {
    if a == [] {
      assert a + b == b;
    } else {
      assert (a + b)[0] == a[0] && (a + b)[1..] == a[1..] + b;
      WordsFromConcat(a[1..], b, s);
    }
  }

  lemma {:induction false} WordsFromTagged(words: seq<string>, segment: nat, s: nat)
    ensures WordsFrom(Tagged(words, segment), s) == if s == segment then words else []
  {
    if words == [] {
    } else {
      assert Tagged(words, segment)[1..] == Tagged(words[1..], segment);
      WordsFromTagged(words[1..], segment, s);
      assert words == [words[0]] + words[1..];
    }
  }

  lemma NoWords(s: nat)
    ensures WordsFrom([], s) == []
  {}

  /** The stream holds of each segment exactly its words, and of nothing else. */
  lemma {:induction false} StreamBySegment(segments: seq<TranscriptSegment>, n: nat, s: nat)
    requires n <= |segments|
    ensures WordsFrom(TokensOf(segments, n), s) == if s < n then Tokenize(segments[s].text) else []
  {
    hide Tokenize, Tagged, WordsFrom;
    if n == 0 {
      NoWords(s);
    } else {
      var here := Tokenize(segments[n-1].text);
      StreamBySegment(segments, n - 1, s);
      WordsFromConcat(TokensOf(segments, n - 1), Tagged(here, n - 1), s);
      WordsFromTagged(here, n - 1, s);
    }
  }

  // ---------------------------------------------------------------- what a removal cuts

  /** `x` lies in what the clip shows, for 10 ms or more, of the stretch from the start of the first segment the
      phrase is found in to the end of the last. */
  predicate InPhrase(clip: SelectedClip, segments: seq<TranscriptSegment>, phrase: string, x: real) {
    var found := FindPhrase(segments, phrase);
    && found.Some? && found.value.0 < |segments| && found.value.1 < |segments|
    && var start, end := segments[found.value.0].start, segments[found.value.1].end;
       && start <= x <= end && clip.sourceStart <= x <= clip.sourceEnd
       && end - start >= 0.010 && clip.sourceEnd - start >= 0.010
       && end - clip.sourceStart >= 0.010 && clip.sourceEnd - clip.sourceStart >= 0.010
  }

  lemma PhraseCutExactly(clip: SelectedClip, segments: seq<TranscriptSegment>, phrase: string, x: real)
    ensures Covers(PhraseCut(clip, segments, phrase), x) <==> InPhrase(clip, segments, phrase, x)
  {
    FindsEarliest(segments, phrase);
    hide FindPhrase;
    var cut := PhraseCut(clip, segments, phrase);
    if InPhrase(clip, segments, phrase, x) { assert cut[0] in cut; }
  }

  /** A removal cuts exactly the instants of its phrases. */
  lemma {:induction false} PhrasesCutExactly(clip: SelectedClip, segments: seq<TranscriptSegment>, phrases: seq<string>,
                                             x: real)
    ensures Covers(PhraseCuts(clip, segments, phrases), x) <==>
      exists p :: p in phrases && InPhrase(clip, segments, p, x)
  {
    hide PhraseCut, InPhrase;
    if phrases == [] {
    } else {
      var front, last := phrases[..|phrases|-1], phrases[|phrases|-1];
      assert phrases == front + [last];
      PhrasesCutExactly(clip, segments, front, x);
      PhraseCutExactly(clip, segments, last, x);
      CoversEither(PhraseCuts(clip, segments, front), PhraseCut(clip, segments, last), x);
      hide Covers;
    }
  }

  lemma CoversEither(rs: seq<SourceRange>, ss: seq<SourceRange>, x: real)
    ensures Covers(rs + ss, x) <==> Covers(rs, x) || Covers(ss, x)
  {
    assert forall r :: r in rs + ss <==> r in rs || r in ss;
  }
}
