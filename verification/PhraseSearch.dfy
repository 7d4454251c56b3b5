/** Finding spoken phrases in a transcript and cutting them out
    (crates/cli/src/plan_transcript_trim_edl_cmd.rs). */
module PhraseSearch {
  import opened Numbers
  import opened Sequences
  import opened Strings
  import opened PlanRanges

  datatype TranscriptSegment = TranscriptSegment(start: real, end: real, text: string)

  // ---------------------------------------------------------------- tokens

  predicate IsUpper(c: char) { 'A' <= c <= 'Z' }
  predicate IsPlain(c: char) { '0' <= c <= '9' || 'a' <= c <= 'z' }

  /** ASCII letters in lower case and digits; anything else reads as a space. */
  function Plain(c: char): char {
    if IsUpper(c) then (c as int - 'A' as int + 'a' as int) as char else if IsPlain(c) then c else ' '
  }

  function AllPlain(text: string): string { seq(|text|, i requires 0 <= i < |text| => Plain(text[i])) }

  function Flush(word: string): seq<string> { if word == "" then [] else [word] }

  /** The words of `s` between spaces, the first of which has begun with `word`. */
  function Split(s: string, word: string): seq<string>
    decreases |s|
  {
    if s == "" then Flush(word)
    else if s[0] == ' ' then Flush(word) + Split(s[1..], "")
    else Split(s[1..], word + [s[0]])
  }

  /** `tokenize` */
  function Tokenize(text: string): seq<string> { Split(AllPlain(text), "") }

  predicate IsWord(w: string) { forall c :: c in w ==> IsPlain(c) }
  predicate AreTokens(ws: seq<string>) { forall w :: w in ws ==> w != "" && IsWord(w) }

  function Joined(ws: seq<string>): string { if ws == [] then "" else ws[0] + " " + Joined(ws[1..]) }

  lemma {:induction false} SplitGivesTokens(s: string, word: string)
    requires IsWord(word) && forall c :: c in s ==> IsPlain(c) || c == ' '
    ensures AreTokens(Split(s, word))
    decreases |s|
  {
    if s != "" { SplitGivesTokens(s[1..], if s[0] == ' ' then "" else word + [s[0]]); }
  }

  lemma {:induction false} SplitReads(w: string, rest: string, word: string)
    requires IsWord(w)
    ensures Split(w + rest, word) == Split(rest, word + w)
    decreases |w|
  {
    if w == "" {
      assert w + rest == rest && word + w == word;
    } else {
      assert w[0] in w && (w + rest)[0] == w[0];
      assert (w + rest)[1..] == w[1..] + rest;
      assert word + [w[0]] + w[1..] == word + w;
      SplitReads(w[1..], rest, word + [w[0]]);
    }
  }

  lemma {:induction false} JoinedSplits(ws: seq<string>)
    requires AreTokens(ws)
    ensures Split(Joined(ws), "") == ws
  {
    if ws == [] {
    } else {
      var rest := " " + Joined(ws[1..]);
      JoinedSplits(ws[1..]);
      assert Joined(ws) == ws[0] + rest;
      SplitReads(ws[0], rest, "");
      assert rest[1..] == Joined(ws[1..]) && "" + ws[0] == ws[0];
    }
  }

  lemma {:induction false} JoinedIsPlain(ws: seq<string>)
    requires AreTokens(ws)
    ensures AllPlain(Joined(ws)) == Joined(ws)
  {
    if ws == [] {
    } else {
      JoinedIsPlain(ws[1..]);
      var rest := " " + Joined(ws[1..]);
      assert Joined(ws) == ws[0] + rest;
      WordIsPlain(ws[0]);
      PlainOfConcat(ws[0], rest);
      PlainOfConcat(" ", Joined(ws[1..]));
      assert AllPlain(" ") == " ";
      hide AllPlain;
    }
  }

  lemma WordIsPlain(w: string)
    requires IsWord(w)
    ensures AllPlain(w) == w
  {
    forall i | 0 <= i < |w| ensures Plain(w[i]) == w[i] { assert w[i] in w; }
  }

  lemma PlainOfConcat(a: string, b: string)
    ensures AllPlain(a + b) == AllPlain(a) + AllPlain(b)
  {}

  /** Tokens are non-empty lower-case words, and writing them out with spaces gives the same tokens. */
  lemma TokensAreStable(text: string)
    ensures AreTokens(Tokenize(text)) && Tokenize(Joined(Tokenize(text))) == Tokenize(text)
  {
    SplitGivesTokens(AllPlain(text), "");
    JoinedSplits(Tokenize(text));
    JoinedIsPlain(Tokenize(text));
  }

  // ---------------------------------------------------------------- the search

  datatype TranscriptToken = TranscriptToken(text: string, segment: nat)

  function Tagged(words: seq<string>, segment: nat): seq<TranscriptToken> {
    seq(|words|, i requires 0 <= i < |words| => TranscriptToken(words[i], segment))
  }

  /** The tokens of the first `n` segments, end to end. */
  function TokensOf(segments: seq<TranscriptSegment>, n: nat): seq<TranscriptToken>
    requires n <= |segments|
  {
    if n == 0 then [] else TokensOf(segments, n - 1) + Tagged(Tokenize(segments[n-1].text), n - 1)
  }

  /** The words stand at position `k` of the stream. */
  predicate Occurs(tokens: seq<TranscriptToken>, words: seq<string>, k: nat) {
    k + |words| <= |tokens| && forall i :: 0 <= i < |words| ==> tokens[k+i].text == words[i]
  }

  ghost predicate OccursFirstAt(tokens: seq<TranscriptToken>, words: seq<string>, k: nat) {
    Occurs(tokens, words, k) && forall j: nat :: j < k ==> !Occurs(tokens, words, j)
  }

  ghost predicate OccursNowhere(tokens: seq<TranscriptToken>, words: seq<string>) {
    forall k: nat :: !Occurs(tokens, words, k)
  }

  function FirstWindow(tokens: seq<TranscriptToken>, words: seq<string>, k: nat): (found: Option<nat>)
    requires words != []
    ensures found.Some? ==> Occurs(tokens, words, found.value)
    decreases |tokens| - k
  {
    if k + |words| > |tokens| then None
    else if Occurs(tokens, words, k) then Some(k)
    else FirstWindow(tokens, words, k + 1)
  }

  /** The segments of the first and the last word of an occurrence. */
  function EndsAt(tokens: seq<TranscriptToken>, words: seq<string>, k: nat): (nat, nat)
    requires words != [] && Occurs(tokens, words, k)
  {
    (tokens[k].segment, tokens[k + |words| - 1].segment)
  }

  /** `find_phrase_segment_indices` */
  function FindPhrase(segments: seq<TranscriptSegment>, phrase: string): Option<(nat, nat)> {
    var words, tokens := Tokenize(phrase), TokensOf(segments, |segments|);
    if words == [] then None
    else match FirstWindow(tokens, words, 0)
      case None => None
      case Some(k) => Some(EndsAt(tokens, words, k))
  }

  lemma {:induction false} FirstWindowIsFirst(tokens: seq<TranscriptToken>, words: seq<string>, k: nat)
    requires words != [] && forall j: nat :: j < k ==> !Occurs(tokens, words, j)
    ensures var found := FirstWindow(tokens, words, k);
      if found.None? then OccursNowhere(tokens, words) else OccursFirstAt(tokens, words, found.value)
    decreases |tokens| - k
  {
    if k + |words| <= |tokens| && !Occurs(tokens, words, k) { FirstWindowIsFirst(tokens, words, k + 1); }
  }

  /** Tokens of the first `n` segments, in the order of their segments. */
  ghost predicate InOrder(tokens: seq<TranscriptToken>, n: nat) {
    && (forall i :: 0 <= i < |tokens| ==> tokens[i].segment < n)
    && (forall i, j :: 0 <= i < j < |tokens| ==> tokens[i].segment <= tokens[j].segment)
  }

  lemma {:induction false} TokensInOrder(segments: seq<TranscriptSegment>, n: nat)
    requires n <= |segments|
    ensures InOrder(TokensOf(segments, n), n)
  {
    if n == 0 {
    } else {
      TokensInOrder(segments, n - 1);
      OrderExtends(TokensOf(segments, n - 1), Tokenize(segments[n-1].text), n - 1);
    }
  }

  lemma OrderExtends(tokens: seq<TranscriptToken>, words: seq<string>, n: nat)
    requires InOrder(tokens, n)
    ensures InOrder(tokens + Tagged(words, n), n + 1)
  {}

  /** Where the words of segment `s` stand in the stream. */
  lemma {:induction false} SegmentInStream(segments: seq<TranscriptSegment>, s: nat, n: nat)
    requires s < n <= |segments|
    ensures var here := Tagged(Tokenize(segments[s].text), s);
      var base := |TokensOf(segments, s)|;
      base + |here| <= |TokensOf(segments, n)| && TokensOf(segments, n)[base..base + |here|] == here
  {
    hide Tokenize, Tagged;
    if s == n - 1 {
    } else {
      SegmentInStream(segments, s, n - 1);
    }
  }

  lemma EndsInOrder(tokens: seq<TranscriptToken>, words: seq<string>, k: nat, n: nat)
    requires words != [] && Occurs(tokens, words, k) && InOrder(tokens, n)
    ensures EndsAt(tokens, words, k).0 <= EndsAt(tokens, words, k).1 < n
  {
    var last := k + |words| - 1;
    assert k <= last < |tokens|;
  }

  lemma FindsFirst(segments: seq<TranscriptSegment>, phrase: string)
    ensures var words, tokens, found := Tokenize(phrase), TokensOf(segments, |segments|), FindPhrase(segments, phrase);
      && (found.None? <==> words == [] || OccursNowhere(tokens, words))
      && (found.Some? ==>
            && words != [] && found.value.0 <= found.value.1 < |segments|
            && exists k: nat :: OccursFirstAt(tokens, words, k) && found.value == EndsAt(tokens, words, k))
  {
    var words, tokens := Tokenize(phrase), TokensOf(segments, |segments|);
    if words != [] {
      hide TokensOf, Tokenize, Occurs, InOrder, EndsAt;
      TokensInOrder(segments, |segments|);
      FirstWindowIsFirst(tokens, words, 0);
      var first := FirstWindow(tokens, words, 0);
      hide FirstWindow;
      if first.Some? { EndsInOrder(tokens, words, first.value, |segments|); }
    }
  }

  /** The words stand in the stream from `k` on. */
  ghost predicate SpokenFrom(tokens: seq<TranscriptToken>, words: seq<string>, k: nat) {
    k + |words| <= |tokens| && forall i :: 0 <= i < |words| ==> tokens[k+i].text == words[i]
  }

  /** Nowhere do they stand earlier. */
  ghost predicate FirstSpokenFrom(tokens: seq<TranscriptToken>, words: seq<string>, k: nat) {
    SpokenFrom(tokens, words, k) && forall j: nat :: j < k ==> !SpokenFrom(tokens, words, j)
  }

  /** The segments of the first and of the last of these words. */
  ghost predicate IsSpan(span: (nat, nat), tokens: seq<TranscriptToken>, words: seq<string>, k: nat) {
    words != [] && k + |words| <= |tokens| && span == (tokens[k].segment, tokens[k + |words| - 1].segment)
  }

  lemma SpokenIsOccurring(tokens: seq<TranscriptToken>, words: seq<string>)
    ensures forall k: nat :: SpokenFrom(tokens, words, k) <==> Occurs(tokens, words, k)
  {}

  /** The search finds the earliest place where the phrase's words follow each other, across segment
      borders if need be, and nothing exactly when there is no word to find or no such place. */
  lemma FindsEarliest(segments: seq<TranscriptSegment>, phrase: string)
    ensures var words, tokens, found := Tokenize(phrase), TokensOf(segments, |segments|), FindPhrase(segments, phrase);
      && (found.None? <==> words == [] || forall k: nat :: !SpokenFrom(tokens, words, k))
      && (found.Some? ==>
            && found.value.0 <= found.value.1 < |segments|
            && exists k: nat :: FirstSpokenFrom(tokens, words, k) && IsSpan(found.value, tokens, words, k))
  {
    hide FindPhrase, Tokenize, TokensOf, SpokenFrom;
    var words, tokens, found := Tokenize(phrase), TokensOf(segments, |segments|), FindPhrase(segments, phrase);
    FindsFirst(segments, phrase);
    SpokenIsOccurring(tokens, words);
    hide Occurs;
    if found.Some? {
      var k: nat :| OccursFirstAt(tokens, words, k) && found.value == EndsAt(tokens, words, k);
      SpanOf(tokens, words, k);
      assert FirstSpokenFrom(tokens, words, k);
    }
  }

  lemma SpanOf(tokens: seq<TranscriptToken>, words: seq<string>, k: nat)
    requires words != [] && Occurs(tokens, words, k)
    ensures IsSpan(EndsAt(tokens, words, k), tokens, words, k)
  {}

  lemma OccursInSlice(tokens: seq<TranscriptToken>, base: nat, spoken: seq<string>, s: nat, words: seq<string>, at: nat)
    requires base + |spoken| <= |tokens| && tokens[base..base + |spoken|] == Tagged(spoken, s)
    requires words != [] && at + |words| <= |spoken| && spoken[at..at + |words|] == words
    ensures Occurs(tokens, words, base + at) && EndsAt(tokens, words, base + at).1 == s
  {
    forall j | 0 <= j < |spoken| ensures tokens[base + j] == TranscriptToken(spoken[j], s) {
      assert tokens[base + j] == tokens[base..base + |spoken|][j];
    }
    forall i | 0 <= i < |words| ensures tokens[base + at + i] == TranscriptToken(words[i], s) {
      assert words[i] == spoken[at + i];
      assert tokens[base + (at + i)] == TranscriptToken(spoken[at + i], s);
    }
  }

  lemma LaterEndsLater(tokens: seq<TranscriptToken>, words: seq<string>, k: nat, l: nat, n: nat)
    requires words != [] && Occurs(tokens, words, k) && Occurs(tokens, words, l) && k <= l && InOrder(tokens, n)
    ensures EndsAt(tokens, words, k).1 <= EndsAt(tokens, words, l).1
  {
    var first, later := k + |words| - 1, l + |words| - 1;
    assert 0 <= first <= later < |tokens|;
  }

  lemma FoundNoLaterThan(segments: seq<TranscriptSegment>, phrase: string, here: nat)
    requires Tokenize(phrase) != [] && Occurs(TokensOf(segments, |segments|), Tokenize(phrase), here)
    ensures var found := FindPhrase(segments, phrase);
      found.Some? && found.value.1 <= EndsAt(TokensOf(segments, |segments|), Tokenize(phrase), here).1
  {
    var words, tokens := Tokenize(phrase), TokensOf(segments, |segments|);
    hide TokensOf, Tokenize, FindPhrase, Occurs, InOrder, EndsAt;
    FindsFirst(segments, phrase);
    TokensInOrder(segments, |segments|);
    var k: nat :| OccursFirstAt(tokens, words, k) && FindPhrase(segments, phrase).value == EndsAt(tokens, words, k);
    LaterEndsLater(tokens, words, k, here, |segments|);
  }

  /** A phrase spoken within one segment is found there or earlier. */
  lemma FoundByItsSegment(segments: seq<TranscriptSegment>, phrase: string, s: nat, at: nat)
    requires s < |segments| && Tokenize(phrase) != []
    requires at + |Tokenize(phrase)| <= |Tokenize(segments[s].text)|
    requires Tokenize(segments[s].text)[at..at + |Tokenize(phrase)|] == Tokenize(phrase)
    ensures FindPhrase(segments, phrase).Some? && FindPhrase(segments, phrase).value.1 <= s
  {
    var spoken, base := Tokenize(segments[s].text), |TokensOf(segments, s)|;
    SegmentInStream(segments, s, |segments|);
    assert |Tagged(spoken, s)| == |spoken|;
    hide TokensOf, Tokenize, FindPhrase, Tagged, Occurs, EndsAt;
    OccursInSlice(TokensOf(segments, |segments|), base, spoken, s, Tokenize(phrase), at);
    FoundNoLaterThan(segments, phrase, base + at);
  }

  // ---------------------------------------------------------------- cutting phrases out

  /** From the start of the first segment of a span to the end of the last, as far as the clip goes. */
  function SpanInClip(clip: SelectedClip, segments: seq<TranscriptSegment>, span: (nat, nat)): SourceRange
    requires span.0 < |segments| && span.1 < |segments|
  {
    SourceRange(Max(segments[span.0].start, clip.sourceStart), Min(segments[span.1].end, clip.sourceEnd))
  }

  /** What removing one phrase takes out. */
  function PhraseCut(clip: SelectedClip, segments: seq<TranscriptSegment>, phrase: string): seq<SourceRange> {
    match FindPhrase(segments, phrase)
    case None => []
    case Some(span) =>
      if span.0 < |segments| && span.1 < |segments|
      then NonEmpty(SpanInClip(clip, segments, span).start, SpanInClip(clip, segments, span).end)
      else []
  }

  function PhraseCuts(clip: SelectedClip, segments: seq<TranscriptSegment>, phrases: seq<string>): seq<SourceRange> {
    if phrases == [] then []
    else PhraseCuts(clip, segments, phrases[..|phrases|-1]) + PhraseCut(clip, segments, phrases[|phrases|-1])
  }

  predicate Found(segments: seq<TranscriptSegment>, phrase: string) { FindPhrase(segments, phrase).Some? }

  datatype Removal = Removed(ranges: seq<SourceRange>) | NoSpan(phrase: string)

  /** The first phrase that is nowhere fails the removal. */
  ghost predicate IsRemoval(clip: SelectedClip, segments: seq<TranscriptSegment>, phrases: seq<string>, r: Removal) {
    if forall p :: p in phrases ==> Found(segments, p) then r == Removed(PhraseCuts(clip, segments, phrases))
    else exists n ::
           && 0 <= n < |phrases| && !Found(segments, phrases[n])
           && (forall p :: p in phrases[..n] ==> Found(segments, p))
           && r == NoSpan(phrases[n])
  }

  /** `transcript_removed_ranges` */
  method TranscriptRemovedRanges(clip: SelectedClip, segments: seq<TranscriptSegment>, phrases: seq<string>)
    returns (removal: Removal)
    ensures IsRemoval(clip, segments, phrases, removal)
  {
    hide FindPhrase;
    var removed := [];
    for n := 0 to |phrases|
      invariant forall p :: p in phrases[..n] ==> Found(segments, p)
      invariant removed == PhraseCuts(clip, segments, phrases[..n])
    {
      FindsEarliest(segments, phrases[n]);
      assert phrases[..n+1][..n] == phrases[..n];
      assert phrases[n] in phrases;
      var span := FindPhrase(segments, phrases[n]);
      if span.None? { return NoSpan(phrases[n]); }
      var start, end := segments[span.value.0], segments[span.value.1];
      removed := PushNonEmptyRange(removed, Max(start.start, clip.sourceStart), Min(end.end, clip.sourceEnd));
    }
    assert phrases[..|phrases|] == phrases;
    return Removed(removed);
  }

  lemma {:induction false} PhraseCutsInClip(clip: SelectedClip, segments: seq<TranscriptSegment>, phrases: seq<string>)
    ensures CutsOf(clip, PhraseCuts(clip, segments, phrases))
    ensures forall p, c :: p in phrases && c in PhraseCut(clip, segments, p) ==>
      c in PhraseCuts(clip, segments, phrases)
  {
    hide FindPhrase;
    if phrases == [] {
    } else {
      PhraseCutsInClip(clip, segments, phrases[..|phrases|-1]);
    }
  }

  /** After a removal, no kept range reaches into the span of a removed phrase as far as the clip shows at
      least 10 ms of it, and everything else of the clip is kept but for slivers under 10 ms. */
  lemma RemovedPhrasesAreGone(clip: SelectedClip, segments: seq<TranscriptSegment>, phrases: seq<string>)
    requires clip.sourceStart < clip.sourceEnd
    ensures var cuts := PhraseCuts(clip, segments, phrases);
      var kept := KeptRanges(clip, cuts);
      && Ordered(kept) && Within(kept, clip.sourceStart, clip.sourceEnd)
      && (forall p, c, r :: p in phrases && c in PhraseCut(clip, segments, p) && r in kept ==>
            Avoids(c, r.start, r.end))
      && Total(kept) + Total(Merged(cuts)) <= clip.sourceEnd - clip.sourceStart
      && clip.sourceEnd - clip.sourceStart - MIN_RANGE_S * (|Merged(cuts)| + 1) as real
         < Total(kept) + Total(Merged(cuts))
  {
    PhraseCutsInClip(clip, segments, phrases);
    KeptRangesConserveTime(clip, PhraseCuts(clip, segments, phrases));
    hide PhraseCuts, PhraseCut, KeptRanges, Merged;
  }

  /** A phrase of which the clip shows less than 10 ms is left in. */
  lemma ShortPhrasesStay(clip: SelectedClip, segments: seq<TranscriptSegment>, phrase: string)
    requires Found(segments, phrase)
    ensures FindPhrase(segments, phrase).value.0 <= FindPhrase(segments, phrase).value.1 < |segments|
    ensures var part := SpanInClip(clip, segments, FindPhrase(segments, phrase).value);
      PhraseCut(clip, segments, phrase) == if part.end - part.start < MIN_RANGE_S then [] else [part]
  {
    FindsEarliest(segments, phrase);
    hide FindPhrase;
  }

  /** `validate_remove_args` */
  predicate ValidRemoval(phrases: seq<string>) { phrases != [] && forall p :: p in phrases ==> !Blank(p) }

  datatype RemovePlan = Keep(kept: seq<SourceRange>) | InvalidArgs | Unspoken(phrase: string) | NothingLeft

  /** `run_remove` but for reading the transcript and printing the edit list. */
  method PlanRemoval(clip: SelectedClip, segments: seq<TranscriptSegment>,
                     phrases: seq<string>) returns (plan: RemovePlan)
    ensures plan.InvalidArgs? <==> phrases == [] || exists p :: p in phrases && Blank(p)
    ensures plan.Unspoken? <==> ValidRemoval(phrases) && exists p :: p in phrases && !Found(segments, p)
    ensures plan.Unspoken? ==> exists n ::
      && 0 <= n < |phrases| && plan.phrase == phrases[n] && !Found(segments, phrases[n])
      && forall p :: p in phrases[..n] ==> Found(segments, p)
    ensures plan.Keep? ==> plan.kept == KeptRanges(clip, PhraseCuts(clip, segments, phrases)) && plan.kept != []
    ensures plan.NothingLeft? ==> KeptRanges(clip, PhraseCuts(clip, segments, phrases)) == []
  {
    hide Found, PhraseCuts, KeptRanges, Blank;
    if phrases == [] || exists p :: p in phrases && Blank(p) { return InvalidArgs; }
    var removal := TranscriptRemovedRanges(clip, segments, phrases);
    if removal.NoSpan? { return Unspoken(removal.phrase); }
    var kept := KeptRangesAfterRemoving(clip, removal.ranges);
    return if kept == [] then NothingLeft else Keep(kept);
  }
}
