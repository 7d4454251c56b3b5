/** The cumulative text buffers behind streamed messages and reasoning (crates/codex-bridge/src/mappers.rs). */
module TextBuffers {
  import opened Sequences
  import opened Decimal

  const AGENT_MESSAGE_PREFIX := "codex-msg"
  const REASONING_PREFIX := "codex-reason"

  /** The notifications that touch the buffers; a parameter that is missing or of another type is None. */
  datatype ServerNotification =
    | MessageDelta(itemId: Option<string>, delta: Option<string>)
    | ReasoningDelta(itemId: Option<string>, index: Option<int>, delta: Option<string>)
    | SummaryDelta(itemId: Option<string>, index: Option<int>, delta: Option<string>)
    | ItemCompleted(itemId: Option<string>)
    | OtherNotification

  datatype TextItem = TextItem(id: string, text: string)

  function StringAt(s: Option<string>): string { if s.Some? then s.value else "" }
  function IntAt(i: Option<int>): int { if i.Some? then i.value else 0 }

  function Numbered(item: string, index: int): string { item + "-" + Int(index) }

  function ReasoningKey(item: string, index: int): string { REASONING_PREFIX + "-" + Numbered(item, index) }
  function SummaryKey(item: string, index: int): string { REASONING_PREFIX + "-summary-" + Numbered(item, index) }

  /** The buffer a notification appends to, and what it appends. */
  function BufferKey(n: ServerNotification): Option<string> {
    match n
    case MessageDelta(item, _) => Some(StringAt(item))
    case ReasoningDelta(item, index, _) => Some(ReasoningKey(StringAt(item), IntAt(index)))
    case SummaryDelta(item, index, _) => Some(SummaryKey(StringAt(item), IntAt(index)))
    case _ => None
  }

  function Appended(n: ServerNotification): string {
    if n.MessageDelta? || n.ReasoningDelta? || n.SummaryDelta? then StringAt(n.delta) else ""
  }

  function TextAt(buffers: map<string, string>, key: string): string { if key in buffers then buffers[key] else "" }

  function NextBuffers(buffers: map<string, string>, n: ServerNotification): map<string, string> {
    if BufferKey(n).Some? then buffers[BufferKey(n).value := TextAt(buffers, BufferKey(n).value) + Appended(n)]
    else if n.ItemCompleted? && n.itemId.Some? then buffers - {n.itemId.value}
    else buffers
  }

  function EmittedText(buffers: map<string, string>, n: ServerNotification): Option<TextItem> {
    match n
    case MessageDelta(item, delta) =>
      Some(TextItem(AGENT_MESSAGE_PREFIX + "-" + StringAt(item), TextAt(buffers, StringAt(item)) + StringAt(delta)))
    case ReasoningDelta(_, _, delta) =>
      Some(TextItem(BufferKey(n).value, TextAt(buffers, BufferKey(n).value) + StringAt(delta)))
    case SummaryDelta(_, _, delta) =>
      Some(TextItem(BufferKey(n).value, TextAt(buffers, BufferKey(n).value) + StringAt(delta)))
    case _ => None
  }

  class NotificationMapper {
    var textBuffers: map<string, string>

    constructor ()
      ensures textBuffers == map[]
    {
      textBuffers := map[];
    }

    /** Appends to the buffer under this key and returns the whole of it. */
    method Push(key: string, delta: string) returns (text: string)
      modifies this
      ensures text == TextAt(old(textBuffers), key) + delta
      ensures textBuffers == old(textBuffers)[key := text]
    {
      var buffer := if key in textBuffers then textBuffers[key] else "";
      buffer := buffer + delta;
      textBuffers := textBuffers[key := buffer];
      text := buffer;
    }

    /** The arms of `map_notification` that stream text, and its removal on completion. */
    method MapNotification(n: ServerNotification) returns (emitted: Option<TextItem>)
      modifies this
      ensures textBuffers == NextBuffers(old(textBuffers), n)
      ensures emitted == EmittedText(old(textBuffers), n)
    {
      hide Int;
      match n {
        case MessageDelta(item, delta) =>
          var text := Push(StringAt(item), StringAt(delta));
          return Some(TextItem(AGENT_MESSAGE_PREFIX + "-" + StringAt(item), text));
        case ReasoningDelta(item, index, delta) =>
          var key := ReasoningKey(StringAt(item), IntAt(index));
          var text := Push(key, StringAt(delta));
          return Some(TextItem(key, text));
        case SummaryDelta(item, index, delta) =>
          var key := SummaryKey(StringAt(item), IntAt(index));
          var text := Push(key, StringAt(delta));
          return Some(TextItem(key, text));
        case ItemCompleted(item) =>
          if item.Some? { textBuffers := textBuffers - {item.value}; }
          return None;
        case OtherNotification => return None;
      }
    }
  }

  // ---------------------------------------------------------------- buffers over a whole trace

  function BuffersAfter(trace: seq<ServerNotification>): map<string, string> {
    if trace == [] then map[] else NextBuffers(BuffersAfter(trace[..|trace|-1]), trace[|trace|-1])
  }

  /** Every delta of the trace for this buffer, joined, since an item of that name last completed. */
  function JoinedDeltas(trace: seq<ServerNotification>, key: string): string {
    if trace == [] then ""
    else
      var n, before := trace[|trace|-1], JoinedDeltas(trace[..|trace|-1], key);
      if n == ItemCompleted(Some(key)) then "" else if BufferKey(n) == Some(key) then before + Appended(n) else before
  }

  lemma {:induction false} BuffersHoldDeltas(trace: seq<ServerNotification>, key: string)
    ensures TextAt(BuffersAfter(trace), key) == JoinedDeltas(trace, key)
  {
    hide BufferKey, Appended;
    if trace == [] {
    } else {
      BuffersHoldDeltas(trace[..|trace|-1], key);
      CompletionHasNoKey(trace[|trace|-1]);
    }
  }

  lemma CompletionHasNoKey(n: ServerNotification)
    ensures n.ItemCompleted? || n.OtherNotification? <==> BufferKey(n).None?
    ensures BufferKey(n).None? ==> Appended(n) == ""
  {}

  // ---------------------------------------------------------------- one item's text

  /** The parameter is this string; one that is missing is the empty string. */
  predicate Names(param: Option<string>, name: string) { param == Some(name) || (param.None? && name == "") }

  /** The parameter is this number; one that is missing is zero. */
  predicate Numbers(param: Option<int>, n: int) { param == Some(n) || (param.None? && n == 0) }

  /** The text with what the delta adds to it: nothing when it is missing. */
  function With(text: string, delta: Option<string>): string { if delta.Some? then text + delta.value else text }

  /** The message deltas of one item since it last completed. */
  function MessageText(trace: seq<ServerNotification>, item: string): string {
    if trace == [] then ""
    else
      var n, before := trace[|trace|-1], MessageText(trace[..|trace|-1], item);
      if n == ItemCompleted(Some(item)) then ""
      else if n.MessageDelta? && Names(n.itemId, item) then With(before, n.delta)
      else before
  }

  /** All reasoning deltas of one part of one item. */
  function ReasoningText(trace: seq<ServerNotification>, item: string, index: int): string {
    if trace == [] then ""
    else
      var n, before := trace[|trace|-1], ReasoningText(trace[..|trace|-1], item, index);
      if n.ReasoningDelta? && Names(n.itemId, item) && Numbers(n.index, index) then With(before, n.delta)
      else before
  }

  function SummaryText(trace: seq<ServerNotification>, item: string, index: int): string {
    if trace == [] then ""
    else
      var n, before := trace[|trace|-1], SummaryText(trace[..|trace|-1], item, index);
      if n.SummaryDelta? && Names(n.itemId, item) && Numbers(n.index, index) then With(before, n.delta)
      else before
  }

  lemma ParametersAre(s: Option<string>, i: Option<int>, text: string, n: int)
    ensures Names(s, text) <==> StringAt(s) == text
    ensures Numbers(i, n) <==> IntAt(i) == n
    ensures With(text, s) == text + StringAt(s)
  {
    assert text + "" == text;
  }

  /** Names that cannot be taken for another buffer's: message and completed items do not look like
      reasoning buffers, reasoning items do not look like summaries, and parts are not numbered below 0. */
  predicate Plain(n: ServerNotification) {
    match n
    case MessageDelta(item, _) => !(REASONING_PREFIX + "-" <= StringAt(item))
    case ReasoningDelta(item, index, _) => IntAt(index) >= 0 && !("summary-" <= StringAt(item))
    case SummaryDelta(_, index, _) => IntAt(index) >= 0
    case ItemCompleted(item) => !(REASONING_PREFIX + "-" <= StringAt(item))
    case OtherNotification => true
  }

  predicate PlainTrace(trace: seq<ServerNotification>) { forall n :: n in trace ==> Plain(n) }

  /** The dash before the number is the last one. */
  lemma LastDash(item: string, n: nat)
    ensures var s := Numbered(item, n); s[|item|] == '-' && forall k :: |item| < k < |s| ==> s[k] != '-'
  {
    var s := Numbered(item, n);
    forall k | |item| < k < |s| ensures s[k] != '-' { assert s[k] in Nat(n); }
  }

  lemma NumberedInjective(a: string, m: nat, b: string, n: nat)
    requires Numbered(a, m) == Numbered(b, n)
    ensures a == b && m == n
  {
    var s, t := Numbered(a, m), Numbered(b, n);
    assert s[|a|] == '-' && t[|b|] == '-';
    LastDash(a, m); LastDash(b, n);
    assert a == s[..|a|] && b == t[..|b|] && Nat(m) == s[|a| + 1..] && Nat(n) == t[|b| + 1..];
    NatInjective(m, n);
  }

  lemma KeyForms(item: string, index: int)
    ensures REASONING_PREFIX + "-" <= ReasoningKey(item, index)
    ensures ReasoningKey(item, index)[|REASONING_PREFIX| + 1..] == Numbered(item, index)
    ensures REASONING_PREFIX + "-" <= SummaryKey(item, index)
    ensures SummaryKey(item, index) == ReasoningKey("summary-" + item, index)
  {
    hide Int;
    assert REASONING_PREFIX + "-summary-" == REASONING_PREFIX + "-" + "summary-";
    assert "summary-" + Numbered(item, index) == Numbered("summary-" + item, index);
  }

  /** Two parts that print alike: the same part, or one numbered below zero and the other the same number
      above zero of the item with a dash more. */
  predicate PrintAlike(a: string, m: int, b: string, n: int) {
    || (a == b && m == n)
    || (m < 0 && n == -m && b == a + "-")
    || (n < 0 && m == -n && a == b + "-")
  }

  /** The dash of a negative number reads as part of the item. */
  lemma NegativeIsDashed(item: string, n: int)
    requires n < 0
    ensures Numbered(item, n) == Numbered(item + "-", -n)
  {
    assert item + "-" + ("-" + Nat(-n)) == item + "-" + "-" + Nat(-n);
  }

  lemma NumberedAlike(a: string, m: int, b: string, n: int)
    ensures Numbered(a, m) == Numbered(b, n) <==> PrintAlike(a, m, b, n)
  {
    if m < 0 { NegativeIsDashed(a, m); }
    if n < 0 { NegativeIsDashed(b, n); }
    var c, d := if m < 0 then a + "-" else a, if n < 0 then b + "-" else b;
    var k, l := if m < 0 then -m else m, if n < 0 then -n else n;
    hide Numbered;
    if Numbered(c, k) == Numbered(d, l) { NumberedInjective(c, k, d, l); }
    if m < 0 && n < 0 && c == d { assert a == c[..|c|-1] && b == d[..|d|-1]; }
  }

  /** Exactly which keys collide, for all items and numbers: those that print alike, a summary counting as
      reasoning of an item named `summary-` and so on. */
  lemma KeysApart(a: string, m: int, b: string, n: int)
    ensures ReasoningKey(a, m) == ReasoningKey(b, n) <==> PrintAlike(a, m, b, n)
    ensures SummaryKey(a, m) == SummaryKey(b, n) <==> PrintAlike(a, m, b, n)
    ensures ReasoningKey(a, m) == SummaryKey(b, n) <==> PrintAlike(a, m, "summary-" + b, n)
  {
    KeyForms(a, m); KeyForms(b, n); KeyForms("summary-" + a, m); KeyForms("summary-" + b, n);
    hide ReasoningKey, SummaryKey, Numbered;
    NumberedAlike(a, m, b, n);
    NumberedAlike("summary-" + a, m, "summary-" + b, n);
    NumberedAlike(a, m, "summary-" + b, n);
    SamePrefix("summary-", a, b);
    SamePrefix("summary-", a + "-", b);
    SamePrefix("summary-", a, b + "-");
    assert "summary-" + (a + "-") == "summary-" + a + "-" && "summary-" + (b + "-") == "summary-" + b + "-";
  }

  lemma SamePrefix(prefix: string, a: string, b: string)
    ensures prefix + a == prefix + b <==> a == b
  {
    assert a == (prefix + a)[|prefix|..] && b == (prefix + b)[|prefix|..];
  }

  lemma {:induction false} MessageTextIsBuffer(trace: seq<ServerNotification>, item: string)
    requires PlainTrace(trace) && !(REASONING_PREFIX + "-" <= item)
    ensures JoinedDeltas(trace, item) == MessageText(trace, item)
  {
    if trace == [] {
    } else {
      var n := trace[|trace|-1];
      MessageTextIsBuffer(trace[..|trace|-1], item);
      if n.ReasoningDelta? || n.SummaryDelta? { KeyForms(StringAt(n.itemId), IntAt(n.index)); }
      if n.MessageDelta? {
        ParametersAre(n.itemId, None, item, 0);
        ParametersAre(n.delta, None, MessageText(trace[..|trace|-1], item), 0);
      }
      hide ReasoningKey, SummaryKey, Names, With, StringAt;
    }
  }

  lemma {:induction false} ReasoningTextIsBuffer(trace: seq<ServerNotification>, item: string, index: nat)
    requires PlainTrace(trace) && !("summary-" <= item)
    ensures JoinedDeltas(trace, ReasoningKey(item, index)) == ReasoningText(trace, item, index)
  {
    if trace == [] {
    } else {
      var n := trace[|trace|-1];
      ReasoningTextIsBuffer(trace[..|trace|-1], item, index);
      KeyForms(item, index);
      assert Plain(n);
      if n.ReasoningDelta? {
        KeysApart(StringAt(n.itemId), IntAt(n.index), item, index);
        ParametersAre(n.itemId, n.index, item, index);
        ParametersAre(n.delta, None, ReasoningText(trace[..|trace|-1], item, index), 0);
      }
      if n.SummaryDelta? { KeysApart(item, index, StringAt(n.itemId), IntAt(n.index)); }
      hide ReasoningKey, SummaryKey, Names, Numbers, With, StringAt, IntAt;
    }
  }

  lemma {:induction false} SummaryTextIsBuffer(trace: seq<ServerNotification>, item: string, index: nat)
    requires PlainTrace(trace)
    ensures JoinedDeltas(trace, SummaryKey(item, index)) == SummaryText(trace, item, index)
  {
    if trace == [] {
    } else {
      var n := trace[|trace|-1];
      SummaryTextIsBuffer(trace[..|trace|-1], item, index);
      KeyForms(item, index);
      assert Plain(n);
      if n.ReasoningDelta? { KeysApart(StringAt(n.itemId), IntAt(n.index), item, index); }
      if n.SummaryDelta? {
        KeysApart(StringAt(n.itemId), IntAt(n.index), item, index);
        ParametersAre(n.itemId, n.index, item, index);
        ParametersAre(n.delta, None, SummaryText(trace[..|trace|-1], item, index), 0);
      }
      hide ReasoningKey, SummaryKey, Names, Numbers, With, StringAt, IntAt;
    }
  }

  /** What a delta shows after any trace of plain names: for a message, all its item's deltas since the
      item last completed; for reasoning and summaries, all deltas of that part ever. */
  lemma DeltaShowsItsItem(trace: seq<ServerNotification>, n: ServerNotification, item: string, index: int)
    requires PlainTrace(trace) && Plain(n)
    ensures n.MessageDelta? && Names(n.itemId, item) ==>
      EmittedText(BuffersAfter(trace), n)
      == Some(TextItem("codex-msg-" + item, With(MessageText(trace, item), n.delta)))
    ensures n.ReasoningDelta? && Names(n.itemId, item) && Numbers(n.index, index) ==>
      EmittedText(BuffersAfter(trace), n)
      == Some(TextItem("codex-reason-" + item + "-" + Int(index), With(ReasoningText(trace, item, index), n.delta)))
    ensures n.SummaryDelta? && Names(n.itemId, item) && Numbers(n.index, index) ==>
      EmittedText(BuffersAfter(trace), n)
      == Some(TextItem("codex-reason-summary-" + item + "-" + Int(index),
                       With(SummaryText(trace, item, index), n.delta)))
  {
    hide BuffersAfter, MessageText, ReasoningText, SummaryText, JoinedDeltas, PlainTrace, Int, Names, Numbers, With;
    match n
    case MessageDelta(id, delta) =>
      ParametersAre(id, None, item, 0);
      ParametersAre(delta, None, MessageText(trace, item), 0);
      if Names(id, item) {
        BuffersHoldDeltas(trace, item);
        MessageTextIsBuffer(trace, item);
        assert AGENT_MESSAGE_PREFIX + "-" == "codex-msg-";
      }
    case ReasoningDelta(id, i, delta) =>
      ParametersAre(id, i, item, index);
      ParametersAre(delta, None, ReasoningText(trace, item, index), 0);
      if Names(id, item) && Numbers(i, index) {
        BuffersHoldDeltas(trace, ReasoningKey(item, index));
        ReasoningTextIsBuffer(trace, item, index);
        assert ReasoningKey(item, index) == "codex-reason-" + item + "-" + Int(index);
      }
    case SummaryDelta(id, i, delta) =>
      ParametersAre(id, i, item, index);
      ParametersAre(delta, None, SummaryText(trace, item, index), 0);
      if Names(id, item) && Numbers(i, index) {
        BuffersHoldDeltas(trace, SummaryKey(item, index));
        SummaryTextIsBuffer(trace, item, index);
        assert SummaryKey(item, index) == "codex-reason-summary-" + item + "-" + Int(index);
      }
    case _ =>
  }

  /** What does not stream text shows none. */
  lemma OthersShowNothing(buffers: map<string, string>, n: ServerNotification)
    ensures n.ItemCompleted? || n.OtherNotification? <==> EmittedText(buffers, n).None?
  {}
}
