/** Configuration overrides printed for the Codex process (crates/codex-bridge/src/external.rs), and the
    reader they are meant for: `key=value` with the value a single-line basic string of TOML v1.0.0,
    section "String". */
module Toml {
  import opened Sequences

  const QUOTE := '\"'
  const BACKSLASH := '\\'
  const DELETE: char := 0x7F as char

  function HexDigit(n: nat): char
    requires n < 16
  {
    "0123456789ABCDEF"[n]
  }

  /** What the printer writes for one character. */
  function Escape(c: char): string {
    if c == QUOTE then [BACKSLASH, QUOTE]
    else if c == BACKSLASH then [BACKSLASH, BACKSLASH]
    else if c == '\n' then [BACKSLASH, 'n']
    else if c == '\r' then [BACKSLASH, 'r']
    else if c == '\t' then [BACKSLASH, 't']
    else if c as int < 0x20 then [BACKSLASH, 'u', '0', '0', HexDigit(c as int / 16), HexDigit(c as int % 16)]
    else [c]
  }

  function Escaped(raw: string): string {
    if raw == "" then "" else Escaped(raw[..|raw|-1]) + Escape(raw[|raw|-1])
  }

  function Quoted(raw: string): string { [QUOTE] + Escaped(raw) + [QUOTE] }

  function Override(key: string, raw: string): string { key + "=" + Quoted(raw) }

  lemma EscapedGrows(raw: string, i: nat)
    requires i < |raw|
    ensures [QUOTE] + Escaped(raw[..i + 1]) == [QUOTE] + Escaped(raw[..i]) + Escape(raw[i])
  {
    hide Escape;
    assert raw[..i + 1][..i] == raw[..i];
  }

  /** `format_toml_string_override_value` */
  method FormatOverride(key: string, raw: string) returns (printed: string)
    ensures printed == Override(key, raw)
  {
    var value := [QUOTE];
    assert Escaped(raw[..0]) == "" && raw[..|raw|] == raw;
    hide Escaped;
    for i := 0 to |raw|
      invariant value == [QUOTE] + Escaped(raw[..i])
    {
      var c := raw[i];
      ghost var before := value;
      if c == QUOTE { value := value + [BACKSLASH, QUOTE]; }
      else if c == BACKSLASH { value := value + [BACKSLASH, BACKSLASH]; }
      else if c == '\n' { value := value + [BACKSLASH, 'n']; }
      else if c == '\r' { value := value + [BACKSLASH, 'r']; }
      else if c == '\t' { value := value + [BACKSLASH, 't']; }
      else if c as int < 0x20 {
        value := value + [BACKSLASH, 'u', '0', '0', HexDigit(c as int / 16), HexDigit(c as int % 16)];
      } else { value := value + [c]; }
      assert value == before + Escape(c);
      EscapedGrows(raw, i);
    }
    value := value + [QUOTE];
    printed := key + "=" + value;
  }

  // ---------------------------------------------------------------- the reader

  /** Splits at the first equals sign. */
  function SplitAtEquals(s: string): Option<(string, string)> {
    if s == "" then None
    else if s[0] == '=' then Some(("", s[1..]))
    else match SplitAtEquals(s[1..])
      case None => None
      case Some((key, value)) => Some(([s[0]] + key, value))
  }

  function HexValue(c: char): Option<nat> {
    if '0' <= c <= '9' then Some(c as int - '0' as int)
    else if 'A' <= c <= 'F' then Some(c as int - 'A' as int + 10)
    else if 'a' <= c <= 'f' then Some(c as int - 'a' as int + 10)
    else None
  }

  /** The number these hexadecimal digits write, most significant first. */
  function HexNumber(digits: string): Option<nat> {
    if digits == "" then Some(0)
    else match (HexNumber(digits[..|digits|-1]), HexValue(digits[|digits|-1]))
      case (Some(high), Some(low)) => Some(16 * high + low)
      case _ => None
  }

  predicate IsScalar(n: nat) { n < 0xD800 || 0xE000 <= n < 0x11_0000 }

  /** A character that may stand for itself: anything but a quote, a backslash and the control
      characters other than tab. */
  predicate Unescaped(c: char) {
    c == '\t' || (c as int >= 0x20 && c != QUOTE && c != BACKSLASH && c != DELETE)
  }

  /** A backslash at the start of `s`: the character it stands for and how long its escape is. */
  function ReadEscape(s: string): Option<(char, nat)>
    requires |s| >= 2
  {
    match s[1]
    case 'b' => Some((0x08 as char, 2))
    case 't' => Some(('\t', 2))
    case 'n' => Some(('\n', 2))
    case 'f' => Some((0x0C as char, 2))
    case 'r' => Some(('\r', 2))
    case 'u' => ReadCodePoint(s, 4)
    case 'U' => ReadCodePoint(s, 8)
    case c => if c == QUOTE || c == BACKSLASH then Some((c, 2)) else None
  }

  function ReadCodePoint(s: string, digits: nat): Option<(char, nat)> {
    if |s| < 2 + digits then None
    else match HexNumber(s[2..2 + digits])
      case Some(n) => if IsScalar(n) then Some((n as char, 2 + digits)) else None
      case None => None
  }

  /** What follows the opening quote, up to a closing quote that must be the end. */
  function ReadBody(s: string): Option<string> {
    if s == "" then None
    else if s[0] == QUOTE then if |s| == 1 then Some("") else None
    else if s[0] == BACKSLASH then
      if |s| < 2 then None
      else match ReadEscape(s)
        case Some((c, length)) => if 0 < length <= |s| then Prepended(c, ReadBody(s[length..])) else None
        case None => None
    else if Unescaped(s[0]) then Prepended(s[0], ReadBody(s[1..]))
    else None
  }

  function Prepended(c: char, rest: Option<string>): Option<string> {
    if rest.Some? then Some([c] + rest.value) else None
  }

  function ReadBasicString(s: string): Option<string> {
    if s != "" && s[0] == QUOTE then ReadBody(s[1..]) else None
  }

  function ReadOverride(s: string): Option<(string, string)> {
    match SplitAtEquals(s)
    case Some((key, value)) => if ReadBasicString(value).Some? then Some((key, ReadBasicString(value).value)) else None
    case None => None
  }

  // ---------------------------------------------------------------- what is printed is what is read

  lemma HexOfControl(c: char)
    requires c as int < 0x20
    ensures HexNumber(['0', '0', HexDigit(c as int / 16), HexDigit(c as int % 16)]) == Some(c as int)
  {
    var digits := ['0', '0', HexDigit(c as int / 16), HexDigit(c as int % 16)];
    assert HexNumber("") == Some(0);
    assert digits[..1] == ['0'] && ['0'][..0] == "";
    assert HexNumber(digits[..1]) == Some(0);
    assert digits[..2][..1] == digits[..1];
    assert HexNumber(digits[..2]) == Some(0);
    assert digits[..3][..2] == digits[..2];
    HexDigitReads(c as int / 16);
    HexDigitReads(c as int % 16);
    assert HexNumber(digits[..3]) == Some(c as int / 16);
  }

  lemma HexDigitReads(n: nat)
    requires n < 16
    ensures HexValue(HexDigit(n)) == Some(n)
  {}

  predicate IsShort(c: char) { c == QUOTE || c == BACKSLASH || c == '\n' || c == '\r' || c == '\t' }

  lemma ReadsBackShort(c: char, rest: string)
    requires IsShort(c)
    ensures ReadBody(Escape(c) + rest) == Prepended(c, ReadBody(rest))
  {
    var s := Escape(c) + rest;
    assert |Escape(c)| == 2 && s[0] == BACKSLASH && s[2..] == rest;
    assert ReadEscape(s) == Some((c, 2));
  }

  lemma ReadsBackControl(c: char, rest: string)
    requires c as int < 0x20 && !IsShort(c)
    ensures ReadBody(Escape(c) + rest) == Prepended(c, ReadBody(rest))
  {
    var s := Escape(c) + rest;
    HexOfControl(c);
    assert |Escape(c)| == 6 && s[0] == BACKSLASH && s[1] == 'u' && s[6..] == rest;
    assert s[2..6] == ['0', '0', HexDigit(c as int / 16), HexDigit(c as int % 16)];
    hide HexNumber, HexDigit;
    assert ReadEscape(s) == Some((c, 6));
  }

  /** Reading on after the escape of one character. */
  lemma ReadsBackOne(c: char, rest: string)
    ensures ReadBody(Escape(c) + rest) == if c == DELETE then None else Prepended(c, ReadBody(rest))
  {
    if IsShort(c) {
      ReadsBackShort(c, rest);
    } else if c as int < 0x20 {
      ReadsBackControl(c, rest);
    } else {
      var s := Escape(c) + rest;
      assert s[0] == c && s[1..] == rest;
    }
  }

  lemma {:induction false} EscapedFront(raw: string)
    requires raw != ""
    ensures Escaped(raw) == Escape(raw[0]) + Escaped(raw[1..])
  {
    hide Escape;
    var front := raw[..|raw|-1];
    if front == "" {
      assert Escaped(front) == "" && Escaped(raw[1..]) == "";
    } else {
      EscapedFront(front);
      assert front[1..] == raw[1..][..|raw|-2];
      assert Escaped(raw[1..]) == Escaped(front[1..]) + Escape(raw[|raw|-1]);
    }
  }

  lemma {:induction false} ReadsBack(raw: string)
    ensures ReadBody(Escaped(raw) + [QUOTE]) == if DELETE in raw then None else Some(raw)
  {
    if raw == "" {
      assert Escaped(raw) + [QUOTE] == [QUOTE];
    } else {
      ReadsBackFront(raw);
      ReadsBack(raw[1..]);
      hide Escape, Escaped, ReadBody;
      assert raw == [raw[0]] + raw[1..];
    }
  }

  lemma ReadsBackFront(raw: string)
    requires raw != ""
    ensures ReadBody(Escaped(raw) + [QUOTE])
      == if raw[0] == DELETE then None else Prepended(raw[0], ReadBody(Escaped(raw[1..]) + [QUOTE]))
  {
    hide Escape, Escaped, ReadBody;
    EscapedFront(raw);
    assert Escaped(raw) + [QUOTE] == Escape(raw[0]) + (Escaped(raw[1..]) + [QUOTE]);
    ReadsBackOne(raw[0], Escaped(raw[1..]) + [QUOTE]);
  }

  lemma {:induction false} SplitsAtKey(key: string, value: string)
    ensures SplitAtEquals(key + "=" + value).Some?
    ensures '=' !in key ==> SplitAtEquals(key + "=" + value) == Some((key, value))
    ensures '=' in key ==> |SplitAtEquals(key + "=" + value).value.0| < |key|
  {
    var s := key + "=" + value;
    if key == "" {
      assert s == "=" + value;
    } else {
      assert s[1..] == key[1..] + "=" + value;
      assert key == [key[0]] + key[1..];
      SplitsAtKey(key[1..], value);
    }
  }

  /** An override reads back as its key and its text exactly when the key has no equals sign and the
      text no U+007F, which the printer leaves as it is. */
  lemma OverrideReadsBack(key: string, raw: string)
    ensures ReadOverride(Override(key, raw)) == Some((key, raw)) <==> '=' !in key && DELETE !in raw
  {
    SplitsAtKey(key, Quoted(raw));
    ReadsBack(raw);
    assert Quoted(raw)[1..] == Escaped(raw) + [QUOTE];
    hide Escaped, ReadBody, SplitAtEquals;
  }

  /** What is printed: the key, an equals sign, and in quotes what each character is written as: the five short
      escapes, `\u` with four upper-case digits for the other control characters, anything else as it is. */
  lemma PrintedExactly(key: string, raw: string, c: char)
    ensures Override(key, raw) == key + "=\"" + Escaped(raw) + "\""
    ensures Escaped("") == "" && Escaped(raw + [c]) == Escaped(raw) + WrittenAs(c)
  {
    PrintedInQuotes(key, raw);
    assert (raw + [c])[..|raw|] == raw;
    WrittenIs(c);
    hide Escape, WrittenAs, Override;
  }

  lemma PrintedInQuotes(key: string, raw: string)
    ensures Override(key, raw) == key + "=\"" + Escaped(raw) + "\""
  {
    hide Escaped;
    assert "=" + ([QUOTE] + Escaped(raw) + [QUOTE]) == "=\"" + Escaped(raw) + "\"";
    assert key + "=" + ([QUOTE] + Escaped(raw) + [QUOTE]) == key + ("=" + ([QUOTE] + Escaped(raw) + [QUOTE]));
  }

  ghost function WrittenAs(c: char): string {
    if c == '\"' then "\\\""
    else if c == '\\' then "\\\\"
    else if c == '\n' then "\\n"
    else if c == '\r' then "\\r"
    else if c == '\t' then "\\t"
    else if c as int < 16 then "\\u000" + ["0123456789ABCDEF"[c as int]]
    else if c as int < 32 then "\\u001" + ["0123456789ABCDEF"[c as int - 16]]
    else [c]
  }

  lemma WrittenIs(c: char)
    ensures WrittenAs(c) == Escape(c)
  {}

  lemma {:induction false} EscapedIsPrintable(raw: string, c: char)
    requires c in Escaped(raw)
    ensures c as int >= 0x20
  {
    if c !in Escape(raw[|raw|-1]) { EscapedIsPrintable(raw[..|raw|-1], c); }
  }

  /** The printed value stays on one line: it holds no control character below U+0020. */
  lemma ValueIsOneLine(raw: string)
    ensures forall c :: c in Quoted(raw) ==> c as int >= 0x20
  {
    forall c | c in Escaped(raw) ensures c as int >= 0x20 { EscapedIsPrintable(raw, c); }
  }
}
