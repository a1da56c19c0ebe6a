/** `JSON.stringify({ content })` and the reading of it by `JSON.parse(data).content`. */
module Json {
  import opened Text
  import opened Wrappers

  function HexDigit(d: nat): (c: char)
    requires d < 16
    ensures c != '\n'
  {
    if d < 10 then DigitChar(d) else ('a' as int + d - 10) as char
  }

  function HexValue(c: char): Option<nat> {
    if '0' <= c <= '9' then Some(c as int - '0' as int)
    else if 'a' <= c <= 'f' then Some(c as int - 'a' as int + 10)
    else if 'A' <= c <= 'F' then Some(c as int - 'A' as int + 10)
    else None
  }

  /** The value of four hexadecimal digits, as in a `\uXXXX` escape. */
  function HexQuad(s: string): Option<nat>
    requires |s| == 4
  {
    match (HexValue(s[0]), HexValue(s[1]), HexValue(s[2]), HexValue(s[3]))
    case (Some(a), Some(b), Some(c), Some(d)) => Some(((a * 16 + b) * 16 + c) * 16 + d)
    case _ => None
  }

  /** How `JSON.stringify` writes one character inside a string literal. */
  function EscapeChar(c: char): (r: string)
    ensures |r| >= 1 && '\n' !in r
  {
    if c == '"' then "\\\""
    else if c == '\\' then "\\\\"
    else if c == '\U{0008}' then "\\b"
    else if c == '\t' then "\\t"
    else if c == '\n' then "\\n"
    else if c == '\U{000C}' then "\\f"
    else if c == '\r' then "\\r"
    else if (c as int) < 0x20 then "\\u00" + [HexDigit((c as int) / 16), HexDigit((c as int) % 16)]
    else [c]
  }

  function Escape(s: string): (r: string)
    ensures '\n' !in r
  {
    if s == [] then [] else EscapeChar(s[0]) + Escape(s[1..])
  }

  /** The character a two-character escape `\x` stands for. */
  function ShortEscape(c: char): Option<char> {
    if c == '"' then Some('"')
    else if c == '\\' then Some('\\')
    else if c == '/' then Some('/')
    else if c == 'b' then Some('\U{0008}')
    else if c == 't' then Some('\t')
    else if c == 'n' then Some('\n')
    else if c == 'f' then Some('\U{000C}')
    else if c == 'r' then Some('\r')
    else None
  }

  /** The body of a JSON string literal read back into its characters; `None` when
      the body is not valid (a raw quote or control character, a bad escape).
      A `\u` escape of a UTF-16 surrogate half is not read. */
  function Unescape(s: string): Option<string>
    decreases |s|
  {
    if s == [] then Some([])
    else if s[0] == '"' || (s[0] as int) < 0x20 then None
    else if s[0] != '\\' then Prepend(s[0], Unescape(s[1..]))
    else if |s| < 2 then None
    else if s[1] == 'u' then
      if |s| < 6 then None
      else match HexQuad(s[2..6])
        case Some(v) =>
          if v < 0xD800 || (0xE000 <= v < 0x11_0000) then Prepend(v as char, Unescape(s[6..])) else None
        case None => None
    else match ShortEscape(s[1])
      case Some(c) => Prepend(c, Unescape(s[2..]))
      case None => None
  }

  function Prepend(c: char, r: Option<string>): Option<string> {
    match r
    case Some(t) => Some([c] + t)
    case None => None
  }

  lemma HexRoundTrip(c: char)
    requires (c as int) < 0x20
    ensures HexQuad("00" + [HexDigit((c as int) / 16), HexDigit((c as int) % 16)]) == Some(c as int)
  {
  }

  lemma {:induction false} UnescapeEscapeChar(c: char, rest: string)
    ensures Unescape(EscapeChar(c) + rest) == Prepend(c, Unescape(rest))
  {
    var e := EscapeChar(c);
    var s := e + rest;
    if (c as int) < 0x20 && c != '\U{0008}' && c != '\t' && c != '\n' && c != '\U{000C}' && c != '\r' {
      HexRoundTrip(c);
      assert s[2..6] == "00" + [HexDigit((c as int) / 16), HexDigit((c as int) % 16)];
      assert s[6..] == rest;
      assert (c as int) as char == c;
    } else if |e| == 2 {
      assert s[2..] == rest;
    } else {
      assert s[1..] == rest;
    }
  }

  /** Reading back what `Escape` wrote gives the original characters. */
  lemma {:induction false} UnescapeEscape(s: string)
    ensures Unescape(Escape(s)) == Some(s)
  {
    if s != [] {
      UnescapeEscape(s[1..]);
      UnescapeEscapeChar(s[0], Escape(s[1..]));
      assert [s[0]] + s[1..] == s;
    }
  }

  const ContentPrefix: string := "{\"content\":\""
  const ContentSuffix: string := "\"}"

  /** `JSON.stringify({ content })`. */
  function EncodeContent(content: string): (r: string)
    ensures '\n' !in r
    ensures |r| >= 1 && r[0] == '{'
  {
    ContentPrefix + Escape(content) + ContentSuffix
  }

  /** The `content` string of a payload of the shape `EncodeContent` writes,
      or `None` when the payload is anything else. */
  function DecodeContent(data: string): Option<string> {
    if |data| >= |ContentPrefix| + |ContentSuffix|
      && data[..|ContentPrefix|] == ContentPrefix
      && data[|data| - |ContentSuffix|..] == ContentSuffix
    then Unescape(data[|ContentPrefix|..|data| - |ContentSuffix|])
    else None
  }

  /** Decoding an encoded payload gives back exactly the content. */
  lemma DecodeEncode(content: string)
    ensures DecodeContent(EncodeContent(content)) == Some(content)
  {
    var e := Escape(content);
    var r := EncodeContent(content);
    assert r[..|ContentPrefix|] == ContentPrefix;
    assert r[|r| - |ContentSuffix|..] == ContentSuffix;
    assert r[|ContentPrefix|..|r| - |ContentSuffix|] == e;
    UnescapeEscape(content);
  }
}
