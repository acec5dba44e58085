/** The text the server stores in the `tags` column: `JSON.stringify` of an
    array of strings, and the `JSON.parse` that reads it back. Only arrays
    of strings are modelled; any other text counts as malformed. */
module TagJson {
  import opened Wrappers
  import opened Text

  function HexDigit(d: nat): char
    requires d < 16
  {
    "0123456789abcdef"[d]
  }

  function HexValue(c: char): (r: Option<nat>)
    ensures r.Some? ==> r.value < 16
  {
    if '0' <= c <= '9' then Some(c as int - '0' as int)
    else if 'a' <= c <= 'f' then Some(c as int - 'a' as int + 10)
    else if 'A' <= c <= 'F' then Some(c as int - 'A' as int + 10)
    else None
  }

  /** What `JSON.stringify` writes for one character inside a string:
      a quote and a backslash are escaped, control characters use the short
      escapes where JSON has one and `\u00xx` otherwise. */
  function EscapeChar(c: char): string {
    if c == '"' then ['\\', '"']
    else if c == '\\' then ['\\', '\\']
    else if c as int == 8 then ['\\', 'b']
    else if c as int == 12 then ['\\', 'f']
    else if c == '\n' then ['\\', 'n']
    else if c == '\r' then ['\\', 'r']
    else if c == '\t' then ['\\', 't']
    else if c as int < 0x20 then ['\\', 'u', '0', '0', HexDigit(c as int / 16), HexDigit(c as int % 16)]
    else [c]
  }

  function Escape(s: string): string {
    if s == [] then [] else EscapeChar(s[0]) + Escape(s[1..])
  }

  function EncodeString(s: string): string {
    ['"'] + Escape(s) + ['"']
  }

  function EncodeAll(tags: seq<string>): (r: seq<string>)
    ensures |r| == |tags|
  {
    seq(|tags|, i requires 0 <= i < |tags| => EncodeString(tags[i]))
  }

  /** `JSON.stringify(tags)`: the text is always bracketed. */
  function EncodeTags(tags: seq<string>): (r: string)
    ensures |r| >= 2 && r[0] == '[' && r[|r| - 1] == ']'
  {
    ['['] + Join(EncodeAll(tags), [',']) + [']']
  }

  /** The character a backslash escape stands for and how many characters
      after the backslash the escape takes. A `\u` escape naming a lone
      surrogate has no character here and is refused. */
  function Unescape(s: string): (r: Option<(char, nat)>)
    ensures r.Some? ==> 1 <= r.value.1 <= |s|
  {
    if s == [] then None
    else if s[0] == '"' then Some(('"', 1))
    else if s[0] == '\\' then Some(('\\', 1))
    else if s[0] == '/' then Some(('/', 1))
    else if s[0] == 'b' then Some((8 as char, 1))
    else if s[0] == 'f' then Some((12 as char, 1))
    else if s[0] == 'n' then Some(('\n', 1))
    else if s[0] == 'r' then Some(('\r', 1))
    else if s[0] == 't' then Some(('\t', 1))
    else if s[0] == 'u' && |s| >= 5 then
      match (HexValue(s[1]), HexValue(s[2]), HexValue(s[3]), HexValue(s[4]))
      case (Some(a), Some(b), Some(c), Some(d)) =>
        var v := ((a * 16 + b) * 16 + c) * 16 + d;
        if 0xD800 <= v < 0xE000 then None else Some((v as char, 5))
      case _ => None
    else None
  }

  /** Reads the rest of a string literal whose opening quote is already
      consumed: the decoded text and what follows the closing quote. */
  function DecodeBody(s: string): (r: Option<(string, string)>)
    ensures r.Some? ==> |r.value.1| < |s|
    decreases |s|
  {
    if s == [] then None
    else if s[0] == '"' then Some(([], s[1..]))
    else if s[0] == '\\' then
      match Unescape(s[1..])
      case None => None
      case Some((c, k)) =>
        match DecodeBody(s[1 + k..])
        case None => None
        case Some((t, rest)) => Some(([c] + t, rest))
    else if s[0] as int < 0x20 then None
    else
      match DecodeBody(s[1..])
      case None => None
      case Some((t, rest)) => Some(([s[0]] + t, rest))
  }

  /** Reads `"…","…",…,"…"]` up to the end of the text. */
  function DecodeElements(s: string): Option<seq<string>>
    decreases |s|
  {
    if s == [] || s[0] != '"' then None
    else
      match DecodeBody(s[1..])
      case None => None
      case Some((t, rest)) =>
        if rest == [']'] then Some([t])
        else if rest != [] && rest[0] == ',' then
          match DecodeElements(rest[1..])
          case None => None
          case Some(ts) => Some([t] + ts)
        else None
  }

  /** `JSON.parse` of a tag column that holds an array of strings; `None`
      where `JSON.parse` would throw (or yield something else). */
  function DecodeTags(blob: string): (r: Option<seq<string>>)
    ensures r.Some? ==> |blob| >= 2 && blob[0] == '['
  {
    if blob == ['[', ']'] then Some([])
    else if blob != [] && blob[0] == '[' then DecodeElements(blob[1..])
    else None
  }

  lemma {:induction false} HexDigitValue(d: nat)
    requires d < 16
    ensures HexValue(HexDigit(d)) == Some(d)
  {
    var digits := "0123456789abcdef";
    assert HexDigit(d) == digits[d];
    if d < 10 {
      assert digits[d] as int == '0' as int + d;
    } else {
      assert digits[d] as int == 'a' as int + d - 10;
    }
  }

  /** Decoding an escaped character gives the character back. */
  lemma {:induction false} EscapeCharDecodes(c: char, rest: string)
    ensures DecodeBody(EscapeChar(c) + rest) ==
      match DecodeBody(rest)
      case None => None
      case Some((t, r)) => Some(([c] + t, r))
  {
    var e := EscapeChar(c);
    if |e| == 2 {
      ShortEscapeDecodes(c, rest);
    } else if |e| == 6 {
      UnicodeEscapeDecodes(c, rest);
    } else {
      var s := e + rest;
      assert s[0] == c && s[1..] == rest;
    }
  }

  lemma {:induction false} ShortEscapeDecodes(c: char, rest: string)
    requires |EscapeChar(c)| == 2
    ensures DecodeBody(EscapeChar(c) + rest) ==
      match DecodeBody(rest)
      case None => None
      case Some((t, r)) => Some(([c] + t, r))
  {
    var e := EscapeChar(c);
    var s := e + rest;
    assert s[0] == '\\' && s[1] == e[1];
    assert Unescape(s[1..]) == Some((c, 1));
    assert s[1 + 1..] == rest;
  }

  lemma {:induction false} UnicodeEscapeDecodes(c: char, rest: string)
    requires |EscapeChar(c)| == 6
    ensures DecodeBody(EscapeChar(c) + rest) ==
      match DecodeBody(rest)
      case None => None
      case Some((t, r)) => Some(([c] + t, r))
  {
    var e := EscapeChar(c);
    var s := e + rest;
    var n := c as int;
    assert n < 0x20 && e == ['\\', 'u', '0', '0', HexDigit(n / 16), HexDigit(n % 16)];
    HexDigitValue(n / 16);
    HexDigitValue(n % 16);
    assert s[0] == '\\';
    var u := s[1..];
    assert u[0] == 'u' && u[1] == '0' && u[2] == '0';
    assert u[3] == HexDigit(n / 16) && u[4] == HexDigit(n % 16);
    assert ((0 * 16 + 0) * 16 + n / 16) * 16 + n % 16 == n;
    assert Unescape(u) == Some((c, 5));
    assert s[1 + 5..] == rest;
  }

  /** An escaped string followed by its closing quote decodes to the string. */
  lemma {:induction false} DecodeBodyRoundTrip(s: string, rest: string)
    ensures DecodeBody(Escape(s) + ['"'] + rest) == Some((s, rest))
  {
    if s == [] {
      assert Escape(s) + ['"'] + rest == ['"'] + rest;
      assert (['"'] + rest)[1..] == rest;
    } else {
      DecodeBodyRoundTrip(s[1..], rest);
      assert Escape(s) + ['"'] + rest == EscapeChar(s[0]) + (Escape(s[1..]) + ['"'] + rest);
      EscapeCharDecodes(s[0], Escape(s[1..]) + ['"'] + rest);
      assert [s[0]] + s[1..] == s;
    }
  }

  /** One element: a quoted string and what follows it. */
  lemma {:induction false} DecodeElementsHead(t: string, after: string)
    ensures DecodeElements(EncodeString(t) + after) ==
      if after == [']'] then Some([t])
      else if after != [] && after[0] == ',' then
        match DecodeElements(after[1..])
        case None => None
        case Some(ts) => Some([t] + ts)
      else None
  {
    var s := EncodeString(t) + after;
    assert s[0] == '"';
    assert s[1..] == Escape(t) + ['"'] + after;
    DecodeBodyRoundTrip(t, after);
  }

  lemma {:induction false} ElementsRoundTrip(tags: seq<string>)
    requires |tags| >= 1
    ensures DecodeElements(Join(EncodeAll(tags), [',']) + [']']) == Some(tags)
  {
    if |tags| == 1 {
      assert Join(EncodeAll(tags), [',']) == EncodeString(tags[0]);
      DecodeElementsHead(tags[0], [']']);
      assert tags == [tags[0]];
    } else {
      ElementsRoundTrip(tags[1..]);
      ElementsStep(tags);
    }
  }

  /** One more element in front of an array body that decodes. */
  lemma {:induction false} ElementsStep(tags: seq<string>)
    requires |tags| >= 2
    requires DecodeElements(Join(EncodeAll(tags[1..]), [',']) + [']']) == Some(tags[1..])
    ensures DecodeElements(Join(EncodeAll(tags), [',']) + [']']) == Some(tags)
  {
    var parts := EncodeAll(tags);
    assert parts[1..] == EncodeAll(tags[1..]);
    var tail := Join(parts[1..], [',']) + [']'];
    var after := [','] + tail;
    assert after[0] == ',' && after != [']'] && after[1..] == tail;
    JoinHead(parts, [','], [']']);
    DecodeElementsHead(tags[0], after);
    assert [tags[0]] + tags[1..] == tags;
  }

  lemma JoinHead(parts: seq<string>, sep: string, last: string)
    requires |parts| >= 2
    ensures Join(parts, sep) + last == parts[0] + (sep + (Join(parts[1..], sep) + last))
  {
  }

  /** `JSON.parse(JSON.stringify(tags))` gives the tags back. */
  lemma {:induction false} TagsRoundTrip(tags: seq<string>)
    ensures DecodeTags(EncodeTags(tags)) == Some(tags)
  {
    var blob := EncodeTags(tags);
    if tags == [] {
      assert blob == ['[', ']'];
    } else {
      var inner := Join(EncodeAll(tags), [',']);
      ElementsRoundTrip(tags);
      assert inner[0] == '"';
      assert blob[1..] == inner + [']'];
      assert blob != ['[', ']'] by { assert blob[1] == '"'; }
    }
  }
}
