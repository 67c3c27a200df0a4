/** What the generator needs of JSON: the `typeof` tag of a `JSON.parse` result
    (`mostStrictTypeOf`), and `JSON.stringify` of the defaults object, whose
    keys and values are all strings. `JSON.parse` itself is not modelled: it is
    passed in as a function from text to a parse outcome. */
module Json {
  import opened Wrappers
  import opened JsText

  /** The values `JSON.parse` can return. Numbers keep their literal text:
      floating point is not modelled, only the kind of value matters here. */
  datatype JsonValue =
    | JNull
    | JBool(b: bool)
    | JNumber(literal: string)
    | JString(s: string)
    | JArray(items: seq<JsonValue>)
    | JObject(members: seq<(string, JsonValue)>)

  /** The tags `mostStrictTypeOf` can produce. */
  const TypeTags: set<string> := {"number", "boolean", "string", "object"}

  /** JavaScript's `typeof` on a parsed JSON value; `typeof null` is "object". */
  function TypeOf(v: JsonValue): string
  {
    match v
    case JNull => "object"
    case JBool(_) => "boolean"
    case JNumber(_) => "number"
    case JString(_) => "string"
    case JArray(_) => "object"
    case JObject(_) => "object"
  }

  /** `mostStrictTypeOf(v)`: `typeof JSON.parse(v)`, or "string" when parsing throws.
      A parse failure is `jsonParse(v) == None`. */
  function MostStrictTypeOf(jsonParse: string -> Option<JsonValue>, v: string): (tag: string)
    ensures tag in TypeTags
    ensures jsonParse(v).None? ==> tag == "string"
    ensures tag == "number" <==> jsonParse(v).Some? && jsonParse(v).value.JNumber?
    ensures tag == "boolean" <==> jsonParse(v).Some? && jsonParse(v).value.JBool?
    ensures tag == "string" <==> jsonParse(v).None? || jsonParse(v).value.JString?
    ensures tag == "object" <==>
              jsonParse(v).Some? && (jsonParse(v).value.JNull? || jsonParse(v).value.JArray? || jsonParse(v).value.JObject?)
  {
    match jsonParse(v)
    case None => "string"
    case Some(parsed) => TypeOf(parsed)
  }

  /** One own property of a plain object whose values are strings, such as `defaults`. */
  datatype Entry = Entry(key: string, value: string)

  /** Lower-case hexadecimal digit, as JSON.stringify writes them. */
  function HexDigit(d: nat): char
    requires d < 16
  {
    if d < 10 then (48 + d) as char else (87 + d) as char
  }

  /** The value of a hexadecimal digit of either case. */
  function HexValue(c: char): (r: Option<nat>)
    ensures r.Some? ==> r.value < 16
  {
    if '0' <= c <= '9' then Some(c as int - '0' as int)
    else if 'a' <= c <= 'f' then Some(c as int - 'a' as int + 10)
    else if 'A' <= c <= 'F' then Some(c as int - 'A' as int + 10)
    else None
  }

  /** One character as the QuoteJSONString abstract operation of ECMA-262
      writes it: the two-character escapes for quote, backslash, backspace,
      tab, line feed, form feed and carriage return; `\u00xx` for the other
      control characters; everything else as itself. (Lone surrogates, which
      it also escapes, are not characters of this model.) */
  function EscapeChar(c: char): string
  {
    if c == '"' then "\\\""
    else if c == '\\' then "\\\\"
    else if c == '\U{8}' then "\\b"
    else if c == '\t' then "\\t"
    else if c == '\n' then "\\n"
    else if c == '\U{C}' then "\\f"
    else if c == '\r' then "\\r"
    else if c < ' ' then "\\u00" + [HexDigit(c as int / 16), HexDigit(c as int % 16)]
    else [c]
  }

  /** The characters of a string between the quotes of its JSON form. */
  function Escape(s: string): string
  {
    if |s| == 0 then "" else EscapeChar(s[0]) + Escape(s[1..])
  }

  /** `JSON.stringify(s)` for a string `s`. */
  function Quote(s: string): string
  {
    "\"" + Escape(s) + "\""
  }

  /** One `"key":"value"` member of an object literal. */
  function Member(e: Entry): string
  {
    Quote(e.key) + ":" + Quote(e.value)
  }

  /** `JSON.stringify(obj)` for an object whose own properties, in enumeration
      order, are `entries` and whose values are all strings. */
  function StringifyEntries(entries: seq<Entry>): string
  {
    if |entries| == 0 then "{}" else "{" + Join(Members(entries), ",") + "}"
  }

  /** The member texts of the entries, in order. */
  function Members(entries: seq<Entry>): (parts: seq<string>)
    ensures |parts| == |entries|
    ensures forall i :: 0 <= i < |entries| ==> parts[i] == Member(entries[i])
  {
    if |entries| == 0 then [] else [Member(entries[0])] + Members(entries[1..])
  }

  // An independent reading of JSON object text with string values, the
  // partner against which JSON.stringify is checked.

  /** The escape after a backslash: the character it stands for and what follows. */
  function DecodeEscape(t: string): (r: Option<(char, string)>)
    ensures r.Some? ==> |r.value.1| < |t|
  {
    if |t| == 0 then None
    else if t[0] == '"' then Some(('"', t[1..]))
    else if t[0] == '\\' then Some(('\\', t[1..]))
    else if t[0] == '/' then Some(('/', t[1..]))
    else if t[0] == 'b' then Some(('\U{8}', t[1..]))
    else if t[0] == 'f' then Some(('\U{C}', t[1..]))
    else if t[0] == 'n' then Some(('\n', t[1..]))
    else if t[0] == 'r' then Some(('\r', t[1..]))
    else if t[0] == 't' then Some(('\t', t[1..]))
    else if t[0] == 'u' && |t| >= 5 then
      match (HexValue(t[1]), HexValue(t[2]), HexValue(t[3]), HexValue(t[4]))
      case (Some(a), Some(b), Some(c), Some(d)) =>
        var code := ((a * 16 + b) * 16 + c) * 16 + d;
        if code < 0xD800 || 0xE000 <= code then Some((code as char, t[5..])) else None
      case _ => None
    else None
  }

  /** The characters of a JSON string up to its closing quote, and the text after it. */
  function DecodeChars(t: string): (r: Option<(string, string)>)
    ensures r.Some? ==> |r.value.1| < |t|
    decreases |t|
  {
    if |t| == 0 then None
    else if t[0] == '"' then Some(("", t[1..]))
    else if t[0] == '\\' then
      match DecodeEscape(t[1..])
      case None => None
      case Some((c, rest)) => Prepend(c, DecodeChars(rest))
    else if t[0] < ' ' then None
    else Prepend(t[0], DecodeChars(t[1..]))
  }

  /** Puts `c` in front of a decoded string. */
  function Prepend(c: char, r: Option<(string, string)>): (r': Option<(string, string)>)
    ensures r'.Some? <==> r.Some?
    ensures r.Some? ==> r'.value == ([c] + r.value.0, r.value.1)
  {
    match r
    case None => None
    case Some((s, rest)) => Some(([c] + s, rest))
  }

  /** A JSON string at the start of `t`, and the text after it. */
  function DecodeString(t: string): (r: Option<(string, string)>)
    ensures r.Some? ==> |r.value.1| < |t|
  {
    if |t| == 0 || t[0] != '"' then None else DecodeChars(t[1..])
  }

  /** One `"key":"value"` member at the start of `t`, and the text after it. */
  function DecodeMember(t: string): (r: Option<(Entry, string)>)
    ensures r.Some? ==> |r.value.1| < |t|
  {
    match DecodeString(t)
    case None => None
    case Some((k, r1)) =>
      if |r1| == 0 || r1[0] != ':' then None
      else
        match DecodeString(r1[1..])
        case None => None
        case Some((v, r2)) => Some((Entry(k, v), r2))
  }

  /** The members of an object literal after its opening brace, up to and
      including the closing brace that must end the text. */
  function DecodeMembers(t: string): Option<seq<Entry>>
    decreases |t|
  {
    match DecodeMember(t)
    case None => None
    case Some((e, rest)) =>
      if rest == "}" then Some([e])
      else if |rest| > 0 && rest[0] == ',' then
        match DecodeMembers(rest[1..])
        case None => None
        case Some(more) => Some([e] + more)
      else None
  }

  /** An object literal whose values are all strings. */
  function DecodeObject(t: string): Option<seq<Entry>>
  {
    if t == "{}" then Some([])
    else if |t| > 0 && t[0] == '{' then DecodeMembers(t[1..])
    else None
  }

  lemma HexDigitValue(d: nat)
    requires d < 16
    ensures HexValue(HexDigit(d)) == Some(d)
  {
  }

  /** Decoding undoes one escaped character. */
  lemma EscapeCharDecodes(c: char, rest: string)
    ensures DecodeChars(EscapeChar(c) + rest) == Prepend(c, DecodeChars(rest))
  {
    var t := EscapeChar(c) + rest;
    if c == '"' || c == '\\' || c == '\U{8}' || c == '\t' || c == '\n' || c == '\U{C}' || c == '\r' {
      assert t[0] == '\\' && t[1..][1..] == rest;
    } else if c < ' ' {
      var hi, lo := c as int / 16, c as int % 16;
      HexDigitValue(hi);
      HexDigitValue(lo);
      assert t[0] == '\\' && t[1..][0] == 'u';
      assert t[1..][1] == '0' && t[1..][2] == '0' && t[1..][3] == HexDigit(hi) && t[1..][4] == HexDigit(lo);
      assert t[1..][5..] == rest;
      assert ((0 * 16 + 0) * 16 + hi) * 16 + lo == c as int;
    } else {
      assert t[0] == c && t[1..] == rest;
    }
  }

  /** Decoding the escaped characters and the closing quote gives the string back. */
  lemma {:induction false} EscapeDecodes(s: string, rest: string)
    ensures DecodeChars(Escape(s) + "\"" + rest) == Some((s, rest))
  {
    if |s| == 0 {
      assert Escape(s) + "\"" + rest == "\"" + rest;
    } else {
      assert Escape(s) + "\"" + rest == EscapeChar(s[0]) + (Escape(s[1..]) + "\"" + rest);
      EscapeCharDecodes(s[0], Escape(s[1..]) + "\"" + rest);
      EscapeDecodes(s[1..], rest);
      assert [s[0]] + s[1..] == s;
    }
  }

  /** Round trip for one string: `JSON.parse(JSON.stringify(s)) === s`. */
  lemma QuoteDecodes(s: string, rest: string)
    ensures DecodeString(Quote(s) + rest) == Some((s, rest))
  {
    assert (Quote(s) + rest)[1..] == Escape(s) + "\"" + rest;
    EscapeDecodes(s, rest);
  }

  /** A member followed by more text, as the quoted key, the colon, and the rest. */
  lemma MemberLayout(e: Entry, after: string)
    ensures Member(e) + after == Quote(e.key) + (":" + (Quote(e.value) + after))
  {
    var q1, q2 := Quote(e.key), Quote(e.value);
    assert Member(e) + after == ((q1 + ":") + q2) + after;
    assert ((q1 + ":") + q2) + after == (q1 + ":") + (q2 + after);
  }

  /** Round trip for one member. */
  lemma MemberDecodes(e: Entry, after: string)
    ensures DecodeMember(Member(e) + after) == Some((e, after))
  {
    var r2 := Quote(e.value) + after;
    var r1 := ":" + r2;
    MemberLayout(e, after);
    QuoteDecodes(e.key, r1);
    assert r1[1..] == r2;
    QuoteDecodes(e.value, after);
  }

  /** The members of an object with more than one entry, as the first member, a comma, and the rest. */
  lemma MembersLayout(entries: seq<Entry>)
    requires |entries| >= 2
    ensures Join(Members(entries), ",") + "}"
            == Member(entries[0]) + ("," + (Join(Members(entries[1..]), ",") + "}"))
  {
    MembersJoin(entries);
    CloseAfter(Join(Members(entries), ","), Member(entries[0]), Join(Members(entries[1..]), ","));
  }

  /** The join of the member texts of a list with more than one entry. */
  lemma MembersJoin(entries: seq<Entry>)
    requires |entries| >= 2
    ensures Join(Members(entries), ",") == Member(entries[0]) + "," + Join(Members(entries[1..]), ",")
  {
    MembersCons(entries);
    JoinCons(Member(entries[0]), Members(entries[1..]), ",");
  }

  /** Regrouping a closing brace after a comma-separated text. */
  lemma CloseAfter(joined: string, first: string, rest: string)
    requires joined == first + "," + rest
    ensures joined + "}" == first + ("," + (rest + "}"))
  {
    assert (first + "," + rest) + "}" == first + ("," + (rest + "}"));
  }

  /** The member texts of a non-empty list: the first member, then the others. */
  lemma MembersCons(entries: seq<Entry>)
    requires |entries| >= 1
    ensures Members(entries) == [Member(entries[0])] + Members(entries[1..])
  {
  }

  /** The members of a non-empty object decode back to its entries. */
  lemma {:induction false} MembersDecode(entries: seq<Entry>)
    requires |entries| >= 1
    ensures DecodeMembers(Join(Members(entries), ",") + "}") == Some(entries)
  {
    if |entries| == 1 {
      MemberDecodes(entries[0], "}");
      assert entries == [entries[0]];
    } else {
      var tail := entries[1..];
      var after := "," + (Join(Members(tail), ",") + "}");
      MembersLayout(entries);
      MemberDecodes(entries[0], after);
      assert after[1..] == Join(Members(tail), ",") + "}";
      MembersDecode(tail);
      assert entries == [entries[0]] + tail;
    }
  }

  /** Round trip for the defaults object: its JSON text decodes to the same
      entries in the same order. */
  lemma StringifyRoundTrip(entries: seq<Entry>)
    ensures DecodeObject(StringifyEntries(entries)) == Some(entries)
  {
    if |entries| > 0 {
      var t := StringifyEntries(entries);
      assert t[1..] == Join(Members(entries), ",") + "}";
      MembersDecode(entries);
      assert t[0] == '{' && t[1..][0] == '"';
    }
  }

  /** No escaped character is a raw line feed. */
  lemma {:induction false} EscapeHasNoNewline(s: string)
    ensures '\n' !in Escape(s)
  {
    if |s| > 0 {
      EscapeHasNoNewline(s[1..]);
      var c := s[0];
      if c < ' ' && !(c == '\U{8}' || c == '\t' || c == '\n' || c == '\U{C}' || c == '\r') {
        assert HexDigit(c as int / 16) != '\n' && HexDigit(c as int % 16) != '\n';
      }
      assert '\n' !in EscapeChar(c);
    }
  }

  /** The JSON text of the defaults object fits on one line. */
  lemma StringifyHasNoNewline(entries: seq<Entry>)
    ensures '\n' !in StringifyEntries(entries)
  {
    if |entries| > 0 {
      var parts := Members(entries);
      forall i | 0 <= i < |parts| ensures '\n' !in parts[i] {
        EscapeHasNoNewline(entries[i].key);
        EscapeHasNoNewline(entries[i].value);
      }
      JoinAvoids(parts, ",", '\n');
    }
  }

  /** A character JSON.stringify writes as it is. */
  predicate IsPlain(c: char)
  {
    c >= ' ' && c != '"' && c != '\\'
  }

  /** Text made of such characters is left as it is by the escaping. */
  lemma {:induction false} EscapePlain(s: string)
    requires forall i :: 0 <= i < |s| ==> IsPlain(s[i])
    ensures Escape(s) == s
  {
    if |s| > 0 {
      EscapePlain(s[1..]);
      assert s == [s[0]] + s[1..];
    }
  }

  /** The JSON text of a one-entry object. */
  lemma StringifySingle(e: Entry)
    ensures StringifyEntries([e]) == "{" + Member(e) + "}"
  {
    assert Members([e]) == [Member(e)];
  }

  /** A member whose key and value need no escapes is both in plain quotes. */
  lemma MemberPlain(key: string, value: string)
    requires forall i :: 0 <= i < |key| ==> IsPlain(key[i])
    requires forall i :: 0 <= i < |value| ==> IsPlain(value[i])
    ensures Member(Entry(key, value)) == "\"" + key + "\":\"" + value + "\""
  {
    EscapePlain(key);
    EscapePlain(value);
  }

  /** The JSON text of a one-entry object whose key and value need no escapes. */
  lemma StringifySinglePlain(key: string, value: string)
    requires forall i :: 0 <= i < |key| ==> IsPlain(key[i])
    requires forall i :: 0 <= i < |value| ==> IsPlain(value[i])
    ensures StringifyEntries([Entry(key, value)]) == "{\"" + key + "\":\"" + value + "\"}"
  {
    StringifySingle(Entry(key, value));
    MemberPlain(key, value);
    Regroup("{", "\"", key, "\":\"", value, "}");
    assert "{" + "\"" == "{\"" && "\"" + "}" == "\"}";
  }

  /** Moving the brackets of a wrapped member to its quotes. */
  lemma Regroup(open: string, q: string, key: string, mid: string, value: string, close: string)
    ensures open + (q + key + mid + value + q) + close == (open + q) + key + mid + value + (q + close)
  {
  }
}
