/** The canonical JSON printer of the audit log, a parser for its output, and the theorem that
    the parser undoes the printer. Text is a sequence of Unicode scalar values. */
module CanonicalJson {
  import opened Text

  /** A payload tree. `Opaque` stands for a value encoding/json refuses, such as a channel or a NaN. */
  datatype Value =
    | Nil
    | Bool(b: bool)
    | Number(token: string)
    | Str(s: string)
    | Array(items: seq<Value>)
    | Map(fields: map<string, Value>)
    | Opaque

  predicate NumberChar(c: char) {
    '0' <= c <= '9' || c == '-' || c == '+' || c == '.' || c == 'e' || c == 'E'
  }

  predicate NumberToken(s: string) {
    s != "" && forall i :: 0 <= i < |s| ==> NumberChar(s[i])
  }

  /** Numbers are number tokens. */
  ghost predicate WellFormed(v: Value) {
    match v
    case Number(token) => NumberToken(token)
    case Array(items) => forall i :: 0 <= i < |items| ==> WellFormed(items[i])
    case Map(fields) => forall k :: k in fields ==> WellFormed(fields[k])
    case _ => true
  }

  /** Nothing in the tree is refused by the encoder. */
  ghost predicate Encodable(v: Value) {
    match v
    case Opaque => false
    case Array(items) => forall i :: 0 <= i < |items| ==> Encodable(items[i])
    case Map(fields) => forall k :: k in fields ==> Encodable(fields[k])
    case _ => true
  }

  // ---------------------------------------------------------------- printing

  function UnicodeEscape(c: char): string
    requires (c as int) < 0x10000
  {
    var n := c as int;
    ['\\', 'u', HEX_DIGITS[n / 4096], HEX_DIGITS[n / 256 % 16], HEX_DIGITS[n / 16 % 16], HEX_DIGITS[n % 16]]
  }

  /** One character of a JSON string as encoding/json writes it; `html` is SetEscapeHTML. */
  function EscapeChar(c: char, html: bool): string {
    if c == '"' || c == '\\' then ['\\', c]
    else if c == 8 as char then "\\b"
    else if c == 12 as char then "\\f"
    else if c == '\n' then "\\n"
    else if c == '\r' then "\\r"
    else if c == '\t' then "\\t"
    else if c < ' ' || (html && (c == '<' || c == '>' || c == '&')) || c == 0x2028 as char || c == 0x2029 as char
    then UnicodeEscape(c)
    else [c]
  }

  function Escape(s: string, html: bool): string {
    if s == "" then "" else EscapeChar(s[0], html) + Escape(s[1..], html)
  }

  function Quote(s: string, html: bool): string {
    "\"" + Escape(s, html) + "\""
  }

  /** Canonical text of a tree. `html` says whether keys go through the HTML-escaping encoder, as they do
      in `canonicalMap`; the standard encoder configured without HTML escaping writes the same tree with
      `html` false. String values are never HTML-escaped. */
  ghost function Render(v: Value, html: bool): string
    decreases v, 1, 0
  {
    match v
    case Nil => "null"
    case Bool(b) => if b then "true" else "false"
    case Number(token) => token
    case Str(s) => Quote(s, false)
    case Array(items) => "[" + RenderItems(v, 0, html) + "]"
    case Map(fields) => "{" + RenderFields(v, SortedListing(fields.Keys), html) + "}"
    case Opaque => ""
  }

  ghost function RenderItems(v: Value, from: nat, html: bool): string
    requires v.Array? && from <= |v.items|
    decreases v, 0, |v.items| - from
  {
    if from == |v.items| then ""
    else Render(v.items[from], html) +
         if from + 1 == |v.items| then "" else "," + RenderItems(v, from + 1, html)
  }

  ghost function RenderField(v: Value, key: string, html: bool): string
    requires v.Map? && key in v.fields
    decreases v, 0, 0
  {
    Quote(key, html) + ":" + Render(v.fields[key], html)
  }

  ghost function RenderFields(v: Value, keys: seq<string>, html: bool): string
    requires v.Map? && forall k :: k in keys ==> k in v.fields
    decreases v, 0, |keys| + 1
  {
    if keys == [] then ""
    else RenderField(v, keys[0], html) +
         if |keys| == 1 then "" else "," + RenderFields(v, keys[1..], html)
  }

  // ---------------------------------------------------------------- parsing

  /** The code unit four hex digits stand for, or -1. */
  function HexQuad(t: string): (n: int)
    ensures -1 <= n < 0x10000
  {
    if |t| < 4 || HexValue(t[0]) < 0 || HexValue(t[1]) < 0 || HexValue(t[2]) < 0 || HexValue(t[3]) < 0 then -1
    else HexValue(t[0]) * 4096 + HexValue(t[1]) * 256 + HexValue(t[2]) * 16 + HexValue(t[3])
  }

  /** Section 7 of RFC 8259: what the text after a reverse solidus stands for, and what follows it. */
  function ParseEscape(t: string): (r: Option<(char, string)>)
    ensures r.Some? ==> |r.value.1| < |t|
  {
    if t == "" then None
    else if t[0] == '"' || t[0] == '\\' || t[0] == '/' then Some((t[0], t[1..]))
    else if t[0] == 'b' then Some((8 as char, t[1..]))
    else if t[0] == 'f' then Some((12 as char, t[1..]))
    else if t[0] == 'n' then Some(('\n', t[1..]))
    else if t[0] == 'r' then Some(('\r', t[1..]))
    else if t[0] == 't' then Some(('\t', t[1..]))
    else if t[0] != 'u' then None
    else
      var n := HexQuad(t[1..]);
      if n < 0 then None
      else if n < 0xD800 || 0xE000 <= n then Some((n as char, t[5..]))
      else ParseSurrogates(n, t[5..])
  }

  /** A high surrogate has to be followed by the escape of a low one. */
  function ParseSurrogates(high: int, t: string): (r: Option<(char, string)>)
    requires 0xD800 <= high < 0xE000
    ensures r.Some? ==> |r.value.1| <= |t|
  {
    if high < 0xDC00 && HasPrefix(t, "\\u") && 0xDC00 <= HexQuad(t[2..]) < 0xE000
    then Some(((0x10000 + (high - 0xD800) * 0x400 + (HexQuad(t[2..]) - 0xDC00)) as char, t[6..]))
    else None
  }

  /** The string whose opening quote has been read. */
  function ParseString(t: string): (r: Option<(string, string)>)
    ensures r.Some? ==> |r.value.1| < |t|
  {
    if t == "" || t[0] < ' ' then None
    else if t[0] == '"' then Some(("", t[1..]))
    else
      var head := if t[0] == '\\' then ParseEscape(t[1..]) else Some((t[0], t[1..]));
      if head.None? then None
      else
        var tail := ParseString(head.value.1);
        if tail.None? then None else Some(([head.value.0] + tail.value.0, tail.value.1))
  }

  function TakeNumber(t: string): (r: (string, string))
    ensures t == r.0 + r.1
  {
    if t == "" || !NumberChar(t[0]) then ("", t)
    else var r := TakeNumber(t[1..]); ([t[0]] + r.0, r.1)
  }

  /** The value at the start of `t` and the text after it. */
  function ParseValue(t: string): (r: Option<(Value, string)>)
    ensures r.Some? ==> |r.value.1| < |t|
    decreases |t|, 1
  {
    if t == "" then None
    else if t[0] == '"' then
      var s := ParseString(t[1..]);
      if s.None? then None else Some((Str(s.value.0), s.value.1))
    else if t[0] == '[' then
      if HasPrefix(t, "[]") then Some((Array([]), t[2..])) else ParseItems(t[1..], [])
    else if t[0] == '{' then
      if HasPrefix(t, "{}") then Some((Map(map[]), t[2..])) else ParseFields(t[1..], map[])
    else if HasPrefix(t, "null") then Some((Nil, t[4..]))
    else if HasPrefix(t, "true") then Some((Bool(true), t[4..]))
    else if HasPrefix(t, "false") then Some((Bool(false), t[5..]))
    else if NumberChar(t[0]) then
      var n := TakeNumber(t);
      Some((Number(n.0), n.1))
    else None
  }

  /** The rest of an array of which `before` has been read; an element comes next. */
  function ParseItems(t: string, before: seq<Value>): (r: Option<(Value, string)>)
    ensures r.Some? ==> |r.value.1| < |t|
    decreases |t|, 2
  {
    var v := ParseValue(t);
    if v.None? || v.value.1 == "" then None
    else
      var items, rest := before + [v.value.0], v.value.1;
      if rest[0] == ']' then Some((Array(items), rest[1..]))
      else if rest[0] == ',' then ParseItems(rest[1..], items)
      else None
  }

  /** The rest of an object of which `before` has been read; a key comes next. */
  function ParseFields(t: string, before: map<string, Value>): (r: Option<(Value, string)>)
    ensures r.Some? ==> |r.value.1| < |t|
    decreases |t|, 2
  {
    if t == "" || t[0] != '"' then None
    else
      var key := ParseString(t[1..]);
      if key.None? || key.value.1 == "" || key.value.1[0] != ':' then None
      else
        var v := ParseValue(key.value.1[1..]);
        if v.None? || v.value.1 == "" then None
        else
          var fields, rest := before[key.value.0 := v.value.0], v.value.1;
          if rest[0] == '}' then Some((Map(fields), rest[1..]))
          else if rest[0] == ',' then ParseFields(rest[1..], fields)
          else None
  }

  /** A whole document. */
  function Parse(t: string): Option<Value> {
    var r := ParseValue(t);
    if r.Some? && r.value.1 == "" then Some(r.value.0) else None
  }

  // ---------------------------------------------------------------- the parser undoes the printer

  lemma HexDigitsOf(n: nat)
    requires n < 0x10000
    ensures n / 4096 * 4096 + n / 256 % 16 * 256 + n / 16 % 16 * 16 + n % 16 == n
  {
    assert n == n / 16 * 16 + n % 16;
    assert n / 16 == n / 256 * 16 + n / 16 % 16;
    assert n / 256 == n / 4096 * 16 + n / 256 % 16;
  }

  lemma UnicodeEscapeRoundTrip(c: char, rest: string)
    requires (c as int) < 0x10000
    ensures ParseEscape(UnicodeEscape(c)[1..] + rest) == Some((c, rest))
  {
    var n := c as int;
    var t := UnicodeEscape(c)[1..] + rest;
    hide HexValue, HexQuad;
    HexDigitValue(n / 4096);
    HexDigitValue(n / 256 % 16);
    HexDigitValue(n / 16 % 16);
    HexDigitValue(n % 16);
    assert t[0] == 'u' && t[5..] == rest;
    var q := t[1..];
    assert q[0] == HEX_DIGITS[n / 4096] && q[1] == HEX_DIGITS[n / 256 % 16];
    assert q[2] == HEX_DIGITS[n / 16 % 16] && q[3] == HEX_DIGITS[n % 16];
    HexQuadValue(q, n);
  }

  lemma HexQuadValue(q: string, n: nat)
    requires n < 0x10000 && |q| >= 4
    requires HexValue(q[0]) == n / 4096 && HexValue(q[1]) == n / 256 % 16
    requires HexValue(q[2]) == n / 16 % 16 && HexValue(q[3]) == n % 16
    ensures HexQuad(q) == n
  {
    hide HexValue;
    HexDigitsOf(n);
  }

  /** A reverse solidus, a code, and the rest of the string. */
  lemma EscapedStep(c: char, code: string, rest: string, tail: (string, string))
    requires ParseEscape(code + rest) == Some((c, rest)) && ParseString(rest) == Some(tail)
    ensures ParseString("\\" + code + rest) == Some(([c] + tail.0, tail.1))
  {
    hide ParseEscape;
    assert ("\\" + code + rest)[1..] == code + rest;
  }

  lemma PlainStep(c: char, rest: string, tail: (string, string))
    requires c >= ' ' && c != '"' && c != '\\' && ParseString(rest) == Some(tail)
    ensures ParseString([c] + rest) == Some(([c] + tail.0, tail.1))
  {
    hide ParseEscape;
    assert ([c] + rest)[1..] == rest;
  }

  lemma ShortEscape(c: char, html: bool, rest: string)
    requires |EscapeChar(c, html)| == 2
    ensures EscapeChar(c, html)[0] == '\\' && ParseEscape(EscapeChar(c, html)[1..] + rest) == Some((c, rest))
  {
    hide HexQuad, ParseSurrogates;
    var t := EscapeChar(c, html)[1..] + rest;
    assert t[0] == EscapeChar(c, html)[1] && t[1..] == rest;
  }

  /** The three ways a character is written. */
  lemma EscapeKinds(c: char, html: bool)
    ensures var e := EscapeChar(c, html);
            || (e == [c] && c >= ' ' && c != '"' && c != '\\')
            || |e| == 2
            || (|e| == 6 && (c as int) < 0x10000 && e == UnicodeEscape(c))
  {
  }

  lemma EscapeCharRoundTrip(c: char, html: bool, rest: string, tail: (string, string))
    requires ParseString(rest) == Some(tail)
    ensures ParseString(EscapeChar(c, html) + rest) == Some(([c] + tail.0, tail.1))
  {
    hide ParseString, ParseEscape, EscapeChar, UnicodeEscape;
    var e := EscapeChar(c, html);
    EscapeKinds(c, html);
    if |e| == 1 {
      PlainStep(c, rest, tail);
    } else {
      if |e| == 2 {
        ShortEscape(c, html, rest);
      } else {
        UnicodeHead(c);
        UnicodeEscapeRoundTrip(c, rest);
      }
      EscapedStep(c, e[1..], rest, tail);
      assert "\\" + e[1..] == e;
    }
  }

  lemma UnicodeHead(c: char)
    requires (c as int) < 0x10000
    ensures |UnicodeEscape(c)| == 6 && UnicodeEscape(c)[0] == '\\'
  {
  }

  lemma {:induction false} StringRoundTrip(s: string, html: bool, rest: string)
    ensures ParseString(Escape(s, html) + "\"" + rest) == Some((s, rest))
  {
    hide EscapeChar;
    if s == "" {
      assert ("\"" + rest)[1..] == rest;
      assert Escape(s, html) + "\"" + rest == "\"" + rest;
    } else {
      StringRoundTrip(s[1..], html, rest);
      var tail := Escape(s[1..], html) + "\"" + rest;
      assert Escape(s, html) + "\"" + rest == EscapeChar(s[0], html) + tail;
      EscapeCharRoundTrip(s[0], html, tail, (s[1..], rest));
      assert s == [s[0]] + s[1..];
    }
  }

  lemma {:induction false} NumberRoundTrip(token: string, rest: string)
    requires forall i :: 0 <= i < |token| ==> NumberChar(token[i])
    requires rest == "" || !NumberChar(rest[0])
    ensures TakeNumber(token + rest) == (token, rest)
  {
    if token == "" {
      assert token + rest == rest;
    } else {
      assert (token + rest)[1..] == token[1..] + rest;
      NumberRoundTrip(token[1..], rest);
      assert token == [token[0]] + token[1..];
    }
  }

  lemma RenderHead(v: Value, html: bool)
    requires WellFormed(v) && Encodable(v)
    ensures var t := Render(v, html); t != "" && t[0] != ']'
  {
  }

  lemma ConstantRoundTrip(v: Value, html: bool, rest: string)
    requires v.Nil? || v.Bool?
    ensures ParseValue(Render(v, html) + rest) == Some((v, rest))
  {
    hide ParseString, ParseItems, ParseFields, TakeNumber;
    var word := Render(v, html);
    assert (word + rest)[..|word|] == word && (word + rest)[|word|..] == rest;
  }

  lemma NumberValueRoundTrip(token: string, html: bool, rest: string)
    requires NumberToken(token) && (rest == "" || !NumberChar(rest[0]))
    ensures ParseValue(Render(Number(token), html) + rest) == Some((Number(token), rest))
  {
    hide ParseString, ParseItems, ParseFields, TakeNumber;
    NumberRoundTrip(token, rest);
    assert (token + rest)[0] == token[0];
  }

  lemma QuotedRoundTrip(s: string, html: bool, rest: string)
    ensures ParseValue(Render(Str(s), html) + rest) == Some((Str(s), rest))
  {
    hide ParseString, ParseItems, ParseFields, TakeNumber, Escape;
    var body := Escape(s, false) + "\"" + rest;
    assert Render(Str(s), html) + rest == "\"" + body;
    assert ("\"" + body)[1..] == body;
    StringRoundTrip(s, false, rest);
  }

  lemma {:induction false} ValueRoundTrip(v: Value, html: bool, rest: string)
    requires WellFormed(v) && Encodable(v)
    requires rest == "" || !NumberChar(rest[0])
    ensures ParseValue(Render(v, html) + rest) == Some((v, rest))
    decreases v, 1, 0
  {
    hide ParseValue, Render;
    match v {
      case Nil => ConstantRoundTrip(v, html, rest);
      case Bool(_) => ConstantRoundTrip(v, html, rest);
      case Number(token) => NumberValueRoundTrip(token, html, rest);
      case Str(s) => QuotedRoundTrip(s, html, rest);
      case Array(_) => ArrayRoundTrip(v, html, rest);
      case Map(_) => MapRoundTrip(v, html, rest);
    }
  }

  lemma {:induction false} ArrayRoundTrip(v: Value, html: bool, rest: string)
    requires v.Array? && WellFormed(v) && Encodable(v)
    ensures ParseValue(Render(v, html) + rest) == Some((v, rest))
    decreases v, 0, |v.items| + 1
  {
    hide ParseItems;
    var t := Render(v, html) + rest;
    var inner := RenderItems(v, 0, html);
    assert t == "[" + inner + "]" + rest && t[1..] == inner + "]" + rest;
    if v.items == [] {
      assert t[2..] == rest;
    } else {
      RenderHead(v.items[0], html);
      assert inner[0] == Render(v.items[0], html)[0];
      assert t[..2] != "[]" by { assert t[..2][1] == inner[0]; }
      ItemsRoundTrip(v, 0, html, rest);
      assert v.items[..0] == [];
    }
  }

  lemma FieldsHead(v: Value, keys: seq<string>, html: bool)
    requires v.Map? && forall k :: k in keys ==> k in v.fields
    ensures var t := RenderFields(v, keys, html); if keys == [] then t == "" else t != "" && t[0] == '"'
  {
    hide Render, Escape;
    if keys != [] {
      var quoted, field := Quote(keys[0], html), RenderField(v, keys[0], html);
      assert quoted != "" && quoted[0] == '"';
      assert field == quoted + (":" + Render(v.fields[keys[0]], html)) && field[0] == quoted[0];
      var more := if |keys| == 1 then "" else "," + RenderFields(v, keys[1..], html);
      assert RenderFields(v, keys, html) == field + more;
    }
  }

  lemma {:induction false} MapRoundTrip(v: Value, html: bool, rest: string)
    requires v.Map? && WellFormed(v) && Encodable(v)
    ensures ParseValue(Render(v, html) + rest) == Some((v, rest))
    decreases v, 0, |SortedListing(v.fields.Keys)| + 2
  {
    hide ParseFields, ParseItems, ParseString, RenderFields, RenderItems, Overlay;
    var t := Render(v, html) + rest;
    var keys := SortedListing(v.fields.Keys);
    var inner := RenderFields(v, keys, html);
    FieldsHead(v, keys, html);
    assert t == "{" + inner + "}" + rest && t[1..] == inner + "}" + rest;
    if |keys| == 0 {
      assert v.fields == map[];
      assert t[2..] == rest;
    } else {
      assert t[..2] != "{}" by { assert t[..2][1] == inner[0]; }
      FieldsRoundTrip(v, keys, html, map[], rest);
      OverlayAll(v.fields, keys);
    }
  }

  /** One element and the character after it. */
  lemma ParseItemsStep(value: string, parsed: Value, close: string, before: seq<Value>)
    requires ParseValue(value + close) == Some((parsed, close))
    requires close != "" && (close[0] == ']' || close[0] == ',')
    ensures ParseItems(value + close, before) ==
            if close[0] == ']' then Some((Array(before + [parsed]), close[1..]))
            else ParseItems(close[1..], before + [parsed])
  {
    hide ParseValue;
  }

  lemma {:induction false} ItemsRoundTrip(v: Value, from: nat, html: bool, rest: string)
    requires v.Array? && from < |v.items| && WellFormed(v) && Encodable(v)
    ensures ParseItems(RenderItems(v, from, html) + "]" + rest, v.items[..from]) == Some((v, rest))
    decreases v, 0, |v.items| - from
  {
    hide ParseValue, ParseItems, Render;
    var first := Render(v.items[from], html);
    var close := if from + 1 == |v.items| then "]" + rest else "," + (RenderItems(v, from + 1, html) + "]" + rest);
    assert RenderItems(v, from, html) + "]" + rest == first + close;
    assert v.items[..from] + [v.items[from]] == v.items[..from + 1];
    ValueRoundTrip(v.items[from], html, close);
    ParseItemsStep(first, v.items[from], close, v.items[..from]);
    if from + 1 == |v.items| {
      assert close[1..] == rest && v.items[..from + 1] == v.items;
    } else {
      assert close[1..] == RenderItems(v, from + 1, html) + "]" + rest;
      ItemsRoundTrip(v, from + 1, html, rest);
    }
  }

  /** `before` with the listed fields of `m` written over it. */
  ghost function Overlay(before: map<string, Value>, m: map<string, Value>, keys: seq<string>): map<string, Value>
    requires forall k :: k in keys ==> k in m
    decreases |keys|
  {
    if keys == [] then before else Overlay(before[keys[0] := m[keys[0]]], m, keys[1..])
  }

  lemma {:induction false} OverlayFields(before: map<string, Value>, m: map<string, Value>, keys: seq<string>)
    requires forall k :: k in keys ==> k in m
    ensures var o := Overlay(before, m, keys);
            && o.Keys == before.Keys + (set k | k in keys)
            && forall k :: k in o ==> o[k] == if k in keys then m[k] else before[k]
    decreases |keys|
  {
    if keys != [] {
      OverlayFields(before[keys[0] := m[keys[0]]], m, keys[1..]);
      assert keys == [keys[0]] + keys[1..];
    }
  }

  lemma OverlayAll(m: map<string, Value>, keys: seq<string>)
    requires forall k :: k in keys <==> k in m
    ensures Overlay(map[], m, keys) == m
  {
    OverlayFields(map[], m, keys);
  }

  /** One `"key":value` and the character after it. */
  lemma ParseFieldsStep(key: string, value: string, parsed: Value, html: bool, close: string, before: map<string, Value>)
    requires ParseValue(value + close) == Some((parsed, close))
    requires close != "" && (close[0] == '}' || close[0] == ',')
    ensures ParseFields(Quote(key, html) + ":" + value + close, before) ==
            if close[0] == '}' then Some((Map(before[key := parsed]), close[1..]))
            else ParseFields(close[1..], before[key := parsed])
  {
    hide ParseValue, ParseString, Escape;
    var t := Quote(key, html) + ":" + value + close;
    var afterKey := ":" + value + close;
    assert t[0] == '"' && t[1..] == Escape(key, html) + "\"" + afterKey;
    StringRoundTrip(key, html, afterKey);
    assert afterKey[1..] == value + close;
  }

  lemma {:induction false} FieldsRoundTrip(v: Value, keys: seq<string>, html: bool, before: map<string, Value>, rest: string)
    requires v.Map? && WellFormed(v) && Encodable(v)
    requires keys != [] && forall k :: k in keys ==> k in v.fields
    ensures ParseFields(RenderFields(v, keys, html) + "}" + rest, before)
            == Some((Map(Overlay(before, v.fields, keys)), rest))
    decreases v, 0, |keys| + 1
  {
    hide ParseValue, ParseFields, Render, Quote;
    var key := keys[0];
    var value := Render(v.fields[key], html);
    var close := if |keys| == 1 then "}" + rest else "," + (RenderFields(v, keys[1..], html) + "}" + rest);
    assert RenderFields(v, keys, html) + "}" + rest == Quote(key, html) + ":" + value + close;
    ValueRoundTrip(v.fields[key], html, close);
    ParseFieldsStep(key, value, v.fields[key], html, close, before);
    if |keys| == 1 {
      assert close[1..] == rest;
    } else {
      assert close[1..] == RenderFields(v, keys[1..], html) + "}" + rest;
      FieldsRoundTrip(v, keys[1..], html, before[key := v.fields[key]], rest);
    }
  }

  /** Parsing the canonical text gives the tree back, whichever encoder wrote the keys. */
  lemma ParseUndoesRender(v: Value, html: bool)
    requires WellFormed(v) && Encodable(v)
    ensures Parse(Render(v, html)) == Some(v)
  {
    ValueRoundTrip(v, html, "");
    assert Render(v, html) + "" == Render(v, html);
  }

  /** So different payloads never share a canonical text, even across the two encoders. */
  lemma RenderInjective(v: Value, html: bool, w: Value, html': bool)
    requires WellFormed(v) && Encodable(v) && WellFormed(w) && Encodable(w)
    requires Render(v, html) == Render(w, html')
    ensures v == w
  {
    ParseUndoesRender(v, html);
    ParseUndoesRender(w, html');
  }

  // ---------------------------------------------------------------- the encoder

  /** `canonicalValue` when `html` is true; the standard encoder without HTML escaping, which also sorts
      keys, when it is false. None is the error return: some part of the value is refused. */
  method CanonicalValue(v: Value, html: bool) returns (out: Option<string>)
    ensures out.Some? <==> Encodable(v)
    ensures out.Some? ==> out.value == Render(v, html)
    decreases v, 1
  {
    match v {
      case Map(_) => out := CanonicalMap(v, html);
      case Array(_) => out := CanonicalArray(v, html);
      case Opaque => out := None;
      case Nil => out := Some("null");
      case Bool(b) => out := Some(if b then "true" else "false");
      case Number(token) => out := Some(token);
      case Str(s) => out := Some(Quote(s, false));
    }
  }

  /** The keys of a Go map in some order of the runtime's choosing. */
  method MapKeys(m: map<string, Value>) returns (keys: seq<string>)
    ensures NoDuplicates(keys) && forall k :: k in keys <==> k in m
  {
    keys := [];
    var todo := m.Keys;
    while todo != {}
      invariant todo <= m.Keys && NoDuplicates(keys)
      invariant forall k :: k in keys <==> k in m.Keys - todo
    {
      var k :| k in todo;
      assert k !in keys;
      keys, todo := keys + [k], todo - {k};
    }
  }

  /** The keys of an object, at any depth, are written in ascending order, each once. */
  ghost predicate KeysAscend(v: Value, html: bool, text: string)
    requires v.Map?
  {
    exists keys :: KeysOf(v, keys) && text == "{" + RenderFields(v, keys, html) + "}"
  }

  ghost predicate KeysOf(v: Value, keys: seq<string>)
    requires v.Map?
  {
    Ascending(keys) && forall k :: k in keys <==> k in v.fields
  }

  /** `canonicalMap`: the text does not depend on the order the keys came in. */
  method CanonicalMap(v: Value, html: bool) returns (out: Option<string>)
    requires v.Map?
    ensures out.Some? <==> Encodable(v)
    ensures out.Some? ==> out.value == Render(v, html) && KeysAscend(v, html, out.value)
    decreases v, 0
  {
    hide Quote, RenderFields, Unwritten, StrictlySorted, Ascending, Encodable;
    hide Render, KeysAscend;
    var keys := SortedKeys(v.fields);
    MapText(v, keys, html);
    var buf := "{";
    ghost var whole := RenderFields(v, keys, html);
    UnwrittenAll(v, html, keys);
    for i := 0 to |keys|
      invariant forall j :: 0 <= j < i ==> Encodable(v.fields[keys[j]])
      invariant "{" + whole == buf + Unwritten(v, html, keys, i)
    {
      UnwrittenStep(v, html, keys, i);
      if i > 0 {
        buf := buf + ",";
      }
      var val := CanonicalValue(v.fields[keys[i]], html);
      if val.None? { EncodableMap(v, keys); return None; }
      buf := buf + Quote(keys[i], html) + ":" + val.value;
    }
    EncodableMap(v, keys);
    return Some(buf + "}");
  }

  /** The first lines of `canonicalMap`: the keys in whatever order they come, then sorted. */
  method SortedKeys(fields: map<string, Value>) returns (keys: seq<string>)
    ensures KeysOf(Map(fields), keys) && keys == SortedListing(fields.Keys)
  {
    hide StrictlySorted, Ascending, SortedListing;
    var unsorted := MapKeys(fields);
    keys := SortStrings(unsorted);
    assert IsSortedListing(keys, fields.Keys);
    SortedListingUnique(keys, SortedListing(fields.Keys));
  }

  lemma MapText(v: Value, keys: seq<string>, html: bool)
    requires v.Map? && KeysOf(v, keys) && keys == SortedListing(v.fields.Keys)
    ensures Render(v, html) == "{" + RenderFields(v, keys, html) + "}" && KeysAscend(v, html, Render(v, html))
  {
    hide RenderFields, Ascending;
  }

  lemma EncodableMap(v: Value, keys: seq<string>)
    requires v.Map? && forall k :: k in keys <==> k in v.fields
    ensures Encodable(v) <==> forall i :: 0 <= i < |keys| ==> Encodable(v.fields[keys[i]])
  {
    forall k | k in v.fields ensures exists i :: 0 <= i < |keys| && keys[i] == k {
      assert k in keys;
    }
  }

  /** What the loop of `canonicalMap` has left to write before key `i`. */
  ghost function Unwritten(v: Value, html: bool, keys: seq<string>, i: nat): string
    requires v.Map? && i <= |keys| && forall k :: k in keys ==> k in v.fields
  {
    if i == |keys| then "" else (if i > 0 then "," else "") + RenderFields(v, keys[i..], html)
  }

  lemma UnwrittenAll(v: Value, html: bool, keys: seq<string>)
    requires v.Map? && forall k :: k in keys ==> k in v.fields
    ensures Unwritten(v, html, keys, 0) == RenderFields(v, keys, html) && Unwritten(v, html, keys, |keys|) == ""
  {
    assert keys[0..] == keys;
  }

  lemma UnwrittenStep(v: Value, html: bool, keys: seq<string>, i: nat)
    requires v.Map? && i < |keys| && forall k :: k in keys ==> k in v.fields
    ensures Unwritten(v, html, keys, i) ==
            (if i > 0 then "," else "") + (Quote(keys[i], html) + ":" + Render(v.fields[keys[i]], html))
            + Unwritten(v, html, keys, i + 1)
  {
    assert keys[i..][1..] == keys[i + 1..] && keys[i..][0] == keys[i];
    assert RenderFields(v, keys[i..], html) == RenderField(v, keys[i], html) + Unwritten(v, html, keys, i + 1);
  }

  /** `canonicalArray`. */
  method CanonicalArray(v: Value, html: bool) returns (out: Option<string>)
    requires v.Array?
    ensures out.Some? <==> Encodable(v)
    ensures out.Some? ==> out.value == Render(v, html)
    decreases v, 0
  {
    hide RenderItems, Unlisted, Encodable;
    var buf := "[";
    ghost var whole := RenderItems(v, 0, html);
    UnlistedEnds(v, html);
    for i := 0 to |v.items|
      invariant forall j :: 0 <= j < i ==> Encodable(v.items[j])
      invariant "[" + whole == buf + Unlisted(v, html, i)
    {
      UnlistedStep(v, html, i);
      if i > 0 {
        buf := buf + ",";
      }
      var elem := CanonicalValue(v.items[i], html);
      if elem.None? { EncodableArray(v); return None; }
      buf := buf + elem.value;
    }
    EncodableArray(v);
    return Some(buf + "]");
  }

  /** What the loop of `canonicalArray` has left to write before element `i`. */
  ghost function Unlisted(v: Value, html: bool, i: nat): string
    requires v.Array? && i <= |v.items|
  {
    if i == |v.items| then "" else (if i > 0 then "," else "") + RenderItems(v, i, html)
  }

  lemma UnlistedEnds(v: Value, html: bool)
    requires v.Array?
    ensures Unlisted(v, html, 0) == RenderItems(v, 0, html) && Unlisted(v, html, |v.items|) == ""
  {
  }

  lemma UnlistedStep(v: Value, html: bool, i: nat)
    requires v.Array? && i < |v.items|
    ensures Unlisted(v, html, i) == (if i > 0 then "," else "") + Render(v.items[i], html) + Unlisted(v, html, i + 1)
  {
    hide Render;
  }

  lemma EncodableArray(v: Value)
    requires v.Array?
    ensures Encodable(v) <==> forall i :: 0 <= i < |v.items| ==> Encodable(v.items[i])
  {
  }

  /** What `Emit` is handed: any value, or a `Payload`, whose distinct Go type sends it to the standard encoder. */
  datatype Argument = Any(value: Value) | Payload(fields: map<string, Value>)

  function Tree(arg: Argument): Value {
    if arg.Any? then arg.value else Map(arg.fields)
  }

  /** The text of either kind of argument, if it has one. */
  ghost function CanonicalText(arg: Argument): Option<string> {
    if Encodable(Tree(arg)) then Some(Render(Tree(arg), arg.Any?)) else None
  }

  method CanonicalJSON(arg: Argument) returns (out: Option<string>)
    ensures out == CanonicalText(arg)
  {
    out := CanonicalValue(Tree(arg), arg.Any?);
  }

  /** The text written to payload_json determines the payload, whichever encoder produced it. */
  lemma PayloadRecoverable(arg: Argument)
    requires WellFormed(Tree(arg)) && CanonicalText(arg).Some?
    ensures Parse(CanonicalText(arg).value) == Some(Tree(arg))
  {
    ParseUndoesRender(Tree(arg), arg.Any?);
  }

  // ---------------------------------------------------------------- the bytes themselves

  /** How every character is written: itself unless it is a quote, a reverse solidus, a control character, one of the
      two line separators or, where HTML is escaped, one of the three markup characters; two characters for seven of
      those; six, in lower case, for the rest. What follows the reverse solidus stands for the character by section 7
      of RFC 8259. */
  lemma EscapeLaw(c: char, html: bool)
    ensures var e := EscapeChar(c, html);
            && (e == [c] <==> c >= ' ' && c != '"' && c != '\\' && c != 0x2028 as char && c != 0x2029 as char
                              && !(html && c in "<>&"))
            && (|e| == 2 <==> c in ['"', '\\', 8 as char, 12 as char, '\n', '\r', '\t'])
            && (|e| == 1 || |e| == 2 || |e| == 6)
            && (e != [c] ==> e[0] == '\\' && ParseEscape(e[1..]) == Some((c, "")))
            && (|e| == 6 ==> e[1] == 'u' && forall i :: 2 <= i < 6 ==> e[i] in "0123456789abcdef")
  {
    hide ParseEscape, UnicodeEscape;
    var e := EscapeChar(c, html);
    if (c as int) < 0x10000 {
      UnicodeDigits(c);
      UnicodeEscapeRoundTrip(c, "");
      assert UnicodeEscape(c)[1..] + "" == UnicodeEscape(c)[1..];
    }
    if |e| == 2 {
      ShortEscape(c, html, "");
      assert e[1..] + "" == e[1..];
    }
  }

  /** The seven short escapes. */
  lemma ShortEscapes(html: bool)
    ensures EscapeChar('"', html) == ['\\', '"'] && EscapeChar('\\', html) == ['\\', '\\']
    ensures EscapeChar(8 as char, html) == ['\\', 'b'] && EscapeChar(12 as char, html) == ['\\', 'f']
    ensures EscapeChar('\n', html) == ['\\', 'n'] && EscapeChar('\r', html) == ['\\', 'r']
    ensures EscapeChar('\t', html) == ['\\', 't']
  {
  }

  /** And the digits of the others: the character's number, the highest first. */
  lemma UnicodeValue(c: char, html: bool)
    ensures var e := EscapeChar(c, html);
            |e| == 6 ==> c as int == HexValue(e[2]) * 4096 + HexValue(e[3]) * 256 + HexValue(e[4]) * 16 + HexValue(e[5])
  {
    var n := c as int;
    if n < 0x10000 {
      hide HexValue;
      assert n / 4096 < 16;
      HexDigitValue(n / 4096);
      HexDigitValue(n / 256 % 16);
      HexDigitValue(n / 16 % 16);
      HexDigitValue(n % 16);
      HexDigitsOf(n);
    }
  }

  lemma UnicodeDigits(c: char)
    requires (c as int) < 0x10000
    ensures var e := UnicodeEscape(c);
            |e| == 6 && e[0] == '\\' && e[1] == 'u' && forall i :: 2 <= i < 6 ==> e[i] in "0123456789abcdef"
  {
    var n := c as int;
    assert forall v :: 0 <= v < 16 ==> HEX_DIGITS[v] in HEX_DIGITS;
    assert n / 4096 < 16;
  }

  lemma {:induction false} EscapeVerbatim(s: string, html: bool)
    requires forall i :: 0 <= i < |s| ==> EscapeChar(s[i], html) == [s[i]]
    ensures Escape(s, html) == s
  {
    hide EscapeChar;
    if s != "" {
      EscapeVerbatim(s[1..], html);
      assert s == [s[0]] + s[1..];
    }
  }

  /** A string value is written the same by both encoders, and verbatim when it has nothing to escape: markup stays. */
  lemma {:induction false} ValueText(s: string, html: bool)
    requires forall i :: 0 <= i < |s| ==> EscapeChar(s[i], false) == [s[i]]
    ensures Render(Str(s), html) == "\"" + s + "\""
  {
    EscapeVerbatim(s, false);
  }

  /** The other scalars. */
  lemma ScalarText(token: string, html: bool)
    ensures Render(Nil, html) == "null" && Render(Number(token), html) == token
    ensures Render(Bool(true), html) == "true" && Render(Bool(false), html) == "false"
  {
  }

  /** An array between brackets, a comma before every element but the first. */
  lemma ArrayText(items: seq<Value>, x: Value, html: bool)
    ensures Render(Array([]), html) == "[]" && Render(Array([x]), html) == "[" + Render(x, html) + "]"
    ensures items != [] ==>
              var r := Render(Array(items), html);
              r != "" && Render(Array(items + [x]), html) == r[..|r| - 1] + "," + Render(x, html) + "]"
  {
    hide Render, RenderItems;
    Brackets([], html);
    Brackets([x], html);
    NoItems(html);
    LastItem([], x, html);
    assert [] + [x] == [x];
    if items != [] {
      var inner, text := RenderItems(Array(items), 0, html), Render(x, html);
      OneMoreItem(items, x, 0, html);
      Brackets(items, html);
      Brackets(items + [x], html);
      assert ("[" + inner + "]")[..|inner| + 1] == "[" + inner;
      assert "[" + (inner + "," + text) + "]" == "[" + inner + "," + text + "]";
    }
  }

  lemma Brackets(items: seq<Value>, html: bool)
    ensures Render(Array(items), html) == "[" + RenderItems(Array(items), 0, html) + "]"
  {
    hide RenderItems;
  }

  lemma NoItems(html: bool)
    ensures RenderItems(Array([]), 0, html) == ""
  {
  }

  lemma LastItem(items: seq<Value>, x: Value, html: bool)
    ensures RenderItems(Array(items + [x]), |items|, html) == Render(x, html)
  {
    hide Render;
    assert Render(x, html) + "" == Render(x, html);
  }

  lemma ItemBefore(items: seq<Value>, from: nat, html: bool)
    requires from + 1 < |items|
    ensures RenderItems(Array(items), from, html) ==
            Render(items[from], html) + ("," + RenderItems(Array(items), from + 1, html))
  {
    hide Render;
  }

  lemma {:induction false} OneMoreItem(items: seq<Value>, x: Value, from: nat, html: bool)
    requires from < |items|
    ensures RenderItems(Array(items + [x]), from, html) == RenderItems(Array(items), from, html) + "," + Render(x, html)
    decreases |items| - from
  {
    hide Render, RenderItems;
    var more, text, head := items + [x], Render(x, html), Render(items[from], html);
    ItemBefore(more, from, html);
    if from + 1 < |items| {
      var rest := RenderItems(Array(items), from + 1, html);
      ItemBefore(items, from, html);
      OneMoreItem(items, x, from + 1, html);
      assert head + ("," + (rest + "," + text)) == head + ("," + rest) + "," + text;
    } else {
      LastItem(items, x, html);
      LastItem(items[..from], items[from], html);
      assert items[..from] + [items[from]] == items;
      assert head + ("," + text) == head + "," + text;
    }
  }

  lemma CanonicalKeyOrder(v: Value, html: bool)
    requires v.Map?
    ensures KeysAscend(v, html, Render(v, html))
  {
    hide RenderFields, StrictlySorted, Ascending;
    var keys := SortedListing(v.fields.Keys);
    SortedIsAscending(keys);
    assert KeysOf(v, keys);
  }

  /** No other order of the keys is ascending, so this is the text. */
  lemma CanonicalTextOfKeys(v: Value, keys: seq<string>, html: bool)
    requires v.Map? && KeysOf(v, keys)
    ensures Render(v, html) == "{" + RenderFields(v, keys, html) + "}"
  {
    hide RenderFields, StrictlySorted, Ascending;
    var sorted := SortedListing(v.fields.Keys);
    SortedIsAscending(keys);
    SortedListingUnique(keys, sorted);
  }

  /** A field: its key, quoted with or without HTML escapes, a colon, its value. */
  lemma FieldText(v: Value, key: string, html: bool)
    requires v.Map? && key in v.fields && forall i :: 0 <= i < |key| ==> EscapeChar(key[i], html) == [key[i]]
    ensures RenderField(v, key, html) == "\"" + key + "\":" + Render(v.fields[key], html)
  {
    hide EscapeChar, Render;
    EscapeVerbatim(key, html);
  }

  lemma LastField(v: Value, key: string, html: bool)
    requires v.Map? && key in v.fields
    ensures RenderFields(v, [key], html) == RenderField(v, key, html)
  {
    hide RenderField;
    assert RenderField(v, key, html) + "" == RenderField(v, key, html);
  }

  lemma FieldBefore(v: Value, key: string, keys: seq<string>, html: bool)
    requires v.Map? && key in v.fields && keys != [] && forall k :: k in keys ==> k in v.fields
    ensures RenderFields(v, [key] + keys, html) == RenderField(v, key, html) + "," + RenderFields(v, keys, html)
  {
    hide RenderField;
    assert ([key] + keys)[1..] == keys;
  }

  /** A payload as the agent emits it for its planning request. */
  function PlanningRequest(): map<string, Value> {
    map["provider" := Str("p"), "model" := Str("m"), "phase" := Str("planning")]
  }

  lemma PlanningKeys()
    ensures KeysOf(Map(PlanningRequest()), ["model", "phase", "provider"])
  {
    var keys := ["model", "phase", "provider"];
    assert PartAt(keys[0], keys[1], 0) && PartAt(keys[0], keys[2], 0);
    assert keys[1][..1] == "p" == keys[2][..1];
    assert PartAt(keys[1], keys[2], 1);
  }

  /** A field that needs no escaping. */
  function PlainText(key: string, s: string): string {
    "\"" + key + "\":\"" + s + "\""
  }

  /** Its text, written out: model, phase, provider. */
  lemma PlanningRequestText()
    ensures CanonicalText(Payload(PlanningRequest())) ==
            Some("{" + (PlainText("model", "m") + "," +
                        (PlainText("phase", "planning") + "," + PlainText("provider", "p"))) + "}")
  {
    hide RenderFields, RenderField, Render, Encodable, KeysOf, EscapeChar, PlainText;
    var v := Map(PlanningRequest());
    PlanningKeys();
    CanonicalTextOfKeys(v, ["model", "phase", "provider"], false);
    PlainField(v, "model", "m");
    PlainField(v, "phase", "planning");
    PlainField(v, "provider", "p");
    FieldBefore(v, "model", ["phase", "provider"], false);
    FieldBefore(v, "phase", ["provider"], false);
    LastField(v, "provider", false);
    assert ["model"] + ["phase", "provider"] == ["model", "phase", "provider"];
    assert ["phase"] + ["provider"] == ["phase", "provider"];
    StringsEncodable(v);
  }

  lemma LowerCase(c: char, html: bool)
    requires 'a' <= c <= 'z'
    ensures EscapeChar(c, html) == [c]
  {
  }

  lemma StringsEncodable(v: Value)
    requires v.Map? && forall k :: k in v.fields ==> v.fields[k].Str?
    ensures Encodable(v)
  {
  }

  lemma PlainField(v: Value, key: string, s: string)
    requires v.Map? && key in v.fields && v.fields[key] == Str(s)
    requires forall i :: 0 <= i < |key| ==> 'a' <= key[i] <= 'z'
    requires forall i :: 0 <= i < |s| ==> 'a' <= s[i] <= 'z'
    ensures RenderField(v, key, false) == PlainText(key, s)
  {
    hide EscapeChar;
    forall c: char | 'a' <= c <= 'z' ensures EscapeChar(c, false) == [c] {
      LowerCase(c, false);
    }
    EscapeVerbatim(key, false);
    EscapeVerbatim(s, false);
  }

  /** Markup in a key is escaped when the value is handed over as a plain map, and not when it is a Payload. */
  lemma MarkupInKeys()
    ensures CanonicalText(Any(Map(map["<" := Str("<")]))) == Some("{\"\\u003c\":\"<\"}")
    ensures CanonicalText(Payload(map["<" := Str("<")])) == Some("{\"<\":\"<\"}")
  {
    hide Escape, EscapeChar, Encodable, Render, KeysOf;
    var v := Map(map["<" := Str("<")]);
    OneFieldText(v, "<", true);
    OneFieldText(v, "<", false);
    OneCharacter('<', true);
    OneCharacter('<', false);
    MarkupEscape();
    ValueText("<", true);
    ValueText("<", false);
    StringsEncodable(v);
    assert v.fields["<"] == Str("<");
    assert RenderField(v, "<", true) == "\"\\u003c\":\"<\"";
    assert RenderField(v, "<", false) == "\"<\":\"<\"";
    assert "{" + "\"\\u003c\":\"<\"" + "}" == "{\"\\u003c\":\"<\"}";
    assert "{" + "\"<\":\"<\"" + "}" == "{\"<\":\"<\"}";
  }

  lemma OneKey(v: Value, key: string)
    requires v.Map? && v.fields.Keys == {key}
    ensures KeysOf(v, [key])
  {
  }

  lemma OneFieldText(v: Value, key: string, html: bool)
    requires v.Map? && v.fields.Keys == {key}
    ensures Render(v, html) == "{" + RenderField(v, key, html) + "}"
  {
    hide RenderField, KeysOf;
    OneKey(v, key);
    CanonicalTextOfKeys(v, [key], html);
    LastField(v, key, html);
  }

  lemma OneCharacter(c: char, html: bool)
    ensures Escape([c], html) == EscapeChar(c, html)
  {
    hide EscapeChar;
    assert [c][1..] == "";
    assert EscapeChar(c, html) + "" == EscapeChar(c, html);
  }

  lemma MarkupEscape()
    ensures EscapeChar('<', true) == "\\u003c" && EscapeChar('<', false) == "<"
  {
    assert '<' as int == 0x3c;
  }
}
