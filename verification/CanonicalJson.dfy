/**
 The canonical JSON text behind command idempotency (`stableJson`), an independent parser for
 compact JSON, and the proof that two values share a text exactly when they are equal up to
 the order of object keys.
 */
module CanonicalJson {
  import opened Prelude

  /**
   A JSON value. Object fields keep their insertion order. A number is represented by the text
   that ECMAScript prints for it, which is unique for each finite number.
   */
  datatype Json =
    | Null
    | Bool(b: bool)
    | Number(digits: string)
    | String(s: string)
    | Array(items: seq<Json>)
    | Object(fields: seq<Field>)

  datatype Field = Field(key: string, value: Json)

  predicate IsNumberChar(c: char) {
    '0' <= c <= '9' || c == '-' || c == '+' || c == '.' || c == 'e' || c == 'E'
  }

  predicate IsNumberText(t: string) {
    t != [] && (t[0] == '-' || '0' <= t[0] <= '9') && forall i :: 0 <= i < |t| ==> IsNumberChar(t[i])
  }

  predicate DistinctKeys(fields: seq<Field>) {
    forall i, j :: 0 <= i < j < |fields| ==> fields[i].key != fields[j].key
  }

  predicate Valid(v: Json) {
    match v
    case Number(digits) => IsNumberText(digits)
    case Array(items) => forall i :: 0 <= i < |items| ==> Valid(items[i])
    case Object(fields) => DistinctKeys(fields) && forall i :: 0 <= i < |fields| ==> Valid(fields[i].value)
    case _ => true
  }

  /** Equality of JSON values up to the order of object keys, at any nesting. */
  predicate SameUpToOrder(a: Json, b: Json) {
    match (a, b)
    case (Array(x), Array(y)) =>
      |x| == |y| && forall i :: 0 <= i < |x| ==> SameUpToOrder(x[i], y[i])
    case (Object(x), Object(y)) =>
      && Keys(x) == Keys(y)
      && forall i, j :: 0 <= i < |x| && 0 <= j < |y| && x[i].key == y[j].key ==> SameUpToOrder(x[i].value, y[j].value)
    case _ => a == b
  }

  function Keys(fields: seq<Field>): set<string> {
    set i | 0 <= i < |fields| :: fields[i].key
  }

  // ----- Key order -----

  /** The position of a character in the order of UTF-16 code units: astral characters sort before U+E000. */
  function Weight(c: char): int {
    if 0xE000 <= c as int <= 0xFFFF then c as int + 0x110000 else c as int
  }

  predicate KeyLess(a: string, b: string) {
    b != [] && (a == [] || Weight(a[0]) < Weight(b[0]) || (a[0] == b[0] && KeyLess(a[1..], b[1..])))
  }

  lemma {:induction false} KeyLessTotal(a: string, b: string)
    ensures KeyLess(a, b) || a == b || KeyLess(b, a)
  {
    if a != [] && b != [] && a[0] == b[0] {
      KeyLessTotal(a[1..], b[1..]);
      assert a == [a[0]] + a[1..] && b == [b[0]] + b[1..];
    }
  }

  lemma {:induction false} KeyLessTransitive(a: string, b: string, c: string)
    requires KeyLess(a, b) && KeyLess(b, c)
    ensures KeyLess(a, c)
  {
    if a != [] && a[0] == b[0] && b[0] == c[0] {
      KeyLessTransitive(a[1..], b[1..], c[1..]);
    }
  }

  lemma {:induction false} KeyLessIrreflexive(a: string)
    ensures !KeyLess(a, a)
  {
    if a != [] {
      KeyLessIrreflexive(a[1..]);
    }
  }

  predicate Sorted(keys: seq<string>) {
    forall i, j :: 0 <= i < j < |keys| ==> KeyLess(keys[i], keys[j])
  }

  function Elements(keys: seq<string>): set<string> {
    set key | key in keys
  }

  function Insert(key: string, keys: seq<string>): seq<string> {
    if keys == [] || KeyLess(key, keys[0]) then [key] + keys
    else [keys[0]] + Insert(key, keys[1..])
  }

  function SortKeys(keys: seq<string>): seq<string> {
    if keys == [] then [] else Insert(keys[0], SortKeys(keys[1..]))
  }

  lemma {:induction false} InsertSorts(key: string, keys: seq<string>)
    requires Sorted(keys) && key !in keys
    ensures Sorted(Insert(key, keys))
    ensures Elements(Insert(key, keys)) == Elements(keys) + {key}
    ensures |Insert(key, keys)| == |keys| + 1
  {
    if keys != [] && !KeyLess(key, keys[0]) {
      var rest := Insert(key, keys[1..]);
      InsertSorts(key, keys[1..]);
      KeyLessTotal(key, keys[0]);
      ElementsCons(keys[0], keys[1..]);
      ElementsCons(keys[0], rest);
      assert [keys[0]] + keys[1..] == keys;
      forall j | 0 <= j < |rest| ensures KeyLess(keys[0], rest[j]) {
        assert rest[j] in Elements(rest);
      }
    } else if keys != [] {
      forall j | 0 <= j < |keys| ensures KeyLess(key, keys[j]) {
        if j > 0 {
          KeyLessTransitive(key, keys[0], keys[j]);
        }
      }
    }
  }

  lemma ElementsCons(key: string, keys: seq<string>)
    ensures Elements([key] + keys) == Elements(keys) + {key}
  {
  }

  lemma {:induction false} SortKeysSorts(keys: seq<string>)
    requires forall i, j :: 0 <= i < j < |keys| ==> keys[i] != keys[j]
    ensures Sorted(SortKeys(keys)) && |SortKeys(keys)| == |keys|
    ensures Elements(SortKeys(keys)) == Elements(keys)
  {
    if keys != [] {
      var rest := SortKeys(keys[1..]);
      SortKeysSorts(keys[1..]);
      assert keys[0] !in Elements(rest);
      InsertSorts(keys[0], rest);
      ElementsCons(keys[0], keys[1..]);
      assert keys == [keys[0]] + keys[1..];
    }
  }

  /** A sorted sequence is determined by its elements. */
  lemma {:induction false} SortedUnique(a: seq<string>, b: seq<string>)
    requires Sorted(a) && Sorted(b) && Elements(a) == Elements(b)
    ensures a == b
  {
    assert a != [] ==> a[0] in Elements(b);
    assert b != [] ==> b[0] in Elements(a);
    if a != [] && b != [] {
      SameFirst(a, b);
      ElementsOfRest(a);
      ElementsOfRest(b);
      SortedUnique(a[1..], b[1..]);
      assert a == [a[0]] + a[1..] && b == [b[0]] + b[1..];
    }
  }

  lemma SameFirst(a: seq<string>, b: seq<string>)
    requires a != [] && b != [] && Sorted(a) && Sorted(b) && Elements(a) == Elements(b)
    ensures a[0] == b[0]
  {
    assert a[0] in Elements(b) && b[0] in Elements(a);
    if a[0] != b[0] {
      KeyLessTransitive(a[0], b[0], a[0]);
      KeyLessIrreflexive(a[0]);
    }
  }

  lemma ElementsOfRest(a: seq<string>)
    requires a != [] && Sorted(a)
    ensures Elements(a[1..]) == Elements(a) - {a[0]}
  {
    ElementsCons(a[0], a[1..]);
    assert a == [a[0]] + a[1..];
    KeyLessIrreflexive(a[0]);
    assert a[0] !in a[1..];
  }

  // ----- The printer -----

  function HexDigit(n: nat): char
    requires n < 16
  {
    "0123456789abcdef"[n]
  }

  function EscapeChar(c: char): string {
    if c == '\"' then "\\\""
    else if c == '\\' then "\\\\"
    else if c as int == 8 then "\\b"
    else if c == '\t' then "\\t"
    else if c == '\n' then "\\n"
    else if c as int == 12 then "\\f"
    else if c == '\r' then "\\r"
    else if c < ' ' then "\\u00" + [HexDigit(c as int / 16), HexDigit(c as int % 16)]
    else [c]
  }

  function EscapeText(s: string): string {
    if s == [] then [] else EscapeChar(s[0]) + EscapeText(s[1..])
  }

  function PrintString(s: string): string {
    "\"" + (EscapeText(s) + "\"")
  }

  /** The position of a key, for the property lookup `value[key]`. */
  function IndexOf(fields: seq<Field>, key: string): (i: nat)
    requires key in Keys(fields)
    ensures i < |fields| && fields[i].key == key
  {
    if fields[0].key == key then 0
    else
      assert key in Keys(fields[1..]) by {
        var i :| 0 <= i < |fields| && fields[i].key == key;
        assert fields[1..][i - 1].key == key;
      }
      1 + IndexOf(fields[1..], key)
  }

  /** `Object.keys(value).sort()` */
  function SortedKeys(fields: seq<Field>): seq<string> {
    SortKeys(seq(|fields|, i requires 0 <= i < |fields| => fields[i].key))
  }

  lemma SortedKeysOf(fields: seq<Field>)
    requires DistinctKeys(fields)
    ensures Sorted(SortedKeys(fields)) && |SortedKeys(fields)| == |fields|
    ensures Elements(SortedKeys(fields)) == Keys(fields)
  {
    var keys := seq(|fields|, i requires 0 <= i < |fields| => fields[i].key);
    SortKeysSorts(keys);
    forall key ensures key in Elements(keys) <==> key in Keys(fields) {
      if key in Keys(fields) {
        var i :| 0 <= i < |fields| && fields[i].key == key;
        assert keys[i] == key;
      }
    }
  }

  /** The value that `value[key]` finds for the sorted key number `k`. */
  function ValueAt(fields: seq<Field>, k: nat): (v: Json)
    requires DistinctKeys(fields) && k < |fields|
    ensures exists i :: 0 <= i < |fields| && fields[i].value == v && fields[i].key == KeyAt(fields, k)
  {
    var key := KeyAt(fields, k);
    fields[IndexOf(fields, key)].value
  }

  function KeyAt(fields: seq<Field>, k: nat): (key: string)
    requires DistinctKeys(fields) && k < |fields|
    ensures |SortedKeys(fields)| == |fields| && key == SortedKeys(fields)[k]
    ensures key in Keys(fields)
  {
    SortedKeysOf(fields);
    assert SortedKeys(fields)[k] in Elements(SortedKeys(fields));
    SortedKeys(fields)[k]
  }

  function StableJson(v: Json): string
    requires Valid(v)
    decreases v, 1
  {
    match v
    case Null => "null"
    case Bool(b) => if b then "true" else "false"
    case Number(digits) => digits
    case String(s) => PrintString(s)
    case Array(items) => "[" + StableItems(v, 0)
    case Object(fields) => "{" + StableFields(v, 0)
  }

  /** The items from `i` on, with the closing bracket. */
  function StableItems(v: Json, i: nat): string
    requires v.Array? && Valid(v) && i <= |v.items|
    decreases v, 0, |v.items| - i
  {
    if i == |v.items| then "]"
    else StableJson(v.items[i]) + (if i + 1 == |v.items| then "]" else "," + StableItems(v, i + 1))
  }

  /** The fields from sorted key number `k` on, with the closing brace. */
  function StableFields(v: Json, k: nat): string
    requires v.Object? && Valid(v) && k <= |v.fields|
    decreases v, 0, |v.fields| - k
  {
    if k == |v.fields| then "}"
    else
      PrintString(KeyAt(v.fields, k)) + (":" + (StableJson(ValueAt(v.fields, k))
      + (if k + 1 == |v.fields| then "}" else "," + StableFields(v, k + 1))))
  }

  // ----- A parser for JSON texts without insignificant white space -----

  datatype Parsed<+T> = Failed | Parsed(value: T, rest: string)

  function HexValue(c: char): int {
    if '0' <= c <= '9' then c as int - '0' as int
    else if 'a' <= c <= 'f' then c as int - 'a' as int + 10
    else if 'A' <= c <= 'F' then c as int - 'A' as int + 10
    else -1
  }

  /** The character of a four-digit escape; surrogates are not characters on their own. */
  function UnescapeHex(h: string): Option<char>
    requires |h| == 4
  {
    if exists i :: 0 <= i < 4 && HexValue(h[i]) < 0 then None
    else
      var code := ((HexValue(h[0]) * 16 + HexValue(h[1])) * 16 + HexValue(h[2])) * 16 + HexValue(h[3]);
      if code < 0xD800 || 0xE000 <= code <= 0xFFFF then Some(code as char) else None
  }

  /** The character that one backslash escape stands for. */
  function Unescape(c: char): Option<char> {
    match c
    case '\"' => Some('\"')
    case '\\' => Some('\\')
    case '/' => Some('/')
    case 'b' => Some(8 as char)
    case 't' => Some('\t')
    case 'n' => Some('\n')
    case 'f' => Some(12 as char)
    case 'r' => Some('\r')
    case _ => None
  }

  /** One character of a string text, written plainly or as an escape. */
  function ParseChar(s: string): (r: Parsed<char>)
    ensures r.Parsed? ==> |r.rest| < |s|
  {
    if s == [] || s[0] < ' ' || s[0] == '\"' then Failed
    else if s[0] != '\\' then Parsed(s[0], s[1..])
    else if |s| == 1 then Failed
    else if s[1] == 'u' then
      if |s| < 6 || UnescapeHex(s[2..6]).None? then Failed
      else Parsed(UnescapeHex(s[2..6]).value, s[6..])
    else if Unescape(s[1]).None? then Failed
    else Parsed(Unescape(s[1]).value, s[2..])
  }

  /** The rest of a string text after its opening quote. */
  function ParseString(s: string): (r: Parsed<string>)
    ensures r.Parsed? ==> |r.rest| < |s|
    decreases |s|
  {
    if s != [] && s[0] == '\"' then Parsed([], s[1..])
    else
      match ParseChar(s)
      case Failed => Failed
      case Parsed(c, tail) =>
        match ParseString(tail)
        case Failed => Failed
        case Parsed(text, rest) => Parsed([c] + text, rest)
  }

  function NumberLength(s: string): (n: nat)
    ensures n <= |s|
  {
    if s == [] || !IsNumberChar(s[0]) then 0 else 1 + NumberLength(s[1..])
  }

  predicate StartsWith(s: string, word: string) {
    |word| <= |s| && s[..|word|] == word
  }

  function ParseWord(s: string, word: string, v: Json): (r: Parsed<Json>)
    ensures r.Parsed? && word != [] ==> |r.rest| < |s|
  {
    if StartsWith(s, word) then Parsed(v, s[|word|..]) else Failed
  }

  function ParseNumber(s: string): (r: Parsed<Json>)
    ensures r.Parsed? ==> |r.rest| < |s|
  {
    var n := NumberLength(s);
    if IsNumberText(s[..n]) then Parsed(Number(s[..n]), s[n..]) else Failed
  }

  function ParseValue(s: string): (r: Parsed<Json>)
    ensures r.Parsed? ==> |r.rest| < |s|
    decreases |s|, 1
  {
    if s == [] then Failed
    else if s[0] == 'n' then ParseWord(s, "null", Null)
    else if s[0] == 't' then ParseWord(s, "true", Bool(true))
    else if s[0] == 'f' then ParseWord(s, "false", Bool(false))
    else if s[0] == '\"' then
      match ParseString(s[1..])
      case Failed => Failed
      case Parsed(text, rest) => Parsed(String(text), rest)
    else if s[0] == '[' then
      if |s| > 1 && s[1] == ']' then Parsed(Array([]), s[2..])
      else
        match ParseItems(s[1..])
        case Failed => Failed
        case Parsed(items, rest) => Parsed(Array(items), rest)
    else if s[0] == '{' then
      if |s| > 1 && s[1] == '}' then Parsed(Object([]), s[2..])
      else
        match ParseFields(s[1..])
        case Failed => Failed
        case Parsed(fields, rest) => Parsed(Object(fields), rest)
    else ParseNumber(s)
  }

  function ParseItems(s: string): (r: Parsed<seq<Json>>)
    ensures r.Parsed? ==> |r.rest| < |s|
    decreases |s|, 2
  {
    match ParseValue(s)
    case Failed => Failed
    case Parsed(v, tail) =>
      if tail == [] then Failed
      else if tail[0] == ']' then Parsed([v], tail[1..])
      else if tail[0] != ',' then Failed
      else
        match ParseItems(tail[1..])
        case Failed => Failed
        case Parsed(items, rest) => Parsed([v] + items, rest)
  }

  /** One quoted key, a colon and a value. */
  function ParseField(s: string): (r: Parsed<Field>)
    ensures r.Parsed? ==> |r.rest| < |s|
    decreases |s|, 0
  {
    if s == [] || s[0] != '\"' then Failed
    else
      match ParseString(s[1..])
      case Failed => Failed
      case Parsed(key, tail) =>
        if tail == [] || tail[0] != ':' then Failed
        else
          match ParseValue(tail[1..])
          case Failed => Failed
          case Parsed(v, rest) => Parsed(Field(key, v), rest)
  }

  function ParseFields(s: string): (r: Parsed<seq<Field>>)
    ensures r.Parsed? ==> |r.rest| < |s|
    decreases |s|, 1
  {
    match ParseField(s)
    case Failed => Failed
    case Parsed(field, tail) =>
      if tail == [] then Failed
      else if tail[0] == '}' then Parsed([field], tail[1..])
      else if tail[0] != ',' then Failed
      else
        match ParseFields(tail[1..])
        case Failed => Failed
        case Parsed(fields, rest) => Parsed([field] + fields, rest)
  }

  // ----- The parser undoes the printer -----

  /** The value with the fields of every object in key order. */
  function Normal(v: Json): Json
    requires Valid(v)
  {
    match v
    case Array(items) =>
      Array(seq(|items|, i requires 0 <= i < |items| => Normal(items[i])))
    case Object(fields) =>
      Object(seq(|fields|, k requires 0 <= k < |fields| => Field(KeyAt(fields, k), Normal(ValueAt(fields, k)))))
    case _ => v
  }

  predicate AtValueEnd(rest: string) {
    rest == [] || rest[0] == ',' || rest[0] == ']' || rest[0] == '}'
  }

  lemma ParsePlainChar(c: char, tail: string)
    requires c >= ' ' && c != '\"' && c != '\\'
    ensures ParseChar([c] + tail) == Parsed(c, tail)
  {
    assert ([c] + tail)[1..] == tail;
  }

  lemma ParseShortEscape(c: char, e: char, tail: string)
    requires e != 'u' && Unescape(e) == Some(c)
    ensures ParseChar(['\\', e] + tail) == Parsed(c, tail)
  {
    assert (['\\', e] + tail)[2..] == tail;
  }

  lemma HexDigitValue(n: nat)
    requires n < 16
    ensures HexValue(HexDigit(n)) == n
  {
  }

  lemma ParseHexEscape(c: char, tail: string)
    requires c < ' '
    ensures ParseChar("\\u00" + [HexDigit(c as int / 16), HexDigit(c as int % 16)] + tail) == Parsed(c, tail)
  {
    var h := ['0', '0', HexDigit(c as int / 16), HexDigit(c as int % 16)];
    var s := "\\u00" + [HexDigit(c as int / 16), HexDigit(c as int % 16)] + tail;
    assert s[2..6] == h && s[6..] == tail;
    HexDigitValue(c as int / 16);
    HexDigitValue(c as int % 16);
    assert UnescapeHex(h) == Some(c);
  }

  lemma EscapeParses(c: char, tail: string)
    ensures ParseChar(EscapeChar(c) + tail) == Parsed(c, tail)
    ensures EscapeChar(c) != [] && EscapeChar(c)[0] != '\"'
  {
    hide ParseChar;
    if c == '\"' { ParseShortEscape(c, '\"', tail); }
    else if c == '\\' { ParseShortEscape(c, '\\', tail); }
    else if c as int == 8 { ParseShortEscape(c, 'b', tail); }
    else if c == '\t' { ParseShortEscape(c, 't', tail); }
    else if c == '\n' { ParseShortEscape(c, 'n', tail); }
    else if c as int == 12 { ParseShortEscape(c, 'f', tail); }
    else if c == '\r' { ParseShortEscape(c, 'r', tail); }
    else if c < ' ' { ParseHexEscape(c, tail); }
    else { ParsePlainChar(c, tail); }
  }

  lemma ParseStringStep(s: string, c: char, tail: string, text: string, rest: string)
    requires s != [] && s[0] != '\"' && ParseChar(s) == Parsed(c, tail)
    requires ParseString(tail) == Parsed(text, rest)
    ensures ParseString(s) == Parsed([c] + text, rest)
  {
    hide ParseChar;
  }

  lemma {:induction false} StringParses(text: string, rest: string)
    ensures ParseString(EscapeText(text) + "\"" + rest) == Parsed(text, rest)
  {
    hide ParseChar, EscapeChar;
    var s := EscapeText(text) + "\"" + rest;
    if text == [] {
      assert s[1..] == rest;
    } else {
      var tail := EscapeText(text[1..]) + "\"" + rest;
      StringParses(text[1..], rest);
      hide ParseString;
      EscapeParses(text[0], tail);
      assert s == EscapeChar(text[0]) + tail;
      ParseStringStep(s, text[0], tail, text[1..], rest);
      assert [text[0]] + text[1..] == text;
    }
  }

  lemma {:induction false} NumberLengthOf(digits: string, rest: string)
    requires forall i :: 0 <= i < |digits| ==> IsNumberChar(digits[i])
    requires AtValueEnd(rest)
    ensures NumberLength(digits + rest) == |digits|
  {
    if digits == [] {
      assert digits + rest == rest;
    } else {
      NumberLengthOf(digits[1..], rest);
      assert (digits + rest)[1..] == digits[1..] + rest;
    }
  }

  lemma NumberParses(digits: string, rest: string)
    requires IsNumberText(digits) && AtValueEnd(rest)
    ensures ParseValue(digits + rest) == Parsed(Number(digits), rest)
  {
    NumberLengthOf(digits, rest);
    var s := digits + rest;
    assert s[..|digits|] == digits && s[|digits|..] == rest;
    assert ParseNumber(s) == Parsed(Number(digits), rest);
  }

  lemma WordParses(word: string, v: Json, rest: string)
    ensures ParseWord(word + rest, word, v) == Parsed(v, rest)
  {
    assert (word + rest)[..|word|] == word && (word + rest)[|word|..] == rest;
  }

  lemma StringValueParses(text: string, rest: string)
    ensures ParseValue(PrintString(text) + rest) == Parsed(String(text), rest)
  {
    var s := PrintString(text) + rest;
    assert s[1..] == EscapeText(text) + "\"" + rest;
    StringParses(text, rest);
  }

  lemma ScalarParses(v: Json, rest: string)
    requires Valid(v) && !v.Array? && !v.Object? && AtValueEnd(rest)
    ensures ParseValue(StableJson(v) + rest) == Parsed(v, rest)
  {
    match v
    case Null => WordParses("null", v, rest);
    case Bool(b) => WordParses(if b then "true" else "false", v, rest);
    case Number(digits) =>
      hide ParseValue;
      NumberParses(digits, rest);
    case String(text) =>
      hide ParseValue;
      StringValueParses(text, rest);
  }

  lemma EmptyArrayParses(rest: string)
    ensures ParseValue("[]" + rest) == Parsed(Array([]), rest)
  {
    assert ("[]" + rest)[2..] == rest;
  }

  lemma EmptyObjectParses(rest: string)
    ensures ParseValue("{}" + rest) == Parsed(Object([]), rest)
  {
    assert ("{}" + rest)[2..] == rest;
  }

  lemma ArrayParses(inner: string, items: seq<Json>, rest: string)
    requires ParseItems(inner) == Parsed(items, rest) && inner[0] != ']'
    ensures ParseValue("[" + inner) == Parsed(Array(items), rest)
  {
    hide ParseItems, ParseFields, ParseString, ParseNumber, ParseWord;
    assert ("[" + inner)[1..] == inner;
  }

  lemma ObjectParses(inner: string, fields: seq<Field>, rest: string)
    requires ParseFields(inner) == Parsed(fields, rest) && inner[0] != '}'
    ensures ParseValue("{" + inner) == Parsed(Object(fields), rest)
  {
    hide ParseItems, ParseFields, ParseString, ParseNumber, ParseWord;
    assert ("{" + inner)[1..] == inner;
  }

  lemma ItemsParse(first: string, v: Json, more: string, items: seq<Json>, rest: string)
    requires ParseValue(first + "," + more) == Parsed(v, "," + more)
    requires ParseItems(more) == Parsed(items, rest)
    ensures ParseItems(first + "," + more) == Parsed([v] + items, rest)
  {
    assert ("," + more)[1..] == more;
  }

  lemma LastItemParses(first: string, v: Json, rest: string)
    requires ParseValue(first + "]" + rest) == Parsed(v, "]" + rest)
    ensures ParseItems(first + "]" + rest) == Parsed([v], rest)
  {
    assert ("]" + rest)[1..] == rest;
  }

  lemma FieldParses(key: string, value: string, v: Json, rest: string)
    requires ParseValue(value + rest) == Parsed(v, rest)
    ensures ParseField(PrintString(key) + ":" + value + rest) == Parsed(Field(key, v), rest)
  {
    hide ParseValue;
    var tail := ":" + (value + rest);
    var s := PrintString(key) + ":" + value + rest;
    assert s[1..] == EscapeText(key) + "\"" + tail;
    StringParses(key, tail);
    assert tail[1..] == value + rest;
  }

  lemma FieldsParse(first: string, field: Field, more: string, fields: seq<Field>, rest: string)
    requires ParseField(first + "," + more) == Parsed(field, "," + more)
    requires ParseFields(more) == Parsed(fields, rest)
    ensures ParseFields(first + "," + more) == Parsed([field] + fields, rest)
  {
    hide ParseField;
    assert ("," + more)[1..] == more;
  }

  lemma LastFieldParses(first: string, field: Field, rest: string)
    requires ParseField(first + "}" + rest) == Parsed(field, "}" + rest)
    ensures ParseFields(first + "}" + rest) == Parsed([field], rest)
  {
    hide ParseField;
    assert ("}" + rest)[1..] == rest;
  }

  lemma FirstCharacter(v: Json)
    requires Valid(v)
    ensures StableJson(v) != [] && StableJson(v)[0] != ']'
  {
  }

  lemma {:induction false} StableItemsParse(v: Json, i: nat, rest: string)
    requires v.Array? && Valid(v) && i < |v.items|
    ensures ParseItems(StableItems(v, i) + rest) == Parsed(Normal(v).items[i..], rest)
    decreases v, 0, |v.items| - i
  {
    hide ParseItems, ParseValue;
    var first := StableJson(v.items[i]);
    var normal := Normal(v.items[i]);
    if i + 1 == |v.items| {
      StableJsonParses(v.items[i], "]" + rest);
      assert StableItems(v, i) + rest == first + "]" + rest == first + ("]" + rest);
      LastItemParses(first, normal, rest);
      assert Normal(v).items[i..] == [normal];
    } else {
      var more := StableItems(v, i + 1) + rest;
      StableJsonParses(v.items[i], "," + more);
      assert StableItems(v, i) + rest == first + "," + more == first + ("," + more);
      StableItemsParse(v, i + 1, rest);
      ItemsParse(first, normal, more, Normal(v).items[i + 1..], rest);
      assert Normal(v).items[i..] == [normal] + Normal(v).items[i + 1..];
    }
  }

  lemma NormalFieldCount(v: Json)
    requires v.Object? && Valid(v)
    ensures Normal(v).Object? && |Normal(v).fields| == |v.fields|
  {
  }

  /** One printed field, followed by `rest`, reads back as that field. */
  lemma StableFieldParses(v: Json, k: nat, rest: string)
    requires v.Object? && Valid(v) && k < |v.fields|
    requires ParseValue(StableJson(ValueAt(v.fields, k)) + rest) == Parsed(Normal(ValueAt(v.fields, k)), rest)
    ensures ParseField(PrintString(KeyAt(v.fields, k)) + ":" + StableJson(ValueAt(v.fields, k)) + rest)
         == Parsed(Normal(v).fields[k], rest)
  {
    hide ParseField, ParseValue, PrintString, StableJson;
    var value := ValueAt(v.fields, k);
    FieldParses(KeyAt(v.fields, k), StableJson(value), Normal(value), rest);
  }

  lemma StableFieldsText(v: Json, k: nat, rest: string)
    requires v.Object? && Valid(v) && k < |v.fields|
    ensures var first := PrintString(KeyAt(v.fields, k)) + ":" + StableJson(ValueAt(v.fields, k));
      StableFields(v, k) + rest ==
        if k + 1 == |v.fields| then first + ("}" + rest) else first + ("," + (StableFields(v, k + 1) + rest))
  {
    hide PrintString, StableJson;
  }

  lemma Reassociate(a: string, b: string, c: string)
    ensures a + b + c == a + (b + c)
  {
  }

  lemma SuffixFrom(fields: seq<Field>, k: nat)
    requires k < |fields|
    ensures fields[k..] == [fields[k]] + fields[k + 1..]
  {
  }

  lemma LastStableFieldParses(v: Json, k: nat, rest: string)
    requires v.Object? && Valid(v) && k + 1 == |v.fields|
    requires ParseValue(StableJson(ValueAt(v.fields, k)) + ("}" + rest))
          == Parsed(Normal(ValueAt(v.fields, k)), "}" + rest)
    ensures ParseFields(StableFields(v, k) + rest) == Parsed(Normal(v).fields[k..], rest)
  {
    StableFieldsText(v, k, rest);
    NormalFieldCount(v);
    hide ParseFields, ParseField, ParseValue, PrintString, StableJson, StableFields, Normal, KeyAt, ValueAt;
    var first := PrintString(KeyAt(v.fields, k)) + ":" + StableJson(ValueAt(v.fields, k));
    StableFieldParses(v, k, "}" + rest);
    Reassociate(first, "}", rest);
    LastFieldParses(first, Normal(v).fields[k], rest);
    assert Normal(v).fields[k..] == [Normal(v).fields[k]];
  }

  lemma NextStableFieldParses(v: Json, k: nat, rest: string, more: string)
    requires v.Object? && Valid(v) && k + 1 < |v.fields| && more == StableFields(v, k + 1) + rest
    requires ParseValue(StableJson(ValueAt(v.fields, k)) + ("," + more))
          == Parsed(Normal(ValueAt(v.fields, k)), "," + more)
    requires |Normal(v).fields| == |v.fields|
    requires ParseFields(more) == Parsed(Normal(v).fields[k + 1..], rest)
    ensures ParseFields(StableFields(v, k) + rest) == Parsed(Normal(v).fields[k..], rest)
  {
    StableFieldsText(v, k, rest);
    hide ParseFields, ParseField, ParseValue, PrintString, StableJson, StableFields, Normal, KeyAt, ValueAt;
    var fields := Normal(v).fields;
    var first := PrintString(KeyAt(v.fields, k)) + ":" + StableJson(ValueAt(v.fields, k));
    StableFieldParses(v, k, "," + more);
    Reassociate(first, ",", more);
    FieldsParse(first, fields[k], more, fields[k + 1..], rest);
    SuffixFrom(fields, k);
  }

  lemma {:induction false} StableFieldsParse(v: Json, k: nat, rest: string)
    requires v.Object? && Valid(v) && k < |v.fields|
    ensures ParseFields(StableFields(v, k) + rest) == Parsed(Normal(v).fields[k..], rest)
    decreases v, 0, |v.fields| - k
  {
    hide ParseFields, ParseField, ParseValue, PrintString, StableJson, StableFields, Normal, KeyAt, ValueAt;
    NormalFieldCount(v);
    if k + 1 == |v.fields| {
      AtValueEndOf("}" + rest);
      StableJsonParses(ValueAt(v.fields, k), "}" + rest);
      LastStableFieldParses(v, k, rest);
    } else {
      var more := StableFields(v, k + 1) + rest;
      AtValueEndOf("," + more);
      StableJsonParses(ValueAt(v.fields, k), "," + more);
      StableFieldsParse(v, k + 1, rest);
      NextStableFieldParses(v, k, rest, more);
    }
  }

  lemma AtValueEndOf(rest: string)
    requires rest != [] && (rest[0] == ',' || rest[0] == '}')
    ensures AtValueEnd(rest)
  {
  }

  lemma EmptyParses(v: Json, rest: string)
    requires v == Array([]) || v == Object([])
    ensures ParseValue(StableJson(v) + rest) == Parsed(Normal(v), rest)
  {
    if v.Array? {
      EmptyArrayParses(rest);
      assert StableJson(v) + rest == "[]" + rest && Normal(v).items == [];
    } else {
      EmptyObjectParses(rest);
      assert StableJson(v) + rest == "{}" + rest && Normal(v).fields == [];
    }
  }

  /** The opening bracket of a non-empty array or object, and what follows it. */
  lemma BracketedText(v: Json, rest: string)
    requires Valid(v)
    ensures v.Array? && v.items != [] ==>
      StableJson(v) + rest == "[" + (StableItems(v, 0) + rest) && StableItems(v, 0)[0] != ']'
    ensures v.Object? && v.fields != [] ==>
      StableJson(v) + rest == "{" + (StableFields(v, 0) + rest) && StableFields(v, 0)[0] != '}'
    ensures v.Array? ==> Normal(v).Array? && Normal(v).items[0..] == Normal(v).items
    ensures v.Object? ==> Normal(v).Object? && Normal(v).fields[0..] == Normal(v).fields
  {
    if v.Array? && v.items != [] {
      FirstCharacter(v.items[0]);
    }
  }

  /** Parsing the canonical text gives the value back with its object keys in order. */
  lemma {:induction false} StableJsonParses(v: Json, rest: string)
    requires Valid(v) && AtValueEnd(rest)
    ensures ParseValue(StableJson(v) + rest) == Parsed(Normal(v), rest)
    decreases v, 1
  {
    hide ParseItems, ParseFields, ParseValue, StableJson, StableItems, StableFields, Normal;
    BracketedText(v, rest);
    if v == Array([]) || v == Object([]) {
      EmptyParses(v, rest);
    } else if v.Array? {
      StableItemsParse(v, 0, rest);
      ArrayParses(StableItems(v, 0) + rest, Normal(v).items, rest);
    } else if v.Object? {
      StableFieldsParse(v, 0, rest);
      ObjectParses(StableFields(v, 0) + rest, Normal(v).fields, rest);
    } else {
      ScalarParses(v, rest);
      ScalarIsNormal(v);
    }
  }

  lemma ScalarIsNormal(v: Json)
    requires Valid(v) && !v.Array? && !v.Object?
    ensures Normal(v) == v
  {
  }

  // ----- Equal texts are equal values up to key order -----

  lemma SameKeys(x: seq<Field>, y: seq<Field>)
    requires DistinctKeys(x) && DistinctKeys(y) && Keys(x) == Keys(y)
    ensures |x| == |y| && SortedKeys(x) == SortedKeys(y)
  {
    SortedKeysOf(x);
    SortedKeysOf(y);
    SortedUnique(SortedKeys(x), SortedKeys(y));
  }

  /** Every field is the one that the property lookup finds under some sorted key number. */
  lemma FieldIsFound(fields: seq<Field>, i: nat) returns (k: nat)
    requires DistinctKeys(fields) && i < |fields|
    ensures k < |fields| && KeyAt(fields, k) == fields[i].key && ValueAt(fields, k) == fields[i].value
  {
    SortedKeysOf(fields);
    assert fields[i].key in Keys(fields);
    assert fields[i].key in Elements(SortedKeys(fields));
    k :| 0 <= k < |fields| && SortedKeys(fields)[k] == fields[i].key;
  }

  lemma {:induction false} SameValuesPrintAlike(a: Json, b: Json)
    requires Valid(a) && Valid(b) && SameUpToOrder(a, b)
    ensures StableJson(a) == StableJson(b)
    decreases a, 1
  {
    if a.Array? && b.Array? {
      SameItemsPrintAlike(a, b, 0);
    } else if a.Object? && b.Object? {
      SameKeys(a.fields, b.fields);
      SameFieldsPrintAlike(a, b, 0);
    }
  }

  lemma {:induction false} SameItemsPrintAlike(a: Json, b: Json, i: nat)
    requires Valid(a) && Valid(b) && a.Array? && b.Array? && SameUpToOrder(a, b) && i <= |a.items|
    ensures StableItems(a, i) == StableItems(b, i)
    decreases a, 0, |a.items| - i
  {
    if i < |a.items| {
      SameValuesPrintAlike(a.items[i], b.items[i]);
      SameItemsPrintAlike(a, b, i + 1);
    }
  }

  lemma SameValueAt(a: Json, b: Json, k: nat) returns (i: nat)
    requires Valid(a) && Valid(b) && a.Object? && b.Object? && SameUpToOrder(a, b)
    requires |a.fields| == |b.fields| && SortedKeys(a.fields) == SortedKeys(b.fields) && k < |a.fields|
    ensures KeyAt(a.fields, k) == KeyAt(b.fields, k)
    ensures i < |a.fields| && ValueAt(a.fields, k) == a.fields[i].value
    ensures SameUpToOrder(a.fields[i].value, ValueAt(b.fields, k))
  {
    var x, y := ValueAt(a.fields, k), ValueAt(b.fields, k);
    i :| 0 <= i < |a.fields| && a.fields[i].value == x && a.fields[i].key == KeyAt(a.fields, k);
    var j :| 0 <= j < |b.fields| && b.fields[j].value == y && b.fields[j].key == KeyAt(b.fields, k);
  }

  lemma {:induction false} SameFieldsPrintAlike(a: Json, b: Json, k: nat)
    requires Valid(a) && Valid(b) && a.Object? && b.Object? && SameUpToOrder(a, b)
    requires |a.fields| == |b.fields| && SortedKeys(a.fields) == SortedKeys(b.fields) && k <= |a.fields|
    ensures StableFields(a, k) == StableFields(b, k)
    decreases a, 0, |a.fields| - k
  {
    hide SameUpToOrder, StableJson, KeyAt, ValueAt;
    if k < |a.fields| {
      var i := SameValueAt(a, b, k);
      SameValuesPrintAlike(a.fields[i].value, ValueAt(b.fields, k));
      SameFieldsPrintAlike(a, b, k + 1);
    }
  }

  lemma {:induction false} SameNormalIsSame(a: Json, b: Json)
    requires Valid(a) && Valid(b) && Normal(a) == Normal(b)
    ensures SameUpToOrder(a, b)
    decreases a
  {
    if a.Array? && b.Array? {
      var x, y := a.items, b.items;
      assert |Normal(a).items| == |x| && |Normal(b).items| == |y|;
      forall i | 0 <= i < |x| ensures SameUpToOrder(x[i], y[i]) {
        assert Normal(x[i]) == Normal(a).items[i] == Normal(b).items[i] == Normal(y[i]);
        SameNormalIsSame(x[i], y[i]);
      }
    } else if a.Object? && b.Object? {
      SameNormalFields(a, b);
      var x, y := a.fields, b.fields;
      forall i, j | 0 <= i < |x| && 0 <= j < |y| && x[i].key == y[j].key
        ensures SameUpToOrder(x[i].value, y[j].value)
      {
        SameNormalValues(a, b, i, j);
        SameNormalIsSame(x[i].value, y[j].value);
      }
    }
  }

  lemma SameNormalFields(a: Json, b: Json)
    requires Valid(a) && Valid(b) && a.Object? && b.Object? && Normal(a) == Normal(b)
    ensures |a.fields| == |b.fields| && Keys(a.fields) == Keys(b.fields)
    ensures SortedKeys(a.fields) == SortedKeys(b.fields)
  {
    var x, y := a.fields, b.fields;
    assert |Normal(a).fields| == |x| && |Normal(b).fields| == |y|;
    SortedKeysOf(x);
    SortedKeysOf(y);
    forall k | 0 <= k < |x| ensures SortedKeys(x)[k] == SortedKeys(y)[k] {
      assert Normal(a).fields[k].key == KeyAt(x, k) && Normal(b).fields[k].key == KeyAt(y, k);
    }
    assert SortedKeys(x) == SortedKeys(y);
  }

  lemma SameNormalValues(a: Json, b: Json, i: nat, j: nat)
    requires Valid(a) && Valid(b) && a.Object? && b.Object? && Normal(a) == Normal(b)
    requires i < |a.fields| && j < |b.fields| && a.fields[i].key == b.fields[j].key
    ensures Normal(a.fields[i].value) == Normal(b.fields[j].value)
  {
    SameNormalFields(a, b);
    var x, y := a.fields, b.fields;
    var k := FieldIsFound(x, i);
    var l := FieldIsFound(y, j);
    assert SortedKeys(x)[k] == SortedKeys(x)[l];
    SortedKeysOf(x);
    KeyLessIrreflexive(SortedKeys(x)[k]);
    assert k == l;
    assert Normal(a).fields[k].value == Normal(ValueAt(x, k)) && Normal(b).fields[k].value == Normal(ValueAt(y, k));
  }

  /**
   The main result: two values have the same canonical text exactly when they are equal
   up to the order of object keys, at any nesting.
   */
  lemma {:induction false} CanonicalTextIdentifies(a: Json, b: Json)
    requires Valid(a) && Valid(b)
    ensures StableJson(a) == StableJson(b) <==> SameUpToOrder(a, b)
  {
    if SameUpToOrder(a, b) {
      SameValuesPrintAlike(a, b);
    }
    if StableJson(a) == StableJson(b) {
      StableJsonParses(a, []);
      StableJsonParses(b, []);
      SameNormalIsSame(a, b);
    }
  }

  // ----- What the idempotency check compares -----

  function JobValue(jobId: Option<string>): Json {
    if jobId.None? then Null else String(jobId.value)
  }

  /** The object that is hashed for a command request. */
  function RequestValue(commandType: string, jobId: Option<string>, payload: Json): Json {
    Object([
      Field("type", String(commandType)),
      Field("jobId", JobValue(jobId)),
      Field("payload", payload)])
  }

  lemma RequestIsValid(commandType: string, jobId: Option<string>, payload: Json)
    requires Valid(payload)
    ensures Valid(RequestValue(commandType, jobId, payload))
  {
    assert Valid(String(commandType)) && Valid(JobValue(jobId));
  }

  /** The text whose hash is stored; the hash itself is taken to be free of collisions. */
  function RequestText(commandType: string, jobId: Option<string>, payload: Json): string
    requires Valid(payload)
  {
    RequestIsValid(commandType, jobId, payload);
    StableJson(RequestValue(commandType, jobId, payload))
  }

  lemma RequestKeys(commandType: string, jobId: Option<string>, payload: Json)
    ensures Keys(RequestValue(commandType, jobId, payload).fields) == {"type", "jobId", "payload"}
  {
    var x := RequestValue(commandType, jobId, payload).fields;
    assert x[0].key == "type" && x[1].key == "jobId" && x[2].key == "payload";
  }

  lemma SameTriples(x: seq<Field>, y: seq<Field>)
    requires |x| == 3 && |y| == 3 && DistinctKeys(x) && Keys(x) == Keys(y)
    requires forall i :: 0 <= i < 3 ==> x[i].key == y[i].key
    ensures SameUpToOrder(Object(x), Object(y)) <==> forall i :: 0 <= i < 3 ==> SameUpToOrder(x[i].value, y[i].value)
  {
  }

  lemma SameScalars(type1: string, job1: Option<string>, type2: string, job2: Option<string>)
    ensures SameUpToOrder(String(type1), String(type2)) <==> type1 == type2
    ensures SameUpToOrder(JobValue(job1), JobValue(job2)) <==> job1 == job2
  {
  }

  lemma SameRequests(
      type1: string, job1: Option<string>, payload1: Json, type2: string, job2: Option<string>, payload2: Json)
    ensures SameUpToOrder(RequestValue(type1, job1, payload1), RequestValue(type2, job2, payload2))
       <==> type1 == type2 && job1 == job2 && SameUpToOrder(payload1, payload2)
  {
    RequestKeys(type1, job1, payload1);
    RequestKeys(type2, job2, payload2);
    SameScalars(type1, job1, type2, job2);
    hide SameUpToOrder, JobValue;
    var x, y := RequestValue(type1, job1, payload1).fields, RequestValue(type2, job2, payload2).fields;
    SameTriples(x, y);
    assert x[0] == Field("type", String(type1)) && y[0] == Field("type", String(type2));
    assert x[1] == Field("jobId", JobValue(job1)) && y[1] == Field("jobId", JobValue(job2));
    assert x[2] == Field("payload", payload1) && y[2] == Field("payload", payload2);
  }

  lemma {:induction false} RequestTextIdentifies(
      type1: string, job1: Option<string>, payload1: Json, type2: string, job2: Option<string>, payload2: Json)
    requires Valid(payload1) && Valid(payload2)
    ensures RequestText(type1, job1, payload1) == RequestText(type2, job2, payload2)
       <==> type1 == type2 && job1 == job2 && SameUpToOrder(payload1, payload2)
  {
    RequestIsValid(type1, job1, payload1);
    RequestIsValid(type2, job2, payload2);
    CanonicalTextIdentifies(RequestValue(type1, job1, payload1), RequestValue(type2, job2, payload2));
    hide StableJson, SameUpToOrder;
    SameRequests(type1, job1, payload1, type2, job2, payload2);
  }

  // ----- The text as the standards write it -----

  /** The UTF-16 code units of a character. */
  function Units(c: char): seq<int> {
    var code := c as int;
    if code < 0x10000 then [code]
    else [0xD800 + (code - 0x10000) / 0x400, 0xDC00 + (code - 0x10000) % 0x400]
  }

  function CodeUnits(s: string): seq<int> {
    if s == [] then [] else Units(s[0]) + CodeUnits(s[1..])
  }

  /** The order of section 3.2.3 of RFC 8785: code unit by code unit. */
  predicate UnitsLess(a: seq<int>, b: seq<int>) {
    b != [] && (a == [] || a[0] < b[0] || (a[0] == b[0] && UnitsLess(a[1..], b[1..])))
  }

  lemma UnitsAgree(c: char, d: char, a: seq<int>, b: seq<int>)
    ensures c == d ==> (UnitsLess(Units(c) + a, Units(d) + b) <==> UnitsLess(a, b))
    ensures c != d ==> (UnitsLess(Units(c) + a, Units(d) + b) <==> Weight(c) < Weight(d))
  {
    var x, y := Units(c) + a, Units(d) + b;
    if |Units(c)| == 2 && |Units(d)| == 2 {
      assert x[1..][1..] == a && y[1..][1..] == b;
    } else if |Units(c)| == 1 && |Units(d)| == 1 {
      assert x[1..] == a && y[1..] == b;
    }
  }

  /** Keys are sorted by their UTF-16 code units. */
  lemma {:induction false} KeyOrderIsUnitOrder(a: string, b: string)
    ensures KeyLess(a, b) <==> UnitsLess(CodeUnits(a), CodeUnits(b))
    decreases |a|
  {
    if a != [] && b != [] {
      UnitsAgree(a[0], b[0], CodeUnits(a[1..]), CodeUnits(b[1..]));
      hide UnitsLess, Units;
      KeyOrderIsUnitOrder(a[1..], b[1..]);
    }
  }

  /** Each character is written as `JSON.stringify` writes it. */
  lemma {:induction false} EscapesAreShortest(c: char)
    ensures c as int == 8 ==> EscapeChar(c) == "\\b"
    ensures c as int == 9 ==> EscapeChar(c) == "\\t"
    ensures c as int == 10 ==> EscapeChar(c) == "\\n"
    ensures c as int == 12 ==> EscapeChar(c) == "\\f"
    ensures c as int == 13 ==> EscapeChar(c) == "\\r"
    ensures c == '\"' ==> EscapeChar(c) == "\\\""
    ensures c == '\\' ==> EscapeChar(c) == "\\\\"
    ensures c as int < 32 && c as int !in {8, 9, 10, 12, 13} ==>
      |EscapeChar(c)| == 6 && EscapeChar(c)[..4] == "\\u00" && !('A' <= EscapeChar(c)[5] <= 'F')
    ensures c as int >= 32 && c != '\"' && c != '\\' ==> EscapeChar(c) == [c]
  {
  }

  /** What is hashed for a request: an object of type, job, null without one, and payload. */
  lemma {:induction false} HashedObject(commandType: string, jobId: Option<string>, payload: Json)
    requires Valid(payload)
    ensures ParseValue(RequestText(commandType, jobId, payload)) == Parsed(Normal(Object([
      Field("type", String(commandType)),
      Field("jobId", match jobId case None => Null case Some(id) => String(id)),
      Field("payload", payload)])), "")
  {
    var text := RequestText(commandType, jobId, payload);
    RequestIsValid(commandType, jobId, payload);
    StableJsonParses(RequestValue(commandType, jobId, payload), "");
    assert text + "" == text;
    hide ParseValue, StableJson, Normal;
  }
}
