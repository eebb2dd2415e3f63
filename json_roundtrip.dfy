/**
 * `json.loads(json.dumps(v)) == v` for every value whose dictionaries have distinct keys.
 */
module JsonRoundTrip {
  import opened Common
  import Decimal
  import opened Json

  /** What may follow a value in a document without changing how the value is read. */
  predicate Delimited(rest: string) {
    rest == [] || rest[0] == ',' || rest[0] == ']' || rest[0] == '}' || IsWs(rest[0])
  }

  // ----- Hexadecimal -----

  lemma HexValueOfHexDigit(d: int)
    requires 0 <= d < 16
    ensures HexValue(HexDigit(d)) == Some(d)
  {
  }

  lemma ParseHex4Hex4(n: int)
    requires 0 <= n < 0x10000
    ensures ParseHex4(Hex4(n)) == Some(n)
  {
    HexValueOfHexDigit(n / 4096);
    HexValueOfHexDigit((n / 256) % 16);
    HexValueOfHexDigit((n / 16) % 16);
    HexValueOfHexDigit(n % 16);
    assert n / 256 == (n / 4096) * 16 + (n / 256) % 16;
    assert n / 16 == (n / 256) * 16 + (n / 16) % 16;
    assert n == (n / 16) * 16 + n % 16;
  }

  // ----- Strings -----

  function Prepend(c: char, r: Option<(string, string)>): Option<(string, string)> {
    match r
    case None => None
    case Some((x, rest)) => Some(([c] + x, rest))
  }

  lemma ParseUnicodeEscape(n: int, t: string)
    requires 0 <= n < 0x10000 && !(0xD800 <= n <= 0xDFFF)
    ensures ParseEscape(['u'] + Hex4(n) + t) == Some((n as char, t))
  {
    var s := ['u'] + Hex4(n) + t;
    assert s[1..5] == Hex4(n);
    assert s[5..] == t;
    ParseHex4Hex4(n);
  }

  /** The surrogate pair a supplementary character is split into, and how it is joined again. */
  lemma SurrogateHalves(n: int)
    requires 0x10000 <= n <= 0x10FFFF
    ensures var m := n - 0x10000;
            var hi, lo := 0xD800 + m / 1024, 0xDC00 + m % 1024;
            0xD800 <= hi <= 0xDBFF && 0xDC00 <= lo <= 0xDFFF && 0x10000 + (hi - 0xD800) * 1024 + (lo - 0xDC00) == n
  {
  }

  lemma ParseEscapePair(hi: int, lo: int, c: char, t: string)
    requires 0xD800 <= hi <= 0xDBFF && 0xDC00 <= lo <= 0xDFFF
    requires c as int == 0x10000 + (hi - 0xD800) * 1024 + (lo - 0xDC00)
    ensures ParseEscape(['u'] + Hex4(hi) + ['\\', 'u'] + Hex4(lo) + t) == Some((c, t))
  {
    var s := ['u'] + Hex4(hi) + ['\\', 'u'] + Hex4(lo) + t;
    assert s[1..5] == Hex4(hi);
    assert s[5] == '\\' && s[6] == 'u';
    assert s[7..11] == Hex4(lo);
    assert s[11..] == t;
    ParseHex4Hex4(hi);
    ParseHex4Hex4(lo);
  }

  lemma ParseStringPlain(c: char, t: string)
    requires ' ' <= c <= '~' && c != '"' && c != '\\'
    ensures ParseString([c] + t) == Prepend(c, ParseString(t))
  {
    assert ([c] + t)[1..] == t;
  }

  lemma ParseStringEscaped(e: string, c: char, t: string)
    requires ParseEscape(e + t) == Some((c, t))
    ensures ParseString(['\\'] + e + t) == Prepend(c, ParseString(t))
  {
    assert (['\\'] + e + t)[1..] == e + t;
  }

  /** The two-character escapes `\" \\ \b \f \n \r \t`. */
  lemma ParseShortEscape(c: char, t: string)
    requires c == '"' || c == '\\' || c as int == 8 || c as int == 12 || c == '\n' || c == '\r' || c == '\t'
    ensures |EscapeChar(c)| == 2 && EscapeChar(c)[0] == '\\'
    ensures ParseEscape(EscapeChar(c)[1..] + t) == Some((c, t))
  {
    assert ([EscapeChar(c)[1]] + t)[1..] == t;
  }

  lemma ParseEscapedBmp(c: char, t: string)
    requires !(' ' <= c <= '~') && c as int < 0x10000
    requires c != '"' && c != '\\' && c as int != 8 && c as int != 12 && c != '\n' && c != '\r' && c != '\t'
    ensures ParseString(EscapeChar(c) + t) == Prepend(c, ParseString(t))
  {
    var n := c as int;
    var u := ['u'] + Hex4(n);
    assert EscapeChar(c) == ['\\'] + u;
    ParseUnicodeEscape(n, t);
    ParseStringEscaped(u, c, t);
  }

  lemma ParseEscapedAstral(c: char, t: string)
    requires c as int >= 0x10000
    ensures ParseString(EscapeChar(c) + t) == Prepend(c, ParseString(t))
  {
    var n := c as int;
    SurrogateHalves(n);
    var m := n - 0x10000;
    var hi, lo := 0xD800 + m / 1024, 0xDC00 + m % 1024;
    var u := ['u'] + Hex4(hi) + ['\\', 'u'] + Hex4(lo);
    assert EscapeChar(c) == ['\\'] + u;
    ParseEscapePair(hi, lo, c, t);
    ParseStringEscaped(u, c, t);
  }

  lemma ParseEscapedShort(c: char, t: string)
    requires c == '"' || c == '\\' || c as int == 8 || c as int == 12 || c == '\n' || c == '\r' || c == '\t'
    ensures ParseString(EscapeChar(c) + t) == Prepend(c, ParseString(t))
  {
    var e := EscapeChar(c);
    ParseShortEscape(c, t);
    assert e == ['\\'] + e[1..];
    ParseStringEscaped(e[1..], c, t);
  }

  /** One escaped character is read back as that character. */
  lemma ParseEscapedChar(c: char, t: string)
    ensures ParseString(EscapeChar(c) + t) == Prepend(c, ParseString(t))
  {
    var n := c as int;
    if c == '"' || c == '\\' || n == 8 || n == 12 || c == '\n' || c == '\r' || c == '\t' {
      ParseEscapedShort(c, t);
    } else if ' ' <= c <= '~' {
      assert EscapeChar(c) == [c];
      ParseStringPlain(c, t);
    } else if n < 0x10000 {
      ParseEscapedBmp(c, t);
    } else {
      ParseEscapedAstral(c, t);
    }
  }

  /** A quoted string is read back as the original string. */
  lemma {:induction false} ParseQuoted(x: string, rest: string)
    ensures ParseString(Escape(x) + ['"'] + rest) == Some((x, rest))
    decreases |x|
  {
    if x == [] {
      assert Escape(x) + ['"'] + rest == ['"'] + rest;
    } else {
      var t := Escape(x[1..]) + ['"'] + rest;
      assert Escape(x) + ['"'] + rest == EscapeChar(x[0]) + t;
      ParseEscapedChar(x[0], t);
      ParseQuoted(x[1..], rest);
      assert [x[0]] + x[1..] == x;
    }
  }

  // ----- Numbers -----

  lemma DigitRunOfDigits(d: string, rest: string)
    requires Decimal.AllDigits(d)
    requires rest == [] || !Decimal.IsDigit(rest[0])
    ensures DigitRun(d + rest) == |d|
    decreases |d|
  {
    if d != [] {
      assert (d + rest)[1..] == d[1..] + rest;
      DigitRunOfDigits(d[1..], rest);
    }
  }

  lemma ParseNat(n: nat, rest: string)
    requires Delimited(rest)
    ensures ParseNumber(Decimal.NatToString(n) + rest) == Some((Int(n), rest))
  {
    var d := Decimal.NatToString(n);
    var s := d + rest;
    DigitRunOfDigits(d, rest);
    assert s[..|d|] == d;
    assert s[|d|..] == rest;
    Decimal.DigitsValueOfNatToString(n);
  }

  lemma ParseMinus(x: string, n: int, rest: string)
    requires x != [] && x[0] != '-'
    requires ParseNumber(x) == Some((Int(n), rest))
    ensures ParseNumber(['-'] + x) == Some((Int(-n), rest))
  {
    assert (['-'] + x)[1..] == x;
  }

  lemma ParseInt(i: int, rest: string)
    requires Delimited(rest)
    ensures ParseNumber(Decimal.IntToString(i) + rest) == Some((Int(i), rest))
  {
    if i < 0 {
      var d := Decimal.NatToString(-i);
      assert Decimal.IntToString(i) + rest == ['-'] + (d + rest);
      ParseNat(-i, rest);
      ParseMinus(d + rest, -i, rest);
    } else {
      ParseNat(i, rest);
    }
  }

  // ----- Values -----

  lemma SkipWsNone(x: string)
    requires x != [] && !IsWs(x[0])
    ensures SkipWs(x) == x && SkipWs([' '] + x) == x
  {
    assert ([' '] + x)[1..] == x;
  }

  /** A serialised value starts with a character that is neither whitespace nor a closing bracket. */
  lemma DumpsStart(v: Value)
    ensures Dumps(v) != [] && !IsWs(Dumps(v)[0])
  {
    match v
    case Int(i) =>
      if i < 0 {
        assert Dumps(v)[0] == '-';
      } else {
        assert Dumps(v)[0] == Decimal.NatToString(i)[0];
      }
    case _ =>
  }

  lemma ParseDumpsKeyword(v: Value, rest: string)
    requires v.Null? || v.Bool?
    ensures ParseValue(Dumps(v) + rest) == Some((v, rest))
  {
    var s := Dumps(v) + rest;
    if v.Null? {
      assert s[..4] == "null" && s[4..] == rest;
    } else if v.b {
      assert s[..4] == "true" && s[4..] == rest;
    } else {
      assert s[..5] == "false" && s[5..] == rest;
    }
  }

  lemma ParseDumpsInt(i: int, rest: string)
    requires Delimited(rest)
    ensures ParseValue(Decimal.IntToString(i) + rest) == Some((Int(i), rest))
  {
    var s := Decimal.IntToString(i) + rest;
    ParseInt(i, rest);
    assert s[0] == '-' || Decimal.IsDigit(s[0]) by {
      if i < 0 {
        assert s[0] == '-';
      } else {
        assert s[0] == Decimal.NatToString(i)[0];
      }
    }
  }

  lemma ParseDumpsStr(x: string, rest: string)
    ensures ParseValue(Quote(x) + rest) == Some((Str(x), rest))
  {
    var s := Quote(x) + rest;
    assert s[1..] == Escape(x) + ['"'] + rest;
    ParseQuoted(x, rest);
  }

  lemma ParseDumpsScalar(v: Value, rest: string)
    requires !v.Array? && !v.Object?
    requires Delimited(rest)
    ensures ParseValue(Dumps(v) + rest) == Some((v, rest))
  {
    match v
    case Int(i) => ParseDumpsInt(i, rest);
    case Str(x) => ParseDumpsStr(x, rest);
    case _ => ParseDumpsKeyword(v, rest);
  }

  lemma SkipWsClosing(c: char, rest: string)
    requires c == ']' || c == '}'
    ensures SkipWs([c] + rest) == [c] + rest && ([c] + rest)[1..] == rest
  {
  }

  /** An empty array or object is read back as itself. */
  lemma ParseEmpty(open: char, close: char, rest: string)
    requires (open == '[' && close == ']') || (open == '{' && close == '}')
    ensures ParseValue([open] + ([close] + rest)) == Some((if open == '[' then Array([]) else Object([]), rest))
  {
    var s := [open] + ([close] + rest);
    assert s[1..] == [close] + rest;
    SkipWsClosing(close, rest);
  }

  /** A non-empty array: the parser hands what follows the bracket to `ParseItems`. */
  lemma ParseOpenItems(t: string)
    requires t != [] && !IsWs(t[0]) && t[0] != ']'
    ensures ParseValue(['['] + t) == ParseItems(t, [])
  {
    assert (['['] + t)[1..] == t;
    SkipWsNone(t);
  }

  lemma ParseOpenFields(t: string)
    requires t != [] && !IsWs(t[0]) && t[0] != '}'
    ensures ParseValue(['{'] + t) == ParseFields(t, [])
  {
    assert (['{'] + t)[1..] == t;
    SkipWsNone(t);
  }

  /** Reading back a serialised value gives the value, and leaves what followed it. */
  lemma {:induction false} ParseDumps(v: Value, rest: string)
    requires WellFormed(v)
    requires Delimited(rest)
    ensures ParseValue(Dumps(v) + rest) == Some((v, rest))
    decreases v, 2
  {
    match v
    case Array(_) => ParseDumpsArray(v, rest);
    case Object(_) => ParseDumpsObject(v, rest);
    case _ => ParseDumpsScalar(v, rest);
  }

  lemma DumpsArrayShape(items: seq<Value>, rest: string)
    ensures Dumps(Array(items)) + rest == ['['] + (DumpsItems(items) + "]" + rest)
  {
  }

  lemma DumpsObjectShape(fields: Fields, rest: string)
    ensures Dumps(Object(fields)) + rest == ['{'] + (DumpsFields(fields) + "}" + rest)
  {
  }

  lemma PrependEmpty<T>(xs: seq<T>)
    ensures [] + xs == xs
  {
  }

  lemma {:induction false} ParseDumpsArray(v: Value, rest: string)
    requires v.Array? && WellFormed(v)
    requires Delimited(rest)
    ensures ParseValue(Dumps(v) + rest) == Some((v, rest))
    decreases v, 1
  {
    var items := v.items;
    DumpsArrayShape(items, rest);
    if items == [] {
      assert DumpsItems(items) + "]" + rest == [']'] + rest;
      ParseEmpty('[', ']', rest);
    } else {
      var t := DumpsItems(items) + "]" + rest;
      DumpsItemsStart(items);
      ParseOpenItems(t);
      ParseDumpsItems(items, [], rest);
      PrependEmpty(items);
    }
  }

  lemma {:induction false} ParseDumpsObject(v: Value, rest: string)
    requires v.Object? && WellFormed(v)
    requires Delimited(rest)
    ensures ParseValue(Dumps(v) + rest) == Some((v, rest))
    decreases v, 1
  {
    var fields := v.fields;
    DumpsObjectShape(fields, rest);
    if fields == [] {
      assert DumpsFields(fields) + "}" + rest == ['}'] + rest;
      ParseEmpty('{', '}', rest);
    } else {
      var t := DumpsFields(fields) + "}" + rest;
      DumpsFieldsStart(fields);
      ParseOpenFields(t);
      ParseDumpsFields(fields, [], rest);
      PrependEmpty(fields);
    }
  }

  lemma DumpsItemsStart(items: seq<Value>)
    requires items != []
    ensures DumpsItems(items) != [] && DumpsItems(items)[0] == Dumps(items[0])[0] && !IsWs(DumpsItems(items)[0])
    ensures DumpsItems(items)[0] != ']'
  {
    DumpsStart(items[0]);
  }

  lemma DumpsFieldsStart(fields: Fields)
    requires fields != []
    ensures DumpsFields(fields) != [] && DumpsFields(fields)[0] == '"'
  {
    var field := fields[0];
    assert DumpsFields(fields)[0] == Quote(field.0)[0];
  }

  /** The last element of an array: the closing bracket follows it. */
  lemma ItemsLast(s: string, acc: seq<Value>, v: Value, rest: string)
    requires ParseValue(s) == Some((v, "]" + rest))
    ensures ParseItems(s, acc) == Some((Array(acc + [v]), rest))
  {
    SkipWsClosing(']', rest);
  }

  /** A separator `", "` after an element: parsing goes on with the next one. */
  lemma ItemsMore(s: string, acc: seq<Value>, v: Value, tail: string)
    requires tail != [] && !IsWs(tail[0])
    requires ParseValue(s) == Some((v, ", " + tail))
    ensures ParseItems(s, acc) == ParseItems(tail, acc + [v])
  {
    var u := ", " + tail;
    assert u[0] == ',' && u[1..] == [' '] + tail;
    SkipWsNone(tail);
    assert SkipWs(u) == u;
  }

  lemma {:induction false} ParseDumpsItems(items: seq<Value>, acc: seq<Value>, rest: string)
    requires items != []
    requires forall i :: 0 <= i < |items| ==> WellFormed(items[i])
    requires Delimited(rest)
    ensures ParseItems(DumpsItems(items) + "]" + rest, acc) == Some((Array(acc + items), rest))
    decreases items, 0
  {
    var s := DumpsItems(items) + "]" + rest;
    if |items| == 1 {
      DumpsItemsOne(items, rest);
      ParseDumps(items[0], "]" + rest);
      ItemsLast(s, acc, items[0], rest);
      AppendLast(acc, items);
    } else {
      var tail := DumpsItems(items[1..]) + "]" + rest;
      DumpsItemsCons(items, rest);
      ParseDumps(items[0], ", " + tail);
      DumpsItemsStart(items[1..]);
      ItemsMore(s, acc, items[0], tail);
      ParseDumpsItems(items[1..], acc + [items[0]], rest);
      AppendFirst(acc, items);
    }
  }

  /** A quoted key, `": "` and a value are read as one member. */
  lemma ParseMemberBack(k: string, x: string, v: Value, after: string)
    requires x != [] && !IsWs(x[0]) && ParseValue(x) == Some((v, after))
    ensures ParseMember(Quote(k) + ": " + x) == Some((k, v, after))
  {
    var s := Quote(k) + ": " + x;
    var t1 := ": " + x;
    QuotedTail('"', Escape(k), ": ", x);
    ParseQuoted(k, t1);
    PairTail(':', ' ', x);
    SkipWsNone(x);
    SkipWsColon(t1);
    ParseMemberParts(s, k, t1, x, v, after);
  }

  lemma QuotedTail<T>(q: T, e: seq<T>, sep: seq<T>, x: seq<T>)
    ensures var s := [q] + e + [q] + sep + x; s[0] == q && s[1..] == e + [q] + (sep + x)
  {
    var s := [q] + e + [q] + sep + x;
    assert s == [q] + (e + [q] + (sep + x));
  }

  lemma PairTail<T>(a: T, b: T, x: seq<T>)
    ensures var s := [a, b] + x; s[0] == a && s[1..] == [b] + x
  {
  }

  lemma SkipWsColon(t: string)
    requires t != [] && t[0] == ':'
    ensures SkipWs(t) == t
  {
  }

  /** `ParseMember` from the results of its steps. */
  lemma ParseMemberParts(s: string, k: string, t1: string, x: string, v: Value, after: string)
    requires s != [] && s[0] == '"' && ParseString(s[1..]) == Some((k, t1))
    requires t1 != [] && t1[0] == ':' && SkipWs(t1) == t1 && SkipWs(t1[1..]) == x
    requires ParseValue(x) == Some((v, after))
    ensures ParseMember(s) == Some((k, v, after))
  {
  }

  /** One member followed by the closing brace. */
  lemma FieldsLast(s: string, acc: Fields, k: string, v: Value, rest: string)
    requires ParseMember(s) == Some((k, v, "}" + rest))
    ensures ParseFields(s, acc) == Some((Object(Put(acc, k, v)), rest))
  {
    SkipWsClosing('}', rest);
  }

  /** One member followed by `", "` and more members. */
  lemma FieldsMore(s: string, acc: Fields, k: string, v: Value, tail: string)
    requires ParseMember(s) == Some((k, v, ", " + tail))
    requires tail != [] && !IsWs(tail[0])
    ensures ParseFields(s, acc) == ParseFields(tail, Put(acc, k, v))
  {
    var u := ", " + tail;
    assert u[0] == ',' && u[1..] == [' '] + tail;
    SkipWsNone(tail);
    assert SkipWs(u) == u;
  }

  lemma AppendLast<T>(acc: seq<T>, xs: seq<T>)
    requires |xs| == 1
    ensures acc + [xs[0]] == acc + xs
  {
    assert xs == [xs[0]];
  }

  lemma AppendFirst<T>(acc: seq<T>, xs: seq<T>)
    requires xs != []
    ensures acc + [xs[0]] + xs[1..] == acc + xs
  {
    assert xs == [xs[0]] + xs[1..];
  }

  lemma PutFresh(acc: Fields, fields: Fields)
    requires fields != [] && DistinctKeys(acc + fields)
    ensures Put(acc, fields[0].0, fields[0].1) == acc + [fields[0]]
  {
    var k := fields[0].0;
    forall i | 0 <= i < |acc|
      ensures acc[i].0 != k
    {
      assert (acc + fields)[i] == acc[i];
      assert (acc + fields)[|acc|] == fields[0];
    }
  }

  lemma Regroup<T>(a: seq<T>, b: seq<T>, c: seq<T>, d: seq<T>, e: seq<T>)
    ensures a + b + c + d + e == a + (b + (c + d + e))
  {
  }

  lemma Regroup6<T>(a: seq<T>, b: seq<T>, c: seq<T>, d: seq<T>, e: seq<T>, f: seq<T>)
    ensures a + b + c + d + e + f == a + (b + (c + (d + e + f)))
  {
  }

  lemma DumpsFieldsOne(fields: Fields, rest: string)
    requires |fields| == 1
    ensures DumpsFields(fields) + "}" + rest == Quote(fields[0].0) + ": " + (Dumps(fields[0].1) + ("}" + rest))
  {
  }

  lemma DumpsFieldsCons(fields: Fields, rest: string)
    requires |fields| > 1
    ensures DumpsFields(fields) + "}" + rest
         == Quote(fields[0].0) + ": " + (Dumps(fields[0].1) + (", " + (DumpsFields(fields[1..]) + "}" + rest)))
  {
    var entry := Quote(fields[0].0) + ": " + Dumps(fields[0].1);
    assert DumpsFields(fields) == entry + ", " + DumpsFields(fields[1..]);
    Regroup6(Quote(fields[0].0) + ": ", Dumps(fields[0].1), ", ", DumpsFields(fields[1..]), "}", rest);
  }

  lemma DumpsItemsOne(items: seq<Value>, rest: string)
    requires |items| == 1
    ensures DumpsItems(items) + "]" + rest == Dumps(items[0]) + ("]" + rest)
  {
  }

  lemma DumpsItemsCons(items: seq<Value>, rest: string)
    requires |items| > 1
    ensures DumpsItems(items) + "]" + rest == Dumps(items[0]) + (", " + (DumpsItems(items[1..]) + "]" + rest))
  {
    assert DumpsItems(items) == Dumps(items[0]) + ", " + DumpsItems(items[1..]);
    Regroup(Dumps(items[0]), ", ", DumpsItems(items[1..]), "]", rest);
  }

  /** The last member of an object, once its value is known to read back. */
  lemma FieldsOneStep(fields: Fields, acc: Fields, rest: string)
    requires |fields| == 1 && DistinctKeys(acc + fields)
    requires ParseValue(Dumps(fields[0].1) + ("}" + rest)) == Some((fields[0].1, "}" + rest))
    ensures ParseFields(DumpsFields(fields) + "}" + rest, acc) == Some((Object(acc + fields), rest))
  {
    var k, val := fields[0].0, fields[0].1;
    var x := Dumps(val) + ("}" + rest);
    var s := Quote(k) + ": " + x;
    DumpsStart(val);
    PutFresh(acc, fields);
    DumpsFieldsOne(fields, rest);
    ParseMemberBack(k, x, val, "}" + rest);
    FieldsLast(s, acc, k, val, rest);
    AppendLast(acc, fields);
  }

  /** A member followed by more members, once its value is known to read back. */
  lemma FieldsConsStep(fields: Fields, acc: Fields, rest: string)
    requires |fields| > 1 && DistinctKeys(acc + fields)
    requires var tail := DumpsFields(fields[1..]) + "}" + rest;
             ParseValue(Dumps(fields[0].1) + (", " + tail)) == Some((fields[0].1, ", " + tail))
    ensures ParseFields(DumpsFields(fields) + "}" + rest, acc)
         == ParseFields(DumpsFields(fields[1..]) + "}" + rest, acc + [fields[0]])
    ensures DistinctKeys(acc + [fields[0]] + fields[1..])
  {
    var k, val := fields[0].0, fields[0].1;
    var tail := DumpsFields(fields[1..]) + "}" + rest;
    var x := Dumps(val) + (", " + tail);
    var s := Quote(k) + ": " + x;
    DumpsStart(val);
    PutFresh(acc, fields);
    DumpsFieldsCons(fields, rest);
    ParseMemberBack(k, x, val, ", " + tail);
    DumpsFieldsStart(fields[1..]);
    FieldsMore(s, acc, k, val, tail);
    AppendFirst(acc, fields);
  }

  lemma {:induction false} ParseDumpsFields(fields: Fields, acc: Fields, rest: string)
    requires fields != []
    requires DistinctKeys(acc + fields)
    requires forall i :: 0 <= i < |fields| ==> WellFormed(fields[i].1)
    requires Delimited(rest)
    ensures ParseFields(DumpsFields(fields) + "}" + rest, acc) == Some((Object(acc + fields), rest))
    decreases fields, 0
  {
    var field := fields[0];
    assert field in fields && field.1 < field;
    assert WellFormed(fields[0].1);
    if |fields| == 1 {
      ParseDumps(field.1, "}" + rest);
      FieldsOneStep(fields, acc, rest);
    } else {
      var tail := DumpsFields(fields[1..]) + "}" + rest;
      ParseDumps(field.1, ", " + tail);
      FieldsConsStep(fields, acc, rest);
      AppendFirst(acc, fields);
      ParseDumpsFields(fields[1..], acc + [field], rest);
    }
  }

  /** `json.loads(json.dumps(v)) == v`. */
  lemma LoadsDumps(v: Value)
    requires WellFormed(v)
    ensures Loads(Dumps(v)) == Some(v)
  {
    DumpsStart(v);
    ParseDumps(v, []);
    assert Dumps(v) + [] == Dumps(v);
  }
}
