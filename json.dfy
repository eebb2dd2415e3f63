/**
 * JSON values and the two directions Python's `json` module provides with its default
 * settings: `json.dumps` (separators `", "` and `": "`, `ensure_ascii=True`) and
 * `json.loads` (strict: no control characters inside strings, no trailing data).
 * Numbers are integers; floating point is not part of this model.
 */
module Json {
  import opened Common
  import Decimal

  /** A JSON value; an object keeps its fields in insertion order, as a Python dict does. */
  datatype Value =
    | Null
    | Bool(b: bool)
    | Int(i: int)
    | Str(s: string)
    | Array(items: seq<Value>)
    | Object(fields: seq<(string, Value)>)

  type Fields = seq<(string, Value)>

  // ----- Dictionaries -----

  predicate HasKey(fields: Fields, k: string) {
    exists i :: 0 <= i < |fields| && fields[i].0 == k
  }

  predicate DistinctKeys(fields: Fields) {
    forall i, j :: 0 <= i < j < |fields| ==> fields[i].0 != fields[j].0
  }

  /** `d.get(k)`: the value stored under `k`, if any. */
  function Lookup(fields: Fields, k: string): (r: Option<Value>)
    ensures r.Some? <==> HasKey(fields, k)
    decreases |fields|
  {
    if fields == [] then None
    else if fields[0].0 == k then Some(fields[0].1)
    else
      assert forall i :: 1 <= i < |fields| ==> fields[i] == fields[1..][i - 1];
      Lookup(fields[1..], k)
  }

  /** `d[k] = v` (and `d.update({k: v})`): an existing key keeps its place and takes the new
      value; a new key is appended. */
  function Put(fields: Fields, k: string, v: Value): (r: Fields)
    ensures Lookup(r, k) == Some(v)
    ensures forall k' :: k' != k ==> Lookup(r, k') == Lookup(fields, k')
    ensures HasKey(fields, k) ==> |r| == |fields|
    ensures !HasKey(fields, k) ==> r == fields + [(k, v)]
    decreases |fields|
  {
    if fields == [] then [(k, v)]
    else if fields[0].0 == k then [(k, v)] + fields[1..]
    else
      assert HasKey(fields, k) <==> HasKey(fields[1..], k) by {
        if HasKey(fields, k) {
          var i :| 0 <= i < |fields| && fields[i].0 == k;
          assert fields[1..][i - 1].0 == k;
        }
        if HasKey(fields[1..], k) {
          var i :| 0 <= i < |fields[1..]| && fields[1..][i].0 == k;
          assert fields[i + 1].0 == k;
        }
      }
      [fields[0]] + Put(fields[1..], k, v)
  }

  /** Every dictionary inside the value has distinct keys, as Python dicts do. */
  predicate WellFormed(v: Value)
    decreases v
  {
    match v
    case Array(items) => forall i :: 0 <= i < |items| ==> WellFormed(items[i])
    case Object(fields) => DistinctKeys(fields) && forall i :: 0 <= i < |fields| ==> WellFormed(fields[i].1)
    case _ => true
  }

  /** Setting a key that is already present changes no key and no other position. */
  lemma {:induction false} PutInPlace(fields: Fields, k: string, v: Value)
    requires HasKey(fields, k)
    ensures var r := Put(fields, k, v);
            |r| == |fields| &&
            forall i :: 0 <= i < |r| ==> r[i].0 == fields[i].0 && (r[i] == fields[i] || r[i] == (k, v))
    decreases |fields|
  {
    if fields[0].0 != k {
      var tail := fields[1..];
      assert HasKey(tail, k) by {
        var i :| 0 <= i < |fields| && fields[i].0 == k;
        assert tail[i - 1].0 == k;
      }
      PutInPlace(tail, k, v);
      var r := Put(fields, k, v);
      assert r == [fields[0]] + Put(tail, k, v);
      forall i | 0 < i < |r|
        ensures r[i].0 == fields[i].0 && (r[i] == fields[i] || r[i] == (k, v))
      {
        assert r[i] == Put(tail, k, v)[i - 1];
        assert fields[i] == tail[i - 1];
      }
    }
  }

  /** Setting a key keeps a well-formed dictionary well formed: keys stay distinct. */
  lemma PutWellFormed(fields: Fields, k: string, v: Value)
    requires WellFormed(Object(fields)) && WellFormed(v)
    ensures WellFormed(Object(Put(fields, k, v)))
  {
    if HasKey(fields, k) {
      PutExistingWellFormed(fields, k, v);
    } else {
      PutNewWellFormed(fields, k, v);
    }
  }

  lemma PutExistingWellFormed(fields: Fields, k: string, v: Value)
    requires WellFormed(Object(fields)) && WellFormed(v) && HasKey(fields, k)
    ensures WellFormed(Object(Put(fields, k, v)))
  {
    var r := Put(fields, k, v);
    PutInPlace(fields, k, v);
    forall i, j | 0 <= i < j < |r|
      ensures r[i].0 != r[j].0
    {
      assert r[i].0 == fields[i].0 && r[j].0 == fields[j].0;
    }
    forall i | 0 <= i < |r|
      ensures WellFormed(r[i].1)
    {
      assert r[i] == fields[i] || r[i] == (k, v);
    }
  }

  lemma PutNewWellFormed(fields: Fields, k: string, v: Value)
    requires WellFormed(Object(fields)) && WellFormed(v) && !HasKey(fields, k)
    ensures WellFormed(Object(Put(fields, k, v)))
  {
    AppendDistinct(fields, k, v);
    AppendValues(fields, k, v);
  }

  lemma AppendDistinct(fields: Fields, k: string, v: Value)
    requires DistinctKeys(fields) && !HasKey(fields, k)
    ensures DistinctKeys(fields + [(k, v)])
  {
    var r := fields + [(k, v)];
    forall i, j | 0 <= i < j < |r|
      ensures r[i].0 != r[j].0
    {
      assert r[i] == fields[i];
      if j < |fields| {
        assert r[j] == fields[j];
      }
    }
  }

  lemma AppendValues(fields: Fields, k: string, v: Value)
    requires forall i :: 0 <= i < |fields| ==> WellFormed(fields[i].1)
    requires WellFormed(v)
    ensures var r := fields + [(k, v)]; forall i :: 0 <= i < |r| ==> WellFormed(r[i].1)
  {
    var r := fields + [(k, v)];
    forall i | 0 <= i < |r|
      ensures WellFormed(r[i].1)
    {
      if i < |fields| {
        assert r[i] == fields[i];
      }
    }
  }

  // ----- Serialisation: json.dumps -----

  function HexDigit(d: int): (c: char)
    requires 0 <= d < 16
  {
    if d < 10 then ('0' as int + d) as char else ('a' as int + (d - 10)) as char
  }

  /** Four lower-case hexadecimal digits, as `'{0:04x}'.format(n)` writes them. */
  function Hex4(n: int): string
    requires 0 <= n < 0x10000
  {
    [HexDigit(n / 4096), HexDigit((n / 256) % 16), HexDigit((n / 16) % 16), HexDigit(n % 16)]
  }

  /** How `json.dumps` writes one character of a string when `ensure_ascii` is set. */
  function EscapeChar(c: char): string {
    var n := c as int;
    if c == '"' then ['\\', '"']
    else if c == '\\' then ['\\', '\\']
    else if n == 8 then ['\\', 'b']
    else if n == 12 then ['\\', 'f']
    else if c == '\n' then ['\\', 'n']
    else if c == '\r' then ['\\', 'r']
    else if c == '\t' then ['\\', 't']
    else if ' ' <= c <= '~' then [c]
    else if n < 0x10000 then ['\\', 'u'] + Hex4(n)
    else
      var m := n - 0x10000;
      ['\\', 'u'] + Hex4(0xD800 + m / 1024) + ['\\', 'u'] + Hex4(0xDC00 + m % 1024)
  }

  function Escape(s: string): string
    decreases |s|
  {
    if s == [] then [] else EscapeChar(s[0]) + Escape(s[1..])
  }

  function Quote(s: string): string {
    ['"'] + Escape(s) + ['"']
  }

  /** `json.dumps(v)`. */
  function Dumps(v: Value): string
    decreases v
  {
    match v
    case Null => "null"
    case Bool(b) => if b then "true" else "false"
    case Int(i) => Decimal.IntToString(i)
    case Str(s) => Quote(s)
    case Array(items) => "[" + DumpsItems(items) + "]"
    case Object(fields) => "{" + DumpsFields(fields) + "}"
  }

  function DumpsItems(items: seq<Value>): string
    decreases items
  {
    if items == [] then ""
    else if |items| == 1 then Dumps(items[0])
    else Dumps(items[0]) + ", " + DumpsItems(items[1..])
  }

  function DumpsFields(fields: Fields): string
    decreases fields
  {
    if fields == [] then ""
    else
      var field := fields[0];
      assert field in fields && field.1 < field;
      var entry := Quote(field.0) + ": " + Dumps(field.1);
      if |fields| == 1 then entry else entry + ", " + DumpsFields(fields[1..])
  }

  // ----- Parsing: json.loads -----

  predicate IsWs(c: char) {
    c == ' ' || c == '\t' || c == '\n' || c == '\r'
  }

  function SkipWs(s: string): (r: string)
    ensures |r| <= |s|
    ensures r == [] || !IsWs(r[0])
    decreases |s|
  {
    if s != [] && IsWs(s[0]) then SkipWs(s[1..]) else s
  }

  function HexValue(c: char): (r: Option<int>)
    ensures r.Some? ==> 0 <= r.value < 16
  {
    if '0' <= c <= '9' then Some(c as int - '0' as int)
    else if 'a' <= c <= 'f' then Some(c as int - 'a' as int + 10)
    else if 'A' <= c <= 'F' then Some(c as int - 'A' as int + 10)
    else None
  }

  function ParseHex4(s: string): (r: Option<int>)
    requires |s| == 4
    ensures r.Some? ==> 0 <= r.value < 0x10000
  {
    var d0, d1, d2, d3 := HexValue(s[0]), HexValue(s[1]), HexValue(s[2]), HexValue(s[3]);
    if d0.None? || d1.None? || d2.None? || d3.None? then None
    else Some(d0.value * 4096 + d1.value * 256 + d2.value * 16 + d3.value)
  }

  /** The character an escape sequence stands for; `s` starts just after the backslash.
      A surrogate that is not part of a pair has no character of its own here and is rejected. */
  function ParseEscape(s: string): (r: Option<(char, string)>)
    ensures r.Some? ==> |r.value.1| < |s|
  {
    if s == [] then None
    else if s[0] == '"' || s[0] == '\\' || s[0] == '/' then Some((s[0], s[1..]))
    else if s[0] == 'b' then Some((8 as char, s[1..]))
    else if s[0] == 'f' then Some((12 as char, s[1..]))
    else if s[0] == 'n' then Some(('\n', s[1..]))
    else if s[0] == 'r' then Some(('\r', s[1..]))
    else if s[0] == 't' then Some(('\t', s[1..]))
    else if s[0] == 'u' && |s| >= 5 then
      match ParseHex4(s[1..5])
      case None => None
      case Some(u) =>
        if 0xD800 <= u <= 0xDBFF then
          if |s| >= 11 && s[5] == '\\' && s[6] == 'u' then
            match ParseHex4(s[7..11])
            case None => None
            case Some(u2) =>
              if 0xDC00 <= u2 <= 0xDFFF then Some(((0x10000 + (u - 0xD800) * 1024 + (u2 - 0xDC00)) as char, s[11..]))
              else None
          else None
        else if 0xDC00 <= u <= 0xDFFF then None
        else Some((u as char, s[5..]))
    else None
  }

  /** The contents of a string literal; `s` starts just after the opening quote. */
  function ParseString(s: string): (r: Option<(string, string)>)
    ensures r.Some? ==> |r.value.1| < |s|
    decreases |s|
  {
    if s == [] then None
    else if s[0] == '"' then Some(([], s[1..]))
    else if s[0] == '\\' then
      match ParseEscape(s[1..])
      case None => None
      case Some((c, t)) =>
        match ParseString(t)
        case None => None
        case Some((x, rest)) => Some(([c] + x, rest))
    else if s[0] < ' ' then None
    else
      match ParseString(s[1..])
      case None => None
      case Some((x, rest)) => Some(([s[0]] + x, rest))
  }

  function ParseKeyword(s: string, word: string, v: Value): (r: Option<(Value, string)>)
    requires |word| > 0
    ensures r.Some? ==> |r.value.1| < |s|
  {
    if |s| >= |word| && s[..|word|] == word then Some((v, s[|word|..])) else None
  }

  /** The length of the run of digits at the front of `s`. */
  function DigitRun(s: string): (n: nat)
    ensures n <= |s| && Decimal.AllDigits(s[..n])
    ensures n < |s| ==> !Decimal.IsDigit(s[n])
    decreases |s|
  {
    if s != [] && Decimal.IsDigit(s[0]) then
      var n := 1 + DigitRun(s[1..]);
      assert s[..n] == [s[0]] + s[1..][..n - 1];
      n
    else 0
  }

  /** An integer: an optional minus sign, then `0` or digits without a leading zero.
      A fraction or exponent would make a float, which this model does not have. */
  function ParseNumber(s: string): (r: Option<(Value, string)>)
    ensures r.Some? ==> |r.value.1| < |s|
  {
    var negative := s != [] && s[0] == '-';
    var t := if negative then s[1..] else s;
    var d := DigitRun(t);
    if d == 0 || (t[0] == '0' && d > 1) then None
    else if d < |t| && (t[d] == '.' || t[d] == 'e' || t[d] == 'E') then None
    else
      var n: int := Decimal.DigitsValue(t[..d]);
      Some((Int(if negative then -n else n), t[d..]))
  }

  /** One value at the front of `s` (no leading whitespace) and what follows it. */
  function ParseValue(s: string): (r: Option<(Value, string)>)
    ensures r.Some? ==> |r.value.1| < |s|
    decreases |s|, 0
  {
    if s == [] then None
    else if s[0] == '"' then
      match ParseString(s[1..])
      case None => None
      case Some((x, rest)) => Some((Str(x), rest))
    else if s[0] == '[' then
      var t := SkipWs(s[1..]);
      if t != [] && t[0] == ']' then Some((Array([]), t[1..])) else ParseItems(t, [])
    else if s[0] == '{' then
      var t := SkipWs(s[1..]);
      if t != [] && t[0] == '}' then Some((Object([]), t[1..])) else ParseFields(t, [])
    else if s[0] == 'n' then ParseKeyword(s, "null", Null)
    else if s[0] == 't' then ParseKeyword(s, "true", Bool(true))
    else if s[0] == 'f' then ParseKeyword(s, "false", Bool(false))
    else ParseNumber(s)
  }

  /** The elements of an array after `acc`, up to and including the closing bracket. */
  function ParseItems(s: string, acc: seq<Value>): (r: Option<(Value, string)>)
    ensures r.Some? ==> |r.value.1| < |s|
    decreases |s|, 1
  {
    match ParseValue(s)
    case None => None
    case Some((v, t)) =>
      var u := SkipWs(t);
      if u != [] && u[0] == ']' then Some((Array(acc + [v]), u[1..]))
      else if u != [] && u[0] == ',' then ParseItems(SkipWs(u[1..]), acc + [v])
      else None
  }

  /** One member `"key": value` at the front of `s`, and what follows it. */
  function ParseMember(s: string): (r: Option<(string, Value, string)>)
    ensures r.Some? ==> |r.value.2| < |s|
    decreases |s|, 0
  {
    if s == [] || s[0] != '"' then None
    else
      match ParseString(s[1..])
      case None => None
      case Some((k, t)) =>
        var t1 := SkipWs(t);
        if t1 == [] || t1[0] != ':' then None
        else
          match ParseValue(SkipWs(t1[1..]))
          case None => None
          case Some((v, t2)) => Some((k, v, t2))
  }

  /** The members of an object after `acc`, up to and including the closing brace.
      A repeated key keeps its first place and its last value, as a Python dict built from the pairs. */
  function ParseFields(s: string, acc: Fields): (r: Option<(Value, string)>)
    ensures r.Some? ==> |r.value.1| < |s|
    decreases |s|, 1
  {
    match ParseMember(s)
    case None => None
    case Some((k, v, t)) =>
      var u := SkipWs(t);
      if u != [] && u[0] == '}' then Some((Object(Put(acc, k, v)), u[1..]))
      else if u != [] && u[0] == ',' then ParseFields(SkipWs(u[1..]), Put(acc, k, v))
      else None
  }

  /** `json.loads(s)`: one value, with only whitespace around it. `None` stands for the
      `JSONDecodeError` it raises. */
  function Loads(s: string): Option<Value> {
    match ParseValue(SkipWs(s))
    case None => None
    case Some((v, rest)) => if SkipWs(rest) == [] then Some(v) else None
  }
}
