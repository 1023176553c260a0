/**
 * How the store keeps big integers in JSON text. Encoding writes a big integer as the string of its digits followed by
 * `n`; decoding turns every string of that shape back, and skips the walk when the text shows no such string. Strings
 * are escaped as section 7 of RFC 8259 asks; the text holds no insignificant white space.
 */
module Json {
  import opened Basics

  /** From this size on JSON numbers are printed with an exponent; plain integers stay below it. */
  const EXPONENT_FROM: int := 1_000_000_000_000_000_000_000

  type PlainInt = n: int | -EXPONENT_FROM < n < EXPONENT_FROM

  datatype Value =
    | Null
    | Bool(b: bool)
    | Num(n: PlainInt)
    | Big(big: int)
    | Str(s: string)
    | Arr(items: Items)
    | Obj(fields: Fields)
  datatype Items = Nil | Cons(head: Value, tail: Items)
  datatype Fields = End | Field(key: string, value: Value, rest: Fields)

  // ---- Integers as text ----

  predicate IsDigit(c: char) {
    '0' <= c <= '9'
  }

  predicate AllDigits(s: string) {
    forall i :: 0 <= i < |s| ==> IsDigit(s[i])
  }

  function DigitOf(d: nat): char
    requires d < 10
  {
    (d + '0' as int) as char
  }

  function NatText(n: nat): (s: string)
    ensures s != "" && AllDigits(s)
  {
    if n < 10 then [DigitOf(n)] else NatText(n / 10) + [DigitOf(n % 10)]
  }

  function IntText(n: int): string {
    if n < 0 then "-" + NatText(-n) else NatText(n)
  }

  function ReadNat(s: string): nat
    requires AllDigits(s)
  {
    if s == "" then 0 else ReadNat(s[..|s| - 1]) * 10 + (s[|s| - 1] as int - '0' as int)
  }

  predicate IsIntText(s: string) {
    (s != "" && AllDigits(s)) || (|s| > 1 && s[0] == '-' && AllDigits(s[1..]))
  }

  function ReadInt(s: string): int
    requires IsIntText(s)
  {
    if s[0] == '-' then 0 - ReadNat(s[1..]) else ReadNat(s)
  }

  lemma {:induction false} ReadNatText(n: nat)
    ensures ReadNat(NatText(n)) == n
  {
    if n >= 10 {
      ReadNatText(n / 10);
      assert NatText(n)[..|NatText(n)| - 1] == NatText(n / 10);
    }
  }

  lemma ReadIntText(n: int)
    ensures IsIntText(IntText(n)) && ReadInt(IntText(n)) == n
  {
    if n < 0 {
      ReadNatText(-n);
      assert IntText(n)[1..] == NatText(-n);
    } else {
      ReadNatText(n);
      assert IsDigit(NatText(n)[0]);
    }
  }

  /** The shape the decoder looks for: an optional minus, digits, and a final `n`. */
  predicate IsBigText(s: string) {
    |s| > 1 && s[|s| - 1] == 'n' && IsIntText(s[..|s| - 1])
  }

  function BigText(n: int): string {
    IntText(n) + "n"
  }

  lemma BigTextShape(n: int)
    ensures IsBigText(BigText(n)) && ReadInt(BigText(n)[..|BigText(n)| - 1]) == n
  {
    ReadIntText(n);
    assert BigText(n)[..|BigText(n)| - 1] == IntText(n);
  }

  // ---- Printing ----

  function HexOf(d: nat): char
    requires d < 16
  {
    if d < 10 then DigitOf(d) else (d - 10 + 'a' as int) as char
  }

  function EscapeChar(c: char): string {
    if c == '"' then "\\\""
    else if c == '\\' then "\\\\"
    else if c as int == 8 then "\\b"
    else if c as int == 9 then "\\t"
    else if c as int == 10 then "\\n"
    else if c as int == 12 then "\\f"
    else if c as int == 13 then "\\r"
    else if c as int < 32 then "\\u00" + [HexOf(c as int / 16), HexOf(c as int % 16)]
    else [c]
  }

  function Escape(s: string): string {
    if s == "" then "" else EscapeChar(s[0]) + Escape(s[1..])
  }

  function Quote(s: string): string {
    "\"" + Escape(s) + "\""
  }

  function Print(v: Value): string {
    match v
    case Null => "null"
    case Bool(b) => if b then "true" else "false"
    case Num(n) => IntText(n)
    case Big(n) => Quote(BigText(n))
    case Str(s) => Quote(s)
    case Arr(items) => if items.Nil? then "[]" else "[" + PrintItems(items)
    case Obj(fields) => if fields.End? then "{}" else "{" + PrintFields(fields)
  }

  /** The items with their separators and the closing bracket. */
  function PrintItems(items: Items): string {
    match items
    case Nil => "]"
    case Cons(head, tail) => Print(head) + (if tail.Nil? then "" else ",") + PrintItems(tail)
  }

  function PrintFields(fields: Fields): string {
    match fields
    case End => "}"
    case Field(key, value, rest) => Quote(key) + ":" + Print(value) + (if rest.End? then "" else ",") + PrintFields(rest)
  }

  // ---- Parsing ----

  datatype Parsed<T> = Fail | Done(value: T, rest: string)

  predicate IsHex(c: char) {
    IsDigit(c) || 'a' <= c <= 'f' || 'A' <= c <= 'F'
  }

  function HexValue(c: char): nat
    requires IsHex(c)
  {
    if IsDigit(c) then c as int - '0' as int else if 'a' <= c then c as int - 'a' as int + 10 else c as int - 'A' as int + 10
  }

  function ShortEscape(c: char): Option<char> {
    if c == '"' || c == '\\' || c == '/' then Some(c)
    else if c == 'b' then Some(8 as char)
    else if c == 't' then Some(9 as char)
    else if c == 'n' then Some(10 as char)
    else if c == 'f' then Some(12 as char)
    else if c == 'r' then Some(13 as char)
    else None
  }

  function HexEscape(t: string): Option<char> {
    if |t| < 4 || !IsHex(t[0]) || !IsHex(t[1]) || !IsHex(t[2]) || !IsHex(t[3]) then None
    else
      var code := ((HexValue(t[0]) * 16 + HexValue(t[1])) * 16 + HexValue(t[2])) * 16 + HexValue(t[3]);
      if code < 0xD800 then Some(code as char) else None
  }

  function Prepend(c: char, p: Parsed<string>): Parsed<string> {
    if p.Fail? then Fail else Done([c] + p.value, p.rest)
  }

  /** The rest of a string after its opening quote. */
  function ParseString(t: string): (r: Parsed<string>)
    ensures r.Done? ==> |r.rest| < |t|
    decreases |t|
  {
    if t == "" then Fail
    else if t[0] == '"' then Done("", t[1..])
    else if t[0] == '\\' then
      if |t| < 2 then Fail
      else if t[1] == 'u' then
        var c := HexEscape(t[2..]);
        if c.Some? && |t| >= 6 then Prepend(c.value, ParseString(t[6..])) else Fail
      else
        var c := ShortEscape(t[1]);
        if c.Some? then Prepend(c.value, ParseString(t[2..])) else Fail
    else if t[0] as int >= 32 then Prepend(t[0], ParseString(t[1..]))
    else Fail
  }

  function DigitCount(t: string): (n: nat)
    ensures n <= |t| && AllDigits(t[..n])
  {
    if t == "" || !IsDigit(t[0]) then 0
    else
      var n := DigitCount(t[1..]);
      assert t[..n + 1] == [t[0]] + t[1..][..n];
      n + 1
  }

  function ParseNumber(t: string): (r: Parsed<Value>)
    ensures r.Done? ==> |r.rest| < |t|
  {
    if t == "" then Fail
    else
      var sign := if t[0] == '-' then 1 else 0;
      var n := DigitCount(t[sign..]);
      if n == 0 then Fail
      else
        var magnitude := ReadNat(t[sign..][..n]);
        if magnitude >= EXPONENT_FROM then Fail
        else Done(Num(if sign == 1 then 0 - magnitude else magnitude), t[sign + n..])
  }

  function ParseValue(t: string): (r: Parsed<Value>)
    ensures r.Done? ==> |r.rest| < |t|
    decreases |t|, 1
  {
    if t == "" then Fail
    else if t[0] == 'n' then (if "null" <= t then Done(Null, t[4..]) else Fail)
    else if t[0] == 't' then (if "true" <= t then Done(Bool(true), t[4..]) else Fail)
    else if t[0] == 'f' then (if "false" <= t then Done(Bool(false), t[5..]) else Fail)
    else if t[0] == '"' then
      var s := ParseString(t[1..]);
      if s.Fail? then Fail else Done(Str(s.value), s.rest)
    else if t[0] == '[' then
      if |t| > 1 && t[1] == ']' then Done(Arr(Nil), t[2..])
      else
        var items := ParseItems(t[1..]);
        if items.Fail? then Fail else Done(Arr(items.value), items.rest)
    else if t[0] == '{' then
      if |t| > 1 && t[1] == '}' then Done(Obj(End), t[2..])
      else
        var fields := ParseFields(t[1..]);
        if fields.Fail? then Fail else Done(Obj(fields.value), fields.rest)
    else ParseNumber(t)
  }

  function ParseItems(t: string): (r: Parsed<Items>)
    ensures r.Done? ==> |r.rest| < |t|
    decreases |t|, 2
  {
    var head := ParseValue(t);
    if head.Fail? || head.rest == "" then Fail
    else if head.rest[0] == ']' then Done(Cons(head.value, Nil), head.rest[1..])
    else if head.rest[0] == ',' then
      var tail := ParseItems(head.rest[1..]);
      if tail.Fail? then Fail else Done(Cons(head.value, tail.value), tail.rest)
    else Fail
  }

  function ParseFields(t: string): (r: Parsed<Fields>)
    ensures r.Done? ==> |r.rest| < |t|
    decreases |t|, 2
  {
    if t == "" || t[0] != '"' then Fail
    else
      var key := ParseString(t[1..]);
      if key.Fail? || key.rest == "" || key.rest[0] != ':' then Fail
      else
        var value := ParseValue(key.rest[1..]);
        if value.Fail? || value.rest == "" then Fail
        else if value.rest[0] == '}' then Done(Field(key.value, value.value, End), value.rest[1..])
        else if value.rest[0] == ',' then
          var rest := ParseFields(value.rest[1..]);
          if rest.Fail? then Fail else Done(Field(key.value, value.value, rest.value), rest.rest)
        else Fail
  }

  function Parse(t: string): Option<Value> {
    var r := ParseValue(t);
    if r.Done? && r.rest == "" then Some(r.value) else None
  }

  // ---- The bigint layer ----

  /** What a value looks like once its text is parsed: big integers have become strings. */
  function Lower(v: Value): Value {
    match v
    case Big(n) => Str(BigText(n))
    case Arr(items) => Arr(LowerItems(items))
    case Obj(fields) => Obj(LowerFields(fields))
    case _ => v
  }

  function LowerItems(items: Items): Items {
    match items
    case Nil => Nil
    case Cons(head, tail) => Cons(Lower(head), LowerItems(tail))
  }

  function LowerFields(fields: Fields): Fields {
    match fields
    case End => End
    case Field(key, value, rest) => Field(key, Lower(value), LowerFields(rest))
  }

  /** The reviver: every string value of the big-integer shape becomes a big integer; keys are left alone. */
  function Revive(v: Value): Value {
    match v
    case Str(s) => if IsBigText(s) then Big(ReadInt(s[..|s| - 1])) else v
    case Arr(items) => Arr(ReviveItems(items))
    case Obj(fields) => Obj(ReviveFields(fields))
    case _ => v
  }

  function ReviveItems(items: Items): Items {
    match items
    case Nil => Nil
    case Cons(head, tail) => Cons(Revive(head), ReviveItems(tail))
  }

  function ReviveFields(fields: Fields): Fields {
    match fields
    case End => End
    case Field(key, value, rest) => Field(key, Revive(value), ReviveFields(rest))
  }

  function Encode(v: Value): string {
    Print(v)
  }

  predicate QuotedAt(t: string, i: int, j: int) {
    0 <= i < j < |t| && t[i] == '"' && t[j] == '"' && IsBigText(t[i + 1..j])
  }

  /** The text contains a quoted big-integer shape somewhere, in a value, a key or across them. */
  predicate ShowsBigText(t: string) {
    exists i: nat, j: nat :: i < |t| && j < |t| && QuotedAt(t, i, j)
  }

  function DecodeSlow(t: string): Option<Value> {
    var v := Parse(t);
    if v.None? then None else Some(Revive(v.value))
  }

  function Decode(t: string): Option<Value> {
    if !ShowsBigText(t) then Parse(t) else DecodeSlow(t)
  }

  // ---- Parsing undoes printing ----

  /** A text that may follow a number without being read as part of it. */
  predicate Stops(rest: string) {
    rest == "" || !IsDigit(rest[0])
  }

  lemma {:induction false} DigitsTaken(s: string, rest: string)
    requires AllDigits(s) && Stops(rest)
    ensures DigitCount(s + rest) == |s|
  {
    if s == "" {
      assert s + rest == rest;
    } else {
      assert (s + rest)[1..] == s[1..] + rest;
      DigitsTaken(s[1..], rest);
    }
  }

  /** Joining texts does not depend on the grouping. */
  lemma Join(a: string, b: string, c: string)
    ensures a + b + c == a + (b + c)
  {
  }

  /** The first digits of a text are the printed ones, and what follows them is left over. */
  lemma DigitsSplit(s: string, rest: string)
    requires AllDigits(s) && Stops(rest)
    ensures var n := DigitCount(s + rest);
      n == |s| && (s + rest)[..n] == s && (s + rest)[n..] == rest
  {
    DigitsTaken(s, rest);
  }

  lemma MinusParses(s: string, rest: string)
    requires s != "" && AllDigits(s) && Stops(rest) && ReadNat(s) < EXPONENT_FROM
    ensures ParseNumber("-" + (s + rest)) == Done(Num(0 - ReadNat(s)), rest)
  {
    DigitsSplit(s, rest);
    var t := "-" + (s + rest);
    assert t[1..] == s + rest;
    assert t[1 + |s|..] == t[1..][|s|..];
    assert DigitCount(t[1..]) == |s|;
  }

  lemma DigitsParse(s: string, rest: string)
    requires s != "" && AllDigits(s) && Stops(rest) && ReadNat(s) < EXPONENT_FROM
    ensures ParseNumber(s + rest) == Done(Num(ReadNat(s)), rest)
  {
    DigitsSplit(s, rest);
    var t := s + rest;
    assert IsDigit(s[0]) && t[0] == s[0];
    assert t[0..] == t;
  }

  lemma NegativeParses(n: nat, rest: string)
    requires 0 < n < EXPONENT_FROM && Stops(rest)
    ensures ParseNumber("-" + NatText(n) + rest) == Done(Num(0 - n), rest)
  {
    Join("-", NatText(n), rest);
    ReadNatText(n);
    MinusParses(NatText(n), rest);
  }

  lemma NumberParses(n: PlainInt, rest: string)
    requires Stops(rest)
    ensures ParseNumber(IntText(n) + rest) == Done(Num(n), rest)
  {
    if n < 0 {
      NegativeParses(-n, rest);
    } else {
      ReadNatText(n);
      DigitsParse(NatText(n), rest);
    }
  }

  lemma CharParses(c: char, t: string)
    ensures ParseString(EscapeChar(c) + t) == Prepend(c, ParseString(t))
  {
    var e := EscapeChar(c);
    var all := e + t;
    assert all[|e|..] == t;
    if |e| == 6 {
      assert e[0] == '\\' && e[1] == 'u' && e[2] == '0' && e[3] == '0';
      assert all[2..][0] == '0' && all[2..][1] == '0' && all[2..][2] == e[4] && all[2..][3] == e[5];
      assert HexValue(e[4]) == c as int / 16 && HexValue(e[5]) == c as int % 16;
      assert HexEscape(all[2..]) == Some(c);
    }
  }

  lemma {:induction false} StringParses(s: string, rest: string)
    ensures ParseString(Escape(s) + "\"" + rest) == Done(s, rest)
  {
    if s == "" {
      assert Escape(s) + "\"" + rest == "\"" + rest;
    } else {
      var tail := Escape(s[1..]) + "\"" + rest;
      StringParses(s[1..], rest);
      assert Escape(s) + "\"" + rest == EscapeChar(s[0]) + tail;
      CharParses(s[0], tail);
      assert s == [s[0]] + s[1..];
    }
  }

  lemma QuoteParses(s: string, rest: string)
    ensures Quote(s) + rest != "" && (Quote(s) + rest)[0] == '"'
    ensures ParseString((Quote(s) + rest)[1..]) == Done(s, rest)
  {
    assert (Quote(s) + rest)[1..] == Escape(s) + "\"" + rest;
    StringParses(s, rest);
  }

  lemma WordParses(v: Value, rest: string)
    requires v.Null? || v.Bool?
    ensures ParseValue(Print(v) + rest) == Done(v, rest)
  {
    var t := Print(v) + rest;
    assert t[|Print(v)|..] == rest;
    assert t[..|Print(v)|] == Print(v);
  }

  lemma NumParses(n: PlainInt, rest: string)
    requires Stops(rest)
    ensures ParseValue(IntText(n) + rest) == Done(Num(n), rest)
  {
    var t := IntText(n) + rest;
    NumberParses(n, rest);
    assert IsDigit(t[0]) || t[0] == '-' by { assert IsDigit(NatText(if n < 0 then -n else n)[0]); }
    assert ParseValue(t) == ParseNumber(t);
  }

  lemma StrParses(s: string, rest: string)
    ensures ParseValue(Quote(s) + rest) == Done(Str(s), rest)
  {
    QuoteParses(s, rest);
  }

  /** An opening bracket before a text that starts an item hands that text to the item parser. */
  lemma BracketParses(t: string)
    requires t != "" && t[0] != ']'
    ensures var r := ParseItems(t);
      ParseValue("[" + t) == if r.Fail? then Fail else Done(Arr(r.value), r.rest)
  {
    assert ("[" + t)[1..] == t;
  }

  lemma BraceParses(t: string)
    requires t != "" && t[0] != '}'
    ensures var r := ParseFields(t);
      ParseValue("{" + t) == if r.Fail? then Fail else Done(Obj(r.value), r.rest)
  {
    assert ("{" + t)[1..] == t;
  }

  lemma EmptyParses(rest: string)
    ensures ParseValue("[]" + rest) == Done(Arr(Nil), rest)
    ensures ParseValue("{}" + rest) == Done(Obj(End), rest)
  {
    assert ("[]" + rest)[2..] == rest;
    assert ("{}" + rest)[2..] == rest;
  }

  lemma {:induction false} ValueParses(v: Value, rest: string)
    requires Stops(rest)
    ensures ParseValue(Print(v) + rest) == Done(Lower(v), rest)
    decreases v
  {
    match v
    case Num(n) => NumParses(n, rest);
    case Big(n) => StrParses(BigText(n), rest);
    case Str(s) => StrParses(s, rest);
    case Arr(items) => ArrayParses(items, rest);
    case Obj(fields) => ObjectParses(fields, rest);
    case _ => WordParses(v, rest);
  }

  lemma {:induction false} ArrayParses(items: Items, rest: string)
    ensures ParseValue(Print(Arr(items)) + rest) == Done(Arr(LowerItems(items)), rest)
    decreases items, 1
  {
    if items.Nil? {
      EmptyParses(rest);
    } else {
      var t := PrintItems(items) + rest;
      assert Print(Arr(items)) + rest == "[" + t;
      ItemsParse(items, rest);
      PrintStarts(items.head);
      assert t[0] == Print(items.head)[0];
      BracketParses(t);
    }
  }

  lemma {:induction false} ObjectParses(fields: Fields, rest: string)
    ensures ParseValue(Print(Obj(fields)) + rest) == Done(Obj(LowerFields(fields)), rest)
    decreases fields, 1
  {
    if fields.End? {
      EmptyParses(rest);
    } else {
      var t := PrintFields(fields) + rest;
      assert Print(Obj(fields)) + rest == "{" + t;
      FieldsParse(fields, rest);
      assert t[0] == '"';
      BraceParses(t);
    }
  }

  lemma PrintStarts(v: Value)
    ensures Print(v) != "" && Print(v)[0] != ']'
  {
    match v
    case Num(n) => assert IsDigit(NatText(if n < 0 then -n else n)[0]);
    case _ =>
  }

  lemma Regroup(a: string, b: string, c: string, d: string)
    ensures a + b + c + d == a + (b + (c + d))
  {
  }

  /** What the item parser does once it has read one value. */
  lemma ItemParses(t: string, head: Value, after: string)
    requires ParseValue(t) == Done(head, after) && after != ""
    ensures after[0] == ']' ==> ParseItems(t) == Done(Cons(head, Nil), after[1..])
    ensures after[0] == ',' && ParseItems(after[1..]).Done? ==>
      ParseItems(t) == Done(Cons(head, ParseItems(after[1..]).value), ParseItems(after[1..]).rest)
  {
  }

  lemma {:induction false} ItemsParse(items: Items, rest: string)
    requires items.Cons?
    ensures ParseItems(PrintItems(items) + rest) == Done(LowerItems(items), rest)
    decreases items, 0
  {
    var comma, tail := if items.tail.Nil? then "" else ",", PrintItems(items.tail);
    var after := comma + (tail + rest);
    Regroup(Print(items.head), comma, tail, rest);
    assert after[0] == if items.tail.Nil? then ']' else ',';
    ValueParses(items.head, after);
    ItemParses(Print(items.head) + after, Lower(items.head), after);
    if items.tail.Nil? {
      assert after[1..] == rest;
    } else {
      assert after[1..] == tail + rest;
      ItemsParse(items.tail, rest);
    }
  }

  /** A quoted key and a colon hand what follows to the value parser. */
  lemma KeyParses(key: string, value: Value, after: string, whole: string)
    requires whole == Quote(key) + (":" + (Print(value) + after))
    requires ParseValue(Print(value) + after) == Done(Lower(value), after)
    requires after != ""
    ensures after[0] == '}' ==> ParseFields(whole) == Done(Field(key, Lower(value), End), after[1..])
    ensures after[0] == ',' && ParseFields(after[1..]).Done? ==>
      var r := ParseFields(after[1..]);
      ParseFields(whole) == Done(Field(key, Lower(value), r.value), r.rest)
  {
    var tail := ":" + (Print(value) + after);
    QuoteParses(key, tail);
    assert tail[1..] == Print(value) + after;
  }

  lemma {:induction false} FieldsParse(fields: Fields, rest: string)
    requires fields.Field?
    ensures ParseFields(PrintFields(fields) + rest) == Done(LowerFields(fields), rest)
    decreases fields, 0
  {
    var comma, tail := if fields.rest.End? then "" else ",", PrintFields(fields.rest);
    var after := comma + (tail + rest);
    var value := Print(fields.value);
    Regroup(Quote(fields.key) + ":" + value, comma, tail, rest);
    Regroup(Quote(fields.key), ":", value, after);
    assert after[0] == if fields.rest.End? then '}' else ',';
    ValueParses(fields.value, after);
    KeyParses(fields.key, fields.value, after, PrintFields(fields) + rest);
    if fields.rest.End? {
      assert after[1..] == rest;
    } else {
      assert after[1..] == tail + rest;
      FieldsParse(fields.rest, rest);
    }
  }

  lemma ParsePrint(v: Value)
    ensures Parse(Print(v)) == Some(Lower(v))
  {
    ValueParses(v, "");
    assert Print(v) + "" == Print(v);
  }

  // ---- The fast path ----

  /** Some string value of the parsed tree has the big-integer shape. */
  ghost predicate HoldsBigText(v: Value) {
    match v
    case Str(s) => IsBigText(s)
    case Arr(items) => ItemsHold(items)
    case Obj(fields) => FieldsHold(fields)
    case _ => false
  }

  ghost predicate ItemsHold(items: Items) {
    items.Cons? && (HoldsBigText(items.head) || ItemsHold(items.tail))
  }

  ghost predicate FieldsHold(fields: Fields) {
    fields.Field? && (HoldsBigText(fields.value) || FieldsHold(fields.rest))
  }

  /** A quoted shape stays visible inside a longer text. */
  lemma StillShown(before: string, t: string, after: string)
    requires ShowsBigText(t)
    ensures ShowsBigText(before + t + after)
  {
    var i: nat, j: nat :| i < |t| && j < |t| && QuotedAt(t, i, j);
    var all := before + t + after;
    var k := |before|;
    assert all[k + i + 1..k + j] == t[i + 1..j];
    assert QuotedAt(all, k + i, k + j);
  }

  lemma ShownInParts(head: string, comma: string, tail: string)
    requires ShowsBigText(head) || ShowsBigText(tail)
    ensures ShowsBigText(head + comma + tail)
  {
    if ShowsBigText(head) {
      StillShown("", head, comma + tail);
      assert "" + head + (comma + tail) == head + comma + tail;
    } else {
      StillShown(head + comma, tail, "");
      assert head + comma + tail + "" == head + comma + tail;
    }
  }

  lemma {:induction false} PlainPrintsVerbatim(s: string)
    requires forall i :: 0 <= i < |s| ==> s[i] as int >= 32 && s[i] != '"' && s[i] != '\\'
    ensures Escape(s) == s
  {
    if s != "" {
      PlainPrintsVerbatim(s[1..]);
      assert s == [s[0]] + s[1..];
    }
  }

  lemma BigTextPlain(s: string)
    requires IsBigText(s)
    ensures forall i :: 0 <= i < |s| ==> s[i] as int >= 32 && s[i] != '"' && s[i] != '\\'
  {
    forall i | 0 <= i < |s| ensures s[i] as int >= 32 && s[i] != '"' && s[i] != '\\' {
      var digits := s[..|s| - 1];
      if i < |digits| {
        assert digits[i] == s[i];
        if digits[0] == '-' && i > 0 { assert digits[1..][i - 1] == s[i]; }
      }
    }
  }

  /** A string of the big-integer shape needs no escapes, so it is printed as it is between its quotes. */
  lemma BigTextShown(s: string)
    requires IsBigText(s)
    ensures ShowsBigText(Quote(s))
  {
    BigTextPlain(s);
    PlainPrintsVerbatim(s);
    var q := Quote(s);
    assert q[1..|q| - 1] == s;
    assert QuotedAt(q, 0, |q| - 1);
  }

  lemma {:induction false} HeldIsShown(v: Value)
    requires HoldsBigText(Lower(v))
    ensures ShowsBigText(Print(v))
    decreases v
  {
    match v
    case Big(n) => BigTextShown(BigText(n));
    case Str(s) => BigTextShown(s);
    case Arr(items) =>
      ItemsShown(items);
      StillShown("[", PrintItems(items), "");
      assert "[" + PrintItems(items) + "" == Print(v);
    case Obj(fields) =>
      FieldsShown(fields);
      StillShown("{", PrintFields(fields), "");
      assert "{" + PrintFields(fields) + "" == Print(v);
    case _ =>
  }

  lemma {:induction false} ItemsShown(items: Items)
    requires ItemsHold(LowerItems(items))
    ensures ShowsBigText(PrintItems(items))
    decreases items
  {
    var head, comma, tail := Print(items.head), if items.tail.Nil? then "" else ",", PrintItems(items.tail);
    assert PrintItems(items) == head + comma + tail;
    if HoldsBigText(Lower(items.head)) {
      HeldIsShown(items.head);
      ShownInParts(head, comma, tail);
    } else {
      ItemsShown(items.tail);
      ShownInParts(head, comma, tail);
    }
  }

  lemma ShownInField(key: string, value: string, comma: string, tail: string)
    requires ShowsBigText(value) || ShowsBigText(tail)
    ensures ShowsBigText(key + value + comma + tail)
  {
    if ShowsBigText(value) {
      StillShown(key, value, comma + tail);
      assert key + value + (comma + tail) == key + value + comma + tail;
    } else {
      StillShown(key + value + comma, tail, "");
      assert key + value + comma + tail + "" == key + value + comma + tail;
    }
  }

  lemma {:induction false} FieldsShown(fields: Fields)
    requires FieldsHold(LowerFields(fields))
    ensures ShowsBigText(PrintFields(fields))
    decreases fields
  {
    if HoldsBigText(Lower(fields.value)) {
      HeldIsShown(fields.value);
    } else {
      FieldsShown(fields.rest);
    }
    ShownInField(Quote(fields.key) + ":", Print(fields.value), if fields.rest.End? then "" else ",", PrintFields(fields.rest));
  }

  lemma {:induction false} NothingToRevive(v: Value)
    requires !HoldsBigText(v)
    ensures Revive(v) == v
    decreases v
  {
    match v
    case Arr(items) => NoItemsToRevive(items);
    case Obj(fields) => NoFieldsToRevive(fields);
    case _ =>
  }

  lemma {:induction false} NoItemsToRevive(items: Items)
    requires !ItemsHold(items)
    ensures ReviveItems(items) == items
    decreases items
  {
    if items.Cons? {
      NothingToRevive(items.head);
      NoItemsToRevive(items.tail);
    }
  }

  lemma {:induction false} NoFieldsToRevive(fields: Fields)
    requires !FieldsHold(fields)
    ensures ReviveFields(fields) == fields
    decreases fields
  {
    if fields.Field? {
      NothingToRevive(fields.value);
      NoFieldsToRevive(fields.rest);
    }
  }

  /** On every encoded text, skipping the reviver when nothing matches gives the same result as always running it. */
  lemma FastPathAgrees(v: Value)
    ensures Decode(Encode(v)) == DecodeSlow(Encode(v))
  {
    ParsePrint(v);
    if !ShowsBigText(Print(v)) {
      if HoldsBigText(Lower(v)) {
        HeldIsShown(v);
      }
      NothingToRevive(Lower(v));
    }
  }

  // ---- The round trip ----

  lemma {:induction false} ReviveUndoesLower(v: Value)
    ensures Revive(Lower(v)) == v <==> !HoldsBigText(v)
    decreases v
  {
    match v
    case Big(n) => BigTextShape(n);
    case Arr(items) => ReviveUndoesItems(items);
    case Obj(fields) => ReviveUndoesFields(fields);
    case _ =>
  }

  lemma {:induction false} ReviveUndoesItems(items: Items)
    ensures ReviveItems(LowerItems(items)) == items <==> !ItemsHold(items)
    decreases items
  {
    if items.Cons? {
      ReviveUndoesLower(items.head);
      ReviveUndoesItems(items.tail);
    }
  }

  lemma {:induction false} ReviveUndoesFields(fields: Fields)
    ensures ReviveFields(LowerFields(fields)) == fields <==> !FieldsHold(fields)
    decreases fields
  {
    if fields.Field? {
      ReviveUndoesLower(fields.value);
      ReviveUndoesFields(fields.rest);
    }
  }

  /** Decoding undoes encoding exactly for the trees whose plain strings do not look like encoded big integers. */
  lemma RoundTripExactly(v: Value)
    ensures Decode(Encode(v)) == Some(v) <==> !HoldsBigText(v)
  {
    FastPathAgrees(v);
    ParsePrint(v);
    ReviveUndoesLower(v);
  }

  // ---- What the text looks like ----

  /** A big integer is its decimal digits and an `n`, in quotes. */
  lemma AtomText(n: int)
    ensures Encode(Big(n)) == "\"" + (IntText(n) + "n") + "\""
    ensures Encode(Null) == "null" && Encode(Bool(true)) == "true" && Encode(Bool(false)) == "false"
    ensures Encode(Arr(Nil)) == "[]" && Encode(Obj(End)) == "{}"
  {
    BigTextVerbatim(n);
  }

  /** Items stand in brackets, separated by commas. */
  lemma ArrayText(head: Value, tail: Items)
    ensures tail.Nil? ==> Encode(Arr(Cons(head, tail))) == "[" + (Encode(head) + "]")
    ensures tail.Cons? ==> Encode(Arr(Cons(head, tail))) == "[" + (Encode(head) + ("," + Encode(Arr(tail))[1..]))
  {
    var comma := if tail.Nil? then "" else ",";
    var items := Cons(head, tail);
    assert Print(Arr(items)) == "[" + PrintItems(items) && PrintItems(items) == Print(head) + comma + PrintItems(tail);
    Join(Print(head), comma, PrintItems(tail));
    if tail.Nil? {
      assert comma + PrintItems(tail) == "]";
    } else {
      assert Encode(Arr(tail))[1..] == PrintItems(tail);
    }
  }

  /** Fields stand in braces, separated by commas, each with its quoted key, a colon and its value. */
  lemma ObjectText(key: string, value: Value, rest: Fields)
    ensures rest.End? ==> Encode(Obj(Field(key, value, rest))) == "{" + (Encode(Str(key)) + ":" + Encode(value) + "}")
    ensures rest.Field? ==> Encode(Obj(Field(key, value, rest))) == "{" + (Encode(Str(key)) + ":" + Encode(value) + ("," + Encode(Obj(rest))[1..]))
  {
    var comma := if rest.End? then "" else ",";
    var fields := Field(key, value, rest);
    assert Print(Obj(fields)) == "{" + PrintFields(fields) && PrintFields(fields) == Quote(key) + ":" + Print(value) + comma + PrintFields(rest);
    Join(Quote(key) + ":" + Print(value), comma, PrintFields(rest));
    if rest.End? {
      assert comma + PrintFields(rest) == "}";
    } else {
      assert Encode(Obj(rest))[1..] == PrintFields(rest);
    }
  }

  lemma BigTextVerbatim(n: int)
    ensures Escape(BigText(n)) == IntText(n) + "n"
  {
    BigTextShape(n);
    BigTextPlain(BigText(n));
    PlainPrintsVerbatim(BigText(n));
  }

  /** Digits count in tens from the left, so the text of a number is its decimal form. */
  lemma DigitsLaw(n: nat)
    ensures n < 10 ==> IntText(n) == ["0123456789"[n]]
    ensures n >= 10 ==> IntText(n) == IntText(n / 10) + IntText(n % 10)
    ensures n > 0 ==> IntText(0 - n) == "-" + IntText(n)
  {
  }
}
