/** JSON values, their text, and the bounded parser (src/json.cpp; grammar of sections 4 to 7 of RFC 8259). */
module JsonText {
  import opened Bytes
  import opened Hex
  import Ids
  import Values

  /** Numbers are the 64 bits of a double. */
  datatype Json =
    | Null
    | Bool(flag: bool)
    | Number(bits: u64)
    | Str(text: Text)
    | Array(items: seq<Json>)
    | Object(members: seq<Member>)

  datatype Member = Member(name: Text, value: Json)

  datatype JsonLimits = JsonLimits(
    maxInputBytes: nat,
    maxDepth: nat,
    maxNodes: nat,
    maxStringBytes: nat,
    maxObjectMembers: nat,
    maxArrayElements: nat)

  /** The library's printing and scanning of doubles. */
  datatype Numbers = Numbers(show: u64 -> Text, scan: Text -> Result<u64>)

  const QUOTE: byte := 34
  const COMMA: byte := 44
  const MINUS: byte := 45
  const POINT: byte := 46
  const COLON: byte := 58
  const OPEN_ARRAY: byte := 91
  const BACKSLASH: byte := 92
  const CLOSE_ARRAY: byte := 93
  const LETTER_U: byte := 117
  const OPEN_OBJECT: byte := 123
  const CLOSE_OBJECT: byte := 125
  const NEWLINE: byte := 10
  const SPACE: byte := 32

  // ---- writing ----

  function EscapeByte(c: byte): Text {
    if c == QUOTE then [BACKSLASH, QUOTE]
    else if c == BACKSLASH then [BACKSLASH, BACKSLASH]
    else if c == 8 then [BACKSLASH, 98]
    else if c == 12 then [BACKSLASH, 102]
    else if c == 10 then [BACKSLASH, 110]
    else if c == 13 then [BACKSLASH, 114]
    else if c == 9 then [BACKSLASH, 116]
    else if c < 0x20 then [BACKSLASH, LETTER_U, 48, 48, Values.HEX_DIGITS[c / 16], Values.HEX_DIGITS[c % 16]]
    else [c]
  }

  function Escaped(t: Text): Text { if t == [] then [] else Escaped(t[..|t| - 1]) + EscapeByte(t[|t| - 1]) }

  function Quoted(t: Text): Text { [QUOTE] + Escaped(t) + [QUOTE] }

  function Pad(pretty: bool, level: nat): Text { if pretty then [NEWLINE] + seq(level * 2, _ => SPACE) else [] }

  function Write(n: Numbers, v: Json, pretty: bool, indent: nat): Text
    decreases v
  {
    match v
    case Null => Ascii("null")
    case Bool(b) => if b then Ascii("true") else Ascii("false")
    case Number(bits) => n.show(bits)
    case Str(t) => Quoted(t)
    case Array(items) =>
      if items == [] then Ascii("[]")
      else [OPEN_ARRAY] + WriteItems(n, items, pretty, indent + 1) + Pad(pretty, indent) + [CLOSE_ARRAY]
    case Object(members) =>
      if members == [] then Ascii("{}")
      else [OPEN_OBJECT] + WriteMembers(n, members, pretty, indent + 1) + Pad(pretty, indent) + [CLOSE_OBJECT]
  }

  function WriteItems(n: Numbers, items: seq<Json>, pretty: bool, indent: nat): Text
    decreases items
  {
    if items == [] then []
    else
      WriteItems(n, items[..|items| - 1], pretty, indent) + (if |items| == 1 then [] else [COMMA]) + Pad(pretty, indent)
      + Write(n, items[|items| - 1], pretty, indent)
  }

  function WriteMember(n: Numbers, m: Member, pretty: bool, indent: nat): Text
    decreases m
  {
    Quoted(m.name) + [COLON] + (if pretty then [SPACE] else []) + Write(n, m.value, pretty, indent)
  }

  function WriteMembers(n: Numbers, members: seq<Member>, pretty: bool, indent: nat): Text
    decreases members
  {
    if members == [] then []
    else
      WriteMembers(n, members[..|members| - 1], pretty, indent) + (if |members| == 1 then [] else [COMMA]) + Pad(pretty, indent)
      + WriteMember(n, members[|members| - 1], pretty, indent)
  }

  // ---- reading: lexical parts ----

  predicate IsSpace(c: byte) { c == 32 || c == 9 || c == 10 || c == 13 }

  function Skip(s: Text): (r: Text)
    ensures |r| <= |s|
    ensures r != [] ==> !IsSpace(r[0])
  {
    if s != [] && IsSpace(s[0]) then Skip(s[1..]) else s
  }

  predicate IsDigit(c: byte) { 48 <= c <= 57 }

  predicate StartsDigit(s: Text) { s != [] && IsDigit(s[0]) }

  function Digits(s: Text): (k: nat)
    ensures k <= |s|
    ensures k > 0 <==> StartsDigit(s)
  {
    if StartsDigit(s) then 1 + Digits(s[1..]) else 0
  }

  /** The length of the number token at the front of s, or why there is none. */
  function FractionLength(s: Text): (r: Result<nat>)
    ensures r.Ok? ==> r.value <= |s|
  {
    if s == [] || s[0] != POINT then Ok(0)
    else if !StartsDigit(s[1..]) then Err(MalformedInput)
    else Ok(1 + Digits(s[1..]))
  }

  function ExponentLength(s: Text): (r: Result<nat>)
    ensures r.Ok? ==> r.value <= |s|
  {
    if s == [] || (s[0] != 101 && s[0] != 69) then Ok(0)
    else
      var sign := if |s| > 1 && (s[1] == 43 || s[1] == MINUS) then 1 else 0;
      if !StartsDigit(s[1 + sign..]) then Err(MalformedInput) else Ok(1 + sign + Digits(s[1 + sign..]))
  }

  function IntegerLength(s: Text): (r: Result<nat>)
    ensures r.Ok? ==> 0 < r.value <= |s|
  {
    var sign := if s != [] && s[0] == MINUS then 1 else 0;
    if !StartsDigit(s[sign..]) then Err(MalformedInput)
    else if s[sign] == 48 then Ok(sign + 1) else Ok(sign + Digits(s[sign..]))
  }

  function NumberLength(s: Text): (r: Result<nat>)
    ensures r.Ok? ==> 0 < r.value <= |s|
  {
    match IntegerLength(s)
    case Err(c) => Err(c)
    case Ok(i) =>
      match FractionLength(s[i..])
      case Err(c) => Err(c)
      case Ok(f) =>
        match ExponentLength(s[i + f..])
        case Err(c) => Err(c)
        case Ok(e) => Ok(i + f + e)
  }

  /** Four hexadecimal digits at position at. */
  function Hex4(s: Text, at: nat): (r: Result<nat>)
    ensures r.Ok? ==> r.value < 0x10000 && at + 4 <= |s|
  {
    if at + 4 > |s| then Err(MalformedInput)
    else
      var a, b, c, d := HexValue(s[at]), HexValue(s[at + 1]), HexValue(s[at + 2]), HexValue(s[at + 3]);
      if a.None? || b.None? || c.None? || d.None? then Err(MalformedInput)
      else Ok(((a.value * 16 + b.value) * 16 + c.value) * 16 + d.value)
  }

  /** Section 3 of RFC 3629. */
  function Utf8(cp: nat): (r: Text)
    requires cp < 0x11_0000
    ensures 1 <= |r| <= 4
  {
    if cp < 0x80 then [cp]
    else if cp < 0x800 then [0xC0 + cp / 0x40, 0x80 + cp % 0x40]
    else if cp < 0x1_0000 then [0xE0 + cp / 0x1000, 0x80 + cp / 0x40 % 0x40, 0x80 + cp % 0x40]
    else [0xF0 + cp / 0x4_0000, 0x80 + cp / 0x1000 % 0x40, 0x80 + cp / 0x40 % 0x40, 0x80 + cp % 0x40]
  }

  datatype Piece = Piece(text: Text, used: nat)

  function UnicodeEscape(s: Text): (r: Result<Piece>)
    ensures r.Ok? ==> 2 <= r.value.used <= |s|
  {
    match Hex4(s, 2)
    case Err(c) => Err(c)
    case Ok(code) =>
      if 0xD800 <= code <= 0xDBFF then
        if |s| < 8 || s[6] != BACKSLASH || s[7] != LETTER_U then Err(MalformedInput)
        else match Hex4(s, 8)
          case Err(c) => Err(c)
          case Ok(low) =>
            if low < 0xDC00 || low > 0xDFFF then Err(MalformedInput)
            else Ok(Piece(Utf8(0x1_0000 + (code - 0xD800) * 0x400 + (low - 0xDC00)), 12))
      else if 0xDC00 <= code <= 0xDFFF then Err(MalformedInput)
      else Ok(Piece(Utf8(code), 6))
  }

  /** The escape at the front of s, which starts with a backslash. */
  function EscapeAt(s: Text): (r: Result<Piece>)
    ensures r.Ok? ==> 2 <= r.value.used <= |s|
  {
    if |s| < 2 then Err(MalformedInput)
    else
      var c := s[1];
      if c == QUOTE || c == BACKSLASH || c == 47 then Ok(Piece([c], 2))
      else if c == 98 then Ok(Piece([8], 2))
      else if c == 102 then Ok(Piece([12], 2))
      else if c == 110 then Ok(Piece([10], 2))
      else if c == 114 then Ok(Piece([13], 2))
      else if c == 116 then Ok(Piece([9], 2))
      else if c == LETTER_U then UnicodeEscape(s)
      else Err(MalformedInput)
  }

  /** One step inside a string: an escape, or a byte that stands for itself. */
  function CharAt(s: Text): (r: Result<Piece>)
    requires s != []
    ensures r.Ok? ==> 1 <= r.value.used <= |s|
  {
    if s[0] == BACKSLASH then EscapeAt(s)
    else if s[0] < 0x20 then Err(MalformedInput)
    else Ok(Piece([s[0]], 1))
  }

  datatype Lexed = Lexed(text: Text, rest: Text)

  /** The rest of a string after its opening quote. */
  function ReadString(max: nat, s: Text, done: Text): (r: Result<Lexed>)
    ensures r.Ok? ==> |r.value.rest| < |s|
    decreases |s|
  {
    if s == [] then Err(MalformedInput)
    else if s[0] == QUOTE then Ok(Lexed(done, s[1..]))
    else match CharAt(s)
      case Err(c) => Err(c)
      case Ok(p) => if |done + p.text| > max then Err(TooLarge) else ReadString(max, s[p.used..], done + p.text)
  }

  // ---- reading: values ----

  datatype Got<+T> = Got(value: T, rest: Text, nodes: nat)

  predicate StartsWith(s: Text, literal: Text) { |literal| <= |s| && s[..|literal|] == literal }

  function ReadLiteral(s: Text, literal: Text, v: Json, nodes: nat): (r: Result<Got<Json>>)
    ensures r.Ok? && literal != [] ==> |r.value.rest| < |s|
  {
    if StartsWith(s, literal) then Ok(Got(v, s[|literal|..], nodes)) else Err(MalformedInput)
  }

  function ReadNumber(n: Numbers, s: Text, nodes: nat): (r: Result<Got<Json>>)
    ensures r.Ok? ==> |r.value.rest| < |s|
  {
    match NumberLength(s)
    case Err(c) => Err(c)
    case Ok(k) =>
      match n.scan(s[..k])
      case Err(c) => Err(c)
      case Ok(bits) => Ok(Got(Number(bits), s[k..], nodes))
  }

  function ReadValue(n: Numbers, l: JsonLimits, depth: nat, s: Text, nodes: nat): (r: Result<Got<Json>>)
    ensures r.Ok? ==> |r.value.rest| < |s|
    decreases |s|, 0
  {
    if depth > l.maxDepth then Err(DepthExceeded)
    else if nodes + 1 > l.maxNodes then Err(TooLarge)
    else if s == [] then Err(MalformedInput)
    else if s[0] == OPEN_OBJECT then ReadObject(n, l, depth, s[1..], nodes + 1)
    else if s[0] == OPEN_ARRAY then ReadArray(n, l, depth, s[1..], nodes + 1)
    else if s[0] == QUOTE then
      match ReadString(l.maxStringBytes, s[1..], [])
      case Err(c) => Err(c)
      case Ok(x) => Ok(Got(Str(x.text), x.rest, nodes + 1))
    else if s[0] == 116 then ReadLiteral(s, Ascii("true"), Bool(true), nodes + 1)
    else if s[0] == 102 then ReadLiteral(s, Ascii("false"), Bool(false), nodes + 1)
    else if s[0] == 110 then ReadLiteral(s, Ascii("null"), Null, nodes + 1)
    else ReadNumber(n, s, nodes + 1)
  }

  function ReadArray(n: Numbers, l: JsonLimits, depth: nat, s: Text, nodes: nat): (r: Result<Got<Json>>)
    ensures r.Ok? ==> |r.value.rest| < |s|
    decreases |s|, 2
  {
    var t := Skip(s);
    if t != [] && t[0] == CLOSE_ARRAY then Ok(Got(Array([]), t[1..], nodes)) else ReadItems(n, l, depth, t, nodes, [])
  }

  function ReadItems(n: Numbers, l: JsonLimits, depth: nat, s: Text, nodes: nat, done: seq<Json>): (r: Result<Got<Json>>)
    ensures r.Ok? ==> |r.value.rest| < |s|
    decreases |s|, 1
  {
    match ReadValue(n, l, depth + 1, Skip(s), nodes)
    case Err(c) => Err(c)
    case Ok(g) =>
      var items := done + [g.value];
      if |items| > l.maxArrayElements then Err(TooLarge)
      else
        var t := Skip(g.rest);
        if t == [] then Err(MalformedInput)
        else if t[0] == COMMA then ReadItems(n, l, depth, t[1..], g.nodes, items)
        else if t[0] == CLOSE_ARRAY then Ok(Got(Array(items), t[1..], g.nodes))
        else Err(MalformedInput)
  }

  function ReadObject(n: Numbers, l: JsonLimits, depth: nat, s: Text, nodes: nat): (r: Result<Got<Json>>)
    ensures r.Ok? ==> |r.value.rest| < |s|
    decreases |s|, 2
  {
    var t := Skip(s);
    if t != [] && t[0] == CLOSE_OBJECT then Ok(Got(Object([]), t[1..], nodes)) else ReadMembers(n, l, depth, t, nodes, [])
  }

  /** A key and its colon. */
  function ReadKey(l: JsonLimits, s: Text): (r: Result<Lexed>)
    ensures r.Ok? ==> |r.value.rest| < |s|
  {
    var t := Skip(s);
    if t == [] || t[0] != QUOTE then Err(MalformedInput)
    else match ReadString(l.maxStringBytes, t[1..], [])
      case Err(c) => Err(c)
      case Ok(x) =>
        var u := Skip(x.rest);
        if u == [] || u[0] != COLON then Err(MalformedInput) else Ok(Lexed(x.text, u[1..]))
  }

  function ReadMembers(n: Numbers, l: JsonLimits, depth: nat, s: Text, nodes: nat, done: seq<Member>): (r: Result<Got<Json>>)
    ensures r.Ok? ==> |r.value.rest| < |s|
    decreases |s|, 1
  {
    match ReadKey(l, s)
    case Err(c) => Err(c)
    case Ok(key) =>
      match ReadValue(n, l, depth + 1, Skip(key.rest), nodes)
      case Err(c) => Err(c)
      case Ok(g) =>
        var members := done + [Member(key.text, g.value)];
        if |members| > l.maxObjectMembers then Err(TooLarge)
        else
          var t := Skip(g.rest);
          if t == [] then Err(MalformedInput)
          else if t[0] == COMMA then ReadMembers(n, l, depth, t[1..], g.nodes, members)
          else if t[0] == CLOSE_OBJECT then Ok(Got(Object(members), t[1..], g.nodes))
          else Err(MalformedInput)
  }

  /** parse_json: one value, nothing but whitespace around it. */
  function Parse(n: Numbers, l: JsonLimits, input: Text): Result<Json> {
    if |input| > l.maxInputBytes then Err(TooLarge)
    else match ReadValue(n, l, 0, Skip(input), 0)
      case Err(c) => Err(c)
      case Ok(g) => if Skip(g.rest) != [] then Err(MalformedInput) else Ok(g.value)
  }

  // ---- which values can make the trip ----

  /** The library prints this double as one JSON number and scans it back. */
  ghost predicate GoodNumber(n: Numbers, bits: u64) {
    NumberLength(n.show(bits)) == Ok(|n.show(bits)|) && n.scan(n.show(bits)) == Ok(bits)
  }

  function Depth(v: Json): nat
    decreases v
  {
    match v
    case Array(items) => ItemsDepth(items)
    case Object(members) => MembersDepth(members)
    case _ => 0
  }

  function ItemsDepth(items: seq<Json>): nat
    decreases items
  {
    if items == [] then 0 else Max(ItemsDepth(items[..|items| - 1]), Depth(items[|items| - 1]) + 1)
  }

  function MembersDepth(members: seq<Member>): nat
    decreases members
  {
    if members == [] then 0 else Max(MembersDepth(members[..|members| - 1]), Depth(members[|members| - 1].value) + 1)
  }

  function Nodes(v: Json): (k: nat)
    ensures k >= 1
    decreases v
  {
    match v
    case Array(items) => 1 + ItemsNodes(items)
    case Object(members) => 1 + MembersNodes(members)
    case _ => 1
  }

  function ItemsNodes(items: seq<Json>): nat
    decreases items
  {
    if items == [] then 0 else ItemsNodes(items[..|items| - 1]) + Nodes(items[|items| - 1])
  }

  function MembersNodes(members: seq<Member>): nat
    decreases members
  {
    if members == [] then 0 else MembersNodes(members[..|members| - 1]) + Nodes(members[|members| - 1].value)
  }

  /** Strings, arrays and objects within the limits, and numbers the library can carry. */
  ghost predicate Carried(n: Numbers, l: JsonLimits, v: Json)
    decreases v
  {
    match v
    case Number(bits) => GoodNumber(n, bits)
    case Str(t) => |t| <= l.maxStringBytes
    case Array(items) =>
      |items| <= l.maxArrayElements && forall i :: 0 <= i < |items| ==> Carried(n, l, items[i])
    case Object(members) =>
      && |members| <= l.maxObjectMembers
      && forall i :: 0 <= i < |members| ==> |members[i].name| <= l.maxStringBytes && Carried(n, l, members[i].value)
    case _ => true
  }

  // ---- strings ----

  lemma EscapedByteReads(c: byte, rest: Text)
    ensures var s := EscapeByte(c) + rest;
            s != [] && s[0] != QUOTE && CharAt(s) == Ok(Piece([c], |EscapeByte(c)|)) && s[|EscapeByte(c)|..] == rest
  {
    hide HexValue;
    var s := EscapeByte(c) + rest;
    assert s[|EscapeByte(c)|..] == rest;
    if c < 0x20 && c != 8 && c != 12 && c != 10 && c != 13 && c != 9 {
      assert s[2] == 48 && s[3] == 48 && s[4] == Values.HEX_DIGITS[c / 16] && s[5] == Values.HEX_DIGITS[c % 16];
      HexDigitValue(0);
      HexDigitValue(c / 16);
      HexDigitValue(c % 16);
      assert Hex4(s, 2) == Ok(c);
    }
  }

  lemma {:induction false} EscapedFromFront(c: byte, t: Text)
    ensures Escaped([c] + t) == EscapeByte(c) + Escaped(t)
  {
    hide EscapeByte;
    if t == [] {
      assert [c] + t == [c] && [c][..0] == [];
      assert Escaped([]) == [];
    } else {
      EscapedFromFront(c, t[..|t| - 1]);
      assert ([c] + t)[..|t|] == [c] + t[..|t| - 1];
    }
  }

  /** Reading an escaped string gives the string back, whatever bytes it is made of. */
  lemma {:induction false} ReadEscaped(max: nat, t: Text, done: Text, rest: Text)
    requires |done| + |t| <= max
    ensures ReadString(max, Escaped(t) + [QUOTE] + rest, done) == Ok(Lexed(done + t, rest))
    decreases |t|
  {
    hide EscapeByte, CharAt;
    var s := Escaped(t) + [QUOTE] + rest;
    if t == [] {
      assert s == [QUOTE] + rest;
      assert done + t == done;
    } else {
      var c, tail := t[0], t[1..];
      assert t == [c] + tail;
      EscapedFromFront(c, tail);
      var after := Escaped(tail) + [QUOTE] + rest;
      assert s == EscapeByte(c) + after;
      EscapedByteReads(c, after);
      ReadEscaped(max, tail, done + [c], rest);
      assert done + [c] + tail == done + t;
    }
  }

  // ---- numbers ----

  /** What may follow a value in written text. */
  predicate Delimited(rest: Text) {
    rest == [] || rest[0] == COMMA || rest[0] == CLOSE_ARRAY || rest[0] == CLOSE_OBJECT || IsSpace(rest[0])
  }

  lemma {:induction false} DigitsExtend(s: Text, rest: Text)
    requires !StartsDigit(rest)
    ensures Digits(s + rest) == Digits(s)
  {
    if s == [] {
      assert s + rest == rest;
    } else if StartsDigit(s) {
      DigitsExtend(s[1..], rest);
      assert (s + rest)[1..] == s[1..] + rest;
    }
  }

  lemma StartsExtend(s: Text, rest: Text)
    requires !StartsDigit(rest)
    ensures StartsDigit(s + rest) == StartsDigit(s)
  {
    if s == [] {
      assert s + rest == rest;
    }
  }

  lemma FractionExtends(s: Text, rest: Text)
    requires FractionLength(s).Ok? && Delimited(rest)
    ensures FractionLength(s + rest) == FractionLength(s)
  {
    if s == [] {
      assert s + rest == rest;
    } else {
      assert (s + rest)[1..] == s[1..] + rest;
      DigitsExtend(s[1..], rest);
      StartsExtend(s[1..], rest);
    }
  }

  lemma ExponentExtends(s: Text, rest: Text)
    requires ExponentLength(s).Ok? && Delimited(rest)
    ensures ExponentLength(s + rest) == ExponentLength(s)
  {
    if s == [] {
      assert s + rest == rest;
    } else if s[0] == 101 || s[0] == 69 {
      assert |s| > 1;
      var sign := if s[1] == 43 || s[1] == MINUS then 1 else 0;
      assert (s + rest)[1 + sign..] == s[1 + sign..] + rest;
      DigitsExtend(s[1 + sign..], rest);
      StartsExtend(s[1 + sign..], rest);
    }
  }

  lemma IntegerExtends(s: Text, rest: Text)
    requires IntegerLength(s).Ok? && Delimited(rest)
    ensures IntegerLength(s + rest) == IntegerLength(s)
  {
    var sign := if s[0] == MINUS then 1 else 0;
    assert (s + rest)[sign..] == s[sign..] + rest;
    DigitsExtend(s[sign..], rest);
    StartsExtend(s[sign..], rest);
  }

  /** A number token is recognised as a whole whatever delimiter follows it. */
  lemma NumberExtends(s: Text, rest: Text)
    requires NumberLength(s).Ok? && Delimited(rest)
    ensures NumberLength(s + rest) == NumberLength(s)
  {
    hide IntegerLength, FractionLength, ExponentLength;
    var i := IntegerLength(s).value;
    IntegerExtends(s, rest);
    assert (s + rest)[i..] == s[i..] + rest;
    FractionExtends(s[i..], rest);
    var f := FractionLength(s[i..]).value;
    assert (s + rest)[i + f..] == s[i + f..] + rest;
    ExponentExtends(s[i + f..], rest);
  }

  lemma NumberStart(s: Text)
    requires NumberLength(s).Ok?
    ensures s != [] && (s[0] == MINUS || IsDigit(s[0]))
  {
  }

  lemma ReadPrinted(n: Numbers, bits: u64, rest: Text, nodes: nat)
    requires GoodNumber(n, bits) && Delimited(rest)
    ensures ReadNumber(n, n.show(bits) + rest, nodes) == Ok(Got(Number(bits), rest, nodes))
  {
    hide NumberLength;
    var s := n.show(bits);
    NumberExtends(s, rest);
    assert (s + rest)[..|s|] == s && (s + rest)[|s|..] == rest;
  }

  // ---- the round trip ----

  /** Written values start with a byte that is not whitespace. */
  lemma WrittenStart(n: Numbers, l: JsonLimits, v: Json, pretty: bool, indent: nat)
    requires Carried(n, l, v)
    ensures var s := Write(n, v, pretty, indent); s != [] && !IsSpace(s[0]) && s[0] != CLOSE_ARRAY && s[0] != CLOSE_OBJECT
  {
    hide WriteItems, WriteMembers, NumberLength, Escaped;
    match v
    case Number(bits) => NumberStart(n.show(bits));
    case _ =>
  }

  lemma {:induction false} SkipSpaces(k: nat, rest: Text)
    requires rest == [] || !IsSpace(rest[0])
    ensures Skip(seq(k, _ => SPACE) + rest) == rest
  {
    var s: Text := seq(k, _ => SPACE);
    if k == 0 {
      assert s + rest == rest;
    } else {
      SkipSpaces(k - 1, rest);
      assert (s + rest)[1..] == seq(k - 1, _ => SPACE) + rest;
    }
  }

  lemma SkipPad(pretty: bool, level: nat, rest: Text)
    requires rest == [] || !IsSpace(rest[0])
    ensures Skip(Pad(pretty, level) + rest) == rest
  {
    if pretty {
      SkipSpaces(level * 2, rest);
      var s := Pad(pretty, level) + rest;
      assert s[1..] == seq(level * 2, _ => SPACE) + rest;
    } else {
      assert Pad(pretty, level) + rest == rest;
    }
  }

  lemma PadDelimits(pretty: bool, level: nat, close: byte, rest: Text)
    requires close == CLOSE_ARRAY || close == CLOSE_OBJECT
    ensures Delimited(Pad(pretty, level) + [close] + rest)
  {
  }

  /** The text of items from position k on, up to and including the closing bracket. */
  function ItemsFrom(n: Numbers, items: seq<Json>, k: nat, pretty: bool, indent: nat): Text
    requires k <= |items|
    decreases |items| - k
  {
    if k == |items| then []
    else (if k == 0 then [] else [COMMA]) + Pad(pretty, indent) + Write(n, items[k], pretty, indent)
         + ItemsFrom(n, items, k + 1, pretty, indent)
  }

  function MembersFrom(n: Numbers, members: seq<Member>, k: nat, pretty: bool, indent: nat): Text
    requires k <= |members|
    decreases |members| - k
  {
    if k == |members| then []
    else (if k == 0 then [] else [COMMA]) + Pad(pretty, indent) + WriteMember(n, members[k], pretty, indent)
         + MembersFrom(n, members, k + 1, pretty, indent)
  }

  lemma {:induction false} ItemsAreSplit(n: Numbers, items: seq<Json>, k: nat, pretty: bool, indent: nat)
    requires k <= |items|
    ensures WriteItems(n, items, pretty, indent) == WriteItems(n, items[..k], pretty, indent) + ItemsFrom(n, items, k, pretty, indent)
    decreases |items| - k
  {
    hide Write, Pad;
    if k == |items| {
      assert items[..k] == items;
    } else {
      ItemsAreSplit(n, items, k + 1, pretty, indent);
      assert items[..k + 1][..k] == items[..k];
      var a, c, p, v := WriteItems(n, items[..k], pretty, indent), (if k == 0 then [] else [COMMA]), Pad(pretty, indent),
                        Write(n, items[k], pretty, indent);
      assert WriteItems(n, items[..k + 1], pretty, indent) == a + c + p + v;
      assert a + c + p + v + ItemsFrom(n, items, k + 1, pretty, indent) == a + (c + p + v + ItemsFrom(n, items, k + 1, pretty, indent));
    }
  }

  lemma {:induction false} MembersAreSplit(n: Numbers, members: seq<Member>, k: nat, pretty: bool, indent: nat)
    requires k <= |members|
    ensures WriteMembers(n, members, pretty, indent)
         == WriteMembers(n, members[..k], pretty, indent) + MembersFrom(n, members, k, pretty, indent)
    decreases |members| - k
  {
    hide WriteMember, Pad;
    if k == |members| {
      assert members[..k] == members;
    } else {
      MembersAreSplit(n, members, k + 1, pretty, indent);
      assert members[..k + 1][..k] == members[..k];
      var a, c, p, v := WriteMembers(n, members[..k], pretty, indent), (if k == 0 then [] else [COMMA]), Pad(pretty, indent),
                        WriteMember(n, members[k], pretty, indent);
      assert WriteMembers(n, members[..k + 1], pretty, indent) == a + c + p + v;
      assert a + c + p + v + MembersFrom(n, members, k + 1, pretty, indent) == a + (c + p + v + MembersFrom(n, members, k + 1, pretty, indent));
    }
  }

  /** Deeper than any of its items, and at least as many nodes as any prefix of them. */
  lemma {:induction false} ItemsBounds(items: seq<Json>, k: nat)
    requires k < |items|
    ensures Depth(items[k]) + 1 <= ItemsDepth(items)
    ensures ItemsNodes(items[..k + 1]) == ItemsNodes(items[..k]) + Nodes(items[k])
    ensures ItemsNodes(items[..k + 1]) <= ItemsNodes(items)
  {
    hide Depth, Nodes;
    assert items[..k + 1][..k] == items[..k];
    if k < |items| - 1 {
      ItemsBounds(items[..|items| - 1], k);
      assert items[..|items| - 1][..k + 1] == items[..k + 1];
      assert items[..|items| - 1][..k] == items[..k];
    } else {
      assert items[..k + 1] == items;
    }
  }

  lemma {:induction false} MembersBounds(members: seq<Member>, k: nat)
    requires k < |members|
    ensures Depth(members[k].value) + 1 <= MembersDepth(members)
    ensures MembersNodes(members[..k + 1]) == MembersNodes(members[..k]) + Nodes(members[k].value)
    ensures MembersNodes(members[..k + 1]) <= MembersNodes(members)
  {
    hide Depth, Nodes;
    assert members[..k + 1][..k] == members[..k];
    if k < |members| - 1 {
      MembersBounds(members[..|members| - 1], k);
      assert members[..|members| - 1][..k + 1] == members[..k + 1];
      assert members[..|members| - 1][..k] == members[..k];
    } else {
      assert members[..k + 1] == members;
    }
  }

  /** Reading a written value, at any depth, gives the value back and leaves exactly what followed it. */
  lemma {:induction false} ReadWritten(n: Numbers, l: JsonLimits, v: Json, pretty: bool, indent: nat, depth: nat, nodes: nat, rest: Text)
    requires Carried(n, l, v) && depth + Depth(v) <= l.maxDepth && nodes + Nodes(v) <= l.maxNodes && Delimited(rest)
    ensures ReadValue(n, l, depth, Write(n, v, pretty, indent) + rest, nodes) == Ok(Got(v, rest, nodes + Nodes(v)))
    decreases v, 1
  {
    hide ReadValue, WriteItems, WriteMembers, Escaped;
    match v
    case Null => ReadWrittenNull(n, l, depth, nodes, rest);
    case Bool(b) => ReadWrittenBool(n, l, b, depth, nodes, rest);
    case Number(bits) => ReadWrittenNumber(n, l, bits, depth, nodes, rest);
    case Str(t) => ReadWrittenString(n, l, t, depth, nodes, rest);
    case Array(items) => ReadWrittenArray(n, l, items, pretty, indent, depth, nodes, rest);
    case Object(members) => ReadWrittenObject(n, l, members, pretty, indent, depth, nodes, rest);
  }

  lemma ReadWrittenNumber(n: Numbers, l: JsonLimits, bits: u64, depth: nat, nodes: nat, rest: Text)
    requires Carried(n, l, Number(bits)) && depth <= l.maxDepth && nodes + 1 <= l.maxNodes && Delimited(rest)
    ensures ReadValue(n, l, depth, n.show(bits) + rest, nodes) == Ok(Got(Number(bits), rest, nodes + 1))
  {
    hide ReadString, ReadNumber, ReadObject, ReadArray;
    NumberStart(n.show(bits));
    ReadPrinted(n, bits, rest, nodes + 1);
  }

  lemma ReadWrittenString(n: Numbers, l: JsonLimits, t: Text, depth: nat, nodes: nat, rest: Text)
    requires Carried(n, l, Str(t)) && depth <= l.maxDepth && nodes + 1 <= l.maxNodes
    ensures ReadValue(n, l, depth, [QUOTE] + Escaped(t) + [QUOTE] + rest, nodes) == Ok(Got(Str(t), rest, nodes + 1))
  {
    hide ReadString, ReadNumber, ReadObject, ReadArray, Escaped;
    var s := [QUOTE] + Escaped(t) + [QUOTE] + rest;
    assert s[1..] == Escaped(t) + [QUOTE] + rest;
    ReadEscaped(l.maxStringBytes, t, [], rest);
    assert [] + t == t;
  }

  lemma ReadWrittenNull(n: Numbers, l: JsonLimits, depth: nat, nodes: nat, rest: Text)
    requires depth <= l.maxDepth && nodes + 1 <= l.maxNodes
    ensures ReadValue(n, l, depth, Ascii("null") + rest, nodes) == Ok(Got(Null, rest, nodes + 1))
  {
    hide ReadString, ReadNumber, ReadObject, ReadArray;
    var s := Ascii("null") + rest;
    assert s[..4] == Ascii("null") && s[4..] == rest;
  }

  lemma ReadWrittenBool(n: Numbers, l: JsonLimits, b: bool, depth: nat, nodes: nat, rest: Text)
    requires depth <= l.maxDepth && nodes + 1 <= l.maxNodes
    ensures ReadValue(n, l, depth, (if b then Ascii("true") else Ascii("false")) + rest, nodes) == Ok(Got(Bool(b), rest, nodes + 1))
  {
    hide ReadString, ReadNumber, ReadObject, ReadArray;
    var s := (if b then Ascii("true") else Ascii("false")) + rest;
    if b {
      assert s[..4] == Ascii("true") && s[4..] == rest;
    } else {
      assert s[..5] == Ascii("false") && s[5..] == rest;
    }
  }

  lemma {:induction false} ReadWrittenArray(n: Numbers, l: JsonLimits, items: seq<Json>, pretty: bool, indent: nat, depth: nat, nodes: nat, rest: Text)
    requires Carried(n, l, Array(items)) && depth + ItemsDepth(items) <= l.maxDepth && nodes + 1 + ItemsNodes(items) <= l.maxNodes
    ensures ReadValue(n, l, depth, Write(n, Array(items), pretty, indent) + rest, nodes)
         == Ok(Got(Array(items), rest, nodes + 1 + ItemsNodes(items)))
    decreases items, 2
  {
    hide WriteItems, Pad, ReadItems, ItemsNodes, ItemsDepth, Skip, ItemsFrom;
    var s := Write(n, Array(items), pretty, indent) + rest;
    if items == [] {
      assert s[1..] == [CLOSE_ARRAY] + rest;
      SkipNothing([CLOSE_ARRAY] + rest);
      NoItems();
    } else {
      var tail := Pad(pretty, indent) + [CLOSE_ARRAY] + rest;
      assert s[1..] == WriteItems(n, items, pretty, indent + 1) + tail;
      ItemsAreSplit(n, items, 0, pretty, indent + 1);
      assert items[..0] == [];
      FirstItem(n, l, items, pretty, indent + 1, tail);
      NoItems();
      RegroupMiddle(Write(n, items[0], pretty, indent + 1) + ItemsFrom(n, items, 1, pretty, indent + 1), Pad(pretty, indent), [CLOSE_ARRAY], rest);
      ReadWrittenItems(n, l, items, 0, pretty, indent, depth, nodes + 1, rest);
    }
  }

  lemma NoItems()
    ensures ItemsNodes([]) == 0 && MembersNodes([]) == 0
  {
  }

  lemma SkipNothing(s: Text)
    requires s == [] || !IsSpace(s[0])
    ensures Skip(s) == s
  {
  }

  /** What the array reader sees after its opening bracket: the first item, past any padding. */
  lemma FirstItem(n: Numbers, l: JsonLimits, items: seq<Json>, pretty: bool, indent: nat, tail: Text)
    requires items != [] && Carried(n, l, items[0])
    ensures var s := WriteItems(n, items, pretty, indent) + tail;
            var t := Write(n, items[0], pretty, indent) + ItemsFrom(n, items, 1, pretty, indent) + tail;
            Skip(s) == t && t != [] && t[0] != CLOSE_ARRAY && !IsSpace(t[0])
  {
    hide Write, Pad, Carried, ItemsFrom;
    ItemsAreSplit(n, items, 0, pretty, indent);
    assert items[..0] == [] && WriteItems(n, [], pretty, indent) == [];
    WrittenStart(n, l, items[0], pretty, indent);
    var t := Write(n, items[0], pretty, indent) + ItemsFrom(n, items, 1, pretty, indent) + tail;
    FirstSplit(n, items, pretty, indent);
    assert WriteItems(n, items, pretty, indent) + tail == Pad(pretty, indent) + t;
    SkipPad(pretty, indent, t);
  }

  lemma FirstSplit(n: Numbers, items: seq<Json>, pretty: bool, indent: nat)
    requires items != []
    ensures ItemsFrom(n, items, 0, pretty, indent)
         == Pad(pretty, indent) + Write(n, items[0], pretty, indent) + ItemsFrom(n, items, 1, pretty, indent)
  {
    hide Write, Pad;
  }

  /** The item loop from position k, standing at the start of item k. */
  lemma {:induction false} ReadWrittenItems(n: Numbers, l: JsonLimits, items: seq<Json>, k: nat, pretty: bool, indent: nat, depth: nat, nodes: nat, rest: Text)
    requires k < |items| && Carried(n, l, Array(items))
    requires depth + ItemsDepth(items) <= l.maxDepth
    requires nodes >= ItemsNodes(items[..k]) && nodes - ItemsNodes(items[..k]) + ItemsNodes(items) <= l.maxNodes
    ensures var s := Write(n, items[k], pretty, indent + 1) + ItemsFrom(n, items, k + 1, pretty, indent + 1) + Pad(pretty, indent) + [CLOSE_ARRAY] + rest;
            ReadItems(n, l, depth, s, nodes, items[..k])
            == Ok(Got(Array(items), rest, nodes - ItemsNodes(items[..k]) + ItemsNodes(items)))
    decreases items, 1, |items| - k
  {
    hide Write, Pad, ItemsNodes, ItemsDepth, Skip, ReadValue, ItemsFrom;
    ItemsBounds(items, k);
    var v := items[k];
    var tail := Pad(pretty, indent) + [CLOSE_ARRAY] + rest;
    var after := ItemsFrom(n, items, k + 1, pretty, indent + 1) + tail;
    var s := Write(n, v, pretty, indent + 1) + ItemsFrom(n, items, k + 1, pretty, indent + 1) + Pad(pretty, indent) + [CLOSE_ARRAY] + rest;
    RegroupTail(Write(n, v, pretty, indent + 1), ItemsFrom(n, items, k + 1, pretty, indent + 1), Pad(pretty, indent), [CLOSE_ARRAY], rest);
    AfterItem(n, items, k, pretty, indent + 1, indent, rest);
    WrittenStart(n, l, v, pretty, indent + 1);
    SkipNothing(s);
    ReadWritten(n, l, v, pretty, indent + 1, depth + 1, nodes, after);
    assert items[..k] + [v] == items[..k + 1];
    if k + 1 == |items| {
      assert items[..k + 1] == items;
    } else {
      var next := Write(n, items[k + 1], pretty, indent + 1) + ItemsFrom(n, items, k + 2, pretty, indent + 1) + Pad(pretty, indent) + [CLOSE_ARRAY] + rest;
      WrittenStart(n, l, items[k + 1], pretty, indent + 1);
      NextItem(n, l, items, k + 1, pretty, indent + 1, tail);
      RegroupTail(Write(n, items[k + 1], pretty, indent + 1), ItemsFrom(n, items, k + 2, pretty, indent + 1), Pad(pretty, indent),
                  [CLOSE_ARRAY], rest);
      ReadItemsSkips(n, l, depth, Pad(pretty, indent + 1) + next, next, nodes + Nodes(v), items[..k + 1]);
      ReadWrittenItems(n, l, items, k + 1, pretty, indent, depth, nodes + Nodes(v), rest);
    }
  }

  lemma RegroupTail(a: Text, b: Text, c: Text, d: Text, e: Text)
    ensures a + b + c + d + e == a + (b + (c + d + e)) == a + b + (c + d + e)
  {
  }

  /** The loop reads on from the next non-blank byte, so leading padding makes no difference to it. */
  lemma ReadItemsSkips(n: Numbers, l: JsonLimits, depth: nat, s: Text, t: Text, nodes: nat, done: seq<Json>)
    requires Skip(s) == t && (t == [] || !IsSpace(t[0]))
    ensures ReadItems(n, l, depth, s, nodes, done) == ReadItems(n, l, depth, t, nodes, done)
  {
    hide Skip, ReadValue;
    SkipNothing(t);
  }

  lemma AfterItem(n: Numbers, items: seq<Json>, k: nat, pretty: bool, indent: nat, outer: nat, rest: Text)
    requires k < |items|
    ensures var after := ItemsFrom(n, items, k + 1, pretty, indent) + (Pad(pretty, outer) + [CLOSE_ARRAY] + rest);
            && Delimited(after)
            && (k + 1 == |items| ==> Skip(after) == [CLOSE_ARRAY] + rest)
            && (k + 1 < |items| ==> after != [] && after[0] == COMMA && Skip(after) == after)
  {
    hide Write, Pad, Skip;
    var tail := Pad(pretty, outer) + [CLOSE_ARRAY] + rest;
    var after := ItemsFrom(n, items, k + 1, pretty, indent) + tail;
    if k + 1 == |items| {
      assert after == tail;
      assert tail == Pad(pretty, outer) + ([CLOSE_ARRAY] + rest);
      PadDelimits(pretty, outer, CLOSE_ARRAY, rest);
      SkipPad(pretty, outer, [CLOSE_ARRAY] + rest);
    } else {
      assert after[0] == COMMA;
      SkipNothing(after);
    }
  }

  lemma NextItem(n: Numbers, l: JsonLimits, items: seq<Json>, k: nat, pretty: bool, indent: nat, tail: Text)
    requires 0 < k < |items| && Carried(n, l, items[k])
    ensures var after := ItemsFrom(n, items, k, pretty, indent) + tail;
            var t := Write(n, items[k], pretty, indent) + ItemsFrom(n, items, k + 1, pretty, indent) + tail;
            && after != [] && after[0] == COMMA && after[1..] == Pad(pretty, indent) + t && Skip(Pad(pretty, indent) + t) == t
  {
    hide Write, Pad, Carried;
    WrittenStart(n, l, items[k], pretty, indent);
    var t := Write(n, items[k], pretty, indent) + ItemsFrom(n, items, k + 1, pretty, indent) + tail;
    var after := ItemsFrom(n, items, k, pretty, indent) + tail;
    assert after == [COMMA] + (Pad(pretty, indent) + t);
    SkipPad(pretty, indent, t);
  }

  lemma ReadWrittenKey(l: JsonLimits, name: Text, rest: Text)
    requires |name| <= l.maxStringBytes
    ensures ReadKey(l, Quoted(name) + [COLON] + rest) == Ok(Lexed(name, rest))
  {
    hide Escaped, ReadString;
    var s := Quoted(name) + [COLON] + rest;
    assert s[0] == QUOTE;
    SkipNothing(s);
    assert s[1..] == Escaped(name) + [QUOTE] + ([COLON] + rest);
    ReadEscaped(l.maxStringBytes, name, [], [COLON] + rest);
    assert [] + name == name;
    SkipNothing([COLON] + rest);
  }

  lemma {:induction false} ReadWrittenObject(n: Numbers, l: JsonLimits, members: seq<Member>, pretty: bool, indent: nat, depth: nat, nodes: nat, rest: Text)
    requires Carried(n, l, Object(members)) && depth + MembersDepth(members) <= l.maxDepth && nodes + 1 + MembersNodes(members) <= l.maxNodes
    ensures ReadValue(n, l, depth, Write(n, Object(members), pretty, indent) + rest, nodes)
         == Ok(Got(Object(members), rest, nodes + 1 + MembersNodes(members)))
    decreases members, 2
  {
    hide WriteMembers, Pad, ReadMembers, MembersNodes, MembersDepth, Skip, MembersFrom, WriteMember;
    var s := Write(n, Object(members), pretty, indent) + rest;
    if members == [] {
      assert s[1..] == [CLOSE_OBJECT] + rest;
      SkipNothing([CLOSE_OBJECT] + rest);
      NoItems();
    } else {
      var tail := Pad(pretty, indent) + [CLOSE_OBJECT] + rest;
      assert s[1..] == WriteMembers(n, members, pretty, indent + 1) + tail;
      assert members[..0] == [];
      FirstMember(n, members, pretty, indent + 1, tail);
      NoItems();
      RegroupMiddle(WriteMember(n, members[0], pretty, indent + 1) + MembersFrom(n, members, 1, pretty, indent + 1), Pad(pretty, indent), [CLOSE_OBJECT], rest);
      ReadWrittenMembers(n, l, members, 0, pretty, indent, depth, nodes + 1, rest);
    }
  }

  lemma MemberStart(n: Numbers, m: Member, pretty: bool, indent: nat)
    ensures var s := WriteMember(n, m, pretty, indent); s != [] && s[0] == QUOTE
  {
    hide Write, Escaped;
  }

  lemma FirstMember(n: Numbers, members: seq<Member>, pretty: bool, indent: nat, tail: Text)
    requires members != []
    ensures var s := WriteMembers(n, members, pretty, indent) + tail;
            var t := WriteMember(n, members[0], pretty, indent) + MembersFrom(n, members, 1, pretty, indent) + tail;
            Skip(s) == t && t != [] && t[0] == QUOTE
  {
    hide WriteMember, Pad, MembersFrom;
    MembersAreSplit(n, members, 0, pretty, indent);
    assert members[..0] == [] && WriteMembers(n, [], pretty, indent) == [];
    MemberStart(n, members[0], pretty, indent);
    var t := WriteMember(n, members[0], pretty, indent) + MembersFrom(n, members, 1, pretty, indent) + tail;
    FirstMemberSplit(n, members, pretty, indent);
    assert WriteMembers(n, members, pretty, indent) + tail == Pad(pretty, indent) + t;
    SkipPad(pretty, indent, t);
  }

  lemma FirstMemberSplit(n: Numbers, members: seq<Member>, pretty: bool, indent: nat)
    requires members != []
    ensures MembersFrom(n, members, 0, pretty, indent)
         == Pad(pretty, indent) + WriteMember(n, members[0], pretty, indent) + MembersFrom(n, members, 1, pretty, indent)
  {
    hide WriteMember, Pad;
  }

  /** The member loop from position k, standing at the start of member k. */
  lemma {:induction false} ReadWrittenMembers(n: Numbers, l: JsonLimits, members: seq<Member>, k: nat, pretty: bool, indent: nat, depth: nat, nodes: nat, rest: Text)
    requires k < |members| && Carried(n, l, Object(members))
    requires depth + MembersDepth(members) <= l.maxDepth
    requires nodes >= MembersNodes(members[..k]) && nodes - MembersNodes(members[..k]) + MembersNodes(members) <= l.maxNodes
    ensures var s := WriteMember(n, members[k], pretty, indent + 1) + MembersFrom(n, members, k + 1, pretty, indent + 1) + Pad(pretty, indent) + [CLOSE_OBJECT] + rest;
            ReadMembers(n, l, depth, s, nodes, members[..k])
            == Ok(Got(Object(members), rest, nodes - MembersNodes(members[..k]) + MembersNodes(members)))
    decreases members, 1, |members| - k
  {
    hide Write, WriteMember, Pad, MembersNodes, MembersDepth, Skip, ReadValue, ReadKey, MembersFrom, Quoted;
    MembersBounds(members, k);
    var m := members[k];
    var tail := Pad(pretty, indent) + [CLOSE_OBJECT] + rest;
    var after := MembersFrom(n, members, k + 1, pretty, indent + 1) + tail;
    var s := WriteMember(n, m, pretty, indent + 1) + MembersFrom(n, members, k + 1, pretty, indent + 1) + Pad(pretty, indent) + [CLOSE_OBJECT] + rest;
    assert s == WriteMember(n, m, pretty, indent + 1) + after;
    AfterMember(n, members, k, pretty, indent + 1, indent, rest);
    ReadMemberStart(n, l, m, pretty, indent + 1, after);
    ReadWritten(n, l, m.value, pretty, indent + 1, depth + 1, nodes, after);
    assert members[..k] + [m] == members[..k + 1];
    if k + 1 == |members| {
      assert members[..k + 1] == members;
    } else {
      var next := WriteMember(n, members[k + 1], pretty, indent + 1) + MembersFrom(n, members, k + 2, pretty, indent + 1) + Pad(pretty, indent) + [CLOSE_OBJECT] + rest;
      NextMember(n, members, k + 1, pretty, indent + 1, tail);
      assert next == WriteMember(n, members[k + 1], pretty, indent + 1) + MembersFrom(n, members, k + 2, pretty, indent + 1) + tail;
      ReadMembersSkips(n, l, depth, Pad(pretty, indent + 1) + next, next, nodes + Nodes(m.value), members[..k + 1]);
      ReadWrittenMembers(n, l, members, k + 1, pretty, indent, depth, nodes + Nodes(m.value), rest);
    }
  }

  /** A written member: its key, its colon, and then, past at most one blank, its value. */
  lemma ReadMemberStart(n: Numbers, l: JsonLimits, m: Member, pretty: bool, indent: nat, after: Text)
    requires |m.name| <= l.maxStringBytes && Carried(n, l, m.value)
    ensures var s := WriteMember(n, m, pretty, indent) + after;
            var t := Write(n, m.value, pretty, indent) + after;
            ReadKey(l, s).Ok? && ReadKey(l, s).value.text == m.name && Skip(ReadKey(l, s).value.rest) == t
  {
    hide Write, ReadKey, Quoted;
    var t := Write(n, m.value, pretty, indent) + after;
    var gap: Text := if pretty then [SPACE] else [];
    WrittenStart(n, l, m.value, pretty, indent);
    assert WriteMember(n, m, pretty, indent) + after == Quoted(m.name) + [COLON] + (gap + t);
    ReadWrittenKey(l, m.name, gap + t);
    if pretty {
      assert (gap + t)[1..] == t;
    } else {
      assert gap + t == t;
    }
  }

  lemma ReadMembersSkips(n: Numbers, l: JsonLimits, depth: nat, s: Text, t: Text, nodes: nat, done: seq<Member>)
    requires Skip(s) == t && (t == [] || !IsSpace(t[0]))
    ensures ReadMembers(n, l, depth, s, nodes, done) == ReadMembers(n, l, depth, t, nodes, done)
  {
    hide Skip, ReadValue, ReadString;
    SkipNothing(t);
  }

  lemma AfterMember(n: Numbers, members: seq<Member>, k: nat, pretty: bool, indent: nat, outer: nat, rest: Text)
    requires k < |members|
    ensures var after := MembersFrom(n, members, k + 1, pretty, indent) + (Pad(pretty, outer) + [CLOSE_OBJECT] + rest);
            && Delimited(after)
            && (k + 1 == |members| ==> Skip(after) == [CLOSE_OBJECT] + rest)
            && (k + 1 < |members| ==> after != [] && after[0] == COMMA && Skip(after) == after)
  {
    hide WriteMember, Pad, Skip;
    var tail := Pad(pretty, outer) + [CLOSE_OBJECT] + rest;
    var after := MembersFrom(n, members, k + 1, pretty, indent) + tail;
    if k + 1 == |members| {
      assert after == tail;
      assert tail == Pad(pretty, outer) + ([CLOSE_OBJECT] + rest);
      PadDelimits(pretty, outer, CLOSE_OBJECT, rest);
      SkipPad(pretty, outer, [CLOSE_OBJECT] + rest);
    } else {
      assert after[0] == COMMA;
      SkipNothing(after);
    }
  }

  lemma NextMember(n: Numbers, members: seq<Member>, k: nat, pretty: bool, indent: nat, tail: Text)
    requires 0 < k < |members|
    ensures var after := MembersFrom(n, members, k, pretty, indent) + tail;
            var t := WriteMember(n, members[k], pretty, indent) + MembersFrom(n, members, k + 1, pretty, indent) + tail;
            && after != [] && after[0] == COMMA && after[1..] == Pad(pretty, indent) + t && Skip(Pad(pretty, indent) + t) == t
            && t != [] && t[0] == QUOTE
  {
    hide WriteMember, Pad;
    MemberStart(n, members[k], pretty, indent);
    var t := WriteMember(n, members[k], pretty, indent) + MembersFrom(n, members, k + 1, pretty, indent) + tail;
    var after := MembersFrom(n, members, k, pretty, indent) + tail;
    assert after == [COMMA] + (Pad(pretty, indent) + t);
    SkipPad(pretty, indent, t);
  }

  /** The JSON round trip: parsing the compact or the pretty text of a value gives the value back, for every
      value whose strings, containers, depth, nodes and text are within the limits. */
  lemma ParseWritten(n: Numbers, l: JsonLimits, v: Json, pretty: bool)
    requires Carried(n, l, v) && Depth(v) <= l.maxDepth && Nodes(v) <= l.maxNodes
    requires |Write(n, v, pretty, 0)| <= l.maxInputBytes
    ensures Parse(n, l, Write(n, v, pretty, 0)) == Ok(v)
  {
    hide Write, ReadValue;
    var s := Write(n, v, pretty, 0);
    WrittenStart(n, l, v, pretty, 0);
    SkipNothing(s);
    ReadWritten(n, l, v, pretty, 0, 0, 0, []);
    assert s + [] == s;
  }

  // ---- Unicode escapes ----

  function Continuation(c: byte): nat
    requires 0x80 <= c < 0xC0
  {
    c - 0x80
  }

  /** The code point a UTF-8 sequence encodes, by the bit layout of section 3 of RFC 3629. */
  function Utf8Value(t: Text): nat
    requires 1 <= |t| <= 4
    requires |t| == 1 ==> t[0] < 0x80
    requires |t| > 1 ==> forall i :: 0 < i < |t| ==> 0x80 <= t[i] < 0xC0
    requires |t| == 2 ==> 0xC0 <= t[0] < 0xE0
    requires |t| == 3 ==> 0xE0 <= t[0] < 0xF0
    requires |t| == 4 ==> 0xF0 <= t[0] < 0xF8
  {
    if |t| == 1 then t[0]
    else if |t| == 2 then 0x40 * (t[0] - 0xC0) + Continuation(t[1])
    else if |t| == 3 then 0x1000 * (t[0] - 0xE0) + 0x40 * Continuation(t[1]) + Continuation(t[2])
    else 0x4_0000 * (t[0] - 0xF0) + 0x1000 * Continuation(t[1]) + 0x40 * Continuation(t[2]) + Continuation(t[3])
  }

  /** What the parser appends for a code point is its one shortest UTF-8 sequence. */
  lemma Utf8IsShortest(cp: nat)
    requires cp < 0x11_0000
    ensures var t := Utf8(cp);
            && (|t| == 1 ==> t[0] < 0x80)
            && (|t| > 1 ==> forall i :: 0 < i < |t| ==> 0x80 <= t[i] < 0xC0)
            && (|t| == 2 ==> 0xC0 <= t[0] < 0xE0) && (|t| == 3 ==> 0xE0 <= t[0] < 0xF0) && (|t| == 4 ==> 0xF0 <= t[0] < 0xF8)
            && Utf8Value(t) == cp
            && |t| == (if cp < 0x80 then 1 else if cp < 0x800 then 2 else if cp < 0x1_0000 then 3 else 4)
  {
    var t := Utf8(cp);
    if 0x800 <= cp {
      SixBits(cp);
      SixBits(cp / 0x40);
      DivideTwice(cp, 0x40, 0x40);
      if 0x1_0000 <= cp {
        SixBits(cp / 0x1000);
        DivideTwice(cp, 0x1000, 0x40);
      }
    }
  }

  lemma SixBits(n: nat)
    ensures n == 0x40 * (n / 0x40) + n % 0x40
  {
  }

  lemma DivideTwice(n: nat, a: nat, b: nat)
    requires a > 0 && b == 0x40 && (a == 0x40 || a == 0x1000)
    ensures n / a / b == n / (a * b)
  {
    if a == 0x40 {
      assert n / 0x40 / 0x40 == n / 0x1000;
    } else {
      assert n / 0x1000 / 0x40 == n / 0x4_0000;
    }
  }

  function HexQuad(code: nat): (r: Text)
    requires code < 0x1_0000
    ensures |r| == 4
  {
    [Values.HEX_DIGITS[code / 0x1000], Values.HEX_DIGITS[code / 0x100 % 16], Values.HEX_DIGITS[code / 0x10 % 16], Values.HEX_DIGITS[code % 16]]
  }

  lemma Hex4Reads(before: Text, code: nat, rest: Text)
    requires code < 0x1_0000
    ensures Hex4(before + HexQuad(code) + rest, |before|) == Ok(code)
  {
    hide HexValue;
    var s, q, at := before + HexQuad(code) + rest, HexQuad(code), |before|;
    assert s[at] == q[0] && s[at + 1] == q[1] && s[at + 2] == q[2] && s[at + 3] == q[3];
    HexDigitValue(code / 0x1000);
    HexDigitValue(code / 0x100 % 16);
    HexDigitValue(code / 0x10 % 16);
    HexDigitValue(code % 16);
    HexParts(code);
  }

  lemma HexParts(code: nat)
    ensures ((code / 0x1000 * 16 + code / 0x100 % 16) * 16 + code / 0x10 % 16) * 16 + code % 16 == code
  {
    var a, b, c := code / 0x10, code / 0x100, code / 0x1000;
    assert a / 16 == b && b / 16 == c;
    assert b == c * 16 + b % 16;
    assert a == b * 16 + a % 16;
  }

  /** Every code point beyond the basic plane, written as its surrogate pair, reads as its UTF-8 sequence. */
  lemma SurrogatePairReads(cp: nat, rest: Text)
    requires 0x1_0000 <= cp < 0x11_0000
    ensures var hi, lo := 0xD800 + (cp - 0x1_0000) / 0x400, 0xDC00 + (cp - 0x1_0000) % 0x400;
            hi < 0x1_0000 && lo < 0x1_0000
            && CharAt([BACKSLASH, LETTER_U] + HexQuad(hi) + [BACKSLASH, LETTER_U] + HexQuad(lo) + rest) == Ok(Piece(Utf8(cp), 12))
  {
    hide Hex4, HexQuad, Utf8;
    var hi, lo := 0xD800 + (cp - 0x1_0000) / 0x400, 0xDC00 + (cp - 0x1_0000) % 0x400;
    var mark: Text := [BACKSLASH, LETTER_U];
    var s := mark + HexQuad(hi) + mark + HexQuad(lo) + rest;
    assert s == mark + HexQuad(hi) + (mark + HexQuad(lo) + rest);
    Hex4Reads(mark, hi, mark + HexQuad(lo) + rest);
    assert s == (mark + HexQuad(hi) + mark) + HexQuad(lo) + rest;
    Hex4Reads(mark + HexQuad(hi) + mark, lo, rest);
    assert s[6] == BACKSLASH && s[7] == LETTER_U;
    assert 0x1_0000 + (hi - 0xD800) * 0x400 + (lo - 0xDC00) == cp;
  }

  /** The low half of a pair follows. */
  predicate LowFollows(rest: Text) {
    && |rest| >= 2 && rest[0] == BACKSLASH && rest[1] == LETTER_U
    && Hex4(rest, 2).Ok? && 0xDC00 <= Hex4(rest, 2).value <= 0xDFFF
  }

  /** And half a pair is always refused: a high surrogate is read exactly when the low one follows, whatever
      else does, and a low surrogate on its own is never read. */
  lemma LoneSurrogateRefused(code: nat, rest: Text)
    requires 0xD800 <= code <= 0xDFFF
    ensures var read := CharAt([BACKSLASH, LETTER_U] + HexQuad(code) + rest);
            && (read.Ok? <==> code <= 0xDBFF && LowFollows(rest))
            && (read.Err? ==> read.code == MalformedInput)
  {
    hide Hex4, HexQuad;
    var s := [BACKSLASH, LETTER_U] + HexQuad(code) + rest;
    Hex4Reads([BACKSLASH, LETTER_U], code, rest);
    assert |rest| >= 2 ==> s[6] == rest[0] && s[7] == rest[1];
    Hex4Behind([BACKSLASH, LETTER_U] + HexQuad(code), rest, 2);
  }

  lemma Hex4Behind(before: Text, rest: Text, at: nat)
    ensures Hex4(before + rest, |before| + at) == Hex4(rest, at)
    ensures Hex4(rest, at).Err? ==> Hex4(rest, at).code == MalformedInput
  {
    hide HexValue;
    if at + 4 <= |rest| {
      var s := before + rest;
      assert s[|before| + at] == rest[at] && s[|before| + at + 1] == rest[at + 1]
          && s[|before| + at + 2] == rest[at + 2] && s[|before| + at + 3] == rest[at + 3];
    }
  }
}
