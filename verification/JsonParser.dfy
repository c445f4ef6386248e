/** The JSON parser and writer as the objects they are: a cursor over the input, an output that grows
    (src/json.cpp). */
module JsonParser {
  import opened Bytes
  import opened Hex
  import opened JsonText
  import Values

  class Parser {
    const input: Text
    const limits: JsonLimits
    const numbers: Numbers
    var position: nat
    var nodes: nat

    ghost predicate Valid()
      reads this
    {
      position <= |input|
    }

    ghost function Rest(): Text
      reads this
      requires Valid()
    {
      input[position..]
    }

    /** The outcome of a reading step is what the specification says of the text that was left. */
    twostate predicate Reads(spec: Result<Got<Json>>, new r: Result<Json>)
      reads this
    {
      && position <= |input| && old(position) <= position
      && match spec
         case Ok(g) => r == Ok(g.value) && input[position..] == g.rest && nodes == g.nodes
         case Err(c) => r == Err(c)
    }

    constructor (text: Text, bounds: JsonLimits, library: Numbers)
      ensures Valid() && position == 0 && nodes == 0 && input == text && limits == bounds && numbers == library
    {
      input, limits, numbers := text, bounds, library;
      position, nodes := 0, 0;
    }

    method SkipWhitespace()
      requires Valid()
      modifies this`position
      ensures Valid() && position >= old(position) && Rest() == Skip(old(Rest()))
    {
      while position < |input| && IsSpace(input[position])
        invariant old(position) <= position <= |input|
        invariant Skip(input[position..]) == Skip(input[old(position)..])
      {
        assert input[position..][1..] == input[position + 1..];
        position := position + 1;
      }
    }

    method ParseLiteral(literal: Text, v: Json) returns (r: Result<Json>)
      requires Valid() && literal != []
      modifies this`position
      ensures Reads(ReadLiteral(old(Rest()), literal, v, nodes), r)
    {
      if position + |literal| > |input| || input[position..position + |literal|] != literal {
        assert StartsWith(Rest(), literal) ==> Rest()[..|literal|] == input[position..position + |literal|];
        return Err(MalformedInput);
      }
      assert Rest()[..|literal|] == input[position..position + |literal|];
      assert Rest()[|literal|..] == input[position + |literal|..];
      position := position + |literal|;
      r := Ok(v);
    }

    method ParseHex4() returns (r: Result<nat>)
      requires Valid()
      modifies this`position
      ensures r == Hex4(old(Rest()), 0) && position == old(position) + (if r.Ok? then 4 else 0)
    {
      if position + 4 > |input| {
        return Err(MalformedInput);
      }
      ghost var s := Rest();
      var value := 0;
      for index := 0 to 4
        invariant forall k :: 0 <= k < index ==> HexValue(s[k]).Some?
        invariant value == HexPrefix(s, index)
      {
        assert s[index] == input[position + index];
        match HexValue(input[position + index])
        case None => return Err(MalformedInput);
        case Some(digit) => value := value * 16 + digit;
      }
      HexPrefixIsHex4(s);
      position := position + 4;
      r := Ok(value);
    }

    method ParseUnicodeEscape(ghost start: nat) returns (r: Result<Text>)
      requires Valid() && start + 2 == position
      modifies this`position
      ensures Valid() && position >= old(position)
      ensures match UnicodeEscape(input[start..])
              case Ok(p) => r == Ok(p.text) && position == start + p.used
              case Err(c) => r == Err(c)
    {
      ghost var s := input[start..];
      assert input[position..] == s[2..];
      Hex4Shift(s, 2);
      var code := ParseHex4();
      if code.Err? {
        return Err(code.code);
      }
      if 0xD800 <= code.value <= 0xDBFF {
        if position + 1 >= |input| || input[position] != BACKSLASH || input[position + 1] != LETTER_U {
          assert |s| >= 8 ==> s[6] == input[start + 6] && s[7] == input[start + 7];
          return Err(MalformedInput);
        }
        assert s[6] == input[position] && s[7] == input[position + 1];
        position := position + 2;
        assert input[position..] == s[8..];
        Hex4Shift(s, 8);
        var low := ParseHex4();
        if low.Err? {
          return Err(low.code);
        }
        if low.value < 0xDC00 || low.value > 0xDFFF {
          return Err(MalformedInput);
        }
        return Ok(Utf8(0x1_0000 + (code.value - 0xD800) * 0x400 + (low.value - 0xDC00)));
      }
      if 0xDC00 <= code.value <= 0xDFFF {
        return Err(MalformedInput);
      }
      r := Ok(Utf8(code.value));
    }

    /** One character or escape of a string. */
    method ParseChar() returns (r: Result<Text>)
      requires Valid() && position < |input| && input[position] != QUOTE
      modifies this`position
      ensures Valid() && position >= old(position)
      ensures match CharAt(old(Rest()))
              case Ok(p) => r == Ok(p.text) && position == old(position) + p.used
              case Err(c) => r == Err(c)
    {
      hide UnicodeEscape;
      ghost var start, s := position, Rest();
      var raw := input[position];
      assert raw == s[0];
      if raw == BACKSLASH {
        position := position + 1;
        if position >= |input| {
          return Err(MalformedInput);
        }
        var escape := input[position];
        assert escape == s[1];
        position := position + 1;
        if escape == QUOTE || escape == BACKSLASH || escape == 47 {
          return Ok([escape]);
        } else if escape == 98 {
          return Ok([8]);
        } else if escape == 102 {
          return Ok([12]);
        } else if escape == 110 {
          return Ok([10]);
        } else if escape == 114 {
          return Ok([13]);
        } else if escape == 116 {
          return Ok([9]);
        } else if escape == LETTER_U {
          r := ParseUnicodeEscape(start);
          return;
        }
        return Err(MalformedInput);
      }
      if raw < 0x20 {
        return Err(MalformedInput);
      }
      position := position + 1;
      r := Ok([raw]);
    }

    /** From the opening quote to past the closing one. */
    method ParseString() returns (r: Result<Text>)
      requires Valid() && position < |input|
      modifies this`position
      ensures Valid() && position > old(position)
      ensures match ReadString(limits.maxStringBytes, old(input[position + 1..]), [])
              case Ok(x) => r == Ok(x.text) && Rest() == x.rest
              case Err(c) => r == Err(c)
    {
      hide CharAt;
      position := position + 1;
      var out: Text := [];
      while position < |input| && input[position] != QUOTE
        invariant old(position) < position <= |input|
        invariant ReadString(limits.maxStringBytes, input[position..], out)
               == ReadString(limits.maxStringBytes, input[old(position) + 1..], [])
        decreases |input| - position
      {
        ghost var before := position;
        assert input[before..][0] == input[before];
        var piece := ParseChar();
        if piece.Err? {
          return Err(piece.code);
        }
        ghost var used := position - before;
        assert input[before..][used..] == input[position..];
        out := out + piece.value;
        if |out| > limits.maxStringBytes {
          return Err(TooLarge);
        }
      }
      if position >= |input| {
        return Err(MalformedInput);
      }
      assert input[position..][0] == QUOTE && input[position..][1..] == input[position + 1..];
      position := position + 1;
      r := Ok(out);
    }

    method SkipDigits()
      requires Valid()
      modifies this`position
      ensures Valid() && position == old(position) + Digits(old(Rest()))
    {
      while position < |input| && IsDigit(input[position])
        invariant old(position) <= position <= |input|
        invariant position + Digits(input[position..]) == old(position) + Digits(input[old(position)..])
      {
        assert input[position..][1..] == input[position + 1..];
        position := position + 1;
      }
    }

    /** The integer part: an optional sign, then a single zero or a run of digits. */
    method ScanInteger() returns (ok: bool)
      requires Valid()
      modifies this`position
      ensures Valid() && position >= old(position)
      ensures match IntegerLength(old(Rest()))
              case Ok(k) => ok && position == old(position) + k
              case Err(c) => !ok && c == MalformedInput
    {
      ghost var start, s := position, Rest();
      if position < |input| && input[position] == MINUS {
        position := position + 1;
      }
      assert s[position - start..] == input[position..];
      if position >= |input| || !IsDigit(input[position]) {
        return false;
      }
      if input[position] == 48 {
        position := position + 1;
      } else {
        SkipDigits();
      }
      ok := true;
    }

    method ScanFraction() returns (ok: bool)
      requires Valid()
      modifies this`position
      ensures Valid() && position >= old(position)
      ensures match FractionLength(old(Rest()))
              case Ok(k) => ok && position == old(position) + k
              case Err(c) => !ok && c == MalformedInput
    {
      ghost var start, s := position, Rest();
      if position < |input| && input[position] == POINT {
        position := position + 1;
        assert s[1..] == input[position..];
        if position >= |input| || !IsDigit(input[position]) {
          return false;
        }
        SkipDigits();
      }
      ok := true;
    }

    method ScanExponent() returns (ok: bool)
      requires Valid()
      modifies this`position
      ensures Valid() && position >= old(position)
      ensures match ExponentLength(old(Rest()))
              case Ok(k) => ok && position == old(position) + k
              case Err(c) => !ok && c == MalformedInput
    {
      ghost var start, s := position, Rest();
      if position < |input| && (input[position] == 101 || input[position] == 69) {
        position := position + 1;
        assert |s| > 1 ==> s[1] == input[start + 1];
        if position < |input| && (input[position] == 43 || input[position] == MINUS) {
          position := position + 1;
        }
        assert s[position - start..] == input[position..];
        if position >= |input| || !IsDigit(input[position]) {
          return false;
        }
        SkipDigits();
      }
      ok := true;
    }

    method ParseNumber() returns (r: Result<Json>)
      requires Valid()
      modifies this`position
      ensures Reads(ReadNumber(numbers, old(Rest()), nodes), r)
    {
      hide IntegerLength, FractionLength, ExponentLength;
      ghost var s := Rest();
      var start := position;
      var ok := ScanInteger();
      if !ok {
        return Err(MalformedInput);
      }
      assert input[position..] == s[position - start..];
      ok := ScanFraction();
      if !ok {
        return Err(MalformedInput);
      }
      assert input[position..] == s[position - start..];
      ok := ScanExponent();
      if !ok {
        return Err(MalformedInput);
      }
      assert input[start..position] == s[..position - start];
      assert input[position..] == s[position - start..];
      match numbers.scan(input[start..position])
      case Err(c) => r := Err(c);
      case Ok(bits) => r := Ok(Number(bits));
    }

    method ParseValue(depth: nat) returns (r: Result<Json>)
      requires Valid()
      modifies this
      ensures Reads(ReadValue(numbers, limits, depth, old(Rest()), old(nodes)), r)
      decreases |input| - position, 1
    {
      hide ReadObject, ReadArray, ReadString, ReadNumber;
      if depth > limits.maxDepth {
        return Err(DepthExceeded);
      }
      nodes := nodes + 1;
      if nodes > limits.maxNodes {
        return Err(TooLarge);
      }
      if position >= |input| {
        return Err(MalformedInput);
      }
      ghost var s := Rest();
      var c := input[position];
      assert s[0] == c && s[1..] == input[position + 1..];
      if c == OPEN_OBJECT {
        r := ParseObject(depth);
      } else if c == OPEN_ARRAY {
        r := ParseArray(depth);
      } else if c == QUOTE {
        var text := ParseString();
        if text.Err? {
          return Err(text.code);
        }
        r := Ok(Str(text.value));
      } else if c == 116 {
        r := ParseLiteral(Ascii("true"), Bool(true));
      } else if c == 102 {
        r := ParseLiteral(Ascii("false"), Bool(false));
      } else if c == 110 {
        r := ParseLiteral(Ascii("null"), Null);
      } else {
        r := ParseNumber();
      }
    }

    method ParseArray(depth: nat) returns (r: Result<Json>)
      requires Valid() && position < |input|
      modifies this
      ensures Reads(ReadArray(numbers, limits, depth, old(input[position + 1..]), old(nodes)), r)
      decreases |input| - position, 0
    {
      hide ReadValue, Skip;
      position := position + 1;
      var items: seq<Json> := [];
      SkipWhitespace();
      if position < |input| && input[position] == CLOSE_ARRAY {
        assert Rest()[0] == CLOSE_ARRAY && Rest()[1..] == input[position + 1..];
        position := position + 1;
        return Ok(Array(items));
      }
      assert Rest() == [] || Rest()[0] == input[position];
      while true
        invariant old(position) < position <= |input|
        invariant ReadItems(numbers, limits, depth, Rest(), nodes, items)
               == ReadArray(numbers, limits, depth, input[old(position) + 1..], old(nodes))
        decreases |input| - position
      {
        SkipWhitespace();
        var value := ParseValue(depth + 1);
        if value.Err? {
          return value;
        }
        items := items + [value.value];
        if |items| > limits.maxArrayElements {
          return Err(TooLarge);
        }
        SkipWhitespace();
        if position >= |input| {
          return Err(MalformedInput);
        }
        assert Rest()[0] == input[position] && Rest()[1..] == input[position + 1..];
        if input[position] == COMMA {
          position := position + 1;
        } else if input[position] == CLOSE_ARRAY {
          position := position + 1;
          return Ok(Array(items));
        } else {
          return Err(MalformedInput);
        }
      }
    }

    method ParseKey() returns (r: Result<Text>)
      requires Valid()
      modifies this`position
      ensures Valid() && position >= old(position)
      ensures match ReadKey(limits, old(Rest()))
              case Ok(x) => r == Ok(x.text) && Rest() == x.rest && position > old(position)
              case Err(c) => r == Err(c)
    {
      hide ReadString, Skip;
      SkipWhitespace();
      if position >= |input| || input[position] != QUOTE {
        assert Rest() == [] || Rest()[0] == input[position];
        return Err(MalformedInput);
      }
      assert Rest()[0] == QUOTE && Rest()[1..] == input[position + 1..];
      r := ParseString();
      if r.Err? {
        return;
      }
      SkipWhitespace();
      if position >= |input| || input[position] != COLON {
        assert Rest() == [] || Rest()[0] == input[position];
        return Err(MalformedInput);
      }
      assert Rest()[0] == COLON && Rest()[1..] == input[position + 1..];
      position := position + 1;
    }

    method ParseObject(depth: nat) returns (r: Result<Json>)
      requires Valid() && position < |input|
      modifies this
      ensures Reads(ReadObject(numbers, limits, depth, old(input[position + 1..]), old(nodes)), r)
      decreases |input| - position, 0
    {
      hide ReadValue, Skip, ReadKey;
      position := position + 1;
      var members: seq<Member> := [];
      SkipWhitespace();
      if position < |input| && input[position] == CLOSE_OBJECT {
        assert Rest()[0] == CLOSE_OBJECT && Rest()[1..] == input[position + 1..];
        position := position + 1;
        return Ok(Object(members));
      }
      assert Rest() == [] || Rest()[0] == input[position];
      while true
        invariant old(position) < position <= |input|
        invariant ReadMembers(numbers, limits, depth, Rest(), nodes, members)
               == ReadObject(numbers, limits, depth, input[old(position) + 1..], old(nodes))
        decreases |input| - position
      {
        var key := ParseKey();
        if key.Err? {
          return Err(key.code);
        }
        SkipWhitespace();
        var value := ParseValue(depth + 1);
        if value.Err? {
          return value;
        }
        members := members + [Member(key.value, value.value)];
        if |members| > limits.maxObjectMembers {
          return Err(TooLarge);
        }
        SkipWhitespace();
        if position >= |input| {
          return Err(MalformedInput);
        }
        assert Rest()[0] == input[position] && Rest()[1..] == input[position + 1..];
        if input[position] == COMMA {
          position := position + 1;
        } else if input[position] == CLOSE_OBJECT {
          position := position + 1;
          return Ok(Object(members));
        } else {
          return Err(MalformedInput);
        }
      }
    }

    /** parse_json on this object's input. */
    method ParseAll() returns (r: Result<Json>)
      requires Valid() && position == 0 && nodes == 0
      modifies this
      ensures r == Parse(numbers, limits, input)
    {
      hide ReadValue;
      if |input| > limits.maxInputBytes {
        return Err(TooLarge);
      }
      assert input[0..] == input;
      SkipWhitespace();
      r := ParseValue(0);
      if r.Err? {
        return;
      }
      SkipWhitespace();
      if position != |input| {
        return Err(MalformedInput);
      }
    }
  }

  ghost function HexPrefix(s: Text, k: nat): nat
    requires k <= |s| && forall i :: 0 <= i < k ==> HexValue(s[i]).Some?
  {
    if k == 0 then 0 else HexPrefix(s, k - 1) * 16 + HexValue(s[k - 1]).value
  }

  lemma HexPrefixIsHex4(s: Text)
    requires |s| >= 4 && forall i :: 0 <= i < 4 ==> HexValue(s[i]).Some?
    ensures Hex4(s, 0) == Ok(HexPrefix(s, 4))
  {
    hide HexValue;
    assert HexPrefix(s, 1) == HexValue(s[0]).value;
    assert HexPrefix(s, 2) == HexValue(s[0]).value * 16 + HexValue(s[1]).value;
    assert HexPrefix(s, 3) == (HexValue(s[0]).value * 16 + HexValue(s[1]).value) * 16 + HexValue(s[2]).value;
  }

  lemma Hex4Shift(s: Text, at: nat)
    requires at <= |s|
    ensures Hex4(s[at..], 0) == Hex4(s, at)
  {
    hide HexValue;
  }

  // ---- writing ----

  class Writer {
    const numbers: Numbers
    const pretty: bool
    var out: Text

    constructor (library: Numbers, prettily: bool)
      ensures out == [] && numbers == library && pretty == prettily
    {
      numbers, pretty, out := library, prettily, [];
    }

    method AppendString(text: Text)
      modifies this
      ensures out == old(out) + Quoted(text)
    {
      hide EscapeByte;
      out := out + [QUOTE];
      for i := 0 to |text|
        invariant out == old(out) + [QUOTE] + Escaped(text[..i])
      {
        assert text[..i + 1][..i] == text[..i];
        out := out + EscapeByte(text[i]);
      }
      assert text[..|text|] == text;
      out := out + [QUOTE];
      assert out == old(out) + Quoted(text);
    }

    method AppendPad(level: nat)
      modifies this
      ensures out == old(out) + Pad(pretty, level)
    {
      if pretty {
        out := out + [NEWLINE];
        out := out + seq(level * 2, _ => SPACE);
      }
    }

    method WriteJson(v: Json, indent: nat)
      modifies this
      ensures out == old(out) + Write(numbers, v, pretty, indent)
      decreases v, 1
    {
      hide WriteItems, WriteMembers, Quoted, Pad;
      match v
      case Null => out := out + Ascii("null");
      case Bool(b) => out := out + (if b then Ascii("true") else Ascii("false"));
      case Number(bits) => out := out + numbers.show(bits);
      case Str(t) => AppendString(t);
      case Array(items) =>
        if items == [] {
          out := out + Ascii("[]");
          return;
        }
        out := out + [OPEN_ARRAY];
        WriteItemsJson(items, indent + 1);
        AppendPad(indent);
        out := out + [CLOSE_ARRAY];
        Five(old(out), [OPEN_ARRAY], WriteItems(numbers, items, pretty, indent + 1), Pad(pretty, indent), [CLOSE_ARRAY]);
      case Object(members) =>
        if members == [] {
          out := out + Ascii("{}");
          return;
        }
        out := out + [OPEN_OBJECT];
        WriteMembersJson(members, indent + 1);
        AppendPad(indent);
        out := out + [CLOSE_OBJECT];
        Five(old(out), [OPEN_OBJECT], WriteMembers(numbers, members, pretty, indent + 1), Pad(pretty, indent), [CLOSE_OBJECT]);
    }

    method WriteItemsJson(items: seq<Json>, indent: nat)
      modifies this
      ensures out == old(out) + WriteItems(numbers, items, pretty, indent)
      decreases items
    {
      hide Write, Pad;
      assert out == out + WriteItems(numbers, items[..0], pretty, indent);
      for i := 0 to |items|
        invariant out == old(out) + WriteItems(numbers, items[..i], pretty, indent)
      {
        assert items[..i + 1][..i] == items[..i];
        if i != 0 {
          out := out + [COMMA];
        }
        AppendPad(indent);
        WriteJson(items[i], indent);
        Five(old(out), WriteItems(numbers, items[..i], pretty, indent), if i == 0 then [] else [COMMA], Pad(pretty, indent),
             Write(numbers, items[i], pretty, indent));
      }
      assert items[..|items|] == items;
    }

    method WriteMembersJson(members: seq<Member>, indent: nat)
      modifies this
      ensures out == old(out) + WriteMembers(numbers, members, pretty, indent)
      decreases members
    {
      hide Write, Pad, Quoted, WriteMember;
      assert out == out + WriteMembers(numbers, members[..0], pretty, indent);
      for i := 0 to |members|
        invariant out == old(out) + WriteMembers(numbers, members[..i], pretty, indent)
      {
        assert members[..i + 1][..i] == members[..i];
        if i != 0 {
          out := out + [COMMA];
        }
        AppendPad(indent);
        WriteMemberJson(members[i], indent);
        Five(old(out), WriteMembers(numbers, members[..i], pretty, indent), if i == 0 then [] else [COMMA], Pad(pretty, indent),
             WriteMember(numbers, members[i], pretty, indent));
      }
      assert members[..|members|] == members;
    }

    method WriteMemberJson(m: Member, indent: nat)
      modifies this
      ensures out == old(out) + WriteMember(numbers, m, pretty, indent)
      decreases m
    {
      hide Write, Quoted;
      AppendString(m.name);
      out := out + [COLON];
      if pretty {
        out := out + [SPACE];
      }
      WriteJson(m.value, indent);
      Five(old(out), Quoted(m.name), [COLON], if pretty then [SPACE] else [], Write(numbers, m.value, pretty, indent));
    }
  }

  lemma Five(a: Text, b: Text, c: Text, d: Text, e: Text)
    ensures a + b + c + d + e == a + (b + c + d + e)
  {
  }
}
