/** Every text the parser accepts is a text of the grammar, and means what was returned (src/json.cpp; sections 2
    to 7 of RFC 8259). */
module JsonGrammar {
  import opened Bytes
  import opened Hex
  import opened JsonText

  // ---- derivations of the grammar ----

  datatype NumberTree = NumberTree(minus: bool, int_: Text, fraction: Text, exponent: Text)

  datatype CharTree = Unescaped(c: byte) | Short(c: byte) | Unicode(digits: Text) | Pair(high: Text, low: Text)

  datatype Tree =
    | NullTree
    | BoolTree(flag: bool)
    | NumTree(number: NumberTree)
    | StrTree(chars: seq<CharTree>)
    | EmptyArray(space: Text)
    | ArrayTree(elements: seq<Element>)
    | EmptyObject(space: Text)
    | ObjectTree(entries: seq<Entry>)

  /** A value with the whitespace around it. */
  datatype Element = Element(before: Text, tree: Tree, after: Text)

  datatype Entry = Entry(before: Text, key: seq<CharTree>, between: Text, element: Element)

  predicate AllSpace(t: Text) { forall i :: 0 <= i < |t| ==> IsSpace(t[i]) }

  predicate AllDigits(t: Text) { forall i :: 0 <= i < |t| ==> IsDigit(t[i]) }

  /** int = zero / ( digit1-9 *DIGIT ); frac = decimal-point 1*DIGIT; exp = e [ minus / plus ] 1*DIGIT. */
  predicate GoodNumberTree(t: NumberTree) {
    && t.int_ != [] && AllDigits(t.int_) && (t.int_[0] == 48 ==> |t.int_| == 1)
    && (t.fraction == [] || (|t.fraction| >= 2 && t.fraction[0] == POINT && AllDigits(t.fraction[1..])))
    && (t.exponent == [] || GoodExponent(t.exponent))
  }

  predicate GoodExponent(t: Text) {
    && |t| >= 2 && (t[0] == 101 || t[0] == 69)
    && (if t[1] == 43 || t[1] == MINUS then |t| >= 3 && AllDigits(t[2..]) else AllDigits(t[1..]))
  }

  function NumberYield(t: NumberTree): Text { (if t.minus then [MINUS] else []) + t.int_ + t.fraction + t.exponent }

  predicate FourHex(t: Text) { |t| == 4 && AllHex(t) }

  predicate GoodChar(c: CharTree) {
    match c
    case Unescaped(b) => b >= 0x20 && b != QUOTE && b != BACKSLASH
    case Short(b) => b in {QUOTE, BACKSLASH, 47, 98, 102, 110, 114, 116}
    case Unicode(d) => FourHex(d)
    case Pair(high, low) => FourHex(high) && FourHex(low)
  }

  function CharYield(c: CharTree): Text {
    match c
    case Unescaped(b) => [b]
    case Short(b) => [BACKSLASH, b]
    case Unicode(d) => [BACKSLASH, LETTER_U] + d
    case Pair(high, low) => [BACKSLASH, LETTER_U] + high + [BACKSLASH, LETTER_U] + low
  }

  function HexNumber(d: Text): nat
    requires FourHex(d)
  {
    ((HexValue(d[0]).value * 16 + HexValue(d[1]).value) * 16 + HexValue(d[2]).value) * 16 + HexValue(d[3]).value
  }

  /** Section 7: a unicode escape names a code point of the basic plane that is no surrogate; a pair of a high and a
      low surrogate one beyond it. */
  predicate Denotes(c: CharTree) {
    && GoodChar(c)
    && (c.Unicode? ==> !(0xD800 <= HexNumber(c.digits) <= 0xDFFF))
    && (c.Pair? ==> 0xD800 <= HexNumber(c.high) <= 0xDBFF && 0xDC00 <= HexNumber(c.low) <= 0xDFFF)
  }

  lemma HexNumberRange(d: Text)
    requires FourHex(d)
    ensures HexNumber(d) < 0x1_0000
  {
  }

  function CharMeaning(c: CharTree): Text
    requires Denotes(c)
  {
    match c
    case Unescaped(b) => [b]
    case Short(b) =>
      [if b == 98 then 8 else if b == 102 then 12 else if b == 110 then 10 else if b == 114 then 13 else if b == 116 then 9 else b]
    case Unicode(d) =>
      HexNumberRange(d);
      Utf8(HexNumber(d))
    case Pair(high, low) => Utf8(0x1_0000 + (HexNumber(high) - 0xD800) * 0x400 + (HexNumber(low) - 0xDC00))
  }

  predicate GoodChars(cs: seq<CharTree>) { forall i :: 0 <= i < |cs| ==> Denotes(cs[i]) }

  function CharsYield(cs: seq<CharTree>): Text { if cs == [] then [] else CharYield(cs[0]) + CharsYield(cs[1..]) }

  function CharsMeaning(cs: seq<CharTree>): Text
    requires GoodChars(cs)
  {
    if cs == [] then [] else CharMeaning(cs[0]) + CharsMeaning(cs[1..])
  }

  function StringYield(cs: seq<CharTree>): Text { [QUOTE] + CharsYield(cs) + [QUOTE] }

  predicate Good(t: Tree)
    decreases t
  {
    match t
    case NumTree(number) => GoodNumberTree(number)
    case StrTree(chars) => GoodChars(chars)
    case EmptyArray(space) => AllSpace(space)
    case ArrayTree(elements) => elements != [] && GoodElements(elements)
    case EmptyObject(space) => AllSpace(space)
    case ObjectTree(entries) => entries != [] && GoodEntries(entries)
    case _ => true
  }

  predicate GoodElement(e: Element)
    decreases e
  {
    AllSpace(e.before) && Good(e.tree) && AllSpace(e.after)
  }

  predicate GoodElements(es: seq<Element>)
    decreases es
  {
    es == [] || (GoodElement(es[0]) && GoodElements(es[1..]))
  }

  predicate GoodEntries(es: seq<Entry>)
    decreases es
  {
    es == []
    || (AllSpace(es[0].before) && GoodChars(es[0].key) && AllSpace(es[0].between) && GoodElement(es[0].element) && GoodEntries(es[1..]))
  }

  /** The text a derivation derives. */
  function Yield(t: Tree): Text
    decreases t
  {
    match t
    case NullTree => Ascii("null")
    case BoolTree(b) => if b then Ascii("true") else Ascii("false")
    case NumTree(number) => NumberYield(number)
    case StrTree(chars) => StringYield(chars)
    case EmptyArray(space) => [OPEN_ARRAY] + space + [CLOSE_ARRAY]
    case ArrayTree(elements) => [OPEN_ARRAY] + ElementsYield(elements) + [CLOSE_ARRAY]
    case EmptyObject(space) => [OPEN_OBJECT] + space + [CLOSE_OBJECT]
    case ObjectTree(entries) => [OPEN_OBJECT] + EntriesYield(entries) + [CLOSE_OBJECT]
  }

  function ElementYield(e: Element): Text
    decreases e
  {
    e.before + Yield(e.tree) + e.after
  }

  function ElementsYield(es: seq<Element>): Text
    decreases es
  {
    if es == [] then [] else ElementYield(es[0]) + if |es| == 1 then [] else [COMMA] + ElementsYield(es[1..])
  }

  function EntriesYield(es: seq<Entry>): Text
    decreases es
  {
    if es == [] then []
    else
      es[0].before + StringYield(es[0].key) + es[0].between + [COLON] + ElementYield(es[0].element)
      + if |es| == 1 then [] else [COMMA] + EntriesYield(es[1..])
  }

  /** The value it means; the library decides what a number is. */
  function Meaning(n: Numbers, t: Tree): Json
    requires Good(t)
    decreases t
  {
    match t
    case NullTree => Null
    case BoolTree(b) => Bool(b)
    case NumTree(number) => (match n.scan(NumberYield(number)) case Ok(bits) => Number(bits) case Err(_) => Null)
    case StrTree(chars) => Str(CharsMeaning(chars))
    case EmptyArray(_) => Array([])
    case ArrayTree(elements) => Array(ElementsMeaning(n, elements))
    case EmptyObject(_) => Object([])
    case ObjectTree(entries) => Object(EntriesMeaning(n, entries))
  }

  function ElementsMeaning(n: Numbers, es: seq<Element>): seq<Json>
    requires GoodElements(es)
    decreases es
  {
    if es == [] then []
    else
      assert GoodElement(es[0]);
      [Meaning(n, es[0].tree)] + ElementsMeaning(n, es[1..])
  }

  function EntriesMeaning(n: Numbers, es: seq<Entry>): seq<Member>
    requires GoodEntries(es)
    decreases es
  {
    if es == [] then []
    else
      assert GoodElement(es[0].element);
      [Member(CharsMeaning(es[0].key), Meaning(n, es[0].element.tree))] + EntriesMeaning(n, es[1..])
  }

  // ---- the limits ----

  function TreeDepth(t: Tree): nat
    decreases t
  {
    match t
    case ArrayTree(elements) => ElementsDepth(elements)
    case ObjectTree(entries) => EntriesDepth(entries)
    case _ => 0
  }

  function ElementsDepth(es: seq<Element>): nat
    decreases es
  {
    if es == [] then 0 else Max(1 + TreeDepth(es[0].tree), ElementsDepth(es[1..]))
  }

  function EntriesDepth(es: seq<Entry>): nat
    decreases es
  {
    if es == [] then 0 else Max(1 + TreeDepth(es[0].element.tree), EntriesDepth(es[1..]))
  }

  function TreeNodes(t: Tree): (k: nat)
    ensures k >= 1
    decreases t
  {
    match t
    case ArrayTree(elements) => 1 + ElementsNodes(elements)
    case ObjectTree(entries) => 1 + EntriesNodes(entries)
    case _ => 1
  }

  function ElementsNodes(es: seq<Element>): nat
    decreases es
  {
    if es == [] then 0 else TreeNodes(es[0].tree) + ElementsNodes(es[1..])
  }

  function EntriesNodes(es: seq<Entry>): nat
    decreases es
  {
    if es == [] then 0 else TreeNodes(es[0].element.tree) + EntriesNodes(es[1..])
  }

  /** Strings, arrays and objects are no longer than the limits, and the library scans the numbers. */
  predicate Within(n: Numbers, l: JsonLimits, t: Tree)
    requires Good(t)
    decreases t
  {
    match t
    case NumTree(number) => n.scan(NumberYield(number)).Ok?
    case StrTree(chars) => |CharsMeaning(chars)| <= l.maxStringBytes
    case ArrayTree(elements) => |elements| <= l.maxArrayElements && ElementsWithin(n, l, elements)
    case ObjectTree(entries) => |entries| <= l.maxObjectMembers && EntriesWithin(n, l, entries)
    case _ => true
  }

  predicate ElementsWithin(n: Numbers, l: JsonLimits, es: seq<Element>)
    requires GoodElements(es)
    decreases es
  {
    if es == [] then true
    else
      assert GoodElement(es[0]);
      Within(n, l, es[0].tree) && ElementsWithin(n, l, es[1..])
  }

  predicate EntriesWithin(n: Numbers, l: JsonLimits, es: seq<Entry>)
    requires GoodEntries(es)
    decreases es
  {
    if es == [] then true
    else
      assert GoodElement(es[0].element);
      |CharsMeaning(es[0].key)| <= l.maxStringBytes && Within(n, l, es[0].element.tree) && EntriesWithin(n, l, es[1..])
  }

  // ---- the lexical parts of an accepted text ----

  lemma {:induction false} SkippedSpace(s: Text) returns (space: Text)
    ensures s == space + Skip(s) && AllSpace(space)
  {
    if s != [] && IsSpace(s[0]) {
      var rest := SkippedSpace(s[1..]);
      space := [s[0]] + rest;
      assert s == [s[0]] + s[1..];
    } else {
      space := [];
    }
  }

  lemma {:induction false} DigitsAreDigits(s: Text)
    ensures AllDigits(s[..Digits(s)])
  {
    if StartsDigit(s) {
      DigitsAreDigits(s[1..]);
      assert s[..Digits(s)] == [s[0]] + s[1..][..Digits(s[1..])];
    }
  }

  lemma IntegerDerives(s: Text) returns (minus: bool, digits: Text)
    requires IntegerLength(s).Ok?
    ensures s[..IntegerLength(s).value] == (if minus then [MINUS] else []) + digits
    ensures digits != [] && AllDigits(digits) && (digits[0] == 48 ==> |digits| == 1)
  {
    minus := s != [] && s[0] == MINUS;
    var k := if minus then 1 else 0;
    digits := s[k..IntegerLength(s).value];
    DigitsAreDigits(s[k..]);
    if s[k] != 48 {
      assert digits == s[k..][..Digits(s[k..])];
    }
  }

  lemma FractionDerives(s: Text)
    requires FractionLength(s).Ok?
    ensures var t := s[..FractionLength(s).value]; t == [] || (|t| >= 2 && t[0] == POINT && AllDigits(t[1..]))
  {
    if FractionLength(s).value > 0 {
      DigitsAreDigits(s[1..]);
      assert s[..FractionLength(s).value][1..] == s[1..][..Digits(s[1..])];
    }
  }

  lemma ExponentDerives(s: Text)
    requires ExponentLength(s).Ok?
    ensures var t := s[..ExponentLength(s).value]; t == [] || GoodExponent(t)
  {
    if ExponentLength(s).value > 0 {
      var sign := if |s| > 1 && (s[1] == 43 || s[1] == MINUS) then 1 else 0;
      DigitsAreDigits(s[1 + sign..]);
      assert s[..ExponentLength(s).value][1 + sign..] == s[1 + sign..][..Digits(s[1 + sign..])];
    }
  }

  lemma NumberDerives(s: Text) returns (t: NumberTree)
    requires NumberLength(s).Ok?
    ensures GoodNumberTree(t) && NumberYield(t) == s[..NumberLength(s).value]
  {
    hide IntegerLength, FractionLength, ExponentLength, GoodExponent;
    var minus, digits := IntegerDerives(s);
    var i := IntegerLength(s).value;
    FractionDerives(s[i..]);
    var f := FractionLength(s[i..]).value;
    ExponentDerives(s[i + f..]);
    var e := ExponentLength(s[i + f..]).value;
    t := NumberTree(minus, digits, s[i..][..f], s[i + f..][..e]);
    assert s[..i + f + e] == s[..i] + s[i..][..f] + s[i + f..][..e];
  }

  lemma HexDerives(s: Text, at: nat)
    requires Hex4(s, at).Ok?
    ensures at + 4 <= |s| && FourHex(s[at..at + 4]) && HexNumber(s[at..at + 4]) == Hex4(s, at).value
  {
    hide HexValue;
    var d := s[at..at + 4];
    assert d[0] == s[at] && d[1] == s[at + 1] && d[2] == s[at + 2] && d[3] == s[at + 3];
  }

  lemma UnicodeDerives(s: Text) returns (c: CharTree)
    requires |s| >= 2 && s[0] == BACKSLASH && s[1] == LETTER_U && UnicodeEscape(s).Ok?
    ensures Denotes(c) && CharYield(c) == s[..UnicodeEscape(s).value.used] && CharMeaning(c) == UnicodeEscape(s).value.text
  {
    hide Hex4, FourHex, HexNumber, Utf8;
    HexDerives(s, 2);
    if 0xD800 <= Hex4(s, 2).value <= 0xDBFF {
      HexDerives(s, 8);
      c := Pair(s[2..6], s[8..12]);
      assert s[..12] == [s[0], s[1]] + s[2..6] + [s[6], s[7]] + s[8..12];
    } else {
      c := Unicode(s[2..6]);
      assert s[..6] == [s[0], s[1]] + s[2..6];
    }
  }

  lemma CharDerives(s: Text) returns (c: CharTree)
    requires s != [] && s[0] != QUOTE && CharAt(s).Ok?
    ensures Denotes(c) && CharYield(c) == s[..CharAt(s).value.used] && CharMeaning(c) == CharAt(s).value.text
  {
    hide UnicodeEscape;
    if s[0] != BACKSLASH {
      c := Unescaped(s[0]);
    } else if s[1] == LETTER_U {
      c := UnicodeDerives(s);
    } else {
      c := Short(s[1]);
      assert s[..2] == [s[0], s[1]];
    }
  }

  lemma CharsPush(c: CharTree, more: seq<CharTree>)
    requires Denotes(c) && GoodChars(more)
    ensures var cs := [c] + more;
            GoodChars(cs) && CharsYield(cs) == CharYield(c) + CharsYield(more) && CharsMeaning(cs) == CharMeaning(c) + CharsMeaning(more)
  {
    hide Denotes, CharYield, CharMeaning;
    assert ([c] + more)[1..] == more;
  }

  lemma NoChars()
    ensures GoodChars([]) && CharsYield([]) == [] && CharsMeaning([]) == []
  {
  }

  lemma {:induction false} StringDerives(max: nat, s: Text, done: Text) returns (cs: seq<CharTree>)
    requires ReadString(max, s, done).Ok? && |done| <= max
    ensures GoodChars(cs) && |done + CharsMeaning(cs)| <= max
    ensures var x := ReadString(max, s, done).value; s == CharsYield(cs) + [QUOTE] + x.rest && x.text == done + CharsMeaning(cs)
    decreases |s|
  {
    hide CharAt, CharYield, CharMeaning, Denotes, GoodChars, CharsYield, CharsMeaning;
    if s[0] == QUOTE {
      cs := [];
      NoChars();
      assert s == [QUOTE] + s[1..];
    } else {
      var p := CharAt(s).value;
      var c := CharDerives(s);
      var more := StringDerives(max, s[p.used..], done + p.text);
      cs := [c] + more;
      CharsPush(c, more);
      Regroup(done, p.text, CharsMeaning(more));
      var rest := ReadString(max, s[p.used..], done + p.text).value.rest;
      assert s == s[..p.used] + (CharsYield(more) + [QUOTE] + rest);
      RegroupMiddle(s[..p.used], CharsYield(more), [QUOTE], rest);
    }
  }

  // ---- values ----

  /** s begins with the text of a good derivation within the limits, which means what was got, and goes on with the
      rest. */
  ghost predicate Derives(n: Numbers, l: JsonLimits, depth: nat, nodes: nat, t: Tree, s: Text, g: Got<Json>) {
    && Good(t) && s == Yield(t) + g.rest && Meaning(n, t) == g.value
    && Within(n, l, t) && depth + TreeDepth(t) <= l.maxDepth && g.nodes == nodes + TreeNodes(t) <= l.maxNodes
  }

  lemma LiteralDerives(n: Numbers, l: JsonLimits, depth: nat, s: Text, nodes: nat) returns (t: Tree)
    requires depth <= l.maxDepth && 0 < nodes <= l.maxNodes && s != [] && (s[0] == 116 || s[0] == 102 || s[0] == 110)
    requires var r := if s[0] == 116 then ReadLiteral(s, Ascii("true"), Bool(true), nodes)
                      else if s[0] == 102 then ReadLiteral(s, Ascii("false"), Bool(false), nodes)
                      else ReadLiteral(s, Ascii("null"), Null, nodes);
             r.Ok?
    ensures var r := if s[0] == 116 then ReadLiteral(s, Ascii("true"), Bool(true), nodes)
                     else if s[0] == 102 then ReadLiteral(s, Ascii("false"), Bool(false), nodes)
                     else ReadLiteral(s, Ascii("null"), Null, nodes);
            Derives(n, l, depth, nodes - 1, t, s, r.value)
  {
    if s[0] == 116 {
      t := BoolTree(true);
      assert s == s[..|Ascii("true")|] + s[|Ascii("true")|..];
    } else if s[0] == 102 {
      t := BoolTree(false);
      assert s == s[..|Ascii("false")|] + s[|Ascii("false")|..];
    } else {
      t := NullTree;
      assert s == s[..|Ascii("null")|] + s[|Ascii("null")|..];
    }
  }

  lemma {:induction false} ValueDerives(n: Numbers, l: JsonLimits, depth: nat, s: Text, nodes: nat) returns (t: Tree)
    requires ReadValue(n, l, depth, s, nodes).Ok?
    ensures Derives(n, l, depth, nodes, t, s, ReadValue(n, l, depth, s, nodes).value)
    decreases |s|, 1
  {
    hide ReadObject, ReadArray, ReadString, ReadNumber, ReadLiteral, Derives;
    if s[0] == OPEN_OBJECT {
      t := ObjectDerives(n, l, depth, s, nodes + 1);
    } else if s[0] == OPEN_ARRAY {
      t := ArrayDerives(n, l, depth, s, nodes + 1);
    } else if s[0] == QUOTE {
      t := QuotedDerives(n, l, depth, s, nodes + 1);
    } else if s[0] == 116 || s[0] == 102 || s[0] == 110 {
      t := LiteralDerives(n, l, depth, s, nodes + 1);
    } else {
      t := ReadNumberDerives(n, l, depth, s, nodes + 1);
    }
  }

  lemma QuotedDerives(n: Numbers, l: JsonLimits, depth: nat, s: Text, nodes: nat) returns (t: Tree)
    requires depth <= l.maxDepth && 0 < nodes <= l.maxNodes && s != [] && s[0] == QUOTE && ReadString(l.maxStringBytes, s[1..], []).Ok?
    ensures var x := ReadString(l.maxStringBytes, s[1..], []).value;
            Derives(n, l, depth, nodes - 1, t, s, Got(Str(x.text), x.rest, nodes))
  {
    hide ReadString, GoodChars, CharsYield, CharsMeaning;
    var cs := StringDerives(l.maxStringBytes, s[1..], []);
    t := StrTree(cs);
    assert s == [QUOTE] + s[1..];
    assert [] + CharsMeaning(cs) == CharsMeaning(cs);
  }

  lemma ReadNumberDerives(n: Numbers, l: JsonLimits, depth: nat, s: Text, nodes: nat) returns (t: Tree)
    requires depth <= l.maxDepth && 0 < nodes <= l.maxNodes && ReadNumber(n, s, nodes).Ok?
    ensures Derives(n, l, depth, nodes - 1, t, s, ReadNumber(n, s, nodes).value)
  {
    hide NumberLength, GoodNumberTree, NumberYield;
    var number := NumberDerives(s);
    t := NumTree(number);
    assert s == s[..NumberLength(s).value] + s[NumberLength(s).value..];
  }

  lemma {:induction false} ArrayDerives(n: Numbers, l: JsonLimits, depth: nat, s: Text, nodes: nat) returns (t: Tree)
    requires depth <= l.maxDepth && 0 < nodes <= l.maxNodes
    requires s != [] && s[0] == OPEN_ARRAY && ReadArray(n, l, depth, s[1..], nodes).Ok?
    ensures Derives(n, l, depth, nodes - 1, t, s, ReadArray(n, l, depth, s[1..], nodes).value)
    decreases |s|, 0
  {
    hide ReadItems, Skip, GoodElements, ElementsYield, ElementsMeaning, ElementsWithin, ElementsDepth, ElementsNodes;
    var space := SkippedSpace(s[1..]);
    var u := Skip(s[1..]);
    assert s == [OPEN_ARRAY] + s[1..];
    if u != [] && u[0] == CLOSE_ARRAY {
      t := EmptyArray(space);
      assert s == [OPEN_ARRAY] + space + [CLOSE_ARRAY] + u[1..];
    } else {
      var es := ItemsDerive(n, l, depth, u, nodes, []);
      es := LeadingSpace(n, l, space, es);
      t := ArrayTree(es);
      var g := ReadItems(n, l, depth, u, nodes, []).value;
      assert [] + ElementsMeaning(n, es) == ElementsMeaning(n, es);
      assert s == [OPEN_ARRAY] + ElementsYield(es) + [CLOSE_ARRAY] + g.rest;
    }
  }

  /** Whitespace before the first element is part of it. */
  lemma LeadingSpace(n: Numbers, l: JsonLimits, space: Text, es: seq<Element>) returns (r: seq<Element>)
    requires AllSpace(space) && es != [] && GoodElements(es)
    ensures |r| == |es| && GoodElements(r) && (ElementsWithin(n, l, es) ==> ElementsWithin(n, l, r))
    ensures ElementsDepth(r) == ElementsDepth(es) && ElementsNodes(r) == ElementsNodes(es)
    ensures r != [] && ElementsYield(r) == space + ElementsYield(es) && ElementsMeaning(n, r) == ElementsMeaning(n, es)
  {
    hide Good, Yield, Meaning, Within;
    r := [es[0].(before := space + es[0].before)] + es[1..];
    assert r[1..] == es[1..];
    assert ElementYield(r[0]) == space + ElementYield(es[0]);
    assert AllSpace(r[0].before);
  }

  lemma {:induction false} ItemsDerive(n: Numbers, l: JsonLimits, depth: nat, s: Text, nodes: nat, done: seq<Json>) returns (es: seq<Element>)
    requires ReadItems(n, l, depth, s, nodes, done).Ok?
    ensures es != [] && GoodElements(es)
    ensures var g := ReadItems(n, l, depth, s, nodes, done).value;
            && s == ElementsYield(es) + [CLOSE_ARRAY] + g.rest && g.value == Array(done + ElementsMeaning(n, es))
            && ElementsWithin(n, l, es) && |done| + |es| <= l.maxArrayElements
            && depth + ElementsDepth(es) <= l.maxDepth && g.nodes == nodes + ElementsNodes(es) <= l.maxNodes
    decreases |s|, 2
  {
    hide ReadValue, Skip, Good, Yield, Meaning, Within, GoodElements, ElementsYield, ElementsMeaning, ElementsWithin, ElementsDepth, ElementsNodes;
    var before := SkippedSpace(s);
    var g := ReadValue(n, l, depth + 1, Skip(s), nodes).value;
    var t := ValueDerives(n, l, depth + 1, Skip(s), nodes);
    var after := SkippedSpace(g.rest);
    var u := Skip(g.rest);
    var e := Element(before, t, after);
    if u[0] == COMMA {
      var more := ItemsDerive(n, l, depth, u[1..], g.nodes, done + [g.value]);
      es := [e] + more;
      MoreElements(n, l, e, more);
      var rest := ReadItems(n, l, depth, u[1..], g.nodes, done + [g.value]).value.rest;
      assert u == [COMMA] + u[1..];
      assert s == ElementYield(e) + u;
      assert s == ElementsYield(es) + [CLOSE_ARRAY] + rest;
      Regroup(done, [g.value], ElementsMeaning(n, more));
    } else {
      es := [e];
      OneElement(n, l, e);
      assert u == [CLOSE_ARRAY] + u[1..];
      assert s == ElementYield(e) + u;
    }
  }

  lemma OneElement(n: Numbers, l: JsonLimits, e: Element)
    requires GoodElement(e)
    ensures ElementsDepth([e]) == 1 + TreeDepth(e.tree) && ElementsNodes([e]) == TreeNodes(e.tree)
    ensures GoodElements([e]) && (ElementsWithin(n, l, [e]) <==> Within(n, l, e.tree))
    ensures GoodElements([e]) && ElementsYield([e]) == ElementYield(e) && ElementsMeaning(n, [e]) == [Meaning(n, e.tree)]
  {
    hide Good, Yield, Meaning, Within;
    assert [e][1..] == [];
  }

  lemma MoreElements(n: Numbers, l: JsonLimits, e: Element, more: seq<Element>)
    requires GoodElement(e) && more != [] && GoodElements(more)
    ensures ElementsDepth([e] + more) == Max(1 + TreeDepth(e.tree), ElementsDepth(more))
    ensures ElementsNodes([e] + more) == TreeNodes(e.tree) + ElementsNodes(more)
    ensures GoodElements([e] + more) && (ElementsWithin(n, l, [e] + more) <==> Within(n, l, e.tree) && ElementsWithin(n, l, more))
    ensures var es := [e] + more;
            GoodElements(es) && ElementsYield(es) == ElementYield(e) + ([COMMA] + ElementsYield(more))
            && ElementsMeaning(n, es) == [Meaning(n, e.tree)] + ElementsMeaning(n, more)
  {
    hide Good, Yield, Meaning, Within;
    assert ([e] + more)[1..] == more;
  }

  // ---- objects ----

  lemma {:induction false} ObjectDerives(n: Numbers, l: JsonLimits, depth: nat, s: Text, nodes: nat) returns (t: Tree)
    requires depth <= l.maxDepth && 0 < nodes <= l.maxNodes
    requires s != [] && s[0] == OPEN_OBJECT && ReadObject(n, l, depth, s[1..], nodes).Ok?
    ensures Derives(n, l, depth, nodes - 1, t, s, ReadObject(n, l, depth, s[1..], nodes).value)
    decreases |s|, 0
  {
    hide ReadMembers, Skip, GoodEntries, EntriesYield, EntriesMeaning, EntriesWithin, EntriesDepth, EntriesNodes;
    var space := SkippedSpace(s[1..]);
    var u := Skip(s[1..]);
    assert s == [OPEN_OBJECT] + s[1..];
    if u != [] && u[0] == CLOSE_OBJECT {
      t := EmptyObject(space);
      assert s == [OPEN_OBJECT] + space + [CLOSE_OBJECT] + u[1..];
    } else {
      var es := MembersDerive(n, l, depth, u, nodes, []);
      es := LeadingEntrySpace(n, l, space, es);
      t := ObjectTree(es);
      var g := ReadMembers(n, l, depth, u, nodes, []).value;
      assert [] + EntriesMeaning(n, es) == EntriesMeaning(n, es);
      assert s == [OPEN_OBJECT] + EntriesYield(es) + [CLOSE_OBJECT] + g.rest;
    }
  }

  function EntryYield(e: Entry): Text { e.before + StringYield(e.key) + e.between + [COLON] + ElementYield(e.element) }

  predicate GoodEntry(e: Entry) { AllSpace(e.before) && GoodChars(e.key) && AllSpace(e.between) && GoodElement(e.element) }

  lemma LeadingEntrySpace(n: Numbers, l: JsonLimits, space: Text, es: seq<Entry>) returns (r: seq<Entry>)
    requires AllSpace(space) && es != [] && GoodEntries(es)
    ensures |r| == |es| && GoodEntries(r) && (EntriesWithin(n, l, es) ==> EntriesWithin(n, l, r))
    ensures EntriesDepth(r) == EntriesDepth(es) && EntriesNodes(r) == EntriesNodes(es)
    ensures r != [] && EntriesYield(r) == space + EntriesYield(es) && EntriesMeaning(n, r) == EntriesMeaning(n, es)
  {
    hide Good, Yield, Meaning, Within, StringYield, ElementYield, GoodChars, CharsMeaning;
    r := [es[0].(before := space + es[0].before)] + es[1..];
    assert r[1..] == es[1..];
    assert EntryYield(r[0]) == space + EntryYield(es[0]);
    assert AllSpace(r[0].before);
  }

  lemma KeyDerives(l: JsonLimits, s: Text) returns (before: Text, key: seq<CharTree>, between: Text)
    requires ReadKey(l, s).Ok?
    ensures AllSpace(before) && GoodChars(key) && AllSpace(between) && |CharsMeaning(key)| <= l.maxStringBytes
    ensures var x := ReadKey(l, s).value;
            s == before + StringYield(key) + between + [COLON] + x.rest && x.text == CharsMeaning(key)
  {
    hide ReadString, Skip, GoodChars, CharsYield, CharsMeaning;
    before := SkippedSpace(s);
    var t := Skip(s);
    key := StringDerives(l.maxStringBytes, t[1..], []);
    var x := ReadString(l.maxStringBytes, t[1..], []).value;
    between := SkippedSpace(x.rest);
    var u := Skip(x.rest);
    assert [] + CharsMeaning(key) == CharsMeaning(key);
    assert t == [QUOTE] + t[1..] && u == [COLON] + u[1..];
  }

  lemma {:induction false} MembersDerive(n: Numbers, l: JsonLimits, depth: nat, s: Text, nodes: nat, done: seq<Member>) returns (es: seq<Entry>)
    requires ReadMembers(n, l, depth, s, nodes, done).Ok?
    ensures es != [] && GoodEntries(es)
    ensures var g := ReadMembers(n, l, depth, s, nodes, done).value;
            && s == EntriesYield(es) + [CLOSE_OBJECT] + g.rest && g.value == Object(done + EntriesMeaning(n, es))
            && EntriesWithin(n, l, es) && |done| + |es| <= l.maxObjectMembers
            && depth + EntriesDepth(es) <= l.maxDepth && g.nodes == nodes + EntriesNodes(es) <= l.maxNodes
    decreases |s|, 2
  {
    hide ReadKey, ReadValue, Skip, Good, Yield, Meaning, Within, GoodEntries, EntriesYield, EntriesMeaning, EntriesWithin, EntriesDepth,
      EntriesNodes, StringYield, GoodChars, CharsMeaning;
    var head, key, between := KeyDerives(l, s);
    var k := ReadKey(l, s).value;
    var before := SkippedSpace(k.rest);
    var g := ReadValue(n, l, depth + 1, Skip(k.rest), nodes).value;
    var t := ValueDerives(n, l, depth + 1, Skip(k.rest), nodes);
    var after := SkippedSpace(g.rest);
    var u := Skip(g.rest);
    var e := Entry(head, key, between, Element(before, t, after));
    assert k.rest == ElementYield(e.element) + u;
    assert s == EntryYield(e) + u;
    var m := Member(k.text, g.value);
    if u[0] == COMMA {
      var more := MembersDerive(n, l, depth, u[1..], g.nodes, done + [m]);
      es := [e] + more;
      MoreEntries(n, l, e, more);
      var rest := ReadMembers(n, l, depth, u[1..], g.nodes, done + [m]).value.rest;
      assert u == [COMMA] + u[1..];
      assert s == EntriesYield(es) + [CLOSE_OBJECT] + rest;
      Regroup(done, [m], EntriesMeaning(n, more));
    } else {
      es := [e];
      OneEntry(n, l, e);
      assert u == [CLOSE_OBJECT] + u[1..];
    }
  }

  lemma OneEntry(n: Numbers, l: JsonLimits, e: Entry)
    requires GoodEntry(e)
    ensures EntriesDepth([e]) == 1 + TreeDepth(e.element.tree) && EntriesNodes([e]) == TreeNodes(e.element.tree)
    ensures GoodEntries([e])
    ensures EntriesWithin(n, l, [e]) <==> |CharsMeaning(e.key)| <= l.maxStringBytes && Within(n, l, e.element.tree)
    ensures GoodEntries([e]) && EntriesYield([e]) == EntryYield(e)
    ensures EntriesMeaning(n, [e]) == [Member(CharsMeaning(e.key), Meaning(n, e.element.tree))]
  {
    hide Good, Yield, Meaning, Within, StringYield, GoodChars, CharsMeaning, ElementYield;
    assert [e][1..] == [];
  }

  lemma MoreEntries(n: Numbers, l: JsonLimits, e: Entry, more: seq<Entry>)
    requires GoodEntry(e) && more != [] && GoodEntries(more)
    ensures EntriesDepth([e] + more) == Max(1 + TreeDepth(e.element.tree), EntriesDepth(more))
    ensures EntriesNodes([e] + more) == TreeNodes(e.element.tree) + EntriesNodes(more)
    ensures GoodEntries([e] + more)
    ensures EntriesWithin(n, l, [e] + more)
       <==> |CharsMeaning(e.key)| <= l.maxStringBytes && Within(n, l, e.element.tree) && EntriesWithin(n, l, more)
    ensures var es := [e] + more;
            GoodEntries(es) && EntriesYield(es) == EntryYield(e) + ([COMMA] + EntriesYield(more))
            && EntriesMeaning(n, es) == [Member(CharsMeaning(e.key), Meaning(n, e.element.tree))] + EntriesMeaning(n, more)
  {
    hide Good, Yield, Meaning, Within, StringYield, GoodChars, CharsMeaning, ElementYield;
    assert ([e] + more)[1..] == more;
  }

  /** A derivation of the whole text, with whitespace around its value, within the limits. */
  ghost predicate Accepts(n: Numbers, l: JsonLimits, input: Text, e: Element) {
    && GoodElement(e) && ElementYield(e) == input && |input| <= l.maxInputBytes
    && Within(n, l, e.tree) && TreeDepth(e.tree) <= l.maxDepth && TreeNodes(e.tree) <= l.maxNodes
  }

  /** The parser is sound: a text that it accepts is derived by the grammar within the limits, and what it returns is
      what the derivation means. */
  lemma AcceptedIsGrammatical(n: Numbers, l: JsonLimits, input: Text) returns (e: Element)
    requires Parse(n, l, input).Ok?
    ensures Accepts(n, l, input, e) && Meaning(n, e.tree) == Parse(n, l, input).value
  {
    hide ReadValue, Skip, Good, Yield, Meaning, Within;
    var before := SkippedSpace(input);
    var g := ReadValue(n, l, 0, Skip(input), 0).value;
    var t := ValueDerives(n, l, 0, Skip(input), 0);
    var after := SkippedSpace(g.rest);
    e := Element(before, t, after);
    assert after + [] == after;
  }
}
