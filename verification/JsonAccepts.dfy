/** Every text of the grammar that is within the limits is accepted, so that the parser accepts exactly those
    (src/json.cpp; sections 2 to 9 of RFC 8259). */
module JsonAccepts {
  import opened Bytes
  import opened Hex
  import opened JsonText
  import opened JsonGrammar

  // ---- lexical parts ----

  lemma {:induction false} SkipSpace(space: Text, rest: Text)
    requires AllSpace(space) && (rest == [] || !IsSpace(rest[0]))
    ensures Skip(space + rest) == rest
  {
    if space == [] {
      assert space + rest == rest;
    } else {
      assert (space + rest)[0] == space[0] && (space + rest)[1..] == space[1..] + rest;
      SkipSpace(space[1..], rest);
    }
  }

  lemma {:induction false} AllAreDigits(s: Text, rest: Text)
    requires AllDigits(s) && !StartsDigit(rest)
    ensures Digits(s + rest) == |s|
  {
    if s == [] {
      assert s + rest == rest;
    } else {
      assert (s + rest)[0] == s[0] && (s + rest)[1..] == s[1..] + rest;
      AllAreDigits(s[1..], rest);
    }
  }

  lemma IntegerReads(minus: bool, digits: Text, rest: Text)
    requires digits != [] && AllDigits(digits) && (digits[0] == 48 ==> |digits| == 1) && !StartsDigit(rest)
    ensures var s := (if minus then [MINUS] else []) + digits + rest;
            IntegerLength(s) == Ok(|digits| + if minus then 1 else 0)
  {
    var s := (if minus then [MINUS] else []) + digits + rest;
    var k := if minus then 1 else 0;
    assert s[k..] == digits + rest;
    AllAreDigits(digits, rest);
  }

  lemma FractionReads(fraction: Text, rest: Text)
    requires fraction == [] || (|fraction| >= 2 && fraction[0] == POINT && AllDigits(fraction[1..]))
    requires !StartsDigit(rest) && (rest == [] || rest[0] != POINT)
    ensures FractionLength(fraction + rest) == Ok(|fraction|)
  {
    if fraction == [] {
      assert fraction + rest == rest;
    } else {
      assert (fraction + rest)[1..] == fraction[1..] + rest;
      AllAreDigits(fraction[1..], rest);
    }
  }

  lemma ExponentReads(exponent: Text)
    requires exponent == [] || GoodExponent(exponent)
    ensures ExponentLength(exponent) == Ok(|exponent|)
  {
    if exponent != [] {
      var sign := if exponent[1] == 43 || exponent[1] == MINUS then 1 else 0;
      assert exponent[1 + sign..] + [] == exponent[1 + sign..];
      AllAreDigits(exponent[1 + sign..], []);
    }
  }

  lemma TokenReads(s: Text, head: Text, fraction: Text, exponent: Text)
    requires s == head + (fraction + exponent) && IntegerLength(s) == Ok(|head|)
    requires FractionLength(fraction + exponent) == Ok(|fraction|) && ExponentLength(exponent) == Ok(|exponent|)
    ensures NumberLength(s) == Ok(|s|)
  {
    hide IntegerLength, FractionLength, ExponentLength;
    assert s[|head|..] == fraction + exponent;
    assert s[|head| + |fraction|..] == exponent;
  }

  lemma NumberReads(t: NumberTree)
    requires GoodNumberTree(t)
    ensures NumberLength(NumberYield(t)) == Ok(|NumberYield(t)|)
  {
    var head, more := (if t.minus then [MINUS] else []) + t.int_, t.fraction + t.exponent;
    assert NumberYield(t) == head + more;
    assert !StartsDigit(more) && !StartsDigit(t.exponent) && (t.exponent == [] || t.exponent[0] != POINT);
    hide IntegerLength, FractionLength, ExponentLength, NumberLength, GoodExponent, NumberYield, StartsDigit;
    IntegerReads(t.minus, t.int_, more);
    FractionReads(t.fraction, t.exponent);
    ExponentReads(t.exponent);
    TokenReads(head + more, head, t.fraction, t.exponent);
  }

  lemma HexReads(before: Text, d: Text, rest: Text)
    requires FourHex(d)
    ensures Hex4(before + d + rest, |before|) == Ok(HexNumber(d))
  {
    hide HexValue;
    var s, at := before + d + rest, |before|;
    assert s[at] == d[0] && s[at + 1] == d[1] && s[at + 2] == d[2] && s[at + 3] == d[3];
  }

  lemma UnicodeReads(c: CharTree, rest: Text)
    requires Denotes(c) && (c.Unicode? || c.Pair?)
    ensures var s := CharYield(c) + rest; UnicodeEscape(s) == Ok(Piece(CharMeaning(c), |CharYield(c)|))
  {
    hide Hex4, FourHex, HexNumber, Utf8;
    var mark := [BACKSLASH, LETTER_U];
    var s := CharYield(c) + rest;
    match c
    case Unicode(d) =>
      HexShape(d);
      assert s == mark + d + rest;
      HexReads(mark, d, rest);
    case Pair(high, low) =>
      HexShape(high);
      HexShape(low);
      assert s == mark + high + (mark + low + rest) && s == (mark + high + mark) + low + rest;
      HexReads(mark, high, mark + low + rest);
      HexReads(mark + high + mark, low, rest);
      assert s[6] == BACKSLASH && s[7] == LETTER_U;
  }

  lemma HexShape(d: Text)
    requires FourHex(d)
    ensures |d| == 4
  {
  }

  lemma CharReads(c: CharTree, rest: Text)
    requires Denotes(c)
    ensures var s := CharYield(c) + rest;
            s != [] && s[0] != QUOTE && CharAt(s) == Ok(Piece(CharMeaning(c), |CharYield(c)|)) && s[|CharYield(c)|..] == rest
  {
    hide UnicodeEscape, FourHex;
    var s := CharYield(c) + rest;
    if c.Unicode? || c.Pair? {
      UnicodeReads(c, rest);
      assert s[0] == BACKSLASH && s[1] == LETTER_U;
    }
  }

  lemma {:induction false} StringReads(max: nat, cs: seq<CharTree>, done: Text, rest: Text)
    requires GoodChars(cs) && |done + CharsMeaning(cs)| <= max
    ensures ReadString(max, CharsYield(cs) + [QUOTE] + rest, done) == Ok(Lexed(done + CharsMeaning(cs), rest))
    decreases |cs|
  {
    hide CharAt, CharYield, CharMeaning, Denotes;
    var s := CharsYield(cs) + [QUOTE] + rest;
    if cs == [] {
      assert s == [QUOTE] + rest && s[1..] == rest;
      assert done + CharsMeaning(cs) == done;
    } else {
      var after := CharsYield(cs[1..]) + [QUOTE] + rest;
      RegroupMiddle(CharYield(cs[0]), CharsYield(cs[1..]), [QUOTE], rest);
      assert s == CharYield(cs[0]) + after;
      CharReads(cs[0], after);
      Regroup(done, CharMeaning(cs[0]), CharsMeaning(cs[1..]));
      StringReads(max, cs[1..], done + CharMeaning(cs[0]), rest);
    }
  }

  // ---- values ----

  lemma YieldStart(t: Tree)
    requires Good(t)
    ensures Yield(t) != [] && !IsSpace(Yield(t)[0]) && Yield(t)[0] != CLOSE_ARRAY && Yield(t)[0] != CLOSE_OBJECT
  {
    hide GoodElements, GoodEntries, ElementsYield, EntriesYield, CharsYield, GoodChars;
    if t.NumTree? {
      NumberReads(t.number);
      NumberStart(NumberYield(t.number));
    }
  }

  lemma {:induction false} ValueReads(n: Numbers, l: JsonLimits, depth: nat, nodes: nat, t: Tree, rest: Text)
    requires Good(t) && Within(n, l, t) && depth + TreeDepth(t) <= l.maxDepth && nodes + TreeNodes(t) <= l.maxNodes && Delimited(rest)
    ensures ReadValue(n, l, depth, Yield(t) + rest, nodes) == Ok(Got(Meaning(n, t), rest, nodes + TreeNodes(t)))
    decreases t, 1
  {
    hide ReadValue, GoodElements, GoodEntries, ElementsYield, EntriesYield, ElementsMeaning, EntriesMeaning, ElementsWithin, EntriesWithin,
      ElementsDepth, EntriesDepth, ElementsNodes, EntriesNodes, StringYield, NumberYield, GoodNumberTree;
    match t
    case NullTree => ReadWrittenNull(n, l, depth, nodes, rest);
    case BoolTree(b) => ReadWrittenBool(n, l, b, depth, nodes, rest);
    case NumTree(number) => NumberValueReads(n, l, depth, nodes, number, rest);
    case StrTree(chars) => StringValueReads(n, l, depth, nodes, chars, rest);
    case EmptyArray(space) => EmptyReads(n, l, depth, nodes, space, rest);
    case ArrayTree(es) => ArrayReads(n, l, depth, nodes, es, rest);
    case EmptyObject(space) => EmptyReads(n, l, depth, nodes, space, rest);
    case ObjectTree(es) => ObjectReads(n, l, depth, nodes, es, rest);
  }

  lemma NumberValueReads(n: Numbers, l: JsonLimits, depth: nat, nodes: nat, number: NumberTree, rest: Text)
    requires GoodNumberTree(number) && n.scan(NumberYield(number)).Ok? && depth <= l.maxDepth && nodes + 1 <= l.maxNodes && Delimited(rest)
    ensures ReadValue(n, l, depth, NumberYield(number) + rest, nodes)
         == Ok(Got(Number(n.scan(NumberYield(number)).value), rest, nodes + 1))
  {
    hide NumberLength, ReadString, ReadObject, ReadArray, GoodNumberTree, NumberYield;
    var s := NumberYield(number);
    NumberReads(number);
    NumberStart(s);
    NumberExtends(s, rest);
    assert (s + rest)[..|s|] == s && (s + rest)[|s|..] == rest;
  }

  lemma StringValueReads(n: Numbers, l: JsonLimits, depth: nat, nodes: nat, chars: seq<CharTree>, rest: Text)
    requires GoodChars(chars) && |CharsMeaning(chars)| <= l.maxStringBytes && depth <= l.maxDepth && nodes + 1 <= l.maxNodes
    ensures ReadValue(n, l, depth, StringYield(chars) + rest, nodes) == Ok(Got(Str(CharsMeaning(chars)), rest, nodes + 1))
  {
    hide ReadString, ReadNumber, ReadObject, ReadArray, GoodChars, CharsYield, CharsMeaning;
    var s := StringYield(chars) + rest;
    assert s[1..] == CharsYield(chars) + [QUOTE] + rest;
    assert [] + CharsMeaning(chars) == CharsMeaning(chars);
    StringReads(l.maxStringBytes, chars, [], rest);
  }

  lemma EmptyReads(n: Numbers, l: JsonLimits, depth: nat, nodes: nat, space: Text, rest: Text)
    requires AllSpace(space) && depth <= l.maxDepth && nodes + 1 <= l.maxNodes
    ensures ReadValue(n, l, depth, [OPEN_ARRAY] + space + [CLOSE_ARRAY] + rest, nodes) == Ok(Got(Array([]), rest, nodes + 1))
    ensures ReadValue(n, l, depth, [OPEN_OBJECT] + space + [CLOSE_OBJECT] + rest, nodes) == Ok(Got(Object([]), rest, nodes + 1))
  {
    hide ReadString, ReadNumber, ReadItems, ReadMembers, Skip;
    var a, o := [OPEN_ARRAY] + space + [CLOSE_ARRAY] + rest, [OPEN_OBJECT] + space + [CLOSE_OBJECT] + rest;
    assert a[1..] == space + ([CLOSE_ARRAY] + rest) && o[1..] == space + ([CLOSE_OBJECT] + rest);
    SkipSpace(space, [CLOSE_ARRAY] + rest);
    SkipSpace(space, [CLOSE_OBJECT] + rest);
  }

  lemma SpaceDelimits(space: Text, rest: Text)
    requires AllSpace(space) && Delimited(rest)
    ensures Delimited(space + rest)
  {
    if space == [] {
      assert space + rest == rest;
    }
  }

  lemma TailAfter(first: Text, more: Text, close: Text, rest: Text)
    ensures first + ([COMMA] + more) + close + rest == first + ([COMMA] + more + close + rest)
    ensures ([COMMA] + more + close + rest)[1..] == more + close + rest
  {
  }

  // ---- arrays ----

  lemma {:induction false} ArrayReads(n: Numbers, l: JsonLimits, depth: nat, nodes: nat, es: seq<Element>, rest: Text)
    requires es != [] && GoodElements(es) && ElementsWithin(n, l, es) && |es| <= l.maxArrayElements
    requires depth + ElementsDepth(es) <= l.maxDepth && nodes + 1 + ElementsNodes(es) <= l.maxNodes
    ensures ReadValue(n, l, depth, [OPEN_ARRAY] + ElementsYield(es) + [CLOSE_ARRAY] + rest, nodes)
         == Ok(Got(Array(ElementsMeaning(n, es)), rest, nodes + 1 + ElementsNodes(es)))
    decreases es, 2
  {
    hide ReadString, ReadNumber, ReadItems, Skip, GoodElements, ElementsYield, ElementsMeaning, ElementsWithin, ElementsDepth, ElementsNodes;
    var s, inner := [OPEN_ARRAY] + ElementsYield(es) + [CLOSE_ARRAY] + rest, ElementsYield(es) + [CLOSE_ARRAY] + rest;
    assert s[1..] == inner;
    ElementsRead(n, l, depth, nodes + 1, es, [], rest);
    ElementsStart(es, [CLOSE_ARRAY] + rest);
    assert inner == ElementsYield(es) + ([CLOSE_ARRAY] + rest);
    ReadItemsSkips(n, l, depth, inner, Skip(inner), nodes + 1, []);
    assert [] + ElementsMeaning(n, es) == ElementsMeaning(n, es);
  }

  lemma ElementsStart(es: seq<Element>, tail: Text)
    requires es != [] && GoodElements(es)
    ensures var t := Skip(ElementsYield(es) + tail); t != [] && !IsSpace(t[0]) && t[0] != CLOSE_ARRAY && t[0] != CLOSE_OBJECT
  {
    hide Good, Yield, Skip;
    assert GoodElement(es[0]);
    YieldStart(es[0].tree);
    var more := (if |es| == 1 then [] else [COMMA] + ElementsYield(es[1..]));
    var t := Yield(es[0].tree) + (es[0].after + more + tail);
    assert ElementsYield(es) + tail == es[0].before + t;
    SkipSpace(es[0].before, t);
  }

  /** One element and what follows it: reading stands after the value, skips, and meets the comma or the bracket. */
  lemma {:induction false} ElementReads(n: Numbers, l: JsonLimits, depth: nat, nodes: nat, e: Element, tail: Text)
    requires GoodElement(e) && Within(n, l, e.tree) && depth + TreeDepth(e.tree) <= l.maxDepth && nodes + TreeNodes(e.tree) <= l.maxNodes
    requires tail != [] && !IsSpace(tail[0]) && Delimited(tail)
    ensures ReadValue(n, l, depth, Skip(ElementYield(e) + tail), nodes) == Ok(Got(Meaning(n, e.tree), e.after + tail, nodes + TreeNodes(e.tree)))
    ensures Skip(e.after + tail) == tail
    decreases e
  {
    hide ReadValue, Skip, Good, Yield, Meaning, Within, TreeDepth, TreeNodes;
    YieldStart(e.tree);
    var t := Yield(e.tree) + (e.after + tail);
    assert ElementYield(e) + tail == e.before + t;
    SkipSpace(e.before, t);
    SpaceDelimits(e.after, tail);
    ValueReads(n, l, depth, nodes, e.tree, e.after + tail);
    SkipSpace(e.after, tail);
  }

  lemma {:induction false} ElementsRead(n: Numbers, l: JsonLimits, depth: nat, nodes: nat, es: seq<Element>, done: seq<Json>, rest: Text)
    requires es != [] && GoodElements(es) && ElementsWithin(n, l, es) && |done| + |es| <= l.maxArrayElements
    requires depth + ElementsDepth(es) <= l.maxDepth && nodes + ElementsNodes(es) <= l.maxNodes
    ensures ReadItems(n, l, depth, ElementsYield(es) + [CLOSE_ARRAY] + rest, nodes, done)
         == Ok(Got(Array(done + ElementsMeaning(n, es)), rest, nodes + ElementsNodes(es)))
    decreases es, 1
  {
    hide ReadValue, Skip, Good, Yield, Meaning, Within, TreeDepth, TreeNodes;
    var e, more := es[0], es[1..];
    assert GoodElement(e) && es == [e] + more;
    if |es| == 1 {
      OneElement(n, l, e);
      assert es == [e];
    } else {
      assert GoodElements(more);
      MoreElements(n, l, e, more);
    }
    hide GoodElements, ElementsYield, ElementsMeaning, ElementsWithin, ElementsDepth, ElementsNodes, ElementYield;
    var tail := if |es| == 1 then [CLOSE_ARRAY] + rest else [COMMA] + ElementsYield(more) + [CLOSE_ARRAY] + rest;
    if |es| == 1 {
      Regroup(ElementYield(e), [CLOSE_ARRAY], rest);
    } else {
      TailAfter(ElementYield(e), ElementsYield(more), [CLOSE_ARRAY], rest);
    }
    assert ElementsYield(es) + [CLOSE_ARRAY] + rest == ElementYield(e) + tail;
    ElementReads(n, l, depth + 1, nodes, e, tail);
    if |es| == 1 {
      assert tail[1..] == rest;
    } else {
      assert tail[1..] == ElementsYield(more) + [CLOSE_ARRAY] + rest;
      ElementsRead(n, l, depth, nodes + TreeNodes(e.tree), more, done + [Meaning(n, e.tree)], rest);
      Regroup(done, [Meaning(n, e.tree)], ElementsMeaning(n, more));
    }
  }

  // ---- objects ----

  lemma {:induction false} ObjectReads(n: Numbers, l: JsonLimits, depth: nat, nodes: nat, es: seq<Entry>, rest: Text)
    requires es != [] && GoodEntries(es) && EntriesWithin(n, l, es) && |es| <= l.maxObjectMembers
    requires depth + EntriesDepth(es) <= l.maxDepth && nodes + 1 + EntriesNodes(es) <= l.maxNodes
    ensures ReadValue(n, l, depth, [OPEN_OBJECT] + EntriesYield(es) + [CLOSE_OBJECT] + rest, nodes)
         == Ok(Got(Object(EntriesMeaning(n, es)), rest, nodes + 1 + EntriesNodes(es)))
    decreases es, 2
  {
    hide ReadString, ReadNumber, ReadMembers, Skip, GoodEntries, EntriesYield, EntriesMeaning, EntriesWithin, EntriesDepth, EntriesNodes;
    var s, inner := [OPEN_OBJECT] + EntriesYield(es) + [CLOSE_OBJECT] + rest, EntriesYield(es) + [CLOSE_OBJECT] + rest;
    assert s[1..] == inner;
    EntriesRead(n, l, depth, nodes + 1, es, [], rest);
    EntriesStart(es, [CLOSE_OBJECT] + rest);
    assert inner == EntriesYield(es) + ([CLOSE_OBJECT] + rest);
    ReadMembersSkips(n, l, depth, inner, Skip(inner), nodes + 1, []);
    assert [] + EntriesMeaning(n, es) == EntriesMeaning(n, es);
  }

  lemma EntriesStart(es: seq<Entry>, tail: Text)
    requires es != [] && GoodEntries(es)
    ensures var t := Skip(EntriesYield(es) + tail); t != [] && t[0] == QUOTE
  {
    hide Good, Yield, Skip, CharsYield, GoodChars;
    var e := es[0];
    var more := (if |es| == 1 then [] else [COMMA] + EntriesYield(es[1..]));
    var t := StringYield(e.key) + (e.between + [COLON] + ElementYield(e.element) + more + tail);
    assert EntriesYield(es) + tail == e.before + t;
    SkipSpace(e.before, t);
  }

  lemma KeyReads(l: JsonLimits, e: Entry, tail: Text)
    requires GoodEntry(e) && |CharsMeaning(e.key)| <= l.maxStringBytes
    ensures ReadKey(l, EntryYield(e) + tail) == Ok(Lexed(CharsMeaning(e.key), ElementYield(e.element) + tail))
  {
    hide ReadString, Skip, Good, GoodChars, CharsYield, CharsMeaning, ElementYield;
    var inner := e.between + [COLON] + ElementYield(e.element) + tail;
    var t := StringYield(e.key) + inner;
    assert EntryYield(e) + tail == e.before + t;
    SkipSpace(e.before, t);
    assert t[1..] == CharsYield(e.key) + [QUOTE] + inner;
    assert [] + CharsMeaning(e.key) == CharsMeaning(e.key);
    StringReads(l.maxStringBytes, e.key, [], inner);
    var u := [COLON] + (ElementYield(e.element) + tail);
    assert inner == e.between + u;
    SkipSpace(e.between, u);
    assert u[1..] == ElementYield(e.element) + tail;
  }

  lemma {:induction false} EntriesRead(n: Numbers, l: JsonLimits, depth: nat, nodes: nat, es: seq<Entry>, done: seq<Member>, rest: Text)
    requires es != [] && GoodEntries(es) && EntriesWithin(n, l, es) && |done| + |es| <= l.maxObjectMembers
    requires depth + EntriesDepth(es) <= l.maxDepth && nodes + EntriesNodes(es) <= l.maxNodes
    ensures ReadMembers(n, l, depth, EntriesYield(es) + [CLOSE_OBJECT] + rest, nodes, done)
         == Ok(Got(Object(done + EntriesMeaning(n, es)), rest, nodes + EntriesNodes(es)))
    decreases es, 1
  {
    hide ReadKey, ReadValue, Skip, Good, Yield, Meaning, Within, TreeDepth, TreeNodes, GoodChars, CharsMeaning, StringYield, ElementYield;
    var e, more := es[0], es[1..];
    assert GoodEntry(e) && es == [e] + more;
    if |es| == 1 {
      OneEntry(n, l, e);
      assert es == [e];
    } else {
      assert GoodEntries(more);
      MoreEntries(n, l, e, more);
    }
    hide GoodEntries, EntriesYield, EntriesMeaning, EntriesWithin, EntriesDepth, EntriesNodes, EntryYield;
    var tail := if |es| == 1 then [CLOSE_OBJECT] + rest else [COMMA] + EntriesYield(more) + [CLOSE_OBJECT] + rest;
    if |es| == 1 {
      Regroup(EntryYield(e), [CLOSE_OBJECT], rest);
    } else {
      TailAfter(EntryYield(e), EntriesYield(more), [CLOSE_OBJECT], rest);
    }
    assert EntriesYield(es) + [CLOSE_OBJECT] + rest == EntryYield(e) + tail;
    KeyReads(l, e, tail);
    ElementReads(n, l, depth + 1, nodes, e.element, tail);
    var m := Member(CharsMeaning(e.key), Meaning(n, e.element.tree));
    if |es| == 1 {
      assert tail[1..] == rest;
    } else {
      assert tail[1..] == EntriesYield(more) + [CLOSE_OBJECT] + rest;
      EntriesRead(n, l, depth, nodes + TreeNodes(e.element.tree), more, done + [m], rest);
      Regroup(done, [m], EntriesMeaning(n, more));
    }
  }

  // ---- the parser recognises the grammar ----

  /** Completeness: a text that has a derivation within the limits is accepted, and means what it derives. */
  lemma GrammaticalIsAccepted(n: Numbers, l: JsonLimits, input: Text, e: Element)
    requires Accepts(n, l, input, e)
    ensures Parse(n, l, input) == Ok(Meaning(n, e.tree))
  {
    hide ReadValue, Skip, Good, Yield, Meaning, Within, TreeDepth, TreeNodes;
    YieldStart(e.tree);
    var t := Yield(e.tree) + e.after;
    assert ElementYield(e) == e.before + t;
    SkipSpace(e.before, t);
    assert e.after + [] == e.after;
    SpaceDelimits(e.after, []);
    ValueReads(n, l, 0, 0, e.tree, e.after);
    SkipSpace(e.after, []);
  }

  /** The parser accepts exactly the texts of the grammar that are within its limits, with each surrogate escape
      paired; and every derivation of such a text means the same value. */
  lemma ParserRecognisesGrammar(n: Numbers, l: JsonLimits, input: Text)
    ensures Parse(n, l, input).Ok? <==> exists e :: Accepts(n, l, input, e)
    ensures forall e :: Accepts(n, l, input, e) ==> Parse(n, l, input) == Ok(Meaning(n, e.tree))
  {
    hide Accepts, Parse, Meaning;
    if Parse(n, l, input).Ok? {
      var e := AcceptedIsGrammatical(n, l, input);
    }
    forall e | Accepts(n, l, input, e) ensures Good(e.tree) && Parse(n, l, input) == Ok(Meaning(n, e.tree)) {
      DerivesGood(n, l, input, e);
      GrammaticalIsAccepted(n, l, input, e);
    }
  }

  lemma DerivesGood(n: Numbers, l: JsonLimits, input: Text, e: Element)
    requires Accepts(n, l, input, e)
    ensures Good(e.tree)
  {
    hide Good;
  }
}
