/** Values as tagged JSON envelopes, with 64-bit integers carried as decimal text (src/json.cpp). */
module JsonValues {
  import opened Bytes
  import opened Hex
  import opened JsonText
  import Ids
  import Values

  // ---- to JSON ----

  const KIND_NAME: Text := Ascii("k")
  const VALUE_NAME: Text := Ascii("v")

  function Tagged(kind: Text, payload: Json): Json { Object([Member(KIND_NAME, Str(kind)), Member(VALUE_NAME, payload)]) }

  function SignedDecimal(n: int): Text { if n < 0 then [MINUS] + Ids.Decimal(-n) else Ids.Decimal(n) }

  function ToJson(v: Values.Value): Json
    decreases v
  {
    match v
    case Null => Tagged(Ascii("null"), Json.Null)
    case Bool(b) => Tagged(Ascii("bool"), Json.Bool(b))
    case Int(n) => Tagged(Ascii("int"), Str(SignedDecimal(n)))
    case Uint(n) => Tagged(Ascii("uint"), Str(Ids.Decimal(n)))
    case Real(bits) => Tagged(Ascii("real"), Number(bits))
    case Txt(t) => Tagged(Ascii("text"), Str(t))
    case Blob(b) => Tagged(Ascii("blob"), Str(Values.HexText(b)))
    case List(es) => Tagged(Ascii("list"), Array(ElementsToJson(es)))
    case Map(es) => Tagged(Ascii("map"), Array(EntriesToJson(es)))
  }

  function ElementsToJson(es: seq<Values.Value>): (r: seq<Json>)
    ensures |r| == |es|
    decreases es
  {
    if es == [] then [] else ElementsToJson(es[..|es| - 1]) + [ToJson(es[|es| - 1])]
  }

  function EntryToJson(e: Values.Entry): Json
    decreases e
  {
    Object([Member(KIND_NAME, Str(e.key)), Member(VALUE_NAME, ToJson(e.value))])
  }

  function EntriesToJson(es: seq<Values.Entry>): (r: seq<Json>)
    ensures |r| == |es|
    decreases es
  {
    if es == [] then [] else EntriesToJson(es[..|es| - 1]) + [EntryToJson(es[|es| - 1])]
  }

  // ---- from JSON ----

  /** The first member of that name. */
  function FindMember(members: seq<Member>, name: Text): (r: Option<Json>)
    ensures r.Some? ==> exists i :: 0 <= i < |members| && members[i].value == r.value
  {
    if members == [] then None
    else if members[0].name == name then Some(members[0].value)
    else
      var r := FindMember(members[1..], name);
      assert forall i :: 0 <= i < |members[1..]| ==> members[1..][i] == members[i + 1];
      r
  }

  /** std::from_chars on an unsigned 64-bit target, consuming the whole text. */
  function ScanUnsigned(t: Text, max: nat): Result<nat> {
    if t == [] || !Ids.AllDigits(t) then Err(MalformedInput)
    else if Ids.DigitsValue(t) > max then Err(MalformedInput)
    else Ok(Ids.DigitsValue(t))
  }

  function ScanU64(t: Text): Result<u64> {
    match ScanUnsigned(t, U64_MODULUS - 1) case Err(c) => Err(c) case Ok(n) => Ok(n % U64_MODULUS)
  }

  /** On a signed target a minus sign may come first. */
  function ScanI64(t: Text): Result<i64> {
    if t != [] && t[0] == MINUS then
      match ScanUnsigned(t[1..], I64_MAX + 1) case Err(c) => Err(c) case Ok(n) => if n > I64_MAX + 1 then Err(MalformedInput) else Ok(0 - (n as int))
    else
      match ScanUnsigned(t, I64_MAX) case Err(c) => Err(c) case Ok(n) => if n > I64_MAX then Err(MalformedInput) else Ok(n)
  }

  /** Which tag this is, or 9. */
  function TagIndex(tag: Text): nat {
    if tag == Ascii("null") then 0
    else if tag == Ascii("bool") then 1
    else if tag == Ascii("int") then 2
    else if tag == Ascii("uint") then 3
    else if tag == Ascii("real") then 4
    else if tag == Ascii("text") then 5
    else if tag == Ascii("blob") then 6
    else if tag == Ascii("list") then 7
    else if tag == Ascii("map") then 8
    else 9
  }

  lemma TagIndexes()
    ensures TagIndex(Ascii("null")) == 0 && TagIndex(Ascii("bool")) == 1 && TagIndex(Ascii("int")) == 2
    ensures TagIndex(Ascii("uint")) == 3 && TagIndex(Ascii("real")) == 4 && TagIndex(Ascii("text")) == 5
    ensures TagIndex(Ascii("blob")) == 6 && TagIndex(Ascii("list")) == 7 && TagIndex(Ascii("map")) == 8
  {
    hide Ascii;
    assert Ascii("null")[0] == 110 && Ascii("bool")[1] == 111 && Ascii("int")[0] == 105 && Ascii("uint")[0] == 117;
    assert Ascii("real")[0] == 114 && Ascii("text")[0] == 116 && Ascii("blob")[1] == 108 && Ascii("list")[0] == 108;
    assert Ascii("map")[0] == 109 && Ascii("bool")[0] == 98 && Ascii("blob")[0] == 98;
  }

  function FromJson(j: Json, limits: Values.ValueLimits): Result<Values.Value>
    decreases j, 1
  {
    if !j.Object? then Err(MalformedInput)
    else
      var kind, payload := FindMember(j.members, KIND_NAME), FindMember(j.members, VALUE_NAME);
      if kind.None? || !kind.value.Str? then Err(MalformedInput)
      else
        var tag := TagIndex(kind.value.text);
        if tag == 0 then Ok(Values.Null)
        else if tag == 1 then
          if payload.None? || !payload.value.Bool? then Err(MalformedInput) else Ok(Values.Bool(payload.value.flag))
        else if tag == 2 then
          if payload.None? || !payload.value.Str? then Err(MalformedInput)
          else (match ScanI64(payload.value.text) case Err(c) => Err(c) case Ok(n) => Ok(Values.Int(n)))
        else if tag == 3 then
          if payload.None? || !payload.value.Str? then Err(MalformedInput)
          else (match ScanU64(payload.value.text) case Err(c) => Err(c) case Ok(n) => Ok(Values.Uint(n)))
        else if tag == 4 then
          if payload.None? || !payload.value.Number? then Err(MalformedInput) else Values.MakeReal(payload.value.bits)
        else if tag == 5 then
          if payload.None? || !payload.value.Str? then Err(MalformedInput) else Values.MakeText(payload.value.text, limits)
        else if tag == 6 then
          if payload.None? || !payload.value.Str? then Err(MalformedInput)
          else (match HexDecode(payload.value.text) case Err(c) => Err(c) case Ok(b) => Values.MakeBlob(b, limits))
        else if tag == 7 then
          if payload.None? || !payload.value.Array? then Err(MalformedInput)
          else (match ElementsFromJson(payload.value.items, [], limits)
                case Err(c) => Err(c)
                case Ok(es) => Values.MakeList(es, limits))
        else if tag == 8 then
          if payload.None? || !payload.value.Array? then Err(MalformedInput)
          else (match EntriesFromJson(payload.value.items, [], limits)
                case Err(c) => Err(c)
                case Ok(es) => Values.MakeMap(es, limits))
        else Err(StatusCode.Unsupported)
  }

  function ElementsFromJson(items: seq<Json>, done: seq<Values.Value>, limits: Values.ValueLimits): Result<seq<Values.Value>>
    decreases items, 0
  {
    if items == [] then Ok(done)
    else match FromJson(items[0], limits)
      case Err(c) => Err(c)
      case Ok(v) => ElementsFromJson(items[1..], done + [v], limits)
  }

  function EntryFromJson(j: Json, limits: Values.ValueLimits): Result<Values.Entry>
    decreases j, 2
  {
    if !j.Object? then Err(MalformedInput)
    else
      var key, value := FindMember(j.members, KIND_NAME), FindMember(j.members, VALUE_NAME);
      if key.None? || !key.value.Str? || value.None? then Err(MalformedInput)
      else match FromJson(value.value, limits)
        case Err(c) => Err(c)
        case Ok(v) => Ok(Values.Entry(key.value.text, v))
  }

  function EntriesFromJson(items: seq<Json>, done: seq<Values.Entry>, limits: Values.ValueLimits): Result<seq<Values.Entry>>
    decreases items, 0
  {
    if items == [] then Ok(done)
    else match EntryFromJson(items[0], limits)
      case Err(c) => Err(c)
      case Ok(e) => EntriesFromJson(items[1..], done + [e], limits)
  }

  // ---- the pieces come back ----

  lemma TaggedMembers(kind: Text, payload: Json)
    ensures FindMember(Tagged(kind, payload).members, KIND_NAME) == Some(Str(kind))
    ensures FindMember(Tagged(kind, payload).members, VALUE_NAME) == Some(payload)
  {
    assert KIND_NAME[0] == 107 && VALUE_NAME[0] == 118;
    var members := Tagged(kind, payload).members;
    assert members[1..] == [Member(VALUE_NAME, payload)];
  }

  lemma EntryMembers(key: Text, value: Json)
    ensures var members := [Member(KIND_NAME, Str(key)), Member(VALUE_NAME, value)];
            FindMember(members, KIND_NAME) == Some(Str(key)) && FindMember(members, VALUE_NAME) == Some(value)
  {
    TaggedMembers(key, value);
  }

  lemma ScanDecimal(n: nat, max: nat)
    requires n <= max
    ensures ScanUnsigned(Ids.Decimal(n), max) == Ok(n)
  {
    Ids.DecimalRoundTrip(n);
  }

  lemma NegativeIsExact(n: nat)
    requires 0 < n <= I64_MAX + 1
    ensures ScanI64([MINUS] + Ids.Decimal(n)) == Ok(0 - (n as int))
  {
    hide Ids.Decimal, ScanUnsigned;
    ScanDecimal(n, I64_MAX + 1);
    assert ([MINUS] + Ids.Decimal(n))[1..] == Ids.Decimal(n);
  }

  lemma PositiveIsExact(n: nat)
    requires n <= I64_MAX
    ensures ScanI64(Ids.Decimal(n)) == Ok(n)
  {
    hide Ids.Decimal, ScanUnsigned;
    ScanDecimal(n, I64_MAX);
    DecimalStart(n);
  }

  /** Both kinds of 64-bit integers come back exactly, to the last bit. */
  lemma IntegersAreExact(i: i64, u: u64)
    ensures ScanI64(SignedDecimal(i)) == Ok(i)
    ensures ScanU64(Ids.Decimal(u)) == Ok(u)
  {
    hide Ids.Decimal, ScanI64, ScanUnsigned;
    ScanDecimal(u, U64_MODULUS - 1);
    var n: int := i;
    if n < 0 {
      NegativeIsExact(-n);
    } else {
      PositiveIsExact(n);
    }
  }

  lemma DecimalStart(n: nat)
    ensures Ids.Decimal(n)[0] != MINUS
  {
  }

  ghost predicate Fits(v: Values.Value, limits: Values.ValueLimits) { Values.Bounded(v, limits) && limits.Sized() }

  // ---- the round trip ----

  lemma MadeList(es: seq<Values.Value>, limits: Values.ValueLimits)
    ensures Values.MakeList(es, limits).Ok? ==> Values.MakeList(es, limits) == Ok(Values.List(es))
  {
  }

  lemma ScalarFromTo(v: Values.Value, limits: Values.ValueLimits)
    requires Fits(v, limits) && !v.List? && !v.Map?
    ensures FromJson(ToJson(v), limits) == Ok(v)
  {
    hide FindMember, ScanI64, ScanU64, HexDecode, Ids.Decimal, SignedDecimal, Values.HexText, Ascii, TagIndex, Values.MakeList,
      Values.MakeMap;
    TagIndexes();
    match v
    case Null => TaggedMembers(Ascii("null"), Json.Null);
    case Bool(b) => TaggedMembers(Ascii("bool"), Json.Bool(b));
    case Int(n) =>
      TaggedMembers(Ascii("int"), Str(SignedDecimal(n)));
      IntegersAreExact(n, 0);
    case Uint(n) =>
      TaggedMembers(Ascii("uint"), Str(Ids.Decimal(n)));
      IntegersAreExact(0, n);
    case Real(bits) => TaggedMembers(Ascii("real"), Number(bits));
    case Txt(t) => TaggedMembers(Ascii("text"), Str(t));
    case Blob(b) =>
      TaggedMembers(Ascii("blob"), Str(Values.HexText(b)));
      HexDecodeEncode(b);
  }

  lemma ListFromTo(es: seq<Values.Value>, limits: Values.ValueLimits)
    requires ElementsFromJson(ElementsToJson(es), [], limits) == Ok(es) && Values.MakeList(es, limits) == Ok(Values.List(es))
    ensures FromJson(ToJson(Values.List(es)), limits) == Ok(Values.List(es))
  {
    hide FindMember, Ascii, TagIndex, Values.MakeList, Values.MakeMap, ElementsFromJson, ElementsToJson, EntriesFromJson;
    TagIndexes();
    TaggedMembers(Ascii("list"), Array(ElementsToJson(es)));
  }

  lemma MapFromTo(es: seq<Values.Entry>, limits: Values.ValueLimits)
    requires EntriesFromJson(EntriesToJson(es), [], limits) == Ok(es) && Values.MakeMap(es, limits) == Ok(Values.Map(es))
    ensures FromJson(ToJson(Values.Map(es)), limits) == Ok(Values.Map(es))
  {
    hide FindMember, Ascii, TagIndex, Values.MakeList, Values.MakeMap, EntriesFromJson, EntriesToJson, ElementsFromJson;
    TagIndexes();
    TaggedMembers(Ascii("map"), Array(EntriesToJson(es)));
  }

  /** The envelope of a bounded value converts back to that value, integers included. */
  lemma {:induction false} FromToJson(v: Values.Value, limits: Values.ValueLimits)
    requires Fits(v, limits)
    ensures FromJson(ToJson(v), limits) == Ok(v)
    decreases v, 1
  {
    hide FromJson, ToJson, Values.MakeList, Values.MakeMap;
    match v
    case List(es) =>
      Values.ValidElements(es, limits);
      ElementsFromTo(es, 0, limits);
      assert ElementsToJson(es)[0..] == ElementsToJson(es) && es[..0] == [];
      Values.MakeListBounded(es, limits);
      MadeList(es, limits);
      ListFromTo(es, limits);
    case Map(es) =>
      Values.ValidEntries(es, limits);
      EntriesFromTo(es, 0, limits);
      assert EntriesToJson(es)[0..] == EntriesToJson(es) && es[..0] == [];
      Values.MakeMapBounded(es, limits);
      MapFromTo(es, limits);
    case _ => ScalarFromTo(v, limits);
  }

  lemma {:induction false} ElementsAt(es: seq<Values.Value>, k: nat)
    requires k < |es|
    ensures ElementsToJson(es)[k] == ToJson(es[k])
  {
    hide ToJson;
    if k < |es| - 1 {
      ElementsAt(es[..|es| - 1], k);
    }
  }

  lemma {:induction false} EntriesAt(es: seq<Values.Entry>, k: nat)
    requires k < |es|
    ensures EntriesToJson(es)[k] == EntryToJson(es[k])
  {
    hide EntryToJson;
    if k < |es| - 1 {
      EntriesAt(es[..|es| - 1], k);
    }
  }

  lemma {:induction false} ElementsFromTo(es: seq<Values.Value>, k: nat, limits: Values.ValueLimits)
    requires k <= |es| && forall i :: 0 <= i < |es| ==> Fits(es[i], limits)
    ensures ElementsFromJson(ElementsToJson(es)[k..], es[..k], limits) == Ok(es)
    decreases es, 0, |es| - k
  {
    hide FromJson, ToJson, ElementsToJson;
    var items := ElementsToJson(es);
    if k == |es| {
      assert es[..k] == es && items[k..] == [];
    } else {
      ElementsAt(es, k);
      FromToJson(es[k], limits);
      ElementsFromTo(es, k + 1, limits);
      assert items[k..][1..] == items[k + 1..] && es[..k] + [es[k]] == es[..k + 1];
    }
  }

  lemma EntryFromTo(e: Values.Entry, limits: Values.ValueLimits)
    requires FromJson(ToJson(e.value), limits) == Ok(e.value)
    ensures EntryFromJson(EntryToJson(e), limits) == Ok(e)
  {
    hide FromJson, ToJson, FindMember;
    EntryMembers(e.key, ToJson(e.value));
  }

  lemma EntriesEnd(es: seq<Values.Entry>, limits: Values.ValueLimits)
    ensures EntriesFromJson([], es, limits) == Ok(es)
  {
  }

  lemma EntriesStep(items: seq<Json>, before: seq<Values.Entry>, limits: Values.ValueLimits)
    requires items != [] && EntryFromJson(items[0], limits).Ok?
    ensures EntriesFromJson(items, before, limits) == EntriesFromJson(items[1..], before + [EntryFromJson(items[0], limits).value], limits)
  {
    hide EntryFromJson;
  }

  lemma {:induction false} EntriesFromTo(es: seq<Values.Entry>, k: nat, limits: Values.ValueLimits)
    requires k <= |es| && forall i :: 0 <= i < |es| ==> Fits(es[i].value, limits)
    ensures EntriesFromJson(EntriesToJson(es)[k..], es[..k], limits) == Ok(es)
    decreases es, 0, |es| - k
  {
    hide EntryFromJson, EntryToJson, EntriesToJson, EntriesFromJson;
    var items := EntriesToJson(es);
    if k == |es| {
      assert es[..k] == es && items[k..] == [];
      EntriesEnd(es, limits);
    } else {
      EntriesAt(es, k);
      FromToJson(es[k].value, limits);
      EntryFromTo(es[k], limits);
      EntriesFromTo(es, k + 1, limits);
      EntriesStep(items[k..], es[..k], limits);
      assert items[k..][1..] == items[k + 1..] && es[..k] + [es[k]] == es[..k + 1];
    }
  }

  /** A value sent as JSON text arrives as that value, whenever its envelope is within the JSON limits. */
  lemma ValueTravelsAsText(n: Numbers, l: JsonLimits, v: Values.Value, limits: Values.ValueLimits, pretty: bool)
    requires Fits(v, limits)
    requires Carried(n, l, ToJson(v)) && Depth(ToJson(v)) <= l.maxDepth && Nodes(ToJson(v)) <= l.maxNodes
    requires |Write(n, ToJson(v), pretty, 0)| <= l.maxInputBytes
    ensures Parse(n, l, Write(n, ToJson(v), pretty, 0)) == Ok(ToJson(v))
    ensures FromJson(ToJson(v), limits) == Ok(v)
  {
    hide ToJson, FromJson, Write, Parse, Carried;
    ParseWritten(n, l, ToJson(v), pretty);
    FromToJson(v, limits);
  }

  // ---- the same, as the loops the program runs ----

  method BuildJson(v: Values.Value) returns (j: Json)
    ensures j == ToJson(v)
    decreases v, 1
  {
    match v
    case Null => j := Tagged(Ascii("null"), Json.Null);
    case Bool(b) => j := Tagged(Ascii("bool"), Json.Bool(b));
    case Int(n) => j := Tagged(Ascii("int"), Str(SignedDecimal(n)));
    case Uint(n) => j := Tagged(Ascii("uint"), Str(Ids.Decimal(n)));
    case Real(bits) => j := Tagged(Ascii("real"), Number(bits));
    case Txt(t) => j := Tagged(Ascii("text"), Str(t));
    case Blob(b) => j := Tagged(Ascii("blob"), Str(Values.HexText(b)));
    case List(es) =>
      var items := BuildItems(es);
      j := Tagged(Ascii("list"), Array(items));
    case Map(es) =>
      var items := BuildEntries(es);
      j := Tagged(Ascii("map"), Array(items));
  }

  method BuildItems(es: seq<Values.Value>) returns (items: seq<Json>)
    ensures items == ElementsToJson(es)
    decreases es, 0
  {
    items := [];
    for i := 0 to |es|
      invariant items == ElementsToJson(es[..i])
    {
      hide ToJson;
      assert es[..i + 1][..i] == es[..i];
      var item := BuildJson(es[i]);
      items := items + [item];
    }
    assert es[..|es|] == es;
  }

  method BuildEntries(es: seq<Values.Entry>) returns (items: seq<Json>)
    ensures items == EntriesToJson(es)
    decreases es, 0
  {
    items := [];
    for i := 0 to |es|
      invariant items == EntriesToJson(es[..i])
    {
      hide ToJson;
      assert es[..i + 1][..i] == es[..i];
      var value := BuildJson(es[i].value);
      items := items + [Object([Member(KIND_NAME, Str(es[i].key)), Member(VALUE_NAME, value)])];
    }
    assert es[..|es|] == es;
  }

  method ReadElements(items: seq<Json>, limits: Values.ValueLimits) returns (r: Result<seq<Values.Value>>)
    ensures r == ElementsFromJson(items, [], limits)
    decreases items, 0
  {
    var elements: seq<Values.Value> := [];
    var index := 0;
    assert items[0..] == items;
    while index < |items|
      invariant index <= |items|
      invariant ElementsFromJson(items[index..], elements, limits) == ElementsFromJson(items, [], limits)
    {
      hide FromJson;
      assert items[index..][1..] == items[index + 1..];
      var element := ReadJson(items[index], limits);
      if element.Err? {
        return Err(element.code);
      }
      elements := elements + [element.value];
      index := index + 1;
    }
    r := Ok(elements);
  }

  method ReadEntries(items: seq<Json>, limits: Values.ValueLimits) returns (r: Result<seq<Values.Entry>>)
    ensures r == EntriesFromJson(items, [], limits)
    decreases items, 0
  {
    var entries: seq<Values.Entry> := [];
    var index := 0;
    assert items[0..] == items;
    while index < |items|
      invariant index <= |items|
      invariant EntriesFromJson(items[index..], entries, limits) == EntriesFromJson(items, [], limits)
    {
      hide FromJson;
      assert items[index..][1..] == items[index + 1..];
      var item := items[index];
      if !item.Object? {
        return Err(MalformedInput);
      }
      var key, value := FindMember(item.members, KIND_NAME), FindMember(item.members, VALUE_NAME);
      if key.None? || !key.value.Str? || value.None? {
        return Err(MalformedInput);
      }
      var converted := ReadJson(value.value, limits);
      if converted.Err? {
        return Err(converted.code);
      }
      entries := entries + [Values.Entry(key.value.text, converted.value)];
      index := index + 1;
    }
    r := Ok(entries);
  }

  method ReadJson(j: Json, limits: Values.ValueLimits) returns (r: Result<Values.Value>)
    ensures r == FromJson(j, limits)
    decreases j, 1
  {
    hide FindMember, HexDecode, Values.MakeList, Values.MakeMap, ElementsFromJson, EntriesFromJson, ScanI64, ScanU64, TagIndex;
    if !j.Object? {
      return Err(MalformedInput);
    }
    var kind, payload := FindMember(j.members, KIND_NAME), FindMember(j.members, VALUE_NAME);
    if kind.None? || !kind.value.Str? {
      return Err(MalformedInput);
    }
    var tag := TagIndex(kind.value.text);
    match tag {
      case 0 => r := Ok(Values.Null);
      case 1 => r := if payload.None? || !payload.value.Bool? then Err(MalformedInput) else Ok(Values.Bool(payload.value.flag));
      case 4 => r := if payload.None? || !payload.value.Number? then Err(MalformedInput) else Values.MakeReal(payload.value.bits);
      case _ =>
        if tag > 8 {
          return Err(StatusCode.Unsupported);
        }
        if tag == 7 || tag == 8 {
          if payload.None? || !payload.value.Array? {
            return Err(MalformedInput);
          }
          r := ReadContainer(tag, payload.value.items, limits);
          return;
        }
        if payload.None? || !payload.value.Str? {
          return Err(MalformedInput);
        }
        r := ReadScalar(tag, payload.value.text, limits);
    }
  }

  /** The tags whose payload is text. */
  method ReadScalar(tag: nat, text: Text, limits: Values.ValueLimits) returns (r: Result<Values.Value>)
    requires tag == 2 || tag == 3 || tag == 5 || tag == 6
    ensures r == match tag
                 case 2 => (match ScanI64(text) case Err(c) => Err(c) case Ok(n) => Ok(Values.Int(n)))
                 case 3 => (match ScanU64(text) case Err(c) => Err(c) case Ok(n) => Ok(Values.Uint(n)))
                 case 5 => Values.MakeText(text, limits)
                 case _ => (match HexDecode(text) case Err(c) => Err(c) case Ok(b) => Values.MakeBlob(b, limits))
  {
    hide ScanI64, ScanU64, HexDecode;
    match tag {
      case 2 =>
        var n := ScanI64(text);
        r := if n.Err? then Err(n.code) else Ok(Values.Int(n.value));
      case 3 =>
        var n := ScanU64(text);
        r := if n.Err? then Err(n.code) else Ok(Values.Uint(n.value));
      case 5 => r := Values.MakeText(text, limits);
      case _ =>
        var data := DecodeHex(text);
        r := if data.Err? then Err(data.code) else Values.MakeBlob(data.value, limits);
    }
  }

  method ReadContainer(tag: nat, items: seq<Json>, limits: Values.ValueLimits) returns (r: Result<Values.Value>)
    requires tag == 7 || tag == 8
    ensures r == if tag == 7 then
                   (match ElementsFromJson(items, [], limits) case Err(c) => Err(c) case Ok(es) => Values.MakeList(es, limits))
                 else
                   (match EntriesFromJson(items, [], limits) case Err(c) => Err(c) case Ok(es) => Values.MakeMap(es, limits))
    decreases items, 1
  {
    hide Values.MakeList, Values.MakeMap, ElementsFromJson, EntriesFromJson;
    if tag == 7 {
      var elements := ReadElements(items, limits);
      if elements.Err? {
        return Err(elements.code);
      }
      r := Values.BuildList(elements.value, limits);
    } else {
      var entries := ReadEntries(items, limits);
      if entries.Err? {
        return Err(entries.code);
      }
      r := Values.BuildMap(entries.value, limits);
    }
  }
}
