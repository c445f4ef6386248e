/** The bounded value model, its total order, and its canonical codec (src/value.cpp). */
module Values {
  import opened Bytes
  import opened Canonical
  import Ordering

  datatype ValueLimits = ValueLimits(
    maxDepth: nat,
    maxListElements: nat,
    maxMapEntries: nat,
    maxTextBytes: nat,
    maxBlobBytes: nat,
    maxTotalNodes: nat)
  {
    /** Every bound is a size_t in the program. */
    ghost predicate Sized() {
      maxDepth < U64_MODULUS && maxListElements < U64_MODULUS && maxMapEntries < U64_MODULUS
      && maxTextBytes < U64_MODULUS && maxBlobBytes < U64_MODULUS && maxTotalNodes < U64_MODULUS
    }
  }

  /** Reals are kept as the 64 bits of the IEEE 754 double. */
  datatype Value =
    | Null
    | Bool(flag: bool)
    | Int(int64: i64)
    | Uint(uint64: u64)
    | Real(bits: u64)
    | Txt(text: Text)
    | Blob(blob: Text)
    | List(elements: seq<Value>)
    | Map(entries: seq<Entry>)

  datatype Entry = Entry(key: Text, value: Value)

  function KindOf(v: Value): byte {
    match v
    case Null => 0
    case Bool(_) => 1
    case Int(_) => 2
    case Uint(_) => 3
    case Real(_) => 4
    case Txt(_) => 5
    case Blob(_) => 6
    case List(_) => 7
    case Map(_) => 8
  }

  /** An all-ones exponent marks infinities and NaNs, which the value model refuses. */
  predicate FiniteBits(bits: u64) {
    bits / 0x10_0000_0000_0000 % 0x800 != 0x7FF
  }

  // ---- size ----

  function Depth(v: Value): (d: nat)
    ensures d >= 1
    decreases v
  {
    match v
    case List(es) => ElementsDepth(es)
    case Map(es) => EntriesDepth(es)
    case _ => 1
  }

  function ElementsDepth(es: seq<Value>): (d: nat)
    ensures d >= 1
    decreases es
  {
    if es == [] then 1 else Max(ElementsDepth(es[..|es| - 1]), Depth(es[|es| - 1]) + 1)
  }

  function EntriesDepth(es: seq<Entry>): (d: nat)
    ensures d >= 1
    decreases es
  {
    if es == [] then 1 else Max(EntriesDepth(es[..|es| - 1]), Depth(es[|es| - 1].value) + 1)
  }

  function Nodes(v: Value): (n: nat)
    ensures n >= 1
    decreases v
  {
    match v
    case List(es) => 1 + ElementsNodes(es)
    case Map(es) => 1 + EntriesNodes(es)
    case _ => 1
  }

  function ElementsNodes(es: seq<Value>): nat
    decreases es
  {
    if es == [] then 0 else ElementsNodes(es[..|es| - 1]) + Nodes(es[|es| - 1])
  }

  function EntriesNodes(es: seq<Entry>): nat
    decreases es
  {
    if es == [] then 0 else EntriesNodes(es[..|es| - 1]) + Nodes(es[|es| - 1].value)
  }

  // ---- the total order used to group conflicting values ----

  const HEX_DIGITS: Text := Ascii("0123456789abcdef")

  function HexText(data: Text): (r: Text)
    ensures |r| == 2 * |data|
  {
    if data == [] then [] else [HEX_DIGITS[data[0] / 16], HEX_DIGITS[data[0] % 16]] + HexText(data[1..])
  }

  /** The three-way comparison of src/value.cpp: kinds first, blobs through their hex text. */
  function Compare(a: Value, b: Value): int
    decreases a
  {
    if KindOf(a) != KindOf(b) then CompareInt(KindOf(a), KindOf(b))
    else match a
      case Null => 0
      case Bool(x) => CompareInt(if x then 1 else 0, if b.flag then 1 else 0)
      case Int(x) => CompareInt(x, b.int64)
      case Uint(x) => CompareInt(x, b.uint64)
      case Real(x) => CompareInt(x, b.bits)
      case Txt(x) => CompareText(x, b.text)
      case Blob(x) => CompareText(HexText(x), HexText(b.blob))
      case List(xs) => CompareElements(xs, b.elements)
      case Map(xs) => CompareEntries(xs, b.entries)
  }

  function CompareElements(a: seq<Value>, b: seq<Value>): int
    decreases a
  {
    if a == [] || b == [] then CompareInt(|a|, |b|)
    else
      var head := Compare(a[0], b[0]);
      if head != 0 then head else CompareElements(a[1..], b[1..])
  }

  function CompareEntries(a: seq<Entry>, b: seq<Entry>): int
    decreases a
  {
    if a == [] || b == [] then CompareInt(|a|, |b|)
    else
      var key := CompareText(a[0].key, b[0].key);
      if key != 0 then key
      else
        var head := Compare(a[0].value, b[0].value);
        if head != 0 then head else CompareEntries(a[1..], b[1..])
  }

  lemma {:induction false} HexTextInjective(a: Text, b: Text)
    requires HexText(a) == HexText(b)
    ensures a == b
  {
    assert |a| == |b|;
    if a != [] {
      var x, y := HexText(a), HexText(b);
      assert HexText(a[1..]) == x[2..] == y[2..] == HexText(b[1..]);
      HexTextInjective(a[1..], b[1..]);
      assert a[0] == b[0] by {
        assert HEX_DIGITS[a[0] / 16] == x[0] == HEX_DIGITS[b[0] / 16];
        assert HEX_DIGITS[a[0] % 16] == x[1] == HEX_DIGITS[b[0] % 16];
        HexDigitsDistinct(a[0] / 16, b[0] / 16);
        HexDigitsDistinct(a[0] % 16, b[0] % 16);
      }
      assert a == [a[0]] + a[1..] && b == [b[0]] + b[1..];
    }
  }

  lemma HexDigit(i: nat)
    requires i < 16
    ensures HEX_DIGITS[i] == if i < 10 then 48 + i else 87 + i
  {
  }

  lemma HexDigitsDistinct(i: nat, j: nat)
    requires i < 16 && j < 16 && HEX_DIGITS[i] == HEX_DIGITS[j]
    ensures i == j
  {
    HexDigit(i);
    HexDigit(j);
  }

  /** Comparison says 0 exactly for equal values, and swapping the sides flips its sign. */
  lemma {:induction false} CompareLaws(a: Value, b: Value)
    ensures Compare(a, b) == 0 <==> a == b
    ensures Compare(a, b) == -Compare(b, a)
    decreases a
  {
    if KindOf(a) == KindOf(b) {
      match a
      case Txt(x) => CompareTextLaws(x, b.text);
      case Blob(x) =>
        CompareTextLaws(HexText(x), HexText(b.blob));
        if HexText(x) == HexText(b.blob) {
          HexTextInjective(x, b.blob);
        }
      case List(xs) => CompareElementsLaws(xs, b.elements);
      case Map(xs) => CompareEntriesLaws(xs, b.entries);
      case _ =>
    }
  }

  lemma {:induction false} CompareElementsLaws(a: seq<Value>, b: seq<Value>)
    ensures CompareElements(a, b) == 0 <==> a == b
    ensures CompareElements(a, b) == -CompareElements(b, a)
    decreases a
  {
    if a != [] && b != [] {
      CompareLaws(a[0], b[0]);
      CompareElementsLaws(a[1..], b[1..]);
      assert a == [a[0]] + a[1..] && b == [b[0]] + b[1..];
    }
  }

  lemma {:induction false} CompareEntriesLaws(a: seq<Entry>, b: seq<Entry>)
    ensures CompareEntries(a, b) == 0 <==> a == b
    ensures CompareEntries(a, b) == -CompareEntries(b, a)
    decreases a
  {
    if a != [] && b != [] {
      CompareTextLaws(a[0].key, b[0].key);
      CompareLaws(a[0].value, b[0].value);
      CompareEntriesLaws(a[1..], b[1..]);
      assert a == [a[0]] + a[1..] && b == [b[0]] + b[1..];
    }
  }

  lemma {:induction false} CompareTransitive(a: Value, b: Value, c: Value)
    requires Compare(a, b) <= 0 && Compare(b, c) <= 0
    ensures Compare(a, c) <= 0
    decreases a
  {
    if KindOf(a) == KindOf(b) == KindOf(c) {
      match a
      case Txt(x) => CompareTextTransitive(x, b.text, c.text);
      case Blob(x) => CompareTextTransitive(HexText(x), HexText(b.blob), HexText(c.blob));
      case List(xs) => CompareElementsTransitive(xs, b.elements, c.elements);
      case Map(xs) => CompareEntriesTransitive(xs, b.entries, c.entries);
      case _ =>
    }
  }

  lemma {:induction false} CompareElementsTransitive(a: seq<Value>, b: seq<Value>, c: seq<Value>)
    requires CompareElements(a, b) <= 0 && CompareElements(b, c) <= 0
    ensures CompareElements(a, c) <= 0
    decreases a
  {
    if a != [] && b != [] && c != [] {
      CompareLaws(a[0], b[0]);
      CompareLaws(b[0], c[0]);
      CompareLaws(a[0], c[0]);
      CompareTransitive(a[0], b[0], c[0]);
      if a[0] == c[0] {
        CompareLaws(b[0], a[0]);
        CompareElementsTransitive(a[1..], b[1..], c[1..]);
      }
    }
  }

  lemma {:induction false} CompareEntriesTransitive(a: seq<Entry>, b: seq<Entry>, c: seq<Entry>)
    requires CompareEntries(a, b) <= 0 && CompareEntries(b, c) <= 0
    ensures CompareEntries(a, c) <= 0
    decreases a
  {
    if a != [] && b != [] && c != [] {
      var ka, kb, kc := a[0].key, b[0].key, c[0].key;
      CompareTextLaws(ka, kb);
      CompareTextLaws(kb, kc);
      CompareTextLaws(ka, kc);
      CompareTextTransitive(ka, kb, kc);
      if ka == kc {
        CompareTextLaws(kb, ka);
        var x, y, z := a[0].value, b[0].value, c[0].value;
        CompareLaws(x, y);
        CompareLaws(y, z);
        CompareLaws(x, z);
        CompareTransitive(x, y, z);
        if x == z {
          CompareEntriesTransitive(a[1..], b[1..], c[1..]);
        }
      }
    }
  }

  function ValueLe(a: Value, b: Value): bool { Compare(a, b) <= 0 }

  /** The comparison is a total order, so a std::map keyed by values has one entry per value. */
  lemma ValueOrderIsTotal()
    ensures Ordering.TotalPreorder(ValueLe)
    ensures forall a, b :: ValueLe(a, b) && ValueLe(b, a) ==> a == b
  {
    forall a, b ensures ValueLe(a, b) || ValueLe(b, a) {
      CompareLaws(a, b);
    }
    forall a, b | ValueLe(a, b) && ValueLe(b, a) ensures a == b {
      CompareLaws(a, b);
    }
    forall a, b, c | ValueLe(a, b) && ValueLe(b, c) ensures ValueLe(a, c) {
      CompareTransitive(a, b, c);
    }
  }

  // ---- bounded construction ----

  function MakeReal(bits: u64): Result<Value> {
    if FiniteBits(bits) then Ok(Real(bits)) else Err(InvalidArgument)
  }

  function MakeText(text: Text, limits: ValueLimits): Result<Value> {
    if |text| > limits.maxTextBytes then Err(TooLarge) else Ok(Txt(text))
  }

  function MakeBlob(blob: Text, limits: ValueLimits): Result<Value> {
    if |blob| > limits.maxBlobBytes then Err(TooLarge) else Ok(Blob(blob))
  }

  /** The checks shared by both containers, in source order; nodes counts the container too. */
  function CheckSize(depth: nat, nodes: nat, limits: ValueLimits): Result<()> {
    if nodes >= U64_MODULUS then Err(TooLarge)
    else if depth > limits.maxDepth then Err(DepthExceeded)
    else if nodes > limits.maxTotalNodes then Err(TooLarge)
    else Ok(())
  }

  function MakeList(es: seq<Value>, limits: ValueLimits): Result<Value> {
    if |es| > limits.maxListElements then Err(TooLarge)
    else match CheckSize(ElementsDepth(es), 1 + ElementsNodes(es), limits)
      case Err(c) => Err(c)
      case Ok(_) => Ok(List(es))
  }

  function KeyLe(a: Entry, b: Entry): bool { CompareText(a.key, b.key) <= 0 }

  predicate AdjacentDuplicate(es: seq<Entry>) {
    exists i :: 0 < i < |es| && es[i - 1].key == es[i].key
  }

  predicate OversizedKey(es: seq<Entry>, limits: ValueLimits) {
    exists e :: e in es && |e.key| > limits.maxTextBytes
  }

  function MakeMap(es: seq<Entry>, limits: ValueLimits): Result<Value> {
    if |es| > limits.maxMapEntries || OversizedKey(es, limits) then Err(TooLarge)
    else
      var sorted := Ordering.Sort(es, KeyLe);
      if AdjacentDuplicate(sorted) then Err(InvalidArgument)
      else match CheckSize(EntriesDepth(sorted), 1 + EntriesNodes(sorted), limits)
        case Err(c) => Err(c)
        case Ok(_) => Ok(Map(sorted))
  }

  /** The accumulation loop of Value::list. */
  method BuildList(es: seq<Value>, limits: ValueLimits) returns (r: Result<Value>)
    ensures r == MakeList(es, limits)
  {
    if |es| > limits.maxListElements {
      return Err(TooLarge);
    }
    var depth, nodes := 1, 1;
    for i := 0 to |es|
      invariant depth == ElementsDepth(es[..i])
      invariant nodes == 1 + ElementsNodes(es[..i]) < U64_MODULUS
    {
      assert es[..i + 1][..i] == es[..i];
      depth := Max(depth, Depth(es[i]) + 1);
      if Nodes(es[i]) > U64_MODULUS - 1 - nodes {
        ElementsNodesGrow(es, i + 1);
        return Err(TooLarge);
      }
      nodes := nodes + Nodes(es[i]);
    }
    assert es[..|es|] == es;
    if depth > limits.maxDepth {
      return Err(DepthExceeded);
    }
    if nodes > limits.maxTotalNodes {
      return Err(TooLarge);
    }
    r := Ok(List(es));
  }

  /** The sorting and accumulation loops of Value::map. */
  method BuildMap(es: seq<Entry>, limits: ValueLimits) returns (r: Result<Value>)
    ensures r == MakeMap(es, limits)
  {
    if |es| > limits.maxMapEntries {
      return Err(TooLarge);
    }
    var oversized := FindOversizedKey(es, limits);
    if oversized {
      return Err(TooLarge);
    }
    var sorted := Ordering.Sort(es, KeyLe);
    var duplicate := FindDuplicate(sorted);
    if duplicate {
      return Err(InvalidArgument);
    }
    var size := MeasureEntries(sorted, limits);
    r := if size.Err? then Err(size.code) else Ok(Map(sorted));
  }

  method FindOversizedKey(es: seq<Entry>, limits: ValueLimits) returns (found: bool)
    ensures found == OversizedKey(es, limits)
  {
    for i := 0 to |es|
      invariant forall e :: e in es[..i] ==> |e.key| <= limits.maxTextBytes
    {
      if |es[i].key| > limits.maxTextBytes {
        assert es[i] in es;
        return true;
      }
    }
    assert es[..|es|] == es;
    found := false;
  }

  method FindDuplicate(sorted: seq<Entry>) returns (found: bool)
    ensures found == AdjacentDuplicate(sorted)
  {
    var i := 1;
    while i < |sorted|
      invariant i >= 1
      invariant forall k :: 0 < k < i && k < |sorted| ==> sorted[k - 1].key != sorted[k].key
    {
      if sorted[i - 1].key == sorted[i].key {
        return true;
      }
      i := i + 1;
    }
    found := false;
  }

  method MeasureEntries(es: seq<Entry>, limits: ValueLimits) returns (r: Result<()>)
    ensures r == CheckSize(EntriesDepth(es), 1 + EntriesNodes(es), limits)
  {
    var depth, nodes := 1, 1;
    for i := 0 to |es|
      invariant depth == EntriesDepth(es[..i])
      invariant nodes == 1 + EntriesNodes(es[..i]) < U64_MODULUS
    {
      assert es[..i + 1][..i] == es[..i];
      depth := Max(depth, Depth(es[i].value) + 1);
      if Nodes(es[i].value) > U64_MODULUS - 1 - nodes {
        EntriesNodesGrow(es, i + 1);
        return Err(TooLarge);
      }
      nodes := nodes + Nodes(es[i].value);
    }
    assert es[..|es|] == es;
    if depth > limits.maxDepth {
      return Err(DepthExceeded);
    }
    if nodes > limits.maxTotalNodes {
      return Err(TooLarge);
    }
    r := Ok(());
  }

  lemma {:induction false} ElementsNodesGrow(es: seq<Value>, i: nat)
    requires i <= |es|
    ensures ElementsNodes(es[..i]) <= ElementsNodes(es)
  {
    if i == |es| {
      assert es[..i] == es;
    } else {
      ElementsNodesGrow(es[..|es| - 1], i);
      assert es[..|es| - 1][..i] == es[..i];
    }
  }

  lemma {:induction false} EntriesNodesGrow(es: seq<Entry>, i: nat)
    requires i <= |es|
    ensures EntriesNodes(es[..i]) <= EntriesNodes(es)
  {
    if i == |es| {
      assert es[..i] == es;
    } else {
      EntriesNodesGrow(es[..|es| - 1], i);
      assert es[..|es| - 1][..i] == es[..i];
    }
  }

  // ---- re-checking against possibly tighter limits ----

  function Validate(v: Value, limits: ValueLimits): Result<()>
    decreases v, 1
  {
    if Nodes(v) > limits.maxTotalNodes then Err(TooLarge)
    else if Depth(v) > limits.maxDepth then Err(DepthExceeded)
    else match v
      case Txt(t) => if |t| > limits.maxTextBytes then Err(TooLarge) else Ok(())
      case Blob(b) => if |b| > limits.maxBlobBytes then Err(TooLarge) else Ok(())
      case List(es) =>
        if |es| > limits.maxListElements then Err(TooLarge) else ValidateElements(es, limits)
      case Map(es) =>
        if |es| > limits.maxMapEntries then Err(TooLarge) else ValidateEntries(es, limits)
      case _ => Ok(())
  }

  function ValidateElements(es: seq<Value>, limits: ValueLimits): Result<()>
    decreases es, 0
  {
    if es == [] then Ok(())
    else if Validate(es[0], limits).Err? then Validate(es[0], limits)
    else ValidateElements(es[1..], limits)
  }

  function ValidateEntries(es: seq<Entry>, limits: ValueLimits): Result<()>
    decreases es, 0
  {
    if es == [] then Ok(())
    else if |es[0].key| > limits.maxTextBytes then Err(TooLarge)
    else if Validate(es[0].value, limits).Err? then Validate(es[0].value, limits)
    else ValidateEntries(es[1..], limits)
  }

  ghost predicate StrictKeys(es: seq<Entry>) {
    forall i, j :: 0 <= i < j < |es| ==> CompareText(es[i].key, es[j].key) < 0
  }

  /** What the constructors guarantee beyond size: finite reals, maps sorted by unique keys. */
  ghost predicate NormalForm(v: Value)
    decreases v
  {
    match v
    case Real(bits) => FiniteBits(bits)
    case List(es) => forall i :: 0 <= i < |es| ==> NormalForm(es[i])
    case Map(es) => StrictKeys(es) && forall i :: 0 <= i < |es| ==> NormalForm(es[i].value)
    case _ => true
  }

  ghost predicate Bounded(v: Value, limits: ValueLimits) {
    NormalForm(v) && Validate(v, limits).Ok?
  }

  lemma {:induction false} ValidElements(es: seq<Value>, limits: ValueLimits)
    ensures ValidateElements(es, limits).Ok?
       <==> forall i :: 0 <= i < |es| ==> Validate(es[i], limits).Ok?
  {
    if es != [] {
      ValidElements(es[1..], limits);
      assert forall i :: 0 < i < |es| ==> es[i] == es[1..][i - 1];
      assert forall i :: 0 <= i < |es[1..]| ==> es[1..][i] == es[i + 1];
    }
  }

  lemma {:induction false} ValidEntries(es: seq<Entry>, limits: ValueLimits)
    ensures ValidateEntries(es, limits).Ok?
       <==> forall i :: 0 <= i < |es| ==> |es[i].key| <= limits.maxTextBytes && Validate(es[i].value, limits).Ok?
  {
    if es != [] {
      ValidEntries(es[1..], limits);
      assert forall i :: 0 < i < |es| ==> es[i] == es[1..][i - 1];
      assert forall i :: 0 <= i < |es[1..]| ==> es[1..][i] == es[i + 1];
    }
  }

  lemma KeyOrderIsTotal()
    ensures Ordering.TotalPreorder(KeyLe)
  {
    forall a, b ensures KeyLe(a, b) || KeyLe(b, a) {
      CompareTextLaws(a.key, b.key);
    }
    forall a, b, c | KeyLe(a, b) && KeyLe(b, c) ensures KeyLe(a, c) {
      CompareTextTransitive(a.key, b.key, c.key);
    }
  }

  lemma StrictKeysAreSorted(es: seq<Entry>)
    requires StrictKeys(es)
    ensures Ordering.Sort(es, KeyLe) == es && !AdjacentDuplicate(es)
  {
    Ordering.SortOfSorted(es, KeyLe);
    forall i | 0 < i < |es| ensures es[i - 1].key != es[i].key {
      CompareTextLaws(es[i - 1].key, es[i].key);
    }
  }

  lemma SortedKeysAreStrict(es: seq<Entry>)
    requires Ordering.Sorted(es, KeyLe) && !AdjacentDuplicate(es)
    ensures StrictKeys(es)
  {
    forall i, j | 0 <= i < j < |es| ensures CompareText(es[i].key, es[j].key) < 0 {
      var a, b, c := es[i].key, es[i + 1].key, es[j].key;
      assert KeyLe(es[i], es[i + 1]);
      assert a != b by {
        assert es[(i + 1) - 1].key == a;
      }
      assert CompareText(b, c) <= 0 by {
        CompareTextLaws(b, c);
        assert i + 1 < j ==> KeyLe(es[i + 1], es[j]);
      }
      CompareTextLaws(a, b);
      CompareTextLaws(a, c);
      CompareTextTransitive(a, b, c);
    }
  }

  /** The constructors accept exactly the bounded values built from bounded parts. */
  lemma MakeListBounded(es: seq<Value>, limits: ValueLimits)
    requires limits.Sized()
    requires forall i :: 0 <= i < |es| ==> Bounded(es[i], limits)
    ensures MakeList(es, limits).Ok? <==> Bounded(List(es), limits)
  {
    ValidElements(es, limits);
  }

  lemma MakeMapBounded(es: seq<Entry>, limits: ValueLimits)
    requires limits.Sized()
    requires forall i :: 0 <= i < |es| ==> Bounded(es[i].value, limits)
    ensures MakeMap(es, limits).Ok? ==> Bounded(MakeMap(es, limits).value, limits)
    ensures Bounded(Map(es), limits) ==> MakeMap(es, limits) == Ok(Map(es))
  {
    ValidEntries(es, limits);
    if MakeMap(es, limits).Ok? {
      SortedEntriesBounded(es, limits);
    }
    if Bounded(Map(es), limits) {
      StrictKeysAreSorted(es);
    }
  }

  lemma SortedMembers(es: seq<Entry>, limits: ValueLimits)
    requires !OversizedKey(es, limits) && forall i :: 0 <= i < |es| ==> Bounded(es[i].value, limits)
    ensures var sorted := Ordering.Sort(es, KeyLe);
            && |sorted| == |es|
            && forall i :: 0 <= i < |sorted| ==> Bounded(sorted[i].value, limits) && |sorted[i].key| <= limits.maxTextBytes
  {
    hide Bounded, KeyLe, Ordering.Sort;
    var sorted := Ordering.Sort(es, KeyLe);
    Ordering.SortContents(es, KeyLe);
    Ordering.SortMembers(es, KeyLe);
    forall i | 0 <= i < |sorted| ensures Bounded(sorted[i].value, limits) && |sorted[i].key| <= limits.maxTextBytes {
      assert sorted[i] in es;
    }
  }

  lemma SortedStrict(es: seq<Entry>)
    requires !AdjacentDuplicate(Ordering.Sort(es, KeyLe))
    ensures StrictKeys(Ordering.Sort(es, KeyLe))
  {
    hide AdjacentDuplicate, StrictKeys, KeyLe, Ordering.Sort, Ordering.Sorted;
    KeyOrderIsTotal();
    Ordering.SortSorted(es, KeyLe);
    SortedKeysAreStrict(Ordering.Sort(es, KeyLe));
  }

  lemma SortedEntriesBounded(es: seq<Entry>, limits: ValueLimits)
    requires limits.Sized() && MakeMap(es, limits).Ok?
    requires forall i :: 0 <= i < |es| ==> Bounded(es[i].value, limits)
    ensures Bounded(MakeMap(es, limits).value, limits)
  {
    hide OversizedKey, AdjacentDuplicate, StrictKeys, KeyLe, Ordering.Sort;
    var sorted := Ordering.Sort(es, KeyLe);
    SortedStrict(es);
    SortedMembers(es, limits);
    ValidEntries(sorted, limits);
  }

  // ---- the codec ----

  function EncodeValue(v: Value): (r: Text)
    ensures |r| >= 1
    decreases v, 2
  {
    [KindOf(v)] + EncodePayload(v)
  }

  function EncodePayload(v: Value): Text
    decreases v, 1
  {
    match v
    case Null => []
    case Bool(b) => PutBool(b)
    case Int(n) => PutI64(n)
    case Uint(n) => PutU64(n)
    case Real(bits) => PutU64(bits)
    case Txt(t) => PutBytes(t)
    case Blob(b) => PutBytes(b)
    case List(es) => PutLength(|es|) + EncodeElements(es)
    case Map(es) => PutLength(|es|) + EncodeEntries(es)
  }

  function EncodeElements(es: seq<Value>): Text
    decreases es, 0
  {
    if es == [] then [] else EncodeValue(es[0]) + EncodeElements(es[1..])
  }

  function EncodeEntries(es: seq<Entry>): Text
    decreases es, 0
  {
    if es == [] then []
    else PutBytes(es[0].key) + EncodeValue(es[0].value) + EncodeEntries(es[1..])
  }

  function DecodeValue(s: Text, limits: ValueLimits): (r: Parsed<Value>)
    ensures r.Ok? ==> |r.value.1| < |s|
    decreases |s|, 0
  {
    if s == [] || s[0] > 8 then Err(Corrupt) else DecodePayload(s[0], s[1..], limits)
  }

  function DecodePayload(kind: byte, s: Text, limits: ValueLimits): (r: Parsed<Value>)
    requires kind <= 8
    ensures r.Ok? ==> |r.value.1| <= |s|
    decreases |s|, 2
  {
    if kind == 0 then Ok((Null, s))
    else if kind == 1 then
      match GetBool(s) case Err(c) => Err(c) case Ok((b, left)) => Ok((Bool(b), left))
    else if kind == 2 then
      match GetI64(s) case Err(c) => Err(c) case Ok((n, left)) => Ok((Int(n), left))
    else if kind == 3 then
      match GetU64(s) case Err(c) => Err(c) case Ok((n, left)) => Ok((Uint(n), left))
    else if kind == 4 then
      match GetU64(s) case Err(c) => Err(c) case Ok((n, left)) => Finish(MakeReal(n), left)
    else if kind == 5 then
      match GetBytes(s) case Err(c) => Err(c) case Ok((t, left)) => Finish(MakeText(t, limits), left)
    else if kind == 6 then
      match GetBytes(s) case Err(c) => Err(c) case Ok((b, left)) => Finish(MakeBlob(b, limits), left)
    else if kind == 7 then DecodeList(s, limits)
    else DecodeMap(s, limits)
  }

  function Finish(made: Result<Value>, left: Text): Parsed<Value> {
    match made case Err(c) => Err(c) case Ok(v) => Ok((v, left))
  }

  function DecodeList(s: Text, limits: ValueLimits): (r: Parsed<Value>)
    ensures r.Ok? ==> |r.value.1| <= |s|
    decreases |s|, 1
  {
    match GetU64(s)
    case Err(c) => Err(c)
    case Ok((count, body)) =>
      if count > limits.maxListElements then Err(TooLarge)
      else match DecodeElements(body, count, [], limits)
        case Err(c) => Err(c)
        case Ok((es, left)) => Finish(MakeList(es, limits), left)
  }

  function DecodeMap(s: Text, limits: ValueLimits): (r: Parsed<Value>)
    ensures r.Ok? ==> |r.value.1| <= |s|
    decreases |s|, 1
  {
    match GetU64(s)
    case Err(c) => Err(c)
    case Ok((count, body)) =>
      if count > limits.maxMapEntries then Err(TooLarge)
      else match DecodeEntries(body, count, [], limits)
        case Err(c) => Err(c)
        case Ok((es, left)) => Finish(MakeMap(es, limits), left)
  }

  function DecodeElements(s: Text, count: nat, done: seq<Value>, limits: ValueLimits): (r: Parsed<seq<Value>>)
    ensures r.Ok? ==> |r.value.1| <= |s|
    decreases |s|, 1
  {
    if count == 0 then Ok((done, s))
    else match DecodeValue(s, limits)
      case Err(c) => Err(c)
      case Ok((v, left)) => DecodeElements(left, count - 1, done + [v], limits)
  }

  function DecodeEntries(s: Text, count: nat, done: seq<Entry>, limits: ValueLimits): (r: Parsed<seq<Entry>>)
    ensures r.Ok? ==> |r.value.1| <= |s|
    decreases |s|, 1
  {
    if count == 0 then Ok((done, s))
    else match GetBytes(s)
      case Err(c) => Err(c)
      case Ok((key, body)) =>
        match DecodeValue(body, limits)
        case Err(c) => Err(c)
        case Ok((v, left)) => DecodeEntries(left, count - 1, done + [Entry(key, v)], limits)
  }

  /** Decoding an encoded bounded value gives it back and consumes exactly its bytes. */
  lemma {:induction false} DecodeEncodeValue(v: Value, rest: Text, limits: ValueLimits)
    requires limits.Sized() && Bounded(v, limits)
    ensures DecodeValue(EncodeValue(v) + rest, limits) == Ok((v, rest))
    decreases v, 2
  {
    hide EncodePayload, DecodePayload, Bounded;
    DecodeEncodePayload(v, rest, limits);
    assert (EncodeValue(v) + rest)[1..] == EncodePayload(v) + rest;
  }

  lemma {:induction false} DecodeEncodePayload(v: Value, rest: Text, limits: ValueLimits)
    requires limits.Sized() && Bounded(v, limits)
    ensures DecodePayload(KindOf(v), EncodePayload(v) + rest, limits) == Ok((v, rest))
    decreases v, 1
  {
    match v
    case Null => assert EncodePayload(v) + rest == rest;
    case Bool(b) => GetPutBool(b, rest);
    case Int(n) => GetPutI64(n, rest);
    case Uint(n) => GetPutU64(n, rest);
    case Real(n) => GetPutU64(n, rest);
    case Txt(t) => GetPutBytes(t, rest);
    case Blob(b) => GetPutBytes(b, rest);
    case List(es) => DecodeEncodeList(es, rest, limits);
    case Map(es) => DecodeEncodeMap(es, rest, limits);
  }

  lemma {:induction false} DecodeEncodeList(es: seq<Value>, rest: Text, limits: ValueLimits)
    requires limits.Sized() && Bounded(List(es), limits)
    ensures DecodeList(EncodePayload(List(es)) + rest, limits) == Ok((List(es), rest))
    decreases es, 1
  {
    hide DecodeElements, EncodeElements;
    var body := EncodeElements(es) + rest;
    assert EncodePayload(List(es)) + rest == PutU64(|es|) + body;
    GetPutU64(|es|, body);
    ValidElements(es, limits);
    assert AllBounded(es, limits);
    DecodeEncodeElements(es, [], rest, limits);
    assert [] + es == es;
    MakeListBounded(es, limits);
  }

  lemma {:induction false} DecodeEncodeMap(es: seq<Entry>, rest: Text, limits: ValueLimits)
    requires limits.Sized() && Bounded(Map(es), limits)
    ensures DecodeMap(EncodePayload(Map(es)) + rest, limits) == Ok((Map(es), rest))
    decreases es, 1
  {
    hide DecodeEntries, EncodeEntries;
    var body := EncodeEntries(es) + rest;
    assert EncodePayload(Map(es)) + rest == PutU64(|es|) + body;
    GetPutU64(|es|, body);
    ValidEntries(es, limits);
    assert AllEntriesBounded(es, limits);
    DecodeEncodeEntries(es, [], rest, limits);
    assert [] + es == es;
    MakeMapBounded(es, limits);
  }

  lemma DecodeNothing(rest: Text, limits: ValueLimits)
    ensures EncodeElements([]) == [] && EncodeEntries([]) == []
    ensures forall done :: DecodeElements(rest, 0, done, limits) == Ok((done, rest))
    ensures forall done :: DecodeEntries(rest, 0, done, limits) == Ok((done, rest))
  {
  }

  lemma EncodeElementsShape(es: seq<Value>, rest: Text)
    requires es != []
    ensures EncodeElements(es) + rest == EncodeValue(es[0]) + (EncodeElements(es[1..]) + rest)
  {
    hide EncodeValue;
  }

  lemma EncodeEntriesShape(es: seq<Entry>, rest: Text)
    requires es != []
    ensures EncodeEntries(es) + rest
         == PutBytes(es[0].key) + (EncodeValue(es[0].value) + (EncodeEntries(es[1..]) + rest))
  {
    hide EncodeValue, PutBytes;
  }

  lemma SizedText(t: Text, limits: ValueLimits)
    requires limits.Sized() && |t| <= limits.maxTextBytes
    ensures |t| < U64_MODULUS
  {
  }

  lemma DecodeElementsStep(s: Text, count: nat, done: seq<Value>, v: Value, left: Text, limits: ValueLimits)
    requires count > 0 && DecodeValue(s, limits) == Ok((v, left))
    ensures DecodeElements(s, count, done, limits) == DecodeElements(left, count - 1, done + [v], limits)
  {
    hide DecodeValue;
  }

  ghost predicate AllBounded(es: seq<Value>, limits: ValueLimits) {
    forall i :: 0 <= i < |es| ==> Bounded(es[i], limits)
  }

  lemma AllBoundedTail(es: seq<Value>, limits: ValueLimits)
    requires es != [] && AllBounded(es, limits)
    ensures Bounded(es[0], limits) && AllBounded(es[1..], limits)
  {
    hide Bounded;
  }

  lemma {:induction false} DecodeEncodeElements(es: seq<Value>, done: seq<Value>, rest: Text, limits: ValueLimits)
    requires limits.Sized() && AllBounded(es, limits)
    ensures DecodeElements(EncodeElements(es) + rest, |es|, done, limits) == Ok((done + es, rest))
    decreases es, 0
  {
    hide *;
    if es == [] {
      DecodeNothing(rest, limits);
      assert done + es == done && EncodeElements(es) + rest == rest;
    } else {
      AllBoundedTail(es, limits);
      var tail := EncodeElements(es[1..]) + rest;
      EncodeElementsShape(es, rest);
      DecodeEncodeValue(es[0], tail, limits);
      DecodeElementsStep(EncodeElements(es) + rest, |es|, done, es[0], tail, limits);
      DecodeEncodeElements(es[1..], done + [es[0]], rest, limits);
      assert done + [es[0]] + es[1..] == done + es;
    }
  }

  lemma DecodeEntriesStep(s: Text, count: nat, done: seq<Entry>, e: Entry, body: Text, left: Text, limits: ValueLimits)
    requires count > 0 && GetBytes(s) == Ok((e.key, body)) && DecodeValue(body, limits) == Ok((e.value, left))
    ensures DecodeEntries(s, count, done, limits) == DecodeEntries(left, count - 1, done + [e], limits)
  {
    hide DecodeValue, GetBytes;
    assert e == Entry(e.key, e.value);
  }

  ghost predicate AllEntriesBounded(es: seq<Entry>, limits: ValueLimits) {
    forall i :: 0 <= i < |es| ==> Bounded(es[i].value, limits) && |es[i].key| <= limits.maxTextBytes
  }

  lemma AllEntriesBoundedTail(es: seq<Entry>, limits: ValueLimits)
    requires es != [] && AllEntriesBounded(es, limits)
    ensures Bounded(es[0].value, limits) && |es[0].key| <= limits.maxTextBytes
    ensures AllEntriesBounded(es[1..], limits)
  {
    hide Bounded;
  }

  lemma {:induction false} DecodeEncodeEntries(es: seq<Entry>, done: seq<Entry>, rest: Text, limits: ValueLimits)
    requires limits.Sized() && AllEntriesBounded(es, limits)
    ensures DecodeEntries(EncodeEntries(es) + rest, |es|, done, limits) == Ok((done + es, rest))
    decreases es, 0
  {
    hide *;
    if es == [] {
      DecodeNothing(rest, limits);
      assert done + es == done && EncodeEntries(es) + rest == rest;
    } else {
      AllEntriesBoundedTail(es, limits);
      var tail := EncodeEntries(es[1..]) + rest;
      var body := EncodeValue(es[0].value) + tail;
      EncodeEntriesShape(es, rest);
      SizedText(es[0].key, limits);
      GetPutBytes(es[0].key, body);
      DecodeEncodeValue(es[0].value, tail, limits);
      DecodeEntriesStep(EncodeEntries(es) + rest, |es|, done, es[0], body, tail, limits);
      DecodeEncodeEntries(es[1..], done + [es[0]], rest, limits);
      assert done + [es[0]] + es[1..] == done + es;
    }
  }

  /** No encoding is a proper prefix of another, so the encoding determines the value. */
  lemma EncodeValuePrefixFree(a: Value, b: Value, x: Text, y: Text, limits: ValueLimits)
    requires limits.Sized() && Bounded(a, limits) && Bounded(b, limits)
    requires EncodeValue(a) + x == EncodeValue(b) + y
    ensures a == b && x == y
  {
    DecodeEncodeValue(a, x, limits);
    DecodeEncodeValue(b, y, limits);
  }

  /** Whatever bytes arrive, a decoded value respects the limits it was decoded under. */
  lemma {:induction false} DecodedValueIsBounded(s: Text, limits: ValueLimits)
    requires limits.Sized() && limits.maxDepth >= 1 && limits.maxTotalNodes >= 1
    requires DecodeValue(s, limits).Ok?
    ensures Bounded(DecodeValue(s, limits).value.0, limits)
    decreases |s|, 0
  {
    DecodedPayloadIsBounded(s[0], s[1..], limits);
  }

  /** That takes limits which admit a value at all: scalars are decoded whatever the bounds on depth and
      nodes, but validation counts even a scalar as one level and one node. */
  lemma DecodingIsBoundedIff(limits: ValueLimits)
    requires limits.Sized()
    ensures (forall s: Text :: DecodeValue(s, limits).Ok? ==> Bounded(DecodeValue(s, limits).value.0, limits))
       <==> limits.maxDepth >= 1 && limits.maxTotalNodes >= 1
  {
    hide Bounded;
    if limits.maxDepth >= 1 && limits.maxTotalNodes >= 1 {
      forall s: Text | DecodeValue(s, limits).Ok? ensures Bounded(DecodeValue(s, limits).value.0, limits) {
        DecodedValueIsBounded(s, limits);
      }
    } else {
      NullIsDecoded(limits);
    }
  }

  lemma NullIsDecoded(limits: ValueLimits)
    ensures DecodeValue([KindOf(Null)], limits) == Ok((Null, []))
    ensures limits.maxDepth == 0 || limits.maxTotalNodes == 0 ==> !Bounded(Null, limits)
  {
    assert [KindOf(Null)][1..] == [];
  }

  lemma {:induction false} DecodedPayloadIsBounded(kind: byte, s: Text, limits: ValueLimits)
    requires limits.Sized() && limits.maxDepth >= 1 && limits.maxTotalNodes >= 1
    requires kind <= 8 && DecodePayload(kind, s, limits).Ok?
    ensures Bounded(DecodePayload(kind, s, limits).value.0, limits)
    decreases |s|, 2
  {
    if kind == 7 {
      var (count, body) := GetU64(s).value;
      DecodedElementsAreBounded(body, count, [], limits);
      MakeListBounded(DecodeElements(body, count, [], limits).value.0, limits);
    } else if kind == 8 {
      var (count, body) := GetU64(s).value;
      DecodedEntriesAreBounded(body, count, [], limits);
      MakeMapBounded(DecodeEntries(body, count, [], limits).value.0, limits);
    }
  }

  lemma {:induction false} DecodedElementsAreBounded(s: Text, count: nat, done: seq<Value>, limits: ValueLimits)
    requires limits.Sized() && limits.maxDepth >= 1 && limits.maxTotalNodes >= 1
    requires DecodeElements(s, count, done, limits).Ok?
    requires forall i :: 0 <= i < |done| ==> Bounded(done[i], limits)
    ensures var es := DecodeElements(s, count, done, limits).value.0;
            forall i :: 0 <= i < |es| ==> Bounded(es[i], limits)
    decreases |s|, 1
  {
    if count > 0 {
      DecodedValueIsBounded(s, limits);
      var (v, left) := DecodeValue(s, limits).value;
      DecodedElementsAreBounded(left, count - 1, done + [v], limits);
    }
  }

  lemma {:induction false} DecodedEntriesAreBounded(s: Text, count: nat, done: seq<Entry>, limits: ValueLimits)
    requires limits.Sized() && limits.maxDepth >= 1 && limits.maxTotalNodes >= 1
    requires DecodeEntries(s, count, done, limits).Ok?
    requires forall i :: 0 <= i < |done| ==> Bounded(done[i].value, limits)
    ensures var es := DecodeEntries(s, count, done, limits).value.0;
            forall i :: 0 <= i < |es| ==> Bounded(es[i].value, limits)
    decreases |s|, 1
  {
    if count > 0 {
      var (key, body) := GetBytes(s).value;
      DecodedValueIsBounded(body, limits);
      var (v, left) := DecodeValue(body, limits).value;
      DecodedEntriesAreBounded(left, count - 1, done + [Entry(key, v)], limits);
    }
  }

  /** Value::encode, appending to the encoder. */
  method Encode(v: Value, encoder: CanonicalEncoder)
    requires |EncodeValue(v)| < U64_MODULUS
    modifies encoder
    ensures encoder.bytes == old(encoder.bytes) + EncodeValue(v)
    decreases v, 1
  {
    hide EncodeElements, EncodeEntries, BigEndian;
    encoder.U8(KindOf(v));
    match v
    case Null =>
    case Bool(b) => encoder.Boolean(b);
    case Int(n) => encoder.I64(n);
    case Uint(n) => encoder.U64(n);
    case Real(bits) => encoder.U64(bits);
    case Txt(t) => encoder.PutBlob(t);
    case Blob(b) => encoder.PutBlob(b);
    case List(es) => EncodeListBody(es, encoder);
    case Map(es) => EncodeMapBody(es, encoder);
  }

  lemma EncodeNothing()
    ensures EncodeElements([]) == [] && EncodeEntries([]) == []
  {
  }

  lemma EncodeElementsStep(done: Text, es: seq<Value>, i: nat)
    requires i < |es|
    ensures done + EncodeElements(es[i..]) == done + EncodeValue(es[i]) + EncodeElements(es[i + 1..])
    ensures |EncodeElements(es[i..])| == |EncodeValue(es[i])| + |EncodeElements(es[i + 1..])|
  {
    hide EncodeValue;
    assert es[i..][1..] == es[i + 1..];
  }

  lemma EncodeEntriesStep(done: Text, es: seq<Entry>, i: nat)
    requires i < |es|
    ensures done + EncodeEntries(es[i..])
         == done + PutBytes(es[i].key) + EncodeValue(es[i].value) + EncodeEntries(es[i + 1..])
    ensures |EncodeEntries(es[i..])|
         == 8 + |es[i].key| + |EncodeValue(es[i].value)| + |EncodeEntries(es[i + 1..])|
  {
    hide EncodeValue;
    assert es[i..][1..] == es[i + 1..];
  }

  method EncodeListBody(es: seq<Value>, encoder: CanonicalEncoder)
    requires |EncodeElements(es)| < U64_MODULUS
    modifies encoder
    ensures encoder.bytes == old(encoder.bytes) + (PutLength(|es|) + EncodeElements(es))
    decreases es, 0
  {
    ElementsEncodedSize(es);
    encoder.U64(|es|);
    hide EncodeValue, EncodeElements, EncodeEntries, PutBytes;
    for i := 0 to |es|
      invariant |EncodeElements(es[i..])| < U64_MODULUS
      invariant encoder.bytes + EncodeElements(es[i..])
             == old(encoder.bytes) + (PutLength(|es|) + EncodeElements(es))
    {
      EncodeElementsStep(encoder.bytes, es, i);
      Encode(es[i], encoder);
    }
    assert es[|es|..] == [];
    EncodeNothing();
  }

  method EncodeMapBody(es: seq<Entry>, encoder: CanonicalEncoder)
    requires |EncodeEntries(es)| < U64_MODULUS
    modifies encoder
    ensures encoder.bytes == old(encoder.bytes) + (PutLength(|es|) + EncodeEntries(es))
    decreases es, 0
  {
    EntriesEncodedSize(es);
    encoder.U64(|es|);
    assert es[0..] == es;
    hide EncodeValue, EncodeElements, EncodeEntries, PutBytes;
    for i := 0 to |es|
      invariant |EncodeEntries(es[i..])| < U64_MODULUS
      invariant encoder.bytes + EncodeEntries(es[i..])
             == old(encoder.bytes) + (PutLength(|es|) + EncodeEntries(es))
    {
      EncodeEntriesStep(encoder.bytes, es, i);
      encoder.PutBlob(es[i].key);
      Encode(es[i].value, encoder);
    }
    assert es[|es|..] == [];
    EncodeNothing();
  }

  lemma {:induction false} ElementsEncodedSize(es: seq<Value>)
    ensures |EncodeElements(es)| >= |es|
  {
    if es != [] {
      ElementsEncodedSize(es[1..]);
    }
  }

  lemma {:induction false} EntriesEncodedSize(es: seq<Entry>)
    ensures |EncodeEntries(es)| >= |es|
  {
    if es != [] {
      EntriesEncodedSize(es[1..]);
    }
  }

  /** Value::decode, moving the decoder's cursor. */
  method Decode(decoder: CanonicalDecoder, limits: ValueLimits) returns (r: Result<Value>)
    requires decoder.Valid() && decoder.ok
    modifies decoder`position, decoder`ok
    ensures decoder.Reads(old(decoder.Rest()), DecodeValue(old(decoder.Rest()), limits), r)
    decreases |decoder.data| - decoder.position
  {
    ghost var was := decoder.Rest();
    var kind := decoder.U8();
    if kind.Err? {
      return Err(kind.code);
    }
    if kind.value > 8 {
      decoder.Poison();
      return Err(Corrupt);
    }
    if kind.value == 0 {
      r := Ok(Null);
    } else if kind.value == 1 {
      var b := decoder.Boolean();
      r := if b.Err? then Err(b.code) else Ok(Bool(b.value));
    } else if kind.value == 2 {
      var n := decoder.I64();
      r := if n.Err? then Err(n.code) else Ok(Int(n.value));
    } else if kind.value == 3 {
      var n := decoder.U64();
      r := if n.Err? then Err(n.code) else Ok(Uint(n.value));
    } else if kind.value == 4 {
      var n := decoder.U64();
      r := if n.Err? then Err(n.code) else MakeReal(n.value);
    } else if kind.value == 5 {
      var t := decoder.GetBlob();
      r := if t.Err? then Err(t.code) else MakeText(t.value, limits);
    } else if kind.value == 6 {
      var b := decoder.GetBlob();
      r := if b.Err? then Err(b.code) else MakeBlob(b.value, limits);
    } else if kind.value == 7 {
      r := DecodeListBody(decoder, limits);
    } else {
      r := DecodeMapBody(decoder, limits);
    }
  }

  method DecodeListBody(decoder: CanonicalDecoder, limits: ValueLimits) returns (r: Result<Value>)
    requires decoder.Valid() && decoder.ok
    modifies decoder`position, decoder`ok
    ensures decoder.Reads(old(decoder.Rest()), DecodeList(old(decoder.Rest()), limits), r)
    decreases |decoder.data| - decoder.position
  {
    var count := decoder.U64();
    if count.Err? {
      return Err(count.code);
    }
    if count.value > limits.maxListElements {
      decoder.Poison();
      return Err(TooLarge);
    }
    var es: seq<Value> := [];
    ghost var body := decoder.Rest();
    for i := 0 to count.value
      invariant decoder.Valid() && decoder.ok && decoder.position > old(decoder.position)
      invariant DecodeElements(body, count.value, [], limits)
             == DecodeElements(decoder.Rest(), count.value - i, es, limits)
    {
      var v := Decode(decoder, limits);
      if v.Err? {
        return v;
      }
      es := es + [v.value];
    }
    r := BuildList(es, limits);
  }

  method DecodeMapBody(decoder: CanonicalDecoder, limits: ValueLimits) returns (r: Result<Value>)
    requires decoder.Valid() && decoder.ok
    modifies decoder`position, decoder`ok
    ensures decoder.Reads(old(decoder.Rest()), DecodeMap(old(decoder.Rest()), limits), r)
    decreases |decoder.data| - decoder.position, 0
  {
    hide DecodeEntries, MakeMap;
    var count := decoder.U64();
    if count.Err? {
      return Err(count.code);
    }
    if count.value > limits.maxMapEntries {
      decoder.Poison();
      return Err(TooLarge);
    }
    var es := DecodeEntriesBody(decoder, count.value, limits);
    if es.Err? {
      return Err(es.code);
    }
    r := BuildMap(es.value, limits);
  }

  /** The loop over the entries of a map. */
  method DecodeEntriesBody(decoder: CanonicalDecoder, count: u64, limits: ValueLimits) returns (r: Result<seq<Entry>>)
    requires decoder.Valid() && decoder.ok
    modifies decoder`position, decoder`ok
    ensures decoder.Reads(old(decoder.Rest()), DecodeEntries(old(decoder.Rest()), count, [], limits), r)
    decreases |decoder.data| - decoder.position, 1
  {
    hide DecodeValue;
    var es: seq<Entry> := [];
    ghost var body := decoder.Rest();
    for i := 0 to count
      invariant decoder.Valid() && decoder.ok && decoder.position >= old(decoder.position)
      invariant DecodeEntries(body, count, [], limits) == DecodeEntries(decoder.Rest(), count - i, es, limits)
    {
      KeyTakesBytes(decoder.Rest());
      hide GetBytes;
      var key := decoder.GetBlob();
      if key.Err? {
        return Err(key.code);
      }
      var v := Decode(decoder, limits);
      if v.Err? {
        return Err(v.code);
      }
      es := es + [Entry(key.value, v.value)];
    }
    r := Ok(es);
  }

  lemma KeyTakesBytes(s: Text)
    ensures GetBytes(s).Ok? ==> |GetBytes(s).value.1| < |s|
  {
  }
}
