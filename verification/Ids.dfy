/** Typed identities and their text forms (src/ids.cpp). */
module Ids {
  import opened Bytes
  import opened Hex
  import Values

  /** A port is a device and an index on it. */
  datatype Port = Port(device: u128, index: u32)

  datatype TypedIdentity =
    | FabricOf(id: u128)
    | SiteOf(id: u128)
    | PodOf(id: u128)
    | RackOf(id: u128)
    | DeviceOf(id: u128)
    | PortOf(port: Port)
    | LinkOf(local: Port, remote: Port)
    | PathOf(id: u128)

  /** The typed identity together with the 128-bit entity identifier the store is keyed on. */
  datatype SubjectIdentity = SubjectIdentity(typed: TypedIdentity, id: u128)

  function KindOf(t: TypedIdentity): byte {
    match t
    case FabricOf(_) => 0
    case SiteOf(_) => 1
    case PodOf(_) => 2
    case RackOf(_) => 3
    case DeviceOf(_) => 4
    case PortOf(_) => 5
    case LinkOf(_, _) => 6
    case PathOf(_) => 7
  }

  const KIND_NAMES: seq<Text> :=
    [Ascii("fabric"), Ascii("site"), Ascii("pod"), Ascii("rack"), Ascii("device"), Ascii("port"), Ascii("link"),
     Ascii("path")]

  const SLASH: byte := 47
  const BAR: byte := 124
  const COLON: byte := 58

  // ---- ports and links ----

  function ComparePort(a: Port, b: Port): int {
    if a.device != b.device then CompareInt(a.device, b.device) else CompareInt(a.index, b.index)
  }

  /** LinkId::make: two distinct real ports, stored smaller end first. */
  function MakeLink(first: Port, second: Port): Result<TypedIdentity> {
    if first.device == 0 || second.device == 0 || first == second then Err(InvalidArgument)
    else if ComparePort(second, first) < 0 then Ok(LinkOf(second, first))
    else Ok(LinkOf(first, second))
  }

  /** A link has one identity whichever end reports it, and that identity remembers both ends. */
  lemma LinkHasNoDirection(a: Port, b: Port)
    ensures MakeLink(a, b) == MakeLink(b, a)
    ensures MakeLink(a, b).Ok? ==> {MakeLink(a, b).value.local, MakeLink(a, b).value.remote} == {a, b}
    ensures MakeLink(a, b).Ok? ==> ComparePort(MakeLink(a, b).value.local, MakeLink(a, b).value.remote) < 0
  {
  }

  // ---- text ----

  function StripPrefix(text: Text, prefix: Text): Text {
    if |text| >= |prefix| && text[..|prefix|] == prefix then text[|prefix|..] else text
  }

  function HexU128(n: u128): (r: Text)
    ensures |r| == 32
  {
    Values.HexText(BigEndian(n, 16))
  }

  function ParseHexU128(text: Text): Result<u128> {
    if |text| != 32 then Err(InvalidArgument)
    else match HexDecode(text)
      case Err(c) => Err(c)
      case Ok(raw) =>
        FromBigEndianBound(raw);
        Pow256Values();
        Ok(FromBigEndian(raw))
  }

  lemma HexU128RoundTrip(n: u128)
    ensures ParseHexU128(HexU128(n)) == Ok(n)
  {
    Pow256Values();
    HexDecodeEncode(BigEndian(n, 16));
    BigEndianRoundTrip(n, 16);
  }

  /** "<prefix>:<32 hex digits>". */
  function IdText(prefix: Text, n: u128): Text { prefix + [COLON] + HexU128(n) }

  function ParseId(prefix: Text, text: Text): Result<u128> { ParseHexU128(StripPrefix(text, prefix + [COLON])) }

  lemma IdTextRoundTrip(prefix: Text, n: u128)
    ensures ParseId(prefix, IdText(prefix, n)) == Ok(n)
  {
    var p := prefix + [COLON];
    assert IdText(prefix, n)[..|p|] == p;
    assert IdText(prefix, n)[|p|..] == HexU128(n);
    HexU128RoundTrip(n);
  }

  // ---- decimal numbers ----

  function Decimal(n: nat): (r: Text)
    ensures |r| >= 1
    ensures forall i :: 0 <= i < |r| ==> 48 <= r[i] <= 57
  {
    if n < 10 then [48 + n] else Decimal(n / 10) + [48 + n % 10]
  }

  predicate AllDigits(text: Text) { forall i :: 0 <= i < |text| ==> 48 <= text[i] <= 57 }

  function DigitsValue(text: Text): (n: nat)
    requires AllDigits(text)
  {
    if text == [] then 0 else DigitsValue(text[..|text| - 1]) * 10 + (text[|text| - 1] - 48)
  }

  lemma {:induction false} DecimalRoundTrip(n: nat)
    ensures DigitsValue(Decimal(n)) == n
  {
    if n >= 10 {
      DecimalRoundTrip(n / 10);
      var r := Decimal(n);
      assert r[..|r| - 1] == Decimal(n / 10);
    }
  }

  // ---- searching ----

  /** The first position of b, or |text|. */
  function Find(text: Text, b: byte): (i: nat)
    ensures i <= |text|
    ensures forall k :: 0 <= k < i ==> text[k] != b
    ensures i < |text| ==> text[i] == b
  {
    if text == [] || text[0] == b then 0 else 1 + Find(text[1..], b)
  }

  /** The last position of b, or |text|. */
  function FindLast(text: Text, b: byte): (i: nat)
    ensures i <= |text|
    ensures i < |text| ==> text[i] == b && forall k :: i < k < |text| ==> text[k] != b
    ensures i == |text| ==> forall k :: 0 <= k < |text| ==> text[k] != b
  {
    if text == [] then 0
    else if text[|text| - 1] == b then |text| - 1
    else
      var i := FindLast(text[..|text| - 1], b);
      if i == |text| - 1 then |text| else i
  }

  // ---- ports, links and subjects as text ----

  const PORT_PREFIX: Text := Ascii("port:")
  const LINK_PREFIX: Text := Ascii("link:")

  function DeviceText(d: u128): Text { IdText(Ascii("dev"), d) }

  function PortText(p: Port): Text { PORT_PREFIX + (DeviceText(p.device) + [SLASH] + Decimal(p.index)) }

  function ParsePort(text: Text): Result<Port> {
    ParsePortBody(StripPrefix(text, PORT_PREFIX))
  }

  function ParsePortBody(body: Text): Result<Port> {
    var slash := FindLast(body, SLASH);
    if slash == |body| || slash == 0 || slash + 1 >= |body| then Err(MalformedInput)
    else match ParseId(Ascii("dev"), body[..slash])
      case Err(c) => Err(c)
      case Ok(device) =>
        match ParseIndex(body[slash + 1..])
        case Err(c) => Err(c)
        case Ok(index) => Ok(Port(device, index))
  }

  /** Digits only, overflow of 64 bits caught digit by digit, then narrowed to 32 bits. */
  function ParseIndex(text: Text): Result<u32> {
    match Accumulate(text, 0)
    case Err(c) => Err(c)
    case Ok(n) => if n >= 0x1_0000_0000 then Err(OutOfRange) else Ok(n)
  }

  function Accumulate(text: Text, n: u64): Result<u64>
    decreases |text|
  {
    if text == [] then Ok(n)
    else if !(48 <= text[0] <= 57) then Err(MalformedInput)
    else if n * 10 + (text[0] - 48) >= U64_MODULUS then Err(OutOfRange)
    else Accumulate(text[1..], n * 10 + (text[0] - 48))
  }

  /** The digit loop of PortId::from_text. */
  method ParseIndexLoop(text: Text) returns (r: Result<u32>)
    ensures r == ParseIndex(text)
  {
    var n: u64 := 0;
    for i := 0 to |text|
      invariant Accumulate(text, 0) == Accumulate(text[i..], n)
    {
      assert text[i..][1..] == text[i + 1..];
      if !(48 <= text[i] <= 57) {
        return Err(MalformedInput);
      }
      if n * 10 > U64_MODULUS - 1 {
        return Err(OutOfRange);
      }
      if n * 10 > U64_MODULUS - 1 - (text[i] - 48) {
        return Err(OutOfRange);
      }
      n := n * 10 + (text[i] - 48);
    }
    assert text[|text|..] == [];
    r := if n >= 0x1_0000_0000 then Err(OutOfRange) else Ok(n);
  }

  lemma {:induction false} AccumulateAppend(text: Text, d: byte, n: u64)
    requires 48 <= d <= 57 && Accumulate(text, n).Ok?
    requires Accumulate(text, n).value * 10 + (d - 48) < U64_MODULUS
    ensures Accumulate(text + [d], n) == Ok(Accumulate(text, n).value * 10 + (d - 48))
    decreases |text|
  {
    if text == [] {
      assert (text + [d])[1..] == [];
    } else {
      assert (text + [d])[1..] == text[1..] + [d];
      AccumulateAppend(text[1..], d, n * 10 + (text[0] - 48));
    }
  }

  lemma {:induction false} AccumulateDecimal(n: u64)
    ensures Accumulate(Decimal(n), 0) == Ok(n)
  {
    if n < 10 {
      assert Decimal(n)[1..] == [];
    } else {
      AccumulateDecimal(n / 10);
      AccumulateAppend(Decimal(n / 10), 48 + n % 10, 0);
    }
  }

  lemma FindLastSlash(front: Text, back: Text)
    requires SLASH !in back
    ensures var body := front + [SLASH] + back;
            FindLast(body, SLASH) == |front| && body[..|front|] == front && body[|front| + 1..] == back
  {
    var body := front + [SLASH] + back;
    assert body[|front|] == SLASH;
    assert forall k :: |front| < k < |body| ==> body[k] == back[k - |front| - 1];
  }

  lemma StripOwnPrefix(prefix: Text, body: Text)
    ensures StripPrefix(prefix + body, prefix) == body
  {
    assert (prefix + body)[..|prefix|] == prefix;
  }

  lemma PortRoundTrip(p: Port)
    ensures ParsePort(PortText(p)) == Ok(p)
  {
    hide ParseId, IdText, Decimal, FindLast, StripPrefix, Accumulate;
    var device, index := DeviceText(p.device), Decimal(p.index);
    StripOwnPrefix(PORT_PREFIX, device + [SLASH] + index);
    FindLastSlash(device, index);
    assert |device| > 0 by {
      assert device == IdText(Ascii("dev"), p.device);
      IdTextLength(Ascii("dev"), p.device);
    }
    IdTextRoundTrip(Ascii("dev"), p.device);
    AccumulateDecimal(p.index);
  }

  lemma IdTextLength(prefix: Text, n: u128)
    ensures |IdText(prefix, n)| == |prefix| + 33
  {
  }

  function LinkText(local: Port, remote: Port): Text { LINK_PREFIX + (PortText(local) + [BAR] + PortText(remote)) }

  function ParseLink(text: Text): Result<TypedIdentity> {
    ParseLinkBody(StripPrefix(text, LINK_PREFIX))
  }

  function ParseLinkBody(body: Text): Result<TypedIdentity> {
    var bar := Find(body, BAR);
    if bar == |body| then Err(MalformedInput)
    else match ParsePort(body[..bar])
      case Err(c) => Err(c)
      case Ok(local) =>
        match ParsePort(body[bar + 1..])
        case Err(c) => Err(c)
        case Ok(remote) => MakeLink(local, remote)
  }

  lemma {:induction false} HexTextBytes(data: Text)
    ensures forall i :: 0 <= i < |Values.HexText(data)| ==> 48 <= Values.HexText(data)[i] <= 102
  {
    if data != [] {
      HexTextBytes(data[1..]);
      Values.HexDigit(data[0] / 16);
      Values.HexDigit(data[0] % 16);
    }
  }

  lemma PortTextHasNoBar(p: Port)
    ensures BAR !in PortText(p)
  {
    HexTextBytes(BigEndian(p.device, 16));
    assert BAR !in HexU128(p.device);
    assert BAR !in Decimal(p.index);
    assert BAR !in Ascii("dev") && BAR !in PORT_PREFIX;
    assert BAR !in DeviceText(p.device);
  }

  lemma LinkRoundTrip(local: Port, remote: Port)
    requires MakeLink(local, remote) == Ok(LinkOf(local, remote))
    ensures ParseLink(LinkText(local, remote)) == Ok(LinkOf(local, remote))
  {
    hide ParsePort, PortText;
    var a, b := PortText(local), PortText(remote);
    var body := a + [BAR] + b;
    StripOwnPrefix(LINK_PREFIX, body);
    PortTextHasNoBar(local);
    assert body[|a|] == BAR;
    assert Find(body, BAR) == |a|;
    assert body[..|a|] == a && body[|a| + 1..] == b;
    PortRoundTrip(local);
    PortRoundTrip(remote);
  }

  function BodyText(t: TypedIdentity): Text {
    match t
    case FabricOf(n) => IdText(Ascii("fab"), n)
    case SiteOf(n) => IdText(Ascii("site"), n)
    case PodOf(n) => IdText(Ascii("pod"), n)
    case RackOf(n) => IdText(Ascii("rack"), n)
    case DeviceOf(n) => IdText(Ascii("dev"), n)
    case PortOf(p) => PortText(p)
    case LinkOf(local, remote) => LinkText(local, remote)
    case PathOf(n) => IdText(Ascii("path"), n)
  }

  /** "<kind>/<typed identity>": both the wire form and the text the entity identifier hashes. */
  function TypedText(t: TypedIdentity): Text { KIND_NAMES[KindOf(t)] + [SLASH] + BodyText(t) }

  function WrapId(made: Result<u128>, wrap: u128 -> TypedIdentity): Result<TypedIdentity> {
    match made case Err(c) => Err(c) case Ok(n) => Ok(wrap(n))
  }

  function ParseBody(kind: nat, body: Text): Result<TypedIdentity>
    requires kind < 8
  {
    if kind == 0 then WrapId(ParseId(Ascii("fab"), body), (n: u128) => FabricOf(n))
    else if kind == 1 then WrapId(ParseId(Ascii("site"), body), (n: u128) => SiteOf(n))
    else if kind == 2 then WrapId(ParseId(Ascii("pod"), body), (n: u128) => PodOf(n))
    else if kind == 3 then WrapId(ParseId(Ascii("rack"), body), (n: u128) => RackOf(n))
    else if kind == 4 then WrapId(ParseId(Ascii("dev"), body), (n: u128) => DeviceOf(n))
    else if kind == 5 then
      match ParsePort(body) case Err(c) => Err(c) case Ok(p) => Ok(PortOf(p))
    else if kind == 6 then ParseLink(body)
    else WrapId(ParseId(Ascii("path"), body), (n: u128) => PathOf(n))
  }

  /** The index of name among the kind names, or 8. */
  function KindNamed(name: Text): (k: nat)
    ensures k <= 8
    ensures k < 8 ==> KIND_NAMES[k] == name
  {
    if name == KIND_NAMES[0] then 0
    else if name == KIND_NAMES[1] then 1
    else if name == KIND_NAMES[2] then 2
    else if name == KIND_NAMES[3] then 3
    else if name == KIND_NAMES[4] then 4
    else if name == KIND_NAMES[5] then 5
    else if name == KIND_NAMES[6] then 6
    else if name == KIND_NAMES[7] then 7
    else 8
  }

  function ParseTyped(text: Text): Result<TypedIdentity> {
    var slash := Find(text, SLASH);
    if slash == |text| then Err(MalformedInput)
    else
      var kind := KindNamed(text[..slash]);
      if kind == 8 then Err(InvalidArgument) else ParseBody(kind, text[slash + 1..])
  }

  /** What the builders of identities guarantee: a link joins two distinct real ports in order. */
  predicate WellFormed(t: TypedIdentity) {
    t.LinkOf? ==> MakeLink(t.local, t.remote) == Ok(t)
  }

  lemma BodyRoundTrip(t: TypedIdentity)
    requires WellFormed(t)
    ensures ParseBody(KindOf(t), BodyText(t)) == Ok(t)
  {
    hide IdText, ParseId, PortText, ParsePort, LinkText, ParseLink;
    match t
    case FabricOf(n) => IdTextRoundTrip(Ascii("fab"), n);
    case SiteOf(n) => IdTextRoundTrip(Ascii("site"), n);
    case PodOf(n) => IdTextRoundTrip(Ascii("pod"), n);
    case RackOf(n) => IdTextRoundTrip(Ascii("rack"), n);
    case DeviceOf(n) => IdTextRoundTrip(Ascii("dev"), n);
    case PortOf(p) => PortRoundTrip(p);
    case LinkOf(local, remote) => LinkRoundTrip(local, remote);
    case PathOf(n) => IdTextRoundTrip(Ascii("path"), n);
  }

  lemma KindNames(k: nat)
    requires k < 8
    ensures SLASH !in KIND_NAMES[k]
    ensures KindNamed(KIND_NAMES[k]) == k
  {
    assert |KIND_NAMES[0]| == 6 && |KIND_NAMES[1]| == 4 && |KIND_NAMES[2]| == 3 && |KIND_NAMES[3]| == 4;
    assert |KIND_NAMES[4]| == 6 && |KIND_NAMES[5]| == 4 && |KIND_NAMES[6]| == 4 && |KIND_NAMES[7]| == 4;
    assert KIND_NAMES[0][0] == 102 && KIND_NAMES[4][0] == 100;
    assert KIND_NAMES[1][0] == 115 && KIND_NAMES[3][0] == 114 && KIND_NAMES[5][0] == 112;
    assert KIND_NAMES[6][0] == 108 && KIND_NAMES[7][0] == 112 && KIND_NAMES[5][1] == 111 && KIND_NAMES[7][1] == 97;
  }

  /** The typed text is fully reversible. */
  lemma TypedTextRoundTrip(t: TypedIdentity)
    requires WellFormed(t)
    ensures ParseTyped(TypedText(t)) == Ok(t)
  {
    hide BodyText, ParseBody, KindNamed;
    var name, body := KIND_NAMES[KindOf(t)], BodyText(t);
    var text := name + [SLASH] + body;
    KindNames(KindOf(t));
    assert text[|name|] == SLASH;
    assert Find(text, SLASH) == |name|;
    assert text[..|name|] == name && text[|name| + 1..] == body;
    BodyRoundTrip(t);
  }

  lemma {:induction false} DecimalLength(n: nat)
    ensures |Decimal(n)| <= n + 1
  {
    if n >= 10 {
      DecimalLength(n / 10);
    }
  }

  lemma TypedTextLength(t: TypedIdentity)
    ensures |TypedText(t)| < 0x4_0000_0000
  {
    match t
    case PortOf(p) => DecimalLength(p.index);
    case LinkOf(a, b) =>
      DecimalLength(a.index);
      DecimalLength(b.index);
    case _ =>
  }

  /** Whatever text arrives, a parsed identity is well formed. */
  lemma ParsedIsWellFormed(text: Text)
    requires ParseTyped(text).Ok?
    ensures WellFormed(ParseTyped(text).value)
  {
    hide ParseId, ParsePort;
  }

  /** The identity the builders produce: the entity identifier is a digest of the typed text. */
  function Identify(t: TypedIdentity, derive: Text -> u128): SubjectIdentity {
    SubjectIdentity(t, derive(TypedText(t)))
  }

  // ---- the order of subjects ----

  function CompareTyped(a: TypedIdentity, b: TypedIdentity): int
    requires KindOf(a) == KindOf(b)
  {
    match a
    case PortOf(p) => ComparePort(p, b.port)
    case LinkOf(x, y) => if x != b.local then ComparePort(x, b.local) else ComparePort(y, b.remote)
    case _ => CompareInt(a.id, b.id)
  }

  function CompareSubject(a: SubjectIdentity, b: SubjectIdentity): int {
    if KindOf(a.typed) != KindOf(b.typed) then CompareInt(KindOf(a.typed), KindOf(b.typed))
    else if a.id != b.id then CompareInt(a.id, b.id)
    else CompareTyped(a.typed, b.typed)
  }

  lemma ComparePortLaws(a: Port, b: Port)
    ensures ComparePort(a, b) == 0 <==> a == b
    ensures ComparePort(a, b) == -ComparePort(b, a)
  {
  }

  lemma ComparePortTransitive(a: Port, b: Port, c: Port)
    requires ComparePort(a, b) <= 0 && ComparePort(b, c) <= 0
    ensures ComparePort(a, c) <= 0
  {
  }

  lemma CompareTypedLaws(a: TypedIdentity, b: TypedIdentity)
    requires KindOf(a) == KindOf(b)
    ensures CompareTyped(a, b) == 0 <==> a == b
    ensures CompareTyped(a, b) == -CompareTyped(b, a)
  {
    match a
    case PortOf(p) => ComparePortLaws(p, b.port);
    case LinkOf(x, y) =>
      ComparePortLaws(x, b.local);
      ComparePortLaws(y, b.remote);
    case _ =>
  }

  lemma CompareTypedTransitive(a: TypedIdentity, b: TypedIdentity, c: TypedIdentity)
    requires KindOf(a) == KindOf(b) == KindOf(c)
    requires CompareTyped(a, b) <= 0 && CompareTyped(b, c) <= 0
    ensures CompareTyped(a, c) <= 0
  {
    match a
    case PortOf(p) => ComparePortTransitive(p, b.port, c.port);
    case LinkOf(x, y) =>
      hide ComparePort;
      ComparePortLaws(x, b.local);
      ComparePortLaws(b.local, c.local);
      ComparePortLaws(x, c.local);
      if x == c.local {
        ComparePortTransitive(y, b.remote, c.remote);
      } else {
        ComparePortTransitive(x, b.local, c.local);
      }
    case _ =>
  }

  /** The order of subjects is total, and ties only equal subjects. */
  lemma CompareSubjectLaws(a: SubjectIdentity, b: SubjectIdentity)
    ensures CompareSubject(a, b) == 0 <==> a == b
    ensures CompareSubject(a, b) == -CompareSubject(b, a)
  {
    hide CompareTyped;
    if KindOf(a.typed) == KindOf(b.typed) {
      CompareTypedLaws(a.typed, b.typed);
    }
  }

  lemma CompareSubjectTransitive(a: SubjectIdentity, b: SubjectIdentity, c: SubjectIdentity)
    requires CompareSubject(a, b) <= 0 && CompareSubject(b, c) <= 0
    ensures CompareSubject(a, c) <= 0
  {
    hide CompareTyped;
    if KindOf(a.typed) == KindOf(b.typed) == KindOf(c.typed) && a.id == b.id == c.id {
      CompareTypedTransitive(a.typed, b.typed, c.typed);
    }
  }
}
