/** The unit of input: claims with provenance, their canonical order, and their codec
    (src/observation.cpp, src/aspect.cpp). */
module Observations {
  import opened Bytes
  import opened Canonical
  import Ids
  import Values
  import Ordering

  datatype Limits = Limits(
    maxClaims: nat,
    maxCausal: nat,
    maxMetadataEntries: nat,
    maxMetadataKeyBytes: nat,
    maxMetadataValueBytes: nat,
    values: Values.ValueLimits)
  {
    /** Counts are 32-bit in the program, sizes are size_t. */
    ghost predicate Sized() {
      maxClaims < U64_MODULUS && maxCausal < U64_MODULUS && maxMetadataEntries < U64_MODULUS
      && maxMetadataKeyBytes < U64_MODULUS && maxMetadataValueBytes < U64_MODULUS && values.Sized()
      && values.maxDepth >= 1 && values.maxTotalNodes >= 1
    }
  }

  datatype Claim = Claim(
    subject: Ids.SubjectIdentity,
    aspect: Text,
    value: Values.Value,
    supported: bool,
    revision: u64)

  datatype CausalRef = CausalRef(antecedent: Text, strength: byte, basis: Text)

  datatype MetaEntry = MetaEntry(key: Text, value: Text)

  datatype Observation = Observation(
    schema: Text,
    fabric: u128,
    source: u128,
    incarnation: u128,
    sequence: u64,
    generation: u64,
    epoch: u64,
    observedAt: i64,
    claims: seq<Claim>,
    causal: seq<CausalRef>,
    metadata: seq<MetaEntry>)

  datatype ObservationRecord = ObservationRecord(
    observation: Observation,
    receivedAt: i64,
    recovered: bool,
    recoveryEpoch: u64)

  /** A 32-byte content digest, read as the number its bytes denote: equal and ordered alike. */
  type Digest = nat

  const CAUSAL_STRENGTHS := 3

  // ---- aspects ----

  const DOMAIN_NAMES: seq<Text> :=
    [Ascii("identity"), Ascii("topology"), Ascii("link"), Ascii("device"), Ascii("port"), Ascii("path"),
     Ascii("capacity"), Ascii("reachability"), Ascii("authority"), Ascii("failure"), Ascii("partition"),
     Ascii("congestion"), Ascii("operational")]

  const DOT: byte := 46
  const MAX_ASPECT_LENGTH := 64

  predicate IdentifierByte(c: byte) {
    97 <= c <= 122 || 48 <= c <= 57 || c == DOT || c == 95 || c == 45
  }

  predicate ValidIdentifier(text: Text, maxLength: nat) {
    text != [] && |text| <= maxLength && forall i :: 0 <= i < |text| ==> IdentifierByte(text[i])
  }

  function ParseAspect(text: Text): Result<Text> {
    if text == [] then Err(InvalidArgument)
    else if |text| > MAX_ASPECT_LENGTH then Err(TooLarge)
    else
      var dot := Ids.Find(text, DOT);
      if dot == |text| || dot == 0 || dot + 1 >= |text| then Err(InvalidArgument)
      else if text[..dot] !in DOMAIN_NAMES then Err(Unsupported)
      else if !ValidIdentifier(text, MAX_ASPECT_LENGTH) then Err(InvalidArgument)
      else Ok(text)
  }

  /** What the build knows about a well-known aspect: the coverage it needs to be called known. */
  datatype AspectDescriptor = AspectDescriptor(name: Text, requiredSources: nat, requiredAuthority: nat)

  const WELL_KNOWN_ASPECTS: seq<AspectDescriptor> :=
    [AspectDescriptor(Ascii("identity.labels"), 1, 0),
     AspectDescriptor(Ascii("topology.parent"), 1, 0),
     AspectDescriptor(Ascii("link.state"), 1, 2),
     AspectDescriptor(Ascii("device.model"), 1, 0),
     AspectDescriptor(Ascii("port.state"), 1, 2),
     AspectDescriptor(Ascii("path.state"), 2, 2),
     AspectDescriptor(Ascii("capacity.bandwidth_bps"), 1, 2),
     AspectDescriptor(Ascii("reachability.state"), 2, 3),
     AspectDescriptor(Ascii("authority.owner"), 1, 4),
     AspectDescriptor(Ascii("failure.state"), 1, 2),
     AspectDescriptor(Ascii("partition.membership"), 1, 2),
     AspectDescriptor(Ascii("congestion.level"), 1, 2),
     AspectDescriptor(Ascii("operational.admin_state"), 1, 2),
     AspectDescriptor(Ascii("operational.health"), 1, 0)]

  /** The first descriptor with this name. */
  function FindDescriptor(known: seq<AspectDescriptor>, name: Text): Option<AspectDescriptor> {
    if known == [] then None
    else if known[0].name == name then Some(known[0])
    else FindDescriptor(known[1..], name)
  }

  // ---- canonical order ----

  function ClaimLe(a: Claim, b: Claim): bool {
    if a.subject != b.subject then Ids.CompareSubject(a.subject, b.subject) < 0
    else CompareText(a.aspect, b.aspect) <= 0
  }

  function CausalLe(a: CausalRef, b: CausalRef): bool {
    if a.antecedent != b.antecedent then CompareText(a.antecedent, b.antecedent) < 0
    else if a.strength != b.strength then a.strength < b.strength
    else CompareText(a.basis, b.basis) <= 0
  }

  function MetaLe(a: MetaEntry, b: MetaEntry): bool { CompareText(a.key, b.key) <= 0 }

  function Canonicalize(o: Observation): Observation {
    o.(claims := Ordering.Sort(o.claims, ClaimLe), causal := Ordering.Sort(o.causal, CausalLe))
  }

  // ---- metadata ----

  predicate BadMetaEntry(e: MetaEntry, limits: Limits) {
    || e.key == []
    || |e.key| > limits.maxMetadataKeyBytes
    || !ValidIdentifier(e.key, limits.maxMetadataKeyBytes)
    || |e.value| > limits.maxMetadataValueBytes
  }

  function MetaEntryCode(e: MetaEntry, limits: Limits): StatusCode {
    if e.key == [] then InvalidArgument
    else if |e.key| > limits.maxMetadataKeyBytes then TooLarge
    else if !ValidIdentifier(e.key, limits.maxMetadataKeyBytes) then InvalidArgument
    else TooLarge
  }

  function CheckMetaEntries(es: seq<MetaEntry>, limits: Limits): Result<()>
  {
    if es == [] then Ok(())
    else if BadMetaEntry(es[0], limits) then Err(MetaEntryCode(es[0], limits))
    else CheckMetaEntries(es[1..], limits)
  }

  predicate AdjacentMetaKeys(es: seq<MetaEntry>) {
    exists i :: 0 < i < |es| && es[i - 1].key == es[i].key
  }

  function MakeMetadata(es: seq<MetaEntry>, limits: Limits): Result<seq<MetaEntry>> {
    if |es| > limits.maxMetadataEntries then Err(TooLarge)
    else match CheckMetaEntries(es, limits)
      case Err(c) => Err(c)
      case Ok(_) =>
        var sorted := Ordering.Sort(es, MetaLe);
        if AdjacentMetaKeys(sorted) then Err(InvalidArgument) else Ok(sorted)
  }

  // ---- validation ----

  function CheckMetaSizes(es: seq<MetaEntry>, limits: Limits): Result<()> {
    if es == [] then Ok(())
    else if |es[0].key| > limits.maxMetadataKeyBytes || |es[0].value| > limits.maxMetadataValueBytes then Err(TooLarge)
    else CheckMetaSizes(es[1..], limits)
  }

  function CheckClaims(claims: seq<Claim>, limits: Limits): Result<()> {
    if claims == [] then Ok(())
    else if claims[0].subject.id == 0 || claims[0].aspect == [] then Err(InvalidArgument)
    else match Values.Validate(claims[0].value, limits.values)
      case Err(c) => Err(c)
      case Ok(_) => CheckClaims(claims[1..], limits)
  }

  predicate AdjacentClaims(claims: seq<Claim>) {
    exists i :: 0 < i < |claims| && claims[i - 1].subject == claims[i].subject && claims[i - 1].aspect == claims[i].aspect
  }

  predicate ZeroDigest(d: Text) { forall i :: 0 <= i < |d| ==> d[i] == 0 }

  function Validate(o: Observation, limits: Limits): Result<()> {
    if o.fabric == 0 || o.source == 0 || o.incarnation == 0 || o.sequence == 0 then Err(InvalidArgument)
    else if |o.claims| > limits.maxClaims || |o.causal| > limits.maxCausal then Err(TooLarge)
    else if o.schema == [] then Err(InvalidArgument)
    else if |o.metadata| > limits.maxMetadataEntries then Err(TooLarge)
    else if CheckMetaSizes(o.metadata, limits).Err? then CheckMetaSizes(o.metadata, limits)
    else if CheckClaims(o.claims, limits).Err? then CheckClaims(o.claims, limits)
    else if AdjacentClaims(o.claims) then Err(InvalidArgument)
    else if exists i :: 0 <= i < |o.causal| && ZeroDigest(o.causal[i].antecedent) then Err(InvalidArgument)
    else Ok(())
  }

  // ---- encoding ----

  const OBSERVATION_TAG: Text := Ascii("observation")

  function PutWords(ws: seq<u64>): Text {
    if ws == [] then [] else PutU64(ws[0]) + PutWords(ws[1..])
  }

  function HeaderWords(o: Observation): (ws: seq<u64>)
    ensures |ws| == 10
  {
    [o.fabric / U64_MODULUS, o.fabric % U64_MODULUS, o.source / U64_MODULUS, o.source % U64_MODULUS, o.incarnation / U64_MODULUS,
     o.incarnation % U64_MODULUS, o.sequence, o.generation, o.epoch, ToUnsigned(o.observedAt)]
  }

  function EncodeSubject(s: Ids.SubjectIdentity): Text {
    [Ids.KindOf(s.typed)] + PutWords([s.id / U64_MODULUS, s.id % U64_MODULUS]) + PutBytes(Ids.TypedText(s.typed))
  }

  function EncodeClaim(c: Claim): Text {
    EncodeSubject(c.subject) + (PutBytes(c.aspect) + (Values.EncodeValue(c.value)
      + (PutBool(c.supported) + PutU64(c.revision))))
  }

  function EncodeCausal(c: CausalRef): Text {
    PutBytes(c.antecedent) + ([c.strength] + PutBytes(c.basis))
  }

  function EncodeMeta(e: MetaEntry): Text { PutBytes(e.key) + PutBytes(e.value) }

  function EncodeClaims(cs: seq<Claim>): Text {
    if cs == [] then [] else EncodeClaim(cs[0]) + EncodeClaims(cs[1..])
  }

  function EncodeCausals(cs: seq<CausalRef>): Text {
    if cs == [] then [] else EncodeCausal(cs[0]) + EncodeCausals(cs[1..])
  }

  function EncodeMetas(es: seq<MetaEntry>): Text {
    if es == [] then [] else EncodeMeta(es[0]) + EncodeMetas(es[1..])
  }

  function EncodeHeader(o: Observation): Text {
    PutTag(OBSERVATION_TAG) + ([1] + (PutBytes(o.schema) + PutWords(HeaderWords(o))))
  }

  function EncodeBody(o: Observation): Text {
    (PutLength(|o.claims|) + EncodeClaims(o.claims))
      + ((PutLength(|o.causal|) + EncodeCausals(o.causal))
      + (PutLength(|o.metadata|) + EncodeMetas(o.metadata)))
  }

  function Encode(o: Observation): Text { EncodeHeader(o) + EncodeBody(o) }

  // ---- decoding ----

  function GetWords(s: Text, count: nat): (r: Parsed<seq<u64>>)
    ensures r.Ok? ==> |r.value.0| == count
  {
    if count == 0 then Ok(([], s))
    else match GetU64(s)
      case Err(c) => Err(c)
      case Ok((w, left)) =>
        match GetWords(left, count - 1)
        case Err(c) => Err(c)
        case Ok((ws, end)) => Ok(([w] + ws, end))
  }

  function Wide(hi: u64, lo: u64): u128 { hi * U64_MODULUS + lo }

  function DecodeSubject(s: Text, derive: Text -> u128): Parsed<Ids.SubjectIdentity> {
    if s == [] || s[0] > 7 then Err(Corrupt)
    else match GetWords(s[1..], 2)
      case Err(c) => Err(c)
      case Ok((ws, more)) =>
        match GetBytes(more)
        case Err(c) => Err(c)
        case Ok((text, left)) =>
          match Ids.ParseTyped(text)
          case Err(c) => Err(c)
          case Ok(typed) =>
            var subject := Ids.Identify(typed, derive);
            if Ids.KindOf(typed) != s[0] || subject.id != Wide(ws[0], ws[1]) then Err(Corrupt)
            else Ok((subject, left))
  }

  function DecodeClaim(s: Text, limits: Limits, derive: Text -> u128): Parsed<Claim> {
    match DecodeSubject(s, derive)
    case Err(c) => Err(c)
    case Ok((subject, s1)) =>
      match GetBytes(s1)
      case Err(c) => Err(c)
      case Ok((text, s2)) =>
        match ParseAspect(text)
        case Err(c) => Err(c)
        case Ok(aspect) =>
          match Values.DecodeValue(s2, limits.values)
          case Err(c) => Err(c)
          case Ok((value, s3)) =>
            match GetBool(s3)
            case Err(c) => Err(c)
            case Ok((supported, s4)) =>
              match GetU64(s4)
              case Err(c) => Err(c)
              case Ok((revision, left)) => Ok((Claim(subject, aspect, value, supported, revision), left))
  }

  function DecodeCausal(s: Text): Parsed<CausalRef> {
    match GetBytes(s)
    case Err(c) => Err(c)
    case Ok((antecedent, s1)) =>
      if |antecedent| != 32 then Err(Corrupt)
      else if s1 == [] || s1[0] >= CAUSAL_STRENGTHS then Err(Corrupt)
      else match GetBytes(s1[1..])
        case Err(c) => Err(c)
        case Ok((basis, left)) => Ok((CausalRef(antecedent, s1[0], basis), left))
  }

  function DecodeMeta(s: Text): Parsed<MetaEntry> {
    match GetBytes(s)
    case Err(c) => Err(c)
    case Ok((key, s1)) =>
      match GetBytes(s1)
      case Err(c) => Err(c)
      case Ok((value, left)) => Ok((MetaEntry(key, value), left))
  }

  function DecodeClaims(s: Text, count: nat, done: seq<Claim>, limits: Limits, derive: Text -> u128): Parsed<seq<Claim>>
    decreases count
  {
    if count == 0 then Ok((done, s))
    else match DecodeClaim(s, limits, derive)
      case Err(c) => Err(c)
      case Ok((x, left)) => DecodeClaims(left, count - 1, done + [x], limits, derive)
  }

  function DecodeCausals(s: Text, count: nat, done: seq<CausalRef>): Parsed<seq<CausalRef>>
    decreases count
  {
    if count == 0 then Ok((done, s))
    else match DecodeCausal(s)
      case Err(c) => Err(c)
      case Ok((x, left)) => DecodeCausals(left, count - 1, done + [x])
  }

  function DecodeMetas(s: Text, count: nat, done: seq<MetaEntry>): Parsed<seq<MetaEntry>>
    decreases count
  {
    if count == 0 then Ok((done, s))
    else match DecodeMeta(s)
      case Err(c) => Err(c)
      case Ok((x, left)) => DecodeMetas(left, count - 1, done + [x])
  }

  datatype Header = Header(schema: Text, words: seq<u64>)

  function DecodeHeader(s: Text): (r: Parsed<Header>)
    ensures r.Ok? ==> |r.value.0.words| == 10
  {
    match GetTag(s, OBSERVATION_TAG)
    case Err(c) => Err(c)
    case Ok((_, s1)) =>
      match ExpectU8(s1, 1)
      case Err(c) => Err(c)
      case Ok((_, s2)) =>
        match GetBytes(s2)
        case Err(c) => Err(c)
        case Ok((schema, s3)) =>
          match GetWords(s3, 10)
          case Err(c) => Err(c)
          case Ok((words, left)) => Ok((Header(schema, words), left))
  }

  function DecodeCountedClaims(s: Text, limits: Limits, derive: Text -> u128): Parsed<seq<Claim>> {
    match GetU64(s)
    case Err(c) => Err(c)
    case Ok((count, body)) =>
      if count > limits.maxClaims then Err(TooLarge) else DecodeClaims(body, count, [], limits, derive)
  }

  function DecodeCountedCausals(s: Text, limits: Limits): Parsed<seq<CausalRef>> {
    match GetU64(s)
    case Err(c) => Err(c)
    case Ok((count, body)) => if count > limits.maxCausal then Err(TooLarge) else DecodeCausals(body, count, [])
  }

  function DecodeCountedMetas(s: Text, limits: Limits): Parsed<seq<MetaEntry>> {
    match GetU64(s)
    case Err(c) => Err(c)
    case Ok((count, body)) =>
      if count > limits.maxMetadataEntries then Err(TooLarge)
      else match DecodeMetas(body, count, [])
        case Err(c) => Err(c)
        case Ok((es, left)) =>
          match MakeMetadata(es, limits)
          case Err(c) => Err(c)
          case Ok(metadata) => Ok((metadata, left))
  }

  function Assemble(h: Header, claims: seq<Claim>, causal: seq<CausalRef>, metadata: seq<MetaEntry>): Observation
    requires |h.words| == 10
  {
    var w := h.words;
    Observation(h.schema, Wide(w[0], w[1]), Wide(w[2], w[3]), Wide(w[4], w[5]), w[6], w[7], w[8], ToSigned(w[9]),
                claims, causal, metadata)
  }

  function Decode(s: Text, limits: Limits, derive: Text -> u128): Parsed<Observation> {
    match DecodeHeader(s)
    case Err(c) => Err(c)
    case Ok((header, s1)) =>
      match DecodeCountedClaims(s1, limits, derive)
      case Err(c) => Err(c)
      case Ok((claims, s2)) =>
        match DecodeCountedCausals(s2, limits)
        case Err(c) => Err(c)
        case Ok((causal, s3)) =>
          match DecodeCountedMetas(s3, limits)
          case Err(c) => Err(c)
          case Ok((metadata, left)) =>
            var o := Canonicalize(Assemble(header, claims, causal, metadata));
            match Validate(o, limits)
            case Err(c) => Err(c)
            case Ok(_) => Ok((o, left))
  }

  // ---- the round trip ----

  ghost predicate GoodClaim(c: Claim, limits: Limits, derive: Text -> u128) {
    && Ids.WellFormed(c.subject.typed) && c.subject == Ids.Identify(c.subject.typed, derive)
    && ParseAspect(c.aspect) == Ok(c.aspect)
    && Values.Bounded(c.value, limits.values)
  }

  ghost predicate GoodCausal(c: CausalRef) {
    |c.antecedent| == 32 && c.strength < CAUSAL_STRENGTHS && |c.basis| < U64_MODULUS
  }

  /** An observation as this runtime builds it: parts from their constructors, lists in canonical order. */
  ghost predicate WellBuilt(o: Observation, limits: Limits, derive: Text -> u128) {
    && |o.schema| < U64_MODULUS
    && (forall i :: 0 <= i < |o.claims| ==> GoodClaim(o.claims[i], limits, derive))
    && (forall i :: 0 <= i < |o.causal| ==> GoodCausal(o.causal[i]))
    && Ordering.Sorted(o.claims, ClaimLe) && Ordering.Sorted(o.causal, CausalLe)
    && MakeMetadata(o.metadata, limits) == Ok(o.metadata)
    && Validate(o, limits).Ok?
  }

  lemma GetWordsStep(s: Text, count: nat, w: u64, left: Text, ws: seq<u64>, end: Text)
    requires count > 0 && GetU64(s) == Ok((w, left)) && GetWords(left, count - 1) == Ok((ws, end))
    ensures GetWords(s, count) == Ok(([w] + ws, end))
  {
    hide GetU64;
  }

  lemma {:induction false} GetPutWords(ws: seq<u64>, rest: Text)
    ensures GetWords(PutWords(ws) + rest, |ws|) == Ok((ws, rest))
  {
    if ws == [] {
      assert PutWords(ws) + rest == rest;
    } else {
      hide GetU64, PutU64, GetWords;
      var tail := PutWords(ws[1..]) + rest;
      assert PutWords(ws) + rest == PutU64(ws[0]) + tail;
      GetPutU64(ws[0], tail);
      GetPutWords(ws[1..], rest);
      GetWordsStep(PutU64(ws[0]) + tail, |ws|, ws[0], tail, ws[1..], rest);
      assert [ws[0]] + ws[1..] == ws;
    }
  }

  lemma WideHalves(n: u128)
    ensures Wide(n / U64_MODULUS, n % U64_MODULUS) == n
  {
  }

  lemma DecodeEncodeSubject(s: Ids.SubjectIdentity, rest: Text, derive: Text -> u128)
    requires Ids.WellFormed(s.typed) && s == Ids.Identify(s.typed, derive)
    ensures DecodeSubject(EncodeSubject(s) + rest, derive) == Ok((s, rest))
  {
    hide PutWords, GetWords, PutBytes, GetBytes, Ids.TypedText, Ids.ParseTyped, Ids.WellFormed, Wide;
    var text := Ids.TypedText(s.typed);
    var words := [s.id / U64_MODULUS, s.id % U64_MODULUS];
    var more := PutBytes(text) + rest;
    var all := EncodeSubject(s) + rest;
    assert all[1..] == PutWords(words) + more;
    GetPutWords(words, more);
    Ids.TypedTextLength(s.typed);
    GetPutBytes(text, rest);
    Ids.TypedTextRoundTrip(s.typed);
    WideHalves(s.id);
  }

  lemma DecodeEncodeClaim(c: Claim, rest: Text, limits: Limits, derive: Text -> u128)
    requires limits.Sized() && GoodClaim(c, limits, derive)
    ensures DecodeClaim(EncodeClaim(c) + rest, limits, derive) == Ok((c, rest))
  {
    hide EncodeSubject, DecodeSubject, PutBytes, GetBytes, PutU64, GetU64, PutBool, GetBool, ParseAspect,
      Values.EncodeValue, Values.DecodeValue, Values.Bounded, Ids.WellFormed, Ids.TypedText;
    var s4 := PutU64(c.revision) + rest;
    var s3 := PutBool(c.supported) + s4;
    var s2 := Values.EncodeValue(c.value) + s3;
    var s1 := PutBytes(c.aspect) + s2;
    assert EncodeClaim(c) + rest == EncodeSubject(c.subject) + s1;
    DecodeEncodeSubject(c.subject, s1, derive);
    ParsedAspectIsShort(c.aspect);
    GetPutBytes(c.aspect, s2);
    Values.DecodeEncodeValue(c.value, s3, limits.values);
    GetPutBool(c.supported, s4);
    GetPutU64(c.revision, rest);
  }

  lemma ParsedAspectIsShort(text: Text)
    requires ParseAspect(text).Ok?
    ensures |text| < U64_MODULUS && text != [] && ParseAspect(text).value == text
  {
  }

  lemma DecodeEncodeCausal(c: CausalRef, rest: Text)
    requires GoodCausal(c)
    ensures DecodeCausal(EncodeCausal(c) + rest) == Ok((c, rest))
  {
    hide PutBytes, GetBytes;
    var s2 := PutBytes(c.basis) + rest;
    var s1 := [c.strength] + s2;
    assert EncodeCausal(c) + rest == PutBytes(c.antecedent) + s1;
    GetPutBytes(c.antecedent, s1);
    assert s1[1..] == s2;
    GetPutBytes(c.basis, rest);
  }

  lemma DecodeEncodeMeta(e: MetaEntry, rest: Text)
    requires |e.key| < U64_MODULUS && |e.value| < U64_MODULUS
    ensures DecodeMeta(EncodeMeta(e) + rest) == Ok((e, rest))
  {
    hide PutBytes, GetBytes;
    var s1 := PutBytes(e.value) + rest;
    assert EncodeMeta(e) + rest == PutBytes(e.key) + s1;
    GetPutBytes(e.key, s1);
    GetPutBytes(e.value, rest);
  }

  lemma ClaimsShape(cs: seq<Claim>, rest: Text)
    requires cs != []
    ensures EncodeClaims(cs) + rest == EncodeClaim(cs[0]) + (EncodeClaims(cs[1..]) + rest)
  {
    hide EncodeClaim;
  }

  lemma {:induction false} DecodeEncodeClaims(cs: seq<Claim>, done: seq<Claim>, rest: Text, limits: Limits, derive: Text -> u128)
    requires limits.Sized()
    requires forall i :: 0 <= i < |cs| ==> GoodClaim(cs[i], limits, derive)
    ensures DecodeClaims(EncodeClaims(cs) + rest, |cs|, done, limits, derive) == Ok((done + cs, rest))
    decreases |cs|
  {
    hide EncodeClaim, DecodeClaim, GoodClaim;
    if cs == [] {
      assert EncodeClaims(cs) + rest == rest && done + cs == done;
    } else {
      var tail := EncodeClaims(cs[1..]) + rest;
      ClaimsShape(cs, rest);
      DecodeEncodeClaim(cs[0], tail, limits, derive);
      DecodeEncodeClaims(cs[1..], done + [cs[0]], rest, limits, derive);
      assert done + [cs[0]] + cs[1..] == done + cs;
    }
  }

  lemma CausalsShape(cs: seq<CausalRef>, rest: Text)
    requires cs != []
    ensures EncodeCausals(cs) + rest == EncodeCausal(cs[0]) + (EncodeCausals(cs[1..]) + rest)
  {
    hide EncodeCausal;
  }

  lemma {:induction false} DecodeEncodeCausals(cs: seq<CausalRef>, done: seq<CausalRef>, rest: Text)
    requires forall i :: 0 <= i < |cs| ==> GoodCausal(cs[i])
    ensures DecodeCausals(EncodeCausals(cs) + rest, |cs|, done) == Ok((done + cs, rest))
    decreases |cs|
  {
    hide EncodeCausal, DecodeCausal, GoodCausal;
    if cs == [] {
      assert EncodeCausals(cs) + rest == rest && done + cs == done;
    } else {
      var tail := EncodeCausals(cs[1..]) + rest;
      CausalsShape(cs, rest);
      DecodeEncodeCausal(cs[0], tail);
      DecodeEncodeCausals(cs[1..], done + [cs[0]], rest);
      assert done + [cs[0]] + cs[1..] == done + cs;
    }
  }

  lemma MetasShape(es: seq<MetaEntry>, rest: Text)
    requires es != []
    ensures EncodeMetas(es) + rest == EncodeMeta(es[0]) + (EncodeMetas(es[1..]) + rest)
  {
    hide EncodeMeta;
  }

  lemma {:induction false} DecodeEncodeMetas(es: seq<MetaEntry>, done: seq<MetaEntry>, rest: Text)
    requires forall i :: 0 <= i < |es| ==> |es[i].key| < U64_MODULUS && |es[i].value| < U64_MODULUS
    ensures DecodeMetas(EncodeMetas(es) + rest, |es|, done) == Ok((done + es, rest))
    decreases |es|
  {
    hide EncodeMeta, DecodeMeta;
    if es == [] {
      assert EncodeMetas(es) + rest == rest && done + es == done;
    } else {
      var tail := EncodeMetas(es[1..]) + rest;
      MetasShape(es, rest);
      DecodeEncodeMeta(es[0], tail);
      DecodeEncodeMetas(es[1..], done + [es[0]], rest);
      assert done + [es[0]] + es[1..] == done + es;
    }
  }

  lemma {:induction false} CheckedMetaEntries(es: seq<MetaEntry>, limits: Limits)
    requires limits.Sized() && CheckMetaEntries(es, limits).Ok?
    ensures forall i :: 0 <= i < |es| ==> |es[i].key| < U64_MODULUS && |es[i].value| < U64_MODULUS
  {
    if es != [] {
      CheckedMetaEntries(es[1..], limits);
      assert forall i :: 0 < i < |es| ==> es[i] == es[1..][i - 1];
    }
  }

  lemma DecodeEncodeHeader(o: Observation, rest: Text)
    requires |o.schema| < U64_MODULUS
    ensures DecodeHeader(EncodeHeader(o) + rest) == Ok((Header(o.schema, HeaderWords(o)), rest))
  {
    hide PutTag, GetTag, PutBytes, GetBytes, PutWords, GetWords, HeaderWords;
    var s3 := PutWords(HeaderWords(o)) + rest;
    var s2 := PutBytes(o.schema) + s3;
    var s1 := [1] + s2;
    assert EncodeHeader(o) + rest == PutTag(OBSERVATION_TAG) + s1;
    GetPutTag(OBSERVATION_TAG, s1);
    assert s1[1..] == s2;
    GetPutBytes(o.schema, s3);
    GetPutWords(HeaderWords(o), rest);
  }

  lemma AssembleParts(o: Observation)
    ensures Assemble(Header(o.schema, HeaderWords(o)), o.claims, o.causal, o.metadata) == o
  {
    WideHalves(o.fabric);
    WideHalves(o.source);
    WideHalves(o.incarnation);
  }

  lemma DecodeEncodeCountedClaims(cs: seq<Claim>, rest: Text, limits: Limits, derive: Text -> u128)
    requires limits.Sized() && |cs| <= limits.maxClaims
    requires forall i :: 0 <= i < |cs| ==> GoodClaim(cs[i], limits, derive)
    ensures DecodeCountedClaims(PutLength(|cs|) + EncodeClaims(cs) + rest, limits, derive) == Ok((cs, rest))
  {
    hide GetU64, PutU64, EncodeClaims, DecodeClaims, GoodClaim;
    var body := EncodeClaims(cs) + rest;
    assert PutLength(|cs|) + EncodeClaims(cs) + rest == PutLength(|cs|) + body;
    assert PutLength(|cs|) == PutU64(|cs|) by { LengthIsWord(|cs|); }
    GetPutU64(|cs|, body);
    DecodeEncodeClaims(cs, [], rest, limits, derive);
    assert [] + cs == cs;
  }

  lemma LengthIsWord(n: u64)
    ensures PutLength(n) == PutU64(n)
  {
  }

  lemma DecodeEncodeCountedCausals(cs: seq<CausalRef>, rest: Text, limits: Limits)
    requires limits.Sized() && |cs| <= limits.maxCausal
    requires forall i :: 0 <= i < |cs| ==> GoodCausal(cs[i])
    ensures DecodeCountedCausals(PutLength(|cs|) + EncodeCausals(cs) + rest, limits) == Ok((cs, rest))
  {
    hide GetU64, PutU64, EncodeCausals, DecodeCausals, GoodCausal;
    var body := EncodeCausals(cs) + rest;
    assert PutLength(|cs|) + EncodeCausals(cs) + rest == PutLength(|cs|) + body;
    assert PutLength(|cs|) == PutU64(|cs|) by { LengthIsWord(|cs|); }
    GetPutU64(|cs|, body);
    DecodeEncodeCausals(cs, [], rest);
    assert [] + cs == cs;
  }

  lemma MetadataParts(es: seq<MetaEntry>, limits: Limits)
    requires limits.Sized() && MakeMetadata(es, limits) == Ok(es)
    ensures |es| <= limits.maxMetadataEntries && |es| < U64_MODULUS
    ensures forall i :: 0 <= i < |es| ==> |es[i].key| < U64_MODULUS && |es[i].value| < U64_MODULUS
  {
    CheckedMetaEntries(es, limits);
  }

  lemma DecodeEncodeCountedMetas(es: seq<MetaEntry>, rest: Text, limits: Limits)
    requires limits.Sized() && MakeMetadata(es, limits) == Ok(es)
    ensures DecodeCountedMetas(PutLength(|es|) + EncodeMetas(es) + rest, limits) == Ok((es, rest))
  {
    hide GetU64, PutU64, EncodeMetas, DecodeMetas, MakeMetadata, PutLength;
    MetadataParts(es, limits);
    var body := EncodeMetas(es) + rest;
    assert PutLength(|es|) + EncodeMetas(es) + rest == PutLength(|es|) + body;
    LengthIsWord(|es|);
    GetPutU64(|es|, body);
    DecodeEncodeMetas(es, [], rest);
    assert [] + es == es;
  }

  lemma CanonicalizeSorted(o: Observation)
    requires Ordering.Sorted(o.claims, ClaimLe) && Ordering.Sorted(o.causal, CausalLe)
    ensures Canonicalize(o) == o
  {
    Ordering.SortOfSorted(o.claims, ClaimLe);
    Ordering.SortOfSorted(o.causal, CausalLe);
  }

  lemma ValidCounts(o: Observation, limits: Limits)
    requires Validate(o, limits).Ok?
    ensures |o.claims| <= limits.maxClaims && |o.causal| <= limits.maxCausal
  {
    hide CheckMetaSizes, CheckClaims;
  }

  /** Decoding an encoded observation gives it back and leaves exactly the bytes that followed it. */
  lemma DecodeEncode(o: Observation, rest: Text, limits: Limits, derive: Text -> u128)
    requires limits.Sized() && WellBuilt(o, limits, derive)
    ensures Decode(Encode(o) + rest, limits, derive) == Ok((o, rest))
  {
    hide EncodeHeader, DecodeHeader, DecodeCountedClaims, DecodeCountedCausals, DecodeCountedMetas, PutLength,
      EncodeClaims, EncodeCausals, EncodeMetas, MakeMetadata, Validate, GoodClaim, GoodCausal, Assemble, Canonicalize,
      HeaderWords;
    var s3 := PutLength(|o.metadata|) + EncodeMetas(o.metadata) + rest;
    var s2 := PutLength(|o.causal|) + EncodeCausals(o.causal) + s3;
    var s1 := PutLength(|o.claims|) + EncodeClaims(o.claims) + s2;
    assert Encode(o) + rest == EncodeHeader(o) + s1;
    ValidCounts(o, limits);
    DecodeEncodeHeader(o, s1);
    DecodeEncodeCountedClaims(o.claims, s2, limits, derive);
    DecodeEncodeCountedCausals(o.causal, s3, limits);
    DecodeEncodeCountedMetas(o.metadata, rest, limits);
    AssembleParts(o);
    CanonicalizeSorted(o);
  }

  /** The encoding determines the observation: equal bytes, or one a prefix of the other, mean equal content. */
  lemma EncodePrefixFree(a: Observation, b: Observation, x: Text, y: Text, limits: Limits, derive: Text -> u128)
    requires limits.Sized() && WellBuilt(a, limits, derive) && WellBuilt(b, limits, derive)
    requires Encode(a) + x == Encode(b) + y
    ensures a == b && x == y
  {
    DecodeEncode(a, x, limits, derive);
    DecodeEncode(b, y, limits, derive);
  }

  // ---- what decoding can return ----

  lemma ClaimOrderIsTotal()
    ensures Ordering.TotalPreorder(ClaimLe)
  {
    hide Ids.CompareSubject, CompareText;
    forall a, b ensures ClaimLe(a, b) || ClaimLe(b, a) {
      Ids.CompareSubjectLaws(a.subject, b.subject);
      CompareTextLaws(a.aspect, b.aspect);
    }
    forall a, b, c | ClaimLe(a, b) && ClaimLe(b, c) ensures ClaimLe(a, c) {
      Ids.CompareSubjectLaws(a.subject, b.subject);
      Ids.CompareSubjectLaws(b.subject, c.subject);
      Ids.CompareSubjectLaws(a.subject, c.subject);
      Ids.CompareSubjectTransitive(a.subject, b.subject, c.subject);
      if a.subject == c.subject {
        CompareTextTransitive(a.aspect, b.aspect, c.aspect);
      }
    }
  }

  lemma CausalOrderIsTotal()
    ensures Ordering.TotalPreorder(CausalLe)
  {
    hide CompareText;
    forall a, b ensures CausalLe(a, b) || CausalLe(b, a) {
      CompareTextLaws(a.antecedent, b.antecedent);
      CompareTextLaws(a.basis, b.basis);
    }
    forall a, b, c | CausalLe(a, b) && CausalLe(b, c) ensures CausalLe(a, c) {
      CompareTextLaws(a.antecedent, b.antecedent);
      CompareTextLaws(b.antecedent, c.antecedent);
      CompareTextLaws(a.antecedent, c.antecedent);
      CompareTextTransitive(a.antecedent, b.antecedent, c.antecedent);
      if a.antecedent == c.antecedent && a.strength == b.strength == c.strength {
        CompareTextTransitive(a.basis, b.basis, c.basis);
      }
    }
  }

  lemma MetaOrderIsTotal()
    ensures Ordering.TotalPreorder(MetaLe)
  {
    forall a, b ensures MetaLe(a, b) || MetaLe(b, a) {
      CompareTextLaws(a.key, b.key);
    }
    forall a, b, c | MetaLe(a, b) && MetaLe(b, c) ensures MetaLe(a, c) {
      CompareTextTransitive(a.key, b.key, c.key);
    }
  }

  lemma DecodedClaimIsGood(s: Text, limits: Limits, derive: Text -> u128)
    requires limits.Sized() && DecodeClaim(s, limits, derive).Ok?
    ensures GoodClaim(DecodeClaim(s, limits, derive).value.0, limits, derive)
  {
    hide GetBytes, GetBool, GetU64, GetWords, Ids.ParseTyped, Ids.TypedText, Ids.WellFormed, Values.DecodeValue,
      Values.Bounded, Wide;
    var (subject, s1) := DecodeSubject(s, derive).value;
    var (_, more) := GetWords(s[1..], 2).value;
    Ids.ParsedIsWellFormed(GetBytes(more).value.0);
    var (text, s2) := GetBytes(s1).value;
    ParsedAspectIsShort(text);
    Values.DecodedValueIsBounded(s2, limits.values);
  }

  lemma {:induction false} DecodedClaimsAreGood(s: Text, count: nat, done: seq<Claim>, limits: Limits, derive: Text -> u128)
    requires limits.Sized() && DecodeClaims(s, count, done, limits, derive).Ok?
    requires forall i :: 0 <= i < |done| ==> GoodClaim(done[i], limits, derive)
    ensures var cs := DecodeClaims(s, count, done, limits, derive).value.0;
            forall i :: 0 <= i < |cs| ==> GoodClaim(cs[i], limits, derive)
    decreases count
  {
    hide DecodeClaim, GoodClaim;
    if count > 0 {
      DecodedClaimIsGood(s, limits, derive);
      var (c, left) := DecodeClaim(s, limits, derive).value;
      DecodedClaimsAreGood(left, count - 1, done + [c], limits, derive);
    }
  }

  lemma DecodedBytesAreShort(s: Text)
    requires GetBytes(s).Ok?
    ensures |GetBytes(s).value.0| < U64_MODULUS
  {
    hide GetU64;
  }

  lemma {:induction false} DecodedCausalsAreGood(s: Text, count: nat, done: seq<CausalRef>)
    requires DecodeCausals(s, count, done).Ok?
    requires forall i :: 0 <= i < |done| ==> GoodCausal(done[i])
    ensures var cs := DecodeCausals(s, count, done).value.0;
            forall i :: 0 <= i < |cs| ==> GoodCausal(cs[i])
    decreases count
  {
    hide GetBytes;
    if count > 0 {
      var (c, left) := DecodeCausal(s).value;
      var (_, s1) := GetBytes(s).value;
      DecodedBytesAreShort(s1[1..]);
      DecodedCausalsAreGood(left, count - 1, done + [c]);
    }
  }

  lemma {:induction false} CheckedMetaIff(es: seq<MetaEntry>, limits: Limits)
    ensures CheckMetaEntries(es, limits).Ok? <==> forall e :: e in es ==> !BadMetaEntry(e, limits)
  {
    hide BadMetaEntry, MetaEntryCode;
    if es != [] {
      CheckedMetaIff(es[1..], limits);
      assert forall e :: e in es <==> e == es[0] || e in es[1..];
    }
  }

  /** Building metadata from metadata changes nothing. */
  lemma MakeMetadataIdempotent(es: seq<MetaEntry>, limits: Limits)
    requires MakeMetadata(es, limits).Ok?
    ensures MakeMetadata(MakeMetadata(es, limits).value, limits) == MakeMetadata(es, limits)
  {
    hide CheckMetaEntries, BadMetaEntry;
    var sorted := Ordering.Sort(es, MetaLe);
    MetaOrderIsTotal();
    Ordering.SortSorted(es, MetaLe);
    Ordering.SortOfSorted(sorted, MetaLe);
    Ordering.SortContents(es, MetaLe);
    Ordering.SortMembers(es, MetaLe);
    CheckedMetaIff(es, limits);
    CheckedMetaIff(sorted, limits);
  }

  lemma SortedPartsStayGood(o: Observation, limits: Limits, derive: Text -> u128)
    requires forall i :: 0 <= i < |o.claims| ==> GoodClaim(o.claims[i], limits, derive)
    requires forall i :: 0 <= i < |o.causal| ==> GoodCausal(o.causal[i])
    ensures var c := Canonicalize(o);
            && (forall i :: 0 <= i < |c.claims| ==> GoodClaim(c.claims[i], limits, derive))
            && (forall i :: 0 <= i < |c.causal| ==> GoodCausal(c.causal[i]))
            && Ordering.Sorted(c.claims, ClaimLe) && Ordering.Sorted(c.causal, CausalLe)
  {
    hide GoodClaim, GoodCausal, ClaimLe, CausalLe;
    ClaimOrderIsTotal();
    CausalOrderIsTotal();
    Ordering.SortSorted(o.claims, ClaimLe);
    Ordering.SortSorted(o.causal, CausalLe);
    Ordering.SortMembers(o.claims, ClaimLe);
    Ordering.SortMembers(o.causal, CausalLe);
    var c := Canonicalize(o);
    assert forall x :: x in c.claims ==> x in o.claims;
    assert forall x :: x in c.causal ==> x in o.causal;
    assert forall i :: 0 <= i < |c.claims| ==> c.claims[i] in o.claims;
    assert forall i :: 0 <= i < |c.causal| ==> c.causal[i] in o.causal;
  }

  lemma DecodedSchemaIsShort(s: Text)
    requires DecodeHeader(s).Ok?
    ensures |DecodeHeader(s).value.0.schema| < U64_MODULUS
  {
    hide GetTag, GetBytes, GetWords;
    var (_, s1) := GetTag(s, OBSERVATION_TAG).value;
    var (_, s2) := ExpectU8(s1, 1).value;
    DecodedBytesAreShort(s2);
  }

  /** Whatever bytes arrive, a decoded observation is one this runtime could have built: it passes
      validation, is in canonical order, and so re-encodes to bytes that decode to it again. */
  lemma DecodedIsWellBuilt(s: Text, limits: Limits, derive: Text -> u128)
    requires limits.Sized() && Decode(s, limits, derive).Ok?
    ensures WellBuilt(Decode(s, limits, derive).value.0, limits, derive)
  {
    hide DecodeHeader, DecodeClaims, DecodeCausals, DecodeMetas, GetU64, MakeMetadata, Canonicalize, Validate, GoodClaim,
      GoodCausal, ClaimLe, CausalLe, Wide;
    var (header, s1) := DecodeHeader(s).value;
    DecodedSchemaIsShort(s);
    var (claims, s2) := DecodeCountedClaims(s1, limits, derive).value;
    var (n1, b1) := GetU64(s1).value;
    DecodedClaimsAreGood(b1, n1, [], limits, derive);
    var (causal, s3) := DecodeCountedCausals(s2, limits).value;
    var (n2, b2) := GetU64(s2).value;
    DecodedCausalsAreGood(b2, n2, []);
    var (metadata, left) := DecodeCountedMetas(s3, limits).value;
    var (n3, b3) := GetU64(s3).value;
    MakeMetadataIdempotent(DecodeMetas(b3, n3, []).value.0, limits);
    var raw := Assemble(header, claims, causal, metadata);
    SortedPartsStayGood(raw, limits, derive);
    CanonicalizeKeeps(raw);
  }

  lemma CanonicalizeKeeps(o: Observation)
    ensures Canonicalize(o).schema == o.schema && Canonicalize(o).metadata == o.metadata
  {
  }

  // ---- the imperative codec ----

  method EncodeWords(ws: seq<u64>, encoder: CanonicalEncoder)
    modifies encoder
    ensures encoder.bytes == old(encoder.bytes) + PutWords(ws)
  {
    hide PutU64;
    assert ws[0..] == ws;
    for i := 0 to |ws|
      invariant encoder.bytes + PutWords(ws[i..]) == old(encoder.bytes) + PutWords(ws)
    {
      WordsStep(encoder.bytes, ws, i);
      encoder.U64(ws[i]);
    }
    assert ws[|ws|..] == [];
  }

  lemma WordsStep(done: Text, ws: seq<u64>, i: nat)
    requires i < |ws|
    ensures done + PutWords(ws[i..]) == done + PutU64(ws[i]) + PutWords(ws[i + 1..])
  {
    hide PutU64;
    assert ws[i..][1..] == ws[i + 1..];
  }

  /** Observation::encode for one claim. */
  method EncodeClaimTo(c: Claim, encoder: CanonicalEncoder)
    requires |EncodeClaim(c)| < U64_MODULUS
    modifies encoder
    ensures encoder.bytes == old(encoder.bytes) + EncodeClaim(c)
  {
    hide PutWords, PutU64, Values.EncodeValue, Ids.TypedText, PutLength;
    encoder.U8(Ids.KindOf(c.subject.typed));
    EncodeWords([c.subject.id / U64_MODULUS, c.subject.id % U64_MODULUS], encoder);
    encoder.PutBlob(Ids.TypedText(c.subject.typed));
    encoder.PutBlob(c.aspect);
    Values.Encode(c.value, encoder);
    encoder.Boolean(c.supported);
    encoder.U64(c.revision);
  }

  lemma ClaimsStep(done: Text, cs: seq<Claim>, i: nat)
    requires i < |cs|
    ensures done + EncodeClaims(cs[i..]) == done + EncodeClaim(cs[i]) + EncodeClaims(cs[i + 1..])
    ensures |EncodeClaims(cs[i..])| == |EncodeClaim(cs[i])| + |EncodeClaims(cs[i + 1..])|
  {
    hide EncodeClaim;
    assert cs[i..][1..] == cs[i + 1..];
  }

  lemma CausalsStep(done: Text, cs: seq<CausalRef>, i: nat)
    requires i < |cs|
    ensures done + EncodeCausals(cs[i..]) == done + EncodeCausal(cs[i]) + EncodeCausals(cs[i + 1..])
    ensures |EncodeCausals(cs[i..])| == |EncodeCausal(cs[i])| + |EncodeCausals(cs[i + 1..])|
  {
    hide EncodeCausal;
    assert cs[i..][1..] == cs[i + 1..];
  }

  lemma MetasStep(done: Text, es: seq<MetaEntry>, i: nat)
    requires i < |es|
    ensures done + EncodeMetas(es[i..]) == done + EncodeMeta(es[i]) + EncodeMetas(es[i + 1..])
    ensures |EncodeMetas(es[i..])| == |EncodeMeta(es[i])| + |EncodeMetas(es[i + 1..])|
  {
    hide EncodeMeta;
    assert es[i..][1..] == es[i + 1..];
  }

  method EncodeHeaderTo(o: Observation, encoder: CanonicalEncoder)
    requires |o.schema| < U64_MODULUS
    modifies encoder
    ensures encoder.bytes == old(encoder.bytes) + EncodeHeader(o)
  {
    hide PutWords, HeaderWords, PutBytes, PutTag;
    encoder.Tag(OBSERVATION_TAG);
    encoder.U8(1);
    encoder.PutBlob(o.schema);
    EncodeWords(HeaderWords(o), encoder);
  }

  method EncodeClaimsTo(cs: seq<Claim>, encoder: CanonicalEncoder)
    requires |cs| < U64_MODULUS && |EncodeClaims(cs)| < U64_MODULUS
    modifies encoder
    ensures encoder.bytes == old(encoder.bytes) + (PutLength(|cs|) + EncodeClaims(cs))
  {
    hide EncodeClaim, EncodeClaims;
    LengthIsWord(|cs|);
    encoder.U64(|cs|);
    assert cs[0..] == cs;
    for i := 0 to |cs|
      invariant |EncodeClaims(cs[i..])| < U64_MODULUS
      invariant encoder.bytes + EncodeClaims(cs[i..])
             == old(encoder.bytes) + (PutLength(|cs|) + EncodeClaims(cs))
    {
      ClaimsStep(encoder.bytes, cs, i);
      EncodeClaimTo(cs[i], encoder);
    }
    assert cs[|cs|..] == [];
    EncodeNothing();
  }

  method EncodeCausalsTo(cs: seq<CausalRef>, encoder: CanonicalEncoder)
    requires |cs| < U64_MODULUS && |EncodeCausals(cs)| < U64_MODULUS
    modifies encoder
    ensures encoder.bytes == old(encoder.bytes) + (PutLength(|cs|) + EncodeCausals(cs))
  {
    hide EncodeCausals;
    LengthIsWord(|cs|);
    encoder.U64(|cs|);
    assert cs[0..] == cs;
    for i := 0 to |cs|
      invariant |EncodeCausals(cs[i..])| < U64_MODULUS
      invariant encoder.bytes + EncodeCausals(cs[i..])
             == old(encoder.bytes) + (PutLength(|cs|) + EncodeCausals(cs))
    {
      CausalsStep(encoder.bytes, cs, i);
      EncodeCausalTo(cs[i], encoder);
    }
    assert cs[|cs|..] == [];
    EncodeNothing();
  }

  method EncodeCausalTo(c: CausalRef, encoder: CanonicalEncoder)
    requires |EncodeCausal(c)| < U64_MODULUS
    modifies encoder
    ensures encoder.bytes == old(encoder.bytes) + EncodeCausal(c)
  {
    hide PutLength;
    encoder.PutBlob(c.antecedent);
    encoder.U8(c.strength);
    encoder.PutBlob(c.basis);
  }

  method EncodeMetasTo(es: seq<MetaEntry>, encoder: CanonicalEncoder)
    requires |es| < U64_MODULUS && |EncodeMetas(es)| < U64_MODULUS
    modifies encoder
    ensures encoder.bytes == old(encoder.bytes) + (PutLength(|es|) + EncodeMetas(es))
  {
    hide EncodeMetas;
    LengthIsWord(|es|);
    encoder.U64(|es|);
    assert es[0..] == es;
    for i := 0 to |es|
      invariant |EncodeMetas(es[i..])| < U64_MODULUS
      invariant encoder.bytes + EncodeMetas(es[i..])
             == old(encoder.bytes) + (PutLength(|es|) + EncodeMetas(es))
    {
      MetasStep(encoder.bytes, es, i);
      EncodeMetaTo(es[i], encoder);
    }
    assert es[|es|..] == [];
    EncodeNothing();
  }

  method EncodeMetaTo(e: MetaEntry, encoder: CanonicalEncoder)
    requires |EncodeMeta(e)| < U64_MODULUS
    modifies encoder
    ensures encoder.bytes == old(encoder.bytes) + EncodeMeta(e)
  {
    hide PutLength;
    encoder.PutBlob(e.key);
    encoder.PutBlob(e.value);
  }

  lemma EncodeNothing()
    ensures EncodeClaims([]) == [] && EncodeCausals([]) == [] && EncodeMetas([]) == []
  {
  }

  lemma {:induction false} ClaimsAreNotShort(cs: seq<Claim>)
    ensures |EncodeClaims(cs)| >= |cs|
  {
    hide PutLength, PutWords, PutBytes;
    if cs != [] {
      ClaimsAreNotShort(cs[1..]);
    }
  }

  lemma {:induction false} CausalsAreNotShort(cs: seq<CausalRef>)
    ensures |EncodeCausals(cs)| >= |cs|
  {
    hide PutLength, PutBytes;
    if cs != [] {
      CausalsAreNotShort(cs[1..]);
    }
  }

  lemma {:induction false} MetasAreNotShort(es: seq<MetaEntry>)
    ensures |EncodeMetas(es)| >= |es|
  {
    hide PutLength;
    if es != [] {
      MetasAreNotShort(es[1..]);
    }
  }

  lemma EncodedSizes(o: Observation)
    ensures |EncodeHeader(o)| >= |o.schema|
    ensures |Encode(o)| >= |EncodeHeader(o)| + |EncodeClaims(o.claims)| + |EncodeCausals(o.causal)| + |EncodeMetas(o.metadata)|
    ensures |EncodeClaims(o.claims)| >= |o.claims| && |EncodeCausals(o.causal)| >= |o.causal|
    ensures |EncodeMetas(o.metadata)| >= |o.metadata|
  {
    ClaimsAreNotShort(o.claims);
    CausalsAreNotShort(o.causal);
    MetasAreNotShort(o.metadata);
    hide PutLength, PutWords, EncodeClaims, EncodeCausals, EncodeMetas, HeaderWords;
  }

  /** Observation::encode, appending to the encoder. */
  method EncodeTo(o: Observation, encoder: CanonicalEncoder)
    requires |Encode(o)| < U64_MODULUS
    modifies encoder
    ensures encoder.bytes == old(encoder.bytes) + Encode(o)
  {
    hide EncodeHeader, EncodeClaims, EncodeCausals, EncodeMetas, PutLength;
    EncodedSizes(o);
    EncodeHeaderTo(o, encoder);
    EncodeClaimsTo(o.claims, encoder);
    EncodeCausalsTo(o.causal, encoder);
    EncodeMetasTo(o.metadata, encoder);
  }

  method DecodeWordsFrom(decoder: CanonicalDecoder, count: nat) returns (r: Result<seq<u64>>)
    requires decoder.Valid() && decoder.ok
    modifies decoder`position, decoder`ok
    ensures decoder.Reads(old(decoder.Rest()), GetWords(old(decoder.Rest()), count), r)
    decreases count
  {
    hide GetU64;
    if count == 0 {
      return Ok([]);
    }
    var w := decoder.U64();
    if w.Err? {
      return Err(w.code);
    }
    var ws := DecodeWordsFrom(decoder, count - 1);
    r := if ws.Err? then ws else Ok([w.value] + ws.value);
  }

  method DecodeSubjectFrom(decoder: CanonicalDecoder, derive: Text -> u128) returns (r: Result<Ids.SubjectIdentity>)
    requires decoder.Valid() && decoder.ok
    modifies decoder`position, decoder`ok
    ensures decoder.Reads(old(decoder.Rest()), DecodeSubject(old(decoder.Rest()), derive), r)
  {
    hide GetWords, GetBytes, Ids.ParseTyped, Ids.TypedText;
    var kind := decoder.U8();
    if kind.Err? {
      return Err(kind.code);
    }
    if kind.value > 7 {
      decoder.Poison();
      return Err(Corrupt);
    }
    var words := DecodeWordsFrom(decoder, 2);
    if words.Err? {
      return Err(words.code);
    }
    var text := decoder.GetBlob();
    if text.Err? {
      return Err(text.code);
    }
    var typed := Ids.ParseTyped(text.value);
    if typed.Err? {
      return Err(typed.code);
    }
    var subject := Ids.Identify(typed.value, derive);
    if Ids.KindOf(typed.value) != kind.value || subject.id != Wide(words.value[0], words.value[1]) {
      decoder.Poison();
      return Err(Corrupt);
    }
    r := Ok(subject);
  }

  method DecodeClaimFrom(decoder: CanonicalDecoder, limits: Limits, derive: Text -> u128) returns (r: Result<Claim>)
    requires decoder.Valid() && decoder.ok
    modifies decoder`position, decoder`ok
    ensures decoder.Reads(old(decoder.Rest()), DecodeClaim(old(decoder.Rest()), limits, derive), r)
  {
    hide DecodeSubject, GetBytes, ParseAspect, Values.DecodeValue, GetBool, GetU64;
    var subject := DecodeSubjectFrom(decoder, derive);
    if subject.Err? {
      return Err(subject.code);
    }
    var text := decoder.GetBlob();
    if text.Err? {
      return Err(text.code);
    }
    var aspect := ParseAspect(text.value);
    if aspect.Err? {
      return Err(aspect.code);
    }
    var value := Values.Decode(decoder, limits.values);
    if value.Err? {
      return Err(value.code);
    }
    var supported := decoder.Boolean();
    if supported.Err? {
      return Err(supported.code);
    }
    var revision := decoder.U64();
    if revision.Err? {
      return Err(revision.code);
    }
    r := Ok(Claim(subject.value, aspect.value, value.value, supported.value, revision.value));
  }

  method DecodeCausalFrom(decoder: CanonicalDecoder) returns (r: Result<CausalRef>)
    requires decoder.Valid() && decoder.ok
    modifies decoder`position, decoder`ok
    ensures decoder.Reads(old(decoder.Rest()), DecodeCausal(old(decoder.Rest())), r)
  {
    hide GetBytes;
    var antecedent := decoder.GetBlob();
    if antecedent.Err? {
      return Err(antecedent.code);
    }
    if |antecedent.value| != 32 {
      decoder.Poison();
      return Err(Corrupt);
    }
    var strength := decoder.U8();
    if strength.Err? {
      return Err(strength.code);
    }
    if strength.value >= CAUSAL_STRENGTHS {
      decoder.Poison();
      return Err(Corrupt);
    }
    var basis := decoder.GetBlob();
    if basis.Err? {
      return Err(basis.code);
    }
    r := Ok(CausalRef(antecedent.value, strength.value, basis.value));
  }

  method DecodeClaimsFrom(decoder: CanonicalDecoder, limits: Limits, derive: Text -> u128) returns (r: Result<seq<Claim>>)
    requires decoder.Valid() && decoder.ok
    modifies decoder`position, decoder`ok
    ensures decoder.Reads(old(decoder.Rest()), DecodeCountedClaims(old(decoder.Rest()), limits, derive), r)
  {
    hide DecodeClaim, GetU64;
    var count := decoder.U64();
    if count.Err? {
      return Err(count.code);
    }
    if count.value > limits.maxClaims {
      decoder.Poison();
      return Err(TooLarge);
    }
    ghost var body := decoder.Rest();
    var cs: seq<Claim> := [];
    for i := 0 to count.value
      invariant decoder.Valid() && decoder.ok
      invariant DecodeClaims(body, count.value, [], limits, derive)
             == DecodeClaims(decoder.Rest(), count.value - i, cs, limits, derive)
    {
      var c := DecodeClaimFrom(decoder, limits, derive);
      if c.Err? {
        return Err(c.code);
      }
      cs := cs + [c.value];
    }
    r := Ok(cs);
  }

  method DecodeCausalsFrom(decoder: CanonicalDecoder, limits: Limits) returns (r: Result<seq<CausalRef>>)
    requires decoder.Valid() && decoder.ok
    modifies decoder`position, decoder`ok
    ensures decoder.Reads(old(decoder.Rest()), DecodeCountedCausals(old(decoder.Rest()), limits), r)
  {
    hide DecodeCausal, GetU64;
    var count := decoder.U64();
    if count.Err? {
      return Err(count.code);
    }
    if count.value > limits.maxCausal {
      decoder.Poison();
      return Err(TooLarge);
    }
    ghost var body := decoder.Rest();
    var cs: seq<CausalRef> := [];
    for i := 0 to count.value
      invariant decoder.Valid() && decoder.ok
      invariant DecodeCausals(body, count.value, []) == DecodeCausals(decoder.Rest(), count.value - i, cs)
    {
      var c := DecodeCausalFrom(decoder);
      if c.Err? {
        return Err(c.code);
      }
      cs := cs + [c.value];
    }
    r := Ok(cs);
  }

  method DecodeMetasFrom(decoder: CanonicalDecoder, limits: Limits) returns (r: Result<seq<MetaEntry>>)
    requires decoder.Valid() && decoder.ok
    modifies decoder`position, decoder`ok
    ensures decoder.Reads(old(decoder.Rest()), DecodeCountedMetas(old(decoder.Rest()), limits), r)
  {
    hide GetBytes, GetU64, MakeMetadata;
    var count := decoder.U64();
    if count.Err? {
      return Err(count.code);
    }
    if count.value > limits.maxMetadataEntries {
      decoder.Poison();
      return Err(TooLarge);
    }
    ghost var body := decoder.Rest();
    var es: seq<MetaEntry> := [];
    for i := 0 to count.value
      invariant decoder.Valid() && decoder.ok
      invariant DecodeMetas(body, count.value, []) == DecodeMetas(decoder.Rest(), count.value - i, es)
    {
      var key := decoder.GetBlob();
      if key.Err? {
        return Err(key.code);
      }
      var value := decoder.GetBlob();
      if value.Err? {
        return Err(value.code);
      }
      es := es + [MetaEntry(key.value, value.value)];
    }
    r := MakeMetadata(es, limits);
  }

  method DecodeHeaderFrom(decoder: CanonicalDecoder) returns (r: Result<Header>)
    requires decoder.Valid() && decoder.ok
    modifies decoder`position, decoder`ok
    ensures decoder.Reads(old(decoder.Rest()), DecodeHeader(old(decoder.Rest())), r)
  {
    hide GetTag, ExpectU8, GetBytes, GetWords;
    var tag := decoder.Tag(OBSERVATION_TAG);
    if tag.Err? {
      return Err(tag.code);
    }
    var revision := decoder.Expect(1);
    if revision.Err? {
      return Err(revision.code);
    }
    var schema := decoder.GetBlob();
    if schema.Err? {
      return Err(schema.code);
    }
    var words := DecodeWordsFrom(decoder, 10);
    if words.Err? {
      return Err(words.code);
    }
    r := Ok(Header(schema.value, words.value));
  }

  /** Observation::decode, moving the decoder's cursor. */
  method DecodeFrom(decoder: CanonicalDecoder, limits: Limits, derive: Text -> u128) returns (r: Result<Observation>)
    requires decoder.Valid() && decoder.ok
    modifies decoder`position, decoder`ok
    ensures decoder.Reads(old(decoder.Rest()), Decode(old(decoder.Rest()), limits, derive), r)
  {
    hide DecodeHeader, DecodeCountedClaims, DecodeCountedCausals, DecodeCountedMetas, Assemble, Canonicalize, Validate;
    var header := DecodeHeaderFrom(decoder);
    if header.Err? {
      return Err(header.code);
    }
    var claims := DecodeClaimsFrom(decoder, limits, derive);
    if claims.Err? {
      return Err(claims.code);
    }
    var causal := DecodeCausalsFrom(decoder, limits);
    if causal.Err? {
      return Err(causal.code);
    }
    var metadata := DecodeMetasFrom(decoder, limits);
    if metadata.Err? {
      return Err(metadata.code);
    }
    var o := Canonicalize(Assemble(header.value, claims.value, causal.value, metadata.value));
    var valid := Validate(o, limits);
    r := if valid.Err? then Err(valid.code) else Ok(o);
  }
}
