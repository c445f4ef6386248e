/** Hexadecimal text (src/util.cpp). */
module Hex {
  import opened Bytes
  import Values

  /** A hexadecimal digit of either case. */
  function HexValue(c: byte): (r: Option<nat>)
    ensures r.Some? ==> r.value < 16
  {
    if 48 <= c <= 57 then Some(c - 48)
    else if 97 <= c <= 102 then Some(c - 87)
    else if 65 <= c <= 70 then Some(c - 55)
    else None
  }

  predicate AllHex(t: Text) { forall i :: 0 <= i < |t| ==> HexValue(t[i]).Some? }

  function HexPair(high: byte, low: byte): byte
    requires HexValue(high).Some? && HexValue(low).Some?
  {
    HexValue(high).value * 16 + HexValue(low).value
  }

  function HexBytes(t: Text): (r: Text)
    requires |t| % 2 == 0 && AllHex(t)
    ensures |r| == |t| / 2
  {
    seq(|t| / 2, i requires 0 <= i < |t| / 2 => HexPair(t[2 * i], t[2 * i + 1]))
  }

  function HexDecode(t: Text): Result<Text> { if |t| % 2 != 0 || !AllHex(t) then Err(MalformedInput) else Ok(HexBytes(t)) }

  lemma HexDigitValue(d: nat)
    requires d < 16
    ensures HexValue(Values.HEX_DIGITS[d]) == Some(d) && HexValue(48) == Some(0)
  {
    Values.HexDigit(d);
  }

  lemma {:induction false} HexTextAt(b: Text, i: nat)
    requires i < |b|
    ensures Values.HexText(b)[2 * i] == Values.HEX_DIGITS[b[i] / 16]
    ensures Values.HexText(b)[2 * i + 1] == Values.HEX_DIGITS[b[i] % 16]
  {
    if i > 0 {
      HexTextAt(b[1..], i - 1);
    }
  }

  lemma HexDecodeEncode(b: Text)
    ensures HexDecode(Values.HexText(b)) == Ok(b)
  {
    hide HexValue, Values.HexText;
    var t := Values.HexText(b);
    forall i | 0 <= i < |b| ensures HexValue(t[2 * i]) == Some(b[i] / 16) && HexValue(t[2 * i + 1]) == Some(b[i] % 16) {
      HexTextAt(b, i);
      HexDigitValue(b[i] / 16);
      HexDigitValue(b[i] % 16);
    }
    forall k | 0 <= k < |t| ensures HexValue(t[k]).Some? {
      assert HexValue(t[2 * (k / 2)]).Some? && HexValue(t[2 * (k / 2) + 1]).Some?;
    }
    HexPairsBack(t, b);
  }

  lemma HexPairsBack(t: Text, b: Text)
    requires |t| == 2 * |b| && AllHex(t)
    requires forall i :: 0 <= i < |b| ==> HexValue(t[2 * i]) == Some(b[i] / 16) && HexValue(t[2 * i + 1]) == Some(b[i] % 16)
    ensures HexBytes(t) == b
  {
    hide HexValue;
  }

  method DecodeHex(t: Text) returns (r: Result<Text>)
    ensures r == HexDecode(t)
  {
    if |t| % 2 != 0 {
      return Err(MalformedInput);
    }
    var data: Text := [];
    var index := 0;
    while index < |t|
      invariant index <= |t| && index % 2 == 0 && AllHex(t[..index])
      invariant data == HexBytes(t[..index])
    {
      hide HexValue;
      var high, low := HexValue(t[index]), HexValue(t[index + 1]);
      if high.None? || low.None? {
        return Err(MalformedInput);
      }
      data := data + [high.value * 16 + low.value];
      assert t[..index + 2] == t[..index] + [t[index], t[index + 1]];
      index := index + 2;
    }
    assert t[..|t|] == t;
    r := Ok(data);
  }
}
