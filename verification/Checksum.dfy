/** CRC-32C: the table-driven update of src/digest.cpp against the shift register it stands for. */
module Checksum {

  // ---- words, under names whose laws the proofs use instead of their bits ----

  function Xor(a: bv32, b: bv32): bv32 { a ^ b }

  function Half(v: bv32): bv32 { v >> 1 }

  predicate LowSet(v: bv32) { v & 1 != 0 }

  function Complement(v: bv32): bv32 { !v }

  /** The reflected Castagnoli polynomial. */
  const POLYNOMIAL: bv32 := 0x82F63B78

  // ---- the shift register ----

  /** One step of the register when nothing is fed. */
  function BitStep(v: bv32): bv32 { if LowSet(v) then Xor(Half(v), POLYNOMIAL) else Half(v) }

  function Bits(v: bv32, n: nat): bv32
    decreases n
  {
    if n == 0 then v else Bits(BitStep(v), n - 1)
  }

  /** One message bit into the register: the polynomial is subtracted when the bit shifted out differs from it. */
  function FeedBit(state: bv32, bit: bool): bv32 {
    if LowSet(state) != bit then Xor(Half(state), POLYNOMIAL) else Half(state)
  }

  /** The n low bits of a word, lowest first. */
  function FeedBits(state: bv32, word: bv32, n: nat): bv32
    decreases n
  {
    if n == 0 then state else FeedBits(FeedBit(state, LowSet(word)), Half(word), n - 1)
  }

  /** The register after a message, bit by bit. */
  function Remainder(state: bv32, data: seq<bv8>): bv32
    decreases |data|
  {
    if data == [] then state else Remainder(FeedBits(state, data[0] as bv32, 8), data[1..])
  }

  function Crc(data: seq<bv8>): bv32 { Complement(Remainder(0xFFFFFFFF, data)) }

  // ---- laws of words ----

  lemma XorParts(a: bv32, b: bv32)
    ensures LowSet(Xor(a, b)) <==> LowSet(a) != LowSet(b)
    ensures Half(Xor(a, b)) == Xor(Half(a), Half(b))
  {
    LowBit(a);
    LowBit(b);
    assert (a ^ b) & 1 == (a & 1) ^ (b & 1);
  }

  lemma LowBit(v: bv32)
    ensures v & 1 == 0 || v & 1 == 1
  {
  }

  lemma XorAssociates(a: bv32, b: bv32, c: bv32)
    ensures Xor(Xor(a, b), c) == Xor(a, Xor(b, c))
  {
  }

  lemma XorCommutes(a: bv32, b: bv32)
    ensures Xor(a, b) == Xor(b, a)
  {
  }

  lemma XorUnit(a: bv32)
    ensures Xor(a, a) == 0 && Xor(a, 0) == a && Xor(0, a) == a
  {
  }

  lemma XorLaws(a: bv32, b: bv32, c: bv32)
    ensures Xor(Xor(a, c), Xor(b, c)) == Xor(a, b)
    ensures Xor(Xor(a, c), b) == Xor(Xor(a, b), c)
    ensures Xor(a, Xor(b, c)) == Xor(Xor(a, b), c)
    ensures Xor(a, 0) == a && Xor(0, a) == a && Xor(a, b) == Xor(b, a)
  {
    hide Xor;
    XorCommutes(a, b);
    XorUnit(a);
    XorAssociates(a, b, c);
    XorAssociates(a, c, b);
    XorCommutes(b, c);
    XorAssociates(Xor(a, c), b, c);
    XorAssociates(Xor(a, b), c, c);
    XorUnit(c);
    XorUnit(Xor(a, b));
  }

  lemma XorCancels(s: bv32, a: bv32, b: bv32)
    requires Xor(s, a) == Xor(s, b)
    ensures a == b
  {
  }

  lemma TopBit(a: bv32, b: bv32)
    ensures Xor(Half(a), POLYNOMIAL) != Half(b)
  {
  }

  lemma HalfAndLow(a: bv32, b: bv32)
    requires Half(a) == Half(b) && (LowSet(a) <==> LowSet(b))
    ensures a == b
  {
    LowBit(a);
    LowBit(b);
  }

  // ---- laws of one step ----

  /** The step is linear over exclusive or. */
  lemma BitStepLinear(a: bv32, b: bv32)
    ensures BitStep(Xor(a, b)) == Xor(BitStep(a), BitStep(b))
  {
    hide Xor, Half, LowSet;
    XorParts(a, b);
    XorLaws(Half(a), Half(b), POLYNOMIAL);
  }

  /** And it loses nothing: the polynomial has its top bit set, which tells the two cases apart. */
  lemma BitStepInjective(a: bv32, b: bv32)
    requires BitStep(a) == BitStep(b)
    ensures a == b
  {
    hide Xor, Half, LowSet;
    TopBit(a, b);
    TopBit(b, a);
    XorLaws(Half(a), Half(b), POLYNOMIAL);
    XorLaws(Half(a), POLYNOMIAL, 0);
    XorLaws(Half(b), POLYNOMIAL, 0);
    if LowSet(a) && LowSet(b) {
      XorCancels(POLYNOMIAL, Half(a), Half(b));
    }
    HalfAndLow(a, b);
  }

  lemma FeedIsStep(state: bv32, word: bv32)
    ensures BitStep(Xor(state, word)) == Xor(FeedBit(state, LowSet(word)), Half(word))
  {
    hide Xor, Half, LowSet;
    XorParts(state, word);
    XorLaws(Half(state), Half(word), POLYNOMIAL);
  }

  // ---- and of many ----

  lemma {:induction false} BitsLinear(a: bv32, b: bv32, n: nat)
    ensures Bits(Xor(a, b), n) == Xor(Bits(a, n), Bits(b, n))
    decreases n
  {
    hide BitStep, Xor;
    if n > 0 {
      BitStepLinear(a, b);
      BitsLinear(BitStep(a), BitStep(b), n - 1);
    }
  }

  lemma {:induction false} BitsInjective(a: bv32, b: bv32, n: nat)
    requires Bits(a, n) == Bits(b, n)
    ensures a == b
    decreases n
  {
    hide BitStep;
    if n > 0 {
      BitsInjective(BitStep(a), BitStep(b), n - 1);
      BitStepInjective(a, b);
    }
  }

  lemma {:induction false} BitsAdd(v: bv32, m: nat, n: nat)
    ensures Bits(v, m + n) == Bits(Bits(v, m), n)
    decreases m
  {
    hide BitStep;
    if m > 0 {
      BitsAdd(BitStep(v), m - 1, n);
    }
  }

  function DropBits(word: bv32, n: nat): bv32
    decreases n
  {
    if n == 0 then word else DropBits(Half(word), n - 1)
  }

  /** Feeding bits one at a time equals mixing the whole word in first; what lies above the fed bits
      stays mixed into the result. */
  lemma {:induction false} FeedIsBits(state: bv32, word: bv32, n: nat)
    ensures Bits(Xor(state, word), n) == Xor(FeedBits(state, word, n), DropBits(word, n))
    decreases n
  {
    hide BitStep, FeedBit, Xor, Half, LowSet;
    if n > 0 {
      FeedIsStep(state, word);
      FeedIsBits(FeedBit(state, LowSet(word)), Half(word), n - 1);
    }
  }

  function Half4(word: bv32): bv32 { Half(Half(Half(Half(word)))) }

  lemma DropFour(word: bv32, n: nat)
    ensures DropBits(word, n + 4) == DropBits(Half4(word), n)
  {
    hide Half;
    assert DropBits(word, n + 4) == DropBits(Half(Half(word)), n + 2);
  }

  lemma ShiftEight(word: bv32)
    ensures Half4(Half4(word)) == word >> 8
  {
  }

  /** One message byte is eight steps on the register with the byte mixed in. */
  lemma ByteIsBits(state: bv32, b: bv8)
    ensures FeedBits(state, b as bv32, 8) == Bits(Xor(state, b as bv32), 8)
  {
    hide Xor, Half, LowSet, BitStep, Bits, FeedBits, Half4;
    var word := b as bv32;
    FeedIsBits(state, word, 8);
    DropFour(word, 4);
    DropFour(Half4(word), 0);
    ByteAboveEight(b);
    XorLaws(FeedBits(state, word, 8), 0, 0);
  }

  lemma ByteAboveEight(b: bv8)
    ensures Half4(Half4(b as bv32)) == 0
  {
  }

  lemma FourEven(v: bv32, n: nat)
    requires v & 0xF == 0
    ensures Bits(v, n + 4) == Bits(Half4(v), n)
  {
    LowClear(v);
    FourEvenSteps(v, n);
  }

  lemma LowClear(v: bv32)
    requires v & 0xF == 0
    ensures !LowSet(v) && !LowSet(Half(v)) && !LowSet(Half(Half(v))) && !LowSet(Half(Half(Half(v))))
  {
  }

  lemma FourEvenSteps(v: bv32, n: nat)
    requires !LowSet(v) && !LowSet(Half(v)) && !LowSet(Half(Half(v))) && !LowSet(Half(Half(Half(v))))
    ensures Bits(v, n + 4) == Bits(Half4(v), n)
  {
    hide Xor, Half, LowSet;
    assert Bits(v, n + 4) == Bits(Half(Half(v)), n + 2);
  }

  lemma EightClear(v: bv32)
    requires v & 0xFF == 0
    ensures v & 0xF == 0 && Half4(v) & 0xF == 0
  {
  }

  /** A word with nothing in its low byte only moves down. */
  lemma HighPart(high: bv32)
    requires high & 0xFF == 0
    ensures Bits(high, 8) == high >> 8
  {
    EightClear(high);
    HighSteps(high);
    ShiftEight(high);
  }

  lemma HighSteps(high: bv32)
    requires high & 0xF == 0 && Half4(high) & 0xF == 0
    ensures Bits(high, 8) == Half4(Half4(high))
  {
    hide Half4, BitStep;
    FourEven(high, 4);
    FourEven(Half4(high), 0);
  }

  // ---- the table-driven update ----

  function LowByte(x: bv32): bv8 { (x & 0xFF) as bv8 }

  function HighBytes(x: bv32): bv32 { x & 0xFFFFFF00 }

  /** The word with the value of a table index. */
  function Word(index: nat): bv32
    requires index < 256
  {
    (index as bv8) as bv32
  }

  lemma ByteIndex(b: bv8)
    ensures 0 <= b as int < 256 && (b as int) as bv8 == b
  {
  }

  lemma WordOfByte(b: bv8)
    ensures 0 <= b as int < 256 && Word(b as int) == b as bv32
  {
    ByteIndex(b);
  }

  ghost predicate IsTable(table: seq<bv32>) {
    |table| == 256 && forall index :: 0 <= index < 256 ==> table[index] == Bits(Word(index), 8)
  }

  /** One byte by table lookup. */
  function TableStep(table: seq<bv32>, state: bv32, b: bv8): bv32
    requires |table| == 256
  {
    ByteIndex(LowByte(Xor(state, b as bv32)));
    Xor(table[LowByte(Xor(state, b as bv32)) as int], state >> 8)
  }

  lemma SplitWord(x: bv32)
    ensures x == Xor(LowByte(x) as bv32, HighBytes(x)) && HighBytes(x) & 0xFF == 0 && HighBytes(x) >> 8 == x >> 8
  {
  }

  lemma HighOfMix(state: bv32, b: bv8)
    ensures Xor(state, b as bv32) >> 8 == state >> 8
  {
  }

  lemma TableStepShape(table: seq<bv32>, state: bv32, b: bv8)
    requires IsTable(table)
    ensures TableStep(table, state, b) == Xor(Bits(LowByte(Xor(state, b as bv32)) as bv32, 8), state >> 8)
  {
    hide Xor, LowByte, Bits, Word;
    WordOfByte(LowByte(Xor(state, b as bv32)));
  }

  /** The lookup performs eight steps of the register at once. */
  lemma TableStepIsBits(table: seq<bv32>, state: bv32, b: bv8)
    requires IsTable(table)
    ensures TableStep(table, state, b) == FeedBits(state, b as bv32, 8)
  {
    hide *;
    var x := Xor(state, b as bv32);
    TableStepShape(table, state, b);
    SplitWord(x);
    HighOfMix(state, b);
    ByteIsBits(state, b);
    BitsLinear(LowByte(x) as bv32, HighBytes(x), 8);
    HighPart(HighBytes(x));
  }

  /** The table the program builds on first use: eight steps from each byte. */
  method BuildTable() returns (table: array<bv32>)
    ensures fresh(table) && table.Length == 256 && IsTable(table[..])
  {
    hide Bits, Word;
    table := new bv32[256];
    for index := 0 to 256
      invariant forall k :: 0 <= k < index ==> table[k] == Bits(Word(k), 8)
    {
      var value := EightSteps(Word(index));
      table[index] := value;
    }
  }

  method EightSteps(index: bv32) returns (value: bv32)
    ensures value == Bits(index, 8)
  {
    hide BitStep;
    value := index;
    for bit := 0 to 8
      invariant Bits(value, 8 - bit) == Bits(index, 8)
    {
      StepIs(value);
      value := if value & 1 != 0 then (value >> 1) ^ 0x82F63B78 else value >> 1;
    }
  }

  lemma StepIs(v: bv32)
    ensures BitStep(v) == if v & 1 != 0 then (v >> 1) ^ 0x82F63B78 else v >> 1
  {
  }

  lemma {:induction false} RemainderSplit(state: bv32, a: seq<bv8>, b: seq<bv8>)
    ensures Remainder(state, a + b) == Remainder(Remainder(state, a), b)
    decreases |a|
  {
    hide FeedBits;
    if a == [] {
      assert a + b == b;
    } else {
      assert (a + b)[1..] == a[1..] + b;
      RemainderSplit(FeedBits(state, a[0] as bv32, 8), a[1..], b);
    }
  }

  /** The streaming checksum: after any updates its value is that of everything fed so far. */
  class Crc32c {
    var state: bv32
    const table: array<bv32>
    ghost var fed: seq<bv8>

    ghost predicate Valid()
      reads this, table
    {
      table.Length == 256 && IsTable(table[..]) && state == Remainder(0xFFFFFFFF, fed)
    }

    constructor ()
      ensures Valid() && fresh(table) && fed == []
    {
      hide IsTable, Remainder;
      var built := BuildTable();
      table := built;
      state := 0xFFFFFFFF;
      fed := [];
      new;
      RemainderOfNothing();
    }

    method Update(data: seq<bv8>)
      requires Valid()
      modifies this
      ensures Valid() && fed == old(fed) + data
    {
      hide IsTable, TableStep, FeedBits, Remainder;
      var current := state;
      assert data[..0] == [];
      RemainderStart(current);
      for i := 0 to |data|
        invariant state == old(state) && fed == old(fed) && table[..] == old(table[..])
        invariant current == Remainder(state, data[..i])
      {
        TableStepIsBits(table[..], current, data[i]);
        RemainderSnoc(state, data, i);
        current := TableStep(table[..], current, data[i]);
      }
      assert data[..|data|] == data;
      RemainderSplit(0xFFFFFFFF, fed, data);
      state := current;
      fed := fed + data;
    }

    function Value(): bv32
      requires Valid()
      reads this, table
      ensures Value() == Crc(fed)
    {
      !state
    }
  }

  lemma RemainderOfNothing()
    ensures Remainder(0xFFFFFFFF, []) == 0xFFFFFFFF
  {
  }

  lemma RemainderStart(state: bv32)
    ensures Remainder(state, []) == state
  {
  }

  lemma RemainderSnoc(state: bv32, data: seq<bv8>, i: nat)
    requires i < |data|
    ensures Remainder(state, data[..i + 1]) == FeedBits(Remainder(state, data[..i]), data[i] as bv32, 8)
  {
    hide FeedBits;
    assert data[..i + 1] == data[..i] + [data[i]];
    RemainderSplit(state, data[..i], [data[i]]);
    var after := FeedBits(Remainder(state, data[..i]), data[i] as bv32, 8);
    assert [data[i]][1..] == [];
    assert Remainder(after, []) == after;
  }

  // ---- what the checksum detects ----

  /** Up to four bytes as one little-endian word. */
  function Load(w: seq<bv8>): bv32
    decreases |w|
  {
    if w == [] then 0 else Beside(w[0], Load(w[1..]))
  }

  function Beside(b: bv8, above: bv32): bv32 { (b as bv32) | (above << 8) }

  lemma BesideView(b: bv8, x: bv32)
    requires x < 0x1000000
    ensures (Beside(b, x) & 0xFF) as bv8 == b && Beside(b, x) >> 8 == x
  {
  }

  lemma BesideInjective(a: bv8, x: bv32, b: bv8, y: bv32)
    requires x < 0x1000000 && y < 0x1000000 && Beside(a, x) == Beside(b, y)
    ensures a == b && x == y
  {
    hide Beside;
    BesideView(a, x);
    BesideView(b, y);
  }

  lemma BesideBounds(b: bv8, x: bv32)
    ensures x == 0 ==> Beside(b, x) < 0x100
    ensures x < 0x100 ==> Beside(b, x) < 0x10000
    ensures x < 0x10000 ==> Beside(b, x) < 0x1000000
  {
  }

  lemma LoadBounds(w: seq<bv8>)
    ensures |w| == 0 ==> Load(w) == 0
    ensures |w| <= 1 ==> Load(w) < 0x100
    ensures |w| <= 2 ==> Load(w) < 0x10000
    ensures |w| <= 3 ==> Load(w) < 0x1000000
    decreases |w|
  {
    hide Beside;
    if w != [] {
      LoadBounds(w[1..]);
      BesideBounds(w[0], Load(w[1..]));
    }
  }

  lemma {:induction false} LoadInjective(v: seq<bv8>, w: seq<bv8>)
    requires |v| == |w| <= 4 && Load(v) == Load(w)
    ensures v == w
    decreases |v|
  {
    hide Beside;
    if v != [] {
      LoadBounds(v[1..]);
      LoadBounds(w[1..]);
      BesideInjective(v[0], Load(v[1..]), w[0], Load(w[1..]));
      LoadInjective(v[1..], w[1..]);
      assert v == [v[0]] + v[1..] && w == [w[0]] + w[1..];
    }
  }

  lemma BesideParts(b: bv8, above: bv32)
    requires above < 0x1000000
    ensures Beside(b, above) == Xor(b as bv32, above << 8)
    ensures (above << 8) & 0xFF == 0 && (above << 8) >> 8 == above
  {
  }

  /** A byte now and a word later: the word is still mixed in, one byte further down. */
  lemma ByteThenWord(state: bv32, b: bv8, above: bv32)
    requires above < 0x1000000
    ensures Bits(Xor(state, Beside(b, above)), 8) == Xor(FeedBits(state, b as bv32, 8), above)
  {
    hide Bits, FeedBits, Xor, Beside;
    BesideParts(b, above);
    XorLaws(state, b as bv32, above << 8);
    BitsLinear(Xor(state, b as bv32), above << 8, 8);
    HighPart(above << 8);
    ByteIsBits(state, b);
  }

  /** Up to four bytes are one word mixed into the register. */
  lemma {:induction false} WordIsBits(state: bv32, w: seq<bv8>)
    requires |w| <= 4
    ensures Remainder(state, w) == Bits(Xor(state, Load(w)), 8 * |w|)
    decreases |w|
  {
    hide FeedBits, Beside, Xor, BitStep;
    XorLaws(state, 0, 0);
    if w != [] {
      var above := Load(w[1..]);
      LoadBounds(w[1..]);
      ByteThenWord(state, w[0], above);
      BitsAdd(Xor(state, Beside(w[0], above)), 8, 8 * |w[1..]|);
      WordIsBits(FeedBits(state, w[0] as bv32, 8), w[1..]);
    }
  }

  lemma ByteInjective(s: bv32, t: bv32, b: bv8)
    requires FeedBits(s, b as bv32, 8) == FeedBits(t, b as bv32, 8)
    ensures s == t
  {
    hide FeedBits, Bits, Xor;
    ByteIsBits(s, b);
    ByteIsBits(t, b);
    BitsInjective(Xor(s, b as bv32), Xor(t, b as bv32), 8);
    XorLaws(s, b as bv32, 0);
    XorLaws(t, b as bv32, 0);
    XorCancels(b as bv32, s, t);
  }

  /** Once two registers differ, no common continuation makes them agree. */
  lemma {:induction false} DifferenceStays(s: bv32, t: bv32, data: seq<bv8>)
    requires Remainder(s, data) == Remainder(t, data)
    ensures s == t
    decreases |data|
  {
    hide FeedBits;
    if data != [] {
      DifferenceStays(FeedBits(s, data[0] as bv32, 8), FeedBits(t, data[0] as bv32, 8), data[1..]);
      ByteInjective(s, t, data[0]);
    }
  }

  lemma ComplementInjective(a: bv32, b: bv32)
    requires Complement(a) == Complement(b)
    ensures a == b
  {
  }

  lemma SameWindow(s: bv32, v: seq<bv8>, w: seq<bv8>)
    requires |v| == |w| <= 4 && Remainder(s, v) == Remainder(s, w)
    ensures v == w
  {
    hide *;
    WordIsBits(s, v);
    WordIsBits(s, w);
    BitsInjective(Xor(s, Load(v)), Xor(s, Load(w)), 8 * |v|);
    XorCancels(s, Load(v), Load(w));
    LoadInjective(v, w);
  }

  lemma SameCrc(x: seq<bv8>, y: seq<bv8>)
    requires Crc(x) == Crc(y)
    ensures Remainder(0xFFFFFFFF, x) == Remainder(0xFFFFFFFF, y)
  {
    hide Remainder, Complement;
    ComplementInjective(Remainder(0xFFFFFFFF, x), Remainder(0xFFFFFFFF, y));
  }

  /** Damage confined to four neighbouring bytes always changes the checksum. */
  lemma NearbyDamageIsDetected(before: seq<bv8>, v: seq<bv8>, w: seq<bv8>, after: seq<bv8>)
    requires |v| == |w| <= 4
    ensures Crc(before + v + after) == Crc(before + w + after) <==> v == w
  {
    hide Remainder, Crc;
    if Crc(before + v + after) == Crc(before + w + after) {
      var s := Remainder(0xFFFFFFFF, before);
      SameCrc(before + v + after, before + w + after);
      RemainderSplit(0xFFFFFFFF, before + v, after);
      RemainderSplit(0xFFFFFFFF, before + w, after);
      RemainderSplit(0xFFFFFFFF, before, v);
      RemainderSplit(0xFFFFFFFF, before, w);
      DifferenceStays(Remainder(s, v), Remainder(s, w), after);
      SameWindow(s, v, w);
    }
  }
}
