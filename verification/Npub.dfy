/** Which strings are npubs, and of which keys. */
module Npub {
  // Decoding `npub` strings (the "Bare keys and ids" section of NIP-19 over the
  // "Bech32" section of BIP-173): which strings are accepted, and what they
  // mean.

  import opened BoundedFifo
  import opened Bech32
  import opened BitRegrouping
  import opened Arithmetic
  import opened Text

  const CHARSET: string := "qpzry9x8gf2tvdw0s3jn54khce6mua7l"

  /** The human-readable part "npub", expanded for the checksum: the high bits of
      each character, a zero, then the low bits. */
  const EXPANDED_HRP: seq<Symbol> := [3, 3, 3, 3, 0, 14, 16, 21, 2]

  lemma HrpExpands(i: int)
    requires 0 <= i < 4
    ensures |EXPANDED_HRP| == 9 && EXPANDED_HRP[4] == 0
    ensures EXPANDED_HRP[i] == ("npub"[i] as int / 32) as Symbol
    ensures EXPANDED_HRP[5 + i] == ("npub"[i] as int % 32) as Symbol
  {
    if i == 0 { assert "npub"[0] as int == 110; }
    if i == 1 { assert "npub"[1] as int == 112; }
    if i == 2 { assert "npub"[2] as int == 117; }
    if i == 3 { assert "npub"[3] as int == 98; }
  }

  // -------------------------------------------------------------- the alphabet

  /** Whether `text` is written with `values` as positions in the alphabet. */
  ghost predicate Spells(text: string, values: seq<int>) {
    && |text| == |values|
    && forall i :: 0 <= i < |values| ==> 0 <= values[i] < 32 && CHARSET[values[i]] == text[i]
  }

  /** The value of a character of the alphabet. */
  function Position(c: char): int {
    match c
    case 'q' => 0 case 'p' => 1 case 'z' => 2 case 'r' => 3 case 'y' => 4 case '9' => 5 case 'x' => 6 case '8' => 7
    case 'g' => 8 case 'f' => 9 case '2' => 10 case 't' => 11 case 'v' => 12 case 'd' => 13 case 'w' => 14 case '0' => 15
    case 's' => 16 case '3' => 17 case 'j' => 18 case 'n' => 19 case '5' => 20 case '4' => 21 case 'k' => 22 case 'h' => 23
    case 'c' => 24 case 'e' => 25 case '6' => 26 case 'm' => 27 case 'u' => 28 case 'a' => 29 case '7' => 30 case 'l' => 31
    case _ => -1
  }

  lemma PositionOfCharacter(i: int)
    requires 0 <= i < 32
    ensures Position(CHARSET[i]) == i
  {
  }

  /** No character stands for two values. */
  lemma AlphabetIsInjective(i: int, j: int)
    requires 0 <= i < 32 && 0 <= j < 32 && CHARSET[i] == CHARSET[j]
    ensures i == j
  {
    PositionOfCharacter(i);
    PositionOfCharacter(j);
  }

  lemma SpellingIsUnique(text: string, u: seq<int>, v: seq<int>)
    requires Spells(text, u) && Spells(text, v)
    ensures u == v
  {
    forall i | 0 <= i < |u| ensures u[i] == v[i] {
      AlphabetIsInjective(u[i], v[i]);
    }
  }

  method LookUp(c: char) returns (index: int)
    ensures index == -1 ==> forall i :: 0 <= i < 32 ==> CHARSET[i] != c
    ensures index != -1 ==> 0 <= index < 32 && CHARSET[index] == c
  {
    assert |CHARSET| == 32;
    for i := 0 to 32
      invariant forall k :: 0 <= k < i ==> CHARSET[k] != c
    {
      if CHARSET[i] == c { return i; }
    }
    return -1;
  }

  /** Translates characters to values; fails on the first that has none. */
  method ReadData(text: string) returns (data: Option<seq<int>>)
    ensures data.Some? ==> Spells(text, data.value)
    ensures data.None? ==> forall values: seq<int> :: !Spells(text, values)
  {
    var values: seq<int> := [];
    for i := 0 to |text|
      invariant Spells(text[..i], values)
    {
      var index := LookUp(text[i]);
      if index == -1 { return None; }
      values := values + [index];
    }
    assert text[..|text|] == text;
    return Some(values);
  }

  /** The values as checksum symbols. */
  function Symbols(values: seq<int>): (r: seq<Symbol>)
    requires forall i :: 0 <= i < |values| ==> 0 <= values[i] < 32
  {
    seq(|values|, i requires 0 <= i < |values| => values[i] as Symbol)
  }

  lemma SymbolIsInjective(i: int, j: int)
    requires 0 <= i < 32 && 0 <= j < 32 && i as Symbol == j as Symbol
    ensures i == j
  {
    SymbolRoundTrip(i);
    SymbolRoundTrip(j);
  }

  lemma SymbolRoundTrip(i: int)
    requires 0 <= i < 32
    ensures (i as Symbol) as int == i
  {
  }

  lemma SymbolsAreInjective(u: seq<int>, v: seq<int>)
    requires forall i :: 0 <= i < |u| ==> 0 <= u[i] < 32
    requires forall i :: 0 <= i < |v| ==> 0 <= v[i] < 32
    requires Symbols(u) == Symbols(v)
    ensures u == v
  {
    assert |Symbols(u)| == |Symbols(v)|;
    forall i | 0 <= i < |u| ensures u[i] == v[i] {
      assert Symbols(u)[i] == Symbols(v)[i];
      SymbolIsInjective(u[i], v[i]);
    }
  }

  // -------------------------------------------------------- accepted strings

  predicate OneCase(value: string) {
    Lower(value) == value || Upper(value) == value
  }

  /** `value`, in one case, is "npub1" followed by `data`, whose last six symbols
      are its checksum. */
  ghost predicate Carries(value: string, data: seq<int>) {
    && 0 < |value| <= 90 && OneCase(value) && |data| >= 6
    && 5 <= |value| && Lower(value)[..5] == "npub1" && Spells(Lower(value)[5..], data)
    && Bech32.Accepted(EXPANDED_HRP + Symbols(data))
  }

  ghost predicate CarriesBytes(value: string, data: seq<int>, bytes: seq<int>) {
    Carries(value, data) && |bytes| == 32 && Regroups(data[..|data| - 6], 5, bytes, 8)
  }

  /** `value` is an npub for the key `bytes`. */
  ghost predicate IsNpub(value: string, bytes: seq<int>) {
    exists data :: CarriesBytes(value, data, bytes)
  }

  function HexDigit(d: nat): char
    requires d < 16
  {
    "0123456789abcdef"[d]
  }

  function Hex(bytes: seq<int>): string {
    seq(2 * |bytes|, i requires 0 <= i < 2 * |bytes| => HexDigit(if i % 2 == 0 then (bytes[i / 2] / 16) % 16 else bytes[i / 2] % 16))
  }

  lemma NoSeparatorInData(text: string, data: seq<int>)
    requires Spells(text, data)
    ensures forall i :: 0 <= i < |text| ==> text[i] != '1'
  {
    forall i | 0 <= i < |text| ensures text[i] != '1' {
      PositionOfCharacter(data[i]);
      assert Position('1') == -1;
    }
  }

  lemma SeparatorIsTheFifth(text: string, data: seq<int>)
    requires |text| >= 5 && text[..5] == "npub1" && Spells(text[5..], data)
    ensures FindLast(text, '1') == 4 && text[..4] == "npub"
  {
    var rest := text[5..];
    NoSeparatorInData(rest, data);
    assert forall i :: 5 <= i < |text| ==> text[i] == rest[i - 5];
    assert text[4] == text[..5][4] == '1';
    assert text[..4] == text[..5][..4];
  }

  /** At most one list of symbols spells a string. */
  lemma CarriedDataIsUnique(value: string, u: seq<int>, v: seq<int>)
    requires Carries(value, u) && |value| >= 5 && Spells(Lower(value)[5..], v)
    ensures u == v
  {
    SpellingIsUnique(Lower(value)[5..], u, v);
  }

  /** What the shape tests look for. */
  ghost predicate Shaped(value: string) {
    var text := Lower(value);
    && 0 < |value| <= 90 && OneCase(value) && |value| >= 11
    && FindLast(text, '1') == 4 && text[..4] == "npub"
  }

  lemma NpubsAreShaped(value: string, bytes: seq<int>)
    requires IsNpub(value, bytes)
    ensures Shaped(value)
  {
    var data :| CarriesBytes(value, data, bytes);
    SeparatorIsTheFifth(Lower(value), data);
  }

  lemma ShapeGivesPrefix(value: string)
    requires Shaped(value)
    ensures Lower(value)[..5] == "npub1"
  {
    assert Lower(value)[..5] == Lower(value)[..4] + [Lower(value)[4]];
  }

  /** With the data known, the remaining tests decide. */
  lemma DataDecides(value: string, data: seq<int>, bytes: seq<int>)
    requires Shaped(value) && Spells(Lower(value)[5..], data) && |data| >= 6
    ensures IsNpub(value, bytes) <==>
            Bech32.Accepted(EXPANDED_HRP + Symbols(data)) && |bytes| == 32 && Regroups(data[..|data| - 6], 5, bytes, 8)
  {
    ShapeGivesPrefix(value);
    if IsNpub(value, bytes) {
      var other :| CarriesBytes(value, other, bytes);
      CarriedDataIsUnique(value, other, data);
    }
    if Bech32.Accepted(EXPANDED_HRP + Symbols(data)) && |bytes| == 32 && Regroups(data[..|data| - 6], 5, bytes, 8) {
      assert CarriesBytes(value, data, bytes);
    }
  }

  /** The decoder: it accepts exactly the npubs, and returns the key in hex. */
  method NpubToHex(value: string) returns (hex: Option<string>)
    ensures hex.Some? ==> exists bytes :: IsNpub(value, bytes) && hex.value == Hex(bytes)
    ensures hex.None? ==> forall bytes: seq<int> :: !IsNpub(value, bytes)
  {
    forall bytes: seq<int> | IsNpub(value, bytes) ensures Shaped(value) { NpubsAreShaped(value, bytes); }
    if value == [] || |value| > 90 || (Lower(value) != value && Upper(value) != value) {
      return None;
    }
    var normalized := Lower(value);
    var separator := FindLast(normalized, '1');
    if separator <= 0 || normalized[..separator] != "npub" || separator + 7 > |normalized| {
      return None;
    }
    var read := ReadData(normalized[separator + 1..]);
    if read.None? { return None; }
    var data := read.value;
    forall bytes: seq<int> { DataDecides(value, data, bytes); }
    var checksum := Bech32Polymod(EXPANDED_HRP + Symbols(data));
    if checksum != 1 { return None; }
    hex := FinishDecoding(data[..|data| - 6]);
  }

  /** The last part of the decoder: regroup, and insist on 32 bytes. */
  method FinishDecoding(payload: seq<int>) returns (hex: Option<string>)
    ensures hex.Some? ==> exists bytes: seq<int> :: |bytes| == 32 && Regroups(payload, 5, bytes, 8) && hex.value == Hex(bytes)
    ensures hex.None? ==> forall bytes: seq<int> :: !(|bytes| == 32 && Regroups(payload, 5, bytes, 8))
  {
    var decoded := ConvertBits(payload, 5, 8);
    if decoded.None? { return None; }
    forall bytes: seq<int> | Regroups(payload, 5, bytes, 8) ensures bytes == decoded.value {
      RegroupedBytesAreUnique(payload, 5, bytes, decoded.value, 8);
    }
    if |decoded.value| != 32 { return None; }
    return Some(Hex(decoded.value));
  }

  // --------------------------------------------------------------- main results

  /** At most one key per string. */
  lemma NpubNamesOneKey(value: string, b1: seq<int>, b2: seq<int>)
    requires IsNpub(value, b1) && IsNpub(value, b2)
    ensures b1 == b2
  {
    var u :| CarriesBytes(value, u, b1);
    var v :| CarriesBytes(value, v, b2);
    CarriedDataIsUnique(value, u, v);
    RegroupedBytesAreUnique(u[..|u| - 6], 5, b1, b2, 8);
  }

  predicate FiveBits(values: seq<int>) {
    forall i :: 0 <= i < |values| ==> 0 <= values[i] < 32
  }

  lemma FiveBitsIffFits(v: nat)
    ensures FitsBits(v, 5) <==> v < 32
  {
    assert FitsBits(v, 5) == FitsBits(v / 2, 4) == FitsBits(v / 2 / 2, 3) == FitsBits(v / 2 / 2 / 2, 2)
           == FitsBits(v / 2 / 2 / 2 / 2, 1) == FitsBits(v / 2 / 2 / 2 / 2 / 2, 0);
  }

  /** The symbols of a key, zero-padded. */
  function Payload(bytes: seq<int>): (r: seq<int>)
    requires NonNegative(bytes)
  {
    Grouped(AllBits(bytes, 8), 5)
  }

  lemma PayloadFits(bytes: seq<int>)
    requires AllFit(bytes, 8)
    ensures FiveBits(Payload(bytes)) && Regroups(Payload(bytes), 5, bytes, 8)
    ensures |bytes| == 32 ==> |Payload(bytes)| == 52
  {
    RegroupingInvertsGrouping(bytes, 5, 8);
    var pad :| RegroupsWith(Payload(bytes), 5, bytes, 8, pad);
    forall i | 0 <= i < |Payload(bytes)| ensures 0 <= Payload(bytes)[i] < 32 {
      FiveBitsIffFits(Payload(bytes)[i]);
    }
    AllBitsLength(bytes, 8);
    AllBitsLength(Payload(bytes), 5);
    TimesIsProduct(|bytes|, 8);
    TimesIsProduct(|Payload(bytes)|, 5);
  }

  /** The checksum of a payload, as values. */
  ghost function Checksum(payload: seq<int>): (r: seq<int>)
    requires FiveBits(payload)
  {
    Values(Steering(Fold(1, EXPANDED_HRP + Symbols(payload)), 1))
  }

  lemma SymbolsAppend(u: seq<int>, v: seq<int>)
    requires FiveBits(u) && FiveBits(v)
    ensures FiveBits(u + v) && Symbols(u + v) == Symbols(u) + Symbols(v)
  {
  }

  function Values(symbols: seq<Symbol>): (r: seq<int>)
    ensures |r| == |symbols| && FiveBits(r)
  {
    seq(|symbols|, i requires 0 <= i < |symbols| => symbols[i] as int)
  }

  lemma SymbolsOfValues(symbols: seq<Symbol>)
    ensures Symbols(Values(symbols)) == symbols
  {
    forall i | 0 <= i < |symbols| ensures Symbols(Values(symbols))[i] == symbols[i] { ValueRoundTrip(symbols[i]); }
  }

  lemma ValueRoundTrip(v: Symbol)
    ensures (v as int) as Symbol == v
  {
  }

  lemma ChecksumSymbols(payload: seq<int>)
    requires FiveBits(payload)
    ensures |Checksum(payload)| == 6 && FiveBits(Checksum(payload))
    ensures Symbols(Checksum(payload)) == Steering(Fold(1, EXPANDED_HRP + Symbols(payload)), 1)
  {
    var symbols := Steering(Fold(1, EXPANDED_HRP + Symbols(payload)), 1);
    SteeringWorks(Fold(1, EXPANDED_HRP + Symbols(payload)), 1);
    SymbolsOfValues(symbols);
  }

  /** The last six values of accepted data are the checksum of the others. */
  lemma AcceptedIffChecksum(payload: seq<int>, last: seq<int>)
    requires FiveBits(payload) && FiveBits(last) && |last| == 6
    ensures FiveBits(payload + last)
    ensures Bech32.Accepted(EXPANDED_HRP + Symbols(payload + last)) <==> last == Checksum(payload)
  {
    SymbolsAppend(payload, last);
    Associates(EXPANDED_HRP, Symbols(payload), Symbols(last));
    ChecksumExistsAndIsUnique(EXPANDED_HRP + Symbols(payload), Symbols(last));
    ChecksumSymbols(payload);
    if Symbols(last) == Symbols(Checksum(payload)) {
      SymbolsAreInjective(last, Checksum(payload));
    }
  }

  function Spelled(values: seq<int>): (text: string)
    requires FiveBits(values)
    ensures Spells(text, values)
  {
    seq(|values|, i requires 0 <= i < |values| => CHARSET[values[i]])
  }

  /** The npub of a key. */
  ghost function Encode(bytes: seq<int>): string
    requires AllFit(bytes, 8)
  {
    PayloadFits(bytes);
    ChecksumSymbols(Payload(bytes));
    "npub1" + Spelled(Payload(bytes) + Checksum(Payload(bytes)))
  }

  /** Carried bytes force the whole data part. */
  lemma BytesForceData(value: string, data: seq<int>, bytes: seq<int>)
    requires CarriesBytes(value, data, bytes)
    ensures AllFit(bytes, 8) && FiveBits(Payload(bytes)) && data == Payload(bytes) + Checksum(Payload(bytes))
  {
    var payload, last := data[..|data| - 6], data[|data| - 6..];
    assert data == payload + last;
    var pad :| RegroupsWith(payload, 5, bytes, 8, pad);
    PayloadFits(bytes);
    RegroupedValuesAreUnique(payload, Payload(bytes), 5, bytes, 8);
    AcceptedIffChecksum(payload, last);
  }

  /** The accepted strings are exactly the canonical encodings of 32-byte keys, in
      one case throughout. */
  lemma AcceptsExactlyEncodings(value: string, bytes: seq<int>)
    ensures IsNpub(value, bytes) <==>
            AllFit(bytes, 8) && |bytes| == 32 && OneCase(value) && Lower(value) == Encode(bytes)
  {
    if IsNpub(value, bytes) {
      var data :| CarriesBytes(value, data, bytes);
      BytesForceData(value, data, bytes);
      var rest := Lower(value)[5..];
      assert rest == Spelled(data);
      assert Lower(value) == Lower(value)[..5] + rest;
    }
    if AllFit(bytes, 8) && |bytes| == 32 && OneCase(value) && Lower(value) == Encode(bytes) {
      EncodingIsAccepted(value, bytes);
    }
  }

  lemma EncodingIsAccepted(value: string, bytes: seq<int>)
    requires AllFit(bytes, 8) && |bytes| == 32 && OneCase(value) && Lower(value) == Encode(bytes)
    ensures IsNpub(value, bytes)
  {
    PayloadFits(bytes);
    var payload := Payload(bytes);
    ChecksumSymbols(payload);
    var data := payload + Checksum(payload);
    AcceptedIffChecksum(payload, Checksum(payload));
    assert Lower(value)[..5] == "npub1" && Lower(value)[5..] == Spelled(data);
    assert data[..|data| - 6] == payload;
    assert CarriesBytes(value, data, bytes);
  }

  /** Two accepted strings with the same key differ at most in case. */
  lemma NpubIsInjective(v: string, w: string, bytes: seq<int>)
    requires IsNpub(v, bytes) && IsNpub(w, bytes)
    ensures Lower(v) == Lower(w)
  {
    AcceptsExactlyEncodings(v, bytes);
    AcceptsExactlyEncodings(w, bytes);
  }

  lemma AlphabetIsLowerCase(i: int)
    requires 0 <= i < 32
    ensures LowerChar(CHARSET[i]) == CHARSET[i]
  {
  }

  lemma AlphabetHasNoSpace(i: int)
    requires 0 <= i < 32
    ensures !IsSpace(CHARSET[i])
  {
  }

  lemma PrefixedSpellingIsTrim(data: seq<int>)
    requires FiveBits(data) && data != []
    ensures Trim("npub1" + Spelled(data)) && StartsWith("npub1" + Spelled(data), "npub1")
  {
    var text := "npub1" + Spelled(data);
    AlphabetHasNoSpace(data[|data| - 1]);
    assert text[0] == 'n' && text[|text| - 1] == CHARSET[data[|data| - 1]];
    assert text[..5] == "npub1";
  }

  lemma EncodingIsTrim(bytes: seq<int>)
    requires AllFit(bytes, 8)
    ensures Trim(Encode(bytes)) && StartsWith(Encode(bytes), "npub1")
  {
    PayloadFits(bytes);
    ChecksumSymbols(Payload(bytes));
    PrefixedSpellingIsTrim(Payload(bytes) + Checksum(Payload(bytes)));
  }

  /** Every 32-byte key has an accepted npub, which decodes to it. */
  lemma EveryKeyHasAnNpub(bytes: seq<int>)
    requires AllFit(bytes, 8) && |bytes| == 32
    ensures IsNpub(Encode(bytes), bytes)
  {
    PayloadFits(bytes);
    ChecksumSymbols(Payload(bytes));
    var data := Payload(bytes) + Checksum(Payload(bytes));
    var text := Encode(bytes);
    forall i | 0 <= i < |text| ensures LowerChar(text[i]) == text[i] {
      if i < 5 {
        assert text[i] == "npub1"[i];
      } else {
        AlphabetIsLowerCase(data[i - 5]);
        assert text[i] == CHARSET[data[i - 5]];
      }
    }
    assert Lower(text) == text;
    EncodingIsAccepted(text, bytes);
  }

  /** The strings agree outside six consecutive positions. */
  ghost predicate DifferInABurst(v: string, w: string, from: nat) {
    |v| == |w| && forall i :: 0 <= i < |v| && !(from <= i < from + 6) ==> v[i] == w[i]
  }

  lemma BurstInData(v: string, w: string, from: nat, a: seq<int>, b: seq<int>)
    requires Lower(v) == v && Lower(w) == w && DifferInABurst(v, w, from) && Carries(v, a) && Carries(w, b)
    ensures |a| == |b| && forall i :: 0 <= i < |a| && !(from <= i + 5 < from + 6) ==> a[i] == b[i]
  {
    forall i | 0 <= i < |a| && !(from <= i + 5 < from + 6) ensures a[i] == b[i] {
      assert v[5..][i] == CHARSET[a[i]] && w[5..][i] == CHARSET[b[i]];
      AlphabetIsInjective(a[i], b[i]);
    }
  }

  lemma BurstInSymbols(a: seq<int>, b: seq<int>, from: nat) returns (start: nat)
    requires FiveBits(a) && FiveBits(b) && |a| == |b|
    requires forall i :: 0 <= i < |a| && !(from <= i + 5 < from + 6) ==> a[i] == b[i]
    ensures DifferOnlyWithin(EXPANDED_HRP + Symbols(a), EXPANDED_HRP + Symbols(b), start, 6)
  {
    var u, v := EXPANDED_HRP + Symbols(a), EXPANDED_HRP + Symbols(b);
    start := if from + 4 <= |u| then from + 4 else |u|;
    forall i | 0 <= i < |u| && !(start <= i < start + 6) ensures u[i] == v[i] {
      if i >= 9 { assert u[i] == a[i - 9] as Symbol && v[i] == b[i - 9] as Symbol; }
    }
  }

  /** Misreading up to six neighbouring characters of an npub never yields another
      accepted string. */
  lemma MisreadNpubIsRejected(v: string, w: string, from: nat, b1: seq<int>, b2: seq<int>)
    requires Lower(v) == v && Lower(w) == w && DifferInABurst(v, w, from) && IsNpub(v, b1) && v != w
    ensures !IsNpub(w, b2)
  {
    if IsNpub(w, b2) {
      var x :| CarriesBytes(v, x, b1);
      var y :| CarriesBytes(w, y, b2);
      BurstInData(v, w, from, x, y);
      var start := BurstInSymbols(x, y, from);
      if EXPANDED_HRP + Symbols(x) != EXPANDED_HRP + Symbols(y) {
        BurstIsDetected(EXPANDED_HRP + Symbols(x), EXPANDED_HRP + Symbols(y), start);
      } else {
        SameSymbolsSameText(v, w, x, y);
      }
    }
  }

  lemma SameSymbolsSameText(v: string, w: string, x: seq<int>, y: seq<int>)
    requires Lower(v) == v && Lower(w) == w && Carries(v, x) && Carries(w, y)
    requires EXPANDED_HRP + Symbols(x) == EXPANDED_HRP + Symbols(y)
    ensures v == w
  {
    assert (EXPANDED_HRP + Symbols(x))[9..] == Symbols(x) && (EXPANDED_HRP + Symbols(y))[9..] == Symbols(y);
    SymbolsAreInjective(x, y);
    assert v[5..] == w[5..];
    assert v == v[..5] + v[5..] && w == w[..5] + w[5..];
  }

  lemma HexDigitIsInjective(d: nat, e: nat)
    requires d < 16 && e < 16 && HexDigit(d) == HexDigit(e)
    ensures d == e
  {
  }

  /** The hex form determines the bytes. */
  lemma HexIsInjective(a: seq<int>, b: seq<int>)
    requires forall i :: 0 <= i < |a| ==> 0 <= a[i] < 256
    requires forall i :: 0 <= i < |b| ==> 0 <= b[i] < 256
    requires Hex(a) == Hex(b)
    ensures a == b
  {
    assert |Hex(a)| == 2 * |a| && |Hex(b)| == 2 * |b|;
    forall i | 0 <= i < |a| ensures a[i] == b[i] {
      assert Hex(a)[2 * i] == Hex(b)[2 * i] && Hex(a)[2 * i + 1] == Hex(b)[2 * i + 1];
      HexByteIsInjective(a[i], b[i]);
    }
  }

  lemma HexByteIsInjective(x: int, y: int)
    requires 0 <= x < 256 && 0 <= y < 256
    requires HexDigit((x / 16) % 16) == HexDigit((y / 16) % 16) && HexDigit(x % 16) == HexDigit(y % 16)
    ensures x == y
  {
    HexDigitIsInjective((x / 16) % 16, (y / 16) % 16);
    HexDigitIsInjective(x % 16, y % 16);
  }
}
