/** The advertisement codec of sharing/advertisement.cc: a byte of bit fields, a salt, a metadata key hash, an
    optional device name and a tail of type-length-value elements.
 */
module Advertisements {
  import opened Wrappers

  type Byte = x: int | 0 <= x < 256

  type Bytes = seq<Byte>

  datatype DeviceType = UnknownDevice | Phone | Tablet | Laptop | Car | Foldable | Xr

  datatype Advertisement = Advertisement(version: int, salt: Bytes, key: Bytes, deviceType: DeviceType,
                                         name: Option<Bytes>, vendor: Byte)

  const SALT_SIZE := 2
  const KEY_SIZE := 14
  const MINIMUM_SIZE := 1 + SALT_SIZE + KEY_SIZE
  const MAX_VERSION := 1
  const TLV_MINIMUM_LENGTH := 2
  const VENDOR_ID_TYPE: Byte := 2
  const VENDOR_ID_LENGTH: Byte := 1

  // ---------------------------------------------------------------- the first byte

  function DeviceCode(t: DeviceType): (code: int)
    ensures 0 <= code < 8
  {
    match t
    case UnknownDevice => 0
    case Phone => 1
    case Tablet => 2
    case Laptop => 3
    case Car => 4
    case Foldable => 5
    case Xr => 6
  }

  // Three bits of version, one that is set when there is no name, three of device type and one unused.
  function FirstByte(a: Advertisement): Byte {
    (a.version % 8) * 32 + (if a.name.Some? then 0 else 1) * 16 + DeviceCode(a.deviceType) * 2
  }

  function ParseVersion(b: Byte): int { b / 32 % 8 }

  predicate ParseHasDeviceName(b: Byte) { b / 16 % 2 == 0 }

  // A value that names no device type reads as unknown.
  function ParseDeviceType(b: Byte): DeviceType {
    var code := b / 2 % 8;
    if code == 1 then Phone else if code == 2 then Tablet else if code == 3 then Laptop
    else if code == 4 then Car else if code == 5 then Foldable else if code == 6 then Xr else UnknownDevice
  }

  // The arithmetic above is what the source's masks, shifts and unions compute on eight bits.
  lemma MasksAndShifts(version: bv8, noName: bv8, code: bv8, b: bv8)
    requires noName < 2 && code < 8
    ensures ((version & 7) << 5) | (noName << 4) | ((code & 7) << 1) == (version % 8) * 32 + noName * 16 + code * 2
    ensures (b >> 5) & 7 == b / 32 % 8
    ensures (b >> 4) & 1 == b / 16 % 2
    ensures (b >> 1) & 7 == b / 2 % 8
  {
  }

  // Each field reads back; the version only modulo eight.
  lemma FirstByteReadsBack(a: Advertisement)
    ensures ParseVersion(FirstByte(a)) == a.version % 8
    ensures ParseHasDeviceName(FirstByte(a)) <==> a.name.Some?
    ensures ParseDeviceType(FirstByte(a)) == a.deviceType
  {
    var v, n, t := a.version % 8, if a.name.Some? then 0 else 1, DeviceCode(a.deviceType);
    assert FirstByte(a) / 16 == v * 2 + n;
    assert FirstByte(a) / 2 == v * 16 + n * 8 + t;
  }

  // ---------------------------------------------------------------- the two directions

  function ConvertVendorId(v: Byte): Byte { if v == 1 then 1 else 0 }

  function NewInstance(salt: Bytes, key: Bytes, deviceType: DeviceType, name: Option<Bytes>,
                       vendor: Byte): Option<Advertisement>
  {
    if |salt| != SALT_SIZE then None
    else if |key| != KEY_SIZE then None
    else if name.Some? && |name.value| > 255 then None
    else Some(Advertisement(0, salt, key, deviceType, name, vendor))
  }

  function PrintName(name: Option<Bytes>): Bytes {
    match name case None => [] case Some(n) => [|n| % 256] + n
  }

  function PrintVendor(vendor: Byte): Bytes {
    if vendor == 0 then [] else [VENDOR_ID_TYPE, VENDOR_ID_LENGTH, vendor]
  }

  function Print(a: Advertisement): Bytes {
    [FirstByte(a)] + a.salt + a.key + PrintName(a.name) + PrintVendor(a.vendor)
  }

  // The rest of the name's bytes, or None when its length is missing, zero or too long.
  function ParseName(b: Bytes): Option<(Bytes, Bytes)> {
    if b == [] || b[0] == 0 || |b| - 1 < b[0] then None
    else Some((b[1..1 + b[0]], b[1 + b[0]..]))
  }

  // The tail: the last vendor element wins and other elements are skipped.
  function ParseTail(b: Bytes, vendor: Byte): Option<Byte>
    decreases |b|
  {
    if |b| < TLV_MINIMUM_LENGTH then Some(vendor)
    else if |b| - 2 < b[1] then None
    else if b[0] == VENDOR_ID_TYPE then
      if b[1] != VENDOR_ID_LENGTH then None else ParseTail(b[3..], ConvertVendorId(b[2]))
    else ParseTail(b[2 + b[1]..], vendor)
  }

  function Parse(b: Bytes): Option<Advertisement> {
    if |b| < MINIMUM_SIZE || ParseVersion(b[0]) > MAX_VERSION then None
    else
      var salt, key, rest := b[1..3], b[3..17], b[17..];
      if ParseHasDeviceName(b[0]) then
        var name := ParseName(rest);
        if name == None then None
        else
          var vendor := ParseTail(name.value.1, 0);
          if vendor == None then None
          else NewInstance(salt, key, ParseDeviceType(b[0]), Some(name.value.0), vendor.value)
      else
        var vendor := ParseTail(rest, 0);
        if vendor == None then None else NewInstance(salt, key, ParseDeviceType(b[0]), None, vendor.value)
  }

  // ---------------------------------------------------------------- the tail's grammar

  datatype Tlv = Tlv(kind: Byte, value: Bytes) {
    predicate Fits() { |value| < 256 && (kind == VENDOR_ID_TYPE ==> |value| == 1) }
  }

  function PrintTlv(t: Tlv): Bytes
    requires t.Fits()
  {
    [t.kind, |t.value|] + t.value
  }

  ghost predicate AllFit(ts: seq<Tlv>) { forall i :: 0 <= i < |ts| ==> ts[i].Fits() }

  ghost function PrintTlvs(ts: seq<Tlv>): Bytes
    requires AllFit(ts)
  {
    if ts == [] then [] else PrintTlv(ts[0]) + PrintTlvs(ts[1..])
  }

  ghost function LastVendor(ts: seq<Tlv>, vendor: Byte): Byte
    requires AllFit(ts)
  {
    if ts == [] then vendor
    else LastVendor(ts[1..], if ts[0].kind == VENDOR_ID_TYPE then ConvertVendorId(ts[0].value[0]) else vendor)
  }

  lemma ParseOneTlv(t: Tlv, rest: Bytes, vendor: Byte)
    requires t.Fits()
    ensures ParseTail(PrintTlv(t) + rest, vendor)
         == ParseTail(rest, if t.kind == VENDOR_ID_TYPE then ConvertVendorId(t.value[0]) else vendor)
  {
    var b := PrintTlv(t) + rest;
    assert b[0] == t.kind && b[1] == |t.value|;
    assert b[2 + |t.value|..] == rest;
    if t.kind == VENDOR_ID_TYPE {
      assert b[2] == t.value[0];
    }
  }

  lemma Associative(a: Bytes, b: Bytes, c: Bytes)
    ensures (a + b) + c == a + (b + c)
  {
  }

  // A tail of well-formed elements, with at most one byte left over, yields its last vendor.
  lemma {:induction false} ParseTlvs(ts: seq<Tlv>, junk: Bytes, vendor: Byte)
    requires AllFit(ts) && |junk| < 2
    ensures ParseTail(PrintTlvs(ts) + junk, vendor) == Some(LastVendor(ts, vendor))
    decreases |ts|
  {
    if ts == [] {
      assert PrintTlvs(ts) + junk == junk;
    } else {
      var next := if ts[0].kind == VENDOR_ID_TYPE then ConvertVendorId(ts[0].value[0]) else vendor;
      ParseTlvs(ts[1..], junk, next);
      ParseOneTlv(ts[0], PrintTlvs(ts[1..]) + junk, vendor);
      Associative(PrintTlv(ts[0]), PrintTlvs(ts[1..]), junk);
    }
  }

  ghost predicate InGrammar(b: Bytes, ts: seq<Tlv>, junk: Bytes) {
    AllFit(ts) && |junk| < 2 && b == PrintTlvs(ts) + junk
  }

  lemma GrammarCons(t: Tlv, rest: Bytes, ts: seq<Tlv>, junk: Bytes)
    requires t.Fits() && InGrammar(rest, ts, junk)
    ensures InGrammar(PrintTlv(t) + rest, [t] + ts, junk)
  {
    assert ([t] + ts)[1..] == ts;
    Associative(PrintTlv(t), PrintTlvs(ts), junk);
  }

  function FirstTlv(b: Bytes): Tlv
    requires |b| >= 2 && |b| - 2 >= b[1]
  {
    Tlv(b[0], b[2..2 + b[1]])
  }

  lemma SplitFirst(b: Bytes)
    requires |b| >= 2 && |b| - 2 >= b[1] && (b[0] == VENDOR_ID_TYPE ==> b[1] == VENDOR_ID_LENGTH)
    ensures FirstTlv(b).Fits() && b == PrintTlv(FirstTlv(b)) + b[2 + b[1]..]
  {
    var t := FirstTlv(b);
    assert PrintTlv(t) == b[..2 + b[1]];
  }

  // Every tail that parses has that form, so the tails accepted are exactly these.
  lemma {:induction false} TailInGrammar(b: Bytes, vendor: Byte)
    requires ParseTail(b, vendor).Some?
    ensures exists ts, junk :: InGrammar(b, ts, junk)
    decreases |b|
  {
    if |b| < TLV_MINIMUM_LENGTH {
      assert PrintTlvs([]) + b == b;
      assert InGrammar(b, [], b);
    } else {
      var rest := b[2 + b[1]..];
      SplitFirst(b);
      TailInGrammar(rest, if b[0] == VENDOR_ID_TYPE then ConvertVendorId(b[2]) else vendor);
      var ts, junk :| InGrammar(rest, ts, junk);
      GrammarCons(FirstTlv(b), rest, ts, junk);
    }
  }

  lemma TailParsesIff(b: Bytes, vendor: Byte)
    ensures ParseTail(b, vendor).Some? <==> exists ts, junk :: InGrammar(b, ts, junk)
  {
    if ts, junk :| InGrammar(b, ts, junk) {
      ParseTlvs(ts, junk, vendor);
    }
    if ParseTail(b, vendor).Some? {
      TailInGrammar(b, vendor);
    }
  }

  // ---------------------------------------------------------------- round trips

  // The advertisements that survive printing.
  predicate Faithful(a: Advertisement) {
    && a.version == 0 && |a.salt| == SALT_SIZE && |a.key| == KEY_SIZE
    && (a.name.Some? ==> 0 < |a.name.value| <= 255)
    && (a.vendor == 0 || a.vendor == 1)
  }

  lemma {:induction false} TailVendorKnown(b: Bytes, vendor: Byte)
    requires vendor == 0 || vendor == 1
    ensures ParseTail(b, vendor).Some? ==> ParseTail(b, vendor).value == 0 || ParseTail(b, vendor).value == 1
    decreases |b|
  {
    if |b| >= TLV_MINIMUM_LENGTH && |b| - 2 >= b[1] {
      if b[0] == VENDOR_ID_TYPE {
        if b[1] == VENDOR_ID_LENGTH { TailVendorKnown(b[3..], ConvertVendorId(b[2])); }
      } else {
        TailVendorKnown(b[2 + b[1]..], vendor);
      }
    }
  }

  // Only such advertisements come out of parsing, from whatever bytes.
  lemma ParsedIsFaithful(b: Bytes)
    ensures Parse(b).Some? ==> Faithful(Parse(b).value)
  {
    if |b| >= MINIMUM_SIZE {
      var rest := b[17..];
      TailVendorKnown(rest, 0);
      var name := ParseName(rest);
      if name.Some? {
        TailVendorKnown(name.value.1, 0);
      }
    }
  }

  lemma PrintedParts(a: Advertisement, tail: Bytes)
    requires |a.salt| == SALT_SIZE && |a.key| == KEY_SIZE
    ensures var b := Print(a) + tail;
            && |b| >= MINIMUM_SIZE && b[0] == FirstByte(a) && b[1..3] == a.salt && b[3..17] == a.key
            && b[17..] == PrintName(a.name) + (PrintVendor(a.vendor) + tail)
  {
    var b := Print(a) + tail;
    var head := [FirstByte(a)] + a.salt + a.key;
    assert b == head + (PrintName(a.name) + (PrintVendor(a.vendor) + tail));
    assert b[1..3] == head[1..3] == a.salt;
    assert b[3..17] == head[3..17] == a.key;
  }

  lemma PrintedName(n: Bytes, tail: Bytes)
    requires 0 < |n| <= 255
    ensures ParseName(PrintName(Some(n)) + tail) == Some((n, tail))
  {
    var b := PrintName(Some(n)) + tail;
    assert b[0] == |n|;
    assert b[1..1 + |n|] == n && b[1 + |n|..] == tail;
  }

  // Main result: a printed advertisement, followed by any well-formed elements and at most one byte more,
  // parses to itself with the last vendor among them.
  lemma {:induction false} PrintedWithTailParses(a: Advertisement, ts: seq<Tlv>, junk: Bytes)
    requires Faithful(a) && AllFit(ts) && |junk| < 2
    ensures Parse(Print(a) + (PrintTlvs(ts) + junk)) == Some(a.(vendor := LastVendor(ts, a.vendor)))
  {
    var tail := PrintTlvs(ts) + junk;
    PrintedParts(a, tail);
    FirstByteReadsBack(a);
    if a.name.Some? {
      PrintedName(a.name.value, PrintVendor(a.vendor) + tail);
    } else {
      assert PrintName(a.name) + (PrintVendor(a.vendor) + tail) == PrintVendor(a.vendor) + tail;
    }
    ParseTlvs(ts, junk, a.vendor);
    if a.vendor == 0 {
      assert PrintVendor(a.vendor) + tail == tail;
    } else {
      assert PrintTlv(Tlv(VENDOR_ID_TYPE, [a.vendor])) == PrintVendor(a.vendor);
      ParseOneTlv(Tlv(VENDOR_ID_TYPE, [a.vendor]), tail, 0);
    }
  }

  // Other elements change nothing.
  lemma {:induction false} OtherTlvsKeepVendor(ts: seq<Tlv>, vendor: Byte)
    requires AllFit(ts) && forall i :: 0 <= i < |ts| ==> ts[i].kind != VENDOR_ID_TYPE
    ensures LastVendor(ts, vendor) == vendor
  {
    if ts != [] {
      OtherTlvsKeepVendor(ts[1..], vendor);
    }
  }

  // Main result: an advertisement round-trips exactly when it is faithful; a version other than 0, an
  // empty or overlong name and an unknown vendor do not.
  lemma RoundTripIff(a: Advertisement)
    ensures Parse(Print(a)) == Some(a) <==> Faithful(a)
  {
    ParsedIsFaithful(Print(a));
    if Faithful(a) {
      PrintedWithTailParses(a, [], []);
      assert Print(a) + (PrintTlvs([]) + []) == Print(a);
    }
  }

  // Parsing, printing and parsing again loses nothing more.
  lemma ParsePrintParse(b: Bytes)
    requires Parse(b).Some?
    ensures Parse(Print(Parse(b).value)) == Parse(b)
  {
    ParsedIsFaithful(b);
    RoundTripIff(Parse(b).value);
  }

  // Version 1 reads as version 0: setting the version bit of an accepted advertisement changes nothing.
  lemma VersionOneReadsAsZero(b: Bytes)
    requires b != [] && ParseVersion(b[0]) == 0
    ensures Parse(b[0 := b[0] + 32]) == Parse(b)
  {
    var b1 := b[0 := b[0] + 32];
    assert (b[0] + 32) / 16 == b[0] / 16 + 2 && (b[0] + 32) / 2 == b[0] / 2 + 16;
    if |b| >= MINIMUM_SIZE {
      assert b1[1..3] == b[1..3] && b1[3..17] == b[3..17] && b1[17..] == b[17..];
    }
  }

  // Exactly which bytes are accepted.
  lemma AcceptedIff(b: Bytes)
    ensures Parse(b).Some? <==>
              && |b| >= MINIMUM_SIZE && ParseVersion(b[0]) <= MAX_VERSION
              && if ParseHasDeviceName(b[0])
                 then ParseName(b[17..]).Some? && exists ts, junk :: InGrammar(ParseName(b[17..]).value.1, ts, junk)
                 else exists ts, junk :: InGrammar(b[17..], ts, junk)
  {
    if |b| >= MINIMUM_SIZE {
      var rest := b[17..];
      TailParsesIff(rest, 0);
      if ParseName(rest).Some? {
        TailParsesIff(ParseName(rest).value.1, 0);
      }
    }
  }

  // ---------------------------------------------------------------- the source's methods

  method ToEndpointInfo(a: Advertisement) returns (endpointInfo: Bytes)
    ensures endpointInfo == Print(a)
  {
    endpointInfo := [];
    endpointInfo := endpointInfo + [FirstByte(a)];
    endpointInfo := endpointInfo + a.salt;
    endpointInfo := endpointInfo + a.key;
    if a.name.Some? {
      endpointInfo := endpointInfo + [|a.name.value| % 256];
      endpointInfo := endpointInfo + a.name.value;
    }
    if a.vendor != 0 {
      endpointInfo := endpointInfo + [VENDOR_ID_TYPE];
      endpointInfo := endpointInfo + [VENDOR_ID_LENGTH];
      endpointInfo := endpointInfo + [a.vendor];
    }
  }

  method FromEndpointInfo(endpointInfo: Bytes) returns (a: Option<Advertisement>)
    ensures a == Parse(endpointInfo)
  {
    if |endpointInfo| < MINIMUM_SIZE {
      return None;
    }
    var iter := 0;
    var firstByte := endpointInfo[iter];
    iter := iter + 1;
    if ParseVersion(firstByte) > MAX_VERSION {
      return None;
    }
    var salt := endpointInfo[iter..iter + SALT_SIZE];
    iter := iter + SALT_SIZE;
    var key := endpointInfo[iter..iter + KEY_SIZE];
    iter := iter + KEY_SIZE;
    var name: Option<Bytes> := None;
    if ParseHasDeviceName(firstByte) {
      name, iter := ReadName(endpointInfo, iter);
      if name == None {
        return None;
      }
    }
    var vendor := ReadTail(endpointInfo, iter);
    if vendor == None {
      return None;
    }
    a := NewInstance(salt, key, ParseDeviceType(firstByte), name, vendor.value);
  }

  // The name and where the bytes after it start.
  method ReadName(endpointInfo: Bytes, start: nat) returns (name: Option<Bytes>, iter: nat)
    requires start <= |endpointInfo|
    ensures name == None <==> ParseName(endpointInfo[start..]) == None
    ensures name.Some? ==> iter <= |endpointInfo|
    ensures name.Some? ==> ParseName(endpointInfo[start..]) == Some((name.value, endpointInfo[iter..]))
  {
    ghost var rest := endpointInfo[start..];
    iter := start;
    var nameLength := 0;
    if iter != |endpointInfo| {
      nameLength := endpointInfo[iter];
      iter := iter + 1;
    }
    if nameLength == 0 || |endpointInfo| - iter < nameLength {
      return None, iter;
    }
    name := Some(endpointInfo[iter..iter + nameLength]);
    iter := iter + nameLength;
    assert rest[1..1 + nameLength] == name.value && rest[1 + nameLength..] == endpointInfo[iter..];
  }

  // The loop over the elements at the end.
  method ReadTail(endpointInfo: Bytes, start: nat) returns (result: Option<Byte>)
    requires start <= |endpointInfo|
    ensures result == ParseTail(endpointInfo[start..], 0)
  {
    var iter := start;
    var vendor: Byte := 0;
    while |endpointInfo| - iter >= TLV_MINIMUM_LENGTH
      invariant start <= iter <= |endpointInfo|
      invariant ParseTail(endpointInfo[iter..], vendor) == ParseTail(endpointInfo[start..], 0)
    {
      ghost var b := endpointInfo[iter..];
      var kind := endpointInfo[iter];
      iter := iter + 1;
      var valueLength := endpointInfo[iter];
      iter := iter + 1;
      if |endpointInfo| - iter < valueLength {
        return None;
      }
      if kind == VENDOR_ID_TYPE {
        if valueLength != VENDOR_ID_LENGTH {
          return None;
        }
        vendor := ConvertVendorId(endpointInfo[iter]);
        iter := iter + 1;
        assert b[3..] == endpointInfo[iter..];
      } else {
        iter := iter + valueLength;
        assert b[2 + b[1]..] == endpointInfo[iter..];
      }
    }
    result := Some(vendor);
  }
}
