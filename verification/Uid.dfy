// Operation UIDs: `op1.<base64url function>.<pass id>.<b|a>.<ordinal>`.
module Uid {
  import opened Model

  type Byte = b: int | 0 <= b < 256

  datatype Anchor = Anchor(function_: seq<Byte>, passId: int, side: SnapshotSide, ordinal: nat)

  datatype UidError = BadVersionOrFieldCount | BadFunction | BadPassId | BadSide | BadOrdinal

  datatype Parsed = Ok(anchor: Anchor) | Err(error: UidError)

  // ------------------------------------------------- base64url, unpadded

  /** Table 2 of RFC 4648: the URL and filename safe alphabet. */
  function Symbol(v: nat): (c: char)
    requires v < 64
    ensures c != '.'
  {
    if v < 26 then 'A' + v as char
    else if v < 52 then 'a' + (v - 26) as char
    else if v < 62 then '0' + (v - 52) as char
    else if v == 62 then '-' else '_'
  }

  function SymbolValue(c: char): (v: Option<nat>)
    ensures v.Some? ==> v.value < 64
  {
    if 'A' <= c <= 'Z' then Some((c - 'A') as nat)
    else if 'a' <= c <= 'z' then Some((c - 'a') as nat + 26)
    else if '0' <= c <= '9' then Some((c - '0') as nat + 52)
    else if c == '-' then Some(62)
    else if c == '_' then Some(63)
    else None
  }

  lemma SymbolRoundTrip(v: nat)
    requires v < 64
    ensures SymbolValue(Symbol(v)) == Some(v)
  {
  }

  lemma ValueRoundTrip(c: char)
    requires SymbolValue(c).Some?
    ensures Symbol(SymbolValue(c).value) == c
  {
  }

  function Encode(bytes: seq<Byte>): string {
    if |bytes| == 0 then []
    else if |bytes| == 1 then [Symbol(bytes[0] / 4), Symbol(bytes[0] % 4 * 16)]
    else if |bytes| == 2 then
      [Symbol(bytes[0] / 4), Symbol(bytes[0] % 4 * 16 + bytes[1] / 16), Symbol(bytes[1] % 16 * 4)]
    else
      [Symbol(bytes[0] / 4), Symbol(bytes[0] % 4 * 16 + bytes[1] / 16),
       Symbol(bytes[1] % 16 * 4 + bytes[2] / 64), Symbol(bytes[2] % 64)] + Encode(bytes[3..])
  }

  /** Leftover bits of the last symbol must be zero, and a lone symbol is refused. */
  function Decode(s: string): Option<seq<Byte>> {
    if |s| == 0 then Some([])
    else if |s| == 1 then None
    else
      var v0, v1 := SymbolValue(s[0]), SymbolValue(s[1]);
      if v0.None? || v1.None? then None
      else if |s| == 2 then
        if v1.value % 16 == 0 then Some([v0.value * 4 + v1.value / 16]) else None
      else
        var v2 := SymbolValue(s[2]);
        if v2.None? then None
        else if |s| == 3 then
          if v2.value % 4 == 0
          then Some([v0.value * 4 + v1.value / 16, v1.value % 16 * 16 + v2.value / 4]) else None
        else
          var v3, rest := SymbolValue(s[3]), Decode(s[4..]);
          if v3.None? || rest.None? then None
          else
            Some([v0.value * 4 + v1.value / 16, v1.value % 16 * 16 + v2.value / 4, v2.value % 4 * 64 + v3.value]
              + rest.value)
  }

  /** Three octets cut into four sextets and glued together again. */
  lemma OctetsToSextets(b0: Byte, b1: Byte, b2: Byte)
    ensures var v0, v1, v2, v3 := b0 / 4, b0 % 4 * 16 + b1 / 16, b1 % 16 * 4 + b2 / 64, b2 % 64;
      && v0 < 64 && v1 < 64 && v2 < 64 && v3 < 64
      && v0 * 4 + v1 / 16 == b0 && v1 % 16 * 16 + v2 / 4 == b1 && v2 % 4 * 64 + v3 == b2
  {
  }

  lemma SextetsToOctets(v0: nat, v1: nat, v2: nat, v3: nat)
    requires v0 < 64 && v1 < 64 && v2 < 64 && v3 < 64
    ensures var b0, b1, b2 := v0 * 4 + v1 / 16, v1 % 16 * 16 + v2 / 4, v2 % 4 * 64 + v3;
      && b0 < 256 && b1 < 256 && b2 < 256
      && b0 / 4 == v0 && b0 % 4 * 16 + b1 / 16 == v1 && b1 % 16 * 4 + b2 / 64 == v2 && b2 % 64 == v3
  {
  }

  lemma {:induction false} DecodeEncoded(bytes: seq<Byte>)
    ensures Decode(Encode(bytes)) == Some(bytes)
  {
    if |bytes| == 1 {
      OctetsToSextets(bytes[0], 0, 0);
      SymbolRoundTrip(bytes[0] / 4);
      SymbolRoundTrip(bytes[0] % 4 * 16);
      assert bytes == [bytes[0]];
    } else if |bytes| == 2 {
      TwoEncoded(bytes);
    } else if |bytes| >= 3 {
      DecodeEncoded(bytes[3..]);
      GroupEncoded(bytes);
    }
  }

  lemma {:induction false} TwoEncoded(bytes: seq<Byte>)
    requires |bytes| == 2
    ensures Decode(Encode(bytes)) == Some(bytes)
  {
    OctetsToSextets(bytes[0], bytes[1], 0);
    SymbolRoundTrip(bytes[0] / 4);
    SymbolRoundTrip(bytes[0] % 4 * 16 + bytes[1] / 16);
    SymbolRoundTrip(bytes[1] % 16 * 4);
    assert bytes == [bytes[0], bytes[1]];
  }

  /** Four symbols in front of decodable text decode to their three octets. */
  lemma FourDecoded(v0: nat, v1: nat, v2: nat, v3: nat, s: string, rest: string)
    requires v0 < 64 && v1 < 64 && v2 < 64 && v3 < 64 && Decode(rest).Some?
    requires s == [Symbol(v0), Symbol(v1), Symbol(v2), Symbol(v3)] + rest
    ensures Decode(s)
      == Some([v0 * 4 + v1 / 16, v1 % 16 * 16 + v2 / 4, v2 % 4 * 64 + v3] + Decode(rest).value)
  {
    SymbolRoundTrip(v0);
    SymbolRoundTrip(v1);
    SymbolRoundTrip(v2);
    SymbolRoundTrip(v3);
    assert s[4..] == rest;
  }

  lemma {:induction false} GroupEncoded(bytes: seq<Byte>)
    requires |bytes| >= 3 && Decode(Encode(bytes[3..])) == Some(bytes[3..])
    ensures Decode(Encode(bytes)) == Some(bytes)
  {
    var b0, b1, b2 := bytes[0], bytes[1], bytes[2];
    OctetsToSextets(b0, b1, b2);
    FourDecoded(b0 / 4, b0 % 4 * 16 + b1 / 16, b1 % 16 * 4 + b2 / 64, b2 % 64, Encode(bytes), Encode(bytes[3..]));
    assert bytes == [b0, b1, b2] + bytes[3..];
  }

  lemma {:induction false} EncodeDecoded(s: string)
    requires Decode(s).Some?
    ensures Encode(Decode(s).value) == s
  {
    if |s| == 2 {
      TwoDecoded(s);
    } else if |s| == 3 {
      ThreeDecoded(s);
    } else if |s| >= 4 {
      EncodeDecoded(s[4..]);
      GroupDecoded(s);
    }
  }

  lemma TwoDecoded(s: string)
    requires |s| == 2 && Decode(s).Some?
    ensures Encode(Decode(s).value) == s
  {
    SextetsToOctets(SymbolValue(s[0]).value, SymbolValue(s[1]).value, 0, 0);
    ValueRoundTrip(s[0]);
    ValueRoundTrip(s[1]);
  }

  lemma {:induction false} ThreeDecoded(s: string)
    requires |s| == 3 && Decode(s).Some?
    ensures Encode(Decode(s).value) == s
  {
    SextetsToOctets(SymbolValue(s[0]).value, SymbolValue(s[1]).value, SymbolValue(s[2]).value, 0);
    ValueRoundTrip(s[0]);
    ValueRoundTrip(s[1]);
    ValueRoundTrip(s[2]);
  }

  lemma EncodeGroup(b0: Byte, b1: Byte, b2: Byte, rest: seq<Byte>)
    ensures Encode([b0, b1, b2] + rest)
      == [Symbol(b0 / 4), Symbol(b0 % 4 * 16 + b1 / 16), Symbol(b1 % 16 * 4 + b2 / 64), Symbol(b2 % 64)] + Encode(rest)
  {
    assert ([b0, b1, b2] + rest)[3..] == rest;
  }

  lemma {:induction false} GroupDecoded(s: string)
    requires |s| >= 4 && Decode(s).Some? && Decode(s[4..]).Some? && Encode(Decode(s[4..]).value) == s[4..]
    ensures Encode(Decode(s).value) == s
  {
    var v0, v1, v2, v3 := SymbolValue(s[0]).value, SymbolValue(s[1]).value, SymbolValue(s[2]).value,
      SymbolValue(s[3]).value;
    var b0, b1, b2 := v0 * 4 + v1 / 16, v1 % 16 * 16 + v2 / 4, v2 % 4 * 64 + v3;
    SextetsToOctets(v0, v1, v2, v3);
    EncodeGroup(b0, b1, b2, Decode(s[4..]).value);
    ValueRoundTrip(s[0]);
    ValueRoundTrip(s[1]);
    ValueRoundTrip(s[2]);
    ValueRoundTrip(s[3]);
    assert s == [s[0], s[1], s[2], s[3]] + s[4..];
  }

  predicate Dotless(s: string) { '.' !in s }

  lemma {:induction false} EncodeIsDotless(bytes: seq<Byte>)
    ensures Dotless(Encode(bytes))
  {
    if |bytes| >= 3 {
      EncodeIsDotless(bytes[3..]);
    }
  }

  // ---------------------------------------------------------- decimals

  const MAX_ORDINAL: int := 0xFFFF_FFFF_FFFF_FFFF
  const MAX_PASS: int := 0x7FFF_FFFF_FFFF_FFFF

  function Digits(n: nat): (s: string)
    ensures s != []
  {
    if n < 10 then ['0' + n as char] else Digits(n / 10) + ['0' + (n % 10) as char]
  }

  predicate IsDigit(c: char) { '0' <= c <= '9' }

  /** The value of a non-empty run of digits. */
  function DigitsValue(s: string): Option<nat> {
    if s == [] || !IsDigit(s[|s| - 1]) then None
    else
      var last := (s[|s| - 1] - '0') as nat;
      if |s| == 1 then Some(last)
      else
        var front := DigitsValue(s[..|s| - 1]);
        if front.None? then None else Some(front.value * 10 + last)
  }

  lemma {:induction false} DigitsRoundTrip(n: nat)
    ensures DigitsValue(Digits(n)) == Some(n)
    ensures Digits(n)[0] != '0' || Digits(n) == "0"
    ensures forall c :: c in Digits(n) ==> IsDigit(c)
  {
    if n >= 10 {
      DigitsRoundTrip(n / 10);
      assert Digits(n)[..|Digits(n)| - 1] == Digits(n / 10);
    }
  }

  lemma {:induction false} DigitsPositive(s: string)
    requires DigitsValue(s).Some? && s[0] != '0'
    ensures DigitsValue(s).value > 0
  {
    if |s| > 1 {
      DigitsPositive(s[..|s| - 1]);
    }
  }

  /** Without a spare zero, writing the value gives the digits back. */
  lemma {:induction false} DigitsWritten(s: string)
    requires DigitsValue(s).Some? && (s[0] != '0' || |s| == 1)
    ensures Digits(DigitsValue(s).value) == s
  {
    if |s| > 1 {
      var front := s[..|s| - 1];
      DigitsWritten(front);
      DigitsPositive(front);
      var v, last := DigitsValue(front).value, (s[|s| - 1] - '0') as nat;
      assert (v * 10 + last) / 10 == v && (v * 10 + last) % 10 == last;
      assert s == front + [s[|s| - 1]];
    }
  }

  /** A digit string is the canonical one for its value exactly when it has no spare zero. */
  lemma DigitsCanonical(s: string)
    requires DigitsValue(s).Some?
    ensures Digits(DigitsValue(s).value) == s <==> s[0] != '0' || s == "0"
    ensures s[0] != '0' ==> DigitsValue(s).value > 0
  {
    DigitsRoundTrip(DigitsValue(s).value);
    if s[0] != '0' {
      DigitsPositive(s);
    }
    if s[0] != '0' || |s| == 1 {
      DigitsWritten(s);
    }
  }

  function FormatInt(i: int): string {
    if i < 0 then "-" + Digits(-i) else Digits(i)
  }

  /** Unsigned parsing accepts a plus sign and leading zeros, and refuses what does not fit. */
  function ParseUnsigned(s: string): Option<nat> {
    var digits := if s != [] && s[0] == '+' then s[1..] else s;
    match DigitsValue(digits)
    case Some(n) => if n <= MAX_ORDINAL then Some(n) else None
    case None => None
  }

  function InRange(i: int): Option<int> {
    if -MAX_PASS - 1 <= i <= MAX_PASS then Some(i) else None
  }

  function ParseSigned(s: string): Option<int> {
    if s != [] && s[0] == '-' then
      match DigitsValue(s[1..]) case Some(n) => InRange(0 - n) case None => None
    else
      match DigitsValue(if s != [] && s[0] == '+' then s[1..] else s) case Some(n) => InRange(n) case None => None
  }

  predicate CanonicalUnsigned(s: string) {
    s != [] && s[0] != '+' && (s[0] != '0' || s == "0")
  }

  predicate CanonicalSigned(s: string) {
    if s != [] && s[0] == '-' then |s| > 1 && s[1] != '0' else CanonicalUnsigned(s)
  }

  lemma UnsignedRoundTrip(n: nat)
    requires n <= MAX_ORDINAL
    ensures ParseUnsigned(Digits(n)) == Some(n) && Dotless(Digits(n))
  {
    DigitsRoundTrip(n);
    assert Digits(n)[0] in Digits(n);
  }

  lemma NegativeRoundTrip(n: nat)
    requires 0 < n <= MAX_PASS + 1
    ensures ParseSigned("-" + Digits(n)) == Some(0 - n)
  {
    DigitsRoundTrip(n);
    assert ("-" + Digits(n))[1..] == Digits(n);
  }

  lemma PositiveRoundTrip(n: nat)
    requires n <= MAX_PASS
    ensures ParseSigned(Digits(n)) == Some(n)
  {
    DigitsRoundTrip(n);
    assert Digits(n)[0] in Digits(n);
  }

  lemma SignedRoundTrip(i: int)
    requires -MAX_PASS - 1 <= i <= MAX_PASS
    ensures ParseSigned(FormatInt(i)) == Some(i)
  {
    if i < 0 {
      NegativeRoundTrip(-i);
    } else {
      PositiveRoundTrip(i);
    }
  }

  lemma FormatIsDotless(i: int)
    ensures Dotless(FormatInt(i)) && FormatInt(i) != [] && (FormatInt(i)[0] == '-' <==> i < 0)
  {
    if i < 0 {
      DigitsRoundTrip(-i);
    } else {
      DigitsRoundTrip(i);
      assert Digits(i)[0] in Digits(i);
    }
  }

  lemma UnsignedCanonical(s: string)
    requires ParseUnsigned(s).Some?
    ensures Digits(ParseUnsigned(s).value) == s <==> CanonicalUnsigned(s)
  {
    DigitsRoundTrip(ParseUnsigned(s).value);
    if s[0] == '+' {
      assert Digits(ParseUnsigned(s).value)[0] in Digits(ParseUnsigned(s).value);
    } else {
      DigitsCanonical(s);
    }
  }

  lemma SignedCanonical(s: string)
    requires ParseSigned(s).Some?
    ensures FormatInt(ParseSigned(s).value) == s <==> CanonicalSigned(s)
  {
    if s[0] == '-' {
      DigitsCanonical(s[1..]);
      var n := DigitsValue(s[1..]).value;
      DigitsRoundTrip(n);
      assert s == "-" + s[1..];
      if n == 0 {
        assert FormatInt(0)[0] in FormatInt(0);
      }
    } else {
      var n := ParseSigned(s).value;
      DigitsRoundTrip(n);
      if s[0] == '+' {
        assert Digits(n)[0] in Digits(n);
      } else {
        DigitsCanonical(s);
      }
    }
  }

  // ------------------------------------------------------------- the fields

  function Split(s: string): (r: seq<string>)
    ensures |r| > 0
  {
    if s == [] then [[]]
    else
      var rest := Split(s[1..]);
      if s[0] == '.' then [[]] + rest else [[s[0]] + rest[0]] + rest[1..]
  }

  /** The fields joined by dots. */
  function Join(fields: seq<string>): string
    requires fields != []
  {
    if |fields| == 1 then fields[0] else fields[0] + "." + Join(fields[1..])
  }

  lemma {:induction false} SplitField(field: string, rest: string)
    requires Dotless(field)
    ensures Split(field + "." + rest) == [field] + Split(rest)
  {
    var s := field + "." + rest;
    if field == [] {
      assert s[1..] == rest;
    } else {
      SplitField(field[1..], rest);
      assert s[1..] == field[1..] + "." + rest;
      assert field[0] in field;
      assert ([field[1..]] + Split(rest))[1..] == Split(rest);
      assert [s[0]] + field[1..] == field;
    }
  }

  lemma {:induction false} SplitDotless(field: string)
    requires Dotless(field)
    ensures Split(field) == [field]
  {
    if field != [] {
      SplitDotless(field[1..]);
      assert field[0] in field;
      assert [field[0]] + field[1..] == field;
    }
  }

  lemma {:induction false} SplitJoined(fields: seq<string>)
    requires fields != [] && forall i :: 0 <= i < |fields| ==> Dotless(fields[i])
    ensures Split(Join(fields)) == fields
  {
    if |fields| == 1 {
      SplitDotless(fields[0]);
    } else {
      SplitJoined(fields[1..]);
      SplitField(fields[0], Join(fields[1..]));
    }
  }

  lemma {:induction false} JoinSplit(s: string)
    ensures Join(Split(s)) == s
  {
    if s != [] {
      JoinSplit(s[1..]);
      var rest := Split(s[1..]);
      if s[0] == '.' {
        assert ([[]] + rest)[1..] == rest;
      } else if |rest| > 1 {
        assert ([[s[0]] + rest[0]] + rest[1..])[1..] == rest[1..];
      }
    }
  }

  function SideCode(side: SnapshotSide): string { if side == Before then "b" else "a" }

  function FieldsOf(a: Anchor): seq<string> {
    ["op1", Encode(a.function_), FormatInt(a.passId), SideCode(a.side), Digits(a.ordinal)]
  }

  function FromAnchor(a: Anchor): string {
    Join(FieldsOf(a))
  }

  function ParseAnchor(uid: string): Parsed {
    var fields := Split(uid);
    if |fields| != 5 || fields[0] != "op1" then Err(BadVersionOrFieldCount)
    else
      match Decode(fields[1])
      case None => Err(BadFunction)
      case Some(function_) =>
        match ParseSigned(fields[2])
        case None => Err(BadPassId)
        case Some(passId) =>
          if fields[3] != "b" && fields[3] != "a" then Err(BadSide)
          else
            match ParseUnsigned(fields[4])
            case None => Err(BadOrdinal)
            case Some(ordinal) => Ok(Anchor(function_, passId, if fields[3] == "b" then Before else After, ordinal))
  }

  /** Pass ids are 64-bit signed, ordinals 64-bit unsigned. */
  predicate Representable(a: Anchor) {
    -MAX_PASS - 1 <= a.passId <= MAX_PASS && a.ordinal <= MAX_ORDINAL
  }

  /** Parsing gives back the very anchor that was encoded. */
  lemma AnchorRoundTrip(a: Anchor)
    requires Representable(a)
    ensures ParseAnchor(FromAnchor(a)) == Ok(a)
  {
    EncodeIsDotless(a.function_);
    SignedRoundTrip(a.passId);
    FormatIsDotless(a.passId);
    UnsignedRoundTrip(a.ordinal);
    SplitJoined(FieldsOf(a));
    DecodeEncoded(a.function_);
  }

  lemma FormatIsInjective(i: int, j: int)
    requires FormatInt(i) == FormatInt(j)
    ensures i == j
  {
    FormatIsDotless(i);
    FormatIsDotless(j);
    if i < 0 && j < 0 {
      assert Digits(-i) == FormatInt(i)[1..] == FormatInt(j)[1..] == Digits(-j);
      DigitsRoundTrip(-i);
      DigitsRoundTrip(-j);
    } else if i >= 0 && j >= 0 {
      DigitsRoundTrip(i);
      DigitsRoundTrip(j);
    }
  }

  lemma FieldsRecovered(a: Anchor)
    ensures Split(FromAnchor(a)) == FieldsOf(a)
  {
    EncodeIsDotless(a.function_);
    FormatIsDotless(a.passId);
    DigitsRoundTrip(a.ordinal);
    SplitJoined(FieldsOf(a));
  }

  /** Different anchors never share a UID, whatever the width of their numbers. */
  lemma UidsAreInjective(a: Anchor, b: Anchor)
    requires FromAnchor(a) == FromAnchor(b)
    ensures a == b
  {
    FieldsRecovered(a);
    FieldsRecovered(b);
    var fields := FieldsOf(a);
    assert fields == FieldsOf(b);
    assert fields[1] == Encode(a.function_) == Encode(b.function_);
    assert fields[2] == FormatInt(a.passId) == FormatInt(b.passId);
    assert fields[3] == SideCode(a.side) == SideCode(b.side);
    assert fields[4] == Digits(a.ordinal) == Digits(b.ordinal);
    DecodeEncoded(a.function_);
    DecodeEncoded(b.function_);
    FormatIsInjective(a.passId, b.passId);
    DigitsRoundTrip(a.ordinal);
    DigitsRoundTrip(b.ordinal);
  }

  /** What parsing says about the five fields. */
  lemma ParsedFields(uid: string)
    requires ParseAnchor(uid).Ok?
    ensures var fields, a := Split(uid), ParseAnchor(uid).anchor;
      && |fields| == 5 && fields[0] == "op1"
      && Decode(fields[1]) == Some(a.function_) && ParseSigned(fields[2]) == Some(a.passId)
      && fields[3] == SideCode(a.side) && ParseUnsigned(fields[4]) == Some(a.ordinal)
  {
  }

  lemma SameFieldsSameUid(uid: string, a: Anchor)
    ensures FromAnchor(a) == uid <==> FieldsOf(a) == Split(uid)
  {
    JoinSplit(uid);
    FieldsRecovered(a);
  }

  lemma ParsedInRange(uid: string)
    requires ParseAnchor(uid).Ok?
    ensures Representable(ParseAnchor(uid).anchor)
  {
    ParsedFields(uid);
  }

  /** A UID that parses re-encodes to itself exactly when its two numbers are written canonically. */
  lemma ReencodeIffCanonical(uid: string)
    requires ParseAnchor(uid).Ok?
    ensures FromAnchor(ParseAnchor(uid).anchor) == uid <==>
      CanonicalSigned(Split(uid)[2]) && CanonicalUnsigned(Split(uid)[4])
    ensures Representable(ParseAnchor(uid).anchor)
  {
    var fields, a := Split(uid), ParseAnchor(uid).anchor;
    ParsedFields(uid);
    ParsedInRange(uid);
    EncodeDecoded(fields[1]);
    SignedCanonical(fields[2]);
    UnsignedCanonical(fields[4]);
    SameFieldsSameUid(uid, a);
    assert FieldsOf(a) == [fields[0], fields[1], FormatInt(a.passId), fields[3], Digits(a.ordinal)];
    assert fields == [fields[0], fields[1], fields[2], fields[3], fields[4]];
  }

  /** Parsing is not one-to-one: a leading zero is accepted and lost. */
  lemma LeadingZeroIsLost(passId: nat)
    requires 0 < passId <= MAX_PASS
    ensures var uid := Join(["op1", "", "0" + Digits(passId), "b", "0"]);
      ParseAnchor(uid) == Ok(Anchor([], passId, Before, 0)) && FromAnchor(Anchor([], passId, Before, 0)) != uid
  {
    var fields := ["op1", "", "0" + Digits(passId), "b", "0"];
    DigitsRoundTrip(passId);
    SplitJoined(fields);
    SpareZero(Digits(passId));
    assert Split(Join(fields))[2][0] == '0';
    ReencodeIffCanonical(Join(fields));
  }

  lemma {:induction false} SpareZero(s: string)
    requires DigitsValue(s).Some?
    ensures DigitsValue("0" + s) == DigitsValue(s)
  {
    assert ("0" + s)[..|s|] == "0" + s[..|s| - 1];
    if |s| > 1 {
      SpareZero(s[..|s| - 1]);
    } else {
      assert ("0" + s)[..1] == "0";
    }
  }
}
