// What the characters of a UID are: its letters, its digits, and the numbers
// they stand for.
module UidLaws {
  import opened Model
  import opened Uid

  /** The URL and filename safe alphabet, table 2 of RFC 4648, section 5. */
  const ALPHABET: string := UPPER + LOWER + DECIMALS + "-_"

  const UPPER: string := "ABCDEFGHIJKLMNOPQRSTUVWXYZ"
  const LOWER: string := "abcdefghijklmnopqrstuvwxyz"
  const DECIMALS: string := "0123456789"

  lemma SymbolsAreTheAlphabet(v: nat, c: char)
    ensures |ALPHABET| == 64
    ensures v < 64 ==> Symbol(v) == ALPHABET[v]
    ensures SymbolValue(c) == Some(v) <==> v < 64 && ALPHABET[v] == c
  {
    if v < 64 {
      SymbolIs(v);
      SymbolRoundTrip(v);
    }
    if SymbolValue(c) == Some(v) {
      ValueRoundTrip(c);
    }
  }

  lemma SymbolIs(v: nat)
    requires v < 64
    ensures Symbol(v) == ALPHABET[v]
  {
    if v < 26 {
      assert ALPHABET[v] == UPPER[v] == 'A' + v as char;
    } else if v < 52 {
      assert ALPHABET[v] == LOWER[v - 26] == 'a' + (v - 26) as char;
    } else if v < 62 {
      assert ALPHABET[v] == DECIMALS[v - 52] == '0' + (v - 52) as char;
    }
  }

  /** The place of a symbol in the alphabet. */
  function Place(c: char): nat {
    match SymbolValue(c) case Some(v) => v case None => 0
  }

  function Big(b: Byte): int { b as int }

  /** Three octets and four symbols are one number of 24 bits; a rest is filled up with zero bits. */
  predicate GroupTells(bytes: seq<Byte>, text: string, g: nat) {
    var b, t := 3 * g, 4 * g;
    if b + 3 <= |bytes| then
      && t + 4 <= |text|
      && Place(text[t]) * 262144 + Place(text[t + 1]) * 4096 + Place(text[t + 2]) * 64 + Place(text[t + 3])
           == Big(bytes[b]) * 65536 + Big(bytes[b + 1]) * 256 + Big(bytes[b + 2])
    else if b + 2 == |bytes| then
      && t + 3 == |text|
      && Place(text[t]) * 4096 + Place(text[t + 1]) * 64 + Place(text[t + 2])
           == (Big(bytes[b]) * 256 + Big(bytes[b + 1])) * 4
    else if b + 1 == |bytes| then t + 2 == |text| && Place(text[t]) * 64 + Place(text[t + 1]) == Big(bytes[b]) * 16
    else b == |bytes| ==> t == |text|
  }

  lemma PlacesAre(v: nat)
    requires v < 64
    ensures Place(Symbol(v)) == v
  {
    SymbolRoundTrip(v);
  }

  lemma FirstGroup(bytes: seq<Byte>)
    ensures GroupTells(bytes, Encode(bytes), 0)
  {
    if |bytes| > 0 {
      var b0 := bytes[0];
      var b1 := if |bytes| > 1 then bytes[1] else 0;
      var b2 := if |bytes| > 2 then bytes[2] else 0;
      PlacesAre(b0 / 4);
      PlacesAre(b0 % 4 * 16 + b1 / 16);
      PlacesAre(b1 % 16 * 4 + b2 / 64);
      PlacesAre(b2 % 64);
    }
  }

  /** Read as numbers, the encoded text is the octets. */
  lemma {:induction false} EncodedTells(bytes: seq<Byte>, g: nat)
    ensures GroupTells(bytes, Encode(bytes), g)
  {
    if g == 0 {
      FirstGroup(bytes);
    } else if |bytes| >= 3 {
      EncodedTells(bytes[3..], g - 1);
      LaterGroup(bytes, Encode(bytes), g);
    }
  }

  lemma LaterGroup(bytes: seq<Byte>, text: string, g: nat)
    requires g > 0 && |bytes| >= 3 && |text| >= 4 && GroupTells(bytes[3..], text[4..], g - 1)
    ensures GroupTells(bytes, text, g)
  {
  }

  /** One more digit is ten times the number and that digit. */
  lemma DecimalsTell(front: string, d: nat)
    requires d < 10
    ensures DigitsValue([DECIMALS[d]]) == Some(d)
    ensures front != [] ==>
      DigitsValue(front + [DECIMALS[d]]) == match DigitsValue(front) case Some(n) => Some(10 * n + d) case None => None
  {
    assert DECIMALS[d] == '0' + d as char;
    assert (front + [DECIMALS[d]])[..|front|] == front;
  }

  /** Five fields between four dots: version, function, pass, `b` for before or `a` for after, place. */
  lemma UidReads(a: Anchor)
    ensures FromAnchor(a)
      == "op1." + (Encode(a.function_) + ("." + (FormatInt(a.passId)
         + ((if a.side == Before then ".b." else ".a.") + Digits(a.ordinal)))))
    ensures FormatInt(a.passId) == if a.passId < 0 then "-" + Digits(-a.passId) else Digits(a.passId)
  {
    var fields := FieldsOf(a);
    var last := fields[4..];
    assert Join(last) == Digits(a.ordinal);
    assert Join(fields[3..]) == SideCode(a.side) + "." + Join(last);
    assert Join(fields[2..]) == FormatInt(a.passId) + "." + Join(fields[3..]);
    assert Join(fields[1..]) == Encode(a.function_) + "." + Join(fields[2..]);
    assert Join(fields) == "op1" + "." + Join(fields[1..]);
  }
}
