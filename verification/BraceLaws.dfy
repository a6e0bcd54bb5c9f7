// Which braces count: those outside string literals, read literal by literal.
module BraceLaws {
  import opened Parser

  /** What follows the literal whose text begins here; a backslash takes the next character with it. */
  function AfterLiteral(s: string): (r: string)
    ensures |r| <= |s|
  {
    if s == [] then []
    else if s[0] == '"' then s[1..]
    else if s[0] == '\\' && |s| > 1 then AfterLiteral(s[2..])
    else AfterLiteral(s[1..])
  }

  /** Opening minus closing braces of a text, its literals skipped. */
  function Nesting(s: string): int
    decreases |s|
  {
    if s == [] then 0
    else if s[0] == '"' then Nesting(AfterLiteral(s[1..]))
    else if s[0] == '{' then 1 + Nesting(s[1..])
    else if s[0] == '}' then Nesting(s[1..]) - 1
    else Nesting(s[1..])
  }

  function ScannedFrom(a: Scan, s: string): Scan
    decreases |s|
  {
    if s == [] then a else ScannedFrom(ScanByte(a, s[0]), s[1..])
  }

  lemma {:induction false} ScannedLast(a: Scan, s: string, c: char)
    ensures ScannedFrom(a, s + [c]) == ScanByte(ScannedFrom(a, s), c)
    decreases |s|
  {
    if s != [] {
      ScannedLast(ScanByte(a, s[0]), s[1..], c);
      assert (s + [c])[1..] == s[1..] + [c];
    } else {
      assert ([] + [c])[1..] == [];
    }
  }

  lemma {:induction false} ScannedIsFold(s: string, n: nat)
    requires n <= |s|
    ensures Scanned(s, n) == ScannedFrom(Scan(0, false, false), s[..n])
  {
    if n > 0 {
      ScannedIsFold(s, n - 1);
      ScannedLast(Scan(0, false, false), s[..n - 1], s[n - 1]);
      assert s[..n] == s[..n - 1] + [s[n - 1]];
    }
  }

  lemma {:induction false} OutsideCounts(s: string, d: int)
    ensures ScannedFrom(Scan(d, false, false), s).delta == d + Nesting(s)
    decreases |s|, 1
  {
    if s != [] {
      if s[0] == '"' {
        InsideSkips(s[1..], d);
      } else if s[0] == '{' {
        OutsideCounts(s[1..], d + 1);
      } else if s[0] == '}' {
        OutsideCounts(s[1..], d - 1);
      } else {
        OutsideCounts(s[1..], d);
      }
    }
  }

  lemma {:induction false} InsideSkips(s: string, d: int)
    ensures ScannedFrom(Scan(d, true, false), s).delta == d + Nesting(AfterLiteral(s))
    decreases |s|, 0
  {
    if s != [] {
      if s[0] == '"' {
        OutsideCounts(s[1..], d);
      } else if s[0] == '\\' && |s| > 1 {
        assert s[1..][1..] == s[2..];
        assert ScanByte(ScanByte(Scan(d, true, false), s[0]), s[1]) == Scan(d, true, false);
        InsideSkips(s[2..], d);
      } else {
        InsideSkips(s[1..], d);
      }
    }
  }

  /** The scan counts exactly the braces outside literals. */
  lemma DeltaIsNesting(s: string)
    ensures Delta(s) == Nesting(s)
  {
    ScannedIsFold(s, |s|);
    assert s[..|s|] == s;
    OutsideCounts(s, 0);
  }
}
