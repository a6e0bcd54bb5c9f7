// Cutting a snapshot into pages of bytes without splitting a character.
module Paging {
  import opened Model

  type Byte = b: int | 0 <= b < 256

  /** Continuation octets of section 3 of RFC 3629. */
  predicate IsContinuation(b: Byte) { 0x80 <= b < 0xC0 }

  /** A position between two characters. */
  predicate IsBoundary(text: seq<Byte>, i: nat)
    requires i <= |text|
  {
    i == |text| || !IsContinuation(text[i])
  }

  /** An encoded character: one octet that starts it, then only continuations, four in all at most. */
  predicate IsCharacter(c: seq<Byte>) {
    1 <= |c| <= 4 && !IsContinuation(c[0]) && forall i :: 1 <= i < |c| ==> IsContinuation(c[i])
  }

  function Concat(chars: seq<seq<Byte>>): seq<Byte> {
    if chars == [] then [] else chars[0] + Concat(chars[1..])
  }

  /** Text is a run of whole characters. */
  predicate AllCharacters(chars: seq<seq<Byte>>) {
    forall i :: 0 <= i < |chars| ==> IsCharacter(chars[i])
  }

  datatype Page = Page(text: seq<Byte>, offset: nat, nextOffset: Option<nat>, totalBytes: nat)

  function Min(a: nat, b: nat): nat { if a <= b then a else b }

  /** The first boundary at or after `i`. */
  function BoundaryAfter(text: seq<Byte>, i: nat): (r: nat)
    requires i <= |text|
    ensures i <= r <= |text| && IsBoundary(text, r)
    ensures forall j :: i <= j < r ==> !IsBoundary(text, j)
    decreases |text| - i
  {
    if i < |text| && !IsBoundary(text, i) then BoundaryAfter(text, i + 1) else i
  }

  /** The last boundary in `start..=i`, or `start`. */
  function BoundaryBefore(text: seq<Byte>, start: nat, i: nat): (r: nat)
    requires start <= i <= |text|
    ensures start <= r <= i && (r == start || IsBoundary(text, r))
    ensures forall j :: r < j <= i ==> !IsBoundary(text, j)
  {
    if i > start && !IsBoundary(text, i) then BoundaryBefore(text, start, i - 1) else i
  }

  /** None for an offset beyond the end or a limit of zero, which the server rejects. */
  function PageAt(text: seq<Byte>, offset: nat, limit: nat): (r: Option<Page>) {
    if limit == 0 || offset > |text| then None
    else
      var start := BoundaryAfter(text, offset);
      var end := BoundaryBefore(text, start, Min(start + limit, |text|));
      Some(Page(text[start..end], start, if end < |text| then Some(end) else None, |text|))
  }

  method IrPage(text: seq<Byte>, offset: nat, limit: nat) returns (page: Option<Page>)
    ensures page == PageAt(text, offset, limit)
  {
    if limit == 0 || offset > |text| {
      return None;
    }
    var start := offset;
    while start < |text| && !IsBoundary(text, start)
      invariant offset <= start <= |text|
      invariant BoundaryAfter(text, start) == BoundaryAfter(text, offset)
    {
      start := start + 1;
    }
    var end := Min(start + limit, |text|);
    while end > start && !IsBoundary(text, end)
      invariant start <= end <= |text|
      invariant BoundaryBefore(text, start, end) == BoundaryBefore(text, start, Min(start + limit, |text|))
    {
      end := end - 1;
    }
    page := Some(Page(text[start..end], start, if end < |text| then Some(end) else None, |text|));
  }

  /** What one page promises, for every limit. */
  lemma PageIsSound(text: seq<Byte>, offset: nat, limit: nat)
    requires limit > 0 && offset <= |text|
    ensures var p := PageAt(text, offset, limit).value;
      && offset <= p.offset && p.offset + |p.text| <= |text| && p.text == text[p.offset..p.offset + |p.text|]
      && |p.text| <= limit
      && IsBoundary(text, p.offset) && IsBoundary(text, p.offset + |p.text|)
      && (p.nextOffset == if p.offset + |p.text| < |text| then Some(p.offset + |p.text|) else None)
  {
  }

  // -------------------------------------------------------- whole snapshots

  /** The pages met by following `nextOffset`, at most `fuel` of them; none when that never ends. */
  function Follow(text: seq<Byte>, offset: nat, limit: nat, fuel: nat): (r: Option<seq<Page>>)
    requires limit > 0 && offset <= |text|
    decreases fuel
  {
    if fuel == 0 then None
    else
      var p := PageAt(text, offset, limit).value;
      PageIsSound(text, offset, limit);
      match p.nextOffset
      case None => Some([p])
      case Some(next) =>
        match Follow(text, next, limit, fuel - 1)
        case None => None
        case Some(rest) => Some([p] + rest)
  }

  function Texts(pages: seq<Page>): seq<Byte> {
    if pages == [] then [] else pages[0].text + Texts(pages[1..])
  }

  /** The character starting at a boundary is at most `width` octets long. */
  predicate FitsAt(text: seq<Byte>, i: nat, width: nat)
    requires i < |text|
  {
    IsBoundary(text, i) ==> BoundaryAfter(text, i + 1) <= i + width
  }

  /** No character of the text is wider than `width`. */
  predicate Narrow(text: seq<Byte>, width: nat) {
    forall i :: 0 <= i < |text| ==> FitsAt(text, i, width)
  }

  /** Pages tile the text: whatever following reaches, it loses and repeats nothing. */
  lemma {:induction false} FollowedPagesConcatenate(text: seq<Byte>, offset: nat, limit: nat, fuel: nat)
    requires limit > 0 && offset <= |text| && IsBoundary(text, offset)
    requires Follow(text, offset, limit, fuel).Some?
    ensures Texts(Follow(text, offset, limit, fuel).value) == text[offset..]
    decreases fuel
  {
    PageIsSound(text, offset, limit);
    var p := PageAt(text, offset, limit).value;
    var pages := Follow(text, offset, limit, fuel).value;
    assert p.offset == offset;
    if p.nextOffset.Some? {
      FollowedPagesConcatenate(text, p.nextOffset.value, limit, fuel - 1);
      assert pages[1..] == Follow(text, p.nextOffset.value, limit, fuel - 1).value;
      assert text[offset..] == p.text + text[p.nextOffset.value..];
    }
  }

  /** A page moves on exactly when it can hold the character it starts at. */
  lemma ProgressIffRoom(text: seq<Byte>, offset: nat, limit: nat)
    requires limit > 0 && offset < |text| && IsBoundary(text, offset)
    ensures var p := PageAt(text, offset, limit).value;
      |p.text| > 0 <==> BoundaryAfter(text, offset + 1) <= offset + limit
  {
  }

  lemma NarrowMoves(text: seq<Byte>, offset: nat, limit: nat)
    requires limit > 0 && offset <= |text| && IsBoundary(text, offset) && Narrow(text, limit)
    ensures var next := PageAt(text, offset, limit).value.nextOffset;
      next.Some? ==> offset < next.value <= |text| && IsBoundary(text, next.value)
  {
    PageIsSound(text, offset, limit);
    if offset < |text| {
      assert FitsAt(text, offset, limit);
      ProgressIffRoom(text, offset, limit);
    }
  }

  lemma WiderStaysNarrow(text: seq<Byte>, width: nat, limit: nat)
    requires Narrow(text, width) && width <= limit
    ensures Narrow(text, limit)
  {
    forall i | 0 <= i < |text|
      ensures FitsAt(text, i, limit)
    {
      assert FitsAt(text, i, width);
    }
  }

  lemma {:induction false} NarrowTextEnds(text: seq<Byte>, offset: nat, limit: nat, fuel: nat)
    requires limit > 0 && offset <= |text| && IsBoundary(text, offset) && Narrow(text, limit)
    requires fuel > |text| - offset
    ensures Follow(text, offset, limit, fuel).Some?
    decreases fuel
  {
    NarrowMoves(text, offset, limit);
    var next := PageAt(text, offset, limit).value.nextOffset;
    if next.Some? {
      NarrowTextEnds(text, next.value, limit, fuel - 1);
    }
  }

  /** No page reaches past a character wider than the limit. */
  lemma {:induction false} WideCharacterBlocks(text: seq<Byte>, offset: nat, limit: nat, fuel: nat, wide: nat)
    requires limit > 0 && offset <= wide < |text| && IsBoundary(text, offset)
    requires IsBoundary(text, wide) && BoundaryAfter(text, wide + 1) > wide + limit
    ensures Follow(text, offset, limit, fuel).None?
    decreases fuel
  {
    if fuel > 0 {
      PageIsSound(text, offset, limit);
      var p := PageAt(text, offset, limit).value;
      var end := p.offset + |p.text|;
      assert p.offset == offset;
      assert end <= wide;
      WideCharacterBlocks(text, end, limit, fuel - 1, wide);
    }
  }

  /** Following `nextOffset` from zero ends exactly when every character fits a page. */
  lemma PagingEndsIffCharactersFit(text: seq<Byte>, limit: nat)
    requires limit > 0 && IsBoundary(text, 0)
    ensures (exists fuel :: Follow(text, 0, limit, fuel).Some?) <==> Narrow(text, limit)
  {
    if Narrow(text, limit) {
      NarrowTextEnds(text, 0, limit, |text| + 1);
    } else {
      var wide :| 0 <= wide < |text| && !FitsAt(text, wide, limit);
      forall fuel
        ensures Follow(text, 0, limit, fuel).None?
      {
        WideCharacterBlocks(text, 0, limit, fuel, wide);
      }
    }
  }

  /** A letter of two octets never comes through pages of one: the first page is empty and points at itself. */
  lemma OneOctetPagesNeverEnd()
    ensures var text: seq<Byte> := [0xC3, 0xA9];
      && IsCharacter(text) && !Narrow(text, 1)
      && PageAt(text, 0, 1) == Some(Page([], 0, Some(0), 2))
      && forall fuel: nat :: Follow(text, 0, 1, fuel).None?
  {
    var text: seq<Byte> := [0xC3, 0xA9];
    assert !IsBoundary(text, 1) && IsBoundary(text, 2);
    assert BoundaryAfter(text, 1) == 2;
    assert !FitsAt(text, 0, 1);
    assert BoundaryBefore(text, 0, 1) == 0;
    forall fuel: nat
      ensures Follow(text, 0, 1, fuel).None?
    {
      WideCharacterBlocks(text, 0, 1, fuel, 0);
    }
  }

  lemma {:induction false} CharactersAreNarrow(chars: seq<seq<Byte>>)
    requires AllCharacters(chars)
    ensures Narrow(Concat(chars), 4) && IsBoundary(Concat(chars), 0)
  {
    var text := Concat(chars);
    if chars != [] {
      CharactersAreNarrow(chars[1..]);
      assert IsCharacter(chars[0]);
      var c, rest := chars[0], Concat(chars[1..]);
      forall i | 0 <= i < |text|
        ensures FitsAt(text, i, 4)
      {
        if !IsBoundary(text, i) {
        } else if i < |c| {
          assert i == 0;
          assert IsBoundary(text, |c|) by { assert IsBoundary(rest, 0); }
        } else {
          assert IsBoundary(rest, i - |c|);
          assert FitsAt(rest, i - |c|, 4);
          var next := BoundaryAfter(rest, i - |c| + 1);
          assert IsBoundary(text, next + |c|);
        }
      }
    }
  }

  /** With four octets or more to a page, every snapshot is read whole, in order, and paging ends. */
  lemma PagesCoverSnapshot(chars: seq<seq<Byte>>, limit: nat)
    requires AllCharacters(chars) && limit >= 4
    ensures var text := Concat(chars);
      && Follow(text, 0, limit, |text| + 1).Some?
      && Texts(Follow(text, 0, limit, |text| + 1).value) == text
  {
    var text := Concat(chars);
    CharactersAreNarrow(chars);
    WiderStaysNarrow(text, 4, limit);
    NarrowTextEnds(text, 0, limit, |text| + 1);
    FollowedPagesConcatenate(text, 0, limit, |text| + 1);
  }
}
