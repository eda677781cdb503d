/** Contact gathering, shared verbatim by the three games: `gather_contacts`
    pairs every rectangle of one list with every rectangle of another,
    `gather_contacts_tiles` pairs rectangles with the solid tiles the level
    reports under them. Both append to the caller's vector. */
module Contacts {
  import opened Geometry
  import opened Levels

  /** One overlapping pair; lives for a single tick. */
  datatype Contact = Contact(aIndex: nat, aRect: Rect, bIndex: nat, bRect: Rect, displacement: Vec2)

  // ---------------------------------------------------------------------------
  // Rectangle against rectangle

  /** The contacts of rectangle `a` (index `i`) with `rb[..n]`, in `rb` order. */
  function RowContacts(i: nat, a: Rect, rb: seq<Rect>, n: nat): seq<Contact>
    requires n <= |rb|
  {
    if n == 0 then []
    else
      var last := match Overlap(a, rb[n - 1])
        case Some(d) => [Contact(i, a, n - 1, rb[n - 1], d)]
        case None => [];
      RowContacts(i, a, rb, n - 1) + last
  }

  /** The contacts of `ra[..m]` with all of `rb`: a-major, b-minor order. */
  function PairContacts(ra: seq<Rect>, rb: seq<Rect>, m: nat): seq<Contact>
    requires m <= |ra|
  {
    if m == 0 then [] else PairContacts(ra, rb, m - 1) + RowContacts(m - 1, ra[m - 1], rb, |rb|)
  }

  /** A contact that really pairs `ra[aIndex]` with `rb[bIndex]`. */
  predicate PairSound(c: Contact, ra: seq<Rect>, rb: seq<Rect>) {
    c.aIndex < |ra| && c.bIndex < |rb| && c.aRect == ra[c.aIndex] && c.bRect == rb[c.bIndex] &&
    Overlap(c.aRect, c.bRect) == Some(c.displacement)
  }

  /** Lexicographic order on (aIndex, bIndex). */
  predicate Before(c: Contact, d: Contact) {
    c.aIndex < d.aIndex || (c.aIndex == d.aIndex && c.bIndex < d.bIndex)
  }

  /** The inner loop of `gather_contacts`: the contacts of `a` (index `i`) with `rb`. */
  method GatherRow(i: nat, a: Rect, rb: seq<Rect>) returns (row: seq<Contact>)
    ensures row == RowContacts(i, a, rb, |rb|)
  {
    row := [];
    for j := 0 to |rb|
      invariant row == RowContacts(i, a, rb, j)
    {
      match Overlap(a, rb[j]) {
        case Some(d) =>
          row := row + [Contact(i, a, j, rb[j], d)];
        case None =>
      }
    }
  }

  /** `gather_contacts` */
  method GatherContacts(ra: seq<Rect>, rb: seq<Rect>, contacts: seq<Contact>) returns (out: seq<Contact>)
    ensures out == contacts + PairContacts(ra, rb, |ra|)
  {
    out := contacts;
    for i := 0 to |ra|
      invariant out == contacts + PairContacts(ra, rb, i)
    {
      var row := GatherRow(i, ra[i], rb);
      out := out + row;
    }
  }

  /** The contact `gather_contacts` records for an overlapping pair. */
  function PairContact(ra: seq<Rect>, rb: seq<Rect>, i: nat, j: nat): Contact
    requires i < |ra| && j < |rb| && Intersect(ra[i], rb[j])
  {
    Contact(i, ra[i], j, rb[j], Overlap(ra[i], rb[j]).value)
  }

  lemma {:induction false} RowContactsSound(i: nat, a: Rect, rb: seq<Rect>, n: nat)
    requires n <= |rb|
    ensures forall c :: c in RowContacts(i, a, rb, n) ==>
      c.aIndex == i && c.aRect == a && c.bIndex < n && c.bRect == rb[c.bIndex] &&
      Overlap(a, c.bRect) == Some(c.displacement)
  {
    if n > 0 {
      RowContactsSound(i, a, rb, n - 1);
    }
  }

  /** The index facts alone, which the ordering proofs need. */
  lemma {:induction false} RowContactsIndex(i: nat, a: Rect, rb: seq<Rect>, n: nat)
    requires n <= |rb|
    ensures forall c :: c in RowContacts(i, a, rb, n) ==> c.aIndex == i && c.bIndex < n
  {
    if n > 0 {
      RowContactsIndex(i, a, rb, n - 1);
    }
  }

  lemma {:induction false} PairContactsBelow(ra: seq<Rect>, rb: seq<Rect>, m: nat)
    requires m <= |ra|
    ensures forall c :: c in PairContacts(ra, rb, m) ==> c.aIndex < m
  {
    if m > 0 {
      var prev := PairContacts(ra, rb, m - 1);
      var row := RowContacts(m - 1, ra[m - 1], rb, |rb|);
      PairContactsBelow(ra, rb, m - 1);
      RowContactsIndex(m - 1, ra[m - 1], rb, |rb|);
      forall c | c in PairContacts(ra, rb, m) ensures c.aIndex < m {
        assert c in prev || c in row;
      }
    }
  }

  /** Strictly increasing in (aIndex, bIndex): every pair appears at most once. */
  predicate Ordered(p: seq<Contact>) {
    forall k, l :: 0 <= k < l < |p| ==> Before(p[k], p[l])
  }

  lemma ConcatOrdered(q: seq<Contact>, r: seq<Contact>)
    requires Ordered(q) && Ordered(r)
    requires forall c, d :: c in q && d in r ==> Before(c, d)
    ensures Ordered(q + r)
  {
    var p := q + r;
    forall k, l | 0 <= k < l < |p| ensures Before(p[k], p[l]) {
      if l < |q| {
        assert p[k] == q[k] && p[l] == q[l];
      } else if k < |q| {
        assert p[k] == q[k] && q[k] in q;
        assert p[l] == r[l - |q|] && r[l - |q|] in r;
      } else {
        assert p[k] == r[k - |q|] && p[l] == r[l - |q|];
      }
    }
  }

  lemma {:induction false} RowContactsOrdered(i: nat, a: Rect, rb: seq<Rect>, n: nat)
    requires n <= |rb|
    ensures Ordered(RowContacts(i, a, rb, n))
  {
    if n > 0 {
      RowContactsOrdered(i, a, rb, n - 1);
      RowContactsIndex(i, a, rb, n - 1);
      var p := RowContacts(i, a, rb, n - 1);
      var last := RowContacts(i, a, rb, n)[|p|..];
      assert RowContacts(i, a, rb, n) == p + last;
      ConcatOrdered(p, last);
    }
  }

  lemma {:induction false} RowContactsComplete(i: nat, a: Rect, rb: seq<Rect>, n: nat, j: nat)
    requires j < n <= |rb| && Intersect(a, rb[j])
    ensures Contact(i, a, j, rb[j], Overlap(a, rb[j]).value) in RowContacts(i, a, rb, n)
  {
    if j < n - 1 {
      RowContactsComplete(i, a, rb, n - 1, j);
    }
  }

  /** Every gathered entry pairs `ra[aIndex]` with `rb[bIndex]`, both indices in
      range, and carries their overlap. */
  lemma {:induction false} PairContactsSound(ra: seq<Rect>, rb: seq<Rect>, m: nat)
    requires m <= |ra|
    ensures forall c :: c in PairContacts(ra, rb, m) ==> PairSound(c, ra, rb) && c.aIndex < m
  {
    if m > 0 {
      var prev := PairContacts(ra, rb, m - 1);
      var row := RowContacts(m - 1, ra[m - 1], rb, |rb|);
      PairContactsSound(ra, rb, m - 1);
      RowContactsSound(m - 1, ra[m - 1], rb, |rb|);
      forall c | c in PairContacts(ra, rb, m) ensures PairSound(c, ra, rb) && c.aIndex < m {
        assert c in prev || c in row;
      }
    }
  }

  /** Entries come out in a-major, b-minor order, so each pair appears at most once. */
  lemma {:induction false} PairContactsOrdered(ra: seq<Rect>, rb: seq<Rect>, m: nat)
    requires m <= |ra|
    ensures Ordered(PairContacts(ra, rb, m))
  {
    if m > 0 {
      PairContactsOrdered(ra, rb, m - 1);
      PairContactsBelow(ra, rb, m - 1);
      RowContactsIndex(m - 1, ra[m - 1], rb, |rb|);
      RowContactsOrdered(m - 1, ra[m - 1], rb, |rb|);
      ConcatOrdered(PairContacts(ra, rb, m - 1), RowContacts(m - 1, ra[m - 1], rb, |rb|));
    }
  }

  /** Every overlapping pair is gathered. */
  lemma {:induction false} PairContactsComplete(ra: seq<Rect>, rb: seq<Rect>, m: nat, i: nat, j: nat)
    requires i < m <= |ra| && j < |rb| && Intersect(ra[i], rb[j])
    ensures PairContact(ra, rb, i, j) in PairContacts(ra, rb, m)
  {
    if i < m - 1 {
      PairContactsComplete(ra, rb, m - 1, i, j);
    } else {
      RowContactsComplete(m - 1, ra[m - 1], rb, |rb|, j);
    }
  }

  /** No contacts means no overlapping pair at all, and conversely. */
  lemma PairContactsEmpty(ra: seq<Rect>, rb: seq<Rect>)
    ensures PairContacts(ra, rb, |ra|) == [] <==>
      forall i, j :: 0 <= i < |ra| && 0 <= j < |rb| ==> !Intersect(ra[i], rb[j])
  {
    var p := PairContacts(ra, rb, |ra|);
    if p != [] {
      PairContactsSound(ra, rb, |ra|);
      assert p[0] in p;
      assert Intersect(ra[p[0].aIndex], rb[p[0].bIndex]);
    } else {
      forall i, j | 0 <= i < |ra| && 0 <= j < |rb| ensures !Intersect(ra[i], rb[j]) {
        if Intersect(ra[i], rb[j]) {
          PairContactsComplete(ra, rb, |ra|, i, j);
        }
      }
    }
  }

  // ---------------------------------------------------------------------------
  // Rectangle against level tiles

  /** The contacts of rectangle `r` (index `i`) with the solid tiles among `tiles[..n]`. */
  function TileRow(i: nat, r: Rect, tiles: seq<(Rect, TileData)>, n: nat): seq<Contact>
    requires n <= |tiles|
  {
    if n == 0 then []
    else
      var last := if !tiles[n - 1].1.solid then []
        else match Overlap(r, tiles[n - 1].0)
          case Some(d) => [Contact(i, r, 0, tiles[n - 1].0, d)]
          case None => [];
      TileRow(i, r, tiles, n - 1) + last
  }

  /** The tile contacts of `rects[..m]`; the order within one rectangle is the
      order in which the level reports its tiles. */
  function TileContacts<E>(rects: seq<Rect>, level: Level<E>, m: nat): seq<Contact>
    requires m <= |rects|
  {
    if m == 0 then []
    else
      var tiles := level.tilesWithin(rects[m - 1]);
      TileContacts(rects, level, m - 1) + TileRow(m - 1, rects[m - 1], tiles, |tiles|)
  }

  /** A contact of `rects[aIndex]` with a solid tile the level reports under it. */
  predicate TileSound<E>(c: Contact, rects: seq<Rect>, level: Level<E>) {
    c.aIndex < |rects| && c.aRect == rects[c.aIndex] && c.bIndex == 0 &&
    (c.bRect, TileData(true)) in level.tilesWithin(c.aRect) &&
    Overlap(c.aRect, c.bRect) == Some(c.displacement)
  }

  /** The inner loop of `gather_contacts_tiles`: the contacts of `r` (index
      `i`) with the solid tiles among `tiles`. */
  method GatherTileRow(i: nat, r: Rect, tiles: seq<(Rect, TileData)>) returns (row: seq<Contact>)
    ensures row == TileRow(i, r, tiles, |tiles|)
  {
    row := [];
    for j := 0 to |tiles|
      invariant row == TileRow(i, r, tiles, j)
    {
      if tiles[j].1.solid {
        match Overlap(r, tiles[j].0) {
          case Some(d) =>
            row := row + [Contact(i, r, 0, tiles[j].0, d)];
          case None =>
        }
      }
    }
  }

  /** `gather_contacts_tiles` */
  method GatherContactsTiles<E>(rects: seq<Rect>, level: Level<E>, contacts: seq<Contact>)
    returns (out: seq<Contact>)
    ensures out == contacts + TileContacts(rects, level, |rects|)
  {
    out := contacts;
    for i := 0 to |rects|
      invariant out == contacts + TileContacts(rects, level, i)
    {
      var row := GatherTileRow(i, rects[i], level.tilesWithin(rects[i]));
      out := out + row;
    }
  }

  lemma {:induction false} TileRowSound(i: nat, r: Rect, tiles: seq<(Rect, TileData)>, n: nat)
    requires n <= |tiles|
    ensures forall c :: c in TileRow(i, r, tiles, n) ==>
      c.aIndex == i && c.aRect == r && c.bIndex == 0 &&
      (c.bRect, TileData(true)) in tiles[..n] &&
      Overlap(r, c.bRect) == Some(c.displacement)
  {
    if n > 0 {
      TileRowSound(i, r, tiles, n - 1);
      assert tiles[..n] == tiles[..n - 1] + [tiles[n - 1]];
    }
  }

  lemma {:induction false} TileRowComplete(i: nat, r: Rect, tiles: seq<(Rect, TileData)>, n: nat, j: nat)
    requires j < n <= |tiles| && tiles[j].1.solid && Intersect(r, tiles[j].0)
    ensures Contact(i, r, 0, tiles[j].0, Overlap(r, tiles[j].0).value) in TileRow(i, r, tiles, n)
  {
    if j < n - 1 {
      TileRowComplete(i, r, tiles, n - 1, j);
    }
  }

  /** Every tile contact pairs an in-range rectangle with a solid, overlapping
      tile of the level's answer for it. */
  lemma {:induction false} TileContactsSound<E>(rects: seq<Rect>, level: Level<E>, m: nat)
    requires m <= |rects|
    ensures forall c :: c in TileContacts(rects, level, m) ==> TileSound(c, rects, level) && c.aIndex < m
  {
    if m > 0 {
      TileContactsSound(rects, level, m - 1);
      var tiles := level.tilesWithin(rects[m - 1]);
      TileRowSound(m - 1, rects[m - 1], tiles, |tiles|);
      assert tiles[..|tiles|] == tiles;
    }
  }

  /** The index facts alone, which the grouping proof needs. */
  lemma {:induction false} TileRowIndex(i: nat, r: Rect, tiles: seq<(Rect, TileData)>, n: nat)
    requires n <= |tiles|
    ensures forall c :: c in TileRow(i, r, tiles, n) ==> c.aIndex == i
  {
    if n > 0 {
      TileRowIndex(i, r, tiles, n - 1);
    }
  }

  lemma {:induction false} TileContactsBelow<E>(rects: seq<Rect>, level: Level<E>, m: nat)
    requires m <= |rects|
    ensures forall c :: c in TileContacts(rects, level, m) ==> c.aIndex < m
  {
    if m > 0 {
      var tiles := level.tilesWithin(rects[m - 1]);
      var prev := TileContacts(rects, level, m - 1);
      var row := TileRow(m - 1, rects[m - 1], tiles, |tiles|);
      TileContactsBelow(rects, level, m - 1);
      TileRowIndex(m - 1, rects[m - 1], tiles, |tiles|);
      forall c | c in TileContacts(rects, level, m) ensures c.aIndex < m {
        assert c in prev || c in row;
      }
    }
  }

  /** Nondecreasing in aIndex: the contacts of one rectangle are contiguous. */
  predicate Grouped(p: seq<Contact>) {
    forall k, l :: 0 <= k < l < |p| ==> p[k].aIndex <= p[l].aIndex
  }

  lemma ConcatGrouped(q: seq<Contact>, r: seq<Contact>)
    requires Grouped(q) && Grouped(r)
    requires forall c, d :: c in q && d in r ==> c.aIndex <= d.aIndex
    ensures Grouped(q + r)
  {
    var p := q + r;
    forall k, l | 0 <= k < l < |p| ensures p[k].aIndex <= p[l].aIndex {
      if l < |q| {
        assert p[k] == q[k] && p[l] == q[l];
      } else if k < |q| {
        assert p[k] == q[k] && q[k] in q;
        assert p[l] == r[l - |q|] && r[l - |q|] in r;
      } else {
        assert p[k] == r[k - |q|] && p[l] == r[l - |q|];
      }
    }
  }

  /** Entries are grouped by rectangle, in rectangle order. */
  lemma {:induction false} TileContactsGrouped<E>(rects: seq<Rect>, level: Level<E>, m: nat)
    requires m <= |rects|
    ensures Grouped(TileContacts(rects, level, m))
  {
    if m > 0 {
      TileContactsGrouped(rects, level, m - 1);
      TileContactsBelow(rects, level, m - 1);
      var tiles := level.tilesWithin(rects[m - 1]);
      TileRowIndex(m - 1, rects[m - 1], tiles, |tiles|);
      var r := TileRow(m - 1, rects[m - 1], tiles, |tiles|);
      forall k, l | 0 <= k < l < |r| ensures r[k].aIndex <= r[l].aIndex {
        assert r[k] in r && r[l] in r;
      }
      ConcatGrouped(TileContacts(rects, level, m - 1), r);
    }
  }

  /** Every solid tile the level reports under a rectangle and that overlaps it is gathered. */
  lemma {:induction false} TileContactsComplete<E>(rects: seq<Rect>, level: Level<E>, m: nat, i: nat, j: nat)
    requires i < m <= |rects| && j < |level.tilesWithin(rects[i])|
    requires var t := level.tilesWithin(rects[i])[j]; t.1.solid && Intersect(rects[i], t.0)
    ensures var t := level.tilesWithin(rects[i])[j];
      Contact(i, rects[i], 0, t.0, Overlap(rects[i], t.0).value) in TileContacts(rects, level, m)
  {
    if i < m - 1 {
      TileContactsComplete(rects, level, m - 1, i, j);
    } else {
      var tiles := level.tilesWithin(rects[i]);
      TileRowComplete(i, rects[i], tiles, |tiles|, j);
    }
  }
}
