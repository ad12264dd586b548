/**
 Choosing an image from an ICO file (src/icon_loader/file.rs): every entry of the table must
 be in bounds and hold a valid image of the size it claims, and the largest one is taken.
 */
module Ico {
  import opened Png
  import opened Wrappers

  /** `u16` and `u32` from their bytes, least first. */
  function Little16(bytes: Bytes, at: nat): nat
    requires at + 2 <= |bytes|
  {
    (bytes[at] as int) + (bytes[at + 1] as int) * 0x100
  }

  function Little32(bytes: Bytes, at: nat): Option<nat> {
    if at + 4 > |bytes| then None
    else Some(Little16(bytes, at) + Little16(bytes, at + 2) * 0x1_0000)
  }

  function DivCeil(a: nat, n: nat): nat
    requires n > 0
  {
    (a + n - 1) / n
  }

  function Colors(bytes: Bytes, bits: nat): Option<nat> {
    if bits > 8 then Some(0)
    else
      var all := if bits == 1 then 2 else if bits == 4 then 16 else 256;
      var declared := match Little32(bytes, 32) case Some(n) => n case None => 0;
      if declared > all then None else if declared == 0 then Some(all) else Some(declared)
  }

  /** `valid_dib`: a bitmap header of a known kind, and room for its colours, its rows and its mask. */
  function ValidDib(bytes: Bytes, width: nat, height: nat): bool {
    if Little32(bytes, 0) !in {Some(40), Some(108), Some(124)} then false
    else if Little32(bytes, 4) != Some(width) || Little32(bytes, 8) != Some(height * 2) || |bytes| < 16
            || bytes[12..14] != [1, 0] || Little32(bytes, 16) != Some(0) then false
    else
      var bits := Little16(bytes, 14);
      if bits !in {1, 4, 8, 16, 24, 32} then false
      else
        match Colors(bytes, bits)
        case None => false
        case Some(colors) =>
          var stride := DivCeil(width * bits, 32) * 4;
          var mask := if bits == 32 then 0 else DivCeil(width, 32) * 4 * height;
          Little32(bytes, 0).value + colors * 4 + stride * height + mask <= |bytes|
  }

  predicate IsPngHead(bytes: Bytes) {
    |bytes| >= 4 && bytes[..4] == SIGNATURE[..4]
  }

  function ValidImage(bytes: Bytes, width: nat, height: nat): bool {
    if IsPngHead(bytes) then Dimensions(Crc, bytes) == Some((width, height)) else ValidDib(bytes, width, height)
  }

  /** A row of the table: where its image is and how large. */
  datatype Row = Row(offset: nat, length: nat, area: nat)

  function Side(b: Byte): nat {
    if b == 0 then 256 else b
  }

  function TableEnd(count: nat): nat {
    6 + count * 16
  }

  lemma RowsAreInside(index: nat, count: nat)
    requires index < count
    ensures TableEnd(index) + 16 <= TableEnd(count)
  {
  }

  /** What a row says: where its image is, how long, and how many pixels it has. */
  function ReadRow(bytes: Bytes, at: nat): Row
    requires at + 16 <= |bytes|
  {
    Row(Little32(bytes, at + 12).value, Little32(bytes, at + 8).value, Side(bytes[at]) * Side(bytes[at + 1]))
  }

  /** The image lies behind the table, inside the file. */
  predicate IsInside(r: Row, count: nat, size: nat) {
    0 < r.length && TableEnd(count) <= r.offset && r.offset + r.length <= size
  }

  /** Row `index`, if it is in order. */
  function RowAt(bytes: Bytes, count: nat, index: nat): (r: Option<Row>)
    requires index < count && TableEnd(count) <= |bytes|
    ensures r.Some? ==> IsInside(r.value, count, |bytes|)
  {
    var at := TableEnd(index);
    RowsAreInside(index, count);
    var r := ReadRow(bytes, at);
    if IsInside(r, count, |bytes|)
       && ValidImage(bytes[r.offset..r.offset + r.length], Side(bytes[at]), Side(bytes[at + 1])) then Some(r)
    else None
  }

  predicate HasTable(bytes: Bytes) {
    |bytes| >= 6 && bytes[..4] == [0, 0, 1, 0] && 0 < Little16(bytes, 4) <= 256
    && TableEnd(Little16(bytes, 4)) <= |bytes|
  }

  /** The first of the largest rows. */
  ghost predicate IsLargest(count: nat, row: nat -> Option<Row>, r: Row) {
    exists k: nat :: k < count && row(k) == Some(r)
      && (forall i: nat :: i < count && row(i).Some? ==> row(i).value.area <= r.area)
      && (forall i: nat :: i < k && row(i).Some? ==> row(i).value.area < r.area)
  }

  /** The loop over the table. */
  method Largest(count: nat, row: nat -> Option<Row>) returns (r: Option<Row>)
    requires count > 0
    ensures r.Some? <==> forall i: nat :: i < count ==> row(i).Some?
    ensures r.Some? ==> IsLargest(count, row, r.value)
  {
    r := None;
    ghost var best: nat := 0;
    var index: nat := 0;
    while index < count
      invariant index <= count && (r.Some? <==> index > 0)
      invariant forall i: nat :: i < index ==> row(i).Some?
      invariant r.Some? ==> best < index && row(best) == r
      invariant r.Some? ==> forall i: nat :: i < index ==> row(i).value.area <= r.value.area
      invariant r.Some? ==> forall i: nat :: i < best ==> row(i).value.area < r.value.area
    {
      var next := row(index);
      if next.None? {
        return None;
      }
      if r.None? || next.value.area > r.value.area {
        r := next;
        best := index;
      }
      index := index + 1;
    }
    assert row(best) == Some(r.value);
  }

  function Rows(bytes: Bytes): nat -> Option<Row>
    requires HasTable(bytes)
  {
    var count := Little16(bytes, 4);
    (i: nat) => if i < count then RowAt(bytes, count, i) else None
  }

  /** `ico_resource`: something is taken exactly when the table is there and all of it is in order; and
      what is taken is the first of the largest images. */
  method IcoResource(bytes: Bytes) returns (r: Option<Row>)
    ensures r.Some? <==> HasTable(bytes) && forall i: nat :: i < Little16(bytes, 4) ==> Rows(bytes)(i).Some?
    ensures r.Some? ==> IsLargest(Little16(bytes, 4), Rows(bytes), r.value)
    ensures r.Some? ==> 0 < r.value.length && r.value.offset + r.value.length <= |bytes|
  {
    if !HasTable(bytes) {
      return None;
    }
    r := Largest(Little16(bytes, 4), Rows(bytes));
  }
}
