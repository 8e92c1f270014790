/** Rectangles and frame buffers (kernel/graphics.hpp:34-89, kernel/frame_buffer.cpp). */
module FrameBuffers {
  import opened Common

  datatype Color = Color(r: Byte, g: Byte, b: Byte)

  datatype Vector2D = Vector2D(x: int, y: int) {
    function Plus(v: Vector2D): Vector2D { Vector2D(x + v.x, y + v.y) }
    function Minus(v: Vector2D): Vector2D { Vector2D(x - v.x, y - v.y) }
  }

  function ElementMax(a: Vector2D, b: Vector2D): Vector2D {
    Vector2D(Max(a.x, b.x), Max(a.y, b.y))
  }

  function ElementMin(a: Vector2D, b: Vector2D): Vector2D {
    Vector2D(Min(a.x, b.x), Min(a.y, b.y))
  }

  datatype Rectangle = Rectangle(pos: Vector2D, size: Vector2D) {
    predicate Contains(p: Vector2D) {
      pos.x <= p.x < pos.x + size.x && pos.y <= p.y < pos.y + size.y
    }

    /** operator&. Rectangles that only touch have an empty intersection at the place where they touch. */
    function And(other: Rectangle): Rectangle {
      var end, otherEnd := pos.Plus(size), other.pos.Plus(other.size);
      if end.x < other.pos.x || end.y < other.pos.y || otherEnd.x < pos.x || otherEnd.y < pos.y then
        Rectangle(Vector2D(0, 0), Vector2D(0, 0))
      else
        var newPos := ElementMax(pos, other.pos);
        Rectangle(newPos, ElementMin(end, otherEnd).Minus(newPos))
    }
  }

  predicate Proper(r: Rectangle) {
    r.size.x >= 0 && r.size.y >= 0
  }

  /** The intersection holds exactly the points of both, whatever the rectangles are. */
  lemma AndContains(a: Rectangle, b: Rectangle, p: Vector2D)
    ensures a.And(b).Contains(p) <==> a.Contains(p) && b.Contains(p)
  {
  }

  /** Intersections of proper rectangles are proper, and inside both unless they are empty. */
  lemma AndProper(a: Rectangle, b: Rectangle)
    requires Proper(a) && Proper(b)
    ensures Proper(a.And(b))
    ensures var r := a.And(b);
            r.size.x > 0 && r.size.y > 0 ==>
              && a.pos.x <= r.pos.x && r.pos.x + r.size.x <= a.pos.x + a.size.x
              && a.pos.y <= r.pos.y && r.pos.y + r.size.y <= a.pos.y + a.size.y
              && b.pos.x <= r.pos.x && r.pos.x + r.size.x <= b.pos.x + b.size.x
              && b.pos.y <= r.pos.y && r.pos.y + r.size.y <= b.pos.y + b.size.y
  {
  }

  // ----- images

  type Image = seq<seq<Color>>

  predicate Sized(img: Image, width: nat, height: nat) {
    |img| == height && forall y :: 0 <= y < height ==> |img[y]| == width
  }

  predicate InImage(width: nat, height: nat, p: Vector2D) {
    0 <= p.x < width && 0 <= p.y < height
  }

  function Pixel(img: Image, width: nat, height: nat, p: Vector2D): Color
    requires Sized(img, width, height) && InImage(width, height, p)
  {
    img[p.y][p.x]
  }

  /** memcpy from one row to another. */
  function RowCopied(row: seq<Color>, x: nat, src: seq<Color>, sx: nat, n: nat): (r: seq<Color>)
    requires x + n <= |row| && sx + n <= |src|
    ensures |r| == |row|
    ensures forall i :: 0 <= i < |row| ==> r[i] == if x <= i < x + n then src[sx + (i - x)] else row[i]
  {
    row[..x] + src[sx..sx + n] + row[x + n..]
  }

  /** What a copy leaves: the pixels of the area come from the source, moved by `shift`; the others stay. */
  ghost predicate IsCopy(before: Image, after: Image, width: nat, height: nat, src: Image, srcWidth: nat,
                         srcHeight: nat,
                         area: Rectangle, shift: Vector2D)
  {
    && Sized(before, width, height) && Sized(after, width, height) && Sized(src, srcWidth, srcHeight)
    && forall p: Vector2D :: InImage(width, height, p) ==>
         if area.Contains(p) && InImage(srcWidth, srcHeight, p.Minus(shift))
         then Pixel(after, width, height, p) == Pixel(src, srcWidth, srcHeight, p.Minus(shift))
         else Pixel(after, width, height, p) == Pixel(before, width, height, p)
  }

  class FrameBuffer {
    const width: nat
    const height: nat
    var rows: Image

    constructor (width: nat, height: nat)
      ensures this.width == width && this.height == height && Valid()
    {
      this.width, this.height := width, height;
      rows := seq(height, _ => seq(width, _ => Color(0, 0, 0)));
    }

    predicate Valid()
      reads this
    {
      Sized(rows, width, height)
    }

    function Outline(): Rectangle {
      Rectangle(Vector2D(0, 0), Vector2D(width, height))
    }

    /** A writer's Write. */
    method Write(p: Vector2D, c: Color)
      requires Valid() && InImage(width, height, p)
      modifies this
      ensures Valid() && rows == old(rows)[p.y := old(rows)[p.y][p.x := c]]
    {
      rows := rows[p.y := rows[p.y][p.x := c]];
    }

    /** Copy: clipped to both buffers, row by row. */
    method Copy(dstPos: Vector2D, src: FrameBuffer, srcArea: Rectangle)
      requires Valid() && src.Valid() && src != this && Proper(srcArea)
      modifies this
      ensures Valid()
      ensures IsCopy(old(rows), rows, width, height, src.rows, src.width, src.height,
                     Rectangle(dstPos, srcArea.size), dstPos.Minus(srcArea.pos))
    {
      hide Copying, Rectangle.And, IsCopy, Fits;
      var shift := dstPos.Minus(srcArea.pos);
      var srcAreaShifted := Rectangle(dstPos, srcArea.size);
      var srcOutline := Rectangle(shift, Vector2D(src.width, src.height));
      var copyArea := Outline().And(srcOutline).And(srcAreaShifted);
      ClippedFits(width, height, src.width, src.height, srcAreaShifted, shift);
      var srcStart := copyArea.pos.Minus(shift);
      ghost var before := rows;
      CopyStarts(before, width, height, src.rows, src.width, src.height, copyArea, shift);
      var y: nat := 0;
      while y < copyArea.size.y
        invariant y <= copyArea.size.y
        invariant Copying(before, rows, width, height, src.rows, src.width, src.height, copyArea, shift, y)
      {
        CopyRow(before, rows, width, height, src.rows, src.width, src.height, copyArea, shift, y);
        if copyArea.size.x > 0 {
          var j := copyArea.pos.y + y;
          rows := rows[j := RowCopied(rows[j], copyArea.pos.x, src.rows[srcStart.y + y], srcStart.x, copyArea.size.x)];
        }
        y := y + 1;
      }
      CopyDone(before, rows, width, height, src.rows, src.width, src.height, srcAreaShifted, shift);
    }

    /**
     * Move: a rectangle of the buffer goes to another place in it, even if the two overlap. Rows are copied with
     * memcpy, so a move within the same rows must not overlap.
     */
    method Move(dstPos: Vector2D, src: Rectangle)
      requires Valid() && Proper(src) && Inside(src) && Inside(Rectangle(dstPos, src.size))
      requires dstPos.y == src.pos.y ==>
                dstPos.x == src.pos.x || dstPos.x + src.size.x <= src.pos.x || src.pos.x + src.size.x <= dstPos.x
      modifies this
      ensures Valid()
      ensures IsCopy(old(rows), rows, width, height, old(rows), width, height, Rectangle(dstPos, src.size),
                dstPos.Minus(src.pos))
    {
      hide RowCopied, Moving;
      ghost var before := rows;
      var n: nat := src.size.y;
      var y: nat := 0;
      if dstPos.y < src.pos.y {
        MoveNothing(before, width, height, dstPos, src, 0);
        while y < n
          invariant y <= n && Moving(before, rows, width, height, dstPos, src, 0, y)
        {
          MoveRow(before, rows, width, height, dstPos, src, 0, y, y);
          rows := rows[dstPos.y + y :=
            RowCopied(rows[dstPos.y + y], dstPos.x, rows[src.pos.y + y], src.pos.x, src.size.x)];
          y := y + 1;
        }
      } else {
        MoveNothing(before, width, height, dstPos, src, n);
        while y < n
          invariant y <= n && Moving(before, rows, width, height, dstPos, src, n - y, n)
        {
          var k: nat := n - 1 - y;
          MoveRow(before, rows, width, height, dstPos, src, n - y, n, k);
          rows := rows[dstPos.y + k :=
            RowCopied(rows[dstPos.y + k], dstPos.x, rows[src.pos.y + k], src.pos.x, src.size.x)];
          y := y + 1;
        }
      }
      MoveDone(before, rows, width, height, dstPos, src);
    }

    predicate Inside(r: Rectangle) {
      0 <= r.pos.x && r.pos.x + r.size.x <= width && 0 <= r.pos.y && r.pos.y + r.size.y <= height
    }
  }

  /** Row j of the destination after a move. */
  function MovedRow(before: Image, width: nat, height: nat, dstPos: Vector2D, src: Rectangle, j: int): seq<Color>
    requires Sized(before, width, height) && Proper(src) && dstPos.y <= j < dstPos.y + src.size.y
    requires 0 <= dstPos.x && dstPos.x + src.size.x <= width && 0 <= dstPos.y && dstPos.y + src.size.y <= height
    requires 0 <= src.pos.x && src.pos.x + src.size.x <= width && 0 <= src.pos.y && src.pos.y + src.size.y <= height
  {
    RowCopied(before[j], dstPos.x, before[src.pos.y + (j - dstPos.y)], src.pos.x, src.size.x)
  }

  /** Both rectangles of a move are in the buffer. */
  predicate CanMove(before: Image, width: nat, height: nat, dstPos: Vector2D, src: Rectangle) {
    && Sized(before, width, height) && Proper(src)
    && 0 <= dstPos.x && dstPos.x + src.size.x <= width && 0 <= dstPos.y && dstPos.y + src.size.y <= height
    && 0 <= src.pos.x && src.pos.x + src.size.x <= width && 0 <= src.pos.y && src.pos.y + src.size.y <= height
  }

  /** The rows of the destination from `from` to `to` have been moved. */
  ghost predicate Moving(before: Image, rows: Image, width: nat, height: nat, dstPos: Vector2D, src: Rectangle,
                         from: nat, to: nat) {
    && CanMove(before, width, height, dstPos, src) && Sized(rows, width, height) && from <= to <= src.size.y
    && forall j {:trigger rows[j]} :: 0 <= j < height ==>
         rows[j] == if dstPos.y + from <= j < dstPos.y + to then MovedRow(before, width, height, dstPos, src, j)
                    else before[j]
  }

  lemma MoveNothing(before: Image, width: nat, height: nat, dstPos: Vector2D, src: Rectangle, k: nat)
    requires CanMove(before, width, height, dstPos, src) && k <= src.size.y
    ensures Moving(before, before, width, height, dstPos, src, k, k)
  {
  }

  /** The next row comes from one that has not been overwritten. */
  lemma MoveRow(before: Image, rows: Image, width: nat, height: nat, dstPos: Vector2D, src: Rectangle, from: nat,
                to: nat, k: nat)
    requires Moving(before, rows, width, height, dstPos, src, from, to) && k < src.size.y
    requires if dstPos.y < src.pos.y then from == 0 && to == k else from == k + 1
    ensures 0 <= dstPos.y + k < |rows| && 0 <= src.pos.y + k < |rows|
    ensures dstPos.x + src.size.x <= |rows[dstPos.y + k]| && src.pos.x + src.size.x <= |rows[src.pos.y + k]|
    ensures var rows' :=
              rows[dstPos.y + k := RowCopied(rows[dstPos.y + k], dstPos.x, rows[src.pos.y + k], src.pos.x, src.size.x)];
            Moving(before, rows', width, height, dstPos, src,
                   if from == 0 then 0 else k, if from == 0 then k + 1 else to)
  {
    hide RowCopied;
    assert rows[dstPos.y + k] == before[dstPos.y + k] && rows[src.pos.y + k] == before[src.pos.y + k];
  }

  lemma MovedPixel(before: Image, rows: Image, width: nat, height: nat, dstPos: Vector2D, src: Rectangle, p: Vector2D)
    requires Proper(src) && Moving(before, rows, width, height, dstPos, src, 0, src.size.y) && InImage(width, height, p)
    ensures Sized(rows, width, height) && Sized(before, width, height)
    ensures var q := p.Minus(dstPos.Minus(src.pos));
            if Rectangle(dstPos, src.size).Contains(p)
            then InImage(width, height, q) && Pixel(rows, width, height, p) == Pixel(before, width, height, q)
            else Pixel(rows, width, height, p) == Pixel(before, width, height, p)
  {
    hide RowCopied;
    var j := p.y;
    if dstPos.y <= j < dstPos.y + src.size.y {
      var row := MovedRow(before, width, height, dstPos, src, j);
      assert rows[j] == row;
    }
  }

  lemma MoveDone(before: Image, rows: Image, width: nat, height: nat, dstPos: Vector2D, src: Rectangle)
    requires Proper(src) && Moving(before, rows, width, height, dstPos, src, 0, src.size.y)
    ensures Sized(rows, width, height)
    ensures IsCopy(before, rows, width, height, before, width, height, Rectangle(dstPos, src.size),
              dstPos.Minus(src.pos))
  {
    hide Moving;
    MoveSized(before, rows, width, height, dstPos, src);
    forall p: Vector2D | InImage(width, height, p)
      ensures if Rectangle(dstPos, src.size).Contains(p) && InImage(width, height, p.Minus(dstPos.Minus(src.pos)))
              then Pixel(rows, width, height, p) == Pixel(before, width, height, p.Minus(dstPos.Minus(src.pos)))
              else Pixel(rows, width, height, p) == Pixel(before, width, height, p)
    {
      MovedPixel(before, rows, width, height, dstPos, src, p);
    }
  }

  lemma MoveSized(before: Image, rows: Image, width: nat, height: nat, dstPos: Vector2D, src: Rectangle)
    requires Proper(src) && Moving(before, rows, width, height, dstPos, src, 0, src.size.y)
    ensures Sized(rows, width, height) && Sized(before, width, height)
  {
  }

  /** The part of the area that is in both images. */
  function Clipped(width: nat, height: nat, srcWidth: nat, srcHeight: nat, area: Rectangle,
                   shift: Vector2D): Rectangle {
    Rectangle(Vector2D(0, 0), Vector2D(width, height)).And(Rectangle(shift, Vector2D(srcWidth, srcHeight))).And(area)
  }

  /** Inside both images, if there is anything in the rectangle. */
  predicate Fits(width: nat, height: nat, srcWidth: nat, srcHeight: nat, r: Rectangle, shift: Vector2D) {
    && Proper(r)
    && (r.size.x > 0 && r.size.y > 0 ==>
          && 0 <= r.pos.x && r.pos.x + r.size.x <= width && 0 <= r.pos.y && r.pos.y + r.size.y <= height
          && shift.x <= r.pos.x && r.pos.x + r.size.x <= shift.x + srcWidth
          && shift.y <= r.pos.y && r.pos.y + r.size.y <= shift.y + srcHeight)
  }

  /** The state of Copy's loop: y rows have been copied. */
  ghost predicate Copying(before: Image, rows: Image, width: nat, height: nat, src: Image, srcWidth: nat,
                          srcHeight: nat,
                          r: Rectangle, shift: Vector2D, y: nat)
  {
    && Sized(before, width, height) && Sized(rows, width, height) && Sized(src, srcWidth, srcHeight)
    && Fits(width, height, srcWidth, srcHeight, r, shift)
    && forall j :: 0 <= j < height ==>
         if r.pos.y <= j < r.pos.y + y && r.size.x > 0
         then RowIsCopy(before[j], rows[j], src, srcWidth, srcHeight, r, shift, j)
         else rows[j] == before[j]
  }

  lemma CopyStarts(before: Image, width: nat, height: nat, src: Image, srcWidth: nat, srcHeight: nat, r: Rectangle,
                   shift: Vector2D)
    requires Sized(before, width, height) && Sized(src, srcWidth, srcHeight)
    requires Fits(width, height, srcWidth, srcHeight, r, shift)
    ensures Copying(before, before, width, height, src, srcWidth, srcHeight, r, shift, 0)
  {
  }

  lemma CopyRow(before: Image, rows: Image, width: nat, height: nat, src: Image, srcWidth: nat, srcHeight: nat,
                r: Rectangle, shift: Vector2D, y: nat)
    requires Copying(before, rows, width, height, src, srcWidth, srcHeight, r, shift, y) && y < r.size.y
    ensures r.size.x > 0 ==>
              var j, s := r.pos.y + y, r.pos.Minus(shift);
              && 0 <= j < |rows| && 0 <= s.y + y < |src| && 0 <= r.pos.x && r.pos.x + r.size.x <= |rows[j]|
              && 0 <= s.x && s.x + r.size.x <= |src[s.y + y]|
              && Copying(before, rows[j := RowCopied(rows[j], r.pos.x, src[s.y + y], s.x, r.size.x)], width, height,
                         src, srcWidth, srcHeight, r, shift, y + 1)
    ensures r.size.x <= 0 ==> Copying(before, rows, width, height, src, srcWidth, srcHeight, r, shift, y + 1)
  {
  }

  lemma CopyDone(before: Image, rows: Image, width: nat, height: nat, src: Image, srcWidth: nat, srcHeight: nat,
                 area: Rectangle, shift: Vector2D)
    requires var r := Clipped(width, height, srcWidth, srcHeight, area, shift);
             r.size.y >= 0 && Copying(before, rows, width, height, src, srcWidth, srcHeight, r, shift, r.size.y)
    ensures IsCopy(before, rows, width, height, src, srcWidth, srcHeight, area, shift)
  {
    var r := Clipped(width, height, srcWidth, srcHeight, area, shift);
    var dst, outline := Rectangle(Vector2D(0, 0), Vector2D(width, height)),
      Rectangle(shift, Vector2D(srcWidth, srcHeight));
    forall p: Vector2D | InImage(width, height, p)
      ensures if area.Contains(p) && InImage(srcWidth, srcHeight, p.Minus(shift))
              then Pixel(rows, width, height, p) == Pixel(src, srcWidth, srcHeight, p.Minus(shift))
              else Pixel(rows, width, height, p) == Pixel(before, width, height, p)
    {
      AndContains(dst.And(outline), area, p);
      AndContains(dst, outline, p);
      assert r.Contains(p) <==> area.Contains(p) && InImage(srcWidth, srcHeight, p.Minus(shift));
      assert rows[p.y] == before[p.y] || RowIsCopy(before[p.y], rows[p.y], src, srcWidth, srcHeight, r, shift, p.y);
    }
  }

  /** Row j after a copy. */
  ghost predicate RowIsCopy(before: seq<Color>, after: seq<Color>, src: Image, srcWidth: nat, srcHeight: nat,
                            area: Rectangle,
                            shift: Vector2D, j: int)
    requires Sized(src, srcWidth, srcHeight)
  {
    && |after| == |before| && 0 <= j - shift.y < srcHeight
    && forall i :: 0 <= i < |before| ==>
         if area.pos.x <= i < area.pos.x + area.size.x
         then 0 <= i - shift.x < srcWidth && after[i] == src[j - shift.y][i - shift.x]
         else after[i] == before[i]
  }

  lemma ClippedFits(width: nat, height: nat, srcWidth: nat, srcHeight: nat, area: Rectangle, shift: Vector2D)
    requires Proper(area)
    ensures Fits(width, height, srcWidth, srcHeight, Clipped(width, height, srcWidth, srcHeight, area, shift), shift)
    ensures Proper(Clipped(width, height, srcWidth, srcHeight, area, shift))
  {
    hide Rectangle.And;
    var dst, src := Rectangle(Vector2D(0, 0), Vector2D(width, height)), Rectangle(shift, Vector2D(srcWidth, srcHeight));
    AndProper(dst, src);
    AndProper(dst.And(src), area);
    var r := dst.And(src).And(area);
    assert r.size.x > 0 && r.size.y > 0 ==> dst.And(src).size.x > 0 && dst.And(src).size.y > 0;
  }
}
