/** What a stack of layers looks like, pixel by pixel, and what partial repaints do to one pixel. */
module Painting {
  import opened Common
  import opened FrameBuffers

  /** A layer as it is shown: its place, its picture, and the colour that means transparent. */
  datatype View = View(pos: Vector2D, width: nat, height: nat, image: Image, transparent: Option<Color>) {
    predicate Valid() {
      Sized(image, width, height)
    }

    function Area(): Rectangle {
      Rectangle(pos, Vector2D(width, height))
    }

    /** The colour that the layer has at a point of the screen, if it has one there. */
    function ColorAt(p: Vector2D): Option<Color>
      requires Valid()
    {
      if !Area().Contains(p) then None
      else
        var c := Pixel(image, width, height, p.Minus(pos));
        if transparent == Some(c) then None else Some(c)
    }

    /** What drawing the layer writes at p: transparent layers do not look at the area. */
    function Writes(area: Rectangle, p: Vector2D): Option<Color>
      requires Valid()
    {
      if transparent.None? && !area.Contains(p) then None else ColorAt(p)
    }
  }

  predicate AllValid(stack: seq<View>) {
    forall i :: 0 <= i < |stack| ==> stack[i].Valid()
  }

  /** The painter's algorithm: the colour of the topmost layer that has one at p, or what was there before. */
  function Paint(stack: seq<View>, p: Vector2D, c: Color): Color
    requires AllValid(stack)
  {
    if stack == [] then c
    else match stack[|stack| - 1].ColorAt(p)
         case Some(x) => x
         case None => Paint(stack[..|stack| - 1], p, c)
  }

  /** Drawing the layers of a stack one after the other, restricted to an area. */
  function Over(stack: seq<View>, area: Rectangle, p: Vector2D, c: Color): Color
    requires AllValid(stack)
  {
    if stack == [] then c
    else match stack[|stack| - 1].Writes(area, p)
         case Some(x) => x
         case None => Over(stack[..|stack| - 1], area, p, c)
  }

  /** Only the topmost layer may be transparent. */
  predicate OpaqueBelow(stack: seq<View>) {
    forall i :: 0 <= i < |stack| - 1 ==> stack[i].transparent.None?
  }

  /** The bottom layer hides what was there before. */
  predicate Backed(stack: seq<View>, p: Vector2D)
    requires AllValid(stack)
  {
    stack != [] && stack[0].ColorAt(p).Some?
  }

  /** The picture's pixel (x, y) is shown at that distance from the layer's place, unless it has no colour. */
  lemma ColorShown(v: View, x: int, y: int)
    requires v.Valid()
    ensures v.ColorAt(Vector2D(v.pos.x + x, v.pos.y + y)) ==
              if 0 <= x < v.width && 0 <= y < v.height && v.transparent != Some(v.image[y][x]) then Some(v.image[y][x])
              else None
  {
    assert Vector2D(v.pos.x + x, v.pos.y + y).Minus(v.pos) == Vector2D(x, y);
  }

  /** A point shows the colour of the highest layer that has one there. */
  lemma {:induction false} PaintTopmost(stack: seq<View>, k: nat, p: Vector2D, c: Color)
    requires AllValid(stack) && k <= |stack| && forall j :: k <= j < |stack| ==> stack[j].ColorAt(p).None?
    ensures k > 0 && stack[k - 1].ColorAt(p).Some? ==> Paint(stack, p, c) == stack[k - 1].ColorAt(p).value
    ensures k == 0 ==> Paint(stack, p, c) == c
    decreases |stack|
  {
    if k < |stack| {
      PaintTopmost(stack[..|stack| - 1], k, p, c);
    }
  }

  lemma OverNext(stack: seq<View>, v: View, area: Rectangle, p: Vector2D, c: Color)
    requires AllValid(stack) && v.Valid()
    ensures AllValid(stack + [v])
    ensures Over(stack + [v], area, p, c) ==
              match v.Writes(area, p) { case Some(x) => x case None => Over(stack, area, p, c) }
  {
    assert (stack + [v])[..|stack|] == stack;
  }

  /** Inside the area, drawing is painting. */
  lemma {:induction false} OverInside(stack: seq<View>, area: Rectangle, p: Vector2D, c: Color)
    requires AllValid(stack) && area.Contains(p)
    ensures Over(stack, area, p, c) == Paint(stack, p, c)
  {
    if stack != [] {
      OverInside(stack[..|stack| - 1], area, p, c);
    }
  }

  /** Outside the area, only a transparent topmost layer writes. */
  lemma {:induction false} OverOutside(stack: seq<View>, area: Rectangle, p: Vector2D, c: Color)
    requires AllValid(stack) && OpaqueBelow(stack) && !area.Contains(p)
    ensures Over(stack, area, p, c) ==
            if stack != [] && stack[|stack| - 1].transparent.Some? && stack[|stack| - 1].ColorAt(p).Some?
            then stack[|stack| - 1].ColorAt(p).value else c
  {
    if stack != [] {
      AllOpaqueOutside(stack[..|stack| - 1], area, p, c);
    }
  }

  lemma {:induction false} AllOpaqueOutside(stack: seq<View>, area: Rectangle, p: Vector2D, c: Color)
    requires AllValid(stack) && (forall i :: 0 <= i < |stack| ==> stack[i].transparent.None?) && !area.Contains(p)
    ensures Over(stack, area, p, c) == c
  {
    if stack != [] {
      AllOpaqueOutside(stack[..|stack| - 1], area, p, c);
    }
  }

  /** From a layer up that has a colour at p, nothing below matters. */
  lemma {:induction false} PaintFrom(stack: seq<View>, k: nat, p: Vector2D, c: Color, d: Color)
    requires AllValid(stack) && k < |stack| && stack[k].ColorAt(p).Some?
    ensures Paint(stack[k..], p, c) == Paint(stack, p, d)
    decreases |stack|
  {
    var top := |stack| - 1;
    if k < top {
      assert stack[k..][..|stack[k..]| - 1] == stack[..top][k..];
      PaintFrom(stack[..top], k, p, c, d);
    }
  }

  /** Painting again what the top layers of a stack show changes nothing. */
  lemma {:induction false} PaintAgain(stack: seq<View>, k: nat, p: Vector2D, c: Color)
    requires AllValid(stack) && k <= |stack|
    ensures Paint(stack[k..], p, Paint(stack, p, c)) == Paint(stack, p, c)
    decreases |stack|
  {
    if k < |stack| {
      var top := |stack| - 1;
      assert stack[k..][..|stack[k..]| - 1] == stack[..top][k..];
      if stack[top].ColorAt(p).None? {
        PaintAgain(stack[..top], k, p, c);
      }
    }
  }

  /** So does drawing them in any area. */
  lemma DrawAgain(stack: seq<View>, k: nat, area: Rectangle, p: Vector2D, c: Color)
    requires AllValid(stack) && OpaqueBelow(stack) && k < |stack|
    ensures Over(stack[k..], area, p, Paint(stack, p, c)) == Paint(stack, p, c)
  {
    if area.Contains(p) {
      OverInside(stack[k..], area, p, Paint(stack, p, c));
      PaintAgain(stack, k, p, c);
    } else {
      OverOutside(stack[k..], area, p, Paint(stack, p, c));
    }
  }

  /** A layer that has no colour at p does not matter there. */
  lemma {:induction false} PaintReplaced(stack: seq<View>, k: nat, v: View, p: Vector2D, c: Color)
    requires AllValid(stack) && v.Valid() && k < |stack| && stack[k].ColorAt(p).None? && v.ColorAt(p).None?
    ensures AllValid(stack[k := v]) && Paint(stack[k := v], p, c) == Paint(stack, p, c)
    decreases |stack|
  {
    var top := |stack| - 1;
    if k < top {
      assert stack[k := v][..top] == stack[..top][k := v];
      PaintReplaced(stack[..top], k, v, p, c);
    } else {
      assert stack[k := v][..top] == stack[..top];
    }
  }

  lemma {:induction false} PaintWithout(stack: seq<View>, k: nat, p: Vector2D, c: Color)
    requires AllValid(stack) && k < |stack| && stack[k].ColorAt(p).None?
    ensures AllValid(stack[..k] + stack[k + 1..])
    ensures Paint(stack[..k] + stack[k + 1..], p, c) == Paint(stack, p, c)
    decreases |stack|
  {
    var top := |stack| - 1;
    if k < top {
      assert (stack[..k] + stack[k + 1..])[..top - 1] == stack[..top][..k] + stack[..top][k + 1..];
      PaintWithout(stack[..top], k, p, c);
    } else {
      assert stack[..k] + stack[k + 1..] == stack[..top];
    }
  }

  lemma {:induction false} PaintBacked(stack: seq<View>, p: Vector2D, c: Color, d: Color)
    requires AllValid(stack) && Backed(stack, p)
    ensures Paint(stack, p, c) == Paint(stack, p, d)
  {
    if |stack| > 1 {
      PaintBacked(stack[..|stack| - 1], p, c, d);
    }
  }

  // ----- repaints of one pixel

  /** A pixel of the back buffer and of the screen. */
  datatype Shown = Shown(back: Color, screen: Color)

  /** LayerManager::Draw(area). */
  function DrawArea(stack: seq<View>, area: Rectangle, p: Vector2D, s: Shown): Shown
    requires AllValid(stack)
  {
    var back := Over(stack, area, p, s.back);
    Shown(back, if area.Contains(p) then back else s.screen)
  }

  /** LayerManager::Draw(id, area) for the k-th layer: it and those above it. */
  function DrawFrom(stack: seq<View>, k: nat, area: Rectangle, p: Vector2D, s: Shown): Shown
    requires AllValid(stack) && k <= |stack|
  {
    DrawArea(stack[k..], area, p, s)
  }

  predicate Clean(stack: seq<View>, p: Vector2D, s: Shown)
    requires AllValid(stack)
  {
    s.back == s.screen == Paint(stack, p, s.back)
  }

  /** Moving the k-th layer and painting its old place, then the layer, leaves the pixel as a full repaint would. */
  lemma MoveCleans(stack: seq<View>, k: nat, pos: Vector2D, p: Vector2D, s: Shown)
    requires AllValid(stack) && k < |stack| && OpaqueBelow(stack) && Backed(stack, p)
    requires Clean(stack, p, s) && Backed(stack[k := stack[k].(pos := pos)], p)
    ensures var stack' := stack[k := stack[k].(pos := pos)];
            var drawn := DrawArea(stack', stack[k].Area(), p, s);
            Clean(stack', p, DrawFrom(stack', k, stack'[k].Area(), p, drawn))
  {
    var v := stack[k].(pos := pos);
    var stack' := stack[k := v];
    var from := stack[k].Area();
    var drawn := DrawArea(stack', from, p, s);
    var want := Paint(stack', p, s.back);
    PaintBacked(stack', p, drawn.back, s.back);
    if from.Contains(p) {
      OverInside(stack', from, p, s.back);
    } else {
      OverOutside(stack', from, p, s.back);
      if !v.Area().Contains(p) {
        PaintReplaced(stack, k, v, p, s.back);
      }
    }
    if drawn.back == want {
      DrawAgain(stack', k, v.Area(), p, s.back);
      assert drawn.screen == want || v.Area().Contains(p);
    } else {
      OverInside(stack'[k..], v.Area(), p, drawn.back);
      if v.ColorAt(p).Some? {
        PaintFrom(stack', k, p, drawn.back, s.back);
      } else {
        PaintReplaced(stack, k, v, p, s.back);
      }
    }
    CleanIf(stack', p, DrawFrom(stack', k, v.Area(), p, drawn), want, s.back);
  }

  lemma CleanIf(stack: seq<View>, p: Vector2D, s: Shown, want: Color, c: Color)
    requires AllValid(stack) && Backed(stack, p) && s.back == s.screen == want == Paint(stack, p, c)
    ensures Clean(stack, p, s)
  {
    PaintBacked(stack, p, s.back, c);
  }

  /** If only the area of an opaque layer is out of date, drawing that layer repairs it. */
  lemma DrawCleans(stack: seq<View>, k: nat, p: Vector2D, s: Shown)
    requires AllValid(stack) && k < |stack| && OpaqueBelow(stack) && Backed(stack, p) && stack[k].transparent.None?
    requires !stack[k].Area().Contains(p) ==> Clean(stack, p, s)
    ensures Clean(stack, p, DrawFrom(stack, k, stack[k].Area(), p, s))
  {
    var area := stack[k].Area();
    if area.Contains(p) {
      OverInside(stack[k..], area, p, s.back);
      PaintFrom(stack, k, p, s.back, s.back);
    } else {
      DrawAgain(stack, k, area, p, s.back);
    }
    CleanIf(stack, p, DrawFrom(stack, k, area, p, s), Paint(stack, p, s.back), s.back);
  }

  /** Drawing everything in an area makes it clean there. */
  lemma DrawAreaCleans(stack: seq<View>, area: Rectangle, p: Vector2D, s: Shown)
    requires AllValid(stack) && OpaqueBelow(stack) && Backed(stack, p)
    requires !area.Contains(p) ==> Clean(stack, p, s)
    ensures Clean(stack, p, DrawArea(stack, area, p, s))
  {
    if area.Contains(p) {
      OverInside(stack, area, p, s.back);
    } else {
      assert stack[0..] == stack;
      DrawAgain(stack, 0, area, p, s.back);
    }
    CleanIf(stack, p, DrawArea(stack, area, p, s), Paint(stack, p, s.back), s.back);
  }

  /** Moving a layer up or down in the stack changes nothing where it has no colour. */
  lemma ReorderedOutside(others: seq<View>, v: View, i: nat, j: nat, p: Vector2D, c: Color)
    requires AllValid(others) && v.Valid() && i <= |others| && j <= |others| && v.ColorAt(p).None?
    ensures AllValid(others[..i] + [v] + others[i..]) && AllValid(others[..j] + [v] + others[j..])
    ensures Paint(others[..i] + [v] + others[i..], p, c) == Paint(others[..j] + [v] + others[j..], p, c)
  {
    var a, b := others[..i] + [v] + others[i..], others[..j] + [v] + others[j..];
    PaintWithout(a, i, p, c);
    PaintWithout(b, j, p, c);
    assert a[..i] + a[i + 1..] == others && b[..j] + b[j + 1..] == others;
  }

  /** Closing a layer and painting its place leaves the pixel as a full repaint would. */
  lemma CloseCleans(stack: seq<View>, k: nat, p: Vector2D, s: Shown)
    requires AllValid(stack) && k < |stack| && Clean(stack, p, s) && OpaqueBelow(stack)
    requires AllValid(stack[..k] + stack[k + 1..]) && Backed(stack[..k] + stack[k + 1..], p) && Backed(stack, p)
    ensures var rest := stack[..k] + stack[k + 1..]; Clean(rest, p, DrawArea(rest, stack[k].Area(), p, s))
  {
    var rest := stack[..k] + stack[k + 1..];
    if !stack[k].Area().Contains(p) {
      PaintWithout(stack, k, p, s.back);
    }
    DrawAreaCleans(rest, stack[k].Area(), p, s);
  }

  // ----- transparent layers that are not topmost

  /** The colour of the topmost transparent layer that has one at p. */
  function Stray(stack: seq<View>, p: Vector2D): Option<Color>
    requires AllValid(stack)
  {
    if stack == [] then None
    else
      var v := stack[|stack| - 1];
      if v.transparent.Some? && v.ColorAt(p).Some? then v.ColorAt(p) else Stray(stack[..|stack| - 1], p)
  }

  lemma {:induction false} OverOutsideIs(stack: seq<View>, area: Rectangle, p: Vector2D, c: Color)
    requires AllValid(stack) && !area.Contains(p)
    ensures Over(stack, area, p, c) == match Stray(stack, p) { case Some(x) => x case None => c }
  {
    if stack != [] {
      OverOutsideIs(stack[..|stack| - 1], area, p, c);
    }
  }

  /**
   * Whichever layers are transparent: a repaint of some area leaves a clean pixel outside it clean
   * exactly when no transparent layer has a colour there, or the one that wins is what the pixel should show.
   */
  lemma StaysCleanIff(stack: seq<View>, area: Rectangle, p: Vector2D, s: Shown)
    requires AllValid(stack) && Clean(stack, p, s) && Backed(stack, p) && !area.Contains(p)
    ensures Clean(stack, p, DrawArea(stack, area, p, s)) <==>
              Stray(stack, p) == None || Stray(stack, p) == Some(Paint(stack, p, s.back))
  {
    OverOutsideIs(stack, area, p, s.back);
    PaintBacked(stack, p, DrawArea(stack, area, p, s).back, s.back);
  }

  /** A transparent layer under an opaque one comes to the front when something else is repainted. */
  lemma StrayExample()
    ensures var p, white, red, blue := Vector2D(0, 0), Color(255, 255, 255), Color(255, 0, 0), Color(0, 0, 255);
            var stack := [View(p, 2, 1, [[white, white]], None), View(p, 1, 1, [[red]], Some(white)),
              View(p, 1, 1, [[blue]], None)];
            var s := Shown(blue, blue);
            var area := Rectangle(Vector2D(1, 0), Vector2D(1, 1));
            && AllValid(stack) && Clean(stack, p, s) && !area.Contains(p) && DrawArea(stack, area, p, s).back == red
  {
    var p, white, red, blue := Vector2D(0, 0), Color(255, 255, 255), Color(255, 0, 0), Color(0, 0, 255);
    var a, b, c := View(p, 2, 1, [[white, white]], None), View(p, 1, 1, [[red]], Some(white)),
      View(p, 1, 1, [[blue]], None);
    var area := Rectangle(Vector2D(1, 0), Vector2D(1, 1));
    OverNext([a, b], c, area, p, blue);
    OverNext([a], b, area, p, blue);
    assert [a, b] + [c] == [a, b, c] && [a] + [b] == [a, b];
  }
}
