/** Windows, layers and their manager (kernel/window.cpp:76-98, kernel/layer.cpp). */
module Layers {
  import opened Common
  import opened FrameBuffers
  import opened Painting

  /** The pixels of an image after a layer has been drawn on it. */
  ghost predicate Drawn(before: Image, after: Image, width: nat, height: nat, v: View, area: Rectangle)
    requires v.Valid()
  {
    && Sized(before, width, height) && Sized(after, width, height)
    && forall p: Vector2D :: InImage(width, height, p) ==>
         Pixel(after, width, height, p) ==
           match v.Writes(area, p) { case Some(c) => c case None => Pixel(before, width, height, p) }
  }

  class Window {
    const width: nat
    const height: nat
    const shadow: FrameBuffer
    var data: Image
    var transparentColor: Option<Color>

    constructor (width: nat, height: nat)
      ensures this.width == width && this.height == height && Valid() && fresh(shadow) && transparentColor == None
    {
      this.width, this.height := width, height;
      shadow := new FrameBuffer(width, height);
      data := seq(height, _ => seq(width, _ => Color(0, 0, 0)));
      transparentColor := None;
    }

    predicate Valid()
      reads this, shadow
    {
      Sized(data, width, height) && shadow.width == width && shadow.height == height && shadow.Valid()
    }

    /** How the window looks at a place of the screen. */
    function ViewAt(pos: Vector2D): (v: View)
      requires Valid()
      reads this, shadow
      ensures v.Valid()
    {
      View(pos, width, height, if transparentColor.None? then shadow.rows else data, transparentColor)
    }

    function At(p: Vector2D): Color
      requires Valid() && InImage(width, height, p)
      reads this, shadow
    {
      data[p.y][p.x]
    }

    /** Write: into the window's data and its shadow buffer. */
    method Write(p: Vector2D, c: Color)
      requires Valid() && InImage(width, height, p)
      modifies this, shadow
      ensures Valid() && transparentColor == old(transparentColor)
      ensures data == old(data)[p.y := old(data)[p.y][p.x := c]]
      ensures shadow.rows == old(shadow.rows)[p.y := old(shadow.rows)[p.y][p.x := c]]
    {
      data := data[p.y := data[p.y][p.x := c]];
      shadow.Write(p, c);
    }

    /** DrawTo: opaque windows copy the part in the area from the shadow buffer, transparent ones all their pixels. */
    method DrawTo(dst: FrameBuffer, pos: Vector2D, area: Rectangle)
      requires Valid() && dst.Valid() && dst != shadow && Proper(area)
      modifies dst
      ensures dst.Valid() && Drawn(old(dst.rows), dst.rows, dst.width, dst.height, ViewAt(pos), area)
    {
      hide Drawing, Drawn, IsCopy, Rectangle.And;
      ghost var before, v := dst.rows, ViewAt(pos);
      if transparentColor.None? {
        var windowArea := Rectangle(pos, Vector2D(width, height));
        var intersection := area.And(windowArea);
        AndProper(area, windowArea);
        dst.Copy(intersection.pos, shadow, Rectangle(intersection.pos.Minus(pos), intersection.size));
        CopyDraws(before, dst.rows, dst.width, dst.height, v, area);
        return;
      }
      var tc := transparentColor.value;
      var y := Max(0, 0 - pos.y);
      var yEnd := Min(height, dst.height - pos.y);
      var xBegin, xEnd := Max(0, 0 - pos.x), Min(width, dst.width - pos.x);
      DrawingStarts(before, dst.width, dst.height, v, y);
      while y < yEnd
        invariant 0 <= y && dst.Valid() && v == ViewAt(pos)
        invariant Drawing(before, dst.rows, dst.width, dst.height, v, Max(0, 0 - pos.y), y, 0)
      {
        var x := xBegin;
        DrawingRow(before, dst.rows, dst.width, dst.height, v, Max(0, 0 - pos.y), y, 0, xBegin);
        while x < xEnd
          invariant xBegin <= x && dst.Valid() && v == ViewAt(pos)
          invariant Drawing(before, dst.rows, dst.width, dst.height, v, Max(0, 0 - pos.y), y, x)
        {
          DrawingPixel(before, dst.rows, dst.width, dst.height, v, Max(0, 0 - pos.y), y, x);
          var c := At(Vector2D(x, y));
          if c != tc {
            dst.Write(pos.Plus(Vector2D(x, y)), c);
          }
          x := x + 1;
        }
        DrawingRowDone(before, dst.rows, dst.width, dst.height, v, Max(0, 0 - pos.y), y, x);
        y := y + 1;
      }
      DrawingDone(before, dst.rows, dst.width, dst.height, v, Max(0, 0 - pos.y), y, area);
    }
  }

  /** A copy of the common part of area and window is what drawing an opaque layer means. */
  lemma CopyDraws(before: Image, after: Image, width: nat, height: nat, v: View, area: Rectangle)
    requires v.Valid() && v.transparent.None?
    requires var r := area.And(v.Area()); IsCopy(before, after, width, height, v.image, v.width, v.height, r, v.pos)
    ensures Drawn(before, after, width, height, v, area)
  {
    hide Rectangle.And;
    forall p: Vector2D | InImage(width, height, p)
      ensures Pixel(after, width, height, p) ==
                match v.Writes(area, p) { case Some(c) => c case None => Pixel(before, width, height, p) }
    {
      AndContains(area, v.Area(), p);
    }
  }

  /** The loops over a transparent window have come to pixel (x, y) of the window. */
  ghost predicate Drawing(before: Image, rows: Image, width: nat, height: nat, v: View, yBegin: int, y: int, x: int)
    requires v.Valid()
  {
    && Sized(before, width, height) && Sized(rows, width, height)
    && forall p: Vector2D :: InImage(width, height, p) ==>
         var q := p.Minus(v.pos);
         Pixel(rows, width, height, p) ==
         if yBegin <= q.y && (q.y < y || (q.y == y && q.x < x)) && v.ColorAt(p).Some? then v.ColorAt(p).value
         else Pixel(before, width, height, p)
  }

  lemma DrawingStarts(before: Image, width: nat, height: nat, v: View, y: int)
    requires v.Valid() && Sized(before, width, height)
    ensures Drawing(before, before, width, height, v, y, y, 0)
  {
  }

  /** Pixels left of the screen are skipped. */
  lemma DrawingRow(before: Image, rows: Image, width: nat, height: nat, v: View, yBegin: int, y: int, x: int,
                   xBegin: int)
    requires v.Valid() && Drawing(before, rows, width, height, v, yBegin, y, x)
    requires x == 0 && xBegin == Max(0, 0 - v.pos.x)
    ensures Drawing(before, rows, width, height, v, yBegin, y, xBegin)
  {
  }

  lemma DrawingPixel(before: Image, rows: Image, width: nat, height: nat, v: View, yBegin: int, y: int, x: int)
    requires v.Valid() && v.transparent.Some? && Drawing(before, rows, width, height, v, yBegin, y, x)
    requires yBegin == Max(0, 0 - v.pos.y) <= y < Min(v.height, height - v.pos.y)
    requires Max(0, 0 - v.pos.x) <= x < Min(v.width, width - v.pos.x)
    ensures InImage(v.width, v.height, Vector2D(x, y)) && InImage(width, height, v.pos.Plus(Vector2D(x, y)))
    ensures var p, c := v.pos.Plus(Vector2D(x, y)), v.image[y][x];
            && (c == v.transparent.value ==> Drawing(before, rows, width, height, v, yBegin, y, x + 1))
            && (c != v.transparent.value ==>
                  Drawing(before, rows[p.y := rows[p.y][p.x := c]], width, height, v, yBegin, y, x + 1))
  {
  }

  lemma DrawingRowDone(before: Image, rows: Image, width: nat, height: nat, v: View, yBegin: int, y: int, x: int)
    requires v.Valid() && Drawing(before, rows, width, height, v, yBegin, y, x)
    requires x >= Min(v.width, width - v.pos.x)
    ensures Drawing(before, rows, width, height, v, yBegin, y + 1, 0)
  {
  }

  lemma DrawingDone(before: Image, rows: Image, width: nat, height: nat, v: View, yBegin: int, y: int, area: Rectangle)
    requires v.Valid() && v.transparent.Some? && Drawing(before, rows, width, height, v, yBegin, y, 0)
    requires yBegin == Max(0, 0 - v.pos.y) && y >= Min(v.height, height - v.pos.y)
    ensures Drawn(before, rows, width, height, v, area)
  {
  }

  class Layer {
    const id: nat
    var pos: Vector2D
    var window: Window?

    constructor (id: nat)
      ensures this.id == id && pos == Vector2D(0, 0) && window == null
    {
      this.id, pos, window := id, Vector2D(0, 0), null;
    }

    ghost predicate Valid()
      reads this, window, if window == null then {} else {window.shadow}
    {
      window != null ==> window.Valid()
    }

    /** A layer without a window shows nothing. */
    ghost function View(): (v: View)
      requires Valid()
      reads this, window, if window == null then {} else {window.shadow}
      ensures v.Valid()
    {
      if window == null then Painting.View(pos, 0, 0, [], None) else window.ViewAt(pos)
    }

    method Move(newPos: Vector2D)
      requires Valid()
      modifies this`pos
      ensures pos == newPos && Valid() && View() == old(View()).(pos := newPos)
    {
      pos := newPos;
    }

    method DrawTo(screen: FrameBuffer, area: Rectangle)
      requires Valid() && screen.Valid() && Proper(area) && (window != null ==> window.shadow != screen)
      modifies screen
      ensures screen.Valid() && Drawn(old(screen.rows), screen.rows, screen.width, screen.height, View(), area)
    {
      if window != null {
        window.DrawTo(screen, pos, area);
      }
    }
  }

  /** Everything that the layers of a list consist of. */
  ghost function Parts(layers: seq<Layer>): set<object>
    reads layers
  {
    (set l | l in layers :: l as object)
    + (set l | l in layers && l.window != null :: l.window as object)
    + (set l | l in layers && l.window != null :: l.window.shadow as object)
  }

  ghost predicate AllLayersValid(layers: seq<Layer>)
    reads layers, Parts(layers)
  {
    forall i :: 0 <= i < |layers| ==> layers[i].Valid()
  }

  ghost function Views(layers: seq<Layer>): (r: seq<View>)
    requires AllLayersValid(layers)
    reads layers, Parts(layers)
    ensures |r| == |layers| && AllValid(r) && forall i :: 0 <= i < |r| ==> r[i] == layers[i].View()
  {
    seq(|layers|,
        i requires 0 <= i < |layers| && AllLayersValid(layers) reads layers, Parts(layers) => layers[i].View())
  }

  /** The pixels after some layers have been drawn in an area. */
  ghost predicate AllDrawn(before: Image, after: Image, width: nat, height: nat, stack: seq<View>, area: Rectangle)
    requires AllValid(stack)
  {
    && Sized(before, width, height) && Sized(after, width, height)
    && forall p: Vector2D :: InImage(width, height, p) ==>
         Pixel(after, width, height, p) == Over(stack, area, p, Pixel(before, width, height, p))
  }

  lemma DrawnNothing(before: Image, width: nat, height: nat, area: Rectangle)
    requires Sized(before, width, height)
    ensures AllDrawn(before, before, width, height, [], area)
  {
  }

  lemma DrawnNext(before: Image, middle: Image, after: Image, width: nat, height: nat, stack: seq<View>, v: View,
                  area: Rectangle)
    requires AllValid(stack) && v.Valid() && AllDrawn(before, middle, width, height, stack, area)
    requires Drawn(middle, after, width, height, v, area)
    ensures AllValid(stack + [v]) && AllDrawn(before, after, width, height, stack + [v], area)
  {
    forall p: Vector2D | InImage(width, height, p)
      ensures Pixel(after, width, height, p) == Over(stack + [v], area, p, Pixel(before, width, height, p))
    {
      OverNext(stack, v, area, p, Pixel(before, width, height, p));
    }
  }

  /** One layer of a list is drawn; the layers themselves stay as they are. */
  method DrawOne(stack: seq<Layer>, i: nat, dst: FrameBuffer, area: Rectangle)
    requires AllLayersValid(stack) && i < |stack| && dst !in Parts(stack) && dst.Valid() && Proper(area)
    modifies dst
    ensures AllLayersValid(stack) && Views(stack) == old(Views(stack)) && dst.Valid()
    ensures Drawn(old(dst.rows), dst.rows, dst.width, dst.height, Views(stack)[i], area)
  {
    hide Drawn;
    assert stack[i] in stack;
    stack[i].DrawTo(dst, area);
  }

  /** A stack shows some of the layers, each once. */
  predicate StackOf(stack: seq<Layer>, layers: seq<Layer>) {
    && (forall i :: 0 <= i < |stack| ==> stack[i] in layers)
    && (forall i, j :: 0 <= i < j < |stack| ==> stack[i] != stack[j])
  }

  /** The views of some of the layers. */
  ghost function Picked(stack: seq<Layer>, layers: seq<Layer>, views: seq<View>): seq<View>
    requires |views| == |layers| && StackOf(stack, layers)
  {
    seq(|stack|, i requires 0 <= i < |stack| => (FindIs(layers, stack[i]); views[Find(layers, stack[i]).value]))
  }

  /** The first place of a layer in a list. */
  function Find(stack: seq<Layer>, layer: Layer): (r: Option<nat>)
    ensures r.Some? ==> r.value < |stack| && stack[r.value] == layer
    ensures r.None? <==> layer !in stack
  {
    if stack == [] then None
    else if stack[0] == layer then Some(0)
    else match Find(stack[1..], layer) case Some(i) => Some(i + 1) case None => None
  }

  /** A list without a layer. */
  function Without(stack: seq<Layer>, layer: Layer): seq<Layer> {
    if stack == [] then []
    else (if stack[0] == layer then [] else [stack[0]]) + Without(stack[1..], layer)
  }

  function Put(others: seq<Layer>, k: nat, layer: Layer): (r: seq<Layer>)
    requires k <= |others|
    ensures |r| == |others| + 1 && r[k] == layer
  {
    others[..k] + [layer] + others[k..]
  }

  lemma {:induction false} WithoutNothing(stack: seq<Layer>, layer: Layer)
    requires layer !in stack
    ensures Without(stack, layer) == stack
  {
    if stack != [] {
      WithoutNothing(stack[1..], layer);
    }
  }

  lemma {:induction false} WithoutIs(stack: seq<Layer>, layer: Layer)
    requires forall i, j :: 0 <= i < j < |stack| ==> stack[i] != stack[j]
    ensures var i := Find(stack, layer);
            Without(stack, layer) == if i.Some? then stack[..i.value] + stack[i.value + 1..] else stack
  {
    if stack == [] {
    } else if stack[0] == layer {
      WithoutNothing(stack[1..], layer);
    } else {
      WithoutIs(stack[1..], layer);
      var i := Find(stack[1..], layer);
      if i.Some? {
        assert [stack[0]] + (stack[1..][..i.value] + stack[1..][i.value + 1..]) ==
          stack[..i.value + 1] + stack[i.value + 2..];
      }
    }
  }

  /** A layer that is put among others comes to the given place, and the others keep their order. */
  lemma PutAmong(others: seq<Layer>, k: nat, layer: Layer)
    requires k <= |others| && layer !in others && forall i, j :: 0 <= i < j < |others| ==> others[i] != others[j]
    ensures Find(Put(others, k, layer), layer) == Some(k) && Without(Put(others, k, layer), layer) == others
  {
    hide Without, Find;
    var r := Put(others, k, layer);
    forall i | 0 <= i < |r| ensures r[i] == if i < k then others[i] else if i == k then layer else others[i - 1] {
    }
    FindIs(r, layer);
    WithoutIs(r, layer);
    assert r[..k] + r[k + 1..] == others;
  }

  lemma WithoutStackOf(stack: seq<Layer>, layers: seq<Layer>, layer: Layer)
    requires StackOf(stack, layers)
    ensures StackOf(Without(stack, layer), layers) && layer !in Without(stack, layer)
    ensures |Without(stack, layer)| == |stack| - if layer in stack then 1 else 0
  {
    hide Without;
    WithoutIs(stack, layer);
  }

  lemma PutStackOf(others: seq<Layer>, layers: seq<Layer>, k: nat, layer: Layer)
    requires k <= |others| && StackOf(others, layers) && layer !in others && layer in layers
    ensures StackOf(Put(others, k, layer), layers)
    ensures |Put(others, k, layer)| == |others| + 1 && Put(others, k, layer)[k] == layer
  {
  }

  /** What the two steps of putting a layer below the mouse come to. */
  lemma BelowMouse(stack: seq<Layer>, layers: seq<Layer>, layer: Layer, mouse: Layer)
    requires StackOf(stack, layers) && mouse in stack && mouse != layer && layer in layers
    ensures Find(Without(stack, layer), mouse).Some?
    ensures var others := Without(stack, layer);
            var m := Find(others, mouse).value;
            var first := Put(others, 0, layer);
            && others[m] == mouse && first[m + 1] == mouse && Put(others, m, layer)[m] == layer
            && Without(first, layer) == others && StackOf(first, layers)
  {
    hide Without, Find, Put, StackOf;
    WithoutStackOf(stack, layers, layer);
    var others := Without(stack, layer);
    StillThere(stack, layers, layer, mouse);
    FindIs(others, mouse);
    PutStackOf(others, layers, 0, layer);
    PutStackOf(others, layers, Find(others, mouse).value, layer);
    PutFirst(others, layers, layer);
  }

  lemma StillThere(stack: seq<Layer>, layers: seq<Layer>, layer: Layer, mouse: Layer)
    requires StackOf(stack, layers) && mouse in stack && mouse != layer
    ensures mouse in Without(stack, layer)
  {
    hide Without, Find;
    WithoutDistinct(stack, layers, layer);
    FindIs(stack, layer);
    if Find(stack, layer).Some? {
      var i := Find(stack, layer).value;
      assert stack == stack[..i] + [layer] + stack[i + 1..];
    }
  }

  lemma PutFirst(others: seq<Layer>, layers: seq<Layer>, layer: Layer)
    requires StackOf(others, layers) && layer !in others && layer in layers
    ensures var first := Put(others, 0, layer);
            && |first| == |others| + 1 && Without(first, layer) == others
            && forall m :: 0 <= m < |others| ==> first[m + 1] == others[m]
  {
    hide Without, Find;
    PutStackOf(others, layers, 0, layer);
    var first := Put(others, 0, layer);
    WithoutDistinct(first, layers, layer);
    FindIs(first, layer);
    assert first[..0] + first[1..] == others;
  }

  lemma FindIs(stack: seq<Layer>, layer: Layer)
    ensures var r := Find(stack, layer);
            && (r.Some? ==> r.value < |stack| && stack[r.value] == layer) && (r.None? <==> layer !in stack)
  {
  }

  /** Inserting at the clamped height, or erasing first and inserting at one less than the size at most, is the same. */
  lemma RaisedIs(stack: seq<Layer>, layers: seq<Layer>, layer: Layer, newHeight: nat)
    requires StackOf(stack, layers) && layer in layers
    ensures var others := Without(stack, layer);
            var raised := Put(others, Min(newHeight, |others|), layer);
            && StackOf(raised, layers) && StackOf(others, layers)
            && match Find(stack, layer) {
                 case None => raised == (var h := Min(newHeight, |stack|); stack[..h] + [layer] + stack[h..])
                 case Some(i) =>
                   var erased := stack[..i] + stack[i + 1..];
                   var h := Min(newHeight, |stack| - 1);
                   raised == erased[..h] + [layer] + erased[h..] && erased == others
               }
  {
    hide Without, StackOf;
    WithoutDistinct(stack, layers, layer);
    WithoutStackOf(stack, layers, layer);
    var others := Without(stack, layer);
    PutStackOf(others, layers, Min(newHeight, |others|), layer);
  }

  lemma WithoutDistinct(stack: seq<Layer>, layers: seq<Layer>, layer: Layer)
    requires StackOf(stack, layers)
    ensures var i := Find(stack, layer);
            Without(stack, layer) == if i.Some? then stack[..i.value] + stack[i.value + 1..] else stack
  {
    WithoutIs(stack, layer);
  }

  class LayerManager {
    const screen: FrameBuffer
    const backBuffer: FrameBuffer
    var layers: seq<Layer>
    var layerStack: seq<Layer>

    /** SetWriter, for a manager without layers. */
    constructor (screen: FrameBuffer)
      requires screen.Valid()
      ensures this.screen == screen && fresh(backBuffer) && layers == layerStack == [] && Valid()
    {
      this.screen := screen;
      backBuffer := new FrameBuffer(screen.width, screen.height);
      layers, layerStack := [], [];
    }

    /** The layers have different ids, and neither buffer belongs to a window. */
    ghost predicate ListValid()
      reads this`layers, layers, Parts(layers)
    {
      && AllLayersValid(layers) && screen !in Parts(layers) && backBuffer !in Parts(layers)
      && (forall i, j :: 0 <= i < j < |layers| ==> layers[i].id != layers[j].id)
    }

    /** The layers and the stack. */
    ghost predicate LayersValid()
      reads this, layers, Parts(layers)
    {
      ListValid() && StackOf(layerStack, layers)
    }

    ghost predicate BuffersValid()
      reads screen, backBuffer
    {
      && screen.Valid() && backBuffer.Valid() && screen != backBuffer
      && screen.width == backBuffer.width && screen.height == backBuffer.height
    }

    ghost predicate Valid()
      reads this, screen, backBuffer, layers, Parts(layers)
    {
      LayersValid() && BuffersValid()
    }

    lemma StackValid()
      requires LayersValid()
      ensures AllLayersValid(layerStack) && Parts(layerStack) <= Parts(layers)
    {
    }

    /** The stack as it is to be shown. */
    ghost function Stack(): (r: seq<View>)
      requires LayersValid()
      reads this, layers, Parts(layers)
      ensures AllValid(r)
    {
      StackValid();
      Views(layerStack)
    }

    /** How all layers look, shown or not. */
    ghost function AllViews(): seq<View>
      requires ListValid()
      reads this`layers, layers, Parts(layers)
    {
      Views(layers)
    }

    /** What a stack looks like follows from that. */
    lemma ViewsFromAll(stack: seq<Layer>)
      requires ListValid() && StackOf(stack, layers)
      ensures AllLayersValid(stack) && Views(stack) == Picked(stack, layers, AllViews())
    {
    }

    /** Draw(area): the whole stack in an area of the screen. */
    method Draw(area: Rectangle)
      requires Valid() && Proper(area)
      modifies backBuffer, screen
      ensures Valid() && Stack() == old(Stack())
      ensures AllDrawn(old(backBuffer.rows), backBuffer.rows, screen.width, screen.height, Stack(), area)
      ensures IsCopy(old(screen.rows), screen.rows, screen.width, screen.height, backBuffer.rows, screen.width,
                screen.height,
                     area, Vector2D(0, 0))
    {
      hide AllDrawn, Drawn, IsCopy, LayerManager.LayersValid, LayerManager.Stack, AllLayersValid, Views;
      NotAPart();
      StackIs();
      ghost var before, stack := backBuffer.rows, Stack();
      DrawnNothing(before, screen.width, screen.height, area);
      for i := 0 to |layerStack|
        invariant backBuffer.Valid() && AllLayersValid(layerStack) && Views(layerStack) == stack
        invariant screen.rows == old(screen.rows)
        invariant AllDrawn(before, backBuffer.rows, screen.width, screen.height, stack[..i], area)
      {
        ghost var middle := backBuffer.rows;
        DrawOne(layerStack, i, backBuffer, area);
        assert stack[..i + 1] == stack[..i] + [stack[i]];
        DrawnNext(before, middle, backBuffer.rows, screen.width, screen.height, stack[..i], stack[i], area);
      }
      assert stack[..|layerStack|] == stack;
      screen.Copy(area.pos, backBuffer, area);
    }

    /** Whether the layer is shown, and can be drawn by its id. */
    ghost predicate IsShown(id: nat, k: nat)
      reads this, layerStack
    {
      k < |layerStack| && layerStack[k].id == id && layerStack[k].window != null
    }

    /** Draw(id, area): the layer and those above it, in its window or a part of it; a negative size means all. */
    method DrawLayer(id: nat, area: Rectangle, ghost k: nat)
      requires Valid() && IsShown(id, k) && (area.size.x >= 0 || area.size.y >= 0 ==> Proper(area))
      modifies backBuffer, screen
      ensures Valid() && Stack() == old(Stack()) && k < |Stack()|
      ensures AllDrawn(old(backBuffer.rows), backBuffer.rows, screen.width, screen.height, Stack()[k..],
                DrawnPart(Stack()[k], area))
      ensures IsCopy(old(screen.rows), screen.rows, screen.width, screen.height, backBuffer.rows, screen.width,
                screen.height,
                     DrawnPart(Stack()[k], area), Vector2D(0, 0))
    {
      hide AllDrawn, Drawn, IsCopy, LayerManager.LayersValid, LayerManager.Stack, AllLayersValid, DrawnPart, Views;
      NotAPart();
      StackIs();
      DrawnPartIs(Stack()[k], area);
      var windowArea := DrawUpwards(id, area, k);
      screen.Copy(windowArea.pos, backBuffer, windowArea);
    }

    /** The loop of Draw(id, area), which draws from the layer upwards. */
    method DrawUpwards(id: nat, area: Rectangle, ghost k: nat) returns (windowArea: Rectangle)
      requires LayersValid() && BuffersValid() && IsShown(id, k)
      requires area.size.x >= 0 || area.size.y >= 0 ==> Proper(area)
      modifies backBuffer
      ensures AllLayersValid(layerStack) && Views(layerStack) == old(Stack())
      ensures backBuffer.Valid() && k < |old(Stack())|
      ensures windowArea == DrawnPart(old(Stack())[k], area)
      ensures AllDrawn(old(backBuffer.rows), backBuffer.rows, screen.width, screen.height,
                old(Stack())[k..], windowArea)
    {
      hide AllDrawn, Drawn, LayerManager.LayersValid, LayerManager.Stack, AllLayersValid, DrawnPart, Views, Between;
      NotAPart();
      StackIs();
      OneOfEachId(k);
      ghost var before, stack := backBuffer.rows, Stack();
      ghost var part := DrawnPart(stack[k], area);
      DrawnNothing(before, screen.width, screen.height, part);
      BetweenNothing(stack, k);
      var draw := false;
      windowArea := Rectangle(Vector2D(0, 0), Vector2D(0, 0));
      for i := 0 to |layerStack|
        invariant backBuffer.Valid() && AllLayersValid(layerStack) && Views(layerStack) == stack
        invariant draw == (i > k) && (draw ==> windowArea == part && Proper(part))
        invariant AllDrawn(before, backBuffer.rows, screen.width, screen.height, Between(stack, k, i), part)
      {
        ghost var middle := backBuffer.rows;
        var layer := layerStack[i];
        LayerOfStack(layerStack, i, backBuffer);
        if layer.id == id {
          DrawnPartIs(stack[k], area);
          windowArea := Rectangle(layer.pos, Vector2D(layer.window.width, layer.window.height));
          if area.size.x >= 0 || area.size.y >= 0 {
            windowArea := windowArea.And(Rectangle(area.pos.Plus(layer.pos), area.size));
          }
          draw := true;
        }
        if draw {
          DrawOne(layerStack, i, backBuffer, windowArea);
          DrawnNext(before, middle, backBuffer.rows, screen.width, screen.height, Between(stack, k, i), stack[i], part);
        }
        BetweenNext(stack, k, i);
      }
      BetweenAll(stack, k);
    }

    /** The layer with an id, if there is one. */
    method FindLayer(id: nat) returns (layer: Layer?)
      requires LayersValid()
      ensures LayersValid() && Stack() == old(Stack()) && AllViews() == old(AllViews())
      ensures layer != null ==> layer in layers && layer.id == id
      ensures layer == null ==> forall l :: l in layers ==> l.id != id
    {
      for i := 0 to |layers|
        invariant forall j :: 0 <= j < i ==> layers[j].id != id
      {
        if layers[i].id == id {
          return layers[i];
        }
      }
      return null;
    }

    /** Both buffers show what painting the whole stack would. */
    ghost predicate CleanScreen()
      requires Valid()
      reads this, screen, backBuffer, layers, Parts(layers)
    {
      CleanImages(Stack(), backBuffer.rows, screen.rows, screen.width, screen.height)
    }

    /** Move: the layer's old place is repainted, and then the layer. */
    method Move(id: nat, newPos: Vector2D, ghost k: nat)
      requires Valid() && IsShown(id, k)
      modifies layerStack[k], backBuffer, screen
      ensures Valid() && layerStack[k].pos == newPos && layerStack[k].window == old(layerStack[k].window)
      ensures k < |old(Stack())| && Stack() == old(Stack())[k := old(Stack())[k].(pos := newPos)]
      ensures (old(CleanScreen()) && OpaqueBelow(old(Stack())) && AllBacked(old(Stack()), screen.width, screen.height)
               && AllBacked(Stack(), screen.width, screen.height)) ==> CleanScreen()
    {
      hide AllDrawn, IsCopy, LayerManager.LayersValid, LayerManager.Stack, DrawnPart, CleanImages, AllBacked,
        OpaqueBelow;
      ghost var stack, back0, screen0 := Stack(), backBuffer.rows, screen.rows;
      Shown(id, k);
      var layer := FindLayer(id);
      var size := Vector2D(layer.window.width, layer.window.height);
      var oldPos := layer.pos;
      MoveLayer(layer, newPos, k);
      Draw(Rectangle(oldPos, size));
      ghost var back1, screen1 := backBuffer.rows, screen.rows;
      DrawLayer(id, Rectangle(Vector2D(0, 0), Vector2D(-1, -1)), k);
      MoveImages(stack, k, newPos, screen.width, screen.height, back0, screen0, back1, screen1, backBuffer.rows,
        screen.rows);
    }

    /** Layer::Move for a layer of the stack: only its place changes. */
    method MoveLayer(layer: Layer, newPos: Vector2D, ghost k: nat)
      requires Valid() && k < |layerStack| && layerStack[k] == layer
      modifies layer`pos
      ensures Valid() && layer.pos == newPos
      ensures k < |old(Stack())| && Stack() == old(Stack())[k := old(Stack())[k].(pos := newPos)]
    {
      StackValid();
      ghost var parts, stack := Parts(layers), Stack();
      assert layer in layers;
      layer.Move(newPos);
      assert Parts(layers) == parts;
      StackValid();
      assert forall i :: 0 <= i < |layerStack| && i != k ==> layerStack[i].View() == stack[i];
    }

    /** Another order; the layers stay as they are. */
    method SetStack(stack: seq<Layer>)
      requires LayersValid() && StackOf(stack, layers)
      modifies this`layerStack
      ensures LayersValid() && AllViews() == old(AllViews()) && layerStack == stack
    {
      layerStack := stack;
    }

    /** Hide: the layer leaves the stack. */
    method Hide(id: nat, ghost layer: Layer)
      requires LayersValid() && layer in layers && layer.id == id
      modifies this`layerStack
      ensures LayersValid() && AllViews() == old(AllViews()) && layerStack == Without(old(layerStack), layer)
    {
      hide LayerManager.Stack, LayerManager.ListValid, LayerManager.AllViews, Without, StackOf, AllLayersValid;
      SameLayer(layer);
      var found := FindLayer(id);
      var pos := Find(layerStack, found);
      WithoutIs(layerStack, found);
      WithoutStackOf(layerStack, layers, found);
      if pos.Some? {
        SetStack(layerStack[..pos.value] + layerStack[pos.value + 1..]);
      }
    }

    /** UpDown: the layer comes to the place with that height, or on top; a negative height hides it. */
    method UpDown(id: nat, newHeight: int, ghost layer: Layer)
      requires LayersValid() && layer in layers && layer.id == id
      modifies this`layerStack
      ensures LayersValid() && AllViews() == old(AllViews())
      ensures var others := Without(old(layerStack), layer);
              layerStack == if newHeight < 0 then others else Put(others, Min(newHeight, |others|), layer)
    {
      hide LayerManager.Stack, LayerManager.ListValid, LayerManager.AllViews, Without, StackOf, AllLayersValid, Put;
      if newHeight < 0 {
        Hide(id, layer);
        return;
      }
      var height := newHeight;
      if height > |layerStack| {
        height := |layerStack|;
      }
      SameLayer(layer);
      var result := FindLayer(id);
      var found: Layer := result;
      var oldPos := Find(layerStack, found);
      RaisedIs(layerStack, layers, layer, newHeight);
      var newPos := height;
      if oldPos == None {
        SetStack(layerStack[..newPos] + [found] + layerStack[newPos..]);
        return;
      }
      if newPos == |layerStack| {
        newPos := newPos - 1;
      }
      SetStack(layerStack[..oldPos.value] + layerStack[oldPos.value + 1..]);
      SetStack(layerStack[..newPos] + [found] + layerStack[newPos..]);
    }

    /** GetHeight: where the layer is in the stack, or -1. */
    method GetHeight(id: nat) returns (height: int)
      requires LayersValid()
      ensures LayersValid() && AllViews() == old(AllViews())
      ensures height == -1 ==> forall i :: 0 <= i < |layerStack| ==> layerStack[i].id != id
      ensures height != -1 ==> 0 <= height < |layerStack| && layerStack[height].id == id
                               && forall i :: 0 <= i < height ==> layerStack[i].id != id
    {
      for h := 0 to |layerStack|
        invariant forall i :: 0 <= i < h ==> layerStack[i].id != id
      {
        if layerStack[h].id == id {
          return h;
        }
      }
      return -1;
    }

    lemma InLayers()
      requires LayersValid()
      ensures forall l :: l in layerStack ==> l in layers
      ensures StackOf(layerStack, layers) && ListValid()
    {
    }

    lemma SameLayer(layer: Layer)
      requires LayersValid() && layer in layers
      ensures forall l :: l in layers && l.id == layer.id ==> l == layer
      ensures forall i, j :: 0 <= i < j < |layerStack| ==> layerStack[i] != layerStack[j]
    {
    }

    lemma Shown(id: nat, k: nat)
      requires Valid() && IsShown(id, k)
      ensures k < |layerStack| && layerStack[k] in layers && layerStack[k].id == id && layerStack[k].window != null
      ensures k < |Stack()| && Stack()[k] == layerStack[k].View()
      ensures Stack()[k].Area() ==
                Rectangle(layerStack[k].pos, Vector2D(layerStack[k].window.width, layerStack[k].window.height))
      ensures forall l :: l in layers && l.id == id ==> l == layerStack[k]
    {
    }

    lemma OneOfEachId(k: nat)
      requires LayersValid() && k < |layerStack|
      ensures forall i :: 0 <= i < |layerStack| && layerStack[i].id == layerStack[k].id ==> i == k
    {
    }

    lemma NotAPart()
      requires LayersValid()
      ensures screen !in Parts(layers) && backBuffer !in Parts(layers)
      ensures screen !in Parts(layerStack) && backBuffer !in Parts(layerStack)
    {
    }

    lemma StackIs()
      requires LayersValid()
      ensures AllLayersValid(layerStack) && Stack() == Views(layerStack)
    {
    }
  }

  lemma LayerOfStack(stack: seq<Layer>, i: nat, dst: FrameBuffer)
    requires AllLayersValid(stack) && i < |stack| && dst !in Parts(stack)
    ensures stack[i].Valid() && (stack[i].window != null ==> stack[i].window.shadow != dst)
    ensures Views(stack)[i] == stack[i].View()
  {
    assert stack[i] in stack;
  }

  /** The part of a window that Draw(id, area) draws: all of it for negative sizes. */
  function DrawnPart(v: View, area: Rectangle): Rectangle {
    if area.size.x >= 0 || area.size.y >= 0 then v.Area().And(Rectangle(area.pos.Plus(v.pos), area.size)) else v.Area()
  }

  /** A point of the screen is drawn if it is in the window, and in the part that is given relative to the window. */
  lemma DrawnPartContains(v: View, area: Rectangle, p: Vector2D)
    ensures DrawnPart(v, area).Contains(p) <==>
            && v.pos.x <= p.x < v.pos.x + v.width && v.pos.y <= p.y < v.pos.y + v.height
            && ((area.size.x < 0 && area.size.y < 0) || area.Contains(Vector2D(p.x - v.pos.x, p.y - v.pos.y)))
  {
    AndContains(v.Area(), Rectangle(area.pos.Plus(v.pos), area.size), p);
    hide Rectangle.And;
  }

  lemma DrawnPartIs(v: View, area: Rectangle)
    requires area.size.x >= 0 || area.size.y >= 0 ==> Proper(area)
    ensures DrawnPart(v, area) == if area.size.x >= 0 || area.size.y >= 0
                                  then v.Area().And(Rectangle(area.pos.Plus(v.pos), area.size)) else v.Area()
    ensures Proper(DrawnPart(v, area))
  {
  }

  ghost predicate AllBacked(stack: seq<View>, width: nat, height: nat)
    requires AllValid(stack)
  {
    forall p: Vector2D :: InImage(width, height, p) ==> Backed(stack, p)
  }

  /** Every pixel of both buffers is as a full repaint would leave it. */
  ghost predicate CleanImages(stack: seq<View>, back: Image, screen: Image, width: nat, height: nat)
    requires AllValid(stack)
  {
    && Sized(back, width, height) && Sized(screen, width, height)
    && forall p: Vector2D :: InImage(width, height, p) ==>
         Clean(stack, p, Shown(Pixel(back, width, height, p), Pixel(screen, width, height, p)))
  }

  /** Both buffers after Draw(area) or Draw(id, area), pixel by pixel. */
  lemma DrawnShown(stack: seq<View>, area: Rectangle, width: nat, height: nat, back0: Image, screen0: Image,
                   back1: Image,
                   screen1: Image, p: Vector2D)
    requires AllValid(stack) && AllDrawn(back0, back1, width, height, stack, area) && InImage(width, height, p)
    requires IsCopy(screen0, screen1, width, height, back1, width, height, area, Vector2D(0, 0))
    ensures Shown(Pixel(back1, width, height, p), Pixel(screen1, width, height, p))
            == DrawArea(stack, area, p, Shown(Pixel(back0, width, height, p), Pixel(screen0, width, height, p)))
  {
    assert p.Minus(Vector2D(0, 0)) == p;
  }

  lemma MoveImages(stack: seq<View>, k: nat, pos: Vector2D, width: nat, height: nat, back0: Image, screen0: Image,
                   back1: Image, screen1: Image, back2: Image, screen2: Image)
    requires AllValid(stack) && k < |stack|
    requires var stack' := stack[k := stack[k].(pos := pos)];
             var all := Rectangle(Vector2D(0, 0), Vector2D(-1, -1));
             && AllDrawn(back0, back1, width, height, stack', stack[k].Area())
             && IsCopy(screen0, screen1, width, height, back1, width, height, stack[k].Area(), Vector2D(0, 0))
             && AllDrawn(back1, back2, width, height, stack'[k..], DrawnPart(stack'[k], all))
             && IsCopy(screen1, screen2, width, height, back2, width, height, DrawnPart(stack'[k], all), Vector2D(0, 0))
    ensures var stack' := stack[k := stack[k].(pos := pos)];
            (CleanImages(stack, back0, screen0, width, height) && OpaqueBelow(stack) && AllBacked(stack, width, height)
             && AllBacked(stack', width, height)) ==> CleanImages(stack', back2, screen2, width, height)
  {
    hide OpaqueBelow, Clean, Backed, Over, Paint;
    var stack' := stack[k := stack[k].(pos := pos)];
    if CleanImages(stack, back0, screen0, width, height) && OpaqueBelow(stack) && AllBacked(stack, width, height)
       && AllBacked(stack', width, height) {
      forall p: Vector2D | InImage(width, height, p)
        ensures Clean(stack', p, Shown(Pixel(back2, width, height, p), Pixel(screen2, width, height, p)))
      {
        DrawnShown(stack', stack[k].Area(), width, height, back0, screen0, back1, screen1, p);
        DrawnShown(stack'[k..], stack'[k].Area(), width, height, back1, screen1, back2, screen2, p);
        MoveCleans(stack, k, pos, p, Shown(Pixel(back0, width, height, p), Pixel(screen0, width, height, p)));
      }
    }
  }

  /** The layers from k to i, if there are any. */
  ghost function Between(stack: seq<View>, k: nat, i: nat): (r: seq<View>)
    requires i <= |stack|
    ensures AllValid(stack) ==> AllValid(r)
  {
    if i > k then stack[k..i] else []
  }

  lemma BetweenNothing(stack: seq<View>, k: nat)
    ensures Between(stack, k, 0) == []
  {
  }

  lemma BetweenNext(stack: seq<View>, k: nat, i: nat)
    requires i < |stack|
    ensures i >= k ==> Between(stack, k, i + 1) == Between(stack, k, i) + [stack[i]]
    ensures i < k ==> Between(stack, k, i + 1) == Between(stack, k, i)
  {
  }

  lemma BetweenAll(stack: seq<View>, k: nat)
    requires k < |stack|
    ensures Between(stack, k, |stack|) == stack[k..]
  {
  }

  // ----- changing the order of the layers

  lemma ViewsPut(others: seq<Layer>, k: nat, layer: Layer)
    requires k <= |others| && AllLayersValid(Put(others, k, layer))
    ensures AllLayersValid(others) && layer.Valid()
    ensures Views(Put(others, k, layer)) == Views(others)[..k] + [layer.View()] + Views(others)[k..]
  {
    var r := Put(others, k, layer);
    assert forall i :: 0 <= i < |others| ==> others[i] == r[if i < k then i else i + 1];
    assert r[k] == layer;
  }

  /** Where the layer has no colour, its place in the stack does not matter. */
  lemma SamePaint(stack: seq<Layer>, k: nat, layer: Layer, p: Vector2D, c: Color)
    requires forall i, j :: 0 <= i < j < |stack| ==> stack[i] != stack[j]
    requires var others := Without(stack, layer); k <= |others| && AllLayersValid(Put(others, k, layer))
    requires AllLayersValid(stack) && layer.Valid() && layer.View().ColorAt(p).None?
    ensures Paint(Views(Put(Without(stack, layer), k, layer)), p, c) == Paint(Views(stack), p, c)
  {
    hide Paint, Without, Find;
    FindIs(stack, layer);
    WithoutIs(stack, layer);
    ViewsPut(Without(stack, layer), k, layer);
    match Find(stack, layer)
    case Some(i) =>
      assert stack == Put(Without(stack, layer), i, layer);
      SamePaintMoved(Without(stack, layer), i, k, layer, p, c);
    case None => SamePaintNew(stack, k, layer, p, c);
  }

  lemma SamePaintMoved(others: seq<Layer>, i: nat, k: nat, layer: Layer, p: Vector2D, c: Color)
    requires i <= |others| && k <= |others| && AllLayersValid(Put(others, i, layer))
    requires AllLayersValid(Put(others, k, layer))
    requires layer.Valid() && layer.View().ColorAt(p).None?
    ensures Paint(Views(Put(others, k, layer)), p, c) == Paint(Views(Put(others, i, layer)), p, c)
  {
    hide Paint, Put;
    ViewsPut(others, k, layer);
    ViewsPut(others, i, layer);
    ReorderedOutside(Views(others), layer.View(), k, i, p, c);
  }

  lemma SamePaintNew(others: seq<Layer>, k: nat, layer: Layer, p: Vector2D, c: Color)
    requires k <= |others| && AllLayersValid(Put(others, k, layer)) && AllLayersValid(others)
    requires layer.Valid() && layer.View().ColorAt(p).None?
    ensures Paint(Views(Put(others, k, layer)), p, c) == Paint(Views(others), p, c)
  {
    hide Paint, Put;
    ViewsPut(others, k, layer);
    var vs := Views(others);
    var all := vs[..k] + [layer.View()] + vs[k..];
    PaintWithout(all, k, p, c);
    assert all[..k] + all[k + 1..] == vs;
  }

  /** Clean outside the k-th layer, which is opaque: drawing it makes everything clean. */
  lemma DrawImages(stack: seq<View>, k: nat, width: nat, height: nat, back0: Image, screen0: Image, back1: Image,
                   screen1: Image)
    requires AllValid(stack) && k < |stack| && OpaqueBelow(stack) && AllBacked(stack, width, height)
    requires Sized(back0, width, height) && Sized(screen0, width, height)
    requires forall p: Vector2D ::
              InImage(width, height, p) && (stack[k].transparent.Some? || !stack[k].Area().Contains(p)) ==>
               Clean(stack, p, Shown(Pixel(back0, width, height, p), Pixel(screen0, width, height, p)))
    requires AllDrawn(back0, back1, width, height, stack[k..], stack[k].Area())
    requires IsCopy(screen0, screen1, width, height, back1, width, height, stack[k].Area(), Vector2D(0, 0))
    ensures CleanImages(stack, back1, screen1, width, height)
  {
    hide OpaqueBelow, Clean, Backed, Over, Paint;
    forall p: Vector2D | InImage(width, height, p)
      ensures Clean(stack, p, Shown(Pixel(back1, width, height, p), Pixel(screen1, width, height, p)))
    {
      DrawnShown(stack[k..], stack[k].Area(), width, height, back0, screen0, back1, screen1, p);
      var s := Shown(Pixel(back0, width, height, p), Pixel(screen0, width, height, p));
      if stack[k].transparent.None? {
        DrawCleans(stack, k, p, s);
      } else {
        DrawStaysClean(stack, k, p, s);
      }
    }
  }

  /** Drawing a layer of a clean stack once more changes nothing. */
  lemma DrawStaysClean(stack: seq<View>, k: nat, p: Vector2D, s: Shown)
    requires AllValid(stack) && k < |stack| && OpaqueBelow(stack) && Backed(stack, p) && Clean(stack, p, s)
    ensures Clean(stack, p, DrawFrom(stack, k, stack[k].Area(), p, s))
  {
    DrawAgain(stack, k, stack[k].Area(), p, s.back);
  }

  /** ActiveLayer; the windows' title bars and the messages to their tasks are not part of this model. */
  class ActiveLayer {
    const manager: LayerManager
    var activeLayer: nat
    var mouseLayer: nat

    constructor (manager: LayerManager)
      ensures this.manager == manager && activeLayer == mouseLayer == 0
    {
      this.manager, activeLayer, mouseLayer := manager, 0, 0;
    }

    /** Activate: the layer comes directly below the mouse, and the screen stays clean. */
    method Activate(layerId: nat, ghost before: nat, ghost layer: Layer, ghost mouse: Layer)
      requires manager.Valid()
      requires activeLayer != layerId && activeLayer > 0 ==> manager.IsShown(activeLayer, before)
      requires activeLayer != layerId && layerId > 0 ==>
                 && layer in manager.layers && layer.id == layerId && layer.window != null
                 && mouse in manager.layerStack && mouse.id == mouseLayer && mouse != layer
      modifies this`activeLayer, manager`layerStack, manager.backBuffer, manager.screen
      ensures manager.Valid() && activeLayer == layerId
      ensures old(activeLayer) == layerId || layerId == 0 ==> manager.layerStack == old(manager.layerStack)
      ensures old(activeLayer) != layerId && layerId > 0 ==>
                var others := Without(old(manager.layerStack), layer);
                Find(others, mouse).Some? && manager.layerStack == Put(others, Find(others, mouse).value, layer)
      ensures (old(manager.CleanScreen())
                && Paintable(old(manager.Stack()), manager.screen.width, manager.screen.height)
               && Paintable(manager.Stack(), manager.screen.width, manager.screen.height)
               && (layerId > 0 ==> layer.Valid() && layer.View().transparent.None?)) ==> manager.CleanScreen()
    {
      hide LayerManager.LayersValid, LayerManager.Stack, LayerManager.BuffersValid, CleanImages, Paintable, Without,
        Find, Put, AllDrawn, IsCopy, DrawnPart;
      if activeLayer == layerId {
        return;
      }
      var all := Rectangle(Vector2D(0, 0), Vector2D(-1, -1));
      ghost var width, height, stack := manager.screen.width, manager.screen.height, manager.Stack();
      if activeLayer > 0 {
        ghost var back, screen := manager.backBuffer.rows, manager.screen.rows;
        manager.DrawLayer(activeLayer, all, before);
        StillClean(stack, before, width, height, back, screen, manager.backBuffer.rows, manager.screen.rows);
      }
      assert this !in Parts(manager.layers);
      activeLayer := layerId;
      if layerId > 0 {
        Raise(layerId, layer, mouse);
      }
    }

    /** The second half of Activate: the layer comes below the mouse, and is drawn. */
    method Raise(layerId: nat, ghost layer: Layer, ghost mouse: Layer)
      requires manager.Valid() && layer in manager.layers && layer.id == layerId && layer.window != null
      requires mouse in manager.layerStack && mouse.id == mouseLayer && mouse != layer
      modifies manager`layerStack, manager.backBuffer, manager.screen
      ensures manager.Valid()
      ensures var others := Without(old(manager.layerStack), layer);
              Find(others, mouse).Some? && manager.layerStack == Put(others, Find(others, mouse).value, layer)
      ensures layer.Valid()
      ensures (old(manager.CleanScreen())
                && Paintable(old(manager.Stack()), manager.screen.width, manager.screen.height)
               && Paintable(manager.Stack(), manager.screen.width, manager.screen.height)
               && layer.View().transparent.None?) ==> manager.CleanScreen()
    {
      hide LayerManager.LayersValid, LayerManager.Stack, LayerManager.BuffersValid, CleanImages, Paintable, Without,
        Find, Put, AllDrawn, IsCopy, DrawnPart, SameOutside, Views, LayerManager.AllViews, LayerManager.ListValid;
      ghost var order, stack := manager.layerStack, manager.Stack();
      manager.InLayers();
      manager.ViewsFromAll(order);
      manager.StackIs();
      PutBelowMouse(layerId, layer, mouse);
      manager.InLayers();
      manager.ViewsFromAll(order);
      ghost var k := Find(Without(order, layer), mouse).value;
      ghost var back, screen := manager.backBuffer.rows, manager.screen.rows;
      Reordered(manager, order, k, layer);
      manager.DrawLayer(layerId, Rectangle(Vector2D(0, 0), Vector2D(-1, -1)), k);
      Repaired(stack, manager.Stack(), k, manager.screen.width, manager.screen.height, back, screen,
               manager.backBuffer.rows, manager.screen.rows);
      manager.StackIs();
    }

    /** The two calls of UpDown. */
    method PutBelowMouse(layerId: nat, ghost layer: Layer, ghost mouse: Layer)
      requires manager.Valid() && layer in manager.layers && layer.id == layerId && layer.window != null
      requires mouse in manager.layerStack && mouse.id == mouseLayer && mouse != layer
      modifies manager`layerStack
      ensures manager.Valid() && manager.AllViews() == old(manager.AllViews())
      ensures var others := Without(old(manager.layerStack), layer);
              Find(others, mouse).Some? && manager.layerStack == Put(others, Find(others, mouse).value, layer)
              && manager.IsShown(layerId, Find(others, mouse).value)
    {
      hide LayerManager.Stack, LayerManager.ListValid, Without, Find, Put, StackOf;
      ghost var order, others := manager.layerStack, Without(manager.layerStack, layer);
      manager.InLayers();
      BelowMouse(order, manager.layers, layer, mouse);
      manager.SameLayer(mouse);
      manager.UpDown(layerId, 0, layer);
      manager.SameLayer(mouse);
      manager.InLayers();
      ghost var first := manager.layerStack;
      var h := manager.GetHeight(mouseLayer);
      assert first[Find(others, mouse).value + 1] == mouse;
      assert first[h] in manager.layers && first[h] == mouse;
      manager.UpDown(layerId, h - 1, layer);
    }
  }

  ghost predicate Paintable(stack: seq<View>, width: nat, height: nat)
    requires AllValid(stack)
  {
    OpaqueBelow(stack) && AllBacked(stack, width, height)
  }

  lemma StillClean(stack: seq<View>, k: nat, width: nat, height: nat, back0: Image, screen0: Image, back1: Image,
                   screen1: Image)
    requires AllValid(stack) && k < |stack|
    requires var part := DrawnPart(stack[k], Rectangle(Vector2D(0, 0), Vector2D(-1, -1)));
             && AllDrawn(back0, back1, width, height, stack[k..], part)
             && IsCopy(screen0, screen1, width, height, back1, width, height, part, Vector2D(0, 0))
    ensures CleanImages(stack, back0, screen0, width, height) && Paintable(stack, width, height) ==>
              CleanImages(stack, back1, screen1, width, height)
  {
    if CleanImages(stack, back0, screen0, width, height) && Paintable(stack, width, height) {
      DrawImages(stack, k, width, height, back0, screen0, back1, screen1);
    }
  }

  /** Two stacks that look the same outside the k-th layer of the second one. */
  ghost predicate SameOutside(stack: seq<View>, now: seq<View>, k: nat)
    requires AllValid(stack) && AllValid(now) && k < |now|
  {
    forall p: Vector2D, c: Color :: now[k].ColorAt(p).None? ==> Paint(now, p, c) == Paint(stack, p, c)
  }

  lemma Reordered(manager: LayerManager, order: seq<Layer>, k: nat, layer: Layer)
    requires manager.LayersValid() && AllLayersValid(order) && StackOf(order, manager.layers)
    requires k <= |Without(order, layer)| && manager.layerStack == Put(Without(order, layer), k, layer)
    ensures k < |manager.Stack()| && layer.Valid() && manager.Stack()[k] == layer.View()
    ensures SameOutside(Views(order), manager.Stack(), k)
  {
    hide LayerManager.LayersValid, LayerManager.Stack, Without, Find, Put, Paint, StackOf;
    manager.StackIs();
    ViewsPut(Without(order, layer), k, layer);
    StackDistinct(order, manager.layers);
    forall p: Vector2D, c: Color | layer.View().ColorAt(p).None?
      ensures Paint(manager.Stack(), p, c) == Paint(Views(order), p, c)
    {
      SamePaint(order, k, layer, p, c);
    }
  }

  /** After the order has changed, drawing the layer that has moved makes the screen clean again. */
  lemma Repaired(stack: seq<View>, now: seq<View>, k: nat, width: nat, height: nat, back0: Image, screen0: Image,
                 back1: Image, screen1: Image)
    requires AllValid(stack) && AllValid(now) && k < |now| && SameOutside(stack, now, k)
    requires var part := DrawnPart(now[k], Rectangle(Vector2D(0, 0), Vector2D(-1, -1)));
             && AllDrawn(back0, back1, width, height, now[k..], part)
             && IsCopy(screen0, screen1, width, height, back1, width, height, part, Vector2D(0, 0))
    ensures (CleanImages(stack, back0, screen0, width, height) && Paintable(stack, width, height)
              && Paintable(now, width, height)
             && now[k].transparent.None?) ==> CleanImages(now, back1, screen1, width, height)
  {
    hide AllDrawn, IsCopy, Paint, Over;
    if CleanImages(stack, back0, screen0, width, height) && Paintable(stack, width, height)
      && Paintable(now, width, height)
       && now[k].transparent.None? {
      forall p: Vector2D | InImage(width, height, p) && !now[k].Area().Contains(p)
        ensures Clean(now, p, Shown(Pixel(back0, width, height, p), Pixel(screen0, width, height, p)))
      {
        assert now[k].ColorAt(p).None?;
      }
      DrawImages(now, k, width, height, back0, screen0, back1, screen1);
    }
  }

  lemma StackDistinct(stack: seq<Layer>, layers: seq<Layer>)
    requires StackOf(stack, layers)
    ensures forall i, j :: 0 <= i < j < |stack| ==> stack[i] != stack[j]
  {
  }
}
