/** The layer stack and what drawing it leaves on the screen. */
module Layers {
  import opened Wrappers

  datatype Color = Color(r: nat, g: nat, b: nat)
  datatype Point = Point(x: int, y: int)

  datatype WindowData = WindowData(width: nat, height: nat, data: seq<seq<Color>>, transparent: Option<Color>) {
    predicate Valid() {
      |data| == height && forall y :: 0 <= y < height ==> |data[y]| == width
    }
  }

  /** A window: as many rows and columns as it says. */
  type Window = w: WindowData | w.Valid() witness WindowData(0, 0, [], None)

  class Layer {
    const id: nat
    var pos: Point
    var window: Option<Window>

    constructor (id: nat)
      ensures this.id == id && pos == Point(0, 0) && window == None
    {
      this.id := id;
      pos, window := Point(0, 0), None;
    }

    method Move(to: Point)
      modifies this`pos
      ensures pos == to
    {
      pos := to;
    }

    method MoveRelative(offset: Point)
      modifies this`pos
      ensures pos == Point(old(pos).x + offset.x, old(pos).y + offset.y)
    {
      pos := Point(pos.x + offset.x, pos.y + offset.y);
    }

    method SetWindow(w: Window)
      modifies this`window
      ensures window == Some(w)
    {
      window := Some(w);
    }
  }

  // ---------------------------------------------------------------------------
  // What is seen
  // ---------------------------------------------------------------------------

  /** The color a window shows at one of its points: none outside it or where it is transparent. */
  function WindowPixel(w: Window, x: int, y: int): Option<Color> {
    if 0 <= x < w.width && 0 <= y < w.height && w.transparent != Some(w.data[y][x]) then Some(w.data[y][x]) else None
  }

  function PixelOf(l: Layer?, p: Point): Option<Color>
    reads l
  {
    if l == null then None else
    match l.window
    case None => None
    case Some(w) => WindowPixel(w, p.x - l.pos.x, p.y - l.pos.y)
  }

  /** A layer shows a color at a point if and only if some pixel of its window lies there, counted
      from the layer's position, has that color and is not transparent. */
  lemma ShownExactly(l: Layer?, p: Point, c: Color)
    ensures PixelOf(l, p) == Some(c) <==>
            l != null && l.window.Some? && l.window.value.transparent != Some(c) &&
            exists x, y :: 0 <= x < l.window.value.width && 0 <= y < l.window.value.height
                           && p == Point(l.pos.x + x, l.pos.y + y) && l.window.value.data[y][x] == c
  {
    if PixelOf(l, p) == Some(c) {
      var x, y := p.x - l.pos.x, p.y - l.pos.y;
      assert l.window.value.data[y][x] == c && p == Point(l.pos.x + x, l.pos.y + y);
    }
  }

  /** The topmost color at a point. The last layer of the stack is on top. */
  function Seen(stack: seq<Layer?>, p: Point): Option<Color>
    reads set l | l in stack
  {
    if stack == [] then None
    else
      var top := stack[|stack| - 1];
      if PixelOf(top, p).Some? then PixelOf(top, p) else Seen(stack[..|stack| - 1], p)
  }

  function Over(top: Option<Color>, below: Color): Color {
    if top.Some? then top.value else below
  }

  /** The layer at `i` shows the color, and none above it shows anything. */
  ghost predicate ShowsAt(stack: seq<Layer?>, p: Point, c: Color, i: int)
    reads set l | l in stack
  {
    0 <= i < |stack| && PixelOf(stack[i], p) == Some(c) && forall j :: i < j < |stack| ==> PixelOf(stack[j], p) == None
  }

  lemma ShowsBelow(stack: seq<Layer?>, p: Point, c: Color, i: int)
    requires stack != [] && PixelOf(stack[|stack| - 1], p) == None
    ensures ShowsAt(stack, p, c, i) <==> ShowsAt(stack[..|stack| - 1], p, c, i)
  {
    var n := |stack| - 1;
    if ShowsAt(stack, p, c, i) { assert forall j :: 0 <= j < n ==> stack[..n][j] == stack[j]; }
  }

  lemma {:induction false} SeenIsTopmost(stack: seq<Layer?>, p: Point, c: Color)
    ensures Seen(stack, p) == Some(c) <==> exists i :: ShowsAt(stack, p, c, i)
    ensures Seen(stack, p) == None <==> forall i :: 0 <= i < |stack| ==> PixelOf(stack[i], p) == None
  {
    if stack != [] {
      var n := |stack| - 1;
      if PixelOf(stack[n], p) == None {
        SeenIsTopmost(stack[..n], p, c);
        forall i ensures ShowsAt(stack, p, c, i) <==> ShowsAt(stack[..n], p, c, i) {
          ShowsBelow(stack, p, c, i);
        }
        assert forall i :: 0 <= i < n ==> stack[..n][i] == stack[i];
      } else {
        assert PixelOf(stack[n], p) == Some(c) ==> ShowsAt(stack, p, c, n);
      }
    }
  }

  // ---------------------------------------------------------------------------
  // The order of the stack
  // ---------------------------------------------------------------------------

  function Others(stack: seq<Layer?>, l: Layer?): seq<Layer?> {
    if stack == [] then [] else if stack[0] == l then Others(stack[1..], l) else [stack[0]] + Others(stack[1..], l)
  }

  function Inserted(stack: seq<Layer?>, i: nat, l: Layer?): seq<Layer?>
    requires i <= |stack|
  {
    stack[..i] + [l] + stack[i..]
  }

  ghost predicate Distinct(stack: seq<Layer?>) {
    forall i, j :: 0 <= i < j < |stack| ==> stack[i] != stack[j]
  }

  lemma {:induction false} OthersConcat(s: seq<Layer?>, t: seq<Layer?>, l: Layer?)
    ensures Others(s + t, l) == Others(s, l) + Others(t, l)
  {
    if s == [] {
      assert s + t == t;
    } else {
      assert (s + t)[0] == s[0] && (s + t)[1..] == s[1..] + t;
      OthersConcat(s[1..], t, l);
    }
  }

  lemma {:induction false} OthersAll(s: seq<Layer?>, l: Layer?)
    requires l !in s
    ensures Others(s, l) == s
  {
    if s != [] {
      assert s[0] in s && forall x :: x in s[1..] ==> x in s;
      OthersAll(s[1..], l);
    }
  }

  lemma NotElsewhere(s: seq<Layer?>, i: nat)
    requires i < |s| && Distinct(s)
    ensures s[i] !in s[..i] && s[i] !in s[i + 1..]
  {
  }

  lemma OthersMiddle(a: seq<Layer?>, x: Layer?, b: seq<Layer?>)
    requires x !in a && x !in b
    ensures Others(a + ([x] + b), x) == a + b
  {
    OthersAll(a, x);
    OthersAll(b, x);
    OthersConcat([x], b, x);
    OthersConcat(a, [x] + b, x);
    assert Others([x], x) == [] && [] + b == b;
  }

  lemma SplitAt(s: seq<Layer?>, i: nat)
    requires i < |s|
    ensures s == s[..i] + ([s[i]] + s[i + 1..])
  {
  }

  lemma OthersErases(s: seq<Layer?>, i: nat)
    requires i < |s| && Distinct(s)
    ensures Others(s, s[i]) == s[..i] + s[i + 1..]
  {
    NotElsewhere(s, i);
    SplitAt(s, i);
    OthersMiddle(s[..i], s[i], s[i + 1..]);
  }

  /** Putting a layer anywhere leaves the others in their order. */
  lemma OthersInserted(s: seq<Layer?>, i: nat, l: Layer?)
    requires i <= |s|
    ensures Others(Inserted(s, i, l), l) == Others(s, l)
  {
    OthersConcat(s[..i] + [l], s[i..], l);
    OthersConcat(s[..i], [l], l);
    OthersConcat(s[..i], s[i..], l);
    assert s[..i] + s[i..] == s;
  }

  lemma {:induction false} OthersDistinct(s: seq<Layer?>, l: Layer?)
    requires Distinct(s)
    ensures Distinct(Others(s, l)) && forall x :: x in Others(s, l) <==> x in s && x != l
  {
    if s != [] {
      OthersDistinct(s[1..], l);
      assert forall x :: x in s <==> x == s[0] || x in s[1..];
      assert s[0] !in s[1..];
      assert s[0] !in Others(s[1..], l);
    }
  }

  lemma InsertedDistinct(s: seq<Layer?>, i: nat, l: Layer?)
    requires i <= |s| && Distinct(s) && l !in s
    ensures Distinct(Inserted(s, i, l)) && forall x :: x in Inserted(s, i, l) <==> x in s || x == l
  {
    assert s == s[..i] + s[i..];
  }

  /** Where a layer that shows nothing is in the stack, or whether it is, does not matter. */
  lemma {:induction false} SeenWithout(stack: seq<Layer?>, l: Layer?, p: Point)
    requires PixelOf(l, p) == None
    ensures Seen(stack, p) == Seen(Others(stack, l), p)
  {
    if stack != [] {
      var n := |stack| - 1;
      SeenWithout(stack[..n], l, p);
      OthersConcat(stack[..n], [stack[n]], l);
      assert stack == stack[..n] + [stack[n]];
      var rest := Others(stack[..n], l);
      if stack[n] == l {
        assert Others([stack[n]], l) == [] && rest + [] == rest;
      } else {
        assert Others([stack[n]], l) == [stack[n]];
        assert (rest + [stack[n]])[..|rest|] == rest;
      }
    }
  }

  function Min(a: int, b: int): int {
    if a < b then a else b
  }

  /** The stack after a layer is put at a height; below zero it is taken out. */
  function Raised(stack: seq<Layer?>, l: Layer?, height: int): seq<Layer?> {
    if height < 0 then Others(stack, l) else Inserted(Others(stack, l), Min(height, |Others(stack, l)|), l)
  }

  /** One layer is somewhere below another. */
  ghost predicate Below(stack: seq<Layer?>, x: Layer?, y: Layer?) {
    exists i, j :: 0 <= i < j < |stack| && stack[i] == x && stack[j] == y
  }

  /** All layers but one are still there, in the order they were in. */
  ghost predicate KeepsOrder(stack: seq<Layer?>, r: seq<Layer?>, l: Layer?) {
    forall i, j :: 0 <= i < j < |stack| && stack[i] != l && stack[j] != l ==> Below(r, stack[i], stack[j])
  }

  ghost predicate KeepsOthers(stack: seq<Layer?>, r: seq<Layer?>, l: Layer?) {
    && (forall i :: 0 <= i < |stack| && stack[i] != l ==> stack[i] in r)
    && (forall i :: 0 <= i < |r| && r[i] != l ==> r[i] in stack)
    && KeepsOrder(stack, r, l)
  }

  /** How many layers there are besides one. */
  function CountOthers(stack: seq<Layer?>, l: Layer?): int {
    |stack| - if l in stack then 1 else 0
  }

  /** The layer is at the height asked for, or on top of the others if that is too high, or gone if
      it is below zero; the others are as before. */
  ghost predicate IsMoved(stack: seq<Layer?>, r: seq<Layer?>, l: Layer?, height: int) {
    && KeepsOthers(stack, r, l) && Distinct(r)
    && |r| == CountOthers(stack, l) + (if height < 0 then 0 else 1)
    && (if height < 0 then l !in r else
          var at := if height <= CountOthers(stack, l) then height else CountOthers(stack, l);
          r[at] == l)
  }

  lemma ErasedOrder(stack: seq<Layer?>, k: nat)
    requires k < |stack|
    ensures KeepsOrder(stack, stack[..k] + stack[k + 1..], stack[k])
  {
    var o := stack[..k] + stack[k + 1..];
    forall i, j | 0 <= i < j < |stack| && i != k && j != k ensures Below(o, stack[i], stack[j]) {
      var a, b := if i < k then i else i - 1, if j < k then j else j - 1;
      assert o[a] == stack[i] && o[b] == stack[j];
    }
  }

  lemma SameOrder(stack: seq<Layer?>, l: Layer?)
    ensures KeepsOrder(stack, stack, l)
  {
  }

  lemma OthersKept(stack: seq<Layer?>, l: Layer?)
    requires Distinct(stack)
    ensures KeepsOthers(stack, Others(stack, l), l) && |Others(stack, l)| == CountOthers(stack, l)
  {
    OthersDistinct(stack, l);
    if l in stack {
      var k :| 0 <= k < |stack| && stack[k] == l;
      OthersErases(stack, k);
      ErasedOrder(stack, k);
    } else {
      OthersAll(stack, l);
      SameOrder(stack, l);
    }
  }

  lemma InsertedBelow(o: seq<Layer?>, at: nat, l: Layer?, x: Layer?, y: Layer?)
    requires at <= |o| && Below(o, x, y)
    ensures Below(Inserted(o, at, l), x, y)
  {
    var r := Inserted(o, at, l);
    var a, b :| 0 <= a < b < |o| && o[a] == x && o[b] == y;
    assert r[if a < at then a else a + 1] == o[a] && r[if b < at then b else b + 1] == o[b];
  }

  lemma InsertedKept(stack: seq<Layer?>, o: seq<Layer?>, at: nat, l: Layer?)
    requires KeepsOthers(stack, o, l) && Distinct(o) && l !in o && at <= |o|
    ensures KeepsOthers(stack, Inserted(o, at, l), l)
  {
    InsertedDistinct(o, at, l);
    forall i, j | 0 <= i < j < |stack| && stack[i] != l && stack[j] != l
      ensures Below(Inserted(o, at, l), stack[i], stack[j])
    {
      InsertedBelow(o, at, l, stack[i], stack[j]);
    }
  }

  /** The stack after a move, told by positions. */
  lemma RaisedIsMoved(stack: seq<Layer?>, l: Layer?, height: int)
    requires Distinct(stack)
    ensures IsMoved(stack, Raised(stack, l, height), l, height)
  {
    OthersKept(stack, l);
    OthersDistinct(stack, l);
    var o := Others(stack, l);
    if height >= 0 {
      InsertedKept(stack, o, Min(height, |o|), l);
      InsertedDistinct(o, Min(height, |o|), l);
    }
  }

  /** No layer twice, and none that was not made, but for null. */
  ghost predicate StackOk(stack: seq<Layer?>, layers: seq<Layer>) {
    Distinct(stack) && forall i :: 0 <= i < |stack| && stack[i] != null ==> stack[i] in layers
  }

  lemma {:induction false} OthersOk(stack: seq<Layer?>, layers: seq<Layer>, l: Layer?)
    requires StackOk(stack, layers)
    ensures StackOk(Others(stack, l), layers) && l !in Others(stack, l)
  {
    OthersDistinct(stack, l);
    if stack != [] { OthersOk(stack[1..], layers, l); }
  }

  lemma RaisedOk(stack: seq<Layer?>, layers: seq<Layer>, l: Layer?, height: nat)
    requires StackOk(stack, layers) && (l == null || l in layers)
    ensures StackOk(Raised(stack, l, height), layers)
  {
    OthersOk(stack, layers, l);
    InsertedDistinct(Others(stack, l), Min(height, |Others(stack, l)|), l);
  }

  /** A layer that is not in the stack is put there; one that is there is taken out first. */
  lemma RaisedAbsent(stack: seq<Layer?>, l: Layer?, height: nat)
    requires l !in stack
    ensures Raised(stack, l, height) == Inserted(stack, Min(height, |stack|), l)
  {
    OthersAll(stack, l);
  }

  lemma RaisedPresent(stack: seq<Layer?>, i: nat, height: nat)
    requires Distinct(stack) && i < |stack|
    ensures Raised(stack, stack[i], height)
         == Inserted(stack[..i] + stack[i + 1..], Min(height, |stack| - 1), stack[i])
  {
    OthersErases(stack, i);
  }

  /** Moving a layer up, down or out changes the screen only where the layer shows something. */
  lemma RaisedChangesOnlyItself(stack: seq<Layer?>, l: Layer?, height: int, p: Point)
    requires Distinct(stack) && PixelOf(l, p) == None
    ensures Seen(Raised(stack, l, height), p) == Seen(stack, p)
  {
    SeenWithout(stack, l, p);
    SeenWithout(Raised(stack, l, height), l, p);
    var rest := Others(stack, l);
    OthersDistinct(stack, l);
    OthersAll(rest, l);
    if height >= 0 { OthersInserted(rest, Min(height, |rest|), l); }
  }

  /** A layer put at least as high as the stack is tall hides whatever it covers. */
  lemma RaisedToTop(stack: seq<Layer?>, l: Layer?, height: int, p: Point)
    requires height >= |Others(stack, l)| && PixelOf(l, p).Some?
    ensures Seen(Raised(stack, l, height), p) == PixelOf(l, p)
  {
    var r, rest := Raised(stack, l, height), Others(stack, l);
    assert rest[..|rest|] == rest && rest[|rest|..] == [];
    assert r == rest + [l] && r[|r| - 1] == l;
  }

  /** Drawing reads through every pointer in the stack: putting an unknown layer there is what breaks it. */
  lemma NullExactly(stack: seq<Layer?>, l: Layer?, height: int)
    requires Distinct(stack)
    ensures null in Raised(stack, l, height) <==> if l == null then height >= 0 else null in stack
  {
    OthersDistinct(stack, l);
    var rest := Others(stack, l);
    if height >= 0 { InsertedDistinct(rest, Min(height, |rest|), l); }
  }

  // ---------------------------------------------------------------------------
  // The screen
  // ---------------------------------------------------------------------------

  /** The frame buffer. Nothing checks the coordinates that are written. */
  class Screen {
    const pixels: array2<Color>

    constructor (width: nat, height: nat)
      ensures fresh(pixels) && pixels.Length0 == height && pixels.Length1 == width
    {
      pixels := new Color[height, width];
    }

    predicate Has(p: Point) {
      0 <= p.y < pixels.Length0 && 0 <= p.x < pixels.Length1
    }

    function At(p: Point): Color
      requires Has(p)
      reads pixels
    {
      pixels[p.y, p.x]
    }

    method Write(p: Point, c: Color)
      requires Has(p)
      modifies pixels
      ensures forall q :: Has(q) ==> At(q) == if q == p then c else old(At(q))
    {
      pixels[p.y, p.x] := c;
    }

    /** All of a window at a position is on the screen. */
    predicate Fits(w: Window, pos: Point) {
      0 <= pos.x && 0 <= pos.y && pos.x + w.width <= pixels.Length1 && pos.y + w.height <= pixels.Length0
    }

    /** The window's row `y` has been drawn as far as column `x`, and all rows before it. */
    ghost predicate Drawn(w: Window, pos: Point, x: int, y: int, q: Point) {
      q.y - pos.y < y || (q.y - pos.y == y && q.x - pos.x < x)
    }

    method DrawWindow(w: Window, pos: Point)
      requires Fits(w, pos)
      modifies pixels
      ensures forall q :: Has(q) ==> At(q) == Over(WindowPixel(w, q.x - pos.x, q.y - pos.y), old(At(q)))
      ensures forall q :: Has(q) ==>
                var x, y := q.x - pos.x, q.y - pos.y;
                At(q) == if 0 <= x < w.width && 0 <= y < w.height && w.transparent != Some(w.data[y][x]) then w.data[y][x]
                         else old(At(q))
    {
      for y := 0 to w.height
        invariant forall q :: Has(q) ==>
                    At(q) == if Drawn(w, pos, 0, y, q) then Over(WindowPixel(w, q.x - pos.x, q.y - pos.y), old(At(q)))
                             else old(At(q))
      {
        for x := 0 to w.width
          invariant forall q :: Has(q) ==>
                      At(q) == if Drawn(w, pos, x, y, q) then Over(WindowPixel(w, q.x - pos.x, q.y - pos.y), old(At(q)))
                               else old(At(q))
        {
          var c := w.data[y][x];
          if w.transparent == None || c != w.transparent.value {
            Write(Point(pos.x + x, pos.y + y), c);
          }
        }
      }
    }

    method DrawLayer(l: Layer)
      requires l.window.Some? ==> Fits(l.window.value, l.pos)
      modifies pixels
      ensures forall q :: Has(q) ==> At(q) == Over(PixelOf(l, q), old(At(q)))
    {
      if l.window.Some? { DrawWindow(l.window.value, l.pos); }
    }
  }

  class LayerManager {
    const writer: Screen
    var layers: seq<Layer>
    var layerStack: seq<Layer?>
    var latestId: nat

    /** Layers are numbered from 1 in the order they were made; the stack holds some, none twice, and null if an unknown layer was put there. */
    ghost predicate Valid()
      reads this
    {
      && |layers| == latestId
      && (forall i :: 0 <= i < |layers| ==> layers[i].id == i + 1)
      && StackOk(layerStack, layers)
    }

    predicate Knows(id: nat)
      reads this
    {
      1 <= id <= latestId
    }

    function Named(id: nat): Layer
      requires Valid() && Knows(id)
      reads this
    {
      layers[id - 1]
    }

    /** The layer with an id, or null. */
    function LayerOf(id: nat): Layer?
      requires Valid()
      reads this
    {
      if Knows(id) then Named(id) else null
    }

    constructor (writer: Screen)
      ensures Valid() && layers == [] && layerStack == [] && this.writer == writer
    {
      this.writer := writer;
      layers, layerStack, latestId := [], [], 0;
    }

    method NewLayer() returns (l: Layer)
      requires Valid()
      modifies this`layers, this`latestId
      ensures Valid() && fresh(l) && l.id == latestId == old(latestId) + 1
      ensures layers == old(layers) + [l] && l.window == None
    {
      latestId := latestId + 1;
      l := new Layer(latestId);
      layers := layers + [l];
    }

    method FindLayer(id: nat) returns (l: Layer?)
      requires Valid()
      ensures l == LayerOf(id)
    {
      for i := 0 to |layers|
        invariant forall j :: 0 <= j < i ==> layers[j].id != id
      {
        if layers[i].id == id { return layers[i]; }
      }
      return null;
    }

    method FindInStack(l: Layer?) returns (i: nat)
      ensures i <= |layerStack| && (i < |layerStack| ==> layerStack[i] == l) && (i == |layerStack| ==> l !in layerStack)
    {
      i := 0;
      while i < |layerStack|
        invariant i <= |layerStack| && forall j :: 0 <= j < i ==> layerStack[j] != l
      {
        if layerStack[i] == l { return; }
        i := i + 1;
      }
    }

    /** Positions in the stack are indices, before and after the erasure. For an unknown id it is
        null that is put there. */
    method UpDown(id: nat, newHeight: int)
      requires Valid()
      modifies this`layerStack
      ensures Valid() && layerStack == Raised(old(layerStack), LayerOf(id), newHeight)
      ensures IsMoved(old(layerStack), layerStack, LayerOf(id), newHeight)
    {
      RaisedIsMoved(layerStack, LayerOf(id), newHeight);
      if newHeight < 0 {
        Hide(id);
      } else {
        Raise(id, newHeight);
      }
    }

    /** The rest of `UpDown`, for a height that is one. */
    method Raise(id: nat, newHeight: nat)
      requires Valid()
      modifies this`layerStack
      ensures Valid() && layerStack == Raised(old(layerStack), LayerOf(id), newHeight)
    {
      var height := if newHeight > |layerStack| then |layerStack| else newHeight;
      var layer := FindLayer(id);
      var oldPos := FindInStack(layer);
      RaisedOk(layerStack, layers, layer, newHeight);
      if oldPos == |layerStack| {
        RaisedAbsent(layerStack, layer, newHeight);
        layerStack := Inserted(layerStack, height, layer);
        return;
      }
      ghost var after := Raised(layerStack, layer, newHeight);
      RaisedPresent(layerStack, oldPos, newHeight);
      if height == |layerStack| { height := height - 1; }
      assert after == Inserted(layerStack[..oldPos] + layerStack[oldPos + 1..], height, layer);
      layerStack := layerStack[..oldPos] + layerStack[oldPos + 1..];
      layerStack := Inserted(layerStack, height, layer);
    }

    /** Hiding an unknown layer takes null out, if it is there. */
    method Hide(id: nat)
      requires Valid()
      modifies this`layerStack
      ensures Valid() && layerStack == Others(old(layerStack), LayerOf(id))
      ensures IsMoved(old(layerStack), layerStack, LayerOf(id), -1)
    {
      RaisedIsMoved(layerStack, LayerOf(id), -1);
      var layer := FindLayer(id);
      var pos := FindInStack(layer);
      OthersDistinct(layerStack, layer);
      if pos < |layerStack| {
        OthersErases(layerStack, pos);
        layerStack := layerStack[..pos] + layerStack[pos + 1..];
      } else {
        OthersAll(layerStack, layer);
      }
    }

    method Move(id: nat, to: Point)
      requires Valid() && Knows(id)
      modifies Named(id)
      ensures Named(id).pos == to && Named(id).window == old(Named(id).window)
    {
      var layer := FindLayer(id);
      layer.Move(to);
    }

    method MoveRelative(id: nat, offset: Point)
      requires Valid() && Knows(id)
      modifies Named(id)
      ensures Named(id).pos == Point(old(Named(id).pos).x + offset.x, old(Named(id).pos).y + offset.y)
      ensures Named(id).window == old(Named(id).window)
    {
      var layer := FindLayer(id);
      layer.MoveRelative(offset);
    }

    /** Painting from the bottom up leaves on every pixel the topmost color there, or what was there. */
    method Draw()
      requires Valid() && null !in layerStack
      requires forall l: Layer :: l in layerStack && l.window.Some? ==> writer.Fits(l.window.value, l.pos)
      modifies writer.pixels
      ensures forall q :: writer.Has(q) ==> writer.At(q) == Over(Seen(layerStack, q), old(writer.At(q)))
    {
      for i := 0 to |layerStack|
        invariant forall q :: writer.Has(q) ==> writer.At(q) == Over(Seen(layerStack[..i], q), old(writer.At(q)))
      {
        assert layerStack[..i + 1][..i] == layerStack[..i];
        writer.DrawLayer(layerStack[i]);
      }
      assert layerStack[..|layerStack|] == layerStack;
    }
  }
}
