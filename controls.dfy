/**
 * The WPF elements the core touches: the children of the container grid and
 * of the drawing canvas, and the geometry of the window.
 */
module Controls {
  import opened Wrappers

  /**
   * A child element. Line and Marker are the shapes the trail draws (a marker
   * keeps its centre and the integer multiplier its diameter is derived from);
   * Image is the picture that shows the cached snapshot; Panel is a Canvas
   * placed in a grid; Other is any further element of a grid.
   */
  datatype Element =
    | Line(x1: int, y1: int, x2: int, y2: int)
    | Marker(cx: int, cy: int, multiplier: int)
    | Image(id: nat)
    | Panel(canvas: Canvas)
    | Other(id: nat)

  class Canvas {
    var children: seq<Element>

    constructor()
      ensures children == []
    {
      children := [];
    }
  }

  class Grid {
    var children: seq<Element>

    constructor(children: seq<Element>)
      ensures this.children == children
    {
      this.children := children;
    }
  }

  /** The window's Left, Top, Width, Height and the laid-out ActualWidth, ActualHeight. */
  class Window {
    var left: int
    var top: int
    var width: int
    var height: int
    var actualWidth: int
    var actualHeight: int

    constructor(left: int, top: int, width: int, height: int)
      ensures this.left == left && this.top == top && this.width == width && this.height == height
      ensures actualWidth == width && actualHeight == height
    {
      this.left, this.top, this.width, this.height := left, top, width, height;
      actualWidth, actualHeight := width, height;
    }
  }

  predicate IsCanvas(e: Element) {
    e.Panel?
  }

  predicate IsImage(e: Element) {
    e.Image?
  }

  /** The index of the first child of the kind `p` (Where(...).FirstOrDefault()). */
  function FirstIndex(s: seq<Element>, p: Element -> bool): (r: Option<nat>)
    ensures r.Some? ==> r.value < |s| && p(s[r.value])
    ensures r.Some? ==> forall j :: 0 <= j < r.value ==> !p(s[j])
    ensures r.None? ==> forall j :: 0 <= j < |s| ==> !p(s[j])
  {
    if s == [] then None
    else if p(s[0]) then Some(0)
    else match FirstIndex(s[1..], p)
      case None => None
      case Some(i) => Some(i + 1)
  }

  /** The first Canvas among the children, if any. */
  function FoundCanvas(s: seq<Element>): (r: Option<Canvas>)
    ensures r.Some? <==> exists j :: 0 <= j < |s| && s[j].Panel?
    ensures r.Some? ==> exists k :: 0 <= k < |s| && s[k] == Panel(r.value) && forall j :: 0 <= j < k ==> !s[j].Panel?
  {
    match FirstIndex(s, IsCanvas)
    case None => None
    case Some(i) => Some(s[i].canvas)
  }

  /** The frame of the canvas FoundCanvas picks. */
  function CanvasFrame(s: seq<Element>): set<object> {
    match FoundCanvas(s)
    case None => {}
    case Some(c) => {c}
  }

  function RemoveAt(s: seq<Element>, i: nat): (r: seq<Element>)
    requires i < |s|
    ensures |r| == |s| - 1
    ensures forall j :: 0 <= j < i ==> r[j] == s[j]
    ensures forall j :: i <= j < |r| ==> r[j] == s[j + 1]
    ensures multiset(r) + multiset{s[i]} == multiset(s)
  {
    assert s == s[..i] + [s[i]] + s[i + 1..];
    s[..i] + s[i + 1..]
  }

  /**
   * What Export does to the grid's children around the snapshot: the first
   * Image is removed (it is drawn on the canvas meanwhile) and then inserted
   * again at index 0.
   */
  function MoveImageToFront(s: seq<Element>): seq<Element> {
    match FirstIndex(s, IsImage)
    case None => s
    case Some(i) => [s[i]] + RemoveAt(s, i)
  }

  /** FirstIndex finds exactly the first position of the kind. */
  lemma {:induction false} FirstIndexIsFirst(s: seq<Element>, p: Element -> bool, k: nat)
    requires k < |s| && p(s[k])
    requires forall j :: 0 <= j < k ==> !p(s[j])
    ensures FirstIndex(s, p) == Some(k)
  {
    if k > 0 {
      FirstIndexIsFirst(s[1..], p, k - 1);
    }
  }

  /** Moving the image reorders the children and nothing more. */
  lemma MoveImageToFrontPermutes(s: seq<Element>)
    ensures multiset(MoveImageToFront(s)) == multiset(s)
  {
  }

  /** The image ends at index 0; without an image nothing changes. */
  lemma MoveImageToFrontPlacesImage(s: seq<Element>)
    ensures FirstIndex(s, IsImage).Some? ==> MoveImageToFront(s)[0] == s[FirstIndex(s, IsImage).value]
    ensures FirstIndex(s, IsImage).None? ==> MoveImageToFront(s) == s
  {
  }

  lemma {:induction false} FirstIndexNone(s: seq<Element>, p: Element -> bool)
    requires forall j :: 0 <= j < |s| ==> !p(s[j])
    ensures FirstIndex(s, p) == None
  {
    if s != [] {
      FirstIndexNone(s[1..], p);
    }
  }

  /** Putting a non-canvas child first keeps the grid without a canvas. */
  lemma MovedKeepsNoCanvas(s: seq<Element>, i: nat)
    requires i < |s| && !IsCanvas(s[i])
    requires forall j :: 0 <= j < |s| ==> !IsCanvas(s[j])
    ensures FirstIndex([s[i]] + RemoveAt(s, i), IsCanvas) == None
  {
    var r := [s[i]] + RemoveAt(s, i);
    forall j | 0 <= j < |r| ensures !IsCanvas(r[j]) {
      if 0 < j <= i {
        assert r[j] == s[j - 1];
      } else if j > i {
        assert r[j] == s[j];
      }
    }
    FirstIndexNone(r, IsCanvas);
  }

  /** Putting a non-canvas child first moves the first canvas by one place at most. */
  lemma MovedKeepsFirstCanvas(s: seq<Element>, i: nat, c: nat)
    requires i < |s| && !IsCanvas(s[i]) && c < |s| && IsCanvas(s[c])
    requires forall j :: 0 <= j < c ==> !IsCanvas(s[j])
    ensures var r := [s[i]] + RemoveAt(s, i);
      var k := if c < i then c + 1 else c;
      k < |r| && r[k] == s[c] && FirstIndex(r, IsCanvas) == Some(k)
  {
    var r := [s[i]] + RemoveAt(s, i);
    var k := if c < i then c + 1 else c;
    assert r[k] == s[c];
    forall j | 0 <= j < k ensures !IsCanvas(r[j]) {
      if 0 < j <= i {
        assert r[j] == s[j - 1];
      } else if j > i {
        assert r[j] == s[j];
      }
    }
    FirstIndexIsFirst(r, IsCanvas, k);
  }

  /** The grid keeps the same first canvas. */
  lemma MoveImageToFrontKeepsCanvas(s: seq<Element>)
    ensures FoundCanvas(MoveImageToFront(s)) == FoundCanvas(s)
  {
    var fi := FirstIndex(s, IsImage);
    if fi.Some? {
      var i := fi.value;
      assert !IsCanvas(s[i]);
      var fc := FirstIndex(s, IsCanvas);
      if fc.None? {
        MovedKeepsNoCanvas(s, i);
      } else {
        MovedKeepsFirstCanvas(s, i, fc.value);
      }
    }
  }
}
