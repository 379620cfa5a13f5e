/** System.Drawing.Rectangle and the union of the screens' bounds. */
module Screens {

  /** A rectangle with integer X, Y, Width and Height. */
  datatype Rect = Rect(x: int, y: int, width: int, height: int) {
    function Right(): int { x + width }
    function Bottom(): int { y + height }
  }

  function Min(a: int, b: int): int { if a <= b then a else b }
  function Max(a: int, b: int): int { if a >= b then a else b }

  /** Every edge of `inner` lies on or within the matching edge of `outer`. */
  predicate Encloses(outer: Rect, inner: Rect) {
    outer.x <= inner.x && inner.Right() <= outer.Right() &&
    outer.y <= inner.y && inner.Bottom() <= outer.Bottom()
  }

  /** Rectangle.Union: from the smaller left and top edges to the larger right and bottom edges. */
  function Union(a: Rect, b: Rect): Rect {
    var x1, x2 := Min(a.x, b.x), Max(a.Right(), b.Right());
    var y1, y2 := Min(a.y, b.y), Max(a.Bottom(), b.Bottom());
    Rect(x1, y1, x2 - x1, y2 - y1)
  }

  /** The union encloses both rectangles, and every rectangle enclosing both encloses it. */
  lemma UnionIsLeastEnclosing(a: Rect, b: Rect, c: Rect)
    ensures Encloses(Union(a, b), a) && Encloses(Union(a, b), b)
    ensures Encloses(c, a) && Encloses(c, b) ==> Encloses(c, Union(a, b))
  {
  }

  lemma EnclosesTransitive(a: Rect, b: Rect, c: Rect)
    requires Encloses(a, b) && Encloses(b, c)
    ensures Encloses(a, c)
  {
  }

  /** The left fold of Union over a non-empty sequence of rectangles. */
  function UnionOf(s: seq<Rect>): Rect
    requires |s| > 0
    decreases |s|
  {
    if |s| == 1 then s[0] else Union(UnionOf(s[..|s| - 1]), s[|s| - 1])
  }

  /** The fold encloses every rectangle it was given. */
  lemma {:induction false} UnionOfEnclosesAll(s: seq<Rect>)
    requires |s| > 0
    ensures forall i :: 0 <= i < |s| ==> Encloses(UnionOf(s), s[i])
    decreases |s|
  {
    if |s| > 1 {
      var init := s[..|s| - 1];
      UnionOfEnclosesAll(init);
      UnionIsLeastEnclosing(UnionOf(init), s[|s| - 1], UnionOf(s));
      forall i | 0 <= i < |s| - 1
        ensures Encloses(UnionOf(s), s[i])
      {
        assert s[i] == init[i];
        EnclosesTransitive(UnionOf(s), UnionOf(init), s[i]);
      }
    }
  }

  /** A rectangle that encloses every given rectangle encloses their fold: the fold is the least. */
  lemma {:induction false} UnionOfIsLeast(s: seq<Rect>, c: Rect)
    requires |s| > 0
    requires forall i :: 0 <= i < |s| ==> Encloses(c, s[i])
    ensures Encloses(c, UnionOf(s))
    decreases |s|
  {
    if |s| > 1 {
      var init := s[..|s| - 1];
      assert forall i :: 0 <= i < |init| ==> init[i] == s[i];
      UnionOfIsLeast(init, c);
      UnionIsLeastEnclosing(UnionOf(init), s[|s| - 1], c);
    }
  }
}
