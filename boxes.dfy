/**
 * The annotated boxes of the image, in creation order: the hit-test that picks the box under
 * the pointer, and the erasure of one box.
 */
module Boxes {
  import opened Wrappers
  import opened Geometry

  /** A labelled rectangle (`class Box` of the source: `rect` and `content`). */
  datatype Box = Box(rect: Rect, content: string)

  /** The first index at or after `i` whose box contains `p`, if any. */
  function FirstHitFrom(boxes: seq<Box>, p: Point, i: nat): Option<nat>
    decreases |boxes| - i
  {
    if i >= |boxes| then None
    else if Contains(boxes[i].rect, p) then Some(i)
    else FirstHitFrom(boxes, p, i + 1)
  }

  /** The box a button-down at `p` selects: the first one, in creation order, that contains `p`. */
  function FirstHit(boxes: seq<Box>, p: Point): Option<nat> {
    FirstHitFrom(boxes, p, 0)
  }

  /** The search from `i` finds the least index from `i` on whose box contains `p`, and finds nothing exactly when there is none. */
  lemma {:induction false} FirstHitFromIsLeast(boxes: seq<Box>, p: Point, i: nat)
    ensures FirstHitFrom(boxes, p, i).Some? ==>
      var k := FirstHitFrom(boxes, p, i).value;
      i <= k < |boxes| && Contains(boxes[k].rect, p) &&
      forall j :: i <= j < k ==> !Contains(boxes[j].rect, p)
    ensures FirstHitFrom(boxes, p, i).None? ==>
      forall j :: i <= j < |boxes| ==> !Contains(boxes[j].rect, p)
    decreases |boxes| - i
  {
    if i < |boxes| && !Contains(boxes[i].rect, p) {
      FirstHitFromIsLeast(boxes, p, i + 1);
    }
  }

  /**
   * `FirstHit` is exactly "the least index whose box contains the point": it returns `Some(k)`
   * if and only if box `k` contains `p` and no earlier box does, and `None` if and only if no box does.
   */
  lemma FirstHitIff(boxes: seq<Box>, p: Point, k: nat)
    ensures FirstHit(boxes, p) == Some(k) <==>
      k < |boxes| && Contains(boxes[k].rect, p) && forall j :: 0 <= j < k ==> !Contains(boxes[j].rect, p)
    ensures FirstHit(boxes, p) == None <==> forall j :: 0 <= j < |boxes| ==> !Contains(boxes[j].rect, p)
  {
    FirstHitFromIsLeast(boxes, p, 0);
    if FirstHit(boxes, p).Some? {
      var m := FirstHit(boxes, p).value;
      assert Contains(boxes[m].rect, p);
      if k < |boxes| && Contains(boxes[k].rect, p) && forall j :: 0 <= j < k ==> !Contains(boxes[j].rect, p) {
        assert !(m < k) && !(k < m);
      }
    }
  }

  /**
   * The loop of the button-down handler: walk the boxes in order and stop at the first one
   * that contains `p`.
   */
  method FindFirstContaining(boxes: seq<Box>, p: Point) returns (r: Option<nat>)
    ensures r == FirstHit(boxes, p)
    ensures r.Some? ==> r.value < |boxes| && Contains(boxes[r.value].rect, p)
    ensures r.Some? ==> forall j :: 0 <= j < r.value ==> !Contains(boxes[j].rect, p)
    ensures r.None? ==> forall j :: 0 <= j < |boxes| ==> !Contains(boxes[j].rect, p)
  {
    r := None;
    var i := 0;
    while i < |boxes|
      invariant 0 <= i <= |boxes|
      invariant FirstHitFrom(boxes, p, i) == FirstHit(boxes, p)
      invariant forall j :: 0 <= j < i ==> !Contains(boxes[j].rect, p)
    {
      if Contains(boxes[i].rect, p) {
        r := Some(i);
        break;
      }
      i := i + 1;
    }
  }

  /** `boxes` with the box at `k` erased (`vector::erase`). */
  function Without<T>(s: seq<T>, k: nat): seq<T>
    requires k < |s|
  {
    s[..k] + s[k + 1..]
  }

  /**
   * Erasing removes exactly the element at `k`: one fewer element, those before `k` in place,
   * those after it shifted down by one, so the others keep their relative order, and the
   * removed element is the only one missing.
   */
  lemma WithoutKeepsOthers<T>(s: seq<T>, k: nat)
    requires k < |s|
    ensures |Without(s, k)| == |s| - 1
    ensures forall j :: 0 <= j < k ==> Without(s, k)[j] == s[j]
    ensures forall j :: k <= j < |s| - 1 ==> Without(s, k)[j] == s[j + 1]
    ensures multiset(Without(s, k)) + multiset{s[k]} == multiset(s)
  {
    assert s == s[..k] + [s[k]] + s[k + 1..];
  }
}
