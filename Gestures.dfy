/** Keyboard arrows and horizontal touch swipes, turned into section steps. */
module Gestures {
  import opened Wrappers

  /** Horizontal travel, in pixels, a swipe must exceed. */
  const SwipeThreshold: int := 50

  datatype Swipe = Next | Previous | Ignored

  function Abs(x: int): int { if x < 0 then -x else x }

  /** How a touch that moved by `(dx, dy)` is read: a horizontal-dominant
      move past the threshold is a swipe, leftward meaning the next section. */
  function ClassifySwipe(dx: int, dy: int): (s: Swipe)
    ensures s != Ignored <==> Abs(dx) > Abs(dy) && Abs(dx) > SwipeThreshold
    ensures s == Next ==> dx < -SwipeThreshold
    ensures s == Previous ==> dx > SwipeThreshold
  {
    if Abs(dx) > Abs(dy) && Abs(dx) > SwipeThreshold then
      (if dx < 0 then Next else Previous)
    else Ignored
  }

  function Mirror(s: Swipe): Swipe
  {
    match s
    case Next => Previous
    case Previous => Next
    case Ignored => Ignored
  }

  /** Reflecting a gesture left-to-right swaps next and previous. */
  lemma SwipeMirror(dx: int, dy: int)
    ensures ClassifySwipe(-dx, dy) == Mirror(ClassifySwipe(dx, dy))
  {
  }

  /** The index step a classified swipe asks for. */
  function SwipeStep(s: Swipe): (d: int)
    requires s != Ignored
    ensures d == 1 || d == -1
    ensures d == 1 <==> s == Next
  {
    if s == Next then 1 else -1
  }

  /** The index step a key press asks for; None for keys the handler ignores. */
  function KeyStep(key: string): (r: Option<int>)
    ensures r == Some(1) <==> key == "ArrowRight"
    ensures r == Some(-1) <==> key == "ArrowLeft"
    ensures r.None? <==> key != "ArrowRight" && key != "ArrowLeft"
  {
    if key == "ArrowRight" then Some(1)
    else if key == "ArrowLeft" then Some(-1)
    else None
  }
}
