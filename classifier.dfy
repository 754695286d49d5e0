/** The activation gesture: a thumbs-up. */
module Classifier {
  import opened Types

  /** The thumb tip is above the thumb joint while the index and middle
      fingertips are below their middle joints (curled). Image y grows
      downwards, so "above" is a smaller y. */
  predicate ThumbsUp(h: HandPose)
  {
    h.thumbTip < h.thumbIp && h.indexTip > h.indexPip && h.middleTip > h.middlePip
  }

  /** The same hand moved vertically by `dy` and stretched by `k`. */
  function Move(h: HandPose, k: real, dy: real): HandPose
  {
    HandPose(k * h.thumbIp + dy, k * h.thumbTip + dy,
             k * h.indexPip + dy, k * h.indexTip + dy,
             k * h.middlePip + dy, k * h.middleTip + dy)
  }

  /** The test compares landmarks of one hand with each other only, so where
      the hand is in the picture and how large it appears do not matter. */
  lemma ThumbsUpIgnoresPlacement(h: HandPose, k: real, dy: real)
    requires k > 0.0
    ensures ThumbsUp(Move(h, k, dy)) == ThumbsUp(h)
  {
  }
}
