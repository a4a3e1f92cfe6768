/**
 * Placement of the value labels above and below the dots of one series.
 * The dots are visited in order of x; each label takes the first element
 * of a two-element pair, starting from [-10, 20], and the pair is reversed
 * whenever a dot's pixel x is less than 30 from the previous dot's, so that
 * labels of crowded neighbours alternate above and below.
 */
module LabelPlacement {
  import opened Wrappers

  /** Vertical label offset above the dot, and below it. */
  const Above: int := -10
  const Below: int := 20

  /** Two dots whose pixel x differ by less than this are crowded. */
  const MinLabelGap: real := 30.0

  /** The dot at `i` is crowded against the dot before it. */
  predicate Crowded(px: seq<real>, i: nat)
    requires i < |px|
  {
    i > 0 && px[i] - px[i - 1] < MinLabelGap
  }

  /** The other element of the pair. */
  function Flip(offset: int): (r: int)
    ensures offset == Above ==> r == Below
    ensures offset == Below ==> r == Above
  {
    if offset == Above then Below else Above
  }

  /** The offset of the label of dot `i`, step by step from the first dot. */
  function OffsetAt(px: seq<real>, i: nat): (r: int)
    requires i < |px|
    ensures r == Above || r == Below
    ensures i == 0 ==> r == Above
  {
    if i == 0 then Above
    else if Crowded(px, i) then Flip(OffsetAt(px, i - 1))
    else OffsetAt(px, i - 1)
  }

  /** The offsets of all labels of a series whose dots are at pixel x `px`. */
  function LabelOffsets(px: seq<real>): (r: seq<int>)
    ensures |r| == |px|
    ensures forall i :: 0 <= i < |r| ==> r[i] == Above || r[i] == Below
    ensures |px| > 0 ==> r[0] == Above
    ensures forall i :: 0 < i < |px| ==> (r[i] != r[i - 1] <==> px[i] - px[i - 1] < MinLabelGap)
  {
    seq(|px|, i requires 0 <= i < |px| => OffsetAt(px, i))
  }

  /**
   * The loop's own test: is `current` less than the gap from the last
   * labelled x (none yet: minus infinity)? With the previous dot's x as
   * `last` it is `Crowded`, which the loop invariant of
   * `ResolveLabelOffsets` relies on.
   */
  predicate CloseTo(current: real, last: Option<real>)
  {
    match last
    case None => false
    case Some(l) => current - l < MinLabelGap
  }

  /**
   * The label pass: the pair is an array reversed in place, the last
   * labelled x is `None` before the first dot (minus infinity in the chart).
   */
  method ResolveLabelOffsets(px: seq<real>) returns (offsets: seq<int>)
    ensures offsets == LabelOffsets(px)
  {
    var lastYs := new int[2];
    lastYs[0], lastYs[1] := Above, Below;
    var lastLabelX: Option<real> := None;
    offsets := [];
    var i := 0;
    while i < |px|
      invariant 0 <= i <= |px|
      invariant |offsets| == i
      invariant forall k :: 0 <= k < i ==> offsets[k] == OffsetAt(px, k)
      invariant i == 0 ==> lastLabelX == None && lastYs[0] == Above
      invariant i > 0 ==> lastLabelX == Some(px[i - 1]) && lastYs[0] == OffsetAt(px, i - 1)
      invariant lastYs[1] == Flip(lastYs[0])
    {
      var currentX := px[i];
      if i > 0 && CloseTo(currentX, lastLabelX) {
        lastYs[0], lastYs[1] := lastYs[1], lastYs[0];
      }
      lastLabelX := Some(currentX);
      offsets := offsets + [lastYs[0]];
      i := i + 1;
    }
  }

  /** The number of crowded dots among 1..i. */
  function CrowdedCount(px: seq<real>, i: nat): nat
    requires i < |px|
  {
    if i == 0 then 0 else (if Crowded(px, i) then 1 else 0) + CrowdedCount(px, i - 1)
  }

  /** The label of dot i is above exactly when an even number of dots up to i are crowded. */
  lemma {:induction false} OffsetParity(px: seq<real>, i: nat)
    requires i < |px|
    ensures OffsetAt(px, i) == if CrowdedCount(px, i) % 2 == 0 then Above else Below
  {
    if i > 0 {
      OffsetParity(px, i - 1);
    }
  }

  /** The offsets of a prefix of the dots do not depend on the dots after it. */
  lemma {:induction false} OffsetsOfPrefix(px: seq<real>, j: nat)
    requires j <= |px|
    ensures LabelOffsets(px[..j]) == LabelOffsets(px)[..j]
  {
    forall i | 0 <= i < j
      ensures OffsetAt(px[..j], i) == OffsetAt(px, i)
    {
      PrefixOffsetAt(px, j, i);
    }
  }

  lemma {:induction false} PrefixOffsetAt(px: seq<real>, j: nat, i: nat)
    requires i < j <= |px|
    ensures OffsetAt(px[..j], i) == OffsetAt(px, i)
  {
    if i > 0 {
      PrefixOffsetAt(px, j, i - 1);
      assert Crowded(px[..j], i) == Crowded(px, i);
    }
  }

  /** Dots at least the minimum gap apart all get their label above. */
  lemma {:induction false} SpacedLabelsAbove(px: seq<real>, i: nat)
    requires i < |px|
    requires forall k :: 0 < k < |px| ==> px[k] - px[k - 1] >= MinLabelGap
    ensures LabelOffsets(px)[i] == Above
  {
    if i > 0 {
      SpacedLabelsAbove(px, i - 1);
    }
  }
}
