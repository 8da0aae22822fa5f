/**
  `DXCollectionViewLeftAlignedLayout`: the override of
  `layoutAttributesForElements(in:)` that takes the attributes the stock flow
  layout computed and pushes every element of a row against its left
  neighbour.

  The source walks the array once, left to right, and mutates each
  attributes object in place. Because the objects are shared, the frame it
  reads for the predecessor at index `i - 1` is the one already rewritten in
  the previous iteration; `Step` and `Pass` reproduce exactly that loop.
 */
module LeftAlignedLayout {
  import opened Wrappers
  import opened Geometry

  /** `UICollectionView.elementKindSectionHeader`. */
  const SectionHeaderKind: string := "UICollectionElementKindSectionHeader"

  /** `UICollectionView.elementKindSectionFooter`; the override does not treat it specially. */
  const SectionFooterKind: string := "UICollectionElementKindSectionFooter"

  datatype IndexPath = IndexPath(section: nat, item: nat)

  /**
    `UICollectionViewLayoutAttributes`, reduced to what the override reads:
    the element kind (`nil` for cells) and the frame. The index path is kept
    so that "nothing but x changes" is about more than a rectangle.
   */
  datatype LayoutAttributes = LayoutAttributes(
    indexPath: IndexPath,
    representedElementKind: Option<string>,
    frame: Rect)

  /** The two flow-layout properties the override reads. */
  datatype FlowParams = FlowParams(minimumInteritemSpacing: real, sectionInset: EdgeInsets)

  predicate IsSectionHeader(a: LayoutAttributes) {
    a.representedElementKind == Some(SectionHeaderKind)
  }

  function OriginY(a: LayoutAttributes): real {
    a.frame.origin.y
  }

  function OriginX(a: LayoutAttributes): real {
    a.frame.origin.x
  }

  /** `a` with `frame.origin.x` replaced; every other attribute kept. */
  function WithOriginX(a: LayoutAttributes, x: real): (b: LayoutAttributes)
    ensures OriginX(b) == x
  {
    a.(frame := a.frame.(origin := a.frame.origin.(x := x)))
  }

  /** `b` differs from `a` at most in `frame.origin.x`. */
  predicate SameButX(a: LayoutAttributes, b: LayoutAttributes) {
    b == WithOriginX(a, OriginX(b))
  }

  /** The guard of the loop: index 0 and section headers are left alone. */
  predicate Skipped(items: seq<LayoutAttributes>, i: int)
    requires 0 <= i < |items|
  {
    i == 0 || IsSectionHeader(items[i])
  }

  /**
    The x the loop assigns to an element whose predecessor's frame is `pre`:
    after the predecessor when they share a row, at the left inset otherwise.
   */
  function PackedX(pre: LayoutAttributes, cur: LayoutAttributes, p: FlowParams): real {
    if OriginY(pre) == OriginY(cur) then MaxX(pre.frame) + p.minimumInteritemSpacing
    else p.sectionInset.left
  }

  /** One iteration of the loop, for `index`, on the array as mutated so far. */
  function Step(items: seq<LayoutAttributes>, index: nat, p: FlowParams): (r: seq<LayoutAttributes>)
    requires index < |items|
    ensures |r| == |items|
    ensures forall j :: 0 <= j < |items| && j != index ==> r[j] == items[j]
    ensures SameButX(items[index], r[index])
  {
    if Skipped(items, index) then items
    else items[index := WithOriginX(items[index], PackedX(items[index - 1], items[index], p))]
  }

  /** The iterations `index`, `index + 1`, ... of the loop. */
  function Pass(items: seq<LayoutAttributes>, index: nat, p: FlowParams): (r: seq<LayoutAttributes>)
    requires index <= |items|
    ensures |r| == |items|
    ensures forall j :: 0 <= j < |items| ==> SameButX(items[j], r[j])
    decreases |items| - index
  {
    if index == |items| then items
    else
      var next := Step(items, index, p);
      var r := Pass(next, index + 1, p);
      assert forall j :: 0 <= j < |items| ==> SameButX(items[j], next[j]) && SameButX(next[j], r[j]);
      r
  }

  /**
    The whole loop over the base layout's attributes, from index 0: its
    result is the left-packed arrangement of the input (and, by
    `AlignCharacterization`, the only one).
   */
  function Align(items: seq<LayoutAttributes>, p: FlowParams): (r: seq<LayoutAttributes>)
    ensures LeftPacked(items, r, p)
  {
    assert PackedUpTo(items, items, 0, p);
    PassPacks(items, items, 0, p);
    Pass(items, 0, p)
  }

  /**
    `layoutAttributesForElements(in:)`: `nil` from the stock layout is passed
    on; otherwise the same elements, in the same order, of which only the
    x origins may have moved.
   */
  function LayoutAttributesForElements(base: Option<seq<LayoutAttributes>>, p: FlowParams)
    : (r: Option<seq<LayoutAttributes>>)
    ensures r.None? <==> base.None?
    ensures r.Some? ==> |r.value| == |base.value|
    ensures r.Some? ==> forall i :: 0 <= i < |r.value| ==> SameButX(base.value[i], r.value[i])
  {
    match base
    case None => None
    case Some(items) => Some(Align(items, p))
  }

  // ---------------------------------------------------------------------
  // A declarative description of the result, independent of the loop.

  /**
    `output` is `input` left-packed: same length, only x may differ, index 0
    and headers untouched, and every other element placed from its
    (already placed) predecessor in `output`.
   */
  ghost predicate LeftPacked(input: seq<LayoutAttributes>, output: seq<LayoutAttributes>, p: FlowParams) {
    && |output| == |input|
    && (forall i :: 0 <= i < |input| ==> SameButX(input[i], output[i]))
    && (forall i :: 0 <= i < |input| && Skipped(input, i) ==> output[i] == input[i])
    && (forall i :: 0 < i < |input| && !IsSectionHeader(input[i]) ==>
          OriginX(output[i]) == PackedX(output[i - 1], output[i], p))
  }

  /** What holds of the array after the iterations below `k`. */
  ghost predicate PackedUpTo(input: seq<LayoutAttributes>, cur: seq<LayoutAttributes>, k: nat, p: FlowParams) {
    && |cur| == |input|
    && k <= |input|
    && (forall i :: 0 <= i < |input| ==> SameButX(input[i], cur[i]))
    && (forall i :: k <= i < |input| ==> cur[i] == input[i])
    && (forall i :: 0 <= i < k && Skipped(input, i) ==> cur[i] == input[i])
    && (forall i :: 0 < i < k && !IsSectionHeader(input[i]) ==>
          OriginX(cur[i]) == PackedX(cur[i - 1], cur[i], p))
  }

  /** `SameButX` keeps the row (y) and the width of a frame, and its kind. */
  lemma SameButXKeeps(a: LayoutAttributes, b: LayoutAttributes)
    requires SameButX(a, b)
    ensures OriginY(b) == OriginY(a)
    ensures b.frame.size == a.frame.size
    ensures IsSectionHeader(b) == IsSectionHeader(a)
  {
  }

  /** One iteration extends the packed prefix by one element. */
  lemma {:induction false} StepExtendsPrefix(input: seq<LayoutAttributes>, cur: seq<LayoutAttributes>, k: nat, p: FlowParams)
    requires PackedUpTo(input, cur, k, p) && k < |input|
    ensures PackedUpTo(input, Step(cur, k, p), k + 1, p)
  {
    var next := Step(cur, k, p);
    assert cur[k] == input[k];
    if !Skipped(input, k) {
      SameButXKeeps(input[k - 1], cur[k - 1]);
      SameButXKeeps(input[k], next[k]);
      assert next[k - 1] == cur[k - 1];
      assert OriginX(next[k]) == PackedX(next[k - 1], next[k], p);
    }
    forall i | 0 < i < k + 1 && !IsSectionHeader(input[i])
      ensures OriginX(next[i]) == PackedX(next[i - 1], next[i], p)
    {
      if i < k {
        assert next[i] == cur[i] && next[i - 1] == cur[i - 1];
      }
    }
  }

  /** The remaining iterations finish the job. */
  lemma {:induction false} PassPacks(input: seq<LayoutAttributes>, cur: seq<LayoutAttributes>, k: nat, p: FlowParams)
    requires PackedUpTo(input, cur, k, p)
    ensures LeftPacked(input, Pass(cur, k, p), p)
    decreases |input| - k
  {
    if k == |input| {
      assert Pass(cur, k, p) == cur;
    } else {
      StepExtendsPrefix(input, cur, k, p);
      PassPacks(input, Step(cur, k, p), k + 1, p);
    }
  }

  /** Two left-packed versions of one input agree on every element up to `i`. */
  lemma {:induction false} LeftPackedAgreeUpTo(input: seq<LayoutAttributes>, o1: seq<LayoutAttributes>,
                                               o2: seq<LayoutAttributes>, p: FlowParams, i: nat)
    requires LeftPacked(input, o1, p) && LeftPacked(input, o2, p)
    requires i < |input|
    ensures o1[i] == o2[i]
  {
    if Skipped(input, i) {
    } else {
      LeftPackedAgreeUpTo(input, o1, o2, p, i - 1);
      SameButXKeeps(input[i], o1[i]);
      SameButXKeeps(input[i], o2[i]);
      assert OriginX(o1[i]) == OriginX(o2[i]);
    }
  }

  /** A left-packed version of an input is unique. */
  lemma LeftPackedUnique(input: seq<LayoutAttributes>, o1: seq<LayoutAttributes>,
                         o2: seq<LayoutAttributes>, p: FlowParams)
    requires LeftPacked(input, o1, p) && LeftPacked(input, o2, p)
    ensures o1 == o2
  {
    forall i | 0 <= i < |input|
      ensures o1[i] == o2[i]
    {
      LeftPackedAgreeUpTo(input, o1, o2, p, i);
    }
  }

  /** The loop computes exactly the left-packed arrangement, and nothing else is one. */
  lemma AlignCharacterization(input: seq<LayoutAttributes>, output: seq<LayoutAttributes>, p: FlowParams)
    ensures LeftPacked(input, output, p) <==> output == Align(input, p)
  {
    if LeftPacked(input, output, p) {
      LeftPackedUnique(input, output, Align(input, p), p);
    }
  }

  /**
    Aligning an aligned result changes nothing. (The stock layout hands out
    its cached attribute objects, which the override mutates, so a second
    query sees the first query's output.)
   */
  lemma AlignIdempotent(input: seq<LayoutAttributes>, p: FlowParams)
    ensures Align(Align(input, p), p) == Align(input, p)
  {
    var o := Align(input, p);
    forall i | 0 <= i < |o|
      ensures Skipped(o, i) == Skipped(input, i)
    {
      SameButXKeeps(input[i], o[i]);
    }
    assert LeftPacked(o, o, p);
    LeftPackedUnique(o, o, Align(o, p), p);
  }

  /** The same, for the overridden method itself. */
  lemma LayoutAttributesForElementsIdempotent(base: Option<seq<LayoutAttributes>>, p: FlowParams)
    ensures LayoutAttributesForElements(LayoutAttributesForElements(base, p), p)
         == LayoutAttributesForElements(base, p)
  {
    if base.Some? {
      AlignIdempotent(base.value, p);
    }
  }

  // ---------------------------------------------------------------------
  // The individual placement rules, read off the result.

  /** Index 0 and every section header keep their frame. */
  lemma SkippedPassThrough(input: seq<LayoutAttributes>, p: FlowParams, i: nat)
    requires i < |input| && (i == 0 || IsSectionHeader(input[i]))
    ensures Align(input, p)[i] == input[i]
  {
  }

  /**
    A non-header element on its predecessor's row starts one inter-item
    spacing after the predecessor's (rewritten) right edge; with a
    non-negative predecessor width, that is its x plus its width.
   */
  lemma SameRowFollowsPredecessor(input: seq<LayoutAttributes>, p: FlowParams, i: nat)
    requires 0 < i < |input| && !IsSectionHeader(input[i])
    requires OriginY(input[i - 1]) == OriginY(input[i])
    ensures OriginX(Align(input, p)[i]) == MaxX(Align(input, p)[i - 1].frame) + p.minimumInteritemSpacing
    ensures input[i - 1].frame.size.width >= 0.0 ==>
      OriginX(Align(input, p)[i]) == OriginX(Align(input, p)[i - 1]) + input[i - 1].frame.size.width + p.minimumInteritemSpacing
  {
    var o := Align(input, p);
    SameButXKeeps(input[i - 1], o[i - 1]);
    SameButXKeeps(input[i], o[i]);
  }

  /** A non-header element that starts a new row starts at the left section inset. */
  lemma NewRowStartsAtInset(input: seq<LayoutAttributes>, p: FlowParams, i: nat)
    requires 0 < i < |input| && !IsSectionHeader(input[i])
    requires OriginY(input[i - 1]) != OriginY(input[i])
    ensures OriginX(Align(input, p)[i]) == p.sectionInset.left
  {
    var o := Align(input, p);
    SameButXKeeps(input[i - 1], o[i - 1]);
    SameButXKeeps(input[i], o[i]);
  }

  // ---------------------------------------------------------------------
  // Worked examples.

  /** 20 points between items, 8 points of inset on every side. */
  const ExampleParams: FlowParams := FlowParams(20.0, EdgeInsets(8.0, 8.0, 8.0, 8.0))

  function Footer(x: real, y: real): LayoutAttributes {
    LayoutAttributes(IndexPath(0, 0), Some(SectionFooterKind), Rect(Point(x, y), Size(50.0, 30.0)))
  }

  function Cell(item: nat, x: real, y: real, width: real, height: real): LayoutAttributes {
    LayoutAttributes(IndexPath(0, item), None, Rect(Point(x, y), Size(width, height)))
  }

  /**
    Three cells of one row, right-justified by the stock layout at x = 0, 90
    and 260 with widths 80, 100 and 60: the first stays where it is, the
    others close up behind it with 20 points between them.
   */
  lemma ThreeCellRow()
    ensures Align([Cell(0, 0.0, 8.0, 80.0, 30.0), Cell(1, 90.0, 8.0, 100.0, 30.0), Cell(2, 260.0, 8.0, 60.0, 30.0)], ExampleParams)
         == [Cell(0, 0.0, 8.0, 80.0, 30.0), Cell(1, 100.0, 8.0, 100.0, 30.0), Cell(2, 220.0, 8.0, 60.0, 30.0)]
  {
    var p := ExampleParams;
    var input := [Cell(0, 0.0, 8.0, 80.0, 30.0), Cell(1, 90.0, 8.0, 100.0, 30.0), Cell(2, 260.0, 8.0, 60.0, 30.0)];
    var expected := [Cell(0, 0.0, 8.0, 80.0, 30.0), Cell(1, 100.0, 8.0, 100.0, 30.0), Cell(2, 220.0, 8.0, 60.0, 30.0)];
    assert LeftPacked(input, expected, p);
    AlignCharacterization(input, expected, p);
  }

  /**
    The same row when the stock layout put its first cell at the left inset,
    as it does for the first item of a section: the packed row then starts
    at the inset too.
   */
  lemma ThreeCellRowFromInset()
    ensures Align([Cell(0, 8.0, 8.0, 80.0, 30.0), Cell(1, 90.0, 8.0, 100.0, 30.0), Cell(2, 260.0, 8.0, 60.0, 30.0)], ExampleParams)
         == [Cell(0, 8.0, 8.0, 80.0, 30.0), Cell(1, 108.0, 8.0, 100.0, 30.0), Cell(2, 228.0, 8.0, 60.0, 30.0)]
  {
    var p := ExampleParams;
    var input := [Cell(0, 8.0, 8.0, 80.0, 30.0), Cell(1, 90.0, 8.0, 100.0, 30.0), Cell(2, 260.0, 8.0, 60.0, 30.0)];
    var expected := [Cell(0, 8.0, 8.0, 80.0, 30.0), Cell(1, 108.0, 8.0, 100.0, 30.0), Cell(2, 228.0, 8.0, 60.0, 30.0)];
    assert LeftPacked(input, expected, p);
    AlignCharacterization(input, expected, p);
  }

  /**
    Only section headers are exempt: a section footer on the last row of
    cells is moved up against the cell before it like any cell.
   */
  lemma FooterIsRealigned()
    ensures OriginX(Align([Cell(0, 8.0, 8.0, 80.0, 30.0), Footer(300.0, 8.0)], ExampleParams)[1]) == 108.0
  {
    var input := [Cell(0, 8.0, 8.0, 80.0, 30.0), Footer(300.0, 8.0)];
    SameRowFollowsPredecessor(input, ExampleParams, 1);
    SkippedPassThrough(input, ExampleParams, 0);
  }
}
