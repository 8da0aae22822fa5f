# DXHeapView in Dafny

A model of the core of DXHeapView, an iOS "tag view": a self-sizing container
(`DXHeapView`) that lays out a list of items in a collection view, and the
flow-layout subclass (`DXCollectionViewLeftAlignedLayout`) that packs every row
against the left margin.

- `LeftAlignedLayout.dfy` — the override of `layoutAttributesForElements(in:)`.
  The in-place loop is `Step`/`Pass` (it reads the predecessor as already
  rewritten, as the Swift loop does through shared attribute objects);
  `LeftPacked` is an independent, declarative description of the result. The
  two are proved equivalent (`AlignCharacterization`), which gives uniqueness
  and idempotence of the transform.
- `HeapView.dfy` — `DXHeapView` as an immutable state record (items, cell
  configuration closure, attached flag, content size, bounds, counters of
  reloads and of intrinsic-size invalidations, and the log of item-handler
  calls) with one pure transition per setter or UIKit callback, plus event
  sequences for the reload-gating properties.
- `TagView.dfy` — `DXTagView`'s label-text rule and how it composes with the
  caller's configuration handler.
- `Extension.dfy` — the `given` combinators, `allMatch`/`anyMatch`/`noMatch`,
  `onlyElement`, `nilIfEmpty`, `Int.nilIfZero`, and the `UIEdgeInsets`
  initialisers.
- `Geometry.dfy`, `Wrappers.dfy` — CoreGraphics value types and `Optional`.

Coordinates are `real`. `CGRect.maxX` is modelled with CoreGraphics'
standardisation (a negative width gives `maxX == x`), so the same-row rule is
stated with `MaxX` in general and as `x + width + spacing` for non-negative
widths. Closures are Dafny functions; `item as? String` is a caller-supplied
cast `asString: T -> Option<string>`. The item-tap closure's effect is
recorded as the list of items it was called with.

What the code does, and the model with it:

- The first element is never rewritten (DXCollectionView/DXHeapView.swift:113).
  Three same-row cells at x = 0, 90, 260 with widths 80, 100, 60 and spacing 20
  become x = 0, 100, 220 (`ThreeCellRow`); a row whose first cell the stock
  layout put at the inset 8 becomes 8, 108, 228 (`ThreeCellRowFromInset`).
- Only section headers are exempt. Section footers and other supplementary
  elements are realigned like cells (`FooterIsRealigned`).
- The predecessor is simply the previous element, which may be a header.
- Setting `DXTagView.formatter` does not reload the view
  (`FormatterChangeDoesNotReload`).

## Model

| member | source | states |
|---|---|---|
| `LeftAlignedLayout.Step` | DXCollectionView/DXHeapView.swift:113-119 | one loop iteration keeps the length, touches only the element at its index, and changes nothing of it but `x` |
| `LeftAlignedLayout.Pass` | DXCollectionView/DXHeapView.swift:112-120 | the remaining iterations keep the length and change nothing but `x` of any element |
| `LeftAlignedLayout.LayoutAttributesForElements` | DXCollectionView/DXHeapView.swift:110-122 | `nil` from the base layout gives `nil`; otherwise the same elements in the same order, only `x` possibly changed (empty gives empty) |
| `LeftAlignedLayout.Align` | DXCollectionView/DXHeapView.swift:112-120 | the loop from index 0 yields a left-packed arrangement of its input: same length, only `x` changed, index 0 and headers untouched, every other element placed from its rewritten predecessor (the only such arrangement, see `AlignCharacterization`) |
| `LeftAlignedLayout.LeftPackedUnique` | DXCollectionView/DXHeapView.swift:112-120 | at most one arrangement of a given input is left-packed |
| `LeftAlignedLayout.AlignCharacterization` | DXCollectionView/DXHeapView.swift:110-121 | an output is left-packed for an input if and only if it is what the loop computes |
| `LeftAlignedLayout.AlignIdempotent` | DXCollectionView/DXHeapView.swift:110-121 | realigning an aligned sequence returns it unchanged |
| `LeftAlignedLayout.LayoutAttributesForElementsIdempotent` | DXCollectionView/DXHeapView.swift:110-122 | a second query over the already mutated attributes returns the same result, `nil` included |
| `LeftAlignedLayout.SkippedPassThrough` | DXCollectionView/DXHeapView.swift:113 | index 0 and every section header pass through unchanged |
| `LeftAlignedLayout.SameRowFollowsPredecessor` | DXCollectionView/DXHeapView.swift:114-116 | a non-header element on its predecessor's row starts at the predecessor's rewritten `maxX` plus the inter-item spacing, i.e. its `x + width + spacing` for a non-negative width |
| `LeftAlignedLayout.NewRowStartsAtInset` | DXCollectionView/DXHeapView.swift:117-118 | a non-header element on a different row from its predecessor starts at `sectionInset.left` |
| `LeftAlignedLayout.ThreeCellRow` | DXCollectionView/DXHeapView.swift:112-120 | cells at x 0, 90, 260 (widths 80, 100, 60, spacing 20) end at x 0, 100, 220 |
| `LeftAlignedLayout.ThreeCellRowFromInset` | DXCollectionView/DXHeapView.swift:112-120 | the same row starting at the inset 8 ends at x 8, 108, 228 |
| `LeftAlignedLayout.FooterIsRealigned` | DXCollectionView/DXHeapView.swift:113 | a section footer is not exempt and is packed behind its predecessor |
| `Geometry.MaxX` | DXCollectionView/DXHeapView.swift:116 | `maxX` is `x + width` for a non-negative width and `x` otherwise, never left of `x` |
| `HeapView.Init` | DXCollectionView/DXHeapView.swift:24-34 | a new view has no items, no configuration handler, no superview, zero sizes and no reloads |
| `HeapView.FlowParamsOf` | DXCollectionView/DXHeapView.swift:71-79 | the layout's inter-item spacing and section inset are the configuration's |
| `HeapView.DefaultLayout` | DXCollectionView/DXHeapView.swift:16-20 | by default items are 20 apart, the left inset is 8 and the line spacing 10 |
| `HeapView.ReloadDataIfNeeded` | DXCollectionView/DXHeapView.swift:99-102 | reloads once when attached; leaves the state unchanged when detached |
| `HeapView.SetItems` | DXCollectionView/DXHeapView.swift:26 | replaces the items and reloads exactly when attached; nothing else changes |
| `HeapView.SetConfigItemHandler` | DXCollectionView/DXHeapView.swift:27 | replaces the handler and reloads exactly when attached; nothing else changes |
| `HeapView.DidMoveToSuperview` | DXCollectionView/DXHeapView.swift:40-43 | records the new superview and reloads exactly when there is one |
| `HeapView.ContentSizeDidChange` | DXCollectionView/DXHeapView.swift:51-53 | a content-size change is stored and invalidates the intrinsic size once |
| `HeapView.IntrinsicContentSize` | DXCollectionView/DXHeapView.swift:55-58 | the content size when it is not zero, the bounds size when it is |
| `HeapView.IntrinsicSizeTracksContent` | DXCollectionView/DXHeapView.swift:51-58 | after a non-zero measurement the reported size is that measurement whatever the bounds; after a zero one it is the bounds |
| `HeapView.NumberOfItemsInSection` | DXCollectionView/DXHeapView.swift:82-84 | the row count is the number of items |
| `HeapView.CellForItemAt` | DXCollectionView/DXHeapView.swift:86-92 | the cell goes through the hook and then the configuration handler, if any, both with the row's item |
| `HeapView.NoHook` | DXCollectionView/DXHeapView.swift:105 | the base class hook leaves the cell unchanged |
| `HeapView.BindOrder` | DXCollectionView/DXHeapView.swift:86-92 | binding a row touches the cell exactly once with the hook and then once with the handler, each with `items[row]`; only the hook without a handler |
| `HeapView.DataSourceFollowsItems` | DXCollectionView/DXHeapView.swift:82-92 | after `items = xs` the view reports `xs.count` rows and binds row i to `xs[i]` |
| `HeapView.DidSelectItemAt` | DXCollectionView/DXHeapView.swift:94-96 | the item handler is called exactly once with `items[row]`; without a handler nothing happens, for any row |
| `HeapView.SelectWithoutHandlerIsNoOp` | DXCollectionView/DXHeapView.swift:95 | a view without an item handler is left unchanged by a tap on any row, in range or not |
| `HeapView.SelectAfterSetItems` | DXCollectionView/DXHeapView.swift:94-96 | after `items = xs`, a tap on row i of a view with an item handler calls it exactly once, with `xs[i]` |
| `HeapView.SelectThirdOfThree` | DXCollectionView/DXHeapView.swift:94-96 | tapping row 2 of ["x","y","z"] calls the handler once, with "z" |
| `HeapView.DetachedRunDoesNotReload` | DXCollectionView/DXHeapView.swift:99-102 | any run of changes while detached reloads nothing and leaves the last items set |
| `HeapView.RunKeepsLatestHandler` | DXCollectionView/DXHeapView.swift:27 | after any run of events the view holds the last configuration handler set |
| `HeapView.AttachReloadsOnceWithLatestItems` | DXCollectionView/DXHeapView.swift:40-43 | the first attachment after detached changes reloads exactly once, with the latest items and the latest configuration handler |
| `HeapView.AttachedSetsReloadEach` | DXCollectionView/DXHeapView.swift:26-27 | while attached every property set reloads once |
| `TagView.LabelText` | DXCollectionView/DXCollectionView/DXTagView.swift:16-20 | with a formatter the text is its output; without one it is the item as a string, `nil` for a non-string |
| `TagView.WillConfigureCell` | DXCollectionView/DXCollectionView/DXTagView.swift:15-21 | the hook always assigns the label text and changes nothing else |
| `TagView.StringItemShowsItself` | DXCollectionView/DXCollectionView/DXTagView.swift:16-17 | without a formatter a string item is shown as itself |
| `TagView.FormatterWinsOverString` | DXCollectionView/DXCollectionView/DXTagView.swift:16-19 | a formatter is used even for string items |
| `TagView.NonStringWithoutFormatterClears` | DXCollectionView/DXCollectionView/DXTagView.swift:19 | without a formatter a non-string item sets the text to `nil` |
| `TagView.HookForgetsStaleText` | DXCollectionView/DXCollectionView/DXTagView.swift:15-21 | no text of a recycled cell's previous binding survives the hook |
| `TagView.Init` | DXCollectionView/DXCollectionView/DXTagView.swift:11-13 | a new tag view has no formatter and its base is exactly a new heap view with the same configuration and item handler |
| `TagView.SetFormatter` | DXCollectionView/DXCollectionView/DXTagView.swift:13 | setting the formatter changes nothing of the underlying view |
| `TagView.CellForItemAt` | DXCollectionView/DXHeapView.swift:86-92 | without a configuration handler a tag cell shows exactly the label-text rule's text |
| `TagView.FreshStringCell` | DXCollectionView/DXCollectionView/DXTagView.swift:15-17 | a fresh cell bound to a string item, with no formatter and no handler, shows the item on its orange background |
| `TagView.HandlerOverridesHook` | DXCollectionView/DXHeapView.swift:89-90 | a handler that sets the text runs after the hook and decides the text |
| `TagView.FormatterChangeDoesNotReload` | DXCollectionView/DXCollectionView/DXTagView.swift:13 | changing the formatter of an attached view does not reload it |
| `Extension.Given` | DXCollectionView/DXCollectionView/DXExtension.swift:7-10 | `nil` for `nil`, `f(x)` otherwise |
| `Extension.GivenBoth` | DXCollectionView/DXCollectionView/DXExtension.swift:13-16 | `nil` if either argument is `nil`, `f(x, y)` when both are present |
| `Extension.GivenChoice` | DXCollectionView/DXCollectionView/DXExtension.swift:19-22 | `given(x, f)` when the condition holds, `given(y, f)` otherwise |
| `Extension.GivenSomeIsIdentity` | DXCollectionView/DXCollectionView/DXExtension.swift:7-10 | `given` with a function that always succeeds returns its argument |
| `Extension.GivenAssociative` | DXCollectionView/DXCollectionView/DXExtension.swift:7-10 | chained `given`s equal one `given` of the composed functions |
| `Extension.GivenBothIsNestedGiven` | DXCollectionView/DXCollectionView/DXExtension.swift:13-16 | the two-argument `given` equals two nested one-argument ones |
| `Extension.AllMatch` | DXCollectionView/DXCollectionView/DXExtension.swift:28-31 | true exactly when every element matches, so true on an empty collection |
| `Extension.AnyMatch` | DXCollectionView/DXCollectionView/DXExtension.swift:33-36 | true exactly when some element matches, so false on an empty collection |
| `Extension.NoMatch` | DXCollectionView/DXCollectionView/DXExtension.swift:38-41 | true exactly when no element matches |
| `Extension.NoMatchIsNotAnyMatch` | DXCollectionView/DXCollectionView/DXExtension.swift:33-41 | `noMatch(p) == !anyMatch(p)` for every predicate |
| `Extension.AllMatchIsNoMatchOfNegation` | DXCollectionView/DXCollectionView/DXExtension.swift:28-41 | `allMatch(p)` equals `noMatch` of the negated predicate |
| `Extension.OnlyElement` | DXCollectionView/DXCollectionView/DXExtension.swift:50 | present exactly when the count is 1, and then the first element |
| `Extension.OnlyElementIsSingleton` | DXCollectionView/DXCollectionView/DXExtension.swift:50 | `onlyElement` is `x` exactly for the collection `[x]` |
| `Extension.NilIfEmpty` | DXCollectionView/DXCollectionView/DXExtension.swift:52 | `nil` exactly for the empty collection, otherwise the collection itself |
| `Extension.NilIfEmptyRoundTrip` | DXCollectionView/DXCollectionView/DXExtension.swift:52 | falling back to the empty collection restores the input |
| `Extension.NilIfZero` | DXCollectionView/DXCollectionView/DXExtension.swift:237 | `nil` exactly for 0, otherwise the number |
| `Extension.NilIfZeroRoundTrip` | DXCollectionView/DXCollectionView/DXExtension.swift:237 | falling back to 0 restores the input |
| `Extension.UniformInsets` | DXCollectionView/DXCollectionView/DXExtension.swift:162-164 | all four sides are the given value |
| `Extension.SymmetricInsets` | DXCollectionView/DXCollectionView/DXExtension.swift:166-168 | left and right are the horizontal inset, top and bottom the vertical one |
| `Extension.SymmetricInsetsAgreeWithUniform` | DXCollectionView/DXCollectionView/DXExtension.swift:162-168 | equal insets are uniform ones; both defaults are 0 |

## Left out

- The stock flow-layout pass (`super.layoutAttributesForElements`, `estimatedItemSize`, line spacing): UIKit internals; its output is an arbitrary input sequence of the override.
- Key-value observation plumbing (`addObserver`, the key-path test in `observeValue`, `deinit`): a content-size change is the explicit transition `ContentSizeDidChange`.
- The call `superview?.didMoveToSuperview()` in `didMoveToSuperview`: it runs the parent's UIKit hook, which is outside the widget.
- What `reloadData()` makes UIKit do (re-querying the data source, a new layout pass, a new content size): a reload is counted; its effects arrive as later transitions.
- Collection view construction, cell registration and dequeuing: the dequeued cell is a parameter of `CellForItemAt`.
- `HeapView.CellForItemAt`: requires a row inside the item list, because the subscript `items[indexPath.row]` traps on any other index and UIKit only asks for rows the data source reported; the same holds for `TagView.CellForItemAt`.
- `HeapView.DidSelectItemAt`: requires a row inside the item list only when there is an item handler, because only then is `items[indexPath.row]` evaluated and a bad row would trap; without a handler any row is a no-op.
- `init?(coder:)`: only a construction-time `fatalError`.
- IEEE floating point: `CGFloat` is `real`, so NaN and rounding are not modelled.
- `throws`/`rethrows` of the `given` overloads: a thrown error propagates unchanged and carries no logic.
- `Decimal.nilIfZero`: the same rule as `Int.nilIfZero` over decimal numbers, which are not modelled.
- Auto-layout and drawing helpers of the extension file (`pinEdges`, `constrainHeight`/`constrainWidth`, `constraintSize`, `addSubview(_:pinningEdges…)`, `addSeparator`, `cornerRadius`, `borderWidth`, `borderColor`): thin wrappers over NSLayoutConstraint and CALayer.
- The `UIButton` tap-handler initialiser: an Objective-C associated-object side table.
- Attributed-string builders, `Date.formatted`, the `UIStackView` initialiser, `CGSize(uniform:)`, `CGRect.center` and `CGRect(center:size:)`: Foundation and CoreGraphics wrappers.
- `DXTagCell` drawing and label styling, `DXActinoTagCell` (constraints only) and the demo `ViewController`: rendering and demo code without logic.
