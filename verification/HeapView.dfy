/**
  `DXHeapView<T, V>`: the self-sizing container that hosts the collection
  view. Its UIKit state is reduced to a value: the item list, the cell
  configuration closure, whether the view has a superview, the collection
  view's content size, the view's bounds, and counters for the
  `reloadData()` calls and the intrinsic-size invalidations it issued.
  `C` stands for the cell type `V`; a closure that configures a cell is a
  function from the cell's state to its new state. The item-tap closure is
  fixed at construction; its effect is recorded as the list of items it was
  called with.
 */
module HeapView {
  import opened Wrappers
  import opened Geometry
  import Extension
  import LeftAlignedLayout

  /** `DXHeapView.Config`. */
  datatype Config = Config(lineSpacing: real, interitemSpacing: real, sectionInset: EdgeInsets)

  /** `Config()`: 10 points between lines, 20 between items, 8 of inset all round. */
  const DefaultConfig: Config := Config(10.0, 20.0, Extension.UniformInsets(8.0))

  datatype HeapView<!T, !C> = HeapView(
    itemConfig: Config,
    hasItemHandler: bool,
    items: seq<T>,
    configItemHandler: Option<(C, T) -> C>,
    attached: bool,
    contentSize: Size,
    bounds: Size,
    reloads: nat,
    invalidations: nat,
    itemHandlerCalls: seq<T>)

  /**
    `init(_:itemHandler:)`: empty, unconfigured, not in a view hierarchy, with
    a zero frame and nothing reloaded yet.
   */
  function Init<T, C>(itemConfig: Config, hasItemHandler: bool): (v: HeapView<T, C>)
    ensures v.itemConfig == itemConfig && v.hasItemHandler == hasItemHandler
    ensures v.items == [] && v.configItemHandler.None?
    ensures !v.attached
    ensures v.contentSize == ZeroSize && v.bounds == ZeroSize
    ensures v.reloads == 0 && v.invalidations == 0 && v.itemHandlerCalls == []
  {
    HeapView(itemConfig, hasItemHandler, [], None, false, ZeroSize, ZeroSize, 0, 0, [])
  }

  /** The parameters `collectionFlowLayout` hands to the left-aligned layout. */
  function FlowParamsOf(c: Config): (p: LeftAlignedLayout.FlowParams)
    ensures p.minimumInteritemSpacing == c.interitemSpacing
    ensures p.sectionInset == c.sectionInset
  {
    LeftAlignedLayout.FlowParams(c.interitemSpacing, c.sectionInset)
  }

  /** The default configuration packs items 20 points apart from a left inset of 8. */
  lemma DefaultLayout()
    ensures FlowParamsOf(DefaultConfig).minimumInteritemSpacing == 20.0
    ensures FlowParamsOf(DefaultConfig).sectionInset.left == 8.0
    ensures DefaultConfig.lineSpacing == 10.0
  {
  }

  /** `reloadDataIfNeeded()`: reload only when the view has a superview. */
  function ReloadDataIfNeeded<T, C>(v: HeapView<T, C>): (r: HeapView<T, C>)
    ensures v.attached ==> r.reloads == v.reloads + 1
    ensures !v.attached ==> r == v
    ensures r == v.(reloads := r.reloads)
  {
    if v.attached then v.(reloads := v.reloads + 1) else v
  }

  /** Setting `items`; the `didSet` observer reloads if attached. */
  function SetItems<T, C>(v: HeapView<T, C>, items: seq<T>): (r: HeapView<T, C>)
    ensures r.items == items
    ensures r.reloads == if v.attached then v.reloads + 1 else v.reloads
    ensures r == v.(items := items, reloads := r.reloads)
  {
    ReloadDataIfNeeded(v.(items := items))
  }

  /** Setting `configItemHandler`; the `didSet` observer reloads if attached. */
  function SetConfigItemHandler<T, C>(v: HeapView<T, C>, h: Option<(C, T) -> C>): (r: HeapView<T, C>)
    ensures r.configItemHandler == h
    ensures r.reloads == if v.attached then v.reloads + 1 else v.reloads
    ensures r == v.(configItemHandler := h, reloads := r.reloads)
  {
    ReloadDataIfNeeded(v.(configItemHandler := h))
  }

  /**
    `didMoveToSuperview()`, called by UIKit after the superview changed to
    one that is present (`hasSuperview`) or to none: reload when now attached.
   */
  function DidMoveToSuperview<T, C>(v: HeapView<T, C>, hasSuperview: bool): (r: HeapView<T, C>)
    ensures r.attached == hasSuperview
    ensures r.reloads == if hasSuperview then v.reloads + 1 else v.reloads
    ensures r == v.(attached := hasSuperview, reloads := r.reloads)
  {
    ReloadDataIfNeeded(v.(attached := hasSuperview))
  }

  /**
    The collection view's `contentSize` changed: the key-value observer
    invalidates the intrinsic content size.
   */
  function ContentSizeDidChange<T, C>(v: HeapView<T, C>, size: Size): (r: HeapView<T, C>)
    ensures r.contentSize == size
    ensures r.invalidations == v.invalidations + 1
    ensures r == v.(contentSize := size, invalidations := r.invalidations)
  {
    v.(contentSize := size, invalidations := v.invalidations + 1)
  }

  /** The host's layout gave the view a new bounds size. */
  function BoundsDidChange<T, C>(v: HeapView<T, C>, size: Size): (r: HeapView<T, C>)
    ensures r == v.(bounds := size)
  {
    v.(bounds := size)
  }

  /**
    `intrinsicContentSize`: the measured content size, or the view's own
    bounds while the content size is still zero.
   */
  function IntrinsicContentSize<T, C>(v: HeapView<T, C>): (s: Size)
    ensures v.contentSize != ZeroSize ==> s == v.contentSize
    ensures v.contentSize == ZeroSize ==> s == v.bounds
  {
    if v.contentSize == ZeroSize then v.bounds else v.contentSize
  }

  /**
    Once the content has been measured at a non-zero size, that size is what
    the view reports and what the bounds are no longer consulted for; a
    measurement of zero falls back to the bounds.
   */
  lemma IntrinsicSizeTracksContent<T, C>(v: HeapView<T, C>, size: Size, bounds: Size)
    ensures size != ZeroSize ==> IntrinsicContentSize(BoundsDidChange(ContentSizeDidChange(v, size), bounds)) == size
    ensures size == ZeroSize ==> IntrinsicContentSize(BoundsDidChange(ContentSizeDidChange(v, size), bounds)) == bounds
    ensures ContentSizeDidChange(v, size).invalidations > v.invalidations
  {
  }

  /** `collectionView(_:numberOfItemsInSection:)`: one section, holding every item. */
  function NumberOfItemsInSection<T, C>(v: HeapView<T, C>, section: int): (n: nat)
    ensures n == |v.items|
  {
    |v.items|
  }

  /**
    `collectionView(_:cellForItemAt:)` for a dequeued `cell`: the cell is
    handed to the `willConfigureCell` hook and then to `configItemHandler`,
    if set, both with the item at the row. Swift traps on a row outside the
    list; UIKit only asks for the rows the data source reported.
   */
  function CellForItemAt<T, C>(v: HeapView<T, C>, hook: (C, T) -> C, row: nat, cell: C): (r: C)
    requires row < |v.items|
    ensures v.configItemHandler.None? ==> r == hook(cell, v.items[row])
    ensures v.configItemHandler.Some? ==> r == v.configItemHandler.value(hook(cell, v.items[row]), v.items[row])
  {
    var item := v.items[row];
    var prepared := hook(cell, item);
    match v.configItemHandler
    case None => prepared
    case Some(h) => h(prepared, item)
  }

  /** `DXHeapView.willConfigureCell`: the base class hook leaves the cell as it is. */
  function NoHook<T, C>(cell: C, item: T): (r: C)
    ensures r == cell
  {
    cell
  }

  /**
    `collectionView(_:didSelectItemAt:)`: the item handler, if any, is called
    with the item at the row; nothing else happens. Without a handler the
    optional chain stops before the subscript, so any row is accepted.
   */
  function DidSelectItemAt<T, C>(v: HeapView<T, C>, row: nat): (r: HeapView<T, C>)
    requires v.hasItemHandler ==> row < |v.items|
    ensures v.hasItemHandler ==> r.itemHandlerCalls == v.itemHandlerCalls + [v.items[row]]
    ensures !v.hasItemHandler ==> r == v
    ensures r == v.(itemHandlerCalls := r.itemHandlerCalls)
  {
    if v.hasItemHandler then v.(itemHandlerCalls := v.itemHandlerCalls + [v.items[row]]) else v
  }

  // ---------------------------------------------------------------------
  // Binding order, observed through a cell that records who touched it.

  datatype Touch<T> = HookCall(item: T) | HandlerCall(item: T)

  function RecordHook<T>(cell: seq<Touch<T>>, item: T): seq<Touch<T>> {
    cell + [HookCall(item)]
  }

  function RecordHandler<T>(cell: seq<Touch<T>>, item: T): seq<Touch<T>> {
    cell + [HandlerCall(item)]
  }

  /**
    Binding row `row` touches the cell exactly twice, hook first and caller's
    handler second, each with the item at that row; without a handler only
    the hook runs.
   */
  lemma BindOrder<T>(v: HeapView<T, seq<Touch<T>>>, row: nat, cell: seq<Touch<T>>)
    requires row < |v.items|
    ensures CellForItemAt(SetConfigItemHandler(v, Some(RecordHandler)), RecordHook, row, cell)
         == cell + [HookCall(v.items[row]), HandlerCall(v.items[row])]
    ensures CellForItemAt(SetConfigItemHandler(v, None), RecordHook, row, cell)
         == cell + [HookCall(v.items[row])]
  {
  }

  /** After `items = xs` the data source reports `|xs|` rows and binds row `i` to `xs[i]`. */
  lemma DataSourceFollowsItems<T, C>(v: HeapView<T, C>, xs: seq<T>, row: nat, cell: C)
    requires row < |xs|
    ensures NumberOfItemsInSection(SetItems(v, xs), 0) == |xs|
    ensures CellForItemAt(SetItems(v, xs), NoHook, row, cell)
         == if v.configItemHandler.Some? then v.configItemHandler.value(cell, xs[row]) else cell
  {
  }

  /** Without an item handler a tap changes nothing, whatever row it reports. */
  lemma SelectWithoutHandlerIsNoOp<T, C>(v: HeapView<T, C>, row: nat)
    requires !v.hasItemHandler
    ensures DidSelectItemAt(v, row) == v
  {
  }

  /**
    After `items = xs`, tapping row `i` of a view with an item handler calls
    it once with `xs[i]`, attached or not.
   */
  lemma SelectAfterSetItems<T, C>(v: HeapView<T, C>, xs: seq<T>, i: nat)
    requires v.hasItemHandler && i < |xs|
    ensures DidSelectItemAt(SetItems(v, xs), i).itemHandlerCalls == v.itemHandlerCalls + [xs[i]]
  {
  }

  /** Tapping row 2 of ["x", "y", "z"] calls the handler once, with "z". */
  lemma SelectThirdOfThree<C>(v: HeapView<string, C>)
    requires v.hasItemHandler && v.itemHandlerCalls == []
    ensures DidSelectItemAt(SetItems(v, ["x", "y", "z"]), 2).itemHandlerCalls == ["z"]
  {
  }

  // ---------------------------------------------------------------------
  // Sequences of property changes and hierarchy moves.

  datatype Event<!T, !C> =
    | ItemsSet(newItems: seq<T>)
    | ConfigItemHandlerSet(handler: Option<(C, T) -> C>)
    | MovedToSuperview(hasSuperview: bool)
    | ContentSizeChanged(contentSize: Size)
    | BoundsChanged(bounds: Size)

  function Apply<T, C>(v: HeapView<T, C>, e: Event<T, C>): HeapView<T, C> {
    match e
    case ItemsSet(xs) => SetItems(v, xs)
    case ConfigItemHandlerSet(h) => SetConfigItemHandler(v, h)
    case MovedToSuperview(b) => DidMoveToSuperview(v, b)
    case ContentSizeChanged(s) => ContentSizeDidChange(v, s)
    case BoundsChanged(s) => BoundsDidChange(v, s)
  }

  function Run<T, C>(v: HeapView<T, C>, es: seq<Event<T, C>>): HeapView<T, C>
    decreases |es|
  {
    if |es| == 0 then v else Run(Apply(v, es[0]), es[1..])
  }

  predicate Attaches<T, C>(e: Event<T, C>) {
    e.MovedToSuperview? && e.hasSuperview
  }

  predicate IsPropertySet<T, C>(e: Event<T, C>) {
    e.ItemsSet? || e.ConfigItemHandlerSet?
  }

  /** The item list after the events: the last one set, or `items` if none was. */
  function LatestItems<T, C>(items: seq<T>, es: seq<Event<T, C>>): seq<T>
    decreases |es|
  {
    if |es| == 0 then items
    else LatestItems(if es[0].ItemsSet? then es[0].newItems else items, es[1..])
  }

  /** The configuration handler after the events: the last one set, or `h` if none was. */
  function LatestHandler<T, C>(h: Option<(C, T) -> C>, es: seq<Event<T, C>>): Option<(C, T) -> C>
    decreases |es|
  {
    if |es| == 0 then h
    else LatestHandler(if es[0].ConfigItemHandlerSet? then es[0].handler else h, es[1..])
  }

  /** Whatever the events, the view holds the last configuration handler set. */
  lemma {:induction false} RunKeepsLatestHandler<T, C>(v: HeapView<T, C>, es: seq<Event<T, C>>)
    ensures Run(v, es).configItemHandler == LatestHandler(v.configItemHandler, es)
    decreases |es|
  {
    if |es| > 0 {
      RunKeepsLatestHandler(Apply(v, es[0]), es[1..]);
    }
  }

  /**
    While the view stays out of a hierarchy nothing is reloaded, whatever is
    set; the item list ends up as the last one set.
   */
  lemma {:induction false} DetachedRunDoesNotReload<T, C>(v: HeapView<T, C>, es: seq<Event<T, C>>)
    requires !v.attached
    requires forall i :: 0 <= i < |es| ==> !Attaches(es[i])
    ensures !Run(v, es).attached
    ensures Run(v, es).reloads == v.reloads
    ensures Run(v, es).items == LatestItems(v.items, es)
    decreases |es|
  {
    if |es| > 0 {
      var w := Apply(v, es[0]);
      assert !w.attached && w.reloads == v.reloads;
      assert w.items == (if es[0].ItemsSet? then es[0].newItems else v.items);
      assert forall i :: 0 <= i < |es[1..]| ==> !Attaches(es[1..][i]) by {
        forall i | 0 <= i < |es[1..]| ensures !Attaches(es[1..][i]) {
          assert es[1..][i] == es[i + 1];
        }
      }
      DetachedRunDoesNotReload(w, es[1..]);
    }
  }

  /**
    The first attachment after any detached sequence of changes reloads
    exactly once, with the latest item list and the latest configuration
    handler in place: the cells it binds reflect the last values set.
   */
  lemma AttachReloadsOnceWithLatestItems<T, C>(v: HeapView<T, C>, es: seq<Event<T, C>>)
    requires !v.attached
    requires forall i :: 0 <= i < |es| ==> !Attaches(es[i])
    ensures DidMoveToSuperview(Run(v, es), true).reloads == v.reloads + 1
    ensures DidMoveToSuperview(Run(v, es), true).items == LatestItems(v.items, es)
    ensures DidMoveToSuperview(Run(v, es), true).configItemHandler == LatestHandler(v.configItemHandler, es)
  {
    DetachedRunDoesNotReload(v, es);
    RunKeepsLatestHandler(v, es);
  }

  /** While attached, every property set reloads once. */
  lemma {:induction false} AttachedSetsReloadEach<T, C>(v: HeapView<T, C>, es: seq<Event<T, C>>)
    requires v.attached
    requires forall i :: 0 <= i < |es| ==> IsPropertySet(es[i])
    ensures Run(v, es).attached
    ensures Run(v, es).reloads == v.reloads + |es|
    decreases |es|
  {
    if |es| > 0 {
      var w := Apply(v, es[0]);
      assert IsPropertySet(es[0]);
      assert w.attached && w.reloads == v.reloads + 1;
      assert forall i :: 0 <= i < |es[1..]| ==> IsPropertySet(es[1..][i]) by {
        forall i | 0 <= i < |es[1..]| ensures IsPropertySet(es[1..][i]) {
          assert es[1..][i] == es[i + 1];
        }
      }
      AttachedSetsReloadEach(w, es[1..]);
    }
  }
}
