/**
  `DXTagView<T>`: a heap view of `DXTagCell`s whose `willConfigureCell` hook
  puts a text into the cell's title label, from an optional formatter or,
  when the item is a `String`, from the item itself.

  Swift's dynamic cast `item as? String` is the parameter `asString`: it
  returns the item as a string exactly when the item is one.
 */
module TagView {
  import opened Wrappers
  import HeapView

  /** The part of a `DXTagCell` a binding can change: its label text and background colour (by name). */
  datatype TagCell = TagCell(titleText: Option<string>, cellBackgroundColor: Option<string>)

  /** A freshly created cell: no text, orange background. */
  const NewTagCell: TagCell := TagCell(None, Some("orange"))

  /** A `DXHeapView<T, DXTagCell>` plus the tag view's `formatter`. */
  datatype TagView<!T> = TagView(base: HeapView.HeapView<T, TagCell>, formatter: Option<T -> string>)

  /** `item as? String` when `T` is `String`. */
  function StringCast(s: string): Option<string> {
    Some(s)
  }

  /**
    The text the hook gives the label: the formatter's output whenever there
    is a formatter, otherwise the item as a string, which is `nil` for an
    item that is not one.
   */
  function LabelText<T>(formatter: Option<T -> string>, asString: T -> Option<string>, item: T): (r: Option<string>)
    ensures formatter.Some? ==> r == Some(formatter.value(item))
    ensures formatter.None? ==> r == asString(item)
  {
    if formatter.None? && asString(item).Some? then asString(item)
    else
      match formatter
      case None => None
      case Some(f) => Some(f(item))
  }

  /** `DXTagView.willConfigureCell`: assigns the label text on every path, and nothing else. */
  function WillConfigureCell<T>(formatter: Option<T -> string>, asString: T -> Option<string>,
                                cell: TagCell, item: T): (r: TagCell)
    ensures r.titleText == LabelText(formatter, asString, item)
    ensures r.cellBackgroundColor == cell.cellBackgroundColor
  {
    cell.(titleText := LabelText(formatter, asString, item))
  }

  /** Without a formatter, a `String` item is shown as itself. */
  lemma StringItemShowsItself<T>(asString: T -> Option<string>, item: T, s: string)
    requires asString(item) == Some(s)
    ensures LabelText(None, asString, item) == Some(s)
    ensures LabelText(None, StringCast, s) == Some(s)
  {
  }

  /** A formatter wins even over an item that is a `String`. */
  lemma FormatterWinsOverString(f: string -> string, item: string)
    ensures LabelText(Some(f), StringCast, item) == Some(f(item))
  {
  }

  /** Without a formatter, an item that is not a `String` clears the label. */
  lemma NonStringWithoutFormatterClears<T>(asString: T -> Option<string>, item: T)
    requires asString(item).None?
    ensures LabelText(None, asString, item).None?
  {
  }

  /**
    A recycled cell keeps nothing of its previous text: binding two cells
    that differ only in their old text gives the same text.
   */
  lemma HookForgetsStaleText<T>(formatter: Option<T -> string>, asString: T -> Option<string>,
                                c1: TagCell, c2: TagCell, item: T)
    requires c1.cellBackgroundColor == c2.cellBackgroundColor
    ensures WillConfigureCell(formatter, asString, c1, item) == WillConfigureCell(formatter, asString, c2, item)
  {
  }

  /** `init(_:itemHandler:)`, inherited: no formatter yet. */
  function Init<T>(itemConfig: HeapView.Config, hasItemHandler: bool): (tv: TagView<T>)
    ensures tv.formatter.None?
    ensures tv.base == HeapView.Init(itemConfig, hasItemHandler)
    ensures tv.base.items == [] && !tv.base.attached && tv.base.reloads == 0
  {
    TagView(HeapView.Init(itemConfig, hasItemHandler), None)
  }

  /** Setting `formatter`: a plain stored property, so nothing is reloaded, attached or not. */
  function SetFormatter<T>(tv: TagView<T>, f: Option<T -> string>): (r: TagView<T>)
    ensures r.formatter == f
    ensures r.base == tv.base
  {
    tv.(formatter := f)
  }

  /** The hook of this tag view, as the base class calls it. */
  function Hook<T>(tv: TagView<T>, asString: T -> Option<string>): (TagCell, T) -> TagCell {
    (c: TagCell, t: T) => WillConfigureCell(tv.formatter, asString, c, t)
  }

  /** `cellForItemAt` of the tag view: the base binding with the tag view's hook. */
  function CellForItemAt<T>(tv: TagView<T>, asString: T -> Option<string>, row: nat, cell: TagCell): (r: TagCell)
    requires row < |tv.base.items|
    ensures tv.base.configItemHandler.None? ==>
      r == cell.(titleText := LabelText(tv.formatter, asString, tv.base.items[row]))
  {
    HeapView.CellForItemAt(tv.base, Hook(tv, asString), row, cell)
  }

  /**
    A fresh cell bound to a `String` item of a tag view with neither formatter
    nor configuration handler shows the item and keeps its orange background.
   */
  lemma FreshStringCell(tv: TagView<string>, row: nat)
    requires row < |tv.base.items|
    requires tv.formatter.None? && tv.base.configItemHandler.None?
    ensures CellForItemAt(tv, StringCast, row, NewTagCell) == TagCell(Some(tv.base.items[row]), Some("orange"))
  {
  }

  /**
    The caller's handler runs after the hook, so a handler that sets the
    label text decides it, whatever the formatter says.
   */
  lemma HandlerOverridesHook<T>(tv: TagView<T>, asString: T -> Option<string>, row: nat, cell: TagCell,
                                text: T -> Option<string>)
    requires row < |tv.base.items|
    ensures CellForItemAt(SetConfigText(tv, text), asString, row, cell).titleText == text(tv.base.items[row])
    ensures CellForItemAt(SetConfigText(tv, text), asString, row, cell).cellBackgroundColor == cell.cellBackgroundColor
  {
  }

  /** Installs a `configItemHandler` that writes `text(item)` into the label. */
  function SetConfigText<T>(tv: TagView<T>, text: T -> Option<string>): (r: TagView<T>)
    ensures r.base.items == tv.base.items && r.formatter == tv.formatter
    ensures r.base.configItemHandler.Some?
  {
    tv.(base := HeapView.SetConfigItemHandler(tv.base, Some((c: TagCell, t: T) => c.(titleText := text(t)))))
  }

  /**
    Changing the formatter of an attached view does not reload it: cells
    already on screen keep the old texts until something else reloads.
   */
  lemma FormatterChangeDoesNotReload<T>(tv: TagView<T>, f: Option<T -> string>)
    requires tv.base.attached
    ensures SetFormatter(tv, f).base.reloads == tv.base.reloads
    ensures HeapView.SetItems(SetFormatter(tv, f).base, tv.base.items).reloads == tv.base.reloads + 1
  {
  }
}
