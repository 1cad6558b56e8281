/**
 * The host's configuration object and the decisions `setData` takes from it:
 * the move authorisation handed to the widget as `check_callback`, and the
 * choice of plugins and of the node-type table.
 */
module TreeOptions {
  import opened TreeItems

  /** A JavaScript exception the source raises by reading a field of `undefined`. */
  datatype JsError = TypeError(reason: string)

  datatype Result<+V> = Ok(value: V) | Err(error: JsError)

  /** The host's move predicate: dragged item, target item, new parent id. */
  type MovePredicate<!T> = (Item<T>, Item<T>, string) -> bool

  /** Drag and drop between nodes; the `drop` notification is not part of this model. */
  datatype DragAndDrop<!T> = DragAndDrop(enabled: bool, move: Js<MovePredicate<T>>)

  /** Drops from outside the tree; the two flags say whether each callback is configured. */
  datatype DragExternal = DragExternal(enabled: bool, droppedFiles: bool, droppedHtml: bool)

  /** One option of the context menu. */
  datatype ContextItem = ContextItem(tag: string, title: string)

  /** The host's filter of the option list for the node a menu opens on. */
  type OptionsFilter<!T> = (Option<Item<T>>, seq<ContextItem>) -> seq<ContextItem>

  datatype ContextMenuConfig<!T> = ContextMenuConfig(
    enabled: bool,
    options: seq<ContextItem>,
    optionsAsked: Js<OptionsFilter<T>>)

  datatype Options<!T> = Options(
    contextMenu: Js<ContextMenuConfig<T>>,
    dragAndDrop: Js<DragAndDrop<T>>,
    dragExternal: Js<DragExternal>,
    maxRootChildren: Js<int>)

  /** The `ref` entry of the widget's `more` argument: the node a drag is over. */
  datatype MoveTarget<T> = MoveTarget(data: Js<Item<T>>)

  const MoveNode: string := "move_node"

  /**
   * `check_callback(op, node, parent, pos, more)`: whether the widget may
   * perform `op`. Only `move_node` is ever refused, and only by the host's
   * predicate. Reading `options.dragAndDrop.move` throws when `dragAndDrop`
   * is missing, and calling an `undefined` predicate throws too.
   */
  function CheckCallback<T>(op: string, nodeData: Item<T>, nodeParent: string,
                            moreRef: Js<MoveTarget<T>>, dnd: Js<DragAndDrop<T>>): (r: Result<bool>)
    ensures op != MoveNode ==> r == Ok(true)
    ensures r.Err? <==>
              op == MoveNode &&
              (!dnd.Present? || (dnd.value.move.Undefined? && moreRef.Present? && moreRef.value.data.Present?))
    ensures op == MoveNode && dnd.Present? && dnd.value.move.Present? &&
            moreRef.Present? && moreRef.value.data.Present? ==>
              r == Ok(dnd.value.move.value(nodeData, moreRef.value.data.value, nodeParent))
    ensures op == MoveNode && dnd.Present? && !(moreRef.Present? && moreRef.value.data.Present?) ==>
              r == Ok(true)
    ensures op == MoveNode && dnd.Present? && dnd.value.move.Null? ==> r == Ok(true)
  {
    if op != MoveNode then Ok(true)
    else if !dnd.Present? then Err(TypeError("cannot read 'move' of dragAndDrop"))
    else if dnd.value.move.Null? then Ok(true)
    else if moreRef.Present? && moreRef.value.data.Present? then
      match dnd.value.move
      case Present(move) => Ok(move(nodeData, moreRef.value.data.value, nodeParent))
      case _ => Err(TypeError("dragAndDrop.move is not a function"))
    else Ok(true)
  }

  /** The icon slot of one entry in the widget's type table. */
  datatype TypeRule = TypeRule(icon: Option<string>)

  /** The `types` table: three node types and the root's child limit (`'#'`). */
  datatype TypesTable = TypesTable(root: TypeRule, child: TypeRule, fallback: TypeRule,
                                   rootMaxChildren: Option<int>)

  /** What `setData` hands to the widget besides the node list. */
  datatype Setup = Setup(multiple: bool, plugins: seq<string>, types: Option<TypesTable>)

  /** The position of each plugin in the order `setData` pushes them. */
  function PluginRank(p: string): int
  {
    if p == "dnd" then 0 else if p == "types" then 1 else if p == "contextmenu" then 2 else 3
  }

  /**
   * Plugin and type-table selection in `setData`. The test
   * `options.dragAndDrop !== null && options.dragAndDrop.enabled` reads a
   * field of `undefined` when no drag-and-drop configuration is given.
   */
  function SelectPlugins<T>(options: Options<T>, icon: string): (r: Result<Setup>)
    ensures r.Err? <==> options.dragAndDrop.Undefined?
    ensures r.Ok? ==> !r.value.multiple
    ensures r.Ok? ==> ("dnd" in r.value.plugins <==>
                         options.dragAndDrop.Present? && options.dragAndDrop.value.enabled)
    ensures r.Ok? ==> ("types" in r.value.plugins <==> icon != "" || options.maxRootChildren.Present?)
    ensures r.Ok? ==> ("contextmenu" in r.value.plugins <==>
                         options.contextMenu.Present? && options.contextMenu.value.enabled)
    ensures r.Ok? ==> forall i, j :: 0 <= i < j < |r.value.plugins| ==>
                        PluginRank(r.value.plugins[i]) < PluginRank(r.value.plugins[j]) <= 2
    ensures r.Ok? ==> (r.value.types.Some? <==> "types" in r.value.plugins)
    ensures r.Ok? && r.value.types.Some? ==>
              var t := r.value.types.value;
              && t.root == t.child == t.fallback == TypeRule(if icon != "" then Some(icon) else None)
              && (t.rootMaxChildren.Some? <==> options.maxRootChildren.Present?)
              && (t.rootMaxChildren.Some? ==> t.rootMaxChildren.value == options.maxRootChildren.value)
  {
    if options.dragAndDrop.Undefined? then Err(TypeError("cannot read 'enabled' of dragAndDrop"))
    else
      var dnd := if options.dragAndDrop.Present? && options.dragAndDrop.value.enabled then ["dnd"] else [];
      var limit := if options.maxRootChildren.Present? then Some(options.maxRootChildren.value) else None;
      var useTypes := icon != "" || limit.Some?;
      var rule := TypeRule(if icon != "" then Some(icon) else None);
      var types := if useTypes then Some(TypesTable(rule, rule, rule, limit)) else None;
      var menu := if options.contextMenu.Present? && options.contextMenu.value.enabled
                  then ["contextmenu"] else [];
      Ok(Setup(false, dnd + (if useTypes then ["types"] else []) + menu, types))
  }
}
