# Tree view adapter: the flat-list bookkeeping of `TreeViewComponent`

This project models the part of the Angular `TreeViewComponent`
(`src/app/jstree/jstree.component.ts`) that has logic of its own. It covers
the component's authoritative flat list of items (`currentDataSource`) and
how `setData`, `create`, `delete`, `getNode`, `getData`, `rename` and the
lazy-load `return` callback treat it. It also covers the projection of items
onto the tree widget's node format, and the decisions the component hands to
the widget: the move authorisation `check_callback`, the plugin and
type-table choice, the context menu, selection events, the external-drop
routing, and the drag-over highlight kept in `lastEl`.

The tree widget (jstree over jQuery) is an abstract sink. Each operation
returns its main request of the widget (`CreateRequest`, `DeleteRequest`,
`RenameRequest`, the native node list, the answer to a data request) and
does not model how the widget handles it; the `edit` that `create` makes
after inserting is listed under "Left out". Host callbacks are
parameters: `move` and `optionsAsked` are function values, and the void
callbacks (`optionClicked`, `droppedFiles`, `droppedHtml`) become returned
values naming the call.

Modules:
- `TreeItems` (items.dfy): the item record, `Option`, and `Js`, a slot that
  may be `undefined`, `null` or a value. It also holds the JavaScript
  built-ins the list goes through: `findIndex` (`IndexOfId`), `find`
  (`FirstWithId`) and `splice(start, 1)` (`SpliceOne`), plus the list left
  by `delete` (`AfterDelete`).
- `Projection` (projection.dfy): `wrapDataForJsTreeDataSource`, written as
  the loop `Wrap` and specified by `Project`.
- `TreeOptions` (options.dfy): the configuration record, `check_callback`,
  and the plugin and types selection.
- `ContextMenu` (context_menu.dfy): the menu keyed by title.
- `ExternalDrag` (external_drag.dfy): the `dragover`/`dragleave` state
  machine (the class `DragHighlight`, following the step functions
  `AfterDragOver` and `AfterDragLeave`) and the `drop` routing.
- `TreeView` (tree_view.dfy): the class `TreeViewComponent`. Its field
  `currentDataSource` is the list. Its field `rootList` is the projection the
  data callback captured at the last `setData` that got as far as building
  the widget. Its field `attached` says whether such a `setData` has
  happened, that is, whether `treeObj` is set.

Where the code departs from what its documentation describes, the model
follows the code:
- Renaming never writes `name` into the list. Neither `rename` nor the
  `rename_node.jstree` handler touches `currentDataSource`. Both are methods
  without a `modifies` clause, and their contracts say the list is
  unchanged. The `renamed` event carries the widget's new text and the
  original, unrenamed item.
- Deleting an id the list does not hold removes the LAST entry. `findIndex`
  gives -1, and `splice(-1, 1)` removes from the end. On an empty list
  nothing happens. This is `AfterDelete`'s contract.
- Moving the highlight from one anchor to another takes two `dragover`
  events. The first only clears the old highlight; the next sets the new
  one (`RetargetTakesTwoDragovers`). Leaving the highlighted element itself
  does not clear its highlight.
- `setData` with no `dragAndDrop` configuration (`undefined`) throws at the
  plugin selection, and it does so after the list has already been
  replaced. The model returns `Err` with the new list in place and the old
  widget projection kept (`SetData`, `SelectPlugins`). A `null`
  configuration does not throw.
- In `check_callback`, a `move_node` check with no `dragAndDrop`, or with
  `move` set to `undefined` while the target has data, throws. A `null`
  `move` permits every move.
- The `children` guard `typeof hasChildren !== null` always holds, so only
  the presence of `hasChildren` decides whether `children` is set (`false`
  included).
- A lazy request for the root gets the projection computed at `setData`. Items
  added later by `create` or by lazy loads are not in it.
- `create` appends before it looks the parent up. When the id is already in
  the list, `getNode` (a first-match `find`) keeps returning the earlier
  entry (`CreateThenFind`).
- Until a `setData` has built the widget, `treeObj` is `undefined`, and
  `create`, `delete` and `rename` throw a `TypeError` when they call it. The
  throw in `create` comes after the `push`, so the list still grows; the
  throw in `delete` comes before the `splice`, so the list is unchanged.
  The model returns `Err` in these cases (`Create`, `Delete`, `Rename`).

## Model

| member | source | states |
|---|---|---|
| TreeItems.IndexOfId | src/app/jstree/jstree.component.ts:107 | `findIndex` gives -1 exactly when no entry has the id; otherwise it gives an index whose entry has the id, with no earlier entry having it |
| TreeItems.FirstWithId | src/app/jstree/jstree.component.ts:163 | `getNode` gives nothing exactly when no entry has the id; otherwise it gives the entry at the first index carrying the id |
| TreeItems.FindByDomId | src/app/jstree/jstree.component.ts:387-388 | a lookup by a missing DOM id finds nothing; otherwise it is the first-match lookup |
| TreeItems.SpliceOne | src/app/jstree/jstree.component.ts:108 | `splice(start, 1)`: an index inside the list removes that entry; -1 removes the last one; a start before the list removes the first; a start past the end changes nothing; an empty list stays empty |
| TreeItems.AfterDelete | src/app/jstree/jstree.component.ts:104-108 | `delete` removes exactly the first entry with the id and keeps the rest in order; with no match it removes the last entry; an empty list stays empty; a non-empty list shrinks by one |
| Projection.Project | src/app/jstree/jstree.component.ts:421-438 | one native node per item, in order, with id, text = name, parent = parentId, data = the item; `children` is present exactly when `hasChildren` is and equals it |
| Projection.Wrap | src/app/jstree/jstree.component.ts:421-438 | the `forEach`/`push` loop builds exactly the projection of its input |
| Projection.PayloadsOfProject | src/app/jstree/jstree.component.ts:428 | the payloads of the projected nodes give back the original list |
| Projection.FromNativeOfProject | src/app/jstree/jstree.component.ts:425-433 | reading an item back from a node's id, text, parent and children (with the tag taken from the payload) gives the original item |
| Projection.ProjectAppend | src/app/jstree/jstree.component.ts:221-225 | projecting an appended list is appending the projections |
| TreeOptions.CheckCallback | src/app/jstree/jstree.component.ts:231-242 | any operation other than `move_node` is allowed. For `move_node` with a `move` predicate and target data, the answer is the predicate's on (node data, target data, node parent). A `null` predicate or missing target data allows the move. A missing configuration, or an `undefined` predicate that gets called, throws |
| TreeOptions.SelectPlugins | src/app/jstree/jstree.component.ts:250-273 | throws exactly when `dragAndDrop` is `undefined`. Otherwise `dnd` comes exactly with enabled drag and drop, `types` exactly with an icon or a root limit, and `contextmenu` exactly with an enabled menu, in that order and without repeats. The type table is present exactly with `types`: all three types have the icon when one is given, and the root limit is forwarded |
| ContextMenu.LastIndexOfTitle | src/app/jstree/jstree.component.ts:277-278 | gives -1 exactly when no option has the title; otherwise an index with that title and no later option carrying it |
| ContextMenu.MenuOf | src/app/jstree/jstree.component.ts:275-288 | the menu's keys are exactly the options' titles, and every entry's label is its key |
| ContextMenu.MenuLastWins | src/app/jstree/jstree.component.ts:277-286 | for a duplicate title, the entry reports the last option carrying it |
| ContextMenu.CreateMenu | src/app/jstree/jstree.component.ts:275-288 | the `forEach` loop builds exactly `MenuOf` of its input |
| ExternalDrag.LowerAscii | src/app/jstree/jstree.component.ts:364 | `toLowerCase` keeps the length and maps exactly the letters A-Z to a-z |
| ExternalDrag.IsAnchor | src/app/jstree/jstree.component.ts:364 | the anchor test `tagName.toLowerCase() === 'a'` (also used by the `drop` handler, line 383) passes exactly for the tag names `a` and `A` |
| ExternalDrag.AfterDragOver | src/app/jstree/jstree.component.ts:364-372 | a non-anchor leaves `lastEl` alone. Reaching a different anchor while one is highlighted only clears `lastEl`. With nothing highlighted the anchor becomes `lastEl`. The same anchor again changes nothing |
| ExternalDrag.AfterDragLeave | src/app/jstree/jstree.component.ts:374-380 | leaving an element other than `lastEl` clears `lastEl`; leaving `lastEl` itself, or having none, changes nothing |
| ExternalDrag.RetargetTakesTwoDragovers | src/app/jstree/jstree.component.ts:365-371 | from a highlight on `a`, a `dragover` on another anchor `b` clears it, and only the next one highlights `b` |
| ExternalDrag.TwoDragoversHighlight | src/app/jstree/jstree.component.ts:364-371 | from any state, two `dragover` events on one anchor leave it highlighted |
| ExternalDrag.DragHighlight.constructor | src/app/jstree/jstree.component.ts:358 | each listener set starts with `lastEl` null and nothing highlighted |
| ExternalDrag.DragHighlight.DragOver | src/app/jstree/jstree.component.ts:359-372 | the handler moves `lastEl` as `AfterDragOver` says and keeps the highlight on `lastEl` alone (at most one element) |
| ExternalDrag.DragHighlight.DragLeave | src/app/jstree/jstree.component.ts:374-380 | the handler moves `lastEl` as `AfterDragLeave` says and keeps the highlight on `lastEl` alone |
| ExternalDrag.RouteDrop | src/app/jstree/jstree.component.ts:381-399 | only a drop on an anchor is handled. A transfer with files reaches `droppedFiles` exactly when that callback is configured, and anything else (a missing transfer included) reaches `droppedHtml` exactly when it is configured. Both get the first item of the list the component holds at drop time (`items`, that is `getData()` then) whose id is the anchor's parent id |
| TreeView.TreeViewComponent.constructor | src/app/jstree/jstree.component.ts:62 | the list starts empty and there is no widget yet |
| TreeView.TreeViewComponent.GetData | src/app/jstree/jstree.component.ts:154 | `getData()` returns the list itself, whatever the widget holds; what it holds after each operation is stated by `SetData`, `Create`, `Delete` and `ReturnChildren` |
| TreeView.TreeViewComponent.GetNode | src/app/jstree/jstree.component.ts:162-164 | `getNode` gives nothing exactly when no entry of the list has the id; otherwise an entry of the list with that id and no earlier entry carrying it |
| TreeView.TreeViewComponent.SetData | src/app/jstree/jstree.component.ts:205-335 | afterwards `getData()` is `data`. On success the widget gets the projection of `data` and the selected plugins, the root request will be answered from `data`, and `treeObj` is set. When the plugin selection throws, the list is still replaced, and the old root projection and the old `treeObj` (or its absence) stay |
| TreeView.TreeViewComponent.Create | src/app/jstree/jstree.component.ts:80-96 | the list becomes the old list plus `node` at the end in every case. Without a widget the call fails; otherwise the widget is asked to insert, under the root for `'#'` or under the node with `parentId`, a node with the item's id, parentId, name and the item as data |
| TreeView.TreeViewComponent.Delete | src/app/jstree/jstree.component.ts:104-111 | without a widget the call fails and the list is unchanged; otherwise the list becomes `AfterDelete` of the old list, and the widget is asked to delete the node |
| TreeView.TreeViewComponent.Rename | src/app/jstree/jstree.component.ts:182-185 | without a widget the call fails; otherwise the widget is asked to rename; the list is unchanged either way |
| TreeView.TreeViewComponent.OnRenameNode | src/app/jstree/jstree.component.ts:321-327 | the `renamed` event carries the widget's text and the original item; the list is unchanged |
| TreeView.TreeViewComponent.DataRequest | src/app/jstree/jstree.component.ts:215-229 | the root is answered at once with the projection of the list given to the last `setData` that got past the plugin selection; any other node produces a `lazyLoad` event carrying that node's item |
| TreeView.TreeViewComponent.ReturnChildren | src/app/jstree/jstree.component.ts:221-226 | the list becomes the old list plus `d`, in order and without de-duplication, and the widget node gets the projection of exactly `d`; whether a widget is attached is unchanged |
| TreeView.TreeViewComponent.ContextMenuItems | src/app/jstree/jstree.component.ts:291-299 | with `optionsAsked` set, the menu is built from its answer for the node's first-match item and the static options; otherwise from the static options |
| TreeView.TreeViewComponent.MenuAction | src/app/jstree/jstree.component.ts:280-284 | `optionClicked` gets the first item whose id is the clicked element's parent id, and the entry's own option |
| TreeView.OnSelectionChanged | src/app/jstree/jstree.component.ts:310-320 | an event is emitted exactly when something is selected, and it carries the payload of the first selected node |
| TreeView.CreateThenFind | src/app/jstree/jstree.component.ts:80-81 | after `create(node)`, looking up `node.id` gives `node` when the id was new, and the earlier entry otherwise |

## Left out

- The tree widget and jQuery (`get_node`, `create_node`, `edit`, `delete_node`, `rename_node`, `select_node`, `deselect_node`, `open_node`, `.jstree(...)`, `attr`, `closest`, `classList`): these are calls into a library this model does not contain. The main request of each operation is returned as a value. `select`, `deSelect`, `open` and `edit` only forward to it, so they are not modelled.
- Listener registration and removal (`clearListeners`, `.on`/`.off`) and the document-level `dnd_stop.vakata` listener with the host's `drop` notification: event plumbing whose only logic is `getNode` lookups, which `FirstWithId` covers.
- The `create_node.jstree` and `delete_node.jstree` handlers: they emit the native node's payload unchanged.
- The event emitters, the component decorator, the `Date`-based element id, `console.log`, `preventDefault` and `stopPropagation`. The difference between a handled and an ignored drop is `RouteDrop`'s `Ignored` case.
- `setData`'s theme settings (`dots`, `variant`): constants passed through to the widget. `multiple: false` is in `Setup`.
- Aliasing: `setData` stores the host's array and `getData` returns it by reference, so the host and the component share one mutable array. The model's list is a `seq` value, so a host mutation through that reference is not modelled. One consequence is not captured: when the `d` handed to the lazy `return` is the component's own array (the result of `getData()`, or the array given to `setData`), the source's `for ... of` loop re-reads the growing length and never ends, while `ReturnChildren` appends `d` once.
- The inline edit after `create`: `create` follows `create_node` with `edit` on the node it returns (a `get_node` and a `treeObj.edit`), so every new node starts in inline rename. `CreateRequest` carries only the insert request, not that edit request.
- `JSON.parse(JSON.stringify(options))`: the copy given to `optionsAsked` is the `seq` value itself. Because host callbacks are pure functions in this model, a callback that mutates its argument is not modelled.
- JavaScript's loose typing: a `null` `parentId` in `create` and a `null` `hasChildren` are not modelled; the item interface does not declare them nullable. `check_callback`'s `more` and `node` (line 231), the rename handler's `eventData` (line 321) and the selection handler's `get_node(element).data` (line 313) are typed `any`; the model assumes the widget always passes `more`, gives `node` a `data` and a `parent`, gives `eventData` a `text` and a `node`, and gives every selected node a `data`. A missing one would throw or yield `undefined` in the source and is not modelled. `maxRootChildren` is an integer, not a floating-point number.
- The order of keys in the context-menu object (which decides the order of the rendered entries) is not modelled; the menu is a `map`.
- ContextMenu.MenuOf: treats every title as an ordinary key. In the source the menu is a plain `{}`, so an option titled `__proto__` replaces the object's prototype instead of adding an entry, and the menu's keys are then not the titles.
- ExternalDrag.LowerAscii: lower-cases only the ASCII letters, not the full Unicode case mapping of `toLowerCase`.
- The asynchrony of lazy loading: `ReturnChildren` may be called at any time, any number of times, and the model places no ordering on it. It appends to whatever list is current when it runs, as the source does.
- src/app/app.component.ts and src/app/app.module.ts: demo wiring. `TreeView.CreateScenario` is a small client of the same kind (two items, then a create under the first). `TreeView.LazyThenCreateScenario` checks that a `create` after a lazy load still reaches the widget. `TreeView.DetachedScenario` calls `create` and `delete` before any widget exists, and `TreeView.RenameScenario` renames through the widget and checks that the list and `getNode` are unchanged.
