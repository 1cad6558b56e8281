/**
 * `TreeViewComponent`: the authoritative flat list, the calls it makes on
 * the tree widget, and the widget callbacks that read the list. The widget
 * itself is an abstract sink: each operation returns the request it makes.
 */
module TreeView {
  import opened TreeItems
  import opened Projection
  import opened TreeOptions
  import opened ContextMenu

  /** Where `create` asks the widget to insert: the root, or the node found by `get_node`. */
  datatype ParentRef = RootParent | NodeParent(id: string)

  /**
   * `create_node(parentNode, nodeToAdd)`. The node object carries `parentId`
   * (the widget reads `parent`) and no `children` field.
   */
  datatype CreateRequest<T> = CreateRequest(parent: ParentRef, id: string, parentId: string,
                                            text: string, data: Item<T>)

  /** `rename_node(get_node(nodeId), name)`. */
  datatype RenameRequest = RenameRequest(nodeId: string, text: string)

  /** `delete_node(get_node(nodeId))`. */
  datatype DeleteRequest = DeleteRequest(nodeId: string)

  /** The `renamed` event. */
  datatype NodeRename<T> = NodeRename(newName: string, node: Item<T>)

  /**
   * The `lazyLoad` event; its `return` callback is `ReturnChildren`. `item` is
   * whatever the requesting native node carries as `data`.
   */
  datatype LazyLoad<T> = LazyLoad(item: Option<Item<T>>)

  /** How the widget's `core.data` request is answered. */
  datatype DataAnswer<T> = Immediate(nodes: seq<NativeNode<T>>) | Deferred(request: LazyLoad<T>)

  /** What `setData` hands to the widget when it gets that far. */
  datatype WidgetInit<T> = WidgetInit(nodes: seq<NativeNode<T>>, setup: Setup)

  /** The host's `optionClicked(node, option)` call made by a menu entry's action. */
  datatype OptionClicked<T> = OptionClicked(node: Option<Item<T>>, option: ContextItem)

  class TreeViewComponent<T> {
    /** `currentDataSource`: the authoritative list. */
    var currentDataSource: seq<Item<T>>

    /** The projection `setData` computed once and the root request is answered with. */
    var rootList: seq<NativeNode<T>>

    /** The list that projection was computed from. */
    ghost var rootData: seq<Item<T>>

    /**
     * Whether `treeObj` is set: it is assigned only once a `setData` has got
     * past the plugin selection and built the widget. Before that, every
     * method that calls the widget throws a `TypeError` on `undefined`.
     */
    var attached: bool

    ghost predicate Valid()
      reads this
    {
      rootList == Project(rootData)
    }

    constructor ()
      ensures Valid() && currentDataSource == [] && rootData == [] && !attached
    {
      currentDataSource := [];
      rootList := [];
      rootData := [];
      attached := false;
    }

    /**
     * `getData()`: the list itself, never `null` (a fresh component holds the
     * empty list); no widget state is consulted.
     */
    function GetData(): (r: seq<Item<T>>)
      reads this
      ensures r == currentDataSource
    {
      currentDataSource
    }

    /**
     * `getNode(nodeId)`: `find` on the list, so the first item with that id,
     * or `undefined` (`None`) when there is none; the widget is not consulted.
     */
    function GetNode(nodeId: string): (r: Option<Item<T>>)
      reads this
      ensures r.None? <==> forall k :: 0 <= k < |currentDataSource| ==> currentDataSource[k].id != nodeId
      ensures r.Some? ==> exists k :: 0 <= k < |currentDataSource| && currentDataSource[k] == r.value &&
                            r.value.id == nodeId &&
                            forall j :: 0 <= j < k ==> currentDataSource[j].id != nodeId
    {
      FirstWithId(currentDataSource, nodeId)
    }

    /**
     * `setData(data, options, icon)`. The list is replaced first; then the
     * plugin selection may throw, in which case the widget (and the
     * projection its root request answers with) stays as it was.
     */
    method SetData(data: seq<Item<T>>, options: Options<T>, icon: string) returns (r: Result<WidgetInit<T>>)
      requires Valid()
      modifies this
      ensures Valid()
      ensures GetData() == data
      ensures r.Err? <==> SelectPlugins(options, icon).Err?
      ensures r.Ok? ==> r.value == WidgetInit(Project(data), SelectPlugins(options, icon).value)
      ensures r.Ok? ==> rootData == data && attached
      ensures r.Err? ==> rootData == old(rootData) && rootList == old(rootList) && attached == old(attached)
    {
      currentDataSource := data;
      var list := Wrap(data);
      var setup := SelectPlugins(options, icon);
      if setup.Err? {
        return Err(setup.error);
      }
      rootList := list;
      rootData := data;
      attached := true;
      r := Ok(WidgetInit(list, setup.value));
    }

    /**
     * `create(node)`: the list grows by `node` at the end, whatever becomes
     * of the widget call, which comes after the `push` and throws when there
     * is no widget; the parent is the root for `'#'`, otherwise the node the
     * widget finds by `parentId`.
     */
    method Create(node: Item<T>) returns (r: Result<CreateRequest<T>>)
      requires Valid()
      modifies this
      ensures Valid() && rootData == old(rootData) && attached == old(attached)
      ensures GetData() == old(GetData()) + [node]
      ensures r.Err? <==> !attached
      ensures r.Ok? ==> r.value.parent == if node.parentId == Root then RootParent else NodeParent(node.parentId)
      ensures r.Ok? ==> r.value.id == node.id && r.value.parentId == node.parentId &&
                        r.value.text == node.name && r.value.data == node
    {
      currentDataSource := currentDataSource + [node];
      if !attached {
        return Err(TypeError("treeObj is undefined"));
      }
      var parent := if node.parentId != Root then NodeParent(node.parentId) else RootParent;
      r := Ok(CreateRequest(parent, node.id, node.parentId, node.name, node));
    }

    /**
     * `delete(nodeId)`: the widget's `get_node` comes first and throws when
     * there is no widget, before the list is touched; otherwise
     * `splice(findIndex(...), 1)` on the list.
     */
    method Delete(nodeId: string) returns (r: Result<DeleteRequest>)
      requires Valid()
      modifies this
      ensures Valid() && rootData == old(rootData) && attached == old(attached)
      ensures r.Err? <==> !attached
      ensures !attached ==> GetData() == old(GetData())
      ensures attached ==> GetData() == AfterDelete(old(GetData()), nodeId)
      ensures r.Ok? ==> r.value == DeleteRequest(nodeId)
    {
      if !attached {
        return Err(TypeError("treeObj is undefined"));
      }
      var index := IndexOfId(currentDataSource, nodeId);
      currentDataSource := SpliceOne(currentDataSource, index);
      r := Ok(DeleteRequest(nodeId));
    }

    /**
     * `rename(nodeId, name)`: only the widget is asked, so it throws when
     * there is no widget; the list is never written.
     */
    method Rename(nodeId: string, name: string) returns (r: Result<RenameRequest>)
      ensures GetData() == old(GetData())
      ensures r.Err? <==> !attached
      ensures r.Ok? ==> r.value == RenameRequest(nodeId, name)
    {
      if !attached {
        return Err(TypeError("treeObj is undefined"));
      }
      r := Ok(RenameRequest(nodeId, name));
    }

    /**
     * The `rename_node.jstree` handler: emits the widget's new text with the
     * node's original item; the list, and the item's `name`, stay unchanged.
     */
    method OnRenameNode(text: string, nodeData: Item<T>) returns (ev: NodeRename<T>)
      ensures GetData() == old(GetData())
      ensures ev.newName == text && ev.node == nodeData
    {
      ev := NodeRename(text, nodeData);
    }

    /**
     * The widget's `core.data(obj, cb)` request: the root is answered at once
     * with the projection `setData` computed; any other node is answered by
     * the host through a `lazyLoad` event.
     */
    method DataRequest(nodeId: string, nodeData: Option<Item<T>>) returns (answer: DataAnswer<T>)
      requires Valid()
      ensures nodeId == Root ==> answer == Immediate(Project(rootData))
      ensures nodeId != Root ==> answer == Deferred(LazyLoad(nodeData))
    {
      if nodeId == Root {
        answer := Immediate(rootList);
      } else {
        answer := Deferred(LazyLoad(nodeData));
      }
    }

    /**
     * The `return(d)` callback of a `lazyLoad` event: appends `d` to the
     * current list in order, without removing duplicates, and hands the
     * projection of exactly `d` to the waiting widget node.
     */
    method ReturnChildren(d: seq<Item<T>>) returns (delivered: seq<NativeNode<T>>)
      requires Valid()
      modifies this
      ensures Valid() && rootData == old(rootData) && attached == old(attached)
      ensures GetData() == old(GetData()) + d
      ensures delivered == Project(d)
    {
      for i := 0 to |d|
        invariant currentDataSource == old(currentDataSource) + d[..i]
        invariant rootList == old(rootList) && rootData == old(rootData) && attached == old(attached)
      {
        currentDataSource := currentDataSource + [d[i]];
      }
      assert d[..|d|] == d;
      delivered := Wrap(d);
    }

    /**
     * `contextMenu.items($node)`: the menu for the node with id `nodeId`.
     * With `optionsAsked` set, the host gets the node and a copy of the static
     * options (a `seq` is a value, so the static list cannot change) and the
     * menu is built from its answer.
     */
    method ContextMenuItems(config: ContextMenuConfig<T>, nodeId: string) returns (menu: map<string, MenuEntry>)
      ensures config.optionsAsked.Present? ==>
                menu == MenuOf(config.optionsAsked.value(FirstWithId(GetData(), nodeId), config.options))
      ensures !config.optionsAsked.Present? ==> menu == MenuOf(config.options)
    {
      if config.optionsAsked.Present? {
        var node := GetNode(nodeId);
        var r := config.optionsAsked.value(node, config.options);
        menu := CreateMenu(r);
      } else {
        menu := CreateMenu(config.options);
      }
    }

    /**
     * A menu entry's `action(obj)`: the host's `optionClicked` gets the item
     * whose id is the clicked element's parent id, and the entry's option.
     */
    function MenuAction(entry: MenuEntry, parentDomId: Option<string>): (call: OptionClicked<T>)
      reads this
      ensures call.node == FindByDomId(GetData(), parentDomId)
      ensures call.option == entry.option
    {
      OptionClicked(FindByDomId(currentDataSource, parentDomId), entry.option)
    }
  }

  /**
   * The `changed.jstree` handler: collects the payload of every selected
   * native node (`dataOf` stands for `get_node(id).data`) and emits the first
   * one, if any.
   */
  method OnSelectionChanged<T>(selected: seq<string>, dataOf: string -> Item<T>) returns (emitted: Option<Item<T>>)
    ensures emitted.Some? <==> |selected| > 0
    ensures emitted.Some? ==> emitted.value == dataOf(selected[0])
  {
    var r: seq<Item<T>> := [];
    for i := 0 to |selected|
      invariant |r| == i
      invariant forall k :: 0 <= k < i ==> r[k] == dataOf(selected[k])
    {
      r := r + [dataOf(selected[i])];
    }
    if |r| > 0 {
      emitted := Some(r[0]);
    } else {
      emitted := None;
    }
  }

  /**
   * After `create(node)`, looking `node.id` up gives the first entry with that
   * id: `node` itself when the id was new, the earlier entry otherwise.
   */
  lemma CreateThenFind<T>(items: seq<Item<T>>, node: Item<T>)
    ensures FirstWithId(items + [node], node.id) ==
              if FirstWithId(items, node.id).Some? then FirstWithId(items, node.id) else Some(node)
  {
    var s := items + [node];
    assert s[|items|] == node;
    if FirstWithId(items, node.id).Some? {
      var i := IndexOfId(items, node.id);
      assert s[..|items|] == items;
      assert IndexOfId(s, node.id) == i by {
        assert s[i] == items[i];
        forall k | 0 <= k < i ensures s[k].id != node.id { assert s[k] == items[k]; }
      }
    } else {
      assert IndexOfId(s, node.id) == |items| by {
        forall k | 0 <= k < |items| ensures s[k].id != node.id { assert s[k] == items[k]; }
      }
    }
  }

  /**
   * A client: two items under the root, then `create` of a third under the
   * first. The list has three entries and the new id finds the new item.
   */
  method CreateScenario()
  {
    var c := new TreeViewComponent<string>();
    var one := Item("1", "one", Root, None, None);
    var two := Item("2", "two", "1", None, None);
    var r := c.SetData([one, two], Options(Null, Null, Null, Null), "");
    assert r.Ok?;
    var fresh3 := Item("3", "new", "1", None, None);
    var req := c.Create(fresh3);
    assert req.Ok? && req.value.parent == NodeParent("1");
    assert |c.GetData()| == 3;
    CreateThenFind([one, two], fresh3);
    assert c.GetNode("3") == Some(fresh3);
  }

  /**
   * A client: a lazy load delivered after a successful `setData` leaves the
   * widget in place, so a later `create` still reaches it.
   */
  method LazyThenCreateScenario()
  {
    var c := new TreeViewComponent<string>();
    var r := c.SetData([], Options(Null, Null, Null, Null), "");
    var kid := Item("4", "kid", Root, None, None);
    var delivered := c.ReturnChildren([kid]);
    var created := c.Create(Item("5", "new", "4", None, None));
    assert created.Ok? && |c.GetData()| == 2;
  }

  /**
   * A client that never got a widget: `create` still grows the list but
   * reports the error, and `delete` reports it and leaves the list alone.
   */
  method DetachedScenario()
  {
    var c := new TreeViewComponent<string>();
    var one := Item("1", "one", Root, None, None);
    var created := c.Create(one);
    assert created.Err? && c.GetData() == [one];
    var deleted := c.Delete("1");
    assert deleted.Err? && c.GetData() == [one];
  }

  /**
   * A client: renaming through the widget and receiving its confirmation
   * leaves the list, and so `getNode`, as they were.
   */
  method RenameScenario<T>(c: TreeViewComponent<T>, id: string, name: string)
    requires c.Valid()
  {
    var list := c.GetData();
    var before := c.GetNode(id);
    var req := c.Rename(id, name);
    assert c.GetData() == list;
    if before.Some? {
      var ev := c.OnRenameNode(name, before.value);
      assert c.GetData() == list && c.GetNode(id) == before;
    }
  }
}
