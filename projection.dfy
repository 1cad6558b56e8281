/**
 * The projection of the flat list onto the tree widget's own node format
 * (`wrapDataForJsTreeDataSource`).
 */
module Projection {
  import opened TreeItems

  /**
   * A node in the widget's format. `children` is only set when the item says
   * whether it has children; `data` carries the item itself so that the
   * widget's events can hand it back.
   */
  datatype NativeNode<T> = NativeNode(
    id: string,
    text: string,
    data: Item<T>,
    parent: string,
    children: Option<bool>)

  /**
   * The node built for one item. The source's guard is
   * `typeof hasChildren !== 'undefined' && typeof hasChildren !== null`; the
   * second half compares a string with `null` and always holds, so only the
   * presence of `hasChildren` decides.
   */
  function ProjectItem<T>(item: Item<T>): NativeNode<T>
  {
    var children := if item.hasChildren.Some? then Some(item.hasChildren.value) else None;
    NativeNode(item.id, item.name, item, item.parentId, children)
  }

  /** The projection of a whole list: one node per item, in the same order. */
  function Project<T>(items: seq<Item<T>>): (r: seq<NativeNode<T>>)
    ensures |r| == |items|
    ensures forall k :: 0 <= k < |items| ==>
              && r[k].id == items[k].id
              && r[k].text == items[k].name
              && r[k].parent == items[k].parentId
              && r[k].data == items[k]
              && (r[k].children.Some? <==> items[k].hasChildren.Some?)
              && r[k].children == items[k].hasChildren
  {
    seq(|items|, k requires 0 <= k < |items| => ProjectItem(items[k]))
  }

  /** The items attached to a sequence of native nodes. */
  function Payloads<T>(nodes: seq<NativeNode<T>>): seq<Item<T>>
  {
    seq(|nodes|, k requires 0 <= k < |nodes| => nodes[k].data)
  }

  /**
   * The item read back from the visible fields of a native node, taking only
   * the host's `tag` from the attached payload.
   */
  function FromNative<T>(n: NativeNode<T>): Item<T>
  {
    Item(n.id, n.text, n.parent, n.children, n.data.tag)
  }

  /** `wrapDataForJsTreeDataSource`: builds the node list with a loop. */
  method Wrap<T>(data: seq<Item<T>>) returns (list: seq<NativeNode<T>>)
    ensures list == Project(data)
  {
    list := [];
    for i := 0 to |data|
      invariant |list| == i
      invariant forall k :: 0 <= k < i ==> list[k] == ProjectItem(data[k])
    {
      var item := data[i];
      var children := None;
      if item.hasChildren.Some? {
        children := Some(item.hasChildren.value);
      }
      list := list + [NativeNode(item.id, item.name, item, item.parentId, children)];
    }
  }

  /** Reading the payloads back from a projection gives the original list. */
  lemma PayloadsOfProject<T>(items: seq<Item<T>>)
    ensures Payloads(Project(items)) == items
  {
  }

  /**
   * Reading each item back from the visible fields of its node (id, text,
   * parent, children) gives the original list: the projection loses nothing
   * but the tag, which travels in the payload.
   */
  lemma FromNativeOfProject<T>(items: seq<Item<T>>)
    ensures forall k :: 0 <= k < |items| ==> FromNative(Project(items)[k]) == items[k]
  {
  }

  /** Projection distributes over concatenation, the shape of an append. */
  lemma ProjectAppend<T>(a: seq<Item<T>>, b: seq<Item<T>>)
    ensures Project(a + b) == Project(a) + Project(b)
  {
  }
}
