/**
 * The flat record a tree is built from, and the JavaScript array built-ins
 * (`find`, `findIndex`, `splice`) that the component applies to its list of
 * such records.
 */
module TreeItems {

  datatype Option<+V> = None | Some(value: V)

  /**
   * A JavaScript slot that the component tests against both `undefined` and
   * `null`; the two are distinct values in the source and lead to different
   * branches (and errors), so the model keeps them apart.
   */
  datatype Js<+V> = Undefined | Null | Present(value: V)

  /** The parent id that stands for the invisible root of the tree. */
  const Root: string := "#"

  /**
   * One entry of the flat list. `hasChildren` and `tag` are optional fields;
   * `tag` is host data the component never looks at.
   */
  datatype Item<T> = Item(
    id: string,
    name: string,
    parentId: string,
    hasChildren: Option<bool>,
    tag: Option<T>)

  /** `items.findIndex(x => x.id === id)`: the first matching index, or -1. */
  function IndexOfId<T>(items: seq<Item<T>>, id: string): (r: int)
    ensures -1 <= r < |items|
    ensures r == -1 <==> forall k :: 0 <= k < |items| ==> items[k].id != id
    ensures 0 <= r ==> items[r].id == id && forall k :: 0 <= k < r ==> items[k].id != id
  {
    if |items| == 0 then -1
    else if items[0].id == id then 0
    else
      var rest := IndexOfId(items[1..], id);
      if rest == -1 then -1 else rest + 1
  }

  /** `items.find(x => x.id === id)`: the first entry with that id, or nothing. */
  function FirstWithId<T>(items: seq<Item<T>>, id: string): (r: Option<Item<T>>)
    ensures r.None? <==> forall k :: 0 <= k < |items| ==> items[k].id != id
    ensures r.Some? ==> exists k :: 0 <= k < |items| && items[k] == r.value && items[k].id == id &&
                                    forall j :: 0 <= j < k ==> items[j].id != id
  {
    var i := IndexOfId(items, id);
    if i < 0 then None else Some(items[i])
  }

  /**
   * A lookup by an id read from a DOM attribute, which may be missing
   * (`attr('id')` gives `undefined`, and no item has that id).
   */
  function FindByDomId<T>(items: seq<Item<T>>, domId: Option<string>): (r: Option<Item<T>>)
    ensures domId.None? ==> r.None?
    ensures domId.Some? ==> r == FirstWithId(items, domId.value)
  {
    match domId
    case None => None
    case Some(id) => FirstWithId(items, id)
  }

  /**
   * `s.splice(start, 1)` on a JavaScript array: a negative start counts from
   * the end (clamped at 0), a start past the end removes nothing.
   */
  function SpliceOne<X>(s: seq<X>, start: int): (r: seq<X>)
    ensures 0 <= start < |s| ==> r == s[..start] + s[start + 1..]
    ensures -|s| <= start < 0 ==> r == s[..|s| + start] + s[|s| + start + 1..]
    ensures start == -1 && |s| > 0 ==> r == s[..|s| - 1]
    ensures start < -|s| && |s| > 0 ==> r == s[1..]
    ensures start >= |s| ==> r == s
    ensures |s| == 0 ==> r == []
  {
    var from := if start < 0 then (if |s| + start < 0 then 0 else |s| + start)
                else (if start < |s| then start else |s|);
    if from < |s| then s[..from] + s[from + 1..] else s
  }

  /**
   * The list left by `delete(id)`: `splice(findIndex(...), 1)`. If no entry
   * has the id, `findIndex` gives -1 and the splice removes the LAST entry.
   */
  function AfterDelete<T>(items: seq<Item<T>>, id: string): (r: seq<Item<T>>)
    ensures |items| == 0 ==> r == []
    ensures |items| > 0 ==> |r| == |items| - 1
    ensures forall i :: 0 <= i < |items| && items[i].id == id && (forall j :: 0 <= j < i ==> items[j].id != id)
                        ==> r == items[..i] + items[i + 1..]
    ensures |items| > 0 && (forall k :: 0 <= k < |items| ==> items[k].id != id) ==> r == items[..|items| - 1]
  {
    SpliceOne(items, IndexOfId(items, id))
  }
}
