/**
 * Dragging files or HTML from outside the page onto the tree: the
 * `dragover`/`dragleave` highlight kept in the captured variable `lastEl`,
 * and the routing of a `drop` to the host's callbacks.
 */
module ExternalDrag {
  import opened TreeItems
  import opened TreeOptions

  /** A DOM element: its identity and its tag name as the browser reports it. */
  datatype Element = Element(handle: nat, tagName: string)

  /** `String.prototype.toLowerCase` on the ASCII letters. */
  function LowerAscii(s: string): (r: string)
    ensures |r| == |s|
    ensures forall i :: 0 <= i < |s| ==>
              r[i] == if 'A' <= s[i] <= 'Z' then (s[i] as int + 32) as char else s[i]
  {
    if |s| == 0 then ""
    else
      var c := s[0];
      [if 'A' <= c <= 'Z' then (c as int + 32) as char else c] + LowerAscii(s[1..])
  }

  /**
   * `e.target.tagName.toLowerCase() === 'a'`: the event is over a node's
   * anchor. Exactly the tag names `a` and `A` pass.
   */
  predicate IsAnchor(e: Element): (r: bool)
    ensures r <==> e.tagName == "a" || e.tagName == "A"
  {
    LowerAscii(e.tagName) == "a"
  }

  /** The elements this machine has given the `jstree-hovered` class. */
  function HighlightOf(last: Option<Element>): set<Element>
  {
    if last.Some? then {last.value} else {}
  }

  /**
   * `lastEl` after a `dragover` on `target`. Over a new anchor while another
   * is highlighted, the event only clears the old highlight; the next
   * `dragover` sets the new one.
   */
  function AfterDragOver(last: Option<Element>, target: Element): (r: Option<Element>)
    ensures !IsAnchor(target) ==> r == last
    ensures IsAnchor(target) && last.Some? && last.value != target ==> r.None?
    ensures IsAnchor(target) && last.None? ==> r == Some(target)
    ensures last == Some(target) ==> r == last
  {
    if !IsAnchor(target) then last
    else if last.Some? && last.value != target then None
    else if last != Some(target) then Some(target)
    else last
  }

  /**
   * `lastEl` after a `dragleave` from `target`: a highlight on another element
   * is cleared; leaving the highlighted element itself keeps its highlight.
   */
  function AfterDragLeave(last: Option<Element>, target: Element): (r: Option<Element>)
    ensures last.Some? && last.value != target ==> r.None?
    ensures last.None? || last == Some(target) ==> r == last
  {
    if last.Some? && last.value != target then None else last
  }

  /** Moving the highlight from one anchor to another takes two `dragover` events. */
  lemma RetargetTakesTwoDragovers(a: Element, b: Element)
    requires IsAnchor(b) && a != b
    ensures AfterDragOver(Some(a), b).None?
    ensures AfterDragOver(AfterDragOver(Some(a), b), b) == Some(b)
  {
  }

  /** From any state, two `dragover` events on the same anchor highlight it. */
  lemma TwoDragoversHighlight(last: Option<Element>, b: Element)
    requires IsAnchor(b)
    ensures AfterDragOver(AfterDragOver(last, b), b) == Some(b)
  {
  }

  /**
   * The external-drag listeners' captured state. Each `setData` with external
   * drag enabled starts one of these with `lastEl` null.
   */
  class DragHighlight {
    var lastEl: Option<Element>
    var highlighted: set<Element>

    /** At most one element is highlighted, and it is `lastEl`. */
    ghost predicate Valid()
      reads this
    {
      highlighted == HighlightOf(lastEl)
    }

    constructor ()
      ensures Valid() && lastEl.None? && highlighted == {}
    {
      lastEl := None;
      highlighted := {};
    }

    /** The `dragover` handler. */
    method DragOver(target: Element)
      requires Valid()
      modifies this
      ensures Valid()
      ensures lastEl == AfterDragOver(old(lastEl), target)
      ensures |highlighted| <= 1
    {
      if IsAnchor(target) {
        if lastEl.Some? && lastEl.value != target {
          highlighted := highlighted - {lastEl.value};
          lastEl := None;
        } else if lastEl != Some(target) {
          lastEl := Some(target);
          highlighted := highlighted + {target};
        }
      }
    }

    /** The `dragleave` handler. */
    method DragLeave(target: Element)
      requires Valid()
      modifies this
      ensures Valid()
      ensures lastEl == AfterDragLeave(old(lastEl), target)
      ensures |highlighted| <= 1
    {
      if lastEl.Some? && lastEl.value != target {
        highlighted := highlighted - {lastEl.value};
        lastEl := None;
      }
    }
  }

  /** The browser's `DataTransfer` of a drop, reduced to its file list. */
  datatype Transfer = Transfer(files: seq<string>)

  /** Which host callback a `drop` reaches, and with what. */
  datatype DropRoute<T> =
    | Ignored                                                      // not over an anchor: default handling
    | Swallowed                                                    // handled, but no callback configured
    | FilesDropped(node: Option<Item<T>>, files: seq<string>)
    | HtmlDropped(node: Option<Item<T>>, transfer: Js<Transfer>)

  /**
   * The `drop` handler, given the component's list at drop time as `items`.
   * Only a drop on an anchor is handled; the target item is looked up in that
   * list by the id of the anchor's parent element. A transfer with
   * at least one file goes to `droppedFiles`, anything else (a missing
   * transfer included) to `droppedHtml`.
   */
  function RouteDrop<T>(items: seq<Item<T>>, target: Element, parentDomId: Option<string>,
                        transfer: Js<Transfer>, config: DragExternal): (r: DropRoute<T>)
    ensures r.Ignored? <==> !IsAnchor(target)
    ensures r.FilesDropped? <==> IsAnchor(target) && config.droppedFiles &&
                                 transfer.Present? && |transfer.value.files| > 0
    ensures r.HtmlDropped? <==> IsAnchor(target) && config.droppedHtml &&
                                !(transfer.Present? && |transfer.value.files| > 0)
    ensures r.FilesDropped? ==> r.node == FindByDomId(items, parentDomId) && r.files == transfer.value.files
    ensures r.HtmlDropped? ==> r.node == FindByDomId(items, parentDomId) && r.transfer == transfer
  {
    if !IsAnchor(target) then Ignored
    else
      var toNode := FindByDomId(items, parentDomId);
      if transfer.Present? && |transfer.value.files| > 0 then
        if config.droppedFiles then FilesDropped(toNode, transfer.value.files) else Swallowed
      else
        if config.droppedHtml then HtmlDropped(toNode, transfer) else Swallowed
  }
}
