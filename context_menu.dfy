/**
 * `createMenuFromContextItems`: the context menu handed to the widget, an
 * object keyed by option title.
 */
module ContextMenu {
  import opened TreeOptions

  /** One menu entry: its `label` (a keyword in Dafny, hence `labelText`) and the option its action reports. */
  datatype MenuEntry = MenuEntry(labelText: string, option: ContextItem)

  /** The index of the last option with that title, or -1. */
  function LastIndexOfTitle(items: seq<ContextItem>, title: string): (r: int)
    ensures -1 <= r < |items|
    ensures r == -1 <==> forall k :: 0 <= k < |items| ==> items[k].title != title
    ensures 0 <= r ==> items[r].title == title && forall k :: r < k < |items| ==> items[k].title != title
  {
    if |items| == 0 then -1
    else if items[|items| - 1].title == title then |items| - 1
    else LastIndexOfTitle(items[..|items| - 1], title)
  }

  /** The titles that occur in an option list. */
  function Titles(items: seq<ContextItem>): set<string>
  {
    set k | 0 <= k < |items| :: items[k].title
  }

  /**
   * The menu the `forEach` leaves behind: each option in turn writes the
   * entry for its title, overwriting what an earlier option with the same
   * title wrote.
   */
  function MenuOf(items: seq<ContextItem>): (menu: map<string, MenuEntry>)
    ensures menu.Keys == Titles(items)
    ensures forall t :: t in menu ==> menu[t].labelText == t
  {
    if |items| == 0 then map[]
    else
      var m := items[|items| - 1];
      var front := items[..|items| - 1];
      assert Titles(items) == Titles(front) + {m.title} by {
        forall t | t in Titles(items) ensures t in Titles(front) + {m.title} {
          var k :| 0 <= k < |items| && items[k].title == t;
          if k < |items| - 1 { assert front[k] == items[k]; }
        }
        forall t | t in Titles(front) ensures t in Titles(items) {
          var k :| 0 <= k < |front| && front[k].title == t;
          assert items[k] == front[k];
        }
      }
      MenuOf(front)[m.title := MenuEntry(m.title, m)]
  }

  /**
   * A later option with a duplicate title wins: each title's entry reports
   * the last option carrying that title.
   */
  lemma {:induction false} MenuLastWins(items: seq<ContextItem>)
    ensures forall t :: t in MenuOf(items) ==>
              0 <= LastIndexOfTitle(items, t) && MenuOf(items)[t].option == items[LastIndexOfTitle(items, t)]
  {
    if |items| > 0 {
      var front := items[..|items| - 1];
      MenuLastWins(front);
      forall t | t in MenuOf(items)
        ensures 0 <= LastIndexOfTitle(items, t)
        ensures MenuOf(items)[t].option == items[LastIndexOfTitle(items, t)]
      {
        if t != items[|items| - 1].title {
          assert t in MenuOf(front);
          assert items[LastIndexOfTitle(front, t)] == front[LastIndexOfTitle(front, t)];
        }
      }
    }
  }

  /** `createMenuFromContextItems(items)`, with its `forEach` as a loop. */
  method CreateMenu(items: seq<ContextItem>) returns (menu: map<string, MenuEntry>)
    ensures menu == MenuOf(items)
  {
    menu := map[];
    for i := 0 to |items|
      invariant menu == MenuOf(items[..i])
    {
      var m := items[i];
      assert items[..i + 1][..i] == items[..i];
      menu := menu[m.title := MenuEntry(m.title, m)];
    }
    assert items[..|items|] == items;
  }
}
