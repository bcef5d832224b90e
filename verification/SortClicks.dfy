/** Clicks on the column headers of a table, which the page sends back as sort statuses. */
module SortClicks {
  import opened Wrappers
  import opened FilterViews
  import opened FilterConfigs
  import opened Queries
  import opened Sorting
  import opened SearchExpressions
  import PostQueries

  type SortTypes = map<string, SortStatus>

  predicate Active(s: SortStatus) {
    s == ASC || s == DESC
  }

  function Toggled(s: SortStatus): SortStatus {
    match s
    case DESC => ASC
    case ASC => DESC
    case UNSORTED => ASC
    case NONE => NONE
  }

  // The clicked column toggles and every other column that can be sorted stops sorting.
  function Clicked(sorts: SortTypes, id: string): SortTypes {
    map c | c in sorts ::
      if c == id then Toggled(sorts[c]) else if sorts[c] == NONE then NONE else UNSORTED
  }

  class Page {
    var sortTypes: SortTypes

    constructor (sortTypes: SortTypes)
      ensures this.sortTypes == sortTypes
    {
      this.sortTypes := sortTypes;
    }

    method Click(columnId: string)
      requires columnId in sortTypes
      modifies this
      ensures sortTypes == Clicked(old(sortTypes), columnId)
    {
      if sortTypes[columnId] == DESC {
        sortTypes := sortTypes[columnId := ASC];
      } else if sortTypes[columnId] == ASC {
        sortTypes := sortTypes[columnId := DESC];
      } else if sortTypes[columnId] == UNSORTED {
        sortTypes := sortTypes[columnId := ASC];
      }
      var left := sortTypes.Keys;
      while left != {}
        invariant left <= sortTypes.Keys == old(sortTypes).Keys
        invariant forall c :: c in sortTypes ==>
                    sortTypes[c] == if c in left && c != columnId then old(sortTypes)[c]
                                    else Clicked(old(sortTypes), columnId)[c]
      {
        var otherColumnId :| otherColumnId in left;
        if otherColumnId != columnId && sortTypes[otherColumnId] != NONE {
          sortTypes := sortTypes[otherColumnId := UNSORTED];
        }
        left := left - {otherColumnId};
      }
    }
  }

  function After(sorts: SortTypes, clicks: seq<string>): SortTypes {
    if clicks == [] then sorts else Clicked(After(sorts, clicks[..|clicks| - 1]), clicks[|clicks| - 1])
  }

  // Only columns that can be sorted have a link to click on.
  ghost predicate Clickable(sorts: SortTypes, clicks: seq<string>) {
    forall c :: c in clicks ==> c in sorts && sorts[c] != NONE
  }

  // Clicks never change which columns can be sorted, and after any click the last clicked
  // column, and no other, is ascending or descending.
  lemma {:induction false} LastClickedIsTheOnlyOne(sorts: SortTypes, clicks: seq<string>)
    requires Clickable(sorts, clicks)
    ensures After(sorts, clicks).Keys == sorts.Keys
    ensures forall c :: c in sorts ==> (After(sorts, clicks)[c] == NONE <==> sorts[c] == NONE)
    ensures clicks != [] ==> forall c :: c in sorts ==> (Active(After(sorts, clicks)[c]) <==> c == clicks[|clicks| - 1])
  {
    if clicks != [] {
      LastClickedIsTheOnlyOne(sorts, clicks[..|clicks| - 1]);
    }
  }

  // A column that was not sorting is ascending after an odd number of clicks in a row and
  // descending after an even number.
  lemma {:induction false} ClicksAlternate(sorts: SortTypes, clicks: seq<string>, id: string)
    requires id in sorts && sorts[id] == UNSORTED
    requires clicks != [] && forall c :: c in clicks ==> c == id
    ensures id in After(sorts, clicks)
    ensures After(sorts, clicks)[id] == if |clicks| % 2 == 1 then ASC else DESC
  {
    var rest := clicks[..|clicks| - 1];
    assert clicks[|clicks| - 1] in clicks;
    assert forall c :: c in rest ==> c in clicks;
    if rest != [] {
      ClicksAlternate(sorts, rest, id);
    }
  }

  // How many clicks in a row, at the end, were on the column clicked last.
  function Trailing(clicks: seq<string>): (n: nat)
    ensures n <= |clicks|
  {
    var n := |clicks|;
    if n <= 1 then n else if clicks[n - 1] == clicks[n - 2] then 1 + Trailing(clicks[..n - 1]) else 1
  }

  // An odd number of clicks in a row ends ascending, unless the column was ascending
  // already when the page was shown and nothing else has been clicked.
  predicate EndsAscending(sorts: SortTypes, clicks: seq<string>)
    requires clicks != [] && clicks[|clicks| - 1] in sorts
  {
    var startsAscending := Trailing(clicks) == |clicks| && sorts[clicks[|clicks| - 1]] == ASC;
    (Trailing(clicks) % 2 == 1) != startsAscending
  }

  lemma {:induction false} DirectionAfterClicks(sorts: SortTypes, clicks: seq<string>)
    requires clicks != [] && Clickable(sorts, clicks)
    ensures var id := clicks[|clicks| - 1];
            && id in sorts && id in After(sorts, clicks)
            && After(sorts, clicks)[id] == if EndsAscending(sorts, clicks) then ASC else DESC
  {
    var n := |clicks|;
    var id, front := clicks[n - 1], clicks[..n - 1];
    assert id in clicks;
    LastClickedIsTheOnlyOne(sorts, front);
    assert After(sorts, clicks)[id] == Toggled(After(sorts, front)[id]);
    if n == 1 {
      assert After(sorts, front) == sorts;
    } else if clicks[n - 2] == id {
      DirectionAfterClicks(sorts, front);
    } else {
      assert After(sorts, front)[id] == UNSORTED;
    }
  }

  ghost predicate Shows(slots: Slots, sorts: SortTypes) {
    slots.Keys == sorts.Keys && forall id :: id in slots ==> slots[id].column.sort == sorts[id]
  }

  lemma AtMostOne(ids: seq<string>, id: string)
    requires forall i :: 0 <= i < |ids| ==> ids[i] == id
    requires |ids| > 1 ==> ids[0] != ids[1]
    ensures ids == [] || ids == [id]
  {
  }

  lemma TermsOfOne(slots: Slots, ids: seq<string>, terms: seq<OrderTerm>, before: seq<OrderTerm>, id: string)
    requires id in slots && forall i :: i in slots && slots[i].Terms() != [] ==> i == id
    requires SortsInOrder(slots, slots.Keys, ids, terms, before)
    ensures terms == before + slots[id].Terms()
  {
    assert forall i :: 0 <= i < |ids| ==> ids[i] in ids;
    AtMostOne(ids, id);
    assert id in ids <==> slots[id].Terms() != [];
    assert [id][..0] == [] && AllTerms(slots, [id]) == slots[id].Terms();
  }

  // So a configuration that comes from the page orders by one column at most: whatever
  // order its columns are visited in, the query gets that column's term, or the rows are
  // compared by that column's comparator.
  lemma OrderByOneColumn(sorts: SortTypes, clicks: seq<string>, slots: Slots, ids: seq<string>,
                         terms: seq<OrderTerm>, before: seq<OrderTerm>,
                         comparators: map<string, Order<Row>>, last: Option<string>, order: Option<Order<Row>>)
    requires clicks != [] && Clickable(sorts, clicks) && Shows(slots, After(sorts, clicks))
    requires SortsInOrder(slots, slots.Keys, ids, terms, before)
    requires PostQueries.Orders(slots, comparators, slots.Keys, last, order, None)
    ensures var id := clicks[|clicks| - 1];
            && id in slots
            && terms == before + slots[id].Terms()
            && (!slots[id].selectable.component.PostQuery? ==> order.None?)
            && (slots[id].selectable.component.PostQuery? ==>
                  terms == before && id in comparators && order == PostQueries.ComparatorOf(slots[id], comparators[id]))
  {
    var id := clicks[|clicks| - 1];
    LastClickedIsTheOnlyOne(sorts, clicks);
    assert Active(slots[id].column.sort);
    forall i | i in slots && (slots[i].Terms() != [] || i in PostQueries.Comparing(slots))
      ensures i == id
    {
      assert Active(slots[i].column.sort);
    }
    TermsOfOne(slots, ids, terms, before, id);
    assert id in PostQueries.Comparing(slots) <==> slots[id].selectable.component.PostQuery?;
  }
}
