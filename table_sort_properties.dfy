/**
 * What the page script's sort guarantees: how the direction toggles from
 * click to click, which columns the comparison orders consistently, and
 * what a sorted column then looks like.
 */
module TableSortProperties {
  import opened Wrappers
  import opened TableSort

  // ---------------------------------------------------------------------------
  // Direction toggle

  /** The order a click on header `th` sorts in, given the markers before it. */
  function ClickOrder(markers: seq<Option<string>>, th: nat): Order
    requires th < |markers|
  {
    SortOrder(DirectionUsed(markers[th]))
  }

  /** An unmarked header sorts ascending; so does one marked "ascending" or with an empty marker. */
  lemma UnmarkedSortsAscending(markers: seq<Option<string>>, th: nat)
    requires th < |markers|
    ensures ClickOrder(markers, th) == Ascending <==>
              markers[th].None? || markers[th].value == "" || markers[th].value == ASCENDING
  {
  }

  /** Every click on the same header sorts in the order opposite to the click before. */
  lemma RepeatedClicksAlternate(markers: seq<Option<string>>, th: nat)
    requires th < |markers|
    ensures ClickOrder(MarkersAfterClick(markers, th), th) == Flip(ClickOrder(markers, th))
  {
    var after := MarkersAfterClick(markers, th);
    assert after[th] == Some(NextMarker(DirectionUsed(markers[th])));
  }

  /** Two further clicks on the same header bring its markers back to where one click left them. */
  lemma TwoClicksRestoreMarkers(markers: seq<Option<string>>, th: nat)
    requires th < |markers|
    ensures MarkersAfterClick(MarkersAfterClick(MarkersAfterClick(markers, th), th), th)
            == MarkersAfterClick(markers, th)
  {
    var once := MarkersAfterClick(markers, th);
    var thrice := MarkersAfterClick(MarkersAfterClick(once, th), th);
    assert thrice[th] == once[th];
  }

  /** A click on another header clears this one, so its next click sorts ascending. */
  lemma ClickElsewhereResets(markers: seq<Option<string>>, th: nat, other: nat)
    requires th < |markers| && other < |markers| && other != th
    ensures MarkersAfterClick(markers, other)[th].None?
    ensures ClickOrder(MarkersAfterClick(markers, other), th) == Ascending
  {
    var after := MarkersAfterClick(markers, other);
    assert !after[th].Some?;
  }

  // ---------------------------------------------------------------------------
  // Cell values

  /** A lone time or data child with a non-empty value decides the cell's value; the cell's text is ignored. */
  lemma MachineValueWins(cell: Cell)
    requires MachineReadable(cell)
    ensures CellValue(cell) == match cell.children[0]
                               case TimeElement(dateTime) => dateTime
                               case DataElement(value) => value
                               case OtherElement => ""
    ensures forall innerText, textContent ::
              CellValue(Cell(cell.children, innerText, textContent)) == CellValue(cell)
  {
    forall innerText, textContent
      ensures CellValue(Cell(cell.children, innerText, textContent)) == CellValue(cell)
    {
      assert MachineReadable(Cell(cell.children, innerText, textContent));
    }
  }

  /** A cell without such a child sorts by its rendered text, or by its text content when nothing is rendered. */
  lemma TextFallback(cell: Cell)
    requires !MachineReadable(cell)
    ensures cell.innerText != "" ==> CellValue(cell) == cell.innerText
    ensures cell.innerText == "" ==> CellValue(cell) == cell.textContent
  {
  }

  // ---------------------------------------------------------------------------
  // The comparison

  /** Two rows compare by their cells in the sort column alone. */
  lemma OnlySortColumnMatters(x: Row, x': Row, y: Row, index: nat, c: Collation)
    requires index < |x| && index < |x'| && x[index] == x'[index]
    ensures RowComparator(x, y, index, c) == RowComparator(x', y, index, c)
    ensures RowComparator(y, x, index, c) == RowComparator(y, x', index, c)
  {
  }

  /** The numeric value of a row's cell in column `index`, when the cell exists and reads as a number. */
  predicate NumericCell(r: Row, index: nat, c: Collation) {
    index < |r| && c.toNumber(CellValue(r[index])).Some?
  }

  function Number(r: Row, index: nat, c: Collation): int
    requires NumericCell(r, index, c)
  {
    c.toNumber(CellValue(r[index])).value
  }

  /** Between numeric cells the comparison is by numeric value, in the chosen direction. */
  lemma NumericPrecedes(x: Row, y: Row, index: nat, order: Order, c: Collation)
    requires NumericCell(x, index, c) && NumericCell(y, index, c)
    ensures order == Ascending ==> (Precedes(x, y, index, order, c) <==> Number(x, index, c) <= Number(y, index, c))
    ensures order == Descending ==> (Precedes(x, y, index, order, c) <==> Number(x, index, c) >= Number(y, index, c))
  {
    assert DirectedComparator(x, y, index, order, c).Some?;
  }

  /** A column of numbers is ordered consistently in either direction. */
  lemma NumericColumnConsistent(rows: seq<Row>, index: nat, order: Order, c: Collation)
    requires forall r | r in rows :: NumericCell(r, index, c)
    ensures Consistent(rows, index, order, c)
  {
    forall x, y | x in rows && y in rows
      ensures Precedes(x, y, index, order, c) || Precedes(y, x, index, order, c)
    {
      NumericPrecedes(x, y, index, order, c);
      NumericPrecedes(y, x, index, order, c);
    }
    forall x, y, z | x in rows && y in rows && z in rows
                     && Precedes(x, y, index, order, c) && Precedes(y, z, index, order, c)
      ensures Precedes(x, z, index, order, c)
    {
      NumericPrecedes(x, y, index, order, c);
      NumericPrecedes(y, z, index, order, c);
      NumericPrecedes(x, z, index, order, c);
    }
  }

  /** A sorted column of numbers ascends, or descends, by numeric value. */
  lemma SortedNumbersAreMonotone(rows: seq<Row>, index: nat, order: Order, c: Collation, i: nat, j: nat)
    requires forall r | r in rows :: NumericCell(r, index, c)
    requires SortedBy(rows, index, order, c)
    requires i < j < |rows|
    ensures NumericCell(rows[i], index, c) && NumericCell(rows[j], index, c)
    ensures order == Ascending ==> Number(rows[i], index, c) <= Number(rows[j], index, c)
    ensures order == Descending ==> Number(rows[i], index, c) >= Number(rows[j], index, c)
  {
    assert rows[i] in rows && rows[j] in rows;
    NumericPrecedes(rows[i], rows[j], index, order, c);
  }

  function Sign(n: int): int {
    if n < 0 then -1 else if n > 0 then 1 else 0
  }

  /** The collation is a consistent comparator on all strings: antisymmetric in sign and transitive. */
  ghost predicate LocaleConsistent(c: Collation) {
    && (forall s, t :: Sign(c.localeCompare(s, t)) == -Sign(c.localeCompare(t, s)))
    && (forall s, t, u :: c.localeCompare(s, t) <= 0 && c.localeCompare(t, u) <= 0 ==> c.localeCompare(s, u) <= 0)
  }

  /** When either cell is not numeric the comparison is the collation's, in the chosen direction. */
  lemma TextPrecedes(x: Row, y: Row, index: nat, order: Order, c: Collation)
    requires index < |x| && index < |y|
    requires c.toNumber(CellValue(x[index])).None? || c.toNumber(CellValue(y[index])).None?
    ensures order == Ascending ==>
              (Precedes(x, y, index, order, c) <==> c.localeCompare(CellValue(x[index]), CellValue(y[index])) <= 0)
    ensures order == Descending ==>
              (Precedes(x, y, index, order, c) <==> c.localeCompare(CellValue(x[index]), CellValue(y[index])) >= 0)
  {
    assert DirectedComparator(x, y, index, order, c).Some?;
  }

  /** A column without numbers is ordered consistently in either direction when the collation is consistent. */
  lemma TextColumnConsistent(rows: seq<Row>, index: nat, order: Order, c: Collation)
    requires LocaleConsistent(c)
    requires forall r | r in rows :: index < |r| && c.toNumber(CellValue(r[index])).None?
    ensures Consistent(rows, index, order, c)
  {
    forall x, y | x in rows && y in rows
      ensures Precedes(x, y, index, order, c) || Precedes(y, x, index, order, c)
    {
      TextPrecedes(x, y, index, order, c);
      TextPrecedes(y, x, index, order, c);
      assert Sign(c.localeCompare(CellValue(x[index]), CellValue(y[index])))
             == -Sign(c.localeCompare(CellValue(y[index]), CellValue(x[index])));
    }
    forall x, y, z | x in rows && y in rows && z in rows
                     && Precedes(x, y, index, order, c) && Precedes(y, z, index, order, c)
      ensures Precedes(x, z, index, order, c)
    {
      var a, b, d := CellValue(x[index]), CellValue(y[index]), CellValue(z[index]);
      TextPrecedes(x, y, index, order, c);
      TextPrecedes(y, z, index, order, c);
      TextPrecedes(x, z, index, order, c);
      if order == Descending {
        assert Sign(c.localeCompare(a, b)) == -Sign(c.localeCompare(b, a));
        assert Sign(c.localeCompare(b, d)) == -Sign(c.localeCompare(d, b));
        assert Sign(c.localeCompare(a, d)) == -Sign(c.localeCompare(d, a));
        assert c.localeCompare(d, b) <= 0 && c.localeCompare(b, a) <= 0 ==> c.localeCompare(d, a) <= 0;
      }
    }
  }

  /** A descending sort of numbers is the ascending order read backwards. */
  lemma DescendingReversesNumbers(x: Row, y: Row, index: nat, c: Collation)
    requires NumericCell(x, index, c) && NumericCell(y, index, c)
    ensures Precedes(x, y, index, Descending, c) <==> Precedes(y, x, index, Ascending, c)
  {
    NumericPrecedes(x, y, index, Descending, c);
    NumericPrecedes(y, x, index, Ascending, c);
  }
}
