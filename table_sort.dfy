/**
 * The page script that sorts the device table when a sortable column header
 * is clicked: the value a cell sorts by, the comparison of two rows on one
 * column, the per-header direction marker, and the click handler that moves
 * the marker and reorders the body rows in place.
 *
 * The DOM is reduced to what the script reads: a header row is an array of
 * optional direction markers (the `sortedDirection` data attribute of each
 * header), the body is an array of rows, and a row is a sequence of cells.
 * The two browser primitives the comparison relies on, numeric conversion
 * (`isNaN`) and locale-aware collation (`localeCompare`), are parameters.
 */
module TableSort {
  import opened Wrappers

  // ---------------------------------------------------------------------------
  // Cells and their values

  /** An element child of a table cell, as far as the sort looks at it. */
  datatype Element = TimeElement(dateTime: string) | DataElement(value: string) | OtherElement

  /** A table cell: its element children, its rendered text and its raw text content. */
  datatype Cell = Cell(children: seq<Element>, innerText: string, textContent: string)

  type Row = seq<Cell>

  /** The cell holds exactly one element child, a time or data element with a non-empty machine-readable value. */
  predicate MachineReadable(cell: Cell) {
    && |cell.children| == 1
    && match cell.children[0]
       case TimeElement(dateTime) => dateTime != ""
       case DataElement(value) => value != ""
       case OtherElement => false
  }

  /**
   * The value a cell sorts by: the `dateTime` of a lone time child or the
   * `value` of a lone data child when non-empty, else the rendered text, or
   * the raw text content when the rendered text is empty.
   */
  function CellValue(cell: Cell): (r: string)
    ensures !MachineReadable(cell) ==> r == cell.innerText || r == cell.textContent
    ensures r == "" ==> !MachineReadable(cell) && cell.innerText == ""
  {
    if |cell.children| == 1 && cell.children[0].TimeElement? && cell.children[0].dateTime != "" then
      cell.children[0].dateTime
    else if |cell.children| == 1 && cell.children[0].DataElement? && cell.children[0].value != "" then
      cell.children[0].value
    else if cell.innerText != "" then
      cell.innerText
    else
      cell.textContent
  }

  /** The value of the cell at `index` of a row; `None` where the row has no such cell and the script throws. */
  function GetCellValue(tr: Row, index: nat): (r: Option<string>)
    ensures r.Some? <==> index < |tr|
    ensures r.Some? ==> r.value == CellValue(tr[index])
  {
    if index < |tr| then Some(CellValue(tr[index])) else None
  }

  // ---------------------------------------------------------------------------
  // Comparing rows

  /**
   * The browser's conversions: `toNumber` is the numeric reading of a string
   * (`None` where `isNaN` holds), `localeCompare` the numeric-aware collation.
   */
  datatype Collation = Collation(toNumber: string -> Option<int>, localeCompare: (string, string) -> int)

  /** Two cell values: their numeric difference when both are numbers, else their collation order. */
  function CompareValues(a: string, b: string, c: Collation): int {
    if c.toNumber(a).Some? && c.toNumber(b).Some? then c.toNumber(a).value - c.toNumber(b).value
    else c.localeCompare(a, b)
  }

  /** The comparison of two rows on column `index`; `None` where either row lacks the cell. */
  function RowComparator(trA: Row, trB: Row, index: nat, c: Collation): (r: Option<int>)
    ensures r.Some? <==> index < |trA| && index < |trB|
  {
    match (GetCellValue(trA, index), GetCellValue(trB, index))
    case (Some(valueA), Some(valueB)) => Some(CompareValues(valueA, valueB, c))
    case _ => None
  }

  datatype Order = Ascending | Descending

  function Flip(order: Order): Order {
    match order
    case Ascending => Descending
    case Descending => Ascending
  }

  /** The row comparison as the sort uses it: negated for a descending sort. */
  function DirectedComparator(trA: Row, trB: Row, index: nat, order: Order, c: Collation): Option<int> {
    match RowComparator(trA, trB, index, c)
    case None => None
    case Some(v) => Some(if order == Ascending then v else -v)
  }

  /** Row `x` may stand before row `y` in the sorted body. */
  predicate Precedes(x: Row, y: Row, index: nat, order: Order, c: Collation) {
    var r := DirectedComparator(x, y, index, order, c);
    r.Some? && r.value <= 0
  }

  /**
   * The comparison is a total preorder on the given rows: every two of them
   * are ordered one way or the other, and the order is transitive. This is
   * what a consistent sort comparator amounts to.
   */
  predicate Consistent(rows: seq<Row>, index: nat, order: Order, c: Collation) {
    && (forall x, y | x in rows && y in rows :: Precedes(x, y, index, order, c) || Precedes(y, x, index, order, c))
    && (forall x, y, z | x in rows && y in rows && z in rows ::
          Precedes(x, y, index, order, c) && Precedes(y, z, index, order, c) ==> Precedes(x, z, index, order, c))
  }

  /** Every row is ordered before every later row. */
  predicate SortedBy(rows: seq<Row>, index: nat, order: Order, c: Collation) {
    forall i, j :: 0 <= i < j < |rows| ==> Precedes(rows[i], rows[j], index, order, c)
  }

  /** Every row has a cell at column `index`. */
  predicate AllHaveColumn(rows: seq<Row>, index: nat) {
    forall k :: 0 <= k < |rows| ==> index < |rows[k]|
  }

  // ---------------------------------------------------------------------------
  // Direction markers

  const ASCENDING: string := "ascending"
  const DESCENDING: string := "descending"

  /** The direction a click sorts in: the header's stored marker, or ascending when none (or an empty one) is stored. */
  function DirectionUsed(marker: Option<string>): (dir: string)
    ensures dir != ""
    ensures marker.None? ==> dir == ASCENDING
    ensures marker.Some? && marker.value == "" ==> dir == ASCENDING
    ensures marker.Some? && marker.value != "" ==> dir == marker.value
  {
    if marker.None? || marker.value == "" then ASCENDING else marker.value
  }

  /** The order a direction stands for: only the exact string "ascending" sorts ascending. */
  function SortOrder(dir: string): (order: Order)
    ensures order == Ascending <==> dir == ASCENDING
  {
    if dir == ASCENDING then Ascending else Descending
  }

  /** The marker stored after sorting in direction `dir`: the opposite direction. */
  function NextMarker(dir: string): (marker: string)
    ensures SortOrder(marker) == Flip(SortOrder(dir))
    ensures marker == ASCENDING || marker == DESCENDING
  {
    if dir == ASCENDING then DESCENDING else ASCENDING
  }

  /** The header markers after a click on header `th`: only `th` is marked, with the opposite of the direction used. */
  function MarkersAfterClick(markers: seq<Option<string>>, th: nat): (r: seq<Option<string>>)
    requires th < |markers|
    ensures |r| == |markers|
    ensures forall i :: 0 <= i < |r| ==> (r[i].Some? <==> i == th)
    ensures r[th] == Some(NextMarker(DirectionUsed(markers[th])))
  {
    seq(|markers|, i => if i == th then Some(NextMarker(DirectionUsed(markers[th]))) else None)
  }

  // ---------------------------------------------------------------------------
  // The click handler

  /** Removes the marker of every header. */
  method ClearMarkers(headers: array<Option<string>>)
    modifies headers
    ensures forall k :: 0 <= k < headers.Length ==> headers[k].None?
  {
    for i := 0 to headers.Length
      invariant forall k :: 0 <= k < i ==> headers[k].None?
    {
      headers[i] := None;
    }
  }

  /**
   * Reorders the rows by the directed comparison on column `index`. The
   * result is a permutation of the rows, and sorted whenever the comparison
   * is consistent on them.
   */
  method SortRows(body: array<Row>, index: nat, order: Order, c: Collation)
    requires AllHaveColumn(body[..], index)
    modifies body
    ensures multiset(body[..]) == multiset(old(body[..]))
    ensures Consistent(old(body[..]), index, order, c) ==> SortedBy(body[..], index, order, c)
  {
    ghost var rows := body[..];
    ghost var ok := Consistent(rows, index, order, c);
    var i := 0;
    while i < body.Length
      invariant 0 <= i <= body.Length
      invariant multiset(body[..]) == multiset(rows)
      invariant ok ==> SortedUpTo(body[..], i, index, order, c)
    {
      InsertAt(body, i, index, order, c, rows, ok);
      i := i + 1;
    }
  }

  /** The first `n` rows are in order. */
  ghost predicate SortedUpTo(s: seq<Row>, n: nat, index: nat, order: Order, c: Collation) {
    forall p, q :: 0 <= p < q < n && q < |s| ==> Precedes(s[p], s[q], index, order, c)
  }

  /** The first `n` rows are in order, except that the row at `j` may stand too far to the right. */
  ghost predicate SortedUpToExcept(s: seq<Row>, n: nat, j: nat, index: nat, order: Order, c: Collation) {
    forall p, q :: 0 <= p < q < n && q < |s| && q != j ==> Precedes(s[p], s[q], index, order, c)
  }

  /** Moves row `i` left past every earlier row it must precede. */
  method InsertAt(body: array<Row>, i: nat, index: nat, order: Order, c: Collation, ghost rows: seq<Row>, ghost ok: bool)
    requires i < body.Length
    requires multiset(body[..]) == multiset(rows)
    requires ok ==> Consistent(rows, index, order, c) && SortedUpTo(body[..], i, index, order, c)
    modifies body
    ensures multiset(body[..]) == multiset(rows)
    ensures ok ==> SortedUpTo(body[..], i + 1, index, order, c)
  {
    var j := i;
    while 0 < j && !Precedes(body[j - 1], body[j], index, order, c)
      invariant 0 <= j <= i
      invariant multiset(body[..]) == multiset(rows)
      invariant ok ==> SortedUpToExcept(body[..], i + 1, j, index, order, c)
    {
      ghost var s := body[..];
      SwapPermutes(s, j);
      if ok {
        SwapStep(s, rows, i + 1, j, index, order, c);
      }
      SwapAt(body, j);
      j := j - 1;
    }
    if ok {
      CloseGap(body[..], rows, i + 1, j, index, order, c);
    }
  }

  /** Exchanges the rows at `j - 1` and `j`. */
  method SwapAt(body: array<Row>, j: nat)
    requires 0 < j < body.Length
    modifies body
    ensures body[..] == Swap(old(body[..]), j)
  {
    body[j - 1], body[j] := body[j], body[j - 1];
  }

  /** `s` with the rows at `j - 1` and `j` exchanged. */
  function Swap(s: seq<Row>, j: nat): seq<Row>
    requires 0 < j < |s|
  {
    s[j - 1 := s[j]][j := s[j - 1]]
  }

  lemma SwapPermutes(s: seq<Row>, j: nat)
    requires 0 < j < |s|
    ensures multiset(Swap(s, j)) == multiset(s)
  {
  }

  lemma InRows(s: seq<Row>, rows: seq<Row>, k: nat)
    requires multiset(s) == multiset(rows) && k < |s|
    ensures s[k] in rows
  {
    assert s[k] in multiset(s);
  }

  /** Swapping an out-of-order pair at `j - 1` and `j` moves the exception one place left. */
  lemma SwapStep(s: seq<Row>, rows: seq<Row>, n: nat, j: nat, index: nat, order: Order, c: Collation)
    requires 0 < j < n <= |s|
    requires multiset(s) == multiset(rows) && Consistent(rows, index, order, c)
    requires !Precedes(s[j - 1], s[j], index, order, c)
    requires SortedUpToExcept(s, n, j, index, order, c)
    ensures SortedUpToExcept(Swap(s, j), n, j - 1, index, order, c)
  {
    InRows(s, rows, j - 1);
    InRows(s, rows, j);
    assert Precedes(s[j], s[j - 1], index, order, c);
  }

  /** Once the row at `j` follows its left neighbour, the whole prefix is in order. */
  lemma CloseGap(s: seq<Row>, rows: seq<Row>, n: nat, j: nat, index: nat, order: Order, c: Collation)
    requires j < n <= |s|
    requires multiset(s) == multiset(rows) && Consistent(rows, index, order, c)
    requires j == 0 || Precedes(s[j - 1], s[j], index, order, c)
    requires SortedUpToExcept(s, n, j, index, order, c)
    ensures SortedUpTo(s, n, index, order, c)
  {
    forall p | 0 <= p < j - 1
      ensures Precedes(s[p], s[j], index, order, c)
    {
      InRows(s, rows, p);
      InRows(s, rows, j - 1);
      InRows(s, rows, j);
    }
  }

  /**
   * A click on header `th` of a table with the given header row and body
   * rows. The marker of `th` is moved as `MarkersAfterClick` says; then the
   * rows are sorted on column `th` in the direction that was stored. When
   * there are two or more rows and one of them has no cell in that column,
   * the comparison throws: the markers have already moved, the rows stay as
   * they were, and `completed` is false.
   */
  method SortColumn(headers: array<Option<string>>, th: nat, body: array<Row>, c: Collation) returns (completed: bool)
    requires th < headers.Length
    modifies headers, body
    ensures headers[..] == MarkersAfterClick(old(headers[..]), th)
    ensures completed <==> body.Length < 2 || AllHaveColumn(old(body[..]), th)
    ensures !completed ==> body[..] == old(body[..])
    ensures multiset(body[..]) == multiset(old(body[..]))
    ensures completed && Consistent(old(body[..]), th, SortOrder(DirectionUsed(old(headers[th]))), c) ==>
              SortedBy(body[..], th, SortOrder(DirectionUsed(old(headers[th]))), c)
  {
    ghost var markers := headers[..];
    var dir := DirectionUsed(headers[th]);
    ClearMarkers(headers);
    headers[th] := Some(NextMarker(dir));
    assert headers[..] == MarkersAfterClick(markers, th);
    var index := th;
    if body.Length < 2 {
      return true;
    }
    if !AllHaveColumn(body[..], index) {
      return false;
    }
    SortRows(body, index, SortOrder(dir), c);
    completed := true;
  }
}
