/** A table of 256 entries printed in 32 rows of 8, and what follows for the table from its rows. */
module TableRows {

  ghost predicate Shape<T>(rows: nat -> seq<T>) {
    forall k :: 0 <= k < 32 ==> |rows(k)| == 8
  }

  /**
   * The even entries of row are related to the half row that begins at off and holds the
   * entries of half their index; the odd ones to the even ones before them.
   */
  ghost predicate RowLinked<T>(halves: (T, T) -> bool, odds: (T, T) -> bool, half: seq<T>, off: nat, row: seq<T>) {
    && off <= 4 && |half| == |row| == 8
    && halves(half[off], row[0]) && halves(half[off + 1], row[2]) && halves(half[off + 2], row[4]) && halves(half[off + 3], row[6])
    && odds(row[1], row[0]) && odds(row[3], row[2]) && odds(row[5], row[4]) && odds(row[7], row[6])
  }

  ghost predicate RowLinkedAt<T>(halves: (T, T) -> bool, odds: (T, T) -> bool, rows: nat -> seq<T>, k: nat) {
    RowLinked(halves, odds, rows(k / 2), 4 * (k % 2), rows(k))
  }

  lemma ByColumn<T>(halves: (T, T) -> bool, odds: (T, T) -> bool, half: seq<T>, off: nat, row: seq<T>, c: nat)
    requires RowLinked(halves, odds, half, off, row) && c < 4
    ensures halves(half[off + c], row[2 * c]) && odds(row[2 * c + 1], row[2 * c])
  {
    assert c == 0 || c == 1 || c == 2 || c == 3;
  }

  /** Entry j is related to entry 2j, and entry 2j + 1 to entry 2j. */
  lemma TableLinked<T>(halves: (T, T) -> bool, odds: (T, T) -> bool, rows: nat -> seq<T>, j: nat)
    requires j < 128 && Shape(rows) && RowLinkedAt(halves, odds, rows, j / 4)
    ensures halves(rows(j / 8)[j % 8], rows(2 * j / 8)[2 * j % 8])
    ensures odds(rows((2 * j + 1) / 8)[(2 * j + 1) % 8], rows(2 * j / 8)[2 * j % 8])
  {
    var k, c := j / 4, j % 4;
    ByColumn(halves, odds, rows(k / 2), 4 * (k % 2), rows(k), c);
    assert (2 * j) / 8 == k && (2 * j) % 8 == 2 * c && (2 * j + 1) / 8 == k && (2 * j + 1) % 8 == 2 * c + 1;
    assert j / 8 == k / 2 && j % 8 == 4 * (k % 2) + c;
  }
}
