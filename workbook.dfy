/**
 * A loaded workbook: its worksheets, each a grid of cells that the fillers
 * rewrite in place, visiting every sheet, every row and every cell once.
 */
module Workbook {
  import opened Values

  type Sheet = array2<Value>

  /** `book.worksheets` holds distinct sheet objects. */
  predicate DistinctSheets(book: seq<Sheet>) {
    forall k, l :: 0 <= k < l < |book| ==> book[k] != book[l]
  }

  /** Every cell of `sheet` becomes `f` of its former value. */
  method RewriteSheet(sheet: Sheet, f: Value -> Value)
    modifies sheet
    ensures forall i, j :: 0 <= i < sheet.Length0 && 0 <= j < sheet.Length1 ==>
      sheet[i, j] == f(old(sheet[i, j]))
  {
    var i := 0;
    while i < sheet.Length0
      invariant 0 <= i <= sheet.Length0
      invariant forall r, c :: 0 <= r < i && 0 <= c < sheet.Length1 ==> sheet[r, c] == f(old(sheet[r, c]))
      invariant forall r, c :: i <= r < sheet.Length0 && 0 <= c < sheet.Length1 ==> sheet[r, c] == old(sheet[r, c])
    {
      var j := 0;
      while j < sheet.Length1
        invariant 0 <= j <= sheet.Length1
        invariant forall r, c :: 0 <= r < i && 0 <= c < sheet.Length1 ==> sheet[r, c] == f(old(sheet[r, c]))
        invariant forall c :: 0 <= c < j ==> sheet[i, c] == f(old(sheet[i, c]))
        invariant forall r, c :: i <= r < sheet.Length0 && 0 <= c < sheet.Length1 && (r > i || c >= j) ==>
          sheet[r, c] == old(sheet[r, c])
      {
        sheet[i, j] := f(sheet[i, j]);
        j := j + 1;
      }
      i := i + 1;
    }
  }

  /** Every cell of every sheet becomes `f` of its former value. */
  method RewriteBook(book: seq<Sheet>, f: Value -> Value)
    requires DistinctSheets(book)
    modifies set sheet | sheet in book
    ensures forall k, i, j :: 0 <= k < |book| && 0 <= i < book[k].Length0 && 0 <= j < book[k].Length1 ==>
      book[k][i, j] == f(old(book[k][i, j]))
  {
    for n := 0 to |book|
      invariant forall k, i, j :: 0 <= k < n && 0 <= i < book[k].Length0 && 0 <= j < book[k].Length1 ==>
        book[k][i, j] == f(old(book[k][i, j]))
      invariant forall k, i, j :: n <= k < |book| && 0 <= i < book[k].Length0 && 0 <= j < book[k].Length1 ==>
        book[k][i, j] == old(book[k][i, j])
    {
      RewriteSheet(book[n], f);
    }
  }
}
