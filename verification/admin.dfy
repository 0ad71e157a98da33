/** The admin table: column sorting with a direction toggle, row selection,
    select-all, inline editing of name and price, and bulk deletion. */
module Admin {
  import Text
  import Seqs
  import opened Wrappers
  import opened Products

  datatype Row = Row(product: Product, selected: bool)

  datatype Column = Name | Price | Category | Brand | Rating
  datatype Direction = Asc | Desc

  /** The sort column (none until a header is clicked) and its direction. */
  datatype SortState = SortState(column: Option<Column>, direction: Direction)

  const InitialSort: SortState := SortState(None, Asc)

  /** Every product starts unselected. */
  function InitialRows(products: seq<Product>): (r: seq<Row>)
    ensures |r| == |products|
    ensures forall i :: 0 <= i < |r| ==> r[i] == Row(products[i], false)
  {
    seq(|products|, i requires 0 <= i < |products| => Row(products[i], false))
  }

  // -------------------------------------------------------------- sorting

  /** `aVal < bVal` on the chosen column: code-unit order on strings,
      numeric order on price and rating. */
  predicate ValueLess(column: Column, a: Product, b: Product) {
    match column
    case Name => Text.StringLess(a.name, b.name)
    case Category => Text.StringLess(a.category, b.category)
    case Brand => Text.StringLess(a.brand, b.brand)
    case Price => a.price < b.price
    case Rating => a.rating < b.rating
  }

  /** "a may come before b": the comparator of `sortedProducts` returns a
      value <= 0. Ascending it is "b is not below a", descending "a is not
      below b". */
  function Precedes(column: Column, direction: Direction): (Row, Row) -> bool {
    match direction
    case Asc => (a: Row, b: Row) => !ValueLess(column, b.product, a.product)
    case Desc => (a: Row, b: Row) => !ValueLess(column, a.product, b.product)
  }

  /** `<` on strings is a strict total order on code-unit sequences, so "not
      greater" is a total preorder. */
  lemma StringNotGreater(x: string, y: string, z: string)
    ensures !Text.StringLess(y, x) || !Text.StringLess(x, y)
    ensures !Text.StringLess(y, x) && !Text.StringLess(z, y) ==> !Text.StringLess(z, x)
  {
    Text.UnitsLessTotal(Text.CodeUnits(x), Text.CodeUnits(y));
    Text.UnitsLessTotal(Text.CodeUnits(y), Text.CodeUnits(z));
    if Text.StringLess(z, x) && !Text.StringLess(y, x) {
      Text.UnitsLessTotal(Text.CodeUnits(x), Text.CodeUnits(y));
      if Text.CodeUnits(x) != Text.CodeUnits(y) {
        Text.UnitsLessTransitive(Text.CodeUnits(z), Text.CodeUnits(x), Text.CodeUnits(y));
      }
    }
  }

  lemma ValueNotGreater(column: Column, a: Product, b: Product, c: Product)
    ensures !ValueLess(column, b, a) || !ValueLess(column, a, b)
    ensures !ValueLess(column, b, a) && !ValueLess(column, c, b) ==> !ValueLess(column, c, a)
  {
    match column
    case Name => StringNotGreater(a.name, b.name, c.name);
    case Category => StringNotGreater(a.category, b.category, c.category);
    case Brand => StringNotGreater(a.brand, b.brand, c.brand);
    case Price =>
    case Rating =>
  }

  lemma PrecedesIsPreorder(column: Column, direction: Direction)
    ensures Seqs.TotalPreorder(Precedes(column, direction))
  {
    var le := Precedes(column, direction);
    forall a: Row, b: Row ensures le(a, b) || le(b, a) {
      ValueNotGreater(column, a.product, b.product, b.product);
    }
    forall a: Row, b: Row, c: Row | le(a, b) && le(b, c) ensures le(a, c) {
      if direction == Asc {
        ValueNotGreater(column, a.product, b.product, c.product);
      } else {
        ValueNotGreater(column, c.product, b.product, a.product);
      }
    }
  }

  /** The rows in display order: unchanged with no sort column, otherwise a
      reordering of the rows ordered by the column in the chosen direction. */
  function SortedRows(rows: seq<Row>, sort: SortState): (r: seq<Row>)
    ensures sort.column.None? ==> r == rows
    ensures multiset(r) == multiset(rows)
    ensures sort.column.Some? && sort.direction == Asc ==>
              forall i, j :: 0 <= i < j < |r| ==> !ValueLess(sort.column.value, r[j].product, r[i].product)
    ensures sort.column.Some? && sort.direction == Desc ==>
              forall i, j :: 0 <= i < j < |r| ==> !ValueLess(sort.column.value, r[i].product, r[j].product)
  {
    match sort.column
    case None => rows
    case Some(column) =>
      PrecedesIsPreorder(column, sort.direction);
      Seqs.Sort(rows, Precedes(column, sort.direction))
  }

  /** Clicking a header: the same column flips the direction, another column
      becomes the sort column, ascending. */
  function HandleSort(sort: SortState, column: Column): (r: SortState)
    ensures r.column == Some(column)
    ensures sort.column == Some(column) ==> r.direction != sort.direction
    ensures sort.column != Some(column) ==> r.direction == Asc
  {
    if sort.column == Some(column) then
      SortState(sort.column, if sort.direction == Asc then Desc else Asc)
    else
      SortState(Some(column), Asc)
  }

  /** Two clicks on the current sort column give back the original state. */
  lemma HandleSortTwice(sort: SortState, column: Column)
    requires sort.column == Some(column)
    ensures HandleSort(HandleSort(sort, column), column) == sort
  {
  }

  // ------------------------------------------------------------ selection

  /** Toggles the selection of the rows with the given id. */
  function HandleSelect(rows: seq<Row>, id: string): (r: seq<Row>)
    ensures |r| == |rows|
    ensures forall i :: 0 <= i < |r| ==> r[i].product == rows[i].product
    ensures forall i :: 0 <= i < |r| ==>
              r[i].selected == (if rows[i].product.id == id then !rows[i].selected else rows[i].selected)
  {
    seq(|rows|, i requires 0 <= i < |rows| =>
      if rows[i].product.id == id then rows[i].(selected := !rows[i].selected) else rows[i])
  }

  /** Selecting the same row twice restores the table. */
  lemma HandleSelectInvolution(rows: seq<Row>, id: string)
    ensures HandleSelect(HandleSelect(rows, id), id) == rows
  {
  }

  /** `products.every((p) => p.selected)`; true on an empty table. */
  predicate AllSelected(rows: seq<Row>) {
    forall i :: 0 <= i < |rows| ==> rows[i].selected
  }

  /** The header checkbox: checked when the table is non-empty and every row
      is selected. */
  predicate SelectAllChecked(rows: seq<Row>) {
    |rows| > 0 && AllSelected(rows)
  }

  /** Sets every row's selection to the negation of "all are selected". */
  function HandleSelectAll(rows: seq<Row>): (r: seq<Row>)
    ensures |r| == |rows|
    ensures forall i :: 0 <= i < |r| ==> r[i] == Row(rows[i].product, !AllSelected(rows))
  {
    var target := !AllSelected(rows);
    seq(|rows|, i requires 0 <= i < |rows| => Row(rows[i].product, target))
  }

  /** On a non-empty table the header checkbox toggles: it clears a fully
      selected table and fills any other. */
  lemma HandleSelectAllToggles(rows: seq<Row>)
    requires |rows| > 0
    ensures SelectAllChecked(HandleSelectAll(rows)) == !SelectAllChecked(rows)
    ensures SelectAllChecked(rows) ==> forall i :: 0 <= i < |rows| ==> !HandleSelectAll(rows)[i].selected
  {
    var r := HandleSelectAll(rows);
    if AllSelected(rows) {
      assert !r[0].selected;
    }
  }

  predicate IsSelected(r: Row) {
    r.selected
  }

  predicate IsUnselected(r: Row) {
    !r.selected
  }

  /** `selectedCount`, the number shown on the bulk-delete button. */
  function SelectedCount(rows: seq<Row>): (n: nat)
    ensures n == Seqs.Count(rows, IsSelected)
    ensures n <= |rows|
    ensures n == 0 <==> forall i :: 0 <= i < |rows| ==> !rows[i].selected
  {
    var chosen := Seqs.Filter(rows, IsSelected);
    Seqs.FilterCount(rows, IsSelected);
    assert |chosen| > 0 ==> chosen[0] in rows;
    assert forall i :: 0 <= i < |rows| && rows[i].selected ==> rows[i] in chosen;
    |chosen|
  }

  /** Removes the selected rows, keeping the others in order. */
  function HandleBulkDelete(rows: seq<Row>): (r: seq<Row>)
    ensures forall x :: x in r <==> x in rows && !x.selected
    ensures Seqs.SubseqOf(r, rows)
    ensures SelectedCount(r) == 0
  {
    Seqs.FilterSubseq(rows, IsUnselected);
    Seqs.Filter(rows, IsUnselected)
  }

  /** Bulk deletion removes exactly `SelectedCount` rows. */
  lemma BulkDeleteCount(rows: seq<Row>)
    ensures |HandleBulkDelete(rows)| + SelectedCount(rows) == |rows|
  {
    Seqs.FilterSplitCount(rows, IsSelected, IsUnselected);
  }

  /** A fresh table has nothing selected, so the bulk-delete button is
      hidden and deleting would remove nothing. */
  lemma FreshTableUnselected(products: seq<Product>)
    ensures SelectedCount(InitialRows(products)) == 0
    ensures HandleBulkDelete(InitialRows(products)) == InitialRows(products)
    ensures forall i :: 0 <= i < |products| ==> InitialRows(products)[i].product == products[i]
  {
    Seqs.FilterAll(InitialRows(products), IsUnselected);
  }

  // -------------------------------------------------------------- editing

  /** The fields being edited; absent ones are left as they are on save. */
  datatype EditValues = EditValues(name: Option<string>, price: Option<real>)

  datatype EditState = EditState(editingId: Option<string>, values: EditValues)

  const NotEditing: EditState := EditState(None, EditValues(None, None))

  /** Starting to edit a row copies its name and price into the form. */
  function HandleEdit(row: Row): (r: EditState)
    ensures r.editingId == Some(row.product.id)
    ensures r.values == EditValues(Some(row.product.name), Some(row.product.price))
  {
    EditState(Some(row.product.id), EditValues(Some(row.product.name), Some(row.product.price)))
  }

  /** `{ ...p, ...editValues }`. */
  function Override(p: Product, values: EditValues): (q: Product)
    ensures q.name == values.name.GetOr(p.name)
    ensures q.price == values.price.GetOr(p.price)
    ensures q.(name := p.name, price := p.price) == p
  {
    p.(name := values.name.GetOr(p.name), price := values.price.GetOr(p.price))
  }

  /** Saving: without an editing id (or with the empty one) nothing happens;
      otherwise the edited fields overwrite the matching rows and the edit
      form closes. */
  function HandleSaveEdit(rows: seq<Row>, edit: EditState): (r: (seq<Row>, EditState))
    ensures edit.editingId.None? || edit.editingId == Some("") ==> r == (rows, edit)
    ensures edit.editingId.Some? && edit.editingId != Some("") ==>
              && r.1 == NotEditing
              && |r.0| == |rows|
              && forall i :: 0 <= i < |rows| ==>
                   r.0[i] == (if rows[i].product.id == edit.editingId.value
                              then Row(Override(rows[i].product, edit.values), rows[i].selected)
                              else rows[i])
  {
    match edit.editingId
    case None => (rows, edit)
    case Some(id) =>
      if id == "" then (rows, edit)
      else
        var saved := seq(|rows|, i requires 0 <= i < |rows| =>
                       if rows[i].product.id == id
                       then rows[i].(product := Override(rows[i].product, edit.values))
                       else rows[i]);
        (saved, NotEditing)
  }

  /** Editing a row and saving without changes leaves the table as it was. */
  lemma EditThenSaveUnchanged(rows: seq<Row>, k: nat)
    requires k < |rows|
    requires rows[k].product.id != ""
    requires forall i :: 0 <= i < |rows| && rows[i].product.id == rows[k].product.id ==> rows[i] == rows[k]
    ensures HandleSaveEdit(rows, HandleEdit(rows[k])).0 == rows
  {
    var r := HandleSaveEdit(rows, HandleEdit(rows[k])).0;
    forall i | 0 <= i < |rows| ensures r[i] == rows[i] {
      if rows[i].product.id == rows[k].product.id {
        assert rows[i] == rows[k];
      }
    }
  }
}
