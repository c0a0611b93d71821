/**
 * `DefaultRowProcessor` as a row processor: `support`, its priority for a row,
 * and `dealRow`, which resolves the text of every string cell of a row in place.
 *
 * A row is the array of its cell slots, from index 0 up to its last cell, so
 * that `getLastCellNum()` is the array's length; a slot holds no cell (null) or
 * a cell with its type.
 */
module RowProcessor {
  import opened Options
  import opened Markers
  import opened Resolver

  /** The cell types other than string; their contents are never read. */
  datatype CellKind = Numeric | Formula | Blank | Boolean | Error

  datatype Cell = StringCell(text: string) | OtherCell(kind: CellKind)

  /** What `dealRow` does: returns a code, or throws the failure of the cell at `index`. */
  datatype RowOutcome = Dealt(code: int) | Aborted(index: nat, failure: Failure)

  /** The priority with which this processor claims a row: none, for every row. */
  function Support(row: seq<Option<Cell>>): (priority: int)
    ensures priority == 0
  {
    0
  }

  predicate IsStringCell(slot: Option<Cell>) {
    slot.Some? && slot.value.StringCell?
  }

  /** Resolving the slot's text throws. */
  ghost predicate ResolutionFails(slot: Option<Cell>, ctx: Context, eval: Evaluator)
    requires SafeReplacements(ctx) && KeepsDollarBound(eval)
  {
    IsStringCell(slot) && Resolution(slot.value.text, ctx, eval).Failed?
  }

  /** A slot after `dealRow` has visited it without a failure. */
  ghost function DealtSlot(slot: Option<Cell>, ctx: Context, eval: Evaluator): (r: Option<Cell>)
    requires SafeReplacements(ctx) && KeepsDollarBound(eval)
    requires !ResolutionFails(slot, ctx, eval)
    ensures !IsStringCell(slot) ==> r == slot
    ensures IsStringCell(slot) ==> IsStringCell(r)
                                   && Resolution(slot.value.text, ctx, eval) == Resolved(r.value.text)
  {
    if IsStringCell(slot) then Some(StringCell(Resolution(slot.value.text, ctx, eval).content)) else slot
  }

  /** `after` is what `dealRow` leaves in a slot that held `before`, when no failure stops it. */
  ghost predicate DealtFrom(before: Option<Cell>, after: Option<Cell>, ctx: Context, eval: Evaluator)
    requires SafeReplacements(ctx) && KeepsDollarBound(eval)
  {
    !ResolutionFails(before, ctx, eval) && after == DealtSlot(before, ctx, eval)
  }

  /** Every slot of `before` below `n` is dealt into the same slot of `after`. */
  ghost predicate DealtPrefix(before: seq<Option<Cell>>, after: seq<Option<Cell>>, n: nat, ctx: Context, eval: Evaluator)
    requires SafeReplacements(ctx) && KeepsDollarBound(eval)
    requires n <= |before| && n <= |after|
  {
    forall j :: 0 <= j < n ==> DealtFrom(before[j], after[j], ctx, eval)
  }

  /** Dealing slot `i` extends a dealt prefix by one, whether the slot is rewritten or kept. */
  lemma DealtPrefixExtends(before: seq<Option<Cell>>, visited: seq<Option<Cell>>, slot: Option<Cell>, i: nat,
                           ctx: Context, eval: Evaluator)
    requires SafeReplacements(ctx) && KeepsDollarBound(eval)
    requires i < |before| == |visited| && DealtPrefix(before, visited, i, ctx, eval)
    requires IsStringCell(before[i]) ==> IsStringCell(slot)
                                         && Resolution(before[i].value.text, ctx, eval) == Resolved(slot.value.text)
    requires !IsStringCell(before[i]) ==> slot == before[i]
    ensures DealtPrefix(before, visited[i := slot], i + 1, ctx, eval)
  {
    var after := visited[i := slot];
    forall j | 0 <= j < i + 1
      ensures DealtFrom(before[j], after[j], ctx, eval)
    {
      if j < i {
        assert after[j] == visited[j];
      }
    }
  }

  /** `dealRow`: every string cell, left to right, gets the resolution of its text; the
      first resolution that throws stops the loop with the cells before it rewritten
      and the rest as they were. */
  method DealRow(row: array<Option<Cell>>, ctx: Context, eval: Evaluator) returns (r: RowOutcome)
    requires SafeReplacements(ctx) && KeepsDollarBound(eval)
    modifies row
    ensures r.Dealt? ==> r.code == 1 && DealtPrefix(old(row[..]), row[..], row.Length, ctx, eval)
    ensures r.Aborted? ==> && r.index < row.Length
                           && IsStringCell(old(row[r.index]))
                           && Resolution(old(row[r.index]).value.text, ctx, eval) == Failed(r.failure)
                           && DealtPrefix(old(row[..]), row[..], r.index, ctx, eval)
                           && row[r.index..] == old(row[r.index..])
  {
    ghost var before := row[..];
    var i := 0;
    while i < row.Length
      invariant 0 <= i <= row.Length && before == old(row[..])
      invariant DealtPrefix(before, row[..], i, ctx, eval)
      invariant row[i..] == before[i..]
    {
      var cell := row[i];
      assert cell == before[i];
      ghost var visited := row[..];
      if cell.Some? && cell.value.StringCell? {
        var cellContent := cell.value.text;
        var resolvedContent := Resolve(cellContent, ctx, eval);
        if resolvedContent.Failed? {
          return Aborted(i, resolvedContent.failure);
        }
        row[i] := Some(StringCell(resolvedContent.content));
      }
      DealtPrefixExtends(before, visited, row[i], i, ctx, eval);
      assert row[..] == visited[i := row[i]];
      assert row[i + 1..] == visited[i + 1..];
      i := i + 1;
    }
    return Dealt(1);
  }

  /** A row whose string cells hold no marker comes out of `dealRow` unchanged. */
  lemma {:induction false} UnmarkedSlotUnchanged(slot: Option<Cell>, ctx: Context, eval: Evaluator)
    requires SafeReplacements(ctx) && KeepsDollarBound(eval)
    requires IsStringCell(slot) ==> NoPlainMarker(slot.value.text) && NoDottedMarker(slot.value.text)
    ensures DealtFrom(slot, slot, ctx, eval)
  {
  }
}
