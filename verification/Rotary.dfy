/** The two row orders of rotary attention weights: llama conversion interleaves the halves of
    each head, GLM-OCR conversion separates them again. */
module Rotary {
  import opened Common
  import opened Tensors

  /** Which row of a head lands at its row `q`: even rows first, then odd ones, then the others. */
  function NeoXSource(half: nat, q: nat): nat {
    if q < half then 2 * q
    else if q < 2 * half then 2 * (q - half) + 1
    else q
  }

  /** How many rows the loops write for one head: the rotary part may be longer than the head. */
  function Span(headDim: nat, half: nat): nat { if 2 * half <= headDim then headDim else 2 * half }

  lemma SourceInSpan(headDim: nat, half: nat, q: nat)
    requires q < Span(headDim, half)
    ensures NeoXSource(half, q) < Span(headDim, half)
  {
  }

  /** The rows written for the first `heads` heads. */
  function Rows(heads: nat, headDim: nat, half: nat): nat {
    if heads == 0 then 0 else (heads - 1) * headDim + Span(headDim, half)
  }

  /** Heads are written in order, so a row keeps what the last head that reaches it wrote. */
  function Owner(heads: nat, headDim: nat, row: nat): nat
    requires heads > 0 && headDim > 0
  {
    if row / headDim < heads then row / headDim else heads - 1
  }

  /** The row of the input that ends up at a row of the output. */
  function RowSource(heads: nat, headDim: nat, half: nat, row: nat): nat
    requires heads > 0 && headDim > 0
  {
    var h := Owner(heads, headDim, row);
    OwnerBelow(heads, headDim, row);
    h * headDim + NeoXSource(half, row - h * headDim)
  }

  lemma OwnerBelow(heads: nat, headDim: nat, row: nat)
    requires heads > 0 && headDim > 0
    ensures Owner(heads, headDim, row) * headDim <= row
  {
    DivMod(row, headDim);
    MulMono(Owner(heads, headDim, row), row / headDim, headDim);
  }

  /** Element `f` of row `to` is element `f` of row `from`. */
  ghost predicate CellMoved<T>(data: seq<T>, r: seq<T>, columns: nat, to: nat, from: nat, f: nat) {
    to * columns + f < |r| && from * columns + f < |data| && r[to * columns + f] == data[from * columns + f]
  }

  ghost predicate RowMoved<T>(data: seq<T>, r: seq<T>, headDim: nat, columns: nat, half: nat, h: nat, q: nat, f: nat) {
    CellMoved(data, r, columns, h * headDim + q, h * headDim + NeoXSource(half, q), f)
  }

  /** Column `f` of every row of head `h`. */
  ghost predicate HeadMoved<T>(data: seq<T>, r: seq<T>, headDim: nat, columns: nat, half: nat, h: nat, f: nat) {
    forall q: nat :: q < Span(headDim, half) ==> RowMoved(data, r, headDim, columns, half, h, q, f)
  }

  ghost predicate IsNeoX<T>(data: seq<T>, r: seq<T>, heads: nat, headDim: nat, columns: nat, half: nat, zero: T)
    requires headDim > 0
  {
    && |r| == |data|
    && (forall row: nat, f: nat :: row < Rows(heads, headDim, half) && f < columns ==>
      CellMoved(data, r, columns, row, RowSource(heads, headDim, half, row), f))
    && (forall p :: Rows(heads, headDim, half) * columns <= p < |r| ==> r[p] == zero)
  }

  // ---- One column of one head

  /** Cells of one column differ when their rows do. */
  lemma CellsDiffer(columns: nat, row: nat, f: nat, row': nat, f': nat)
    requires f < columns && f' < columns && row * columns + f == row' * columns + f'
    ensures row == row' && f == f'
  {
    DigitsUnique(row, f, row', f', columns);
  }

  lemma CellInRange(columns: nat, row: nat, rows: nat, f: nat)
    requires row < rows && f < columns
    ensures row * columns + f < rows * columns
  {
    DigitsBound(row, f, rows, columns);
  }

  /** `after` differs from `before` at most in column `f` of the `span` rows from `first`. */
  ghost predicate OnlyColumn<T>(before: seq<T>, after: seq<T>, columns: nat, first: nat, span: nat, f: nat) {
    && |before| == |after|
    && forall row: nat, g: nat :: g < columns && !(g == f && first <= row < first + span) ==>
      Same(before, after, columns, row, g)
  }

  /** The cell is the same, if there is one. */
  ghost predicate Same<T>(before: seq<T>, after: seq<T>, columns: nat, row: nat, g: nat) {
    var p := row * columns + g;
    p < |before| ==> p < |after| && after[p] == before[p]
  }

  /** Writing one cell puts it in place and disturbs no other. */
  lemma CellWritten<T>(data: seq<T>, r: seq<T>, r': seq<T>, columns: nat, to: nat, from: nat, f: nat)
    requires f < columns && to * columns + f < |r| && from * columns + f < |data|
    requires r' == r[to * columns + f := data[from * columns + f]]
    ensures CellMoved(data, r', columns, to, from, f)
    ensures OnlyColumn(r, r', columns, to, 1, f)
  {
    forall row: nat, g: nat | g < columns && !(g == f && to <= row < to + 1)
      ensures Same(r, r', columns, row, g)
    {
      if row * columns + g == to * columns + f {
        CellsDiffer(columns, row, g, to, f);
      }
    }
  }

  method WriteRow<T>(data: seq<T>, result: array<T>, ghost before: seq<T>, headDim: nat, columns: nat, half: nat,
                     h: nat, f: nat, q: nat, source: nat)
    requires result.Length == |data| && (h * headDim + Span(headDim, half)) * columns <= |data| && f < columns
    requires q < Span(headDim, half) && source == NeoXSource(half, q)
    requires OnlyColumn(before, result[..], columns, h * headDim, Span(headDim, half), f)
    modifies result
    ensures OnlyColumn(before, result[..], columns, h * headDim, Span(headDim, half), f)
    ensures RowMoved(data, result[..], headDim, columns, half, h, q, f)
    ensures forall k: nat :: k != q && RowMoved(data, old(result[..]), headDim, columns, half, h, k, f) ==>
      RowMoved(data, result[..], headDim, columns, half, h, k, f)
  {
    SourceInSpan(headDim, half, q);
    var to, from := h * headDim + q, h * headDim + source;
    CellInRange(columns, to, h * headDim + Span(headDim, half), f);
    CellInRange(columns, from, h * headDim + Span(headDim, half), f);
    ghost var r := result[..];
    result[to * columns + f] := data[from * columns + f];
    assert result[..] == r[to * columns + f := data[from * columns + f]];
    CellWritten(data, r, result[..], columns, to, from, f);
    RowsKept(data, before, r, result[..], headDim, columns, half, h, f, q);
  }

  lemma RowsKept<T>(data: seq<T>, before: seq<T>, r: seq<T>, r': seq<T>, headDim: nat, columns: nat, half: nat,
                    h: nat, f: nat, q: nat)
    requires f < columns && q < Span(headDim, half)
    requires OnlyColumn(before, r, columns, h * headDim, Span(headDim, half), f)
    requires OnlyColumn(r, r', columns, h * headDim + q, 1, f)
    ensures OnlyColumn(before, r', columns, h * headDim, Span(headDim, half), f)
    ensures forall k: nat :: k != q && RowMoved(data, r, headDim, columns, half, h, k, f) ==>
      RowMoved(data, r', headDim, columns, half, h, k, f)
  {
    forall k: nat | k != q && RowMoved(data, r, headDim, columns, half, h, k, f)
      ensures RowMoved(data, r', headDim, columns, half, h, k, f)
    {
      assert Same(r, r', columns, h * headDim + k, f);
    }
    forall row: nat, g: nat | g < columns && !(g == f && h * headDim <= row < h * headDim + Span(headDim, half))
      ensures Same(before, r', columns, row, g)
    {
      assert Same(before, r, columns, row, g) && Same(r, r', columns, row, g);
    }
  }

  /** The rotary rows: even ones to the first half, odd ones to the second. */
  method SplitRotary<T>(data: seq<T>, result: array<T>, ghost before: seq<T>, headDim: nat, columns: nat,
                        half: nat, h: nat, f: nat)
    requires result.Length == |data| && (h * headDim + Span(headDim, half)) * columns <= |data| && f < columns
    requires OnlyColumn(before, result[..], columns, h * headDim, Span(headDim, half), f)
    modifies result
    ensures forall q: nat :: q < 2 * half ==> RowMoved(data, result[..], headDim, columns, half, h, q, f)
    ensures OnlyColumn(before, result[..], columns, h * headDim, Span(headDim, half), f)
  {
    var i := 0;
    while i < half
      invariant i <= half
      invariant forall q: nat :: q < i || half <= q < half + i ==> RowMoved(data, result[..], headDim, columns, half, h, q, f)
      invariant OnlyColumn(before, result[..], columns, h * headDim, Span(headDim, half), f)
    {
      WriteRow(data, result, before, headDim, columns, half, h, f, i, 2 * i);
      WriteRow(data, result, before, headDim, columns, half, h, f, half + i, 2 * i + 1);
      i := i + 1;
    }
  }

  /** The rows past the rotary part stay where they are. */
  method CopyRest<T>(data: seq<T>, result: array<T>, ghost before: seq<T>, headDim: nat, columns: nat,
                     half: nat, h: nat, f: nat)
    requires result.Length == |data| && (h * headDim + Span(headDim, half)) * columns <= |data| && f < columns
    requires OnlyColumn(before, result[..], columns, h * headDim, Span(headDim, half), f)
    requires forall q: nat :: q < 2 * half ==> RowMoved(data, result[..], headDim, columns, half, h, q, f)
    modifies result
    ensures HeadMoved(data, result[..], headDim, columns, half, h, f)
    ensures OnlyColumn(before, result[..], columns, h * headDim, Span(headDim, half), f)
  {
    var i := 2 * half;
    while i < headDim
      invariant 2 * half <= i <= Span(headDim, half)
      invariant forall q: nat :: q < i ==> RowMoved(data, result[..], headDim, columns, half, h, q, f)
      invariant OnlyColumn(before, result[..], columns, h * headDim, Span(headDim, half), f)
    {
      WriteRow(data, result, before, headDim, columns, half, h, f, i, i);
      i := i + 1;
    }
  }

  // ---- All columns of all heads

  /** Column `f` after `k` heads: each row as its owner among them left it, the others untouched. */
  ghost predicate ColumnAt<T>(data: seq<T>, r: seq<T>, headDim: nat, columns: nat, half: nat, k: nat, f: nat, zero: T)
    requires headDim > 0
  {
    && (forall row: nat :: row < Rows(k, headDim, half) ==>
      CellMoved(data, r, columns, row, RowSource(k, headDim, half, row), f))
    && (forall row: nat :: row >= Rows(k, headDim, half) ==> IsZero(r, columns, row, f, zero))
  }

  ghost predicate IsZero<T>(r: seq<T>, columns: nat, row: nat, f: nat, zero: T) {
    row * columns + f < |r| ==> r[row * columns + f] == zero
  }

  lemma RowsNext(k: nat, headDim: nat, half: nat)
    ensures Rows(k, headDim, half) <= k * headDim + Span(headDim, half) == Rows(k + 1, headDim, half)
    ensures k > 0 ==> k * headDim <= Rows(k, headDim, half)
  {
    if k > 0 {
      assert k * headDim == (k - 1) * headDim + headDim;
    }
  }

  lemma OwnerBefore(k: nat, headDim: nat, row: nat)
    requires headDim > 0 && row < k * headDim
    ensures k > 0 && Owner(k + 1, headDim, row) == Owner(k, headDim, row)
  {
    QuotientBound(row, k, headDim);
  }

  lemma QuotientFrom(p: nat, n: nat, d: nat)
    requires d > 0 && p >= n * d
    ensures p / d >= n
  {
    DivMod(p, d);
    if p / d < n {
      MulMono(p / d + 1, n, d);
    }
  }

  lemma OwnerFrom(k: nat, headDim: nat, row: nat)
    requires headDim > 0 && row >= k * headDim
    ensures Owner(k + 1, headDim, row) == k
  {
    QuotientFrom(row, k, headDim);
  }

  /** One more head takes over the rows from its own first row on. */
  lemma ColumnNext<T>(data: seq<T>, before: seq<T>, after: seq<T>, headDim: nat, columns: nat, half: nat, k: nat, f: nat, zero: T)
    requires headDim > 0 && f < columns && ColumnAt(data, before, headDim, columns, half, k, f, zero)
    requires OnlyColumn(before, after, columns, k * headDim, Span(headDim, half), f)
    requires HeadMoved(data, after, headDim, columns, half, k, f)
    ensures ColumnAt(data, after, headDim, columns, half, k + 1, f, zero)
  {
    var next := k + 1;
    RowsNext(k, headDim, half);
    forall row: nat | row < Rows(next, headDim, half)
      ensures CellMoved(data, after, columns, row, RowSource(next, headDim, half, row), f)
    {
      if row < k * headDim {
        OwnerBefore(k, headDim, row);
        assert CellMoved(data, before, columns, row, RowSource(k, headDim, half, row), f);
        assert Same(before, after, columns, row, f);
      } else {
        OwnerFrom(k, headDim, row);
        assert RowMoved(data, after, headDim, columns, half, k, row - k * headDim, f);
      }
    }
    forall row: nat | row >= Rows(next, headDim, half) ensures IsZero(after, columns, row, f, zero) {
      assert IsZero(before, columns, row, f, zero) && Same(before, after, columns, row, f);
    }
  }

  lemma ColumnKept<T>(data: seq<T>, before: seq<T>, after: seq<T>, headDim: nat, columns: nat, half: nat, k: nat,
                      first: nat, f: nat, g: nat, zero: T)
    requires headDim > 0 && g < columns && g != f && ColumnAt(data, before, headDim, columns, half, k, g, zero)
    requires OnlyColumn(before, after, columns, first, Span(headDim, half), f)
    ensures ColumnAt(data, after, headDim, columns, half, k, g, zero)
  {
    forall row: nat | row < Rows(k, headDim, half)
      ensures CellMoved(data, after, columns, row, RowSource(k, headDim, half, row), g)
    {
      assert CellMoved(data, before, columns, row, RowSource(k, headDim, half, row), g);
      assert Same(before, after, columns, row, g);
    }
    forall row: nat | row >= Rows(k, headDim, half)
      ensures IsZero(after, columns, row, g, zero)
    {
      assert IsZero(before, columns, row, g, zero) && Same(before, after, columns, row, g);
    }
  }

  function DoneHeads(h: nat, f: nat, g: nat): nat { if g < f then h + 1 else h }

  ghost predicate AllZero<T>(r: seq<T>, zero: T) { forall p :: 0 <= p < |r| ==> r[p] == zero }

  /** In head `h` the columns before `f` are done. */
  ghost predicate DoneUpTo<T>(data: seq<T>, r: seq<T>, headDim: nat, columns: nat, half: nat, h: nat, f: nat, zero: T)
    requires headDim > 0
  {
    && |r| == |data|
    && (forall g: nat :: g < columns ==> ColumnAt(data, r, headDim, columns, half, DoneHeads(h, f, g), g, zero))
    && (columns == 0 ==> AllZero(r, zero))
  }

  /** One column of one head: the two inner loops. */
  method PermuteColumn<T>(data: seq<T>, result: array<T>, headDim: nat, columns: nat, half: nat, h: nat, f: nat, ghost zero: T)
    requires headDim > 0 && result.Length == |data| && (h * headDim + Span(headDim, half)) * columns <= |data| && f < columns
    requires DoneUpTo(data, result[..], headDim, columns, half, h, f, zero)
    modifies result
    ensures DoneUpTo(data, result[..], headDim, columns, half, h, f + 1, zero)
  {
    ghost var before := result[..];
    SplitRotary(data, result, before, headDim, columns, half, h, f);
    CopyRest(data, result, before, headDim, columns, half, h, f);
    ColumnDone(data, before, result[..], headDim, columns, half, h, f, zero);
  }

  lemma ColumnStep<T>(data: seq<T>, before: seq<T>, after: seq<T>, headDim: nat, columns: nat, half: nat, h: nat,
                      f: nat, g: nat, k: nat, zero: T)
    requires headDim > 0 && f < columns && g < columns && k == DoneHeads(h, f, g)
    requires ColumnAt(data, before, headDim, columns, half, k, g, zero)
    requires OnlyColumn(before, after, columns, h * headDim, Span(headDim, half), f)
    requires HeadMoved(data, after, headDim, columns, half, h, f)
    ensures ColumnAt(data, after, headDim, columns, half, DoneHeads(h, f + 1, g), g, zero)
  {
    if g == f {
      ColumnNext(data, before, after, headDim, columns, half, h, f, zero);
    } else {
      ColumnKept(data, before, after, headDim, columns, half, k, h * headDim, f, g, zero);
    }
  }

  lemma ColumnDone<T>(data: seq<T>, before: seq<T>, after: seq<T>, headDim: nat, columns: nat, half: nat, h: nat, f: nat, zero: T)
    requires headDim > 0 && f < columns && DoneUpTo(data, before, headDim, columns, half, h, f, zero)
    requires OnlyColumn(before, after, columns, h * headDim, Span(headDim, half), f)
    requires HeadMoved(data, after, headDim, columns, half, h, f)
    ensures DoneUpTo(data, after, headDim, columns, half, h, f + 1, zero)
  {
    var next := f + 1;
    forall g: nat | g < columns
      ensures ColumnAt(data, after, headDim, columns, half, DoneHeads(h, next, g), g, zero)
    {
      ColumnStep(data, before, after, headDim, columns, half, h, f, g, DoneHeads(h, f, g), zero);
    }
  }

  /** A head with all its columns done is the next head with none. */
  lemma HeadDone<T>(data: seq<T>, r: seq<T>, headDim: nat, columns: nat, half: nat, h: nat, zero: T)
    requires headDim > 0 && DoneUpTo(data, r, headDim, columns, half, h, columns, zero)
    ensures DoneUpTo(data, r, headDim, columns, half, h + 1, 0, zero)
  {
    var next := h + 1;
    forall g: nat | g < columns ensures ColumnAt(data, r, headDim, columns, half, DoneHeads(next, 0, g), g, zero) {
      assert DoneHeads(h, columns, g) == next == DoneHeads(next, 0, g);
    }
  }

  lemma NothingDone<T>(data: seq<T>, r: seq<T>, headDim: nat, columns: nat, half: nat, zero: T)
    requires headDim > 0 && |r| == |data| && AllZero(r, zero)
    ensures DoneUpTo(data, r, headDim, columns, half, 0, 0, zero)
  {
    forall g: nat | g < columns ensures ColumnAt(data, r, headDim, columns, half, DoneHeads(0, 0, g), g, zero) {
      forall row: nat | row >= Rows(0, headDim, half) ensures IsZero(r, columns, row, g, zero) {
      }
    }
  }

  /** One head: the loop over its columns. */
  method PermuteHead<T>(data: seq<T>, result: array<T>, headDim: nat, columns: nat, half: nat, h: nat, ghost zero: T)
    requires headDim > 0 && result.Length == |data| && (h * headDim + Span(headDim, half)) * columns <= |data|
    requires DoneUpTo(data, result[..], headDim, columns, half, h, 0, zero)
    modifies result
    ensures DoneUpTo(data, result[..], headDim, columns, half, h + 1, 0, zero)
  {
    var f := 0;
    while f < columns
      invariant f <= columns
      invariant DoneUpTo(data, result[..], headDim, columns, half, h, f, zero)
    {
      PermuteColumn(data, result, headDim, columns, half, h, f, zero);
      f := f + 1;
    }
    HeadDone(data, result[..], headDim, columns, half, h, zero);
  }

  lemma EarlierRowsFit(heads: nat, headDim: nat, columns: nat, half: nat, h: nat, size: nat)
    requires h < heads && Rows(heads, headDim, half) * columns <= size
    ensures (h * headDim + Span(headDim, half)) * columns <= size
  {
    MulMono(h, heads - 1, headDim);
    MulMono(h * headDim + Span(headDim, half), Rows(heads, headDim, half), columns);
  }

  /** The loop over the heads. */
  method PermuteHeads<T(0)>(data: seq<T>, heads: nat, headDim: nat, columns: nat, half: nat, zero: T) returns (result: array<T>)
    requires headDim > 0 && Rows(heads, headDim, half) * columns <= |data|
    ensures IsNeoX(data, result[..], heads, headDim, columns, half, zero)
  {
    result := new T[|data|](_ => zero);
    NothingDone(data, result[..], headDim, columns, half, zero);
    var h := 0;
    while h < heads
      invariant h <= heads
      invariant DoneUpTo(data, result[..], headDim, columns, half, h, 0, zero)
    {
      EarlierRowsFit(heads, headDim, columns, half, h, |data|);
      PermuteHead(data, result, headDim, columns, half, h, zero);
      h := h + 1;
    }
    AllDone(data, result[..], heads, headDim, columns, half, zero);
  }

  lemma AllDone<T>(data: seq<T>, r: seq<T>, heads: nat, headDim: nat, columns: nat, half: nat, zero: T)
    requires headDim > 0 && DoneUpTo(data, r, headDim, columns, half, heads, 0, zero)
    ensures IsNeoX(data, r, heads, headDim, columns, half, zero)
  {
    var rows := Rows(heads, headDim, half);
    forall row: nat, f: nat | row < rows && f < columns
      ensures CellMoved(data, r, columns, row, RowSource(heads, headDim, half, row), f)
    {
      assert DoneHeads(heads, 0, f) == heads;
    }
    forall p | rows * columns <= p < |r| ensures r[p] == zero {
      if columns > 0 {
        var row, f := p / columns, p % columns;
        DivMod(p, columns);
        if row < rows { CellInRange(columns, row, rows, f); }
        assert DoneHeads(heads, 0, f) == heads;
        assert IsZero(r, columns, row, f, zero);
      }
    }
  }

  /** `rotary` is the head dimension times the partial rotary factor, truncated. Rows that no head
      reaches keep the zero of the fresh buffer. What is asked of the data is no more than the loops
      reach. */
  method NormalToNeoX<T(0)>(data: seq<T>, shape: seq<nat>, headDim: nat, rotary: nat, zero: T) returns (r: seq<T>)
    requires |shape| >= 1 && headDim > 0
    requires Rows(shape[0] / headDim, headDim, rotary / 2) * (if |shape| == 1 then 1 else shape[1]) <= |data|
    ensures IsNeoX(data, r, shape[0] / headDim, headDim, if |shape| == 1 then 1 else shape[1], rotary / 2, zero)
  {
    var rotaryDim := rotary;
    if rotaryDim % 2 != 0 {
      rotaryDim := (rotaryDim / 2) * 2;
    }
    var inFeatures := if |shape| == 1 then 1 else shape[1];
    var heads := shape[0] / headDim;
    var half := rotaryDim / 2;
    assert half == rotary / 2;
    var result := PermuteHeads(data, heads, headDim, inFeatures, half, zero);
    r := result[..];
  }

  /** When the rotary part fits the head, every head keeps to itself. */
  lemma HeadsApart<T>(data: seq<T>, r: seq<T>, heads: nat, headDim: nat, columns: nat, half: nat, zero: T,
                      h: nat, q: nat, f: nat)
    requires headDim > 0 && 2 * half <= headDim && IsNeoX(data, r, heads, headDim, columns, half, zero)
    requires Inside(heads, headDim, columns, h, q, f)
    ensures RowMoved(data, r, headDim, columns, half, h, q, f)
  {
    var row := h * headDim + q;
    MulMono(h, heads - 1, headDim);
    DivMod(row, headDim);
    DigitsUnique(row / headDim, row % headDim, h, q, headDim);
    assert CellMoved(data, r, columns, row, RowSource(heads, headDim, half, row), f);
  }

  // ---- The rows are only rearranged

  lemma SourceFacts(headDim: nat, half: nat, q: nat, q': nat)
    requires 2 * half <= headDim && q < headDim && q' < headDim
    ensures NeoXSource(half, q) < headDim
    ensures q != q' ==> NeoXSource(half, q) != NeoXSource(half, q')
    ensures q >= 2 * half ==> NeoXSource(half, q) == q
  {
  }

  function NeoXSources(heads: nat, headDim: nat, columns: nat, half: nat): (src: seq<nat>)
    requires 2 * half <= headDim
    ensures |src| == heads * headDim * columns
  {
    var dims := [heads, headDim, columns];
    Ravel3(heads, headDim, columns, 0, 0, 0);
    seq(heads * headDim * columns, p requires 0 <= p < heads * headDim * columns =>
      var idx := Unravel(dims, p);
      Idx(headDim, columns, idx[0], NeoXSource(half, idx[1]), idx[2]))
  }

  lemma NeoXSourceAt(heads: nat, headDim: nat, columns: nat, half: nat, h: nat, q: nat, f: nat)
    requires 2 * half <= headDim && Inside(heads, headDim, columns, h, q, f)
    ensures Inside(heads, headDim, columns, h, NeoXSource(half, q), f)
    ensures Idx(headDim, columns, h, q, f) < heads * headDim * columns
    ensures NeoXSources(heads, headDim, columns, half)[Idx(headDim, columns, h, q, f)]
         == Idx(headDim, columns, h, NeoXSource(half, q), f)
  {
    IdxIsRavel(heads, headDim, columns, h, q, f);
    SourceFacts(headDim, half, q, q);
  }

  lemma NeoXSourcesDistinct(heads: nat, headDim: nat, columns: nat, half: nat)
    requires 2 * half <= headDim
    ensures Distinct(NeoXSources(heads, headDim, columns, half), heads * headDim * columns)
  {
    var src := NeoXSources(heads, headDim, columns, half);
    IdxFacts(heads, headDim, columns);
    forall p | 0 <= p < |src| ensures src[p] < |src| {
      var h, q, f := PlaceOf(heads, headDim, columns, p);
      NeoXSourceAt(heads, headDim, columns, half, h, q, f);
    }
    forall p, p' | 0 <= p < p' < |src| ensures src[p] != src[p'] {
      var h, q, f := PlaceOf(heads, headDim, columns, p);
      var h', q', f' := PlaceOf(heads, headDim, columns, p');
      NeoXSourceAt(heads, headDim, columns, half, h, q, f);
      NeoXSourceAt(heads, headDim, columns, half, h', q', f');
      SourceFacts(headDim, half, q, q');
    }
  }

  /** With whole heads, any even rotary part leaves a rearrangement of the data in which the
      non-rotary rows stay where they were. */
  lemma NeoXRearranges<T>(data: seq<T>, r: seq<T>, heads: nat, headDim: nat, columns: nat, half: nat, zero: T)
    requires headDim > 0 && 2 * half <= headDim && |data| == heads * headDim * columns
    requires IsNeoX(data, r, heads, headDim, columns, half, zero)
    ensures multiset(r) == multiset(data)
    ensures forall h: nat, q: nat, f: nat :: Inside(heads, headDim, columns, h, q, f) && q >= 2 * half ==>
      var p := Idx(headDim, columns, h, q, f); p < |data| && r[p] == data[p]
  {
    var src := NeoXSources(heads, headDim, columns, half);
    NeoXSourcesDistinct(heads, headDim, columns, half);
    DistinctGather(data, src);
    forall p | 0 <= p < |r| ensures r[p] == data[src[p]] {
      var h, q, f := PlaceOf(heads, headDim, columns, p);
      NeoXSourceAt(heads, headDim, columns, half, h, q, f);
      HeadsApart(data, r, heads, headDim, columns, half, zero, h, q, f);
    }
    assert r == Gathered(data, src);
    forall h: nat, q: nat, f: nat | Inside(heads, headDim, columns, h, q, f) && q >= 2 * half
      ensures var p := Idx(headDim, columns, h, q, f); p < |data| && r[p] == data[p]
    {
      HeadsApart(data, r, heads, headDim, columns, half, zero, h, q, f);
    }
  }

  // ---- The llama repacking, and back

  predicate HasSuffix(s: string, suffix: string) {
    |suffix| <= |s| && s[|s| - |suffix|..] == suffix
  }

  ghost predicate EndsIn(s: string, suffix: string) { exists pre: string :: s == pre + suffix }

  lemma SuffixIff(s: string, suffix: string)
    ensures HasSuffix(s, suffix) <==> EndsIn(s, suffix)
  {
    if HasSuffix(s, suffix) {
      assert s == s[..|s| - |suffix|] + suffix;
    }
  }

  ghost predicate IsQuery(name: string) { EndsIn(name, "attn_q.weight") || EndsIn(name, "attn_q_proj.weight") }

  ghost predicate IsKey(name: string) { EndsIn(name, "attn_k.weight") || EndsIn(name, "attn_k_proj.weight") }

  lemma LetterAt(s: string, suffix: string, k: nat)
    requires 0 < k <= |suffix|
    ensures HasSuffix(s, suffix) ==> s[|s| - k] == suffix[|suffix| - k]
  {
    if HasSuffix(s, suffix) {
      assert s[|s| - |suffix|..][|suffix| - k] == s[|s| - k];
    }
  }

  predicate SaysQuery(name: string) { HasSuffix(name, "attn_q.weight") || HasSuffix(name, "attn_q_proj.weight") }

  predicate SaysKey(name: string) { HasSuffix(name, "attn_k.weight") || HasSuffix(name, "attn_k_proj.weight") }

  /** The letter after "attn_", counted from the end. */
  predicate HasLetter(name: string, c: char) {
    |name| >= 13 && (name[|name| - 8] == c || (name[|name| - 8] == 'j' && name[|name| - 13] == c))
  }

  lemma QueryLetter(name: string)
    requires SaysQuery(name)
    ensures HasLetter(name, 'q')
  {
    LetterAt(name, "attn_q.weight", 8);
    LetterAt(name, "attn_q_proj.weight", 8);
    LetterAt(name, "attn_q_proj.weight", 13);
  }

  lemma KeyLetter(name: string)
    requires SaysKey(name)
    ensures HasLetter(name, 'k')
  {
    LetterAt(name, "attn_k.weight", 8);
    LetterAt(name, "attn_k_proj.weight", 8);
    LetterAt(name, "attn_k_proj.weight", 13);
  }

  lemma SaysIff(name: string)
    ensures SaysQuery(name) <==> IsQuery(name)
    ensures SaysKey(name) <==> IsKey(name)
  {
    SuffixIff(name, "attn_q.weight");
    SuffixIff(name, "attn_q_proj.weight");
    SuffixIff(name, "attn_k.weight");
    SuffixIff(name, "attn_k_proj.weight");
  }

  /** No name is both: the letter after "attn_" tells. */
  lemma NotBoth(name: string)
    ensures !(IsQuery(name) && IsKey(name))
  {
    SaysIff(name);
    if SaysQuery(name) { QueryLetter(name); }
    if SaysKey(name) { KeyLetter(name); }
  }

  const AXES_0213: seq<nat> := [0, 2, 1, 3]

  lemma AxesFacts()
    ensures IsAxes(AXES_0213)
  {
    var axes := AXES_0213;
    assert axes[0] == 0 && axes[1] == 2 && axes[2] == 1 && axes[3] == 3;
    assert 0 in axes && 1 in axes && 2 in axes && 3 in axes;
  }

  lemma Turned(a: nat, b: nat, c: nat, d: nat)
    ensures IsAxes(AXES_0213) && Permute([a, b, c, d], AXES_0213) == [a, c, b, d]
    ensures Size([a, b, c, d]) == Size([a, c, b, d]) == a * b * c * d
  {
    AxesFacts();
    Ravel4(a, b, c, d, 0, 0, 0, 0);
    Ravel4(a, c, b, d, 0, 0, 0, 0);
    assert a * b * c == a * c * b;
  }

  ghost predicate Repacks<T>(x: seq<T>, y: seq<T>, heads: nat, half: nat, columns: nat) {
    && IsAxes(AXES_0213)
    && |x| == Size([heads, 2, half, columns])
    && y == Transposed(x, [heads, 2, half, columns], AXES_0213)
  }

  lemma RepackRearranges<T>(x: seq<T>, y: seq<T>, heads: nat, half: nat, columns: nat)
    requires Repacks(x, y, heads, half, columns)
    ensures multiset(y) == multiset(x)
  {
    TransposedRearranges(x, [heads, 2, half, columns], AXES_0213);
  }

  /** Appends the rows of a matrix one after the other. */
  method AppendRows<T>(data: seq<T>, rows: nat, columns: nat) returns (f32s: seq<T>)
    requires |data| == rows * columns
    ensures f32s == data
  {
    f32s := [];
    var i := 0;
    while i < rows
      invariant i <= rows && i * columns <= |data|
      invariant f32s == data[..i * columns]
    {
      assert (i + 1) * columns == i * columns + columns;
      assert (i + 1) * columns <= rows * columns;
      f32s := f32s + data[i * columns..(i + 1) * columns];
      i := i + 1;
    }
  }

  /** The outcome for a head count: the transpose, or an error if rank or size does not fit. */
  ghost predicate RepackedFor<T>(r: Result<seq<T>>, data: seq<T>, shape: seq<nat>, heads: nat)
    requires heads > 0
  {
    && (r.Ok? <==> |shape| == 2 && heads * 2 * (shape[0] / heads / 2) * shape[1] == |data|)
    && (r.Ok? ==> Repacks(data, r.value, heads, shape[0] / heads / 2, shape[1]))
  }

  /** Query weights are repacked for the query heads, key weights for the K/V heads, or for the query
      heads if no K/V count is given; any other name is an error. */
  method Repack<T>(name: string, data: seq<T>, shape: seq<nat>, attentionHeads: nat, keyValueHeads: nat)
    returns (r: Result<seq<T>>)
    requires |shape| >= 1 && |data| == Size(shape)
    requires IsQuery(name) ==> attentionHeads > 0
    requires IsKey(name) ==> keyValueHeads > 0 || attentionHeads > 0
    ensures IsQuery(name) ==> RepackedFor(r, data, shape, attentionHeads)
    ensures IsKey(name) && keyValueHeads != 0 ==> RepackedFor(r, data, shape, keyValueHeads)
    ensures IsKey(name) && keyValueHeads == 0 ==> RepackedFor(r, data, shape, attentionHeads)
    ensures !IsQuery(name) && !IsKey(name) ==> r.Err?
  {
    SaysIff(name);
    NotBoth(name);
    var heads: nat;
    if HasSuffix(name, "attn_q.weight") || HasSuffix(name, "attn_q_proj.weight") {
      heads := attentionHeads;
    } else if HasSuffix(name, "attn_k.weight") || HasSuffix(name, "attn_k_proj.weight") {
      heads := if keyValueHeads != 0 then keyValueHeads else attentionHeads;
    } else {
      return Err("unknown tensor for repack");
    }
    r := RepackHeads(data, shape, heads);
  }

  /** What follows once the head count is known. */
  method RepackHeads<T>(data: seq<T>, shape: seq<nat>, heads: nat) returns (r: Result<seq<T>>)
    requires |shape| >= 1 && |data| == Size(shape) && heads > 0
    ensures RepackedFor(r, data, shape, heads)
  {
    var half := shape[0] / heads / 2;
    var n := Tensor(shape, data);
    var dims := [heads, 2, half] + shape[1..];
    if |shape| == 2 {
      assert dims == [heads, 2, half, shape[1]] && shape == [shape[0], shape[1]];
      Turned(heads, 2, half, shape[1]);
      Ravel2(shape[0], shape[1], 0, 0);
    }
    var split := n.Reshape(dims);
    if split.Err? { return Err(split.message); }
    AxesFacts();
    var turned := split.value.Transpose(AXES_0213);
    if turned.Err? { return Err(turned.message); }
    var joined := turned.value.Reshape(shape);
    if joined.Err? { return Err("cannot reshape"); }
    var f32s := AppendRows(joined.value.data, shape[0], shape[1]);
    r := Ok(f32s);
  }

  /** Separating the halves again undoes the interleaving, on every weight with whole heads of even
      dimension whose rotary part covers the head. */
  lemma NeoXUndoesRepack<T>(x: seq<T>, y: seq<T>, z: seq<T>, heads: nat, half: nat, columns: nat, zero: T)
    requires Repacks(x, y, heads, half, columns)
    requires half > 0 && IsNeoX(y, z, heads, 2 * half, columns, half, zero)
    ensures z == x
  {
    Turned(heads, 2, half, columns);
    Turned(heads, half, 2, columns);
    assert |z| == |x| == heads * (2 * half) * columns;
    forall p | 0 <= p < |z| ensures z[p] == x[p] {
      var h, q, f := PlaceOf(heads, 2 * half, columns, p);
      HeadsApart(y, z, heads, 2 * half, columns, half, zero, h, q, f);
      UndoAt(x, y, heads, half, columns, h, q, f);
    }
  }

  lemma UndoAt<T>(x: seq<T>, y: seq<T>, heads: nat, half: nat, columns: nat, h: nat, q: nat, f: nat)
    requires Repacks(x, y, heads, half, columns) && Inside(heads, 2 * half, columns, h, q, f)
    ensures var to, from := Idx(2 * half, columns, h, q, f), Idx(2 * half, columns, h, NeoXSource(half, q), f);
      to < |x| && from < |y| && y[from] == x[to]
  {
    var j, i := if q < half then 0 else 1, if q < half then q else q - half;
    Turned(heads, 2, half, columns);
    TransposedAt(x, [heads, 2, half, columns], AXES_0213, [h, j, i, f]);
    TurnedIndex(h, j, i, f);
    Ravel4(heads, 2, half, columns, h, j, i, f);
    Ravel4(heads, half, 2, columns, h, i, j, f);
    RowArithmetic(half, columns, h, q, j, i, f);
  }

  lemma TurnedIndex(h: nat, j: nat, i: nat, f: nat)
    ensures IsAxes(AXES_0213) && Permute([h, j, i, f], AXES_0213) == [h, i, j, f]
  {
    AxesFacts();
  }

  lemma RowArithmetic(half: nat, columns: nat, h: nat, q: nat, j: nat, i: nat, f: nat)
    requires j < 2 && i < half && q == j * half + i
    ensures ((h * 2 + j) * half + i) * columns + f == Idx(2 * half, columns, h, q, f)
    ensures ((h * half + i) * 2 + j) * columns + f == Idx(2 * half, columns, h, NeoXSource(half, q), f)
  {
    HalvesOfHead(half, h, j);
    assert q == if j == 0 then i else half + i;
    assert (h * half + i) * 2 + j == h * (2 * half) + NeoXSource(half, q);
    assert (h * 2 + j) * half + i == h * (2 * half) + q;
  }

  lemma HalvesOfHead(half: nat, h: nat, j: nat)
    ensures (h * 2 + j) * half == h * (2 * half) + j * half
    ensures (h * half) * 2 == h * (2 * half)
  {
  }
}
