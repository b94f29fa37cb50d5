/** The raw-data pager of `raw_data`: a cursor over the rows of a table,
    moved on by five rows for each "yes". */
module Pager {
  import opened Wrappers
  import opened Text
  import opened Columns

  /** A page of the raw-data view; `None` is a row of missing cells. */
  type Page<T> = seq<Option<T>>

  /** The table rows at positions `cursor .. cursor + n - 1`; a position past the
      end of the table is a row of missing cells. */
  function Slots<T>(raw: seq<T>, cursor: nat, n: nat): (w: Page<T>)
    ensures |w| == n
    ensures forall i :: 0 <= i < n ==> w[i] == Slot(raw, cursor + i)
  {
    seq(n, i requires 0 <= i < n => Slot(raw, cursor + i))
  }

  function Slot<T>(raw: seq<T>, i: nat): Option<T>
  {
    if i < |raw| then Some(raw[i]) else None
  }

  /** `pd.DataFrame(dr, index = range(row_index, row_index + 5))`: five rows
      looked up by label, with no check against the table's length. */
  function Window<T>(raw: seq<T>, cursor: nat): Page<T>
  {
    Slots(raw, cursor, 5)
  }

  /** The first `k` pages, each five rows after the one before. */
  function Pages<T>(raw: seq<T>, k: nat): (pages: seq<Page<T>>)
    ensures |pages| == k
  {
    if k == 0 then [] else Pages(raw, k - 1) + [Window(raw, 5 * (k - 1))]
  }

  lemma {:induction false} PagesAt<T>(raw: seq<T>, k: nat, j: nat)
    requires j < k
    ensures Pages(raw, k)[j] == Window(raw, 5 * j)
  {
    if j < k - 1 {
      PagesAt(raw, k - 1, j);
    }
  }

  /** All rows of a sequence of pages, in order. */
  function Flatten<T>(pages: seq<Page<T>>): seq<Option<T>>
  {
    if pages == [] then [] else Flatten(pages[..|pages| - 1]) + pages[|pages| - 1]
  }

  function MinNat(a: nat, b: nat): nat { if a <= b then a else b }

  /** The rows that exist among `n` slots from `cursor` are the table's rows from
      `cursor` up to `cursor + n` or the end. */
  lemma {:induction false} SlotsShow<T>(raw: seq<T>, cursor: nat, n: nat)
    ensures Present(Slots(raw, cursor, n)) == raw[MinNat(cursor, |raw|)..MinNat(cursor + n, |raw|)]
  {
    if n > 0 {
      SlotsShow(raw, cursor, n - 1);
      var prev, last := Slots(raw, cursor, n - 1), Slot(raw, cursor + n - 1);
      assert Slots(raw, cursor, n) == prev + [last];
      PresentSnoc(prev, last);
      var lo, mid := MinNat(cursor, |raw|), MinNat(cursor + n - 1, |raw|);
      if cursor + n - 1 < |raw| {
        assert raw[lo..mid + 1] == raw[lo..mid] + [raw[mid]];
      }
    }
  }

  lemma PresentSnoc<T>(prev: seq<Option<T>>, last: Option<T>)
    ensures Present(prev + [last]) == Present(prev) + (if last.Some? then [last.value] else [])
  {
    PresentAppend(prev, [last]);
    assert [last][1..] == [];
  }

  /** Paging never skips or repeats a row: the rows shown on the first `k` pages
      are the first `5 * k` rows of the table, or all of it. */
  lemma {:induction false} PagesShowPrefix<T>(raw: seq<T>, k: nat)
    ensures Present(Flatten(Pages(raw, k))) == raw[..MinNat(5 * k, |raw|)]
  {
    if k > 0 {
      var c := 5 * (k - 1);
      var before, page := Pages(raw, k - 1), Window(raw, c);
      var a, b := MinNat(c, |raw|), MinNat(c + 5, |raw|);
      assert Pages(raw, k) == before + [page];
      FlattenSnoc(before, page);
      PresentAppend(Flatten(before), page);
      PagesShowPrefix(raw, k - 1);
      SlotsShow(raw, c, 5);
      SliceJoin(raw, a, b);
      assert Present(Flatten(Pages(raw, k))) == raw[..a] + raw[a..b];
      assert c + 5 == 5 * k;
    }
  }

  lemma SliceJoin<T>(s: seq<T>, a: nat, b: nat)
    requires a <= b <= |s|
    ensures s[..a] + s[a..b] == s[..b]
  {
  }

  lemma FlattenSnoc<T>(pages: seq<Page<T>>, page: Page<T>)
    ensures Flatten(pages + [page]) == Flatten(pages) + page
  {
    assert (pages + [page])[..|pages|] == pages;
  }

  /** The reply that continues paging and restarts the session. */
  predicate IsYes(reply: string)
  {
    Lower(reply) == "yes"
  }

  /** "yes" in any mix of cases, and nothing else: no padding, no abbreviation. */
  lemma IsYesExactly(reply: string)
    ensures IsYes(reply) <==>
      |reply| == 3 && reply[0] in "yY" && reply[1] in "eE" && reply[2] in "sS"
  {
    if |reply| == 3 {
      var l := Lower(reply);
      assert l[0] == LowerChar(reply[0]) && l[1] == LowerChar(reply[1]) && l[2] == LowerChar(reply[2]);
      assert l == [l[0], l[1], l[2]];
    }
  }

  /** The number of consecutive "yes" replies from `pos` on. */
  function YesRun(input: seq<string>, pos: nat): (n: nat)
    requires pos <= |input|
    ensures pos + n <= |input|
    decreases |input| - pos
  {
    if pos == |input| || !IsYes(input[pos]) then 0 else 1 + YesRun(input, pos + 1)
  }

  /** The run is exactly the "yes" replies before the first other reply. */
  lemma {:induction false} YesRunMeaning(input: seq<string>, pos: nat)
    requires pos <= |input|
    ensures forall k :: pos <= k < pos + YesRun(input, pos) ==> IsYes(input[k])
    ensures pos + YesRun(input, pos) < |input| ==> !IsYes(input[pos + YesRun(input, pos)])
    decreases |input| - pos
  {
    if pos < |input| && IsYes(input[pos]) {
      YesRunMeaning(input, pos + 1);
    }
  }

  /** `raw_data`: a cursor from row 0 that shows five rows and moves on by five
      for each "yes"; any other reply ends the view. Running out of replies
      ends it with `answered` false. */
  method RawData<T>(raw: seq<T>, input: seq<string>, pos: nat) returns (pages: seq<Page<T>>, next: nat, answered: bool)
    requires pos <= |input|
    ensures pages == Pages(raw, |pages|) && |pages| == YesRun(input, pos)
    ensures forall k :: pos <= k < pos + |pages| ==> k < |input| && IsYes(input[k])
    ensures answered ==> next == pos + |pages| + 1 <= |input| && !IsYes(input[next - 1])
    ensures !answered ==> next == pos + |pages| == |input|
  {
    var rowIndex: nat := 0;
    pages, next, answered := [], pos, false;
    while next < |input|
      invariant next == pos + |pages| <= |input|
      invariant rowIndex == 5 * |pages|
      invariant pages == Pages(raw, |pages|)
      invariant forall k :: pos <= k < next ==> IsYes(input[k])
      invariant YesRun(input, pos) == |pages| + YesRun(input, next)
    {
      var reply := input[next];
      next := next + 1;
      if IsYes(reply) {
        pages := pages + [Window(raw, rowIndex)];
        rowIndex := rowIndex + 5;
      } else {
        answered := true;
        break;
      }
    }
  }
}
