/**
 * The geo table's column sorter (src/widgets/geo-table-widget/table-sorter.ts): a copy of
 * the rows sorted by one column, as text through a collator or as numbers, ascending or
 * reversed. Sequences are values, so the caller's rows are never changed.
 *
 * The column read `a[key]` is a parameter: `text` for `String(a[key])`, `number` for
 * `Number(a[key])` with None standing for NaN. The collator is a parameter too, whose
 * `compare` must order strings as a total preorder.
 */
module TableSorting {
  import opened Util
  import opened Sorting

  datatype Direction = Ascending | Descending
  datatype ColumnType = StringColumn | NumberColumn

  /** `Number(v) || 0`: NaN and zero both give 0. */
  function NumberOrZero(v: Option<real>): real {
    if v.Some? then v.value else 0.0
  }

  /** The comparator `compare(a, b)` of Array.prototype.sort, read as "a may come first". */
  function ComparatorLe<T>(compare: (T, T) -> int): (T, T) -> bool {
    (a, b) => compare(a, b) <= 0
  }

  /** Rows ordered by a column's text through the collator. */
  function ByText<T>(text: T -> string, collate: (string, string) -> int): (T, T) -> bool {
    (a: T, b: T) => collate(text(a), text(b)) <= 0
  }

  /** Rows ordered by a column's number, `valA - valB`. */
  function ByNumber<T>(number: T -> Option<real>): (T, T) -> bool {
    (a: T, b: T) => NumberOrZero(number(a)) - NumberOrZero(number(b)) <= 0.0
  }

  /** A direction's order: the column order, or its converse. */
  function Toward<T>(le: (T, T) -> bool, direction: Direction): (T, T) -> bool {
    if direction == Ascending then le else (a, b) => le(b, a)
  }

  lemma ByTextTotalPreorder<T(!new)>(text: T -> string, collate: (string, string) -> int)
    requires TotalPreorder(ComparatorLe(collate))
    ensures TotalPreorder(ByText(text, collate))
  {
    var le := ComparatorLe(collate);
    forall a: T, b: T ensures ByText(text, collate)(a, b) || ByText(text, collate)(b, a) {
      assert le(text(a), text(b)) || le(text(b), text(a));
    }
    forall a: T, b: T, c: T | ByText(text, collate)(a, b) && ByText(text, collate)(b, c)
      ensures ByText(text, collate)(a, c)
    {
      assert le(text(a), text(b)) && le(text(b), text(c));
    }
  }

  lemma ByNumberTotalPreorder<T(!new)>(number: T -> Option<real>)
    ensures TotalPreorder(ByNumber(number))
  {
  }

  /**
   * sortByString: the rows in the collator's order of the column's text, reversed when
   * descending; the same rows, as many times each.
   */
  function SortByString<T(!new)>(data: seq<T>, text: T -> string, collate: (string, string) -> int,
                                 direction: Direction): (r: seq<T>)
    requires TotalPreorder(ComparatorLe(collate))
    ensures |r| == |data| && multiset(r) == multiset(data)
    ensures SortedBy(r, Toward(ByText(text, collate), direction))
  {
    ByTextTotalPreorder(text, collate);
    var sorted := SortBy(data, ByText(text, collate));
    if direction == Ascending then sorted
    else
      ReverseMultiset(sorted);
      ReverseSorted(sorted, ByText(text, collate));
      Reverse(sorted)
  }

  /**
   * sortByNumber: the rows in increasing order of the column's number (NaN as 0), reversed
   * when descending; the same rows, as many times each.
   */
  function SortByNumber<T(!new)>(data: seq<T>, number: T -> Option<real>, direction: Direction): (r: seq<T>)
    ensures |r| == |data| && multiset(r) == multiset(data)
    ensures SortedBy(r, Toward(ByNumber(number), direction))
  {
    ByNumberTotalPreorder(number);
    var sorted := SortBy(data, ByNumber(number));
    if direction == Ascending then sorted
    else
      ReverseMultiset(sorted);
      ReverseSorted(sorted, ByNumber(number));
      Reverse(sorted)
  }

  /** sort: by number for a number column, by text otherwise. */
  function Sort<T(!new)>(data: seq<T>, text: T -> string, number: T -> Option<real>,
                         collate: (string, string) -> int, direction: Direction, kind: ColumnType): (r: seq<T>)
    requires TotalPreorder(ComparatorLe(collate))
    ensures |r| == |data| && multiset(r) == multiset(data)
    ensures kind == NumberColumn ==> SortedBy(r, Toward(ByNumber(number), direction))
    ensures kind == StringColumn ==> SortedBy(r, Toward(ByText(text, collate), direction))
  {
    if kind == NumberColumn then SortByNumber(data, number, direction)
    else SortByString(data, text, collate, direction)
  }

  /** A descending sort is the ascending sort read backwards, for either column type. */
  lemma DescendingReversesAscending<T(!new)>(data: seq<T>, text: T -> string, number: T -> Option<real>,
                                             collate: (string, string) -> int, kind: ColumnType)
    requires TotalPreorder(ComparatorLe(collate))
    ensures Sort(data, text, number, collate, Descending, kind)
         == Reverse(Sort(data, text, number, collate, Ascending, kind))
  {
  }

  /** Sorting rows already in order leaves them as they are. */
  lemma {:induction false} SortBySorted<T(!new)>(s: seq<T>, le: (T, T) -> bool)
    requires TotalPreorder(le)
    requires SortedBy(s, le)
    ensures SortBy(s, le) == s
  {
    if s != [] {
      assert SortedBy(s[1..], le);
      SortBySorted(s[1..], le);
      assert s == [s[0]] + s[1..];
    }
  }

  /** Sorting a column ascending twice is sorting it once. */
  lemma AscendingSortIdempotent<T(!new)>(data: seq<T>, text: T -> string, number: T -> Option<real>,
                                         collate: (string, string) -> int, kind: ColumnType)
    requires TotalPreorder(ComparatorLe(collate))
    ensures var once := Sort(data, text, number, collate, Ascending, kind);
      Sort(once, text, number, collate, Ascending, kind) == once
  {
    var once := Sort(data, text, number, collate, Ascending, kind);
    if kind == NumberColumn {
      ByNumberTotalPreorder(number);
      SortBySorted(once, ByNumber(number));
    } else {
      ByTextTotalPreorder(text, collate);
      SortBySorted(once, ByText(text, collate));
    }
  }
}
