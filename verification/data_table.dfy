/** The generic table (src/components/ui/DataTable.tsx): the rows given to it are filtered by
    the search term, sorted by the chosen column and cut into pages. The component's own
    state (search term, current page, sort configuration) lives in `TableState`; the
    filter, sort and slice pipeline is a chain of functions of that state. */
module DataTable {
  import opened Common

  /** A field value of a row: a string, or a number (a date counts as its millisecond value). */
  datatype Cell = Text(s: string) | Number(n: int)

  /** A row: its fields by name. */
  type Row = map<string, Cell>

  // ---------------------------------------------------------------------------
  // Search
  // ---------------------------------------------------------------------------

  /** `String(item[key])`; a missing field prints as "undefined". */
  function CellString(row: Row, key: string): (r: string)
    ensures key !in row ==> r == "undefined"
    ensures key in row && row[key].Text? ==> r == row[key].s
    ensures key in row && row[key].Number? ==> ParseIntOrZero(r) == row[key].n
  {
    if key !in row then "undefined"
    else match row[key]
      case Text(s) => s
      case Number(n) => IntToStringParses(n); IntToString(n)
  }

  /** The search test on one key: the field's text, lower-cased, contains the lower-cased term. */
  predicate Hit(row: Row, key: string, term: string)
    ensures Hit(row, key, term) <==> exists i :: OccursAt(ToLower(CellString(row, key)), ToLower(term), i)
  {
    ContainsIff(ToLower(CellString(row, key)), ToLower(term));
    Contains(ToLower(CellString(row, key)), ToLower(term))
  }

  function KeyHit(row: Row, term: string): string -> bool {
    key => Hit(row, key, term)
  }

  /** A row passes the search when some search key hits. */
  function MatchesSearch(keys: seq<string>, term: string): (m: Row -> bool)
    ensures forall row :: m(row) <==> exists k :: k in keys && Hit(row, k, term)
  {
    row => Any(keys, KeyHit(row, term))
  }

  /** `filteredData` (lines 47-54). */
  function FilterRows(data: seq<Row>, searchable: bool, keys: seq<string>, term: string): (r: seq<Row>)
    ensures !searchable || term == "" ==> r == data
    ensures searchable && term != "" ==>
              forall row :: row in r <==> row in data && exists k :: k in keys && Hit(row, k, term)
    ensures searchable && term != "" && keys == [] ==> r == []
    ensures |r| <= |data|
  {
    if searchable && term != "" then
      var r := Filter(data, MatchesSearch(keys, term));
      assert forall row :: MatchesSearch(keys, term)(row) == Any(keys, KeyHit(row, term));
      assert forall row, k :: KeyHit(row, term)(k) == Hit(row, k, term);
      if keys == [] then
        FilterNonePass(data, MatchesSearch(keys, term));
        r
      else r
    else data
  }

  /** The search ignores case: a term and its lower-case form select the same rows, in the
      same order. */
  lemma SearchIgnoresCase(data: seq<Row>, searchable: bool, keys: seq<string>, term: string)
    ensures FilterRows(data, searchable, keys, term) == FilterRows(data, searchable, keys, ToLower(term))
  {
    ToLowerIdempotent(term);
    forall row, k
      ensures KeyHit(row, term)(k) == KeyHit(row, ToLower(term))(k)
    {
    }
    forall row
      ensures MatchesSearch(keys, term)(row) == MatchesSearch(keys, ToLower(term))(row)
    {
      assert forall k :: k in keys ==> (KeyHit(row, term)(k) == KeyHit(row, ToLower(term))(k));
    }
    FilterExt(data, MatchesSearch(keys, term), MatchesSearch(keys, ToLower(term)));
  }

  // ---------------------------------------------------------------------------
  // Sort
  // ---------------------------------------------------------------------------

  datatype Direction = Asc | Desc

  datatype SortConfig = SortConfig(key: string, direction: Direction)

  /** `handleSort(key)` (lines 75-85): a new column sorts ascending, an ascending column
      turns descending, a descending column stops sorting. */
  function NextSort(current: Option<SortConfig>, key: string): (r: Option<SortConfig>)
    ensures current.None? || current.value.key != key ==> r == Some(SortConfig(key, Asc))
    ensures current == Some(SortConfig(key, Asc)) ==> r == Some(SortConfig(key, Desc))
    ensures current == Some(SortConfig(key, Desc)) ==> r == None
  {
    if current.None? || current.value.key != key then Some(SortConfig(key, Asc))
    else if current.value.direction == Asc then Some(SortConfig(key, Desc))
    else None
  }

  /** Three clicks on the same column, from any state, pass through ascending and
      descending and end unsorted, or end ascending when the column was already sorted. */
  lemma ThreeClicksCycle(current: Option<SortConfig>, key: string)
    ensures current.None? || current.value.key != key ==>
              NextSort(current, key) == Some(SortConfig(key, Asc)) &&
              NextSort(NextSort(current, key), key) == Some(SortConfig(key, Desc)) &&
              NextSort(NextSort(NextSort(current, key), key), key) == None
    ensures NextSort(NextSort(NextSort(NextSort(None, key), key), key), key) == NextSort(None, key)
  {
  }

  /** JavaScript `<` on two strings: code-unit-wise lexicographic order. */
  predicate StrLess(a: string, b: string) {
    if a == [] then b != []
    else if b == [] then false
    else a[0] < b[0] || (a[0] == b[0] && StrLess(a[1..], b[1..]))
  }

  lemma {:induction false} StrLessIrreflexive(a: string)
    ensures !StrLess(a, a)
  {
    if a != [] {
      StrLessIrreflexive(a[1..]);
    }
  }

  lemma {:induction false} StrLessTransitive(a: string, b: string, c: string)
    ensures StrLess(a, b) && StrLess(b, c) ==> StrLess(a, c)
  {
    if a != [] && b != [] && c != [] {
      StrLessTransitive(a[1..], b[1..], c[1..]);
    }
  }

  /** Any two different strings are ordered one way or the other. */
  lemma {:induction false} StrLessTotal(a: string, b: string)
    ensures a == b || StrLess(a, b) || StrLess(b, a)
  {
    if a != [] && b != [] && a[0] == b[0] {
      StrLessTotal(a[1..], b[1..]);
      assert a == [a[0]] + a[1..] && b == [b[0]] + b[1..];
    }
  }

  /** `aValue < bValue` on two cells of one kind; cells of different kinds are not ordered. */
  predicate Less(a: Cell, b: Cell)
    ensures Less(a, b) ==> (a.Text? <==> b.Text?)
  {
    match (a, b)
    case (Text(x), Text(y)) => StrLess(x, y)
    case (Number(x), Number(y)) => x < y
    case _ => false
  }

  lemma LessIrreflexive(a: Cell)
    ensures !Less(a, a)
  {
    if a.Text? {
      StrLessIrreflexive(a.s);
    }
  }

  lemma LessTransitive(a: Cell, b: Cell, c: Cell)
    ensures Less(a, b) && Less(b, c) ==> Less(a, c)
  {
    if a.Text? && b.Text? && c.Text? {
      StrLessTransitive(a.s, b.s, c.s);
    }
  }

  /** The value a row is sorted by: the field, or '' when the row lacks it (lines 59-60). */
  function SortValue(row: Row, key: string): (c: Cell)
    ensures key in row ==> c == row[key]
    ensures key !in row ==> forall d: Cell :: d.Text? && d.s != "" ==> Less(c, d)
  {
    if key in row then row[key] else Text("")
  }

  /** The comparator handed to `sort` (lines 58-65). */
  function Compare(a: Row, b: Row, cfg: SortConfig): (r: int)
    ensures -1 <= r <= 1
  {
    var x, y := SortValue(a, cfg.key), SortValue(b, cfg.key);
    if Less(x, y) then (if cfg.direction == Asc then -1 else 1)
    else if Less(y, x) then (if cfg.direction == Asc then 1 else -1)
    else 0
  }

  /** The comparator is antisymmetric, as `sort` requires of it. */
  lemma CompareAntisymmetric(a: Row, b: Row, cfg: SortConfig)
    ensures Compare(a, b, cfg) == -Compare(b, a, cfg)
  {
    var x, y := SortValue(a, cfg.key), SortValue(b, cfg.key);
    LessIrreflexive(x);
    LessTransitive(x, y, x);
  }

  /** `a` goes strictly before `b`. */
  predicate Precedes(a: Row, b: Row, cfg: SortConfig) {
    Compare(a, b, cfg) < 0
  }

  lemma PrecedesIrreflexive(a: Row, cfg: SortConfig)
    ensures !Precedes(a, a, cfg)
  {
    LessIrreflexive(SortValue(a, cfg.key));
  }

  lemma PrecedesTransitive(a: Row, b: Row, c: Row, cfg: SortConfig)
    ensures Precedes(a, b, cfg) && Precedes(b, c, cfg) ==> Precedes(a, c, cfg)
  {
    var x, y, z := SortValue(a, cfg.key), SortValue(b, cfg.key), SortValue(c, cfg.key);
    LessTransitive(x, y, z);
    LessTransitive(z, y, x);
    LessTransitive(x, z, x);
    LessTransitive(z, x, z);
    LessIrreflexive(x);
    LessIrreflexive(z);
  }

  /** Insert `x` into sorted `s` after every row it does not precede, which keeps rows
      that compare equal in their input order. */
  function Insert(x: Row, s: seq<Row>, cfg: SortConfig): (r: seq<Row>)
    ensures multiset(r) == multiset(s) + multiset{x}
    ensures |r| == |s| + 1
  {
    if s == [] then [x]
    else if Precedes(x, s[0], cfg) then [x] + s
    else
      assert s == [s[0]] + s[1..];
      [s[0]] + Insert(x, s[1..], cfg)
  }

  /** `[...filteredData].sort(comparator)`: a stable sort (as `Array.prototype.sort` is),
      here an insertion sort taking the rows in their input order. */
  function SortRows(rows: seq<Row>, cfg: SortConfig): (r: seq<Row>)
    ensures multiset(r) == multiset(rows)
    ensures |r| == |rows|
  {
    if rows == [] then []
    else
      assert rows == rows[..|rows| - 1] + [rows[|rows| - 1]];
      Insert(rows[|rows| - 1], SortRows(rows[..|rows| - 1], cfg), cfg)
  }

  /** No row precedes a row placed before it. */
  predicate SortedBy(r: seq<Row>, cfg: SortConfig) {
    forall i, j :: 0 <= i < j < |r| ==> !Precedes(r[j], r[i], cfg)
  }

  lemma {:induction false} InsertSorted(x: Row, s: seq<Row>, cfg: SortConfig)
    requires SortedBy(s, cfg)
    ensures SortedBy(Insert(x, s, cfg), cfg)
  {
    if s == [] {
    } else if Precedes(x, s[0], cfg) {
      forall j | 0 <= j < |s|
        ensures !Precedes(s[j], x, cfg)
      {
        PrecedesTransitive(s[j], x, s[0], cfg);
        PrecedesIrreflexive(s[0], cfg);
      }
      ConsSorted(x, s, cfg);
    } else {
      var rest := Insert(x, s[1..], cfg);
      InsertSorted(x, s[1..], cfg);
      forall j | 0 <= j < |rest|
        ensures !Precedes(rest[j], s[0], cfg)
      {
        assert rest[j] in multiset(rest);
        assert rest[j] == x || rest[j] in s[1..];
      }
      ConsSorted(s[0], rest, cfg);
    }
  }

  /** A row that no later row precedes can head a sorted sequence. */
  lemma ConsSorted(h: Row, t: seq<Row>, cfg: SortConfig)
    requires SortedBy(t, cfg)
    requires forall j :: 0 <= j < |t| ==> !Precedes(t[j], h, cfg)
    ensures SortedBy([h] + t, cfg)
  {
    var r := [h] + t;
    forall i, j | 0 <= i < j < |r|
      ensures !Precedes(r[j], r[i], cfg)
    {
      assert r[j] == t[j - 1];
      if i > 0 {
        assert r[i] == t[i - 1];
      }
    }
  }

  /** The sorted rows are a permutation of the input (by `SortRows`' contract) in sorted
      order: ascending, no later row's value is below an earlier one's; descending, none
      is above. */
  lemma {:induction false} SortRowsSorted(rows: seq<Row>, cfg: SortConfig)
    ensures SortedBy(SortRows(rows, cfg), cfg)
    ensures var r := SortRows(rows, cfg);
            forall i, j :: 0 <= i < j < |r| ==>
              if cfg.direction == Asc then !Less(SortValue(r[j], cfg.key), SortValue(r[i], cfg.key))
              else !Less(SortValue(r[i], cfg.key), SortValue(r[j], cfg.key))
  {
    if rows != [] {
      SortRowsSorted(rows[..|rows| - 1], cfg);
      InsertSorted(rows[|rows| - 1], SortRows(rows[..|rows| - 1], cfg), cfg);
    }
    var r := SortRows(rows, cfg);
    forall i, j | 0 <= i < j < |r|
      ensures if cfg.direction == Asc then !Less(SortValue(r[j], cfg.key), SortValue(r[i], cfg.key))
              else !Less(SortValue(r[i], cfg.key), SortValue(r[j], cfg.key))
    {
      assert !Precedes(r[j], r[i], cfg);
      LessTransitive(SortValue(r[i], cfg.key), SortValue(r[j], cfg.key), SortValue(r[i], cfg.key));
      LessIrreflexive(SortValue(r[i], cfg.key));
    }
  }

  /** `sortedData` (lines 57-66): the filtered rows unchanged without a sort. */
  function SortedData(rows: seq<Row>, sort: Option<SortConfig>): (r: seq<Row>)
    ensures multiset(r) == multiset(rows) && |r| == |rows|
    ensures sort.None? ==> r == rows
  {
    if sort.None? then rows else SortRows(rows, sort.value)
  }

  // ---------------------------------------------------------------------------
  // Pagination
  // ---------------------------------------------------------------------------

  /** `Math.ceil(n / pageSize)`: the fewest pages of `pageSize` rows that hold `n` rows. */
  function TotalPages(n: nat, pageSize: int): (r: nat)
    requires pageSize > 0
    ensures r * pageSize >= n
    ensures r > 0 ==> (r - 1) * pageSize < n
    ensures r == 0 <==> n == 0
  {
    (n + pageSize - 1) / pageSize
  }

  /** The index `Array.prototype.slice` starts or stops at: counted from the end when
      negative, then clamped to the array. */
  function SliceIndex(i: int, len: nat): (r: nat)
    ensures r <= len
    ensures 0 <= i <= len ==> r == i
  {
    if i < 0 then (if len + i < 0 then 0 else len + i)
    else if i > len then len
    else i
  }

  function Min(a: int, b: int): int {
    if a < b then a else b
  }

  /** `s.slice(start, end)`: never longer than `end - start`; from a non-negative start,
      the rows from `start` up to `end` or the end of `s`. */
  function JsSlice<T>(s: seq<T>, start: int, end: int): (r: seq<T>)
    ensures |r| <= |s|
    ensures start <= end ==> |r| <= end - start
    ensures 0 <= start <= end ==> r == if start < |s| then s[start..Min(end, |s|)] else []
  {
    var from, to := SliceIndex(start, |s|), SliceIndex(end, |s|);
    if from < to then s[from..to] else []
  }

  /** The first row of page `currentPage`. */
  function PageStart(currentPage: int, pageSize: int): (r: int)
    requires pageSize > 0
    ensures currentPage >= 1 ==> r >= 0
  {
    (currentPage - 1) * pageSize
  }

  /** `paginatedData` (lines 69-73): page `currentPage`, counted from 1. */
  function Page(rows: seq<Row>, currentPage: int, pageSize: int): (r: seq<Row>)
    requires pageSize > 0
    ensures |r| <= pageSize
    ensures currentPage >= 1 ==>
              var from := PageStart(currentPage, pageSize);
              r == if from < |rows| then rows[from..Min(from + pageSize, |rows|)] else []
  {
    var start := PageStart(currentPage, pageSize);
    JsSlice(rows, start, start + pageSize)
  }

  /** Pages 1 to k, one after another. */
  function PagesUpTo(rows: seq<Row>, pageSize: int, k: nat): seq<Row>
    requires pageSize > 0
  {
    if k == 0 then [] else PagesUpTo(rows, pageSize, k - 1) + Page(rows, k, pageSize)
  }

  /** Pages 1 to k are the rows before the start of page k + 1. */
  lemma {:induction false} PagesUpToPrefix(rows: seq<Row>, pageSize: int, k: nat)
    requires pageSize > 0
    ensures PagesUpTo(rows, pageSize, k) == rows[..Min(PageStart(k + 1, pageSize), |rows|)]
  {
    if k > 0 {
      PagesUpToPrefix(rows, pageSize, k - 1);
      PageStartStep(k, pageSize);
      var from := PageStart(k, pageSize);
      if from < |rows| {
        assert rows[..from] + rows[from..Min(from + pageSize, |rows|)] == rows[..Min(from + pageSize, |rows|)];
      }
    } else {
      PageStartOf(0, pageSize);
    }
  }

  /** Each page starts `pageSize` rows after the one before it. */
  lemma PageStartStep(k: int, pageSize: int)
    requires pageSize > 0
    ensures PageStart(k + 1, pageSize) == PageStart(k, pageSize) + pageSize
  {
    assert (k + 1 - 1) * pageSize == (k - 1) * pageSize + pageSize;
  }

  /** Page k + 1 starts after k full pages. */
  lemma PageStartOf(k: int, pageSize: int)
    requires pageSize > 0
    ensures PageStart(k + 1, pageSize) == k * pageSize
  {
  }

  /** The pages, read in order from the first to the last, are exactly the rows. */
  lemma PagesCoverRows(rows: seq<Row>, pageSize: int)
    requires pageSize > 0
    ensures PagesUpTo(rows, pageSize, TotalPages(|rows|, pageSize)) == rows
  {
    var total := TotalPages(|rows|, pageSize);
    PagesUpToPrefix(rows, pageSize, total);
    PageStartOf(total, pageSize);
    assert rows[..|rows|] == rows;
  }

  lemma DivMod(i: nat, pageSize: int)
    requires pageSize > 0
    ensures i / pageSize >= 0 && 0 <= i % pageSize < pageSize
    ensures (i / pageSize) * pageSize + i % pageSize == i
  {
  }

  /** Row `i` is shown on page `i / pageSize + 1`, at position `i % pageSize`. */
  lemma RowOnItsPage(rows: seq<Row>, pageSize: int, i: nat)
    requires pageSize > 0 && i < |rows|
    ensures i % pageSize < |Page(rows, i / pageSize + 1, pageSize)|
    ensures Page(rows, i / pageSize + 1, pageSize)[i % pageSize] == rows[i]
  {
    var p, m := i / pageSize, i % pageSize;
    DivMod(i, pageSize);
    PageStartOf(p, pageSize);
    var from := PageStart(p + 1, pageSize);
    assert from + m == i;
    assert Page(rows, p + 1, pageSize) == rows[from..Min(from + pageSize, |rows|)];
  }

  /** The last row number of "Mostrando a a b de n" (lines 156-157). */
  function ShownRangeEnd(currentPage: int, pageSize: int, n: nat): (r: int)
    ensures r <= n && r <= currentPage * pageSize
    ensures r == n || r == currentPage * pageSize
  {
    Min(currentPage * pageSize, n)
  }

  /** On every existing page the caption's range "from (p-1)*size+1 to its end" counts
      exactly the rows that page shows. */
  lemma ShownRangeMatchesPage(rows: seq<Row>, currentPage: int, pageSize: int)
    requires pageSize > 0 && 1 <= currentPage <= TotalPages(|rows|, pageSize)
    ensures |Page(rows, currentPage, pageSize)| ==
            ShownRangeEnd(currentPage, pageSize, |rows|) - ((currentPage - 1) * pageSize + 1) + 1
  {
    var total := TotalPages(|rows|, pageSize);
    var from := PageStart(currentPage, pageSize);
    PageStartStep(currentPage, pageSize);
    PageStartOf(currentPage, pageSize);
    MulMonotone(currentPage - 1, total - 1, pageSize);
    assert from < |rows|;
  }

  lemma MulMonotone(a: int, b: int, c: int)
    requires a <= b && c > 0
    ensures a * c <= b * c
  {
    assert b * c - a * c == (b - a) * c;
  }

  /** A page shows some row exactly when it is an existing page: the pages past the last
      one are empty. */
  lemma PageNonEmptyIff(rows: seq<Row>, currentPage: int, pageSize: int)
    requires pageSize > 0 && currentPage >= 1
    ensures Page(rows, currentPage, pageSize) != [] <==> currentPage <= TotalPages(|rows|, pageSize)
  {
    var total := TotalPages(|rows|, pageSize);
    var from := PageStart(currentPage, pageSize);
    PageStartOf(currentPage - 1, pageSize);
    if currentPage <= total {
      MulMonotone(currentPage - 1, total - 1, pageSize);
    } else {
      MulMonotone(total, currentPage - 1, pageSize);
    }
  }

  // ---------------------------------------------------------------------------
  // The component's state
  // ---------------------------------------------------------------------------

  class TableState {
    /** The `data` prop. The component stays mounted when its parent passes new rows. */
    var data: seq<Row>
    const searchable: bool
    const searchKeys: seq<string>
    const pageSize: int
    var searchTerm: string
    var currentPage: int
    var sort: Option<SortConfig>

    /** The defaults (lines 34-36) and the initial state (lines 39-44). */
    constructor (data: seq<Row>, searchable: Option<bool>, searchKeys: Option<seq<string>>, pageSize: Option<int>)
      requires pageSize.Some? ==> pageSize.value > 0
      ensures Valid() && PageInRange()
      ensures this.data == data
      ensures this.searchable == (if searchable.Some? then searchable.value else true)
      ensures this.searchKeys == (if searchKeys.Some? then searchKeys.value else [])
      ensures this.pageSize == (if pageSize.Some? then pageSize.value else 10)
      ensures searchTerm == "" && currentPage == 1 && sort == None
    {
      this.data := data;
      this.searchable := if searchable.Some? then searchable.value else true;
      this.searchKeys := if searchKeys.Some? then searchKeys.value else [];
      this.pageSize := if pageSize.Some? then pageSize.value else 10;
      searchTerm := "";
      currentPage := 1;
      sort := None;
    }

    /** The page size is positive and the page is counted from 1. */
    ghost predicate Valid()
      reads this
    {
      pageSize > 0 && 1 <= currentPage
    }

    /** The page is an existing page, or page 1 when there are no pages. */
    ghost predicate PageInRange()
      reads this
      requires Valid()
    {
      currentPage == 1 || currentPage <= TotalPageCount()
    }

    function Filtered(): (r: seq<Row>)
      reads this`data, this`searchTerm
      ensures |r| <= |data|
      ensures searchTerm == "" ==> r == data
    {
      FilterRows(data, searchable, searchKeys, searchTerm)
    }

    function Sorted(): (r: seq<Row>)
      reads this`data, this`searchTerm, this`sort
      ensures multiset(r) == multiset(Filtered())
      ensures sort.None? ==> r == Filtered()
    {
      SortedData(Filtered(), sort)
    }

    function TotalPageCount(): (n: nat)
      reads this`data, this`searchTerm, this`sort
      requires pageSize > 0
      ensures n * pageSize >= |Filtered()|
      ensures n > 0 ==> (n - 1) * pageSize < |Filtered()|
      ensures n == 0 <==> Filtered() == []
    {
      TotalPages(|Sorted()|, pageSize)
    }

    /** The rows on screen: at most one page of the sorted, filtered data. */
    function Shown(): (r: seq<Row>)
      reads this
      requires Valid()
      ensures |r| <= pageSize
      ensures forall row :: row in r ==> row in Filtered()
    {
      var r := Page(Sorted(), currentPage, pageSize);
      assert forall row :: row in r ==> row in multiset(Sorted());
      r
    }

    /** With the page in range, some row is on screen exactly when some row passes the
        search; past the last page nothing is, whatever the search leaves. */
    lemma ShownNonEmptyIff()
      requires Valid()
      ensures PageInRange() ==> (Shown() != [] <==> Filtered() != [])
      ensures !PageInRange() ==> Shown() == []
    {
      var sorted := Sorted();
      assert |sorted| == |Filtered()| by {
        assert multiset(sorted) == multiset(Filtered());
      }
      PageNonEmptyIff(sorted, currentPage, pageSize);
    }

    /** The parent passes new rows: the term, the page and the sort stay as they were
        (the component resets the page only when the term changes). */
    method SetData(d: seq<Row>)
      requires Valid()
      modifies this`data
      ensures Valid()
      ensures data == d
    {
      data := d;
    }

    /** New rows followed by a return to page 1, as typing does: the page is in range again. */
    method SetDataResetPage(d: seq<Row>)
      requires Valid()
      modifies this`data, this`currentPage
      ensures Valid() && PageInRange()
      ensures data == d && currentPage == 1
    {
      data := d;
      currentPage := 1;
    }

    /** Typing in the search box (lines 95-98) sets the term and goes back to page 1. */
    method SetSearchTerm(term: string)
      requires Valid()
      modifies this`searchTerm, this`currentPage
      ensures Valid() && PageInRange()
      ensures searchTerm == term && currentPage == 1
    {
      searchTerm := term;
      currentPage := 1;
    }

    /** Clicking a sortable header. Sorting never changes the row count, so a page in
        range stays in range. */
    method HandleSort(key: string)
      requires Valid()
      modifies this`sort
      ensures Valid()
      ensures sort == NextSort(old(sort), key)
      ensures TotalPageCount() == old(TotalPageCount())
      ensures PageInRange() == old(PageInRange())
    {
      sort := NextSort(sort, key);
    }

    /** The first-page button (line 164). */
    method FirstPage()
      requires Valid()
      modifies this`currentPage
      ensures Valid() && PageInRange()
      ensures currentPage == 1
    {
      currentPage := 1;
    }

    /** The previous-page button (line 172): never below 1. */
    method PrevPage()
      requires Valid()
      modifies this`currentPage
      ensures Valid()
      ensures old(PageInRange()) ==> PageInRange()
      ensures currentPage == if old(currentPage) - 1 < 1 then 1 else old(currentPage) - 1
    {
      currentPage := if currentPage - 1 < 1 then 1 else currentPage - 1;
    }

    /** The next-page button (line 183), which is only on screen when there is more than
        one page: never beyond the last page. */
    method NextPage()
      requires Valid() && TotalPageCount() > 1
      modifies this`currentPage
      ensures Valid() && PageInRange()
      ensures currentPage == Min(TotalPageCount(), old(currentPage) + 1)
    {
      currentPage := Min(TotalPageCount(), currentPage + 1);
    }

    /** The last-page button (line 191), also shown only with more than one page. */
    method LastPage()
      requires Valid() && TotalPageCount() > 1
      modifies this`currentPage
      ensures Valid() && PageInRange()
      ensures currentPage == TotalPageCount()
    {
      currentPage := TotalPageCount();
    }
  }

  /** The table on page 3 of 25 rows, given 5 new rows by its parent (a narrower filter on
      the page around it): the page stays 3, so no row is on screen although 5 pass the
      search, and the pager is hidden because there is only one page. */
  method StalePageAfterNewData() returns (shown: seq<Row>, filtered: seq<Row>, pages: nat)
    ensures shown == [] && |filtered| == 5 && pages == 1
  {
    var t := new TableState(seq(25, _ => map[]), None, None, Some(10));
    t.NextPage();
    t.NextPage();
    t.SetData(seq(5, _ => map[]));
    t.ShownNonEmptyIff();
    shown, filtered, pages := t.Shown(), t.Filtered(), t.TotalPageCount();
  }

  /** The same steps with the page reset on new rows: all 5 rows are on screen. */
  method NewDataResetPage() returns (shown: seq<Row>, filtered: seq<Row>)
    ensures shown == filtered && |shown| == 5
  {
    var t := new TableState(seq(25, _ => map[]), None, None, Some(10));
    t.NextPage();
    t.NextPage();
    t.SetDataResetPage(seq(5, _ => map[]));
    shown, filtered := t.Shown(), t.Filtered();
  }
}
