/** The full variant of the tool (warm/podman_cont_sizes.go): it asks
    `podman ps --size --format json` for the containers, stops with a notice
    when there are none, sorts them in place by the chosen key and prints
    either a table with per-container and aggregate sizes or the records as
    JSON. Running the subprocess and decoding its JSON are abstracted to
    their outcome; printing is modelled as the values that get printed. */
module Containers {
  import opened SizeFormat
  import StringOrder

  /** The `Size` sub-record of a container, in bytes. */
  datatype Size = Size(rootFsSize: int, rwSize: int)

  /** One record of `podman ps --format json`, already decoded. A JSON
      `null` or missing `Names` decodes to the empty list. */
  datatype Container = Container(
    id: string,
    names: seq<string>,
    image: string,
    status: string,
    size: Size)

  /** The resolved command-line flags `-a`, `-sort` and `-json`. */
  datatype Config = Config(showAll: bool, sortBy: string, outputJson: bool)

  datatype Result<T, E> = Ok(value: T) | Err(error: E)

  /** What running `podman` with some arguments and decoding its standard
      output yields. */
  datatype CommandOutcome =
    | CommandFailed(cause: string)
    | Malformed(cause: string)
    | Decoded(records: seq<Container>)

  /** The two wrapped errors `getContainers` returns. */
  datatype CollectError =
    | SubprocessFailure(cause: string)
    | DecodeFailure(cause: string)

  /** The `%w` wrapping of the two errors: a fixed prefix per kind, then
      the cause. */
  function ErrorText(e: CollectError): (text: string)
    ensures |text| > |e.cause| && text[|text| - |e.cause|..] == e.cause
    ensures e.SubprocessFailure? <==> text[0] == 'p'
  {
    match e
    case SubprocessFailure(cause) => "podman command failed: " + cause
    case DecodeFailure(cause) => "failed to parse JSON: " + cause
  }

  /** Different errors never print the same text: the kind and the cause
      can be read back from the message. */
  lemma ErrorTextInjective(e1: CollectError, e2: CollectError)
    requires ErrorText(e1) == ErrorText(e2)
    ensures e1 == e2
  {
  }

  const Unnamed: string := "<unnamed>"

  /** `getContainerName`: the first name, or the placeholder. */
  function DisplayName(c: Container): (name: string)
    ensures |c.names| > 0 ==> name == c.names[0]
    ensures |c.names| == 0 ==> name == Unnamed
  {
    if |c.names| > 0 then c.names[0] else Unnamed
  }

  /** The argument list `getContainers` hands to `podman`. */
  function PodmanArgs(showAll: bool): (args: seq<string>)
    ensures |args| >= 4 && args[..4] == ["ps", "--size", "--format", "json"]
    ensures |args| == 5 <==> showAll
    ensures |args| <= 5
    ensures showAll ==> args[4] == "-a"
    ensures "-a" in args <==> showAll
  {
    var base := ["ps", "--size", "--format", "json"];
    if showAll then base + ["-a"] else base
  }

  /** `getContainers`, with the subprocess run and JSON decoding given as
      `podman`, a function from argument list to outcome. */
  function GetContainers(showAll: bool, podman: seq<string> -> CommandOutcome): (r: Result<seq<Container>, CollectError>)
    ensures r.Ok? <==> podman(PodmanArgs(showAll)).Decoded?
    ensures r.Ok? ==> r.value == podman(PodmanArgs(showAll)).records
    ensures r.Err? ==> r.error.cause == podman(PodmanArgs(showAll)).cause
    ensures r.Err? && r.error.SubprocessFailure? <==> podman(PodmanArgs(showAll)).CommandFailed?
    ensures r.Err? && r.error.DecodeFailure? <==> podman(PodmanArgs(showAll)).Malformed?
  {
    match podman(PodmanArgs(showAll))
    case CommandFailed(cause) => Err(SubprocessFailure(cause))
    case Malformed(cause) => Err(DecodeFailure(cause))
    case Decoded(records) => Ok(records)
  }

  // ---------------------------------------------------------------------
  // Ordering

  /** The three comparators of `sortContainers`. */
  datatype SortKey = BySize | ByRwSize | ByName

  /** The `switch` on the `-sort` flag; anything unrecognised sorts by name. */
  function SortKeyOf(sortBy: string): (k: SortKey)
    ensures k == BySize <==> sortBy == "size"
    ensures k == ByRwSize <==> sortBy == "rwsize"
    ensures k == ByName <==> sortBy != "size" && sortBy != "rwsize"
  {
    if sortBy == "size" then BySize
    else if sortBy == "rwsize" then ByRwSize
    else ByName
  }

  /** `RootFsSize + RwSize` as Go computes it on int64, wrapping on overflow. */
  function Total(c: Container): int {
    Wrap(c.size.rootFsSize + c.size.rwSize)
  }

  /** The `less` function handed to `sort.Slice`: x goes before y. */
  function Before(k: SortKey, x: Container, y: Container): (b: bool)
    ensures b ==> x != y
  {
    match k
    case BySize => Total(x) > Total(y)
    case ByRwSize => x.size.rwSize > y.size.rwSize
    case ByName => StringOrder.Less(DisplayName(x), DisplayName(y))
  }

  /** What `sort.Slice` guarantees: no element goes before an earlier one. */
  predicate Sorted(k: SortKey, s: seq<Container>) {
    forall i, j :: 0 <= i < j < |s| ==> !Before(k, s[j], s[i])
  }

  /** By name, `Before` is the textbook lexicographic order on display
      names: a proper prefix first, otherwise the smaller character at the
      first difference. */
  lemma BeforeByName(x: Container, y: Container)
    ensures Before(ByName, x, y) <==> StringOrder.FirstDifferenceSmaller(DisplayName(x), DisplayName(y))
  {
    StringOrder.LessIsFirstDifferenceSmaller(DisplayName(x), DisplayName(y));
  }

  lemma BeforeIrreflexive(k: SortKey, x: Container)
    ensures !Before(k, x, x)
  {
  }

  lemma BeforeTransitive(k: SortKey, x: Container, y: Container, z: Container)
    requires Before(k, x, y) && Before(k, y, z)
    ensures Before(k, x, z)
  {
    if k == ByName {
      StringOrder.LessTransitive(DisplayName(x), DisplayName(y), DisplayName(z));
    }
  }

  /** Sortedness read per key: descending total size, descending RW size,
      or ascending byte-wise display name. */
  lemma SortedMeans(k: SortKey, s: seq<Container>)
    ensures k == BySize ==>
      (Sorted(k, s) <==> forall i, j :: 0 <= i < j < |s| ==> Total(s[i]) >= Total(s[j]))
    ensures k == ByRwSize ==>
      (Sorted(k, s) <==> forall i, j :: 0 <= i < j < |s| ==> s[i].size.rwSize >= s[j].size.rwSize)
    ensures k == ByName ==>
      (Sorted(k, s) <==> forall i, j :: 0 <= i < j < |s| ==>
         StringOrder.LessOrEqual(DisplayName(s[i]), DisplayName(s[j])))
  {
    if k == ByName {
      forall i, j | 0 <= i < j < |s|
        ensures !Before(k, s[j], s[i]) <==> StringOrder.LessOrEqual(DisplayName(s[i]), DisplayName(s[j]))
      {
        StringOrder.NotLessIsLessOrEqual(DisplayName(s[i]), DisplayName(s[j]));
      }
    }
  }

  /** The position of an element in a[lo..] that nothing in a[lo..] goes
      before. */
  method IndexOfFirst(a: array<Container>, k: SortKey, lo: int) returns (m: int)
    requires 0 <= lo < a.Length
    ensures lo <= m < a.Length
    ensures forall j :: lo <= j < a.Length ==> !Before(k, a[j], a[m])
  {
    m := lo;
    var i := lo + 1;
    BeforeIrreflexive(k, a[lo]);
    while i < a.Length
      invariant lo <= m < i <= a.Length
      invariant forall j :: lo <= j < i ==> !Before(k, a[j], a[m])
    {
      if Before(k, a[i], a[m]) {
        forall j | lo <= j < i
          ensures !Before(k, a[j], a[i])
        {
          if Before(k, a[j], a[i]) {
            BeforeTransitive(k, a[j], a[i], a[m]);
          }
        }
        BeforeIrreflexive(k, a[i]);
        m := i;
      }
      i := i + 1;
    }
  }

  /** The first i elements are in order among themselves ... */
  predicate SortedPrefix(k: SortKey, s: seq<Container>, i: int)
    requires 0 <= i <= |s|
  {
    forall p, q :: 0 <= p < q < i ==> !Before(k, s[q], s[p])
  }

  /** ... and none of the rest goes before any of them. */
  predicate Settled(k: SortKey, s: seq<Container>, i: int)
    requires 0 <= i <= |s|
  {
    forall p, q :: 0 <= p < i <= q < |s| ==> !Before(k, s[q], s[p])
  }

  /** Swapping a first element of s[i..] into position i settles one more. */
  lemma SelectStep(k: SortKey, s: seq<Container>, i: int, m: int)
    requires 0 <= i <= m < |s|
    requires SortedPrefix(k, s, i) && Settled(k, s, i)
    requires forall j :: i <= j < |s| ==> !Before(k, s[j], s[m])
    ensures multiset(s[i := s[m]][m := s[i]]) == multiset(s)
    ensures SortedPrefix(k, s[i := s[m]][m := s[i]], i + 1)
    ensures Settled(k, s[i := s[m]][m := s[i]], i + 1)
  {
    var t := s[i := s[m]][m := s[i]];
    forall p, q | 0 <= p < q < i + 1
      ensures !Before(k, t[q], t[p])
    {
      assert t[p] == s[p];
      if q < i {
        assert t[q] == s[q];
      } else {
        assert t[q] == s[m];
      }
    }
    forall p, q | 0 <= p < i + 1 <= q < |t|
      ensures !Before(k, t[q], t[p])
    {
      var q' := if q == m then i else q;
      assert t[q] == s[q'];
      if p < i {
        assert t[p] == s[p];
      } else {
        assert t[p] == s[m];
      }
    }
  }

  /** `sortContainers`: reorders the slice in place so that it is sorted by
      the key the `-sort` flag selects. */
  method SortContainers(a: array<Container>, sortBy: string)
    modifies a
    ensures multiset(a[..]) == multiset(old(a[..]))
    ensures Sorted(SortKeyOf(sortBy), a[..])
    ensures sortBy == "size" ==>
      forall i, j :: 0 <= i < j < a.Length ==> Total(a[i]) >= Total(a[j])
    ensures sortBy == "rwsize" ==>
      forall i, j :: 0 <= i < j < a.Length ==> a[i].size.rwSize >= a[j].size.rwSize
    ensures sortBy != "size" && sortBy != "rwsize" ==>
      forall i, j :: 0 <= i < j < a.Length ==> StringOrder.LessOrEqual(DisplayName(a[i]), DisplayName(a[j]))
  {
    var key := SortKeyOf(sortBy);
    var i := 0;
    while i < a.Length
      invariant 0 <= i <= a.Length
      invariant multiset(a[..]) == multiset(old(a[..]))
      invariant SortedPrefix(key, a[..], i) && Settled(key, a[..], i)
    {
      var m := IndexOfFirst(a, key, i);
      ghost var s := a[..];
      a[i], a[m] := a[m], a[i];
      assert a[..] == s[i := s[m]][m := s[i]];
      SelectStep(key, s, i, m);
      i := i + 1;
    }
    SortedMeans(key, a[..]);
  }

  // ---------------------------------------------------------------------
  // Aggregate totals

  datatype Field = RwSize | RootFsSize

  function FieldOf(c: Container, f: Field): int {
    match f
    case RwSize => c.size.rwSize
    case RootFsSize => c.size.rootFsSize
  }

  /** The sum of one size field over a list, added up front to back. */
  function Sum(s: seq<Container>, f: Field): int
    decreases |s|
  {
    if s == [] then 0 else Sum(s[..|s| - 1], f) + FieldOf(s[|s| - 1], f)
  }

  lemma {:induction false} SumAppend(s: seq<Container>, t: seq<Container>, f: Field)
    ensures Sum(s + t, f) == Sum(s, f) + Sum(t, f)
    decreases |t|
  {
    if t != [] {
      assert (s + t)[..|s + t| - 1] == s + t[..|t| - 1];
      assert (s + t)[|s + t| - 1] == t[|t| - 1];
      assert Sum(s + t, f) == Sum(s + t[..|t| - 1], f) + FieldOf(t[|t| - 1], f);
      SumAppend(s, t[..|t| - 1], f);
    } else {
      assert s + t == s;
    }
  }

  /** Taking one record out of a list takes its size out of the sum. */
  lemma SumRemove(t: seq<Container>, j: int, f: Field)
    requires 0 <= j < |t|
    ensures multiset(t) == multiset(t[..j] + t[j + 1..]) + multiset{t[j]}
    ensures Sum(t, f) == Sum(t[..j] + t[j + 1..], f) + FieldOf(t[j], f)
  {
    assert t == t[..j] + [t[j]] + t[j + 1..];
    SumAppend(t[..j] + [t[j]], t[j + 1..], f);
    SumAppend(t[..j], [t[j]], f);
    SumAppend(t[..j], t[j + 1..], f);
  }

  /** Totals do not depend on the order of the records. */
  lemma {:induction false} SumPermutation(s: seq<Container>, t: seq<Container>, f: Field)
    requires multiset(s) == multiset(t)
    ensures Sum(s, f) == Sum(t, f)
    decreases |s|
  {
    if s == [] {
      assert |t| == |multiset(t)|;
      assert t == [];
    } else {
      var x := s[|s| - 1];
      var s' := s[..|s| - 1];
      assert s == s' + [x];
      assert Sum(s, f) == Sum(s', f) + FieldOf(x, f);
      assert x in multiset(t);
      var j :| 0 <= j < |t| && t[j] == x;
      var t' := t[..j] + t[j + 1..];
      SumRemove(t, j, f);
      assert multiset(s) == multiset(s') + multiset{x};
      assert multiset(s') == multiset(s) - multiset{x};
      assert multiset(t') == multiset(t) - multiset{x};
      SumPermutation(s', t', f);
      assert Sum(t, f) == Sum(t', f) + FieldOf(x, f);
    }
  }

  lemma {:induction false} NonNegativeSum(s: seq<Container>, f: Field)
    requires forall j :: 0 <= j < |s| ==> FieldOf(s[j], f) >= 0
    ensures Sum(s, f) >= 0
    decreases |s|
  {
    if s != [] {
      NonNegativeSum(s[..|s| - 1], f);
    }
  }

  lemma PrefixStep(s: seq<Container>, i: int, f: Field)
    requires 0 <= i < |s|
    ensures Sum(s[..i + 1], f) == Sum(s[..i], f) + FieldOf(s[i], f)
  {
    assert s[..i + 1][..i] == s[..i];
  }

  /** Both sizes are int64 values, as the `int64` fields of the decoded
      record guarantee. */
  predicate SizesInRange(c: Container) {
    IsInt64(c.size.rwSize) && IsInt64(c.size.rootFsSize)
  }

  predicate Reportable(s: seq<Container>) {
    forall i :: 0 <= i < |s| ==> SizesInRange(s[i])
  }

  lemma ReportablePermutation(s: seq<Container>, t: seq<Container>)
    requires multiset(s) == multiset(t)
    requires Reportable(s)
    ensures Reportable(t)
  {
    forall i | 0 <= i < |t|
      ensures SizesInRange(t[i])
    {
      assert t[i] in multiset(s);
    }
  }

  /** In the usual case, non-negative sizes whose aggregate fits in int64,
      nothing wraps: the int64 totals are the exact sums. */
  lemma ExactTotals(s: seq<Container>)
    requires forall i :: 0 <= i < |s| ==> 0 <= s[i].size.rwSize && 0 <= s[i].size.rootFsSize
    requires Sum(s, RwSize) + Sum(s, RootFsSize) <= Int64Max
    ensures Wrap(Sum(s, RwSize)) == Sum(s, RwSize)
    ensures Wrap(Sum(s, RootFsSize)) == Sum(s, RootFsSize)
    ensures Wrap(Wrap(Sum(s, RwSize)) + Wrap(Sum(s, RootFsSize))) == Sum(s, RwSize) + Sum(s, RootFsSize)
  {
    NonNegativeSum(s, RwSize);
    NonNegativeSum(s, RootFsSize);
  }

  // ---------------------------------------------------------------------
  // Table

  /** One printed row: name, image, RW size, root size, total size. */
  datatype Row = Row(name: string, image: string, rw: SizeText, root: SizeText, total: SizeText)

  /** The table body plus the aggregate block ("Read/Write", "Root FS",
      "Combined"), with the raw sums that were formatted. */
  datatype Table = Table(
    rows: seq<Row>,
    totalRw: int,
    totalRoot: int,
    rwLine: SizeText,
    rootLine: SizeText,
    combinedLine: SizeText)

  /** One record's row: display name, image, and the formatted RW size,
      root size and their int64 total. */
  function RowOf(c: Container): Row
    requires SizesInRange(c)
  {
    Row(DisplayName(c), c.image, Rendered(c.size.rwSize), Rendered(c.size.rootFsSize), Rendered(Total(c)))
  }

  /** The table body for a list of records, one row each, in order. */
  function RowsOf(s: seq<Container>): (rows: seq<Row>)
    requires forall i :: 0 <= i < |s| ==> SizesInRange(s[i])
    ensures |rows| == |s|
  {
    seq(|s|, i requires 0 <= i < |s| => RowOf(s[i]))
  }

  /** Printing one more record appends its row. */
  lemma RowsOfStep(s: seq<Container>, i: int)
    requires 0 <= i < |s|
    requires forall j :: 0 <= j <= i ==> SizesInRange(s[j])
    ensures RowsOf(s[..i + 1]) == RowsOf(s[..i]) + [RowOf(s[i])]
  {
    var longer, shorter := RowsOf(s[..i + 1]), RowsOf(s[..i]) + [RowOf(s[i])];
    assert |longer| == |shorter|;
    forall j | 0 <= j < |longer|
      ensures longer[j] == shorter[j]
    {
      if j < i {
        assert shorter[j] == RowsOf(s[..i])[j];
      }
    }
  }

  /** The cells of one table row. */
  method FormatRow(c: Container) returns (row: Row)
    requires SizesInRange(c)
    ensures row == RowOf(c)
  {
    var rwSize := FormatSize(c.size.rwSize);
    var rootSize := FormatSize(c.size.rootFsSize);
    var totalSize := FormatSize(Wrap(c.size.rwSize + c.size.rootFsSize));
    row := Row(DisplayName(c), c.image, rwSize, rootSize, totalSize);
  }

  /** One turn of the totals loop: adding the record's size to the
      wrapped running total gives the wrapped sum of one more record. */
  lemma TotalsStep(cs: seq<Container>, i: int, totalRw: int, totalRoot: int)
    requires 0 <= i < |cs|
    requires totalRw == Wrap(Sum(cs[..i], RwSize))
    requires totalRoot == Wrap(Sum(cs[..i], RootFsSize))
    ensures Wrap(totalRw + cs[i].size.rwSize) == Wrap(Sum(cs[..i + 1], RwSize))
    ensures Wrap(totalRoot + cs[i].size.rootFsSize) == Wrap(Sum(cs[..i + 1], RootFsSize))
  {
    PrefixStep(cs, i, RwSize);
    PrefixStep(cs, i, RootFsSize);
    WrapAdd(Sum(cs[..i], RwSize), cs[i].size.rwSize);
    WrapAdd(Sum(cs[..i], RootFsSize), cs[i].size.rootFsSize);
  }

  /** The accumulator updates of one turn of the `printTable` loop: both
      int64 totals grow by record i's sizes, wrapping on overflow. */
  method AddToTotals(cs: seq<Container>, i: int, totalRw: int, totalRoot: int) returns (rw: int, root: int)
    requires 0 <= i < |cs|
    requires totalRw == Wrap(Sum(cs[..i], RwSize))
    requires totalRoot == Wrap(Sum(cs[..i], RootFsSize))
    ensures rw == Wrap(Sum(cs[..i + 1], RwSize))
    ensures root == Wrap(Sum(cs[..i + 1], RootFsSize))
  {
    TotalsStep(cs, i, totalRw, totalRoot);
    rw := Wrap(totalRw + cs[i].size.rwSize);
    root := Wrap(totalRoot + cs[i].size.rootFsSize);
  }

  /** The row output of one turn of the `printTable` loop. */
  method AppendRow(cs: seq<Container>, i: int, rows: seq<Row>) returns (rows': seq<Row>)
    requires Reportable(cs)
    requires 0 <= i < |cs|
    requires rows == RowsOf(cs[..i])
    ensures rows' == RowsOf(cs[..i + 1])
  {
    var row := FormatRow(cs[i]);
    RowsOfStep(cs, i);
    rows' := rows + [row];
  }

  /** The loop of `printTable`: one row per record in the current order,
      while the int64 accumulators `totalRw` and `totalRoot` add up the two
      sizes, wrapping on overflow. */
  method TableBody(cs: seq<Container>) returns (rows: seq<Row>, totalRw: int, totalRoot: int)
    requires Reportable(cs)
    ensures rows == RowsOf(cs)
    ensures totalRw == Wrap(Sum(cs, RwSize)) && totalRoot == Wrap(Sum(cs, RootFsSize))
  {
    rows := [];
    totalRw, totalRoot := 0, 0;
    for i := 0 to |cs|
      invariant rows == RowsOf(cs[..i])
      invariant totalRw == Wrap(Sum(cs[..i], RwSize))
      invariant totalRoot == Wrap(Sum(cs[..i], RootFsSize))
    {
      rows := AppendRow(cs, i, rows);
      totalRw, totalRoot := AddToTotals(cs, i, totalRw, totalRoot);
    }
    assert cs[..|cs|] == cs;
  }

  /** The aggregate block of a table formats the two totals it holds and
      their int64 combined sum. */
  predicate Aggregates(t: Table)
  {
    && IsInt64(t.totalRw) && IsInt64(t.totalRoot)
    && t.rwLine == Rendered(t.totalRw)
    && t.rootLine == Rendered(t.totalRoot)
    && t.combinedLine == Rendered(Wrap(t.totalRw + t.totalRoot))
  }

  /** What `printTable` prints for the records `cs` in this order: one row
      per record, the two int64 totals, and the aggregate block. */
  predicate Reports(t: Table, cs: seq<Container>)
    requires Reportable(cs)
  {
    && t.rows == RowsOf(cs)
    && t.totalRw == Wrap(Sum(cs, RwSize))
    && t.totalRoot == Wrap(Sum(cs, RootFsSize))
    && Aggregates(t)
  }

  /** The "Combined" line: the two totals added with int64 wrap-around,
      then formatted. */
  method FormatCombined(totalRw: int, totalRoot: int) returns (line: SizeText)
    requires IsInt64(totalRw) && IsInt64(totalRoot)
    ensures line == Rendered(Wrap(totalRw + totalRoot))
  {
    var combined := Wrap(totalRw + totalRoot);
    line := FormatSize(combined);
  }

  /** The aggregate block after the rows: the two totals and their int64
      combined sum. */
  method FormatTotals(totalRw: int, totalRoot: int) returns (rwLine: SizeText, rootLine: SizeText, combinedLine: SizeText)
    requires IsInt64(totalRw) && IsInt64(totalRoot)
    ensures rwLine == Rendered(totalRw)
    ensures rootLine == Rendered(totalRoot)
    ensures combinedLine == Rendered(Wrap(totalRw + totalRoot))
  {
    rwLine := FormatSize(totalRw);
    rootLine := FormatSize(totalRoot);
    combinedLine := FormatCombined(totalRw, totalRoot);
  }

  /** `printTable`: the rows, then the aggregate block formatting the two
      totals and their combined sum. */
  method PrintTable(cs: seq<Container>) returns (t: Table)
    requires Reportable(cs)
    ensures Reports(t, cs)
  {
    var rows, totalRw, totalRoot := TableBody(cs);
    var rwLine, rootLine, combinedLine := FormatTotals(totalRw, totalRoot);
    t := Table(rows, totalRw, totalRoot, rwLine, rootLine, combinedLine);
  }

  // ---------------------------------------------------------------------
  // The whole run

  /** What the program ends with: a fatal diagnostic, the empty notice, the
      JSON document of the records, or the table. */
  datatype Output =
    | Fatal(message: string)
    | NoContainers(notice: string)
    | Json(records: seq<Container>)
    | TableReport(table: Table)

  const NoContainersNotice: string := "No containers found."

  /** The part of `main` after the empty check: sort the records in place,
      then print them as JSON or as the table. */
  method SortAndRender(containers: seq<Container>, cfg: Config) returns (out: Output, ordered: seq<Container>)
    requires containers != [] && Reportable(containers)
    ensures |ordered| == |containers|
    ensures multiset(ordered) == multiset(containers) && Sorted(SortKeyOf(cfg.sortBy), ordered)
    ensures out.Json? <==> cfg.outputJson
    ensures out.Json? ==> out.records == ordered
    ensures out.TableReport? <==> !cfg.outputJson
    ensures out.TableReport? ==>
      && Reportable(ordered)
      && Reports(out.table, ordered)
      && out.table.totalRw == Wrap(Sum(containers, RwSize))
      && out.table.totalRoot == Wrap(Sum(containers, RootFsSize))
  {
    var a := new Container[|containers|](i requires 0 <= i < |containers| => containers[i]);
    assert a[..] == containers;
    SortContainers(a, cfg.sortBy);
    ordered := a[..];
    if cfg.outputJson {
      out := Json(ordered);
    } else {
      ReportablePermutation(containers, ordered);
      SumPermutation(containers, ordered, RwSize);
      SumPermutation(containers, ordered, RootFsSize);
      var table := PrintTable(ordered);
      out := TableReport(table);
    }
  }

  /** `main` after flag parsing: collect, stop early when empty, sort, then
      render. `ordered` is the record slice as it stands when rendered. */
  method Run(cfg: Config, podman: seq<string> -> CommandOutcome) returns (out: Output, ordered: seq<Container>)
    requires GetContainers(cfg.showAll, podman).Ok? ==> Reportable(GetContainers(cfg.showAll, podman).value)
    ensures GetContainers(cfg.showAll, podman).Err? <==> out.Fatal?
    ensures GetContainers(cfg.showAll, podman).Err? ==>
      out.message == "Error getting containers: " + ErrorText(GetContainers(cfg.showAll, podman).error)
    ensures out.NoContainers? <==> GetContainers(cfg.showAll, podman) == Ok([])
    ensures out.NoContainers? ==> out.notice == NoContainersNotice
    ensures GetContainers(cfg.showAll, podman).Ok? ==>
      && multiset(ordered) == multiset(GetContainers(cfg.showAll, podman).value)
      && Sorted(SortKeyOf(cfg.sortBy), ordered)
    ensures out.Json? <==> GetContainers(cfg.showAll, podman).Ok? && ordered != [] && cfg.outputJson
    ensures out.Json? ==> out.records == ordered
    ensures out.TableReport? <==> GetContainers(cfg.showAll, podman).Ok? && ordered != [] && !cfg.outputJson
    ensures out.TableReport? ==>
      && Reportable(ordered)
      && Reports(out.table, ordered)
      && out.table.totalRw == Wrap(Sum(GetContainers(cfg.showAll, podman).value, RwSize))
      && out.table.totalRoot == Wrap(Sum(GetContainers(cfg.showAll, podman).value, RootFsSize))
  {
    var collected := GetContainers(cfg.showAll, podman);
    if collected.Err? {
      out := Fatal("Error getting containers: " + ErrorText(collected.error));
      ordered := [];
      return;
    }
    var containers := collected.value;
    if |containers| == 0 {
      out := NoContainers(NoContainersNotice);
      ordered := containers;
      return;
    }
    out, ordered := SortAndRender(containers, cfg);
  }
}
