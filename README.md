# podman container sizes, modelled in Dafny

A small Go command-line tool that reports the disk usage of podman
containers. It runs `podman ps --size --format json` (adding `-a` to include
stopped containers), decodes the JSON array of container records, and prints
a report. There are two variants of the program:

- the full one (`warm/podman_cont_sizes.go`) sorts the records in place by
  name, total size or read/write-layer size, then prints either a table with
  one row per container plus aggregate totals, or the records as JSON;
- the minimal one (`cold/podman_container_sizes.go`) lists running
  containers one block at a time, in the order podman returned them.

Both format byte counts the same way (`formatSize`): below 1024 as a decimal
integer followed by ` B`, otherwise divided by powers of 1024 with a unit
letter from `KMGTPE`. A scaled size is modelled by the integer part of the
quotient, the divisor and the letter; only the fractional digit of `%.1f` is
not modelled.

The model has four modules:

- `SizeFormat` (sizes.dfy): the integer part of `formatSize` as a method with
  its loop (`FormatSize`), the function it is proved against (`Rendered`),
  and lemmas about the chosen power of 1024, the int64 bound on the exponent,
  the unit letters, and the `%d` text of small counts; also Go's `+` on
  int64 (`Wrap`), which wraps around modulo 2^64 on overflow.
- `StringOrder` (stringorder.dfy): Go's `<` on strings, proved to be a strict
  total order and equal to the textbook "first difference" definition.
- `Containers` (containers.dfy): the full variant: records, `getContainerName`,
  the argument list and outcome of `getContainers`, `sortContainers` as an
  in-place sort of an array, the table with its totals loop, and `main`.
- `ColdReport` (cold.dfy): the minimal variant's `main`, including the panic
  that `c.Names[0]` causes on a container without names.

Running `podman`, decoding JSON and parsing flags are outside the model: a
run takes the flags as a `Config` value and the subprocess as a function
`podman` from argument list to outcome (failed, malformed output, or the
decoded records). Printing is modelled as the values that are printed, with
scaled sizes as described above.

Sizes are the `int64` fields of the decoded record: the model keeps them as
integers and states that range as the precondition of the operations that
format them. Every `+` the tool performs on sizes (the per-row total, the
two running totals, the combined total and the `size` comparator) is Go's
int64 addition, which wraps around on overflow, and is modelled as such.
`formatSize` also accepts negative counts (printed as `-5 B`). The minimal variant is not a strict subset of the full one: it
panics on a container without names, and it prints "No running containers
found." instead of "No containers found.".

## Model

| member | source | states |
|---|---|---|
| `SizeFormat.Wrap` | warm/podman_cont_sizes.go:137-138 | Go's int64 `+`: the result is always an int64, and it is the exact sum whenever that fits |
| `SizeFormat.WrapIsMod` | warm/podman_cont_sizes.go:137-138 | The wrapped value is the exact value reduced modulo 2^64 into the range from -2^63 to 2^63-1 |
| `SizeFormat.WrapAdd` | warm/podman_cont_sizes.go:137-138 | Adding to a wrapped running total and wrapping again gives the wrapped exact sum, so wrapping at every step ends where wrapping once does |
| `SizeFormat.FormatSize` | cold/podman_container_sizes.go:20-31 | The `formatSize` loop (identical in warm/podman_cont_sizes.go:108-119) ends with exactly `Rendered(bytes)`: `%d B` below 1024; otherwise the integer part `bytes/div` of the printed magnitude (between 1 and 1023), `div = 1024^(exp+1)` with `exp <= 5`, and the letter `"KMGTPE"[exp]`; the loop never overflows int64 |
| `SizeFormat.Rendered` | warm/podman_cont_sizes.go:108-119 | The formatted size is plain text exactly when the count is below 1024 |
| `SizeFormat.RenderedBand` | cold/podman_container_sizes.go:25-30 | For a count of at least 1024: `exp <= 5`, `div = 1024^(exp+1)`, `1024^(exp+1) <= bytes < 1024^(exp+2)`, so the integer part `whole = bytes/div` of the printed magnitude lies in `1..1023`; `exp` is the ONLY exponent with that band and the letter is `"KMGTPE"[exp]` |
| `SizeFormat.ExponentBounded` | cold/podman_container_sizes.go:26-30 | Every int64 count gives an exponent of at most 5 and a divisor below 2^63, so the string index and `div *= unit` are safe |
| `SizeFormat.FirstUnits` | cold/podman_container_sizes.go:26-30 | K for 1024..1048575, M for 1048576..1024^3-1, G for 1024^3..1024^4-1 |
| `SizeFormat.UnitExponentRange` | cold/podman_container_sizes.go:26-29 | The number of further divisions places the first quotient between two consecutive powers of 1024 |
| `SizeFormat.UnitExponentUnique` | cold/podman_container_sizes.go:26-29 | No other number of divisions does |
| `SizeFormat.DivUnitBetween` | cold/podman_container_sizes.go:25-26 | Dividing by 1024 moves a count exactly one band of powers of 1024 down, both ways |
| `SizeFormat.Decimal` | warm/podman_cont_sizes.go:110-112 | Go's `%d` of a signed count: never empty, and it starts with `-` exactly for a negative count (the digits follow; `DecimalRoundTrip` reads them back) |
| `SizeFormat.DecimalRoundTrip` | cold/podman_container_sizes.go:22-24 | The `%d` text of any count, negative ones included, reads back as that count |
| `SizeFormat.DigitsRoundTrip` | cold/podman_container_sizes.go:23 | The digits of a natural number read back as the number |
| `SizeFormat.DigitsNoLeadingZero` | cold/podman_container_sizes.go:23 | The digits start with `0` only for zero |
| `StringOrder.Less` | warm/podman_cont_sizes.go:96 | Go's `name1 < name2`, compared position by position: it never holds for equal strings, and a proper prefix always sorts first |
| `StringOrder.LessIsFirstDifferenceSmaller` | warm/podman_cont_sizes.go:93-97 | Go's string `<` holds exactly when the left string is a proper prefix, or is smaller at the first differing position |
| `StringOrder.LessIrreflexive` | warm/podman_cont_sizes.go:96 | No name sorts before itself |
| `StringOrder.LessAsymmetric` | warm/podman_cont_sizes.go:96 | Two names never sort before each other |
| `StringOrder.LessTransitive` | warm/podman_cont_sizes.go:96 | The name comparison is transitive |
| `StringOrder.LessTrichotomous` | warm/podman_cont_sizes.go:96 | Two different names are always ordered one way or the other |
| `StringOrder.NotLessIsLessOrEqual` | warm/podman_cont_sizes.go:96 | "b is not below a" is the same as "a <= b" |
| `Containers.DisplayName` | warm/podman_cont_sizes.go:101-106 | The first name when there is one, the literal `<unnamed>` otherwise |
| `Containers.PodmanArgs` | warm/podman_cont_sizes.go:62-65 | Always starts `ps --size --format json`; a fifth argument `-a` is present exactly when `showAll` |
| `Containers.ErrorText` | warm/podman_cont_sizes.go:69-76 | The two `%w` wrappers: the message is longer than the cause and ends with it, and its first letter is `p` (from `podman command failed: `, not `failed to parse JSON: `) exactly for a failed run |
| `Containers.ErrorTextInjective` | warm/podman_cont_sizes.go:69-76 | Different errors never give the same message: the kind and the cause can be read back from it |
| `Containers.GetContainers` | warm/podman_cont_sizes.go:61-79 | Succeeds exactly when podman ran and its output decoded, with those records; a failed run is a subprocess error and bad output a decode error, each carrying the cause |
| `Containers.SortKeyOf` | warm/podman_cont_sizes.go:82-98 | `size` selects the total-size order, `rwsize` the RW order, and every other string, `name` included, the name order |
| `Containers.Before` | warm/podman_cont_sizes.go:84-97 | The three `less` functions handed to `sort.Slice`: larger RootFsSize+RwSize (int64 sum, wrapping) first, larger RwSize first, or the smaller display name under Go's `<`; none puts a record before itself |
| `Containers.BeforeByName` | warm/podman_cont_sizes.go:93-97 | By name, a record goes first exactly when its display name is a proper prefix of the other's or has the smaller character at the first difference |
| `Containers.BeforeIrreflexive` | warm/podman_cont_sizes.go:84-97 | No comparator puts a record before itself |
| `Containers.BeforeTransitive` | warm/podman_cont_sizes.go:84-97 | Each of the three comparators is transitive |
| `Containers.SortedMeans` | warm/podman_cont_sizes.go:81-98 | Sorted under `size` means non-increasing int64 RootFsSize+RwSize, under `rwsize` non-increasing RwSize, under name non-decreasing display names, in both directions |
| `Containers.IndexOfFirst` | warm/podman_cont_sizes.go:81-98 | Finds a record in the unsorted part that no other record there goes before |
| `Containers.SelectStep` | warm/podman_cont_sizes.go:81-98 | Moving such a record to the front of the unsorted part keeps the contents and extends the sorted prefix by one |
| `Containers.SortContainers` | warm/podman_cont_sizes.go:81-98 | In place: the array is a permutation of its old contents and sorted under the selected comparator, spelt out per key |
| `Containers.SumAppend` | warm/podman_cont_sizes.go:137-138 | The running sum of a concatenation is the sum of the parts |
| `Containers.SumRemove` | warm/podman_cont_sizes.go:137-138 | Removing one record removes its size from the sum |
| `Containers.SumPermutation` | warm/podman_cont_sizes.go:126-144 | The totals do not depend on the order of the records |
| `Containers.NonNegativeSum` | warm/podman_cont_sizes.go:137-138 | Non-negative sizes give a non-negative total |
| `Containers.ExactTotals` | warm/podman_cont_sizes.go:137-144 | When all sizes are non-negative and their aggregate fits in int64, no addition wraps: both totals and the combined value are the exact sums |
| `Containers.PrefixStep` | warm/podman_cont_sizes.go:137-138 | Each turn adds exactly the record's size |
| `Containers.TotalsStep` | warm/podman_cont_sizes.go:128-139 | Adding a record's sizes to the wrapped running totals gives the wrapped sums over one more record |
| `Containers.ReportablePermutation` | warm/podman_cont_sizes.go:43-48 | Sorting keeps every record's sizes within int64 |
| `Containers.RowsOf` | warm/podman_cont_sizes.go:128-139 | One row per record; by its definition row i is record i's display name, image, and formatted RW size, root size and int64 total |
| `Containers.RowsOfStep` | warm/podman_cont_sizes.go:128-139 | Printing one more record appends its row |
| `Containers.FormatRow` | warm/podman_cont_sizes.go:129-132 | The cells of a row are the display name, the image, and the formatted RW size, root size and their int64 sum (wrapping on overflow) |
| `Containers.AppendRow` | warm/podman_cont_sizes.go:129-135 | One turn of the loop extends the printed rows to those of one more record |
| `Containers.AddToTotals` | warm/podman_cont_sizes.go:137-138 | One turn of the loop moves `totalRw` and `totalRoot` to the wrapped sums over one more record |
| `Containers.TableBody` | warm/podman_cont_sizes.go:126-139 | The loop of `printTable`: one row per record in order, and `totalRw`, `totalRoot` end as Go's int64 accumulators do: the sums of all RwSize and all RootFsSize, wrapped into int64 |
| `Containers.FormatTotals` | warm/podman_cont_sizes.go:141-144 | The aggregate block: `Rendered` of the RW total, of the root total, and of their int64 combined sum |
| `Containers.FormatCombined` | warm/podman_cont_sizes.go:144 | The "Combined" line formats the two totals added with int64 wrap-around |
| `Containers.PrintTable` | warm/podman_cont_sizes.go:121-145 | The rows follow the records in order; the accumulators end equal to the sums of all RwSize and all RootFsSize wrapped into int64; the three aggregate lines format those totals and their int64 combined sum |
| `Containers.SortAndRender` | warm/podman_cont_sizes.go:43-49 | After the empty check: the records end as a sorted permutation of the collected ones, printed as JSON in that order exactly when `-json` is set, otherwise as the table of the sorted records, whose totals are the int64-wrapped sums over the collected records and whose aggregate lines format them |
| `Containers.Run` | warm/podman_cont_sizes.go:31-50 | A collection error is fatal with its wrapped message; an empty list stops with the notice "No containers found." before sorting or printing; otherwise the records are sorted into a permutation, then printed as JSON in that order or as the table whose totals equal the int64-wrapped sums over the collected records and whose three aggregate lines format those totals and their int64 combined sum |
| `ColdReport.EntriesOf` | cold/podman_container_sizes.go:50-56 | One printed block per record |
| `ColdReport.EntriesOfStep` | cold/podman_container_sizes.go:50-56 | Printing one more record appends its block |
| `ColdReport.EntriesOfAt` | cold/podman_container_sizes.go:50-56 | Block i shows record i's first name (the full variant's display name), image and two formatted sizes |
| `ColdReport.FormatEntry` | cold/podman_container_sizes.go:51-54 | The block of one record holds `Names[0]`, the image and the formatted RW and root sizes |
| `ColdReport.Run` | cold/podman_container_sizes.go:33-57 | Runs the fixed query without `-a`; a failed run or bad output aborts with its message; no records gives the notice "No running containers found."; a record without names panics exactly when one exists, at the first such record, after printing the blocks of the records before it; otherwise every record gets its block in order |

## Left out

- Running `podman` and capturing its output, and `encoding/json` decoding and encoding: the subprocess and the decoder together are a parameter `podman` that maps an argument list to an outcome; the JSON document of `printJSON` is modelled as the record list it encodes.
- Flag parsing with the `flag` package: `Config` is taken as a value.
- SizeFormat.FormatSize: the fractional digit of the `%.1f` float rendering is not modelled: a scaled size keeps the integer part of `bytes/div`, the divisor, the exponent and the unit letter, but not the rounding to one decimal, which can carry into the integer part (2047 bytes has integer part 1 and prints "2.0 KB"; 1048575 bytes prints "1024.0 KB").
- `fmt.Printf` column padding, the header, the separator line and the labels of the aggregate block: only the values printed are modelled.
- Tie order and stability of `sort.Slice`: only sortedness and permutation are stated; the model sorts by selection, not by Go's pattern-defeating quicksort.
- `log.Fatalf` exits are an output value carrying the message; the process exit status is not modelled. A runtime panic is the `Panicked` outcome.
- One record type serves both variants: the minimal variant's record has no `Status` field, which it never reads.
- Strings are sequences of Unicode scalar values: Go compares the UTF-8 bytes, which orders valid UTF-8 the same way; invalid UTF-8 in names is not modelled.
