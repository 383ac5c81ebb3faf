# plot_xs: table-to-plot bookkeeping

`harvest/plot_xs.py` draws cross-section tables as ROOT histograms. There is
one optional denominator table and one or more numerator tables. Below the
main pad sits a ratio pad. The pad is always created, but no ratio curves are
drawn in it without a denominator.
This project models the pure bookkeeping around the ROOT calls and proves
what that bookkeeping guarantees:

- **Whitespace** (`whitespace.dfy`): Python 2's `str.split()` with no
  arguments. It has a functional definition, a scanning implementation proved
  equal to it, and its algebra: split at a blank, leading blanks, the
  round-trip with joining, and content preservation.
- **TableReader** (`table_reader.dfy`): `get_table_values`. A file's content
  is cut into lines as `for line in f` does. Each line gives tokens 0, 1 and
  2, each converted by an abstract `float`. The first bad line ends the read,
  with the `IndexError` or `ValueError` Python would raise.
- **Binning** (`binning.dfy`): the `TH1D` axis of a table. It has `len(m)`
  bins from `m[0]-dm/2` to `m[-1]+dm/2`, where `dm = m[1]-m[0]`. Every mass
  sits at the centre of its own bin exactly when the masses are evenly spaced.
- **Assembly** (`assembly.dfy`): the lists `hs` and `h_ratios`, legend names,
  loading tables from a file system given as data, and the script up to the
  filled lists.
- **Styling** (`styling.dfy`): line colours `idx+2 if idx<3 else idx+3`.
- **Ranges** (`ranges.dfy`): the running min/max from 99999/0 and the two
  `SetRangeUser` ranges.

ROOT objects are abstract. A histogram is the name, title, axis and table it
was built from. A ratio curve is the pair (numerator, denominator) that
`Clone().Divide()` was applied to. `GetMinimum()`/`GetMaximum()` come in as
`Extent` values. Numbers are exact `real`s.

Some behaviours of the code are easy to miss:
- Numerator `i` takes label `leg[i+1]` whether or not a denominator is given.
  Without a denominator, the first `-l` label is never used.
- Every line needs three tokens, blank lines included. A trailing blank line
  makes the read fail.
- `-d ''` is false in Python, so it counts as "no denominator".
- The running maximum starts at 0 and the running minimum at 99999. An empty
  list of curves therefore gives (99999, 0), not an error.

## Model

| member | source | states |
|---|---|---|
| Whitespace.SplitYieldsWords | harvest/plot_xs.py:17-19 | every token of `line.split()` is non-empty and free of whitespace |
| Whitespace.SplitAtSpace | harvest/plot_xs.py:17-19 | a whitespace character cuts a line into two parts whose tokens are simply concatenated |
| Whitespace.SplitLeadingSpace | harvest/plot_xs.py:17-19 | leading whitespace produces no empty token |
| Whitespace.SplitJoin | harvest/plot_xs.py:17-19 | tokens joined with blanks split back into the same tokens (round trip) |
| Whitespace.ConcatSplit | harvest/plot_xs.py:17-19 | the tokens hold exactly the non-whitespace characters of the line, in order |
| Whitespace.SplitScan | harvest/plot_xs.py:17-19 | the one-pass scanning loop yields exactly the tokens of the functional split |
| TableReader.ReadRow | harvest/plot_xs.py:17-19 | a line is accepted iff it has three tokens that all parse; the row is those three values; otherwise the error names the first missing column (and the token count), or the first of the three tokens that does not parse, all tokens before it parsing |
| TableReader.ReadRowIgnoresExtra | harvest/plot_xs.py:17-19 | tokens after the third never change what a line reads as |
| TableReader.ReadLines | harvest/plot_xs.py:11-20 | success iff every line is accepted; then the three lists are parallel, one entry per line, in file order, built from tokens 0, 1, 2; otherwise the error is that of the first bad line, all earlier lines being good |
| TableReader.ReadTable | harvest/plot_xs.py:11-20 | a file's content reads as a table iff every one of its lines is accepted; the table then has one parallel entry per line; a failure names a line of the file |
| TableReader.FileLines | harvest/plot_xs.py:15-16 | the lines put back together give the file; only the last line may lack its newline, and no line holds an inner newline |
| Binning.AxisFor | harvest/plot_xs.py:86-91 | an axis exists iff the table has two masses; it has one bin per mass, and the first and last masses sit half a spacing inside its ends |
| Binning.EvenlySpacedBins | harvest/plot_xs.py:109-115 | for evenly spaced masses every bin is `dm` wide and mass `k` is the centre of bin `k`, strictly inside it when `dm > 0` |
| Binning.CentredOnlyIfEvenlySpaced | harvest/plot_xs.py:109-115 | if every mass is its bin's centre, the masses are evenly spaced |
| Binning.CentredIffEvenlySpaced | harvest/plot_xs.py:86-91 | masses are bin centres exactly when they are evenly spaced |
| Assembly.Numerators | harvest/plot_xs.py:107-125 | one histogram per numerator in argument order, named `leg[k+1]` or else its path (the helper `LegendName`), with the title and the axis of its table (the helper `MakeHist`); fails iff some numerator has fewer than two rows, naming the first such path |
| Assembly.Assemble | harvest/plot_xs.py:83-134 | `hs` is the denominator's histogram (named `leg[0]` or its path, through `LegendName` and `MakeHist`) followed by the numerators'; `h_ratios` (built by the helper `RatiosTo`) is empty without a denominator, else has one entry per curve of `hs`, entry `i` being curve `i` over `hs[0]`, so the self-ratio comes first; the denominator is checked before any numerator, and past a usable denominator the error names the first numerator with fewer than two rows |
| Assembly.Load | harvest/plot_xs.py:11-20 | a table loads only from a path the file system holds and keeps that path as its name; a failure names the path, and is "file missing" exactly when the path is absent; a present file loads iff its content reads as a table, and then carries exactly that table |
| Assembly.LoadAll | harvest/plot_xs.py:58-63 | the numerator tables load iff each loads, and come back in argument order |
| Assembly.LoadAllFirstFailure | harvest/plot_xs.py:58-63 | a failed load reports the error of the first table that fails |
| Assembly.RunWith | harvest/plot_xs.py:45-134 | with any table loader: "no numerator" exactly when none is given; success exactly when a numerator is given and the denominator (if any) and every numerator load with at least two rows; numerator curve `k` comes after the denominator's and is built from the table loaded for `nums[k]`, named `leg[k+1]` or its path; the denominator's curve is named `leg[0]` or its path; the curve and ratio counts |
| Assembly.Run | harvest/plot_xs.py:45-134 | a run stops with "no numerator" exactly when none is given; a successful run has at least one curve, one more when a denominator path is given, and as many ratio curves as curves with a denominator, none without; every path it read is in the file system |
| Assembly.RunWithReadOrder | harvest/plot_xs.py:45-63 | every table is read before any row count is checked: a run fails with a read error exactly when some table does not load; a failed read of the denominator is the one reported; otherwise the reported read error is that of the first numerator that does not load, all earlier ones loading |
| Assembly.RunWithShortTable | harvest/plot_xs.py:83-125 | when every table loads but one is too short for a histogram, the run names the denominator if it is short, else the first short numerator, all earlier numerators having at least two rows |
| Assembly.RunErrorOrder | harvest/plot_xs.py:45-125 | for the file-system loader: a failed read of the denominator is what the run reports; a read error names the denominator or the first numerator that does not load; a short-table error names the denominator or the first short numerator, all earlier ones usable |
| Assembly.RunOkIff | harvest/plot_xs.py:45-134 | a run with a numerator succeeds exactly when the denominator (if given) and every numerator name a file that reads as a table of at least two rows |
| Assembly.RunCurves | harvest/plot_xs.py:58-125 | in a successful run, numerator curve `k` is filled from the table read from `nums[k]` and named `leg[k+1]` or that path; the denominator's curve is filled from its file and named `leg[0]` or its path |
| Styling.LineColour | harvest/plot_xs.py:143-144 | the colour is never white, black or yellow (0, 1, 5) and determines its position (injective) |
| Styling.ColourIncreasing | harvest/plot_xs.py:143-144 | later positions get strictly higher colour indices |
| Styling.CurveColours | harvest/plot_xs.py:142-144 | the main curves' colours avoid 0, 1 and 5 and strictly increase along `hs`, so no two curves share one |
| Styling.RatioColours | harvest/plot_xs.py:155-157 | the ratio curves' colours avoid 0, 1 and 5 and strictly increase along `h_ratios` |
| Styling.ColourOnto | harvest/plot_xs.py:156-157 | every colour other than 0, 1, 5 is used by exactly one position |
| Styling.RatioInCurveColour | harvest/plot_xs.py:142-157 | each ratio curve is drawn in the colour of the curve it was divided from, and no two main curves share a colour |
| Ranges.Aggregate | harvest/plot_xs.py:137-153 | `h_max` is the largest of 0 and every curve's maximum; `h_min` is the smallest of 99999 and every curve's minimum |
| Ranges.AggregateOrderFree | harvest/plot_xs.py:142-153 | the aggregated range does not depend on the order of the curves |
| Ranges.DisplayRanges | harvest/plot_xs.py:154-174 | the main range is half the aggregated minimum to twice the aggregated maximum; the ratio range is 0.9 and 1.1 times the ratio aggregates, and is set iff there are ratio curves |
| Ranges.CurvesFitInRanges | harvest/plot_xs.py:152-172 | with non-negative minima every curve lies inside the range of its pad |
| Ranges.RatioRangeIffDenominator | harvest/plot_xs.py:170-174 | a ratio range is set exactly when the run has a denominator |
| Ranges.TwoCurveExample | harvest/plot_xs.py:137-174 | curves (0.5, 1) and (1, 2) with ratios 1 and 2 give ranges (0.25, 4) and (0.9, 2.2) |

## Left out

- ROOT itself (`TH1D`, `FindBin`, `SetBinContent`, `SetBinError`, `Clone`, `Divide`, `GetMaximum`, `GetMinimum`) is foreign code. Histograms are the data they were built from, ratios are (numerator, denominator) pairs, and extents are inputs. Per-bin ratio values and error propagation live in `Divide` and are not stated.
- `float(...)` is an abstract partial parser. NaN and infinities are not representable, and IEEE rounding is not modelled: all arithmetic is exact `real`.
- File I/O is a map from path to content. A missing path is the only `open` failure modelled.
- The option parser is not modelled. `-d`, `-n`, `-l`, `-t` arrive as values. The "no numerator" message and `exit()` become the `NoNumerator` result.
- Canvas, pads, margins, label and title sizes, tick lengths, the legend box, drawing and `c.Print` are presentation with fixed constants.
- Two histograms with the same name replacing each other in ROOT's directory is ROOT behaviour and is not modelled.
- Ratio values are ROOT's `Divide`. The code adds nothing around it: there is no check that the two histograms have the same number of bins, no special marker for a zero denominator, and no exact "value 1, error 0" for the denominator divided by itself.
