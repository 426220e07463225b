# jvmkill heap-census agent: option parsing and the class histogram

This project models three sequential pieces of the jvmkill agent in Dafny and
proves properties of each.

- **The C++ option parser** (module `ParametersParser`, `parametersparser.dfy`).
  `ParametersParser::parse` starts from the defaults count=0, time=1 and
  printHeapHistogram=0. It walks a comma-separated `key=value` string the way
  POSIX `getsubopt` does. For a recognised key, an empty value resets the field
  to its default and any other value goes through `atoi`. The program calls
  `abort()` for a recognised key without `=` and for an unknown suboption; the
  model returns an error value instead. `toHex` renders a byte string as
  upper-case hexadecimal.
- **The Rust option parser** (module `AgentParms`, `parms.dfy`).
  `AgentParameters::parseParameters` handles five keys, with defaults time=1,
  count=0, printHeapHistogram=0, heapHistogramMaxEntries=100 and
  printMemoryUsage=1. The two flags are packed as booleans (`!= 0`). Empty
  comma-separated pieces are skipped. Each piece is split at its first `=`.
  An empty value keeps the current value; any other value must parse as a
  `usize`. The three panics ("invalid option", "not a number", "unknown
  option") become error values. Each unit test of the module is restated as a
  lemma.
- **The class histogram** (modules `HeapStatsTable` and `HeapStatsReport`,
  `heapstats_table.dfy` and `heapstats_report.dfy`, with the four tests in
  `heapstats_tests.dfy`). `HeapStatsHashtable` is a class whose
  `RecordObject` updates a map from class name to instance count and total
  bytes. `Print` returns the report text:
  - a header `| Instance Count | Total Bytes | Class Name |`;
  - one line per class, by descending total bytes;
  - every column left-justified and space-padded to the larger of its header
    label and its widest cell.

  The report is a pure function of the rows. The four tests of
  `heapstatstests.c++` are methods that build the table, record the objects
  and prove that `Print` returns the expected text exactly.

Shared helpers live in `wrappers.dfy` (`Option`, `Result`) and `text.dfy`
(splitting at a character, decimal digits and decimal rendering).

Differences between the two parsers, as the code shows them:

- An empty value (`time=`) resets the C++ field to its default. The Rust
  parser keeps the value it had, which is the default only if no earlier
  piece set it.
- An empty suboption (a leading or doubled comma) makes the C++ parser reach
  its unknown-suboption branch, because no table entry is the empty name. A
  single trailing comma ends the C++ loop with no further suboption. The Rust
  parser skips every empty piece.
- C++ `atoi` skips leading white space, accepts a sign, stops at the first
  non-digit and yields 0 when there are no digits; none of these is an error.
  Rust `parse::<usize>` accepts only an optional `+` followed by digits whose
  value fits in 64 bits.

## Model

| member | source | states |
|---|---|---|
| ParametersParser.WithField | parametersparser.c++:84-97 | setting one suboption's field gives it the new value and leaves the other two fields as they were |
| ParametersParser.SkipSpaces | parametersparser.c++:86 | what remains is a suffix of the input; everything dropped is white space; what remains does not start with white space |
| ParametersParser.AtoiDigits | parametersparser.c++:86 | `atoi` of a digit run followed by a non-digit is the value of the digits |
| ParametersParser.AtoiNatToString | parametersparser.c++:91 | `atoi` reads back the decimal rendering of any natural number |
| ParametersParser.AtoiNonNumeric | parametersparser.c++:96 | a value starting with a character that is not white space, a digit or a sign gives 0, not an error |
| ParametersParser.LookupToken | parametersparser.c++:37-42 | a name is recognised exactly when it is one of the three table entries, and then names that suboption |
| ParametersParser.ParseSuboptParts | parametersparser.c++:83 | getsubopt's name is the suboption before its first `=`, its value everything after; with no `=` the value is NULL |
| ParametersParser.Subopts | parametersparser.c++:82-83 | no suboption handed to the switch contains a comma |
| ParametersParser.SuboptsAreSplit | parametersparser.c++:82-83 | the suboptions are exactly the comma-separated pieces, except that one trailing comma adds none and the empty string has none |
| ParametersParser.CheckValueProvided | parametersparser.c++:44-49 | fails exactly when the value is NULL, and then reports that suboption as missing its value |
| ParametersParser.ClassifySetting | parametersparser.c++:84-97 | `name=v` for a recognised name assigns `v` to that suboption |
| ParametersParser.ClassifyMissingValue | parametersparser.c++:83-95 | a recognised name without `=` aborts with a missing-value error for that suboption |
| ParametersParser.ClassifyUnknown | parametersparser.c++:99-107 | a suboption whose name is not in the table aborts, reporting the whole suboption |
| ParametersParser.GetSubopt | parametersparser.c++:83 | one getsubopt call: the suboption it returns is the first of the remaining text, the rest holds the others, its name and value are those getsubopt reports, and the lookup result is that of the table |
| ParametersParser.Parse | parametersparser.c++:68-113 | the `while` loop over getsubopt and the `switch` yield exactly the result of the left-to-right specification (`ParseSpec`) |
| ParametersParser.ParseNoOptions | parametersparser.c++:68-75 | a NULL options argument, or an empty string, gives count=0, time=1, printHeapHistogram=0 |
| ParametersParser.ParseSingle | parametersparser.c++:84-97 | one `name=v` sets that field to its default when `v` is empty and to `atoi(v)` otherwise; the other fields keep their defaults |
| ParametersParser.ParseMissingValue | parametersparser.c++:44-49 | a recognised name without `=` is an error, not a result |
| ParametersParser.ParseEmptyValueResets | parametersparser.c++:86-96 | appending `name=` to a successful parse resets that field to its default and changes nothing else |
| ParametersParser.ParseLaterOverrides | parametersparser.c++:82-110 | appending `name=v` to a parse changes only that field, to the value `v` gives it, or keeps the earlier error |
| ParametersParser.ParseLastSettingWins | parametersparser.c++:82-110 | when no suboption aborts, the parse succeeds; each field holds the value of the last suboption naming it, or its default when none does |
| ParametersParser.ClassifyAllFails | parametersparser.c++:82-110 | the loop over any list of suboptions fails exactly when one of them is unknown or lacks its value |
| ParametersParser.ParseFails | parametersparser.c++:99-108 | the parse fails exactly when some suboption aborts; no partial result is returned |
| ParametersParser.ParseFirstError | parametersparser.c++:99-108 | the error reported is that of the first suboption that aborts |
| ParametersParser.RunFails | parametersparser.c++:82-110 | the loop fails exactly when some step aborts |
| ParametersParser.RunFirstAbort | parametersparser.c++:82-110 | the loop's error is that of its first aborting step |
| ParametersParser.RunValues | parametersparser.c++:82-110 | with no abort, a field named by no step keeps its value, and a named field holds the value of its last step |
| ParametersParser.ParseLeadingComma | parametersparser.c++:82-107 | a leading comma makes the first suboption empty, which is reported as an unknown suboption |
| ParametersParser.ParseTrailingComma | parametersparser.c++:82-83 | one trailing comma changes nothing |
| ParametersParser.ParseDocumentedForm | parametersparser.c++:68-113 | `count=n,time=m,printHeapHistogram=k` sets the three fields to n, m and k |
| ParametersParser.Hex | parametersparser.c++:51-63 | the rendering is twice as long as the input, and every character is one of `0-9A-F` |
| ParametersParser.HexAt | parametersparser.c++:55-59 | position 2i holds the hex digit of byte i's high nibble and position 2i+1 that of its low nibble |
| ParametersParser.HexCharAt | parametersparser.c++:27 | entry i of `HEX_CHARS` is the upper-case hex digit of value i |
| ParametersParser.HexRoundTrip | parametersparser.c++:51-63 | decoding the rendering gives back the input bytes, so no two inputs render alike |
| ParametersParser.CStringLength | parametersparser.c++:52 | `strlen`: the index of the first NUL, before which no byte is NUL |
| ParametersParser.ToHex | parametersparser.c++:51-63 | a new buffer of 2·len+1 characters, len being the `strlen` of the argument: the rendering of the bytes before the NUL, then a NUL |
| AgentParms.ScanDigitsValue | src/agentcontroller/parms.rs:38-42 | scanning succeeds exactly for an all-digit string whose value fits in a `usize`, and yields that value |
| AgentParms.ScanLeadingNonDigit | src/agentcontroller/parms.rs:38-42 | a string starting with a non-digit is an invalid digit, whatever follows |
| AgentParms.ParseUsizeAccepts | src/agentcontroller/parms.rs:38-42 | `parse::<usize>` gives n exactly for an optional `+` and a non-empty digit string of value n that fits |
| AgentParms.ParseUsizeNatToString | src/agentcontroller/parms.rs:38-42 | the decimal rendering of a `usize`, with or without `+`, parses back to it |
| AgentParms.ParseUsizeNonNumeric | src/agentcontroller/parms.rs:38-42 | a value starting with anything but a digit or `+` is an invalid digit |
| AgentParms.KeyOf | src/agentcontroller/parms.rs:37-43 | exactly the five key names are recognised, each naming its own key |
| AgentParms.Set | src/agentcontroller/parms.rs:38-42 | assigning a key's local changes that local and no other |
| AgentParms.Pack | src/agentcontroller/parms.rs:47-53 | the three numbers are copied from the locals, and each flag is true exactly when its number is not 0 |
| AgentParms.SplitN2 | src/agentcontroller/parms.rs:33 | `splitn(2, '=')` gives two tokens exactly when there is an `=`; the first holds no `=`; joining them with `=` gives back the option |
| AgentParms.ClassifySetting | src/agentcontroller/parms.rs:37-44 | `key=v` for a known key is skipped when `v` is empty, fails with "not a number" when `v` does not parse, and otherwise assigns the number |
| AgentParms.ParseParameters | src/agentcontroller/parms.rs:14-54 | the loop over the pieces and the final struct literal yield exactly the left-to-right specification (`ParseSpec`) |
| AgentParms.RunFails | src/agentcontroller/parms.rs:29-45 | the loop fails exactly when some piece fails |
| AgentParms.RunFirstError | src/agentcontroller/parms.rs:29-45 | the error is that of the first failing piece |
| AgentParms.RunValues | src/agentcontroller/parms.rs:29-45 | with no failure, a local no piece assigns keeps its value, and an assigned local holds the value of the last piece assigning it |
| AgentParms.RunAppend | src/agentcontroller/parms.rs:29-45 | running two lists of pieces is running the first, then the second from where it stopped, unless the first failed |
| AgentParms.SettingsAppend | src/agentcontroller/parms.rs:28-45 | joining two option strings with a comma runs the second from the result of the first |
| AgentParms.SplitLeadingComma | src/agentcontroller/parms.rs:28 | a leading comma adds one empty piece in front |
| AgentParms.ParseSkipsEmptyPieces | src/agentcontroller/parms.rs:28-32 | a doubled, leading or trailing comma does not change the result |
| AgentParms.SettingsAppendOption | src/agentcontroller/parms.rs:28-45 | appending one more piece runs just that piece after the earlier ones, unless they failed |
| AgentParms.SettingsLaterOverrides | src/agentcontroller/parms.rs:29-45 | appending `key=v` changes only that key's local: to the parsed number, or not at all when `v` is empty, or fails with "not a number" |
| AgentParms.SettingsSingle | src/agentcontroller/parms.rs:29-45 | one `key=v` sets only that key's local, or keeps every default when `v` is empty |
| AgentParms.ParseSetting | src/agentcontroller/parms.rs:29-53 | one `key=v` gives the defaults with that key's field set from `v` |
| AgentParms.ParseEmpty | src/agentcontroller/parms.rs:17-53 | the empty string gives time=1, count=0, no heap histogram, 100 entries, memory usage on |
| AgentParms.ParseUnknownKey | src/agentcontroller/parms.rs:43 | an unknown key fails with "unknown option" naming the key, whatever its value |
| AgentParms.ParseNoEquals | src/agentcontroller/parms.rs:33-34 | a non-empty piece without `=` fails with "invalid option" naming the piece |
| AgentParms.ParsesTimeThreshold | src/agentcontroller/parms.rs:69-73 | `time=99` sets the time threshold to 99 |
| AgentParms.ParsesTimeThresholdDefault | src/agentcontroller/parms.rs:75-79 | `time=` keeps the default 1 |
| AgentParms.ParsesTimeThresholdInvalid | src/agentcontroller/parms.rs:80-86 | `time=forever` fails with "not a number" |
| AgentParms.ParsesCountThreshold | src/agentcontroller/parms.rs:88-92 | `count=88` sets the count threshold to 88 |
| AgentParms.ParsesCountThresholdDefault | src/agentcontroller/parms.rs:94-98 | `count=` keeps the default 0 |
| AgentParms.ParsesCountThresholdInvalid | src/agentcontroller/parms.rs:100-105 | `count=zero` fails with "not a number" |
| AgentParms.ParsesPrintHeapHistogramOn | src/agentcontroller/parms.rs:107-111 | `printHeapHistogram=1` turns the histogram on |
| AgentParms.ParsesPrintHeapHistogramOff | src/agentcontroller/parms.rs:113-117 | `printHeapHistogram=0` leaves it off |
| AgentParms.ParsesPrintHeapHistogramDefault | src/agentcontroller/parms.rs:119-123 | `printHeapHistogram=` keeps the default, off |
| AgentParms.ParsesPrintHeapHistogramInvalid | src/agentcontroller/parms.rs:125-130 | `printHeapHistogram=true` fails with "not a number" |
| AgentParms.ParsesHeapHistogramMaxEntries | src/agentcontroller/parms.rs:132-136 | `heapHistogramMaxEntries=200` sets 200 entries |
| AgentParms.ParsesHeapHistogramMaxEntriesUnlimited | src/agentcontroller/parms.rs:138-142 | `heapHistogramMaxEntries=0` sets 0 (unlimited) |
| AgentParms.ParsesHeapHistogramMaxEntriesDefault | src/agentcontroller/parms.rs:144-148 | `heapHistogramMaxEntries=` keeps the default 100 |
| AgentParms.ParsesHeapHistogramMaxEntriesInvalid | src/agentcontroller/parms.rs:150-155 | `heapHistogramMaxEntries=unlimited` fails with "not a number" |
| AgentParms.ParsesPrintMemoryUsageOn | src/agentcontroller/parms.rs:157-161 | `printMemoryUsage=1` turns memory usage on |
| AgentParms.ParsesPrintMemoryUsageOff | src/agentcontroller/parms.rs:163-167 | `printMemoryUsage=0` turns it off |
| AgentParms.ParsesPrintMemoryUsageDefault | src/agentcontroller/parms.rs:169-173 | `printMemoryUsage=` keeps the default, on |
| AgentParms.ParsesPrintMemoryUsageInvalid | src/agentcontroller/parms.rs:175-180 | `printMemoryUsage=false` fails with "not a number" |
| AgentParms.UnknownOptionTest | src/agentcontroller/parms.rs:182-186 | `noSuch=0` fails with "unknown option: noSuch" |
| AgentParms.InvalidOptionTest | src/agentcontroller/parms.rs:188-192 | `noequals` fails with "invalid option: noequals" |
| Text.SplitJoin | src/agentcontroller/parms.rs:28 | splitting at a separator undoes joining pieces that do not contain it |
| Text.JoinSplit | src/agentcontroller/parms.rs:28 | joining the pieces of a split with the separator gives back the string |
| Text.DigitsRoundTrip | heapstatstests.c++:113-115 | a decimal rendering without a leading zero is the rendering of its own value |
| Text.NatToString | heapstatstests.c++:95-97 | counts and totals are written in decimal digits only, without leading zeros |
| HeapStatsTable.TallyCounts | heapstatstests.c++:90-97 | a class is in the table exactly when some record names it; its entry holds the number of those records and the sum of their sizes |
| HeapStatsTable.TallyKeys | heapstatstests.c++:90-97 | the table's classes are the classes recorded |
| HeapStatsTable.FirstSeenIsTheTable | heapstatstests.c++:90-97 | the row order lists each class of the table once and nothing else |
| HeapStatsTable.RowsAreTheClasses | heapstatstests.c++:90-97 | one row per recorded class, none twice, each with its record count and byte sum |
| HeapStatsTable.PrintedLines | heapstatstests.c++:95-97 | what `print` writes for the records is one header line and one line per class, the classes in non-increasing order of total bytes and forming a permutation of the rows |
| HeapStatsTable.CollectRows | heapstatstests.c++:93-97 | the walk over the table yields one row per class in the given order, each holding that class's count and total |
| HeapStatsTable.HeapStatsHashtable.constructor | heapstatstests.c++:52-53 | a new table holds no records |
| HeapStatsTable.HeapStatsHashtable.RecordObject | heapstatstests.c++:90-92 | one more record of the class is counted, and the table still agrees with the records so far |
| HeapStatsTable.HeapStatsHashtable.Print | heapstatstests.c++:93-97 | the text printed is the report of the records so far |
| HeapStatsReport.InsertSorted | heapstatstests.c++:109-115 | inserting into rows sorted by descending bytes keeps them sorted |
| HeapStatsReport.InsertPermutes | heapstatstests.c++:109-115 | inserting adds exactly that row to the multiset |
| HeapStatsReport.SortRowsProperties | heapstatstests.c++:109-115 | the printed rows are in non-increasing order of total bytes and are a permutation of the table's rows, whatever the recording order |
| HeapStatsReport.InsertKeepsTies | heapstatstests.c++:109-115 | inserting a row puts it ahead of the rows with its own total and moves no other row past one of them |
| HeapStatsReport.SortRowsStable | heapstatstests.c++:109-115 | the sort is stable: the rows with any one total appear in the report in the order they were given |
| HeapStatsReport.MaxCellWidthIsMax | heapstatstests.c++:76-78 | the widest cell of a column is at least as wide as every cell and is the width of one of them |
| HeapStatsReport.ColumnWidthIsMax | heapstatstests.c++:76-78 | a column is as wide as the larger of its header label and its widest cell |
| HeapStatsReport.Pad | heapstatstests.c++:76-78 | a padded cell starts with the cell's text, is followed only by spaces, and is as long as the larger of the text and the width, so nothing is truncated |
| HeapStatsReport.LineLength | heapstatstests.c++:59-60 | a line whose cells fit is as long as its three columns plus the eleven separator characters |
| HeapStatsReport.LineLayout | heapstatstests.c++:59-60 | a line is `"| " + c1 + " | " + c2 + " | " + c3 + " |\n"`, each cell left-justified in its column |
| HeapStatsReport.ReportLines | heapstatstests.c++:76-78 | the report is the header line and then one line per row, the rows in sorted order |
| HeapStatsReport.ReportFits | heapstatstests.c++:113-115 | every cell, header included, fits its column |
| HeapStatsReport.ReportAligned | heapstatstests.c++:76-78 | all lines of the report have the same length, so the columns line up |
| HeapStatsReport.EmptyHeaderLine | heapstatstests.c++:59 | the header labels are "Instance Count", "Total Bytes" and "Class Name" |
| HeapStatsReport.EmptyReport | heapstatstests.c++:59 | with no classes only the header is printed, each column as wide as its label |
| HeapStatsTests.SingleRecordReport | heapstatstests.c++:56-60 | one record of `java.lang.Object`, 24 bytes, gives the test's two-line text |
| HeapStatsTests.TestSingleRecordAndPrint | heapstatstests.c++:51-65 | the test's table prints exactly its expected text |
| HeapStatsTests.MultiRecordReport | heapstatstests.c++:72-78 | two classes print the larger total first, the columns widened to the longer name |
| HeapStatsTests.TestMultiRecordAndPrint | heapstatstests.c++:67-83 | the test's table prints exactly its expected text |
| HeapStatsTests.DuplicateRecordReport | heapstatstests.c++:90-97 | two records of one class are summed into one line with count 2 and 50 bytes |
| HeapStatsTests.TestDuplicateRecordAndPrint | heapstatstests.c++:85-102 | the test's table prints exactly its expected text |
| HeapStatsTests.SortRecordReport | heapstatstests.c++:109-115 | a six-digit total is sorted first and widens nothing beyond the header |
| HeapStatsTests.TestSortAndPrint | heapstatstests.c++:104-120 | the test's table prints exactly its expected text |

## Left out

- The `fprintf(stderr, ...)` diagnostics (parametersparser.c++:46, 101-106) are not modelled; the error value carries the offending suboption or key instead.
- `abort()` and the Rust panics: the model returns an error value where the program stops the process.
- `CStr::from_ptr` and the UTF-8 `unwrap` (src/agentcontroller/parms.rs:23-27) are foreign calls; the model takes the options as a string.
- Darwin's `getsubopt` hands back a value without the option name for an unknown suboption; the model follows glibc, which hands back the whole suboption.
- ParametersParser.Atoi: does not model overflow of C `int`, because `atoi` leaves it undefined; the fields are unbounded integers.
- `usize` is taken to be 64 bits wide (`USIZE_MAX` in `parms.dfy`).
- ParametersParser.ToHex: `toHex` reads a NUL-terminated `char*`; the model takes the memory it points to as a byte sequence holding a NUL, and it does not model the buffer being leaked.
- The `new char[...]` copy of the options string (parametersparser.c++:77) and its leak are not modelled; getsubopt's in-place cutting of that copy is modelled as moving along the string.
- The `parametersparser.h` header is not part of this model, so the field types are read from the code: `atoi` results, with the flag an `int`.
- The hash table's implementation file is not part of this model. Its tests are, and they fix the behaviour modelled here. Its internals (hashing, buckets, capacity) are not modelled: the table is a map plus the order in which classes were first recorded.
- HeapStatsReport.SortRows: no test fixes the order of classes with equal totals; the model picks a stable sort over first-recorded order (`SortRowsStable`).
- HeapStatsReport.Pad: class names are taken as sequences of characters, so a column's width counts characters. The program's streams count bytes, and JVM class signatures are modified UTF-8, so for a class name with non-ASCII characters the model's padding differs from the program's.
- Counts and byte totals are unbounded naturals; the width of the program's counters is not shown.
- `custom-jvmti/jvmti.h`, the heap traversal callbacks and the census scheduler are not part of this model: they hold no logic of the three pieces.
- The `std::stringstream` output and the test driver (`setup`, `teardown`, `verify`, `main`): `Print` returns the text instead of writing it to a stream.
