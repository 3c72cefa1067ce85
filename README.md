# County demographics query interpreter

`hw4.py` loads a list of county records and runs a script on them, one line
at a time. Each line does one of two things:

- A line containing `filter` narrows the working set when it parses, and
  otherwise leaves it unchanged and reports the error. `filter-state:<ST>`
  keeps one state's counties. `filter-gt:<field>:<v>` and
  `filter-lt:<field>:<v>` keep the counties whose value for the field is
  above or below `v`.
- Any other line is an operation on the working set. `population-total`
  and `display` report on it. Errors are reported with the line's number.

The model has three modules:

- `Text` (`text.dfy`): the Python string operations the program relies on.
  These are `str.strip()` over Python's whitespace set, `str.split(":")`
  and the substring test `"filter" in line`.
- `Counties` (`counties.dfy`): the records, the three filters, the three
  population aggregates and the `display` listing. `display` is a method
  with loops, proved against a function that lists the printed rows.
- `Interpreter` (`interpreter.dfy`): the operations table,
  `run_operations`, `filter_data`, and the loop of `main`. The loop is a
  method with a `while` loop. Its invariant ties it to a pure fold, `Run`,
  over the script's lines.

What is printed is modelled as values (`Output`, `Row`), not as text.

Operation names are modelled as the code writes them. `run_operations`
splits `population:<field>` at the colon and looks up `population`. The
table's keys are `"population:"` and `"percent:"`, with the colon kept.
A line `population:<field>` or `percent:<field>` whose field does not
contain `filter` reaches `run_operations`. There, a colon-free field
reports an invalid operation (`PopulationFieldIsInvalid`,
`PercentFieldIsInvalid`), and a field with a colon fails the unpacking
(`TwoColonsRaise`). A field that contains `filter`, with or without a
colon, sends the line to `filter_data`, which raises the invalid filter
type (`FilterWordElsewhere`). The two
handlers exist and are registered, but no parsed name can reach them
(`RegisteredWithoutColon`). The model keeps this behaviour rather than the
evidently intended one. `population_by_field` and `percent_by_field` are
still modelled and proved as functions.

## Model

| member | source | states |
|---|---|---|
| Text.TrimLeftSpec | hw4.py:112 | the left half of `strip` removes exactly the leading whitespace, leaving a suffix that does not start with whitespace |
| Text.TrimRightSpec | hw4.py:112 | the right half of `strip` removes exactly the trailing whitespace, leaving a prefix that does not end with whitespace |
| Text.StripSpec | hw4.py:112 | `Text.Strip`, the model of `line.strip()`, is a slice of the line with only whitespace around it, and it neither starts nor ends with whitespace |
| Text.StripIdempotent | hw4.py:70 | stripping the already-stripped line again, as `run_operations` and `filter_data` do, changes nothing |
| Text.StripEmpty | hw4.py:73-79 | a stripped field is empty, so that `if field:` fails, exactly when the field was all whitespace |
| Text.StripPadded | hw4.py:112 | whitespace added at either end of a line does not change its stripped form |
| Text.Split | hw4.py:72 | `split(":")` yields one more part than there are colons, and no part holds a colon |
| Text.JoinSplit | hw4.py:87 | splitting loses nothing: joining the parts with the separator gives back the line |
| Text.SplitJoin | hw4.py:87 | joining colon-free parts and splitting again gives back the same parts |
| Text.ContainsIff | hw4.py:115 | `Text.Contains`, the model of `"filter" in line`, holds exactly when the text occurs at some index of the line |
| Counties.Apply | hw4.py:28-37 | a filter keeps exactly the counties that meet its condition, and no more than there were |
| Counties.ApplyIsSubsequence | hw4.py:28-37 | a filter keeps the counties it keeps in their original order |
| Counties.ApplyCounts | hw4.py:28-37 | a filter keeps every copy of a selected county and no copy of any other |
| Counties.ApplyConcat | hw4.py:28-37 | filtering a concatenation is concatenating the filtered parts |
| Counties.ApplyAllSelected | hw4.py:28-37 | a list whose every county passes the filter comes back unchanged |
| Counties.ApplyIdempotent | hw4.py:28-37 | applying the same filter twice is applying it once |
| Counties.ApplyCommutes | hw4.py:28-37 | any two filters give the same list in either order |
| Counties.GtLtPartition | hw4.py:32-37 | `filter_gt` and `filter_lt` with the same field and threshold keep disjoint sets; a county equal to the threshold is in neither |
| Counties.MissingFieldIsZero | hw4.py:32-37 | a county without the field compares as 0: `Counties.Get`, the model of `get(field, 0)`, reads a missing field as 0 |
| Counties.StrictlyBetween | hw4.py:32-37 | `filter-gt` at 0 then `filter-lt` at 100 keeps, in order, exactly the counties strictly between 0 and 100 |
| Counties.PopulationTotal | hw4.py:11-13 | the total of no counties is 0, and no county's population exceeds the total |
| Counties.PopulationTotalConcat | hw4.py:11-13 | the total of a concatenation is the sum of the totals |
| Counties.SubsequencePopulationAtMost | hw4.py:11-13 | dropping counties never raises the total |
| Counties.FilteredPopulationAtMost | hw4.py:11-13 | the total after any filter is at most the total before it |
| Counties.PopulationByField | hw4.py:16-18 | the weighted population of no counties is 0 |
| Counties.PopulationByFieldConcat | hw4.py:16-18 | the weighted population of a concatenation is the sum of the parts' |
| Counties.PopulationByFieldBounded | hw4.py:16-18 | when every value is a percentage, the weighted population lies between 0 and the total population |
| Counties.PercentByField | hw4.py:21-25 | the result is 0 when the total is 0, and otherwise the weighted population as a percentage of the total |
| Counties.PercentByFieldBounded | hw4.py:21-25 | when every value is a percentage, the result lies between 0 and 100 |
| Counties.TwoCountyExample | hw4.py:11-29 | on two sample counties: total 300, weighted 70, percentage 70/300 of 100, and 100 after filtering on WA |
| Counties.EntryRowsPlain | hw4.py:45-55 | category entry lines hold no county heading and no category heading |
| Counties.SectionRowsShape | hw4.py:44-46 | a category block holds exactly one category heading and no county heading |
| Counties.CountyRowsShape | hw4.py:41-55 | each county's block names that county once and lists age, education, ethnicities and income in that order |
| Counties.DisplayNamesEveryCounty | hw4.py:40-42 | `display` announces every county of the working set, in order, none omitted |
| Counties.EmitEntries | hw4.py:45-46 | the loop over one category appends one entry line per key, in dictionary order |
| Counties.EmitSection | hw4.py:44-46 | one category's heading is printed, followed by its entries |
| Counties.EmitCounty | hw4.py:42-55 | one county's heading, population line and four category blocks are printed |
| Counties.Display | hw4.py:40-55 | the nested loops print exactly the listing `DisplayRows` describes |
| Interpreter.SplitOperation | hw4.py:70-76 | the operation name never holds a colon, the field comes back stripped, and the only failure is a line with too many colons |
| Interpreter.SplitNoColon | hw4.py:74-76 | a line without a colon is the operation name alone, with an empty field |
| Interpreter.SplitManyColons | hw4.py:72 | two or more colons make the two-name unpacking fail |
| Interpreter.SplitOneColon | hw4.py:71-73 | with one colon, the name is the text before it as it stands, and the field is the text after it, stripped |
| Interpreter.CallWithoutField | hw4.py:81-82 | calling a handler without a field succeeds exactly for `population_total`, which prints the working set's total, and `display`, which prints its listing |
| Interpreter.CallWithField | hw4.py:79-80 | calling a handler with a field succeeds exactly for the three one-argument handlers: the field population, the field percentage, and `filter_by_state`, which prints nothing |
| Interpreter.RunOperations | hw4.py:69-84 | a report line prints at most one message: a total, a listing or an invalid operation, never a field report |
| Interpreter.RegisteredWithoutColon | hw4.py:58-66 | no colon-free name looks up `population_by_field` or `percent_by_field` |
| Interpreter.UnregisteredName | hw4.py:78-84 | a parsed name missing from the table is reported as an invalid operation, with or without a field |
| Interpreter.UnregisteredNameWithField | hw4.py:71-84 | a name missing from the table, followed by one colon, is reported as an invalid operation whatever the field |
| Interpreter.BareUnregisteredName | hw4.py:74-84 | a bare name missing from the table, such as `foo`, is reported as an invalid operation under its own text |
| Interpreter.BareRegisteredName | hw4.py:74-82 | a bare registered name calls its handler with the working set alone |
| Interpreter.RegisteredNameWithField | hw4.py:71-80 | a registered name with one colon and a non-blank field calls its handler with the working set and the stripped field |
| Interpreter.PopulationFieldIsInvalid | hw4.py:60 | `population:<field>` reports the invalid operation `population` |
| Interpreter.PercentFieldIsInvalid | hw4.py:61 | `percent:<field>` reports the invalid operation `percent` |
| Interpreter.EmptyFieldCallsWithoutField | hw4.py:79-82 | a registered name with only whitespace after its colon calls its handler without a field |
| Interpreter.TwoColonsRaise | hw4.py:70-72 | a report line with two or more colons raises instead of printing |
| Interpreter.BlankLineIsInvalid | hw4.py:75-84 | a blank line reports the invalid operation `''` |
| Interpreter.ParseFilter | hw4.py:86-100 | the filter built matches the first segment, and "Invalid filter type." is raised exactly when the first segment names no filter |
| Interpreter.ParseFilterBySegments | hw4.py:87-100 | the result for every shape of line: the missing-segment errors, the threshold that does not parse, and extra segments ignored |
| Interpreter.FilterData | hw4.py:86-100 | `filter_data` succeeds exactly when the line parses; its result is the parsed filter applied to the working set, so every copy of a selected county is kept, in order |
| Interpreter.Step | hw4.py:112-121 | one pass of the loop: a filter line that parses changes the working set and prints nothing; any other line leaves it unchanged; a line that raises prints exactly one error with its number and stripped text; a report line prints exactly what `run_operations` prints |
| Interpreter.FilterWordElsewhere | hw4.py:115-121 | a line that mentions `filter` but whose first segment names no filter, such as `population:filtered`, prints the invalid-filter-type error and leaves the working set unchanged |
| Interpreter.RunPrefix | hw4.py:111-121 | what the first lines of the script print is a prefix of what the whole script prints |
| Interpreter.RunLine | hw4.py:111-121 | line k runs on the working set the earlier successful filters left, and its output follows the earlier lines' output |
| Interpreter.RunReportsErrors | hw4.py:113-121 | a line that raises on the working set prints the error with its number and stripped text, right after the earlier output |
| Interpreter.RunReportsOnWorkingSet | hw4.py:115-119 | a report line prints exactly what `run_operations` prints on the working set the earlier successful filters left |
| Interpreter.RunKeepsSuccessfulFilters | hw4.py:108-121 | after `Interpreter.Run`, the final working set is the full data under exactly the filters that succeeded, in script order |
| Interpreter.RunNumbersErrors | hw4.py:111-121 | every error message carries a line number between 1 and the script's length and that line's stripped text |
| Interpreter.ApplyAllIsKeepAll | hw4.py:116 | successive filters keep, in order, exactly the counties that pass all of them |
| Interpreter.ApplyAllOrderIrrelevant | hw4.py:116 | reordering or repeating the script's filters does not change the working set |
| Interpreter.Interpret | hw4.py:108-121 | the loop computes the fold `Interpreter.Run`, which models the same loop line by line; the final working set is the data under the successful filters, and an ordered sub-list of the data |

## Left out

- File reading, the command-line argument, the "records loaded" banner and
  the outer `FileNotFoundError` and generic handlers of `main`. The script
  is a parameter: a sequence of lines.
- Loading the dataset (`build_data.get_data`). `CountyDemographics.get` is
  not part of this model either; a record's field values are a map, and a
  missing field reads as 0.
- Text formatting of the printed messages. Each print is a value of
  `Output` or `Row`. The exceptions' own message texts are not modelled;
  each is a constructor of `Error`.
- Python's `float()`. It is the parameter `parseFloat`, which either
  yields a number or refuses the text.
- Counties.PopulationByField: the sums use exact real arithmetic, not IEEE
  doubles, so rounding, NaN and infinities are not modelled. The same holds
  for Counties.PercentByField and the thresholds of `filter_gt` and
  `filter_lt`.
- Interpreter.CallWithField: the handlers `filter_gt` and `filter_lt` can
  never be reached through `run_operations`, because their names contain
  `filter` and such lines go to `filter_data`. Calling them with one field
  argument is modelled as the arity error it would raise.
