/** The line interpreter: the table of operations, the parsing and dispatch
    of a report line (`run_operations`), the parsing of a filter line
    (`filter_data`) and the loop over the script's lines in `main`. */
module Interpreter {
  import opened Text
  import opened Counties

  datatype Option<T> = None | Some(value: T)

  /** What a line can raise; every one is caught by the loop in `main` */
  datatype Error =
    | TooManyColons            // a report line with two or more colons does not unpack into name and field
    | MissingSegment           // `parts[1]` or `parts[2]` past the end of the split
    | BadThreshold(text: string)  // `float(...)` refuses the threshold text
    | InvalidFilterType        // a filter line whose first segment names none of the three filters
    | WrongArity               // a handler called with too many or too few arguments

  datatype Result<T> = Ok(value: T) | Err(error: Error)

  /** The functions `operations_map` refers to */
  datatype Handler =
    | PopulationTotalOp
    | PopulationByFieldOp
    | PercentByFieldOp
    | DisplayOp
    | FilterByStateOp
    | FilterGtOp
    | FilterLtOp

  /** `operations_map`, keys as written: two of them end in a colon */
  const Operations: map<string, Handler> := map[
    "population-total" := PopulationTotalOp,
    "population:" := PopulationByFieldOp,
    "percent:" := PercentByFieldOp,
    "display" := DisplayOp,
    "filter-state" := FilterByStateOp,
    "filter-gt" := FilterGtOp,
    "filter-lt" := FilterLtOp
  ]

  /** What the interpreter prints, one message per `print` of a report */
  datatype Output =
    | TotalLine(population: nat)
    | FieldPopulationLine(field: string, value: real)
    | PercentLine(field: string, percent: real)
    | DetailLines(rows: seq<Row>)
    | InvalidOperation(op: string)
    | LineError(lineNo: nat, line: string, error: Error)

  /** A report `run_operations` can print */
  predicate IsReport(o: Output) {
    o.TotalLine? || o.FieldPopulationLine? || o.PercentLine? || o.DetailLines? || o.InvalidOperation?
  }

  // ---------------------------------------------------------------------
  // run_operations
  // ---------------------------------------------------------------------

  /** The head of `run_operations` on the stripped line `operation`:
      when it holds a colon, the text before and the text after it, the
      latter stripped; the whole line and an empty field otherwise. */
  function SplitOperation(operation: string): (r: Result<(string, string)>)
    ensures r.Ok? ==> ':' !in r.value.0
    ensures r.Ok? ==> r.value.1 == Strip(r.value.1)
    ensures r.Err? ==> r.error == TooManyColons
  {
    if ':' in operation then
      var parts := Split(operation, ':');
      if |parts| == 2 then
        StripIdempotent(parts[1]);
        Ok((parts[0], Strip(parts[1])))
      else Err(TooManyColons)
    else Ok((operation, ""))
  }

  /** A line without a colon is the operation name alone. */
  lemma SplitNoColon(operation: string)
    requires ':' !in operation
    ensures SplitOperation(operation) == Ok((operation, ""))
  {
  }

  /** A line with two or more colons fails to unpack into two names. */
  lemma SplitManyColons(operation: string)
    requires multiset(operation)[':'] >= 2
    ensures SplitOperation(operation) == Err(TooManyColons)
  {
    assert |Split(operation, ':')| >= 3;
  }

  /** A line with one colon names the operation by the text before it, as
      it stands, and the field by the text after it, stripped. */
  lemma SplitOneColon(op: string, rest: string)
    requires ':' !in op && ':' !in rest
    ensures SplitOperation(op + [':'] + rest) == Ok((op, Strip(rest)))
  {
    SplitJoin([op, rest], ':');
    assert Join([op, rest], ':') == op + [':'] + rest by {
      assert [op, rest][1..] == [rest];
    }
    assert (op + [':'] + rest)[|op|] == ':';
  }

  /** Calling a handler with the working set alone */
  function CallWithoutField(h: Handler, stats: seq<County>): (r: Result<seq<Output>>)
    ensures r.Ok? <==> h == PopulationTotalOp || h == DisplayOp
    ensures h == PopulationTotalOp ==> r == Ok([TotalLine(PopulationTotal(stats))])
    ensures h == DisplayOp ==> r == Ok([DetailLines(DisplayRows(stats))])
  {
    match h
    case PopulationTotalOp => Ok([TotalLine(PopulationTotal(stats))])
    case DisplayOp => Ok([DetailLines(DisplayRows(stats))])
    case _ => Err(WrongArity)
  }

  /** Calling a handler with the working set and a field; `filter_by_state`
      returns a list that nobody prints */
  function CallWithField(h: Handler, stats: seq<County>, field: string): (r: Result<seq<Output>>)
    ensures r.Ok? <==> h == PopulationByFieldOp || h == PercentByFieldOp || h == FilterByStateOp
    ensures h == PopulationByFieldOp ==> r == Ok([FieldPopulationLine(field, PopulationByField(stats, field))])
    ensures h == PercentByFieldOp ==> r == Ok([PercentLine(field, PercentByField(stats, field))])
    ensures h == FilterByStateOp ==> r == Ok([])
  {
    match h
    case PopulationByFieldOp => Ok([FieldPopulationLine(field, PopulationByField(stats, field))])
    case PercentByFieldOp => Ok([PercentLine(field, PercentByField(stats, field))])
    case FilterByStateOp => Ok([])
    case _ => Err(WrongArity)
  }

  /** `run_operations`: what a report line prints, or the error it raises.
      An operation name never holds a colon, so the two handlers registered
      under "population:" and "percent:" are never reached. */
  function RunOperations(stats: seq<County>, line: string): (r: Result<seq<Output>>)
    ensures r.Ok? ==> forall o :: o in r.value ==> o.TotalLine? || o.DetailLines? || o.InvalidOperation?
    ensures r.Ok? ==> |r.value| <= 1
  {
    match SplitOperation(Strip(line))
    case Err(e) => Err(e)
    case Ok((op, field)) =>
      if op in Operations then
        RegisteredWithoutColon(op);
        if field != "" then CallWithField(Operations[op], stats, field)
        else CallWithoutField(Operations[op], stats)
      else Ok([InvalidOperation(op)])
  }

  /** A registered name without a colon is none of the two keys that end
      in one, so it names neither field report. */
  lemma RegisteredWithoutColon(op: string)
    requires op in Operations && ':' !in op
    ensures Operations[op] != PopulationByFieldOp && Operations[op] != PercentByFieldOp
  {
    assert "population:"[10] == ':' && "percent:"[7] == ':';
  }

  /** A name outside the table is reported as an invalid operation,
      whether or not a field follows it. */
  lemma UnregisteredName(stats: seq<County>, line: string, op: string, field: string)
    requires SplitOperation(Strip(line)) == Ok((op, field)) && op !in Operations
    ensures RunOperations(stats, line) == Ok([InvalidOperation(op)])
  {
  }

  /** A name outside the table, followed by one colon, is reported as an
      invalid operation whatever the field. */
  lemma UnregisteredNameWithField(stats: seq<County>, line: string, op: string, field: string)
    requires Strip(line) == op + [':'] + field
    requires ':' !in op && ':' !in field && op !in Operations
    ensures RunOperations(stats, line) == Ok([InvalidOperation(op)])
  {
    SplitOneColon(op, field);
    UnregisteredName(stats, line, op, Strip(field));
  }

  /** A bare name outside the table, such as `foo`, is reported as an
      invalid operation under its own stripped text. */
  lemma BareUnregisteredName(stats: seq<County>, line: string)
    requires ':' !in Strip(line) && Strip(line) !in Operations
    ensures RunOperations(stats, line) == Ok([InvalidOperation(Strip(line))])
  {
    SplitNoColon(Strip(line));
    UnregisteredName(stats, line, Strip(line), "");
  }

  /** A bare registered name calls its handler with the working set alone:
      `population-total` prints the total, `display` the listing, and any
      other handler fails for want of an argument. */
  lemma BareRegisteredName(stats: seq<County>, line: string)
    requires ':' !in Strip(line) && Strip(line) in Operations
    ensures RunOperations(stats, line) == CallWithoutField(Operations[Strip(line)], stats)
  {
    SplitNoColon(Strip(line));
  }

  /** A registered name, one colon and a field that is not blank call the
      handler with the working set and the stripped field. */
  lemma RegisteredNameWithField(stats: seq<County>, line: string, op: string, rest: string)
    requires Strip(line) == op + [':'] + rest
    requires ':' !in op && ':' !in rest && Strip(rest) != []
    requires op in Operations
    ensures RunOperations(stats, line) == CallWithField(Operations[op], stats, Strip(rest))
  {
    SplitOneColon(op, rest);
  }

  /** `population:<field>` reports the invalid operation `population`,
      whatever the field: the table's key keeps the colon that the split
      removes from the name. */
  lemma PopulationFieldIsInvalid(stats: seq<County>, line: string, field: string)
    requires Strip(line) == "population:" + field && ':' !in field
    ensures RunOperations(stats, line) == Ok([InvalidOperation("population")])
  {
    var op := "population";
    assert "population:" + field == op + [':'] + field;
    assert op !in Operations;
    UnregisteredNameWithField(stats, line, op, field);
  }

  /** `percent:<field>` reports the invalid operation `percent`, whatever
      the field. */
  lemma PercentFieldIsInvalid(stats: seq<County>, line: string, field: string)
    requires Strip(line) == "percent:" + field && ':' !in field
    ensures RunOperations(stats, line) == Ok([InvalidOperation("percent")])
  {
    var op := "percent";
    assert "percent:" + field == op + [':'] + field;
    assert op !in Operations;
    UnregisteredNameWithField(stats, line, op, field);
  }

  /** An empty field after the colon calls the handler without a field. */
  lemma EmptyFieldCallsWithoutField(stats: seq<County>, line: string, op: string, rest: string)
    requires Strip(line) == op + [':'] + rest
    requires ':' !in op && Strip(rest) == []
    requires op in Operations
    ensures RunOperations(stats, line) == CallWithoutField(Operations[op], stats)
  {
    StripEmpty(rest);
    assert !IsSpace(':');
    assert ':' !in rest;
    SplitOneColon(op, rest);
  }

  /** A line with two or more colons raises: it does not unpack into a
      name and a field. */
  lemma TwoColonsRaise(stats: seq<County>, line: string)
    requires multiset(Strip(line))[':'] >= 2
    ensures RunOperations(stats, line) == Err(TooManyColons)
  {
    SplitManyColons(Strip(line));
  }

  /** A blank line reports the invalid operation ''. */
  lemma BlankLineIsInvalid(stats: seq<County>, line: string)
    requires Strip(line) == []
    ensures RunOperations(stats, line) == Ok([InvalidOperation([])])
  {
  }

  // ---------------------------------------------------------------------
  // filter_data
  // ---------------------------------------------------------------------

  /** The argument parsing of `filter_data`: which filter a line asks for,
      with `parseFloat` standing for Python's `float` on a string. */
  function ParseFilter(line: string, parseFloat: string -> Option<real>): (r: Result<Filter>)
    ensures r.Ok? && r.value.ByState? ==> Split(Strip(line), ':')[0] == "filter-state"
    ensures r.Ok? && r.value.Gt? ==> Split(Strip(line), ':')[0] == "filter-gt"
    ensures r.Ok? && r.value.Lt? ==> Split(Strip(line), ':')[0] == "filter-lt"
    ensures r.Err? && r.error == InvalidFilterType <==>
              Split(Strip(line), ':')[0] !in {"filter-state", "filter-gt", "filter-lt"}
  {
    var parts := Split(Strip(line), ':');
    var filterType := parts[0];
    if filterType == "filter-state" then
      if |parts| < 2 then Err(MissingSegment)
      else Ok(ByState(Strip(parts[1])))
    else if filterType == "filter-gt" || filterType == "filter-lt" then
      if |parts| < 2 then Err(MissingSegment)
      else
        var field := Strip(parts[1]);
        if |parts| < 3 then Err(MissingSegment)
        else
          var text := Strip(parts[2]);
          match parseFloat(text)
          case None => Err(BadThreshold(text))
          case Some(v) => Ok(if filterType == "filter-gt" then Gt(field, v) else Lt(field, v))
    else Err(InvalidFilterType)
  }

  /** `filter_data`: the new working set, or the error the line raises */
  function FilterData(stats: seq<County>, line: string, parseFloat: string -> Option<real>): (r: Result<seq<County>>)
    ensures r.Ok? <==> ParseFilter(line, parseFloat).Ok?
    ensures r.Ok? ==> r.value == Apply(ParseFilter(line, parseFloat).value, stats)
    ensures r.Ok? ==> IsSubsequence(r.value, stats)
    ensures r.Ok? ==> forall c :: c in r.value <==> c in stats && Selects(ParseFilter(line, parseFloat).value, c)
  {
    match ParseFilter(line, parseFloat)
    case Ok(f) =>
      ApplyIsSubsequence(f, stats);
      Ok(Apply(f, stats))
    case Err(e) => Err(e)
  }

  /** A line that splits into `parts` (all free of colons) selects its
      filter by the first part; `filter-state` takes the stripped second
      part; `filter-gt` and `filter-lt` take the stripped second and third
      parts and ignore the rest; any part they need that is missing is an
      error, and so is any other first part. */
  lemma ParseFilterBySegments(line: string, parts: seq<string>, parseFloat: string -> Option<real>)
    requires parts != [] && Strip(line) == Join(parts, ':')
    requires forall i :: 0 <= i < |parts| ==> ':' !in parts[i]
    ensures parts[0] == "filter-state" ==>
              ParseFilter(line, parseFloat) ==
                if |parts| < 2 then Err(MissingSegment) else Ok(ByState(Strip(parts[1])))
    ensures (parts[0] == "filter-gt" || parts[0] == "filter-lt") ==>
              ParseFilter(line, parseFloat) ==
                if |parts| < 3 then Err(MissingSegment)
                else match parseFloat(Strip(parts[2]))
                  case None => Err(BadThreshold(Strip(parts[2])))
                  case Some(v) =>
                    Ok(if parts[0] == "filter-gt" then Gt(Strip(parts[1]), v) else Lt(Strip(parts[1]), v))
    ensures parts[0] !in {"filter-state", "filter-gt", "filter-lt"} ==>
              ParseFilter(line, parseFloat) == Err(InvalidFilterType)
  {
    SplitJoin(parts, ':');
  }

  // ---------------------------------------------------------------------
  // main
  // ---------------------------------------------------------------------

  /** The filter a script line applies, if it is a filter line that parses */
  function FilterOf(raw: string, parseFloat: string -> Option<real>): Option<Filter> {
    var line := Strip(raw);
    if Contains(line, "filter") then
      match ParseFilter(line, parseFloat)
      case Ok(f) => Some(f)
      case Err(_) => None
    else None
  }

  /** The stripped line `line`, run on the working set `stats`, raises `e`:
      a filter line in `filter_data`, any other line in `run_operations` */
  predicate Raises(stats: seq<County>, line: string, parseFloat: string -> Option<real>, e: Error) {
    if Contains(line, "filter") then FilterData(stats, line, parseFloat) == Err(e)
    else RunOperations(stats, line) == Err(e)
  }

  /** One pass of the loop in `main` on the line numbered `lineNo`: the new
      working set and what is printed */
  function Step(stats: seq<County>, lineNo: nat, raw: string, parseFloat: string -> Option<real>): (r: (seq<County>, seq<Output>))
    ensures FilterOf(raw, parseFloat).None? ==> r.0 == stats
    ensures FilterOf(raw, parseFloat).Some? ==> r.0 == Apply(FilterOf(raw, parseFloat).value, stats) && r.1 == []
    ensures forall o :: o in r.1 ==> IsReport(o) || o == LineError(lineNo, Strip(raw), o.error)
    ensures forall e :: Raises(stats, Strip(raw), parseFloat, e) ==> r.1 == [LineError(lineNo, Strip(raw), e)]
    ensures !Contains(Strip(raw), "filter") && RunOperations(stats, Strip(raw)).Ok? ==>
              r.1 == RunOperations(stats, Strip(raw)).value
  {
    var line := Strip(raw);
    StripIdempotent(raw);
    if Contains(line, "filter") then
      match FilterData(stats, line, parseFloat)
      case Ok(s) => (s, [])
      case Err(e) => (stats, [LineError(lineNo, line, e)])
    else
      match RunOperations(stats, line)
      case Ok(out) => (stats, out)
      case Err(e) => (stats, [LineError(lineNo, line, e)])
  }

  /** The loop in `main` over the lines numbered from 1 */
  function Run(data: seq<County>, lines: seq<string>, parseFloat: string -> Option<real>): (seq<County>, seq<Output>) {
    if lines == [] then (data, [])
    else
      var (stats, out) := Run(data, lines[..|lines| - 1], parseFloat);
      var (stats', more) := Step(stats, |lines|, lines[|lines| - 1], parseFloat);
      (stats', out + more)
  }

  /** The filters of the lines that filter successfully, in script order */
  function SuccessfulFilters(lines: seq<string>, parseFloat: string -> Option<real>): seq<Filter> {
    if lines == [] then []
    else
      var earlier := SuccessfulFilters(lines[..|lines| - 1], parseFloat);
      match FilterOf(lines[|lines| - 1], parseFloat)
      case Some(f) => earlier + [f]
      case None => earlier
  }

  /** Applies the filters left to right */
  function ApplyAll(fs: seq<Filter>, cs: seq<County>): seq<County> {
    if fs == [] then cs else Apply(fs[|fs| - 1], ApplyAll(fs[..|fs| - 1], cs))
  }

  /** The working set at the end of the script is the data under the
      successful filters only, applied in script order. */
  lemma {:induction false} RunKeepsSuccessfulFilters(data: seq<County>, lines: seq<string>, parseFloat: string -> Option<real>)
    ensures Run(data, lines, parseFloat).0 == ApplyAll(SuccessfulFilters(lines, parseFloat), data)
  {
    if lines != [] {
      var init := lines[..|lines| - 1];
      RunKeepsSuccessfulFilters(data, init, parseFloat);
      var earlier := SuccessfulFilters(init, parseFloat);
      match FilterOf(lines[|lines| - 1], parseFloat)
      case Some(f) =>
        assert (earlier + [f])[..|earlier|] == earlier;
      case None =>
    }
  }

  /** A line that mentions `filter` anywhere goes to `filter_data`, so one
      whose first segment names no filter (`population:filtered`, say)
      raises the invalid filter type and leaves the working set alone. */
  lemma FilterWordElsewhere(stats: seq<County>, lineNo: nat, raw: string, parseFloat: string -> Option<real>)
    requires Contains(Strip(raw), "filter")
    requires Split(Strip(raw), ':')[0] !in {"filter-state", "filter-gt", "filter-lt"}
    ensures Step(stats, lineNo, raw, parseFloat) == (stats, [LineError(lineNo, Strip(raw), InvalidFilterType)])
  {
    StripIdempotent(raw);
  }

  /** The first `k` lines run as the whole script's first `k` steps: their
      output is a prefix of the whole output. */
  lemma {:induction false} RunPrefix(data: seq<County>, lines: seq<string>, parseFloat: string -> Option<real>, k: nat)
    requires k <= |lines|
    ensures Run(data, lines[..k], parseFloat).1 <= Run(data, lines, parseFloat).1
  {
    if k < |lines| {
      var init := lines[..|lines| - 1];
      RunPrefix(data, init, parseFloat, k);
      assert init[..k] == lines[..k];
    } else {
      assert lines[..k] == lines;
    }
  }

  /** Line `k` runs on the working set the earlier successful filters left,
      and what it prints follows what the earlier lines printed. */
  lemma RunLine(data: seq<County>, lines: seq<string>, parseFloat: string -> Option<real>, k: nat)
    requires 1 <= k <= |lines|
    ensures var stats := ApplyAll(SuccessfulFilters(lines[..k - 1], parseFloat), data);
      Run(data, lines[..k - 1], parseFloat).1 + Step(stats, k, lines[k - 1], parseFloat).1
        <= Run(data, lines, parseFloat).1
  {
    RunKeepsSuccessfulFilters(data, lines[..k - 1], parseFloat);
    assert lines[..k][..k - 1] == lines[..k - 1];
    assert lines[..k][k - 1] == lines[k - 1];
    RunPrefix(data, lines, parseFloat, k);
  }

  /** A line that raises prints the error with its number and its stripped
      text, right after what the earlier lines printed. */
  lemma RunReportsErrors(data: seq<County>, lines: seq<string>, parseFloat: string -> Option<real>, k: nat, e: Error)
    requires 1 <= k <= |lines|
    requires Raises(ApplyAll(SuccessfulFilters(lines[..k - 1], parseFloat), data), Strip(lines[k - 1]), parseFloat, e)
    ensures Run(data, lines[..k - 1], parseFloat).1 + [LineError(k, Strip(lines[k - 1]), e)]
              <= Run(data, lines, parseFloat).1
    ensures LineError(k, Strip(lines[k - 1]), e) in Run(data, lines, parseFloat).1
  {
    RunLine(data, lines, parseFloat, k);
    var before := Run(data, lines[..k - 1], parseFloat).1;
    assert (before + [LineError(k, Strip(lines[k - 1]), e)])[|before|] == LineError(k, Strip(lines[k - 1]), e);
  }

  /** A report line reports on the working set the earlier successful
      filters left, and prints exactly what `run_operations` prints for it,
      right after what the earlier lines printed. */
  lemma RunReportsOnWorkingSet(data: seq<County>, lines: seq<string>, parseFloat: string -> Option<real>, k: nat, o: seq<Output>)
    requires 1 <= k <= |lines| && !Contains(Strip(lines[k - 1]), "filter")
    requires RunOperations(ApplyAll(SuccessfulFilters(lines[..k - 1], parseFloat), data), Strip(lines[k - 1])) == Ok(o)
    ensures Run(data, lines[..k - 1], parseFloat).1 + o <= Run(data, lines, parseFloat).1
  {
    RunLine(data, lines, parseFloat, k);
  }

  /** Every error message names the line it comes from, by its number
      counted from 1 and its stripped text. */
  lemma {:induction false} RunNumbersErrors(data: seq<County>, lines: seq<string>, parseFloat: string -> Option<real>, o: Output)
    requires o in Run(data, lines, parseFloat).1 && o.LineError?
    ensures 1 <= o.lineNo <= |lines| && o.line == Strip(lines[o.lineNo - 1])
  {
    var n := |lines|;
    var init := lines[..n - 1];
    var before := Run(data, init, parseFloat);
    var step := Step(before.0, n, lines[n - 1], parseFloat);
    assert Run(data, lines, parseFloat).1 == before.1 + step.1;
    if o in before.1 {
      RunNumbersErrors(data, init, parseFloat, o);
      assert lines[o.lineNo - 1] == init[o.lineNo - 1];
    } else {
      assert o in step.1;
      assert !IsReport(o);
    }
  }

  /** A county passes every one of the filters */
  predicate SelectsAll(fs: seq<Filter>, c: County) {
    forall f :: f in fs ==> Selects(f, c)
  }

  /** One pass over the counties keeping those that pass every filter */
  function KeepAll(fs: seq<Filter>, cs: seq<County>): seq<County> {
    if cs == [] then []
    else (if SelectsAll(fs, cs[0]) then [cs[0]] else []) + KeepAll(fs, cs[1..])
  }

  lemma {:induction false} ApplyKeepAll(f: Filter, fs: seq<Filter>, cs: seq<County>)
    ensures Apply(f, KeepAll(fs, cs)) == KeepAll(fs + [f], cs)
  {
    if cs != [] {
      var x := cs[0];
      var kx := if SelectsAll(fs, x) then [x] else [];
      ApplyConcat(f, kx, KeepAll(fs, cs[1..]));
      ApplyKeepAll(f, fs, cs[1..]);
      assert SelectsAll(fs + [f], x) <==> SelectsAll(fs, x) && Selects(f, x);
    }
  }

  /** Applying filters in turn keeps, in order, the counties that pass all of them. */
  lemma {:induction false} ApplyAllIsKeepAll(fs: seq<Filter>, cs: seq<County>)
    ensures ApplyAll(fs, cs) == KeepAll(fs, cs)
  {
    if fs == [] {
      NoFiltersKeepAll(cs);
    } else {
      var init := fs[..|fs| - 1];
      ApplyAllIsKeepAll(init, cs);
      ApplyKeepAll(fs[|fs| - 1], init, cs);
      assert init + [fs[|fs| - 1]] == fs;
    }
  }

  lemma {:induction false} NoFiltersKeepAll(cs: seq<County>)
    ensures KeepAll([], cs) == cs
  {
    if cs != [] {
      NoFiltersKeepAll(cs[1..]);
    }
  }

  lemma {:induction false} KeepAllSameSelection(fs: seq<Filter>, gs: seq<Filter>, cs: seq<County>)
    requires forall c :: SelectsAll(fs, c) <==> SelectsAll(gs, c)
    ensures KeepAll(fs, cs) == KeepAll(gs, cs)
  {
    if cs != [] {
      KeepAllSameSelection(fs, gs, cs[1..]);
    }
  }

  /** The order of the filters, and repeating one, make no difference. */
  lemma ApplyAllOrderIrrelevant(fs: seq<Filter>, gs: seq<Filter>, cs: seq<County>)
    requires forall f :: f in fs <==> f in gs
    ensures ApplyAll(fs, cs) == ApplyAll(gs, cs)
  {
    ApplyAllIsKeepAll(fs, cs);
    ApplyAllIsKeepAll(gs, cs);
    KeepAllSameSelection(fs, gs, cs);
  }

  /** The loop of `main` over the script's lines, numbered from 1 and
      given as a sequence, starting from the full dataset; returns the
      final working set and everything printed. */
  method Interpret(data: seq<County>, lines: seq<string>, parseFloat: string -> Option<real>)
    returns (stats: seq<County>, out: seq<Output>)
    ensures (stats, out) == Run(data, lines, parseFloat)
    ensures stats == ApplyAll(SuccessfulFilters(lines, parseFloat), data)
    ensures IsSubsequence(stats, data)
  {
    stats := data;
    IsSubsequenceRefl(data);
    out := [];
    var count := 0;
    while count < |lines|
      invariant 0 <= count <= |lines|
      invariant (stats, out) == Run(data, lines[..count], parseFloat)
      invariant IsSubsequence(stats, data)
    {
      ghost var step := Step(stats, count + 1, lines[count], parseFloat);
      ghost var printed := out;
      var line := Strip(lines[count]);
      count := count + 1;
      if Contains(line, "filter") {
        var result := FilterData(stats, line, parseFloat);
        match result {
          case Ok(s) =>
            IsSubsequenceTrans(s, stats, data);
            stats := s;
          case Err(e) =>
            out := out + [LineError(count, line, e)];
        }
      } else {
        var result := RunOperations(stats, line);
        match result {
          case Ok(reports) =>
            out := out + reports;
          case Err(e) =>
            out := out + [LineError(count, line, e)];
        }
      }
      assert stats == step.0 && out == printed + step.1;
      assert lines[..count][..count - 1] == lines[..count - 1];
      assert lines[..count][count - 1] == lines[count - 1];
    }
    assert lines[..|lines|] == lines;
    RunKeepsSuccessfulFilters(data, lines, parseFloat);
  }
}
