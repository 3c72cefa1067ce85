/** County records and what the interpreter computes from a list of them:
    the three filters, the population aggregates and the detail listing. */
module Counties {

  /** A category of a record (age, education, ...) in the order its
      dictionary stores it: field name and percentage. */
  type Entries = seq<(string, real)>

  /** One county of the dataset, read-only. `pop2014` is the record's
      "2014 Population" entry; `fields` is the table the record's `get`
      method consults, whose definition is not part of this model. */
  datatype County = County(
    name: string,
    state: string,
    pop2014: nat,
    age: Entries,
    education: Entries,
    ethnicities: Entries,
    income: Entries,
    fields: map<string, real>)

  /** A county's value for a field; a field the record lacks reads as 0 */
  function Get(c: County, field: string): real {
    if field in c.fields then c.fields[field] else 0.0
  }

  // ---------------------------------------------------------------------
  // Filters
  // ---------------------------------------------------------------------

  /** The three filters: `filter_by_state`, `filter_gt` and `filter_lt`
      with their arguments. */
  datatype Filter =
    | ByState(state: string)
    | Gt(field: string, threshold: real)
    | Lt(field: string, threshold: real)

  /** The condition of each filter's list comprehension */
  predicate Selects(f: Filter, c: County) {
    match f
    case ByState(st) => c.state == st
    case Gt(field, v) => Get(c, field) > v
    case Lt(field, v) => Get(c, field) < v
  }

  /** The counties that meet the filter's condition, in their original order */
  function Apply(f: Filter, cs: seq<County>): (r: seq<County>)
    ensures |r| <= |cs|
    ensures forall c :: c in r <==> c in cs && Selects(f, c)
  {
    if cs == [] then []
    else (if Selects(f, cs[0]) then [cs[0]] else []) + Apply(f, cs[1..])
  }

  /** `r` is `s` with some elements removed and the rest in the same order */
  predicate IsSubsequence<T(==)>(r: seq<T>, s: seq<T>) {
    if r == [] then true
    else if s == [] then false
    else (r[0] == s[0] && IsSubsequence(r[1..], s[1..])) || IsSubsequence(r, s[1..])
  }

  lemma {:induction false} IsSubsequenceRefl<T>(s: seq<T>)
    ensures IsSubsequence(s, s)
  {
    if s != [] {
      IsSubsequenceRefl(s[1..]);
    }
  }

  lemma {:induction false} IsSubsequenceTrans<T>(a: seq<T>, b: seq<T>, c: seq<T>)
    requires IsSubsequence(a, b) && IsSubsequence(b, c)
    ensures IsSubsequence(a, c)
    decreases |c|
  {
    if a != [] {
      if b[0] == c[0] && IsSubsequence(b[1..], c[1..]) {
        if a[0] == b[0] && IsSubsequence(a[1..], b[1..]) {
          IsSubsequenceTrans(a[1..], b[1..], c[1..]);
        } else {
          IsSubsequenceTrans(a, b[1..], c[1..]);
        }
      } else {
        IsSubsequenceTrans(a, b, c[1..]);
      }
    }
  }

  /** A filter keeps the order of the counties it keeps. */
  lemma {:induction false} ApplyIsSubsequence(f: Filter, cs: seq<County>)
    ensures IsSubsequence(Apply(f, cs), cs)
  {
    if cs != [] {
      ApplyIsSubsequence(f, cs[1..]);
      var rest := Apply(f, cs[1..]);
      if Selects(f, cs[0]) {
        assert Apply(f, cs) == [cs[0]] + rest;
        assert ([cs[0]] + rest)[1..] == rest;
      } else {
        assert Apply(f, cs) == rest;
      }
    }
  }

  /** A filter keeps every occurrence of a selected county and no
      occurrence of any other one. */
  lemma {:induction false} ApplyCounts(f: Filter, cs: seq<County>, c: County)
    ensures multiset(Apply(f, cs))[c] == if Selects(f, c) then multiset(cs)[c] else 0
  {
    if cs != [] {
      ApplyCounts(f, cs[1..], c);
      assert cs == [cs[0]] + cs[1..];
      assert multiset(cs) == multiset{cs[0]} + multiset(cs[1..]);
    }
  }

  /** Filtering distributes over concatenation. */
  lemma {:induction false} ApplyConcat(f: Filter, a: seq<County>, b: seq<County>)
    ensures Apply(f, a + b) == Apply(f, a) + Apply(f, b)
  {
    if a == [] {
      assert a + b == b;
    } else {
      assert (a + b)[1..] == a[1..] + b;
      ApplyConcat(f, a[1..], b);
    }
  }

  /** A list whose every county passes the filter is left as it is. */
  lemma {:induction false} ApplyAllSelected(f: Filter, cs: seq<County>)
    requires forall i :: 0 <= i < |cs| ==> Selects(f, cs[i])
    ensures Apply(f, cs) == cs
  {
    if cs != [] {
      ApplyAllSelected(f, cs[1..]);
    }
  }

  /** Applying a filter twice is applying it once. */
  lemma ApplyIdempotent(f: Filter, cs: seq<County>)
    ensures Apply(f, Apply(f, cs)) == Apply(f, cs)
  {
    var r := Apply(f, cs);
    assert forall i :: 0 <= i < |r| ==> r[i] in r;
    ApplyAllSelected(f, r);
  }

  /** Any two filters commute. */
  lemma {:induction false} ApplyCommutes(f: Filter, g: Filter, cs: seq<County>)
    ensures Apply(f, Apply(g, cs)) == Apply(g, Apply(f, cs))
  {
    if cs != [] {
      var x, t := cs[0], cs[1..];
      var gx := if Selects(g, x) then [x] else [];
      var fx := if Selects(f, x) then [x] else [];
      ApplyConcat(f, gx, Apply(g, t));
      ApplyConcat(g, fx, Apply(f, t));
      ApplyCommutes(f, g, t);
      assert Apply(f, gx) == Apply(g, fx);
    }
  }

  /** With the same field and threshold, `filter_gt` and `filter_lt` keep
      disjoint sets, and a county whose value equals the threshold is in
      neither. */
  lemma GtLtPartition(field: string, v: real, cs: seq<County>, c: County)
    requires c in cs
    ensures !(c in Apply(Gt(field, v), cs) && c in Apply(Lt(field, v), cs))
    ensures Get(c, field) == v <==> c !in Apply(Gt(field, v), cs) && c !in Apply(Lt(field, v), cs)
  {
  }

  /** A county without the field compares as 0: `filter_gt` keeps it
      exactly when the threshold is negative, `filter_lt` exactly when it is
      positive. */
  lemma MissingFieldIsZero(field: string, v: real, cs: seq<County>, c: County)
    requires c in cs && field !in c.fields
    ensures c in Apply(Gt(field, v), cs) <==> v < 0.0
    ensures c in Apply(Lt(field, v), cs) <==> v > 0.0
  {
  }

  /** `filter-gt:<field>:0` then `filter-lt:<field>:100` keeps exactly the
      counties whose value lies strictly between 0 and 100, in order. */
  lemma StrictlyBetween(field: string, cs: seq<County>)
    ensures IsSubsequence(Apply(Lt(field, 100.0), Apply(Gt(field, 0.0), cs)), cs)
    ensures forall c :: c in Apply(Lt(field, 100.0), Apply(Gt(field, 0.0), cs))
                        <==> c in cs && 0.0 < Get(c, field) < 100.0
  {
    var once := Apply(Gt(field, 0.0), cs);
    ApplyIsSubsequence(Gt(field, 0.0), cs);
    ApplyIsSubsequence(Lt(field, 100.0), once);
    IsSubsequenceTrans(Apply(Lt(field, 100.0), once), once, cs);
  }

  // ---------------------------------------------------------------------
  // Aggregates
  // ---------------------------------------------------------------------

  /** The sum of the counties' 2014 populations (`population_total`) */
  function PopulationTotal(cs: seq<County>): (total: nat)
    ensures cs == [] ==> total == 0
    ensures forall c :: c in cs ==> c.pop2014 <= total
  {
    if cs == [] then 0 else cs[0].pop2014 + PopulationTotal(cs[1..])
  }

  /** The total of a concatenation is the sum of the totals. */
  lemma {:induction false} PopulationTotalConcat(a: seq<County>, b: seq<County>)
    ensures PopulationTotal(a + b) == PopulationTotal(a) + PopulationTotal(b)
  {
    if a == [] {
      assert a + b == b;
    } else {
      assert (a + b)[1..] == a[1..] + b;
      PopulationTotalConcat(a[1..], b);
    }
  }

  /** Dropping counties never raises the total, populations being
      non-negative. */
  lemma {:induction false} SubsequencePopulationAtMost(r: seq<County>, s: seq<County>)
    requires IsSubsequence(r, s)
    ensures PopulationTotal(r) <= PopulationTotal(s)
  {
    if r != [] {
      if r[0] == s[0] && IsSubsequence(r[1..], s[1..]) {
        SubsequencePopulationAtMost(r[1..], s[1..]);
      } else {
        SubsequencePopulationAtMost(r, s[1..]);
      }
    }
  }

  /** The total of a filtered list is at most the total of the list. */
  lemma FilteredPopulationAtMost(f: Filter, cs: seq<County>)
    ensures PopulationTotal(Apply(f, cs)) <= PopulationTotal(cs)
  {
    ApplyIsSubsequence(f, cs);
    SubsequencePopulationAtMost(Apply(f, cs), cs);
  }

  /** A county's population weighted by its percentage for a field */
  function Weighted(c: County, field: string): real {
    (c.pop2014 as real) * (Get(c, field) / 100.0)
  }

  /** The sum over the counties of each one's 2014 population weighted by
      its percentage for the field (`population_by_field`) */
  function PopulationByField(cs: seq<County>, field: string): (value: real)
    ensures cs == [] ==> value == 0.0
  {
    if cs == [] then 0.0 else Weighted(cs[0], field) + PopulationByField(cs[1..], field)
  }

  /** The weighted population of a concatenation is the sum of the parts'. */
  lemma {:induction false} PopulationByFieldConcat(a: seq<County>, b: seq<County>, field: string)
    ensures PopulationByField(a + b, field) == PopulationByField(a, field) + PopulationByField(b, field)
  {
    if a == [] {
      assert a + b == b;
    } else {
      assert (a + b)[1..] == a[1..] + b;
      PopulationByFieldConcat(a[1..], b, field);
    }
  }

  /** Every county's value for the field is a percentage */
  predicate IsPercentage(cs: seq<County>, field: string) {
    forall i :: 0 <= i < |cs| ==> 0.0 <= Get(cs[i], field) <= 100.0
  }

  lemma WeightedBounded(c: County, field: string)
    requires 0.0 <= Get(c, field) <= 100.0
    ensures 0.0 <= Weighted(c, field) <= c.pop2014 as real
  {
    var p, g := c.pop2014 as real, Get(c, field) / 100.0;
    assert 0.0 <= g <= 1.0;
    assert p * g <= p * 1.0;
  }

  /** When every value is a percentage, the weighted population lies
      between 0 and the total population. */
  lemma {:induction false} PopulationByFieldBounded(cs: seq<County>, field: string)
    requires IsPercentage(cs, field)
    ensures 0.0 <= PopulationByField(cs, field) <= PopulationTotal(cs) as real
  {
    if cs != [] {
      WeightedBounded(cs[0], field);
      PopulationByFieldBounded(cs[1..], field);
    }
  }

  /** `percent_by_field`: the weighted population as a percentage of the
      total, and 0 when the total is 0, so that it never divides by zero. */
  function PercentByField(cs: seq<County>, field: string): (percent: real)
    ensures PopulationTotal(cs) == 0 ==> percent == 0.0
    ensures PopulationTotal(cs) > 0 ==>
              percent * (PopulationTotal(cs) as real) == PopulationByField(cs, field) * 100.0
  {
    var total := PopulationTotal(cs);
    if total > 0 then PopulationByField(cs, field) / (total as real) * 100.0 else 0.0
  }

  /** When every value is a percentage, so is the result. */
  lemma PercentByFieldBounded(cs: seq<County>, field: string)
    requires IsPercentage(cs, field)
    ensures 0.0 <= PercentByField(cs, field) <= 100.0
  {
    PopulationByFieldBounded(cs, field);
    var total := PopulationTotal(cs) as real;
    if total > 0.0 {
      var q := PopulationByField(cs, field) / total;
      assert q * total == PopulationByField(cs, field);
      assert 0.0 <= q <= 1.0;
    }
  }

  /** Two counties: A in WA with 100 people and X at 50%, B in OR with 200
      people and X at 10%. */
  lemma TwoCountyExample(a: County, b: County)
    requires a.state == "WA" && a.pop2014 == 100 && a.fields == map["X" := 50.0]
    requires b.state == "OR" && b.pop2014 == 200 && b.fields == map["X" := 10.0]
    ensures PopulationTotal([a, b]) == 300
    ensures PopulationByField([a, b], "X") == 70.0
    ensures PercentByField([a, b], "X") == 70.0 / 300.0 * 100.0
    ensures PopulationTotal(Apply(ByState("WA"), [a, b])) == 100
  {
    assert [a, b][1..] == [b];
    assert Apply(ByState("WA"), [b]) == [];
    assert Apply(ByState("WA"), [a, b]) == [a];
  }

  // ---------------------------------------------------------------------
  // Detail listing
  // ---------------------------------------------------------------------

  datatype Section = Age | Education | Ethnicities | Income

  /** One printed line of `display` */
  datatype Row =
    | CountyHeader(name: string)
    | PopulationRow(population: nat)
    | SectionHeader(section: Section)
    | EntryRow(key: string, percent: real)

  function EntryRows(es: Entries): seq<Row> {
    seq(|es|, i requires 0 <= i < |es| => EntryRow(es[i].0, es[i].1))
  }

  /** A category heading followed by the category's entries */
  function SectionRows(sec: Section, es: Entries): seq<Row> {
    [SectionHeader(sec)] + EntryRows(es)
  }

  /** The lines printed for one county */
  function CountyRows(c: County): seq<Row> {
    [CountyHeader(c.name), PopulationRow(c.pop2014)]
    + SectionRows(Age, c.age) + SectionRows(Education, c.education)
    + SectionRows(Ethnicities, c.ethnicities) + SectionRows(Income, c.income)
  }

  /** The lines printed by `display`, county after county */
  function DisplayRows(cs: seq<County>): seq<Row> {
    if cs == [] then [] else DisplayRows(cs[..|cs| - 1]) + CountyRows(cs[|cs| - 1])
  }

  /** The county names announced by a listing, in order */
  function Headers(rows: seq<Row>): seq<string> {
    if rows == [] then []
    else (if rows[0].CountyHeader? then [rows[0].name] else []) + Headers(rows[1..])
  }

  /** The section headings of a listing, in order */
  function Sections(rows: seq<Row>): seq<Section> {
    if rows == [] then []
    else (if rows[0].SectionHeader? then [rows[0].section] else []) + Sections(rows[1..])
  }

  /** The names of the counties, in order */
  function Names(cs: seq<County>): seq<string> {
    seq(|cs|, i requires 0 <= i < |cs| => cs[i].name)
  }

  lemma {:induction false} HeadersConcat(a: seq<Row>, b: seq<Row>)
    ensures Headers(a + b) == Headers(a) + Headers(b)
    ensures Sections(a + b) == Sections(a) + Sections(b)
  {
    if a == [] {
      assert a + b == b;
    } else {
      assert (a + b)[1..] == a[1..] + b;
      HeadersConcat(a[1..], b);
    }
  }

  lemma {:induction false} EntryRowsPlain(es: Entries)
    ensures Headers(EntryRows(es)) == [] && Sections(EntryRows(es)) == []
  {
    if es != [] {
      assert EntryRows(es)[1..] == EntryRows(es[1..]);
      EntryRowsPlain(es[1..]);
    }
  }

  lemma SectionRowsShape(sec: Section, es: Entries)
    ensures Headers(SectionRows(sec, es)) == []
    ensures Sections(SectionRows(sec, es)) == [sec]
  {
    EntryRowsPlain(es);
    assert SectionRows(sec, es)[1..] == EntryRows(es);
  }

  /** Each county's block opens with its name and runs through the four
      categories in the fixed order age, education, ethnicities, income. */
  lemma CountyRowsShape(c: County)
    ensures Headers(CountyRows(c)) == [c.name]
    ensures Sections(CountyRows(c)) == [Age, Education, Ethnicities, Income]
  {
    var head: seq<Row> := [CountyHeader(c.name), PopulationRow(c.pop2014)];
    assert head[1..][1..] == [];
    var s1, s2, s3, s4 := SectionRows(Age, c.age), SectionRows(Education, c.education),
                          SectionRows(Ethnicities, c.ethnicities), SectionRows(Income, c.income);
    SectionRowsShape(Age, c.age);
    SectionRowsShape(Education, c.education);
    SectionRowsShape(Ethnicities, c.ethnicities);
    SectionRowsShape(Income, c.income);
    HeadersConcat(head, s1);
    HeadersConcat(head + s1, s2);
    HeadersConcat(head + s1 + s2, s3);
    HeadersConcat(head + s1 + s2 + s3, s4);
  }

  /** `display` announces every county of the list, in order, none omitted. */
  lemma {:induction false} DisplayNamesEveryCounty(cs: seq<County>)
    ensures Headers(DisplayRows(cs)) == Names(cs)
  {
    if cs != [] {
      var n := |cs| - 1;
      DisplayNamesEveryCounty(cs[..n]);
      HeadersConcat(DisplayRows(cs[..n]), CountyRows(cs[n]));
      CountyRowsShape(cs[n]);
      assert Names(cs) == Names(cs[..n]) + [cs[n].name];
    }
  }

  /** Appends the rows of one category to `rows` */
  method EmitEntries(rows: seq<Row>, es: Entries) returns (out: seq<Row>)
    ensures out == rows + EntryRows(es)
  {
    out := rows;
    for j := 0 to |es|
      invariant out == rows + EntryRows(es[..j])
    {
      assert EntryRows(es[..j + 1]) == EntryRows(es[..j]) + [EntryRow(es[j].0, es[j].1)];
      out := out + [EntryRow(es[j].0, es[j].1)];
    }
    assert es[..|es|] == es;
  }

  /** One category of `display`: its heading, then its entries */
  method EmitSection(rows: seq<Row>, sec: Section, es: Entries) returns (out: seq<Row>)
    ensures out == rows + SectionRows(sec, es)
  {
    out := EmitEntries(rows + [SectionHeader(sec)], es);
  }

  /** The body of `display`'s outer loop: one county's lines appended to `rows` */
  method EmitCounty(rows: seq<Row>, c: County) returns (out: seq<Row>)
    ensures out == rows + CountyRows(c)
  {
    out := rows + [CountyHeader(c.name), PopulationRow(c.pop2014)];
    out := EmitSection(out, Age, c.age);
    out := EmitSection(out, Education, c.education);
    out := EmitSection(out, Ethnicities, c.ethnicities);
    out := EmitSection(out, Income, c.income);
  }

  /** `display`: the nested loops over counties and their categories */
  method Display(cs: seq<County>) returns (rows: seq<Row>)
    ensures rows == DisplayRows(cs)
  {
    rows := [];
    for i := 0 to |cs|
      invariant rows == DisplayRows(cs[..i])
    {
      rows := EmitCounty(rows, cs[i]);
      assert cs[..i + 1][..i] == cs[..i];
    }
    assert cs[..|cs|] == cs;
  }
}
