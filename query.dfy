/** `write_query`: the ADQL text of a region query against the Gaia DR3 source table. The
    numeric arguments `ra`, `dec` and `r` are taken as the text Python's f-string renders for
    them. */
module Query {
  import opened Wrappers
  import opened Text
  import opened Decimal

  /** The one error `write_query` raises: a region shape other than CIRCLE or BOX. */
  datatype QueryError = InvalidShape

  datatype Shape = Circle | Box

  /** `str.upper()` on one character: ASCII letters, and the dotless i that Python also maps to
      an ASCII capital. */
  function UpperChar(c: char): char {
    if 'a' <= c <= 'z' then (c as int - 32) as char
    else if c == '\U{0131}' then 'I'
    else c
  }

  function Upper(s: string): (u: string)
    ensures |u| == |s|
    ensures forall i :: 0 <= i < |s| ==> u[i] == UpperChar(s[i])
  {
    seq(|s|, i requires 0 <= i < |s| => UpperChar(s[i]))
  }

  /** The shape tag, compared after upper-casing. */
  function ParseShape(shape: string): Option<Shape> {
    var u := Upper(shape);
    if u == "CIRCLE" then Some(Circle)
    else if u == "BOX" then Some(Box)
    else None
  }

  const Indent: string := "    "

  /** The columns selected unless all rows are asked for. */
  const MinimalColumns: string := "source_id, ra, dec, parallax, " + "pmra, pmdec, phot_g_mean_mag, bp_rp"

  /** The five quality filters every query carries, in order. */
  const Filters: seq<string> := [
    "AND parallax > 0",
    "AND pmra IS NOT NULL",
    "AND pmdec IS NOT NULL",
    "AND phot_g_mean_mag IS NOT NULL",
    "AND bp_rp IS NOT NULL"
  ]

  /** Python truthiness of the `limit` argument: `None` and `0` are false. */
  predicate Truthy(limit: Option<int>) {
    limit.Some? && limit.value != 0
  }

  /** The region a source must lie in: a circle of radius `r`, or a box `r` wide and `r` high,
      around the centre. */
  function Region(shape: Shape, ra: string, dec: string, r: string): string {
    Call(if shape == Circle then "CIRCLE" else "BOX", RegionArgs(shape, ra, dec, r))
  }

  /** The arguments of the region: the frame, the centre, and the radius once for a circle or
      as width and height for a box. */
  function RegionArgs(shape: Shape, ra: string, dec: string, r: string): seq<string> {
    match shape
    case Circle => ["'ICRS'", " " + ra, " " + dec, " " + r]
    case Box => ["'ICRS'", " " + ra, " " + dec, " " + r, " " + r]
  }

  /** An ADQL function call `name(a,b,...)` with the given argument texts. */
  function Call(name: string, args: seq<string>): string
    requires |args| > 0
  {
    name + "(" + Join(args, ',') + ")"
  }

  function WhereClause(shape: Shape, ra: string, dec: string, r: string): string {
    "WHERE CONTAINS(POINT('ICRS', ra, dec), " + Region(shape, ra, dec, r) + ")=1"
  }

  /** `SELECT`, with `TOP limit` when the limit is truthy. */
  function SelectLine(limit: Option<int>): string {
    "SELECT" + (if Truthy(limit) then " TOP " + IntToString(limit.value) else "")
  }

  /** The selected columns and the angular distance from the centre, named `dist`. */
  function ColumnsLine(ra: string, dec: string, allRows: bool): string {
    (if allRows then "*" else MinimalColumns) + ", " + Distance(ra, dec) + " AS dist"
  }

  /** The angular distance of a source from the centre `(ra, dec)`. */
  function Distance(ra: string, dec: string): string {
    "DISTANCE(POINT('ICRS', ra, dec), " + "POINT('ICRS', " + ra + ", " + dec + "))"
  }

  function OrderLine(orderByDist: bool): string {
    if orderByDist then "ORDER BY dist ASC" else ""
  }

  /** The lines of the query text, first to last: an empty line (the text opens with a line
      break), the SELECT line, the column list, FROM, WHERE, the five filters, the optional
      ORDER BY, and the indentation before the closing quotes. */
  function QueryLines(ra: string, dec: string, s: Shape, r: string,
                      limit: Option<int>, allRows: bool, orderByDist: bool): seq<string>
  {
    [ "",
      Indent + SelectLine(limit),
      Indent + ColumnsLine(ra, dec, allRows),
      Indent + "FROM gaiadr3.gaia_source",
      Indent + WhereClause(s, ra, dec, r),
      Indent + Filters[0],
      Indent + Filters[1],
      Indent + Filters[2],
      Indent + Filters[3],
      Indent + Filters[4],
      Indent + OrderLine(orderByDist),
      Indent ]
  }

  /** `write_query(ra, dec, shape, r, limit, all_rows, order_by_dist)`: the triple-quoted
      query text, that is, its lines joined by line breaks. */
  function WriteQuery(ra: string, dec: string, shape: string, r: string,
                      limit: Option<int>, allRows: bool, orderByDist: bool): Result<string, QueryError>
  {
    match ParseShape(shape)
    case None => Err(InvalidShape)
    case Some(s) => Ok(Join(QueryLines(ra, dec, s, r, limit, allRows, orderByDist), '\n'))
  }

  /** `write_query(ra, dec, shape, r)` with the default arguments `limit=10000`,
      `all_rows=False` and `order_by_dist=True`. */
  function WriteQueryDefaults(ra: string, dec: string, shape: string, r: string): Result<string, QueryError> {
    WriteQuery(ra, dec, shape, r, Some(10000), false, true)
  }

  /** Splitting joined lines gives the lines back when none holds a line break and the last one
      is not empty. */
  lemma {:induction false} SplitLinesJoin(lines: seq<string>)
    requires |lines| > 0 && lines[|lines| - 1] != []
    requires forall i :: 0 <= i < |lines| ==> '\n' !in lines[i]
    ensures SplitLines(Join(lines, '\n')) == lines
  {
    if |lines| == 1 {
      SplitLinesLast(lines[0]);
    } else {
      SplitLinesJoin(lines[1..]);
      SplitLinesCons(lines[0], Join(lines[1..], '\n'));
    }
  }

  /** Neither the text of an integer nor any fixed part of the query holds a line break. */
  lemma QueryLinesOneEach(ra: string, dec: string, s: Shape, r: string,
                          limit: Option<int>, allRows: bool, orderByDist: bool)
    requires '\n' !in ra && '\n' !in dec && '\n' !in r
    ensures var ls := QueryLines(ra, dec, s, r, limit, allRows, orderByDist);
            |ls| == 12 && forall i :: 0 <= i < 12 ==> '\n' !in ls[i]
  {
    SelectOneLine(limit);
    ColumnsOneLine(ra, dec, allRows);
    WhereOneLine(s, ra, dec, r);
    TableTextOneLine();
    FiltersOneLine();
    SelectTextOneLine();
  }

  lemma SelectOneLine(limit: Option<int>)
    ensures '\n' !in SelectLine(limit)
  {
    SelectTextOneLine();
    if limit.Some? {
      var t := IntToString(limit.value);
      assert t[0] != '\n';
      assert forall k :: 0 < k < |t| ==> t[k] != '\n';
    }
  }

  lemma ColumnsOneLine(ra: string, dec: string, allRows: bool)
    requires '\n' !in ra && '\n' !in dec
    ensures '\n' !in ColumnsLine(ra, dec, allRows)
  {
    SelectTextOneLine();
    ColumnsTextOneLine();
    DistanceTextOneLine();
  }

  lemma SelectTextOneLine()
    ensures '\n' !in Indent && '\n' !in "SELECT" && '\n' !in " TOP " && '\n' !in "*"
  {
  }

  lemma ColumnsTextOneLine()
    ensures '\n' !in MinimalColumns
  {
    assert '\n' !in "source_id, ra, dec, parallax, " && '\n' !in "pmra, pmdec, phot_g_mean_mag, bp_rp";
  }

  lemma DistanceTextOneLine()
    ensures '\n' !in "DISTANCE(POINT('ICRS', ra, dec), " && '\n' !in "POINT('ICRS', "
    ensures '\n' !in ", " && '\n' !in "))" && '\n' !in " AS dist"
  {
  }

  lemma TableTextOneLine()
    ensures '\n' !in "FROM gaiadr3.gaia_source" && '\n' !in OrderLine(true) && '\n' !in OrderLine(false)
  {
  }

  lemma FiltersOneLine()
    ensures forall i :: 0 <= i < |Filters| ==> '\n' !in Filters[i]
  {
  }

  lemma WhereTextOneLine()
    ensures '\n' !in "WHERE CONTAINS(POINT('ICRS', ra, dec), " && '\n' !in ")=1"
    ensures '\n' !in "CIRCLE" && '\n' !in "BOX" && '\n' !in "(" && '\n' !in ")" && '\n' !in "'ICRS'"
  {
  }

  lemma WhereOneLine(s: Shape, ra: string, dec: string, r: string)
    requires '\n' !in ra && '\n' !in dec && '\n' !in r
    ensures '\n' !in WhereClause(s, ra, dec, r)
  {
    WhereTextOneLine();
    var args := RegionArgs(s, ra, dec, r);
    assert forall i :: 0 <= i < |args| ==> '\n' !in args[i];
    JoinAvoids(args, ',', '\n');
  }

  /** The lines of the returned query are recovered by splitting it: twelve of them, in the
      order the template writes them, as long as the centre and the radius are one-line texts. */
  lemma QueryLayout(ra: string, dec: string, shape: string, r: string,
                    limit: Option<int>, allRows: bool, orderByDist: bool)
    requires '\n' !in ra && '\n' !in dec && '\n' !in r
    ensures match WriteQuery(ra, dec, shape, r, limit, allRows, orderByDist)
            case Ok(q) => SplitLines(q) == QueryLines(ra, dec, ParseShape(shape).value, r, limit, allRows, orderByDist)
            case Err(_) => true
  {
    if ParseShape(shape).Some? {
      var ls := QueryLines(ra, dec, ParseShape(shape).value, r, limit, allRows, orderByDist);
      QueryLinesOneEach(ra, dec, ParseShape(shape).value, r, limit, allRows, orderByDist);
      SplitLinesJoin(ls);
    }
  }

  /** The SELECT line is the bare keyword exactly when the limit is falsy (`None` or zero), and
      `SELECT TOP limit` otherwise. */
  lemma TopClause(limit: Option<int>)
    ensures SelectLine(limit) == "SELECT" <==> !Truthy(limit)
    ensures Truthy(limit) ==> SelectLine(limit) == "SELECT TOP " + IntToString(limit.value)
  {
    if Truthy(limit) {
      assert |SelectLine(limit)| > |"SELECT"|;
    }
  }

  /** The ORDER BY line orders by distance from the centre exactly when asked to, and is left
      empty otherwise. */
  lemma OrderClause(orderByDist: bool)
    ensures OrderLine(orderByDist) == "ORDER BY dist ASC" <==> orderByDist
    ensures OrderLine(orderByDist) == [] <==> !orderByDist
  {
  }

  /** The column list starts with `*` exactly when all columns are asked for and with the eight
      fixed columns otherwise, and always ends with the distance from the centre, named `dist`. */
  lemma ColumnsClause(ra: string, dec: string, allRows: bool)
    ensures ColumnsLine(ra, dec, allRows) != [] && (ColumnsLine(ra, dec, allRows)[0] == '*' <==> allRows)
    ensures (if allRows then "*" else MinimalColumns) + ", " <= ColumnsLine(ra, dec, allRows)
    ensures var c := ColumnsLine(ra, dec, allRows);
            |c| >= 8 && c[|c| - 8..] == " AS dist"
  {
    var front := if allRows then "*" else MinimalColumns;
    Framed(front + ", ", Distance(ra, dec), " AS dist");
    assert front != [] && (front[0] == '*' <==> allRows);
  }

  /** The comma-separated arguments of a call `NAME(a, b, ...)`: the text between the first
      opening parenthesis and the closing one at the end, split on commas. */
  function Arguments(call: string): seq<string> {
    var k := Find(call, '(');
    if k + 2 <= |call| then Split(call[k + 1..|call| - 1], ',') else []
  }

  /** A call of a name without parenthesis has its arguments back when none holds a comma. */
  lemma CallArguments(name: string, args: seq<string>)
    requires '(' !in name && |args| > 0
    requires forall i :: 0 <= i < |args| ==> ',' !in args[i]
    ensures Arguments(Call(name, args)) == args
  {
    var inner := Join(args, ',');
    var call := name + ['('] + (inner + ")");
    assert Call(name, args) == call;
    FindAfter(name, '(', inner + ")");
    assert call[|name| + 1..|call| - 1] == inner;
    SplitJoin(args, ',');
  }

  /** A circle has four arguments, the last being the radius `r`; a box has five, `r` being both
      its width and its height. Both are centred on `ra`, `dec`. */
  lemma RegionArguments(ra: string, dec: string, r: string)
    requires ',' !in ra && ',' !in dec && ',' !in r
    ensures Arguments(Region(Circle, ra, dec, r)) == ["'ICRS'", " " + ra, " " + dec, " " + r]
    ensures Arguments(Region(Box, ra, dec, r)) == ["'ICRS'", " " + ra, " " + dec, " " + r, " " + r]
  {
    assert '(' !in "CIRCLE" && '(' !in "BOX";
    var circle, box := RegionArgs(Circle, ra, dec, r), RegionArgs(Box, ra, dec, r);
    assert forall i :: 0 <= i < |circle| ==> ',' !in circle[i];
    assert forall i :: 0 <= i < |box| ==> ',' !in box[i];
    CallArguments("CIRCLE", circle);
    CallArguments("BOX", box);
  }

  /** Every query holds the five quality filters, one per line, in order, right after the WHERE
      line; its second line is the SELECT line and its eleventh the ORDER BY line. */
  lemma QueryClauses(ra: string, dec: string, shape: string, r: string,
                     limit: Option<int>, allRows: bool, orderByDist: bool)
    requires '\n' !in ra && '\n' !in dec && '\n' !in r
    requires WriteQuery(ra, dec, shape, r, limit, allRows, orderByDist).Ok?
    ensures var lines := SplitLines(WriteQuery(ra, dec, shape, r, limit, allRows, orderByDist).value);
            && |lines| == 12
            && lines[1] == Indent + SelectLine(limit)
            && lines[2] == Indent + ColumnsLine(ra, dec, allRows)
            && lines[3] == Indent + "FROM gaiadr3.gaia_source"
            && lines[4] == Indent + WhereClause(ParseShape(shape).value, ra, dec, r)
            && (forall i :: 0 <= i < |Filters| ==> lines[5 + i] == Indent + Filters[i])
            && lines[10] == Indent + OrderLine(orderByDist)
  {
    QueryLayout(ra, dec, shape, r, limit, allRows, orderByDist);
  }

  /** `str.upper()` leaves upper-case text as it is. */
  lemma UpperIdempotent(s: string)
    ensures Upper(Upper(s)) == Upper(s)
  {
    forall i | 0 <= i < |s|
      ensures UpperChar(UpperChar(s[i])) == UpperChar(s[i])
    {
    }
  }

  /** The shape tag is read without regard to case: a tag and its upper-cased form select the
      same shape, and only the two region keywords select one. */
  lemma ShapeCaseInsensitive(shape: string)
    ensures ParseShape(Upper(shape)) == ParseShape(shape)
    ensures ParseShape(shape).Some? <==> Upper(shape) == "CIRCLE" || Upper(shape) == "BOX"
  {
    UpperIdempotent(shape);
  }

  /** `write_query` raises its error exactly for a shape tag that is neither keyword in any
      case, whatever the other arguments are. */
  lemma InvalidShapeOnly(ra: string, dec: string, shape: string, r: string,
                         limit: Option<int>, allRows: bool, orderByDist: bool)
    ensures WriteQuery(ra, dec, shape, r, limit, allRows, orderByDist) == Err(InvalidShape)
        <==> Upper(shape) != "CIRCLE" && Upper(shape) != "BOX"
  {
  }

  /** Examples of the tag check: mixed case is accepted, other shapes are not. */
  lemma ShapeExamples()
    ensures ParseShape("circle") == Some(Circle)
    ensures ParseShape("Box") == Some(Box)
    ensures ParseShape("polygon") == None
    ensures ParseShape("") == None
  {
    assert Upper("circle") == "CIRCLE";
    assert Upper("Box") == "BOX";
    assert |Upper("polygon")| == 7;
  }

  /** With the default arguments the query selects the first 10000 rows, the eight fixed columns
      and the distance, and orders them by distance. */
  lemma DefaultQuery(ra: string, dec: string, shape: string, r: string)
    requires '\n' !in ra && '\n' !in dec && '\n' !in r
    requires WriteQueryDefaults(ra, dec, shape, r).Ok?
    ensures var lines := SplitLines(WriteQueryDefaults(ra, dec, shape, r).value);
            && |lines| == 12
            && lines[1] == Indent + "SELECT TOP 10000"
            && Indent + MinimalColumns + ", " <= lines[2]
            && lines[10] == Indent + "ORDER BY dist ASC"
  {
    QueryClauses(ra, dec, shape, r, Some(10000), false, true);
    TopClause(Some(10000));
    TenThousand();
    ColumnsClause(ra, dec, false);
    assert Indent + (MinimalColumns + ", ") <= Indent + ColumnsLine(ra, dec, false);
  }

  lemma TenThousand()
    ensures IntToString(10000) == "10000"
  {
    assert NatToString(1) == "1";
    assert NatToString(10) == "10";
    assert NatToString(100) == "100";
    assert NatToString(1000) == "1000";
  }
}
