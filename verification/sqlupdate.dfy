/** `sqlForPartialUpdate(dataToUpdate, jsToSql)`: the SET-clause builder for
    partial UPDATE statements. The update object is an ordered list of
    (field, value) pairs in the object's key order; the alias object maps
    some field names to column names. The result pairs a fragment
    `"col1"=$1, "col2"=$2, ...` with the values to bind, in the same order. */
module SqlUpdate {
  import opened Types
  import opened Decimal

  /** The update object, in key-enumeration order. */
  type Updates = seq<(string, Json)>

  /** `{ setCols, values }`. */
  datatype SetClause = SetClause(setCols: string, values: seq<Json>)

  /** The column a field is written to: its alias, or its own name. */
  function Column(aliases: map<string, string>, field: string): (c: string)
    ensures field in aliases ==> c == aliases[field]
    ensures field !in aliases ==> c == field
  {
    if field in aliases then aliases[field] else field
  }

  /** One assignment: the double-quoted column, `=`, `$` and its position. */
  function Clause(column: string, position: nat): (c: string) {
    "\"" + column + "\"=$" + NatToString(position)
  }

  /** `parts.join(sep)`. */
  function Join(parts: seq<string>, sep: string): (joined: string) {
    if |parts| == 0 then ""
    else if |parts| == 1 then parts[0]
    else parts[0] + sep + Join(parts[1..], sep)
  }

  /** The column names, in key order. */
  function Columns(data: Updates, aliases: map<string, string>): (cols: seq<string>)
    ensures |cols| == |data|
    ensures forall i :: 0 <= i < |data| ==> cols[i] == Column(aliases, data[i].0)
  {
    seq(|data|, i requires 0 <= i < |data| => Column(aliases, data[i].0))
  }

  /** The clauses numbered consecutively from `first`. */
  function Clauses(cols: seq<string>, first: nat): (cs: seq<string>)
    ensures |cs| == |cols|
    ensures forall i :: 0 <= i < |cols| ==> cs[i] == Clause(cols[i], first + i)
  {
    seq(|cols|, i requires 0 <= i < |cols| => Clause(cols[i], first + i))
  }

  /** `sqlForPartialUpdate`. An empty update object is a `BadRequest`;
      otherwise the values come out in key order, one per key, each the
      value stored under that key. */
  function SqlForPartialUpdate(data: Updates, aliases: map<string, string>): (r: Result<SetClause, Error>)
    ensures data == [] <==> r.Failure?
    ensures r.Failure? ==> r.error.BadRequest?
    ensures r.Success? ==> |r.value.values| == |data|
    ensures r.Success? ==> forall i :: 0 <= i < |data| ==> r.value.values[i] == data[i].1
  {
    if |data| == 0 then Failure(BadRequest(Text("No data")))
    else
      var setCols := Join(Clauses(Columns(data, aliases), 1), ", ");
      var values := seq(|data|, i requires 0 <= i < |data| => data[i].1);
      Success(SetClause(setCols, values))
  }

  // ---------------------------------------------------------------------
  // Reading a fragment back: the independent description of what the
  // fragment says, used to state that clause i binds placeholder i + 1.
  // ---------------------------------------------------------------------

  /** The position of the first `c` in `s`. */
  function IndexOf(s: string, c: char): (r: Option<nat>)
    ensures r.Some? ==> r.value < |s| && s[r.value] == c && c !in s[..r.value]
    ensures r.None? ==> c !in s
  {
    if s == [] then None
    else if s[0] == c then Some(0)
    else match IndexOf(s[1..], c)
      case None => None
      case Some(k) => assert s[..k + 1] == [s[0]] + s[1..][..k]; Some(k + 1)
  }

  /** The longest prefix of `s` made of digits. */
  function TakeDigits(s: string): (d: string)
    ensures |d| <= |s| && d == s[..|d|]
    ensures forall i :: 0 <= i < |d| ==> IsDigit(d[i])
    ensures |d| < |s| ==> !IsDigit(s[|d|])
  {
    if s != [] && IsDigit(s[0]) then [s[0]] + TakeDigits(s[1..]) else []
  }

  /** Reads `"column"` off the front of `s`: the column and what follows. */
  function ParseQuoted(s: string): (r: Option<(string, string)>)
    ensures r.Some? ==> |r.value.1| < |s|
  {
    if s == [] || s[0] != '"' then None
    else match IndexOf(s[1..], '"')
      case None => None
      case Some(k) => Some((s[1..k + 1], s[k + 2..]))
  }

  /** Reads `=$n` off the front of `s`: the number and what follows. */
  function ParsePlaceholder(s: string): (r: Option<(nat, string)>)
    ensures r.Some? ==> |r.value.1| < |s|
  {
    if |s| < 2 || s[..2] != "=$" then None
    else
      var digits := TakeDigits(s[2..]);
      if digits == [] then None
      else Some((DigitsValue(digits), s[2 + |digits|..]))
  }

  /** Reads `"column"=$n` off the front of `s`, returning the column, the
      placeholder number and what follows. */
  function ParseClause(s: string): (r: Option<(string, nat, string)>)
    ensures r.Some? ==> |r.value.2| < |s|
  {
    match ParseQuoted(s)
    case None => None
    case Some((column, after)) =>
      match ParsePlaceholder(after)
      case None => None
      case Some((position, rest)) => Some((column, position, rest))
  }

  /** Reads a whole fragment: clauses separated by `, `, as the list of
      (column, placeholder) pairs it assigns, or `None` if it is not such
      a fragment. */
  function ParseSetCols(s: string): (r: Option<seq<(string, nat)>>)
    ensures r.Some? ==> r.value != []
    decreases |s|
  {
    match ParseClause(s)
    case None => None
    case Some((column, position, rest)) =>
      if rest == [] then Some([(column, position)])
      else if |rest| >= 2 && rest[..2] == ", " then
        match ParseSetCols(rest[2..])
        case None => None
        case Some(more) => Some([(column, position)] + more)
      else None
  }

  lemma {:induction false} IndexOfAfterQuoteFree(column: string, tail: string)
    requires '"' !in column
    ensures IndexOf(column + "\"" + tail, '"') == Some(|column|)
    decreases |column|
  {
    var s := column + "\"" + tail;
    if column != [] {
      assert s[1..] == column[1..] + "\"" + tail;
      IndexOfAfterQuoteFree(column[1..], tail);
    }
  }

  lemma {:induction false} TakeDigitsStopsAtNonDigit(digits: string, tail: string)
    requires forall i :: 0 <= i < |digits| ==> IsDigit(digits[i])
    requires tail == [] || !IsDigit(tail[0])
    ensures TakeDigits(digits + tail) == digits
    decreases |digits|
  {
    if digits != [] {
      assert (digits + tail)[1..] == digits[1..] + tail;
      TakeDigitsStopsAtNonDigit(digits[1..], tail);
    }
  }

  lemma ParseQuotedOf(column: string, tail: string)
    requires '"' !in column
    ensures ParseQuoted("\"" + column + "\"" + tail) == Some((column, tail))
  {
    var s := "\"" + column + "\"" + tail;
    assert s[1..] == column + "\"" + tail;
    IndexOfAfterQuoteFree(column, tail);
    assert s[1..|column| + 1] == column;
    assert s[|column| + 2..] == tail;
  }

  lemma ParsePlaceholderOf(position: nat, tail: string)
    requires tail == [] || !IsDigit(tail[0])
    ensures ParsePlaceholder("=$" + NatToString(position) + tail) == Some((position, tail))
  {
    var num := NatToString(position);
    var s := "=$" + num + tail;
    assert s[..2] == "=$";
    assert s[2..] == num + tail;
    TakeDigitsStopsAtNonDigit(num, tail);
    NatToStringRoundTrip(position);
    assert s[2 + |num|..] == tail;
  }

  /** A clause followed by anything that does not continue its number
      reads back as that clause. */
  lemma ParseClauseOfClause(column: string, position: nat, tail: string)
    requires '"' !in column
    requires tail == [] || !IsDigit(tail[0])
    ensures ParseClause(Clause(column, position) + tail) == Some((column, position, tail))
  {
    var after := "=$" + NatToString(position) + tail;
    assert Clause(column, position) + tail == "\"" + column + "\"" + after;
    ParseQuotedOf(column, after);
    ParsePlaceholderOf(position, tail);
  }

  /** The columns paired with consecutive placeholder numbers from `first`. */
  function Numbered(cols: seq<string>, first: nat): (ps: seq<(string, nat)>)
    ensures |ps| == |cols|
    ensures forall i :: 0 <= i < |cols| ==> ps[i] == (cols[i], first + i)
  {
    seq(|cols|, i requires 0 <= i < |cols| => (cols[i], first + i))
  }

  /** The last clause of a fragment. */
  lemma ParseLastClause(column: string, position: nat)
    requires '"' !in column
    ensures ParseSetCols(Clause(column, position)) == Some([(column, position)])
  {
    assert Clause(column, position) + "" == Clause(column, position);
    ParseClauseOfClause(column, position, "");
  }

  /** A clause followed by the separator and the rest of the fragment. */
  lemma ParseNextClause(column: string, position: nat, rest: string)
    requires '"' !in column
    ensures ParseSetCols(Clause(column, position) + ", " + rest)
            == match ParseSetCols(rest)
               case None => None
               case Some(more) => Some([(column, position)] + more)
  {
    var tail := ", " + rest;
    assert Clause(column, position) + ", " + rest == Clause(column, position) + tail;
    ParseClauseOfClause(column, position, tail);
    assert tail[..2] == ", " && tail[2..] == rest;
  }

  /** A join of two or more parts is the first part, the separator and
      the join of the others. */
  lemma JoinCons(parts: seq<string>, sep: string)
    requires |parts| >= 2
    ensures Join(parts, sep) == parts[0] + sep + Join(parts[1..], sep)
  {
  }

  /** Dropping the first clause leaves the clauses of the other columns,
      numbered from the next position. */
  lemma ClausesTail(cols: seq<string>, first: nat)
    requires cols != []
    ensures Clauses(cols, first)[0] == Clause(cols[0], first)
    ensures Clauses(cols, first)[1..] == Clauses(cols[1..], first + 1)
  {
    var cs := Clauses(cols, first);
    var ts := Clauses(cols[1..], first + 1);
    forall i | 0 <= i < |ts|
      ensures cs[1..][i] == ts[i]
    {
      assert cols[1..][i] == cols[i + 1];
    }
  }

  /** The fragment built from a list of quote-free columns numbered from
      `first` reads back as exactly those columns with consecutive
      placeholders. */
  lemma {:induction false} ParseJoinedClauses(cols: seq<string>, first: nat)
    requires cols != []
    requires forall i :: 0 <= i < |cols| ==> '"' !in cols[i]
    ensures ParseSetCols(Join(Clauses(cols, first), ", ")) == Some(Numbered(cols, first))
    decreases |cols|
  {
    var cs := Clauses(cols, first);
    var expected := Numbered(cols, first);
    if |cols| == 1 {
      ParseLastClause(cols[0], first);
      assert expected == [(cols[0], first)];
    } else {
      var rest := Join(cs[1..], ", ");
      JoinCons(cs, ", ");
      ClausesTail(cols, first);
      ParseJoinedClauses(cols[1..], first + 1);
      ParseNextClause(cols[0], first, rest);
      var later := Numbered(cols[1..], first + 1);
      assert expected == [(cols[0], first)] + later by {
        forall i | 1 <= i < |cols|
          ensures expected[i] == later[i - 1]
        {
        }
      }
    }
  }

  /** The alignment invariant. For an update whose column names contain no
      double quote, the fragment assigns, in key order, the i-th key's
      column to placeholder `$(i+1)`, and `values[i]` is the i-th key's
      value, so the placeholder binds exactly the value of its own key.
      The fragment has one clause per key. */
  lemma SetClauseAlignment(data: Updates, aliases: map<string, string>)
    requires data != []
    requires forall i :: 0 <= i < |data| ==> '"' !in Column(aliases, data[i].0)
    ensures SqlForPartialUpdate(data, aliases).Success?
    ensures var r := SqlForPartialUpdate(data, aliases).value;
            var pairs := ParseSetCols(r.setCols);
            && pairs.Some?
            && |pairs.value| == |data| == |r.values|
            && forall i :: 0 <= i < |data| ==>
                 && pairs.value[i] == (Column(aliases, data[i].0), i + 1)
                 && r.values[pairs.value[i].1 - 1] == data[i].1
  {
    var cols := Columns(data, aliases);
    var r := SqlForPartialUpdate(data, aliases).value;
    assert r.setCols == Join(Clauses(cols, 1), ", ");
    ParseJoinedClauses(cols, 1);
    var pairs := Numbered(cols, 1);
    assert ParseSetCols(r.setCols) == Some(pairs);
    forall i | 0 <= i < |data|
      ensures pairs[i] == (Column(aliases, data[i].0), i + 1) && r.values[pairs[i].1 - 1] == data[i].1
    {
    }
  }

  /** Values never reach the fragment: two updates with the same keys in
      the same order give the same `setCols`, whatever their values. */
  lemma SetColsIgnoresValues(a: Updates, b: Updates, aliases: map<string, string>)
    requires |a| == |b| && a != []
    requires forall i :: 0 <= i < |a| ==> a[i].0 == b[i].0
    ensures SqlForPartialUpdate(a, aliases).value.setCols == SqlForPartialUpdate(b, aliases).value.setCols
  {
    assert Columns(a, aliases) == Columns(b, aliases);
  }

  /** The empty update object is refused, whatever the aliases. */
  lemma EmptyUpdateRejected(aliases: map<string, string>)
    ensures SqlForPartialUpdate([], aliases).Failure?
    ensures SqlForPartialUpdate([], aliases).error.BadRequest?
  {
  }

  /** The worked example: first and last name aliased, age not. */
  lemma AliasedExample()
    ensures SqlForPartialUpdate(
              [("firstName", JStr("Test")), ("lastName", JStr("User")), ("age", JNum(25))],
              map["firstName" := "first_name", "lastName" := "last_name"])
            == Success(SetClause("\"first_name\"=$1, \"last_name\"=$2, \"age\"=$3",
                                 [JStr("Test"), JStr("User"), JNum(25)]))
  {
    var data := [("firstName", JStr("Test")), ("lastName", JStr("User")), ("age", JNum(25))];
    var aliases := map["firstName" := "first_name", "lastName" := "last_name"];
    ExampleColumns();
    ExampleFragment();
    var values := [JStr("Test"), JStr("User"), JNum(25)];
    assert SqlForPartialUpdate(data, aliases).value.values == values;
  }

  lemma ExampleColumns()
    ensures Columns([("firstName", JStr("Test")), ("lastName", JStr("User")), ("age", JNum(25))],
                    map["firstName" := "first_name", "lastName" := "last_name"])
            == ["first_name", "last_name", "age"]
  {
    assert "age" != "firstName" && "age" != "lastName";
  }

  lemma ExampleFragment()
    ensures Join(Clauses(["first_name", "last_name", "age"], 1), ", ")
            == "\"first_name\"=$1, \"last_name\"=$2, \"age\"=$3"
  {
    ExampleClauses();
    JoinThree("\"first_name\"=$1", "\"last_name\"=$2", "\"age\"=$3");
    ExampleConcat();
  }

  lemma ExampleConcat()
    ensures "\"first_name\"=$1" + ", " + ("\"last_name\"=$2" + ", " + "\"age\"=$3")
            == "\"first_name\"=$1, \"last_name\"=$2, \"age\"=$3"
  {
  }

  lemma ExampleClauses()
    ensures Clauses(["first_name", "last_name", "age"], 1)
            == ["\"first_name\"=$1", "\"last_name\"=$2", "\"age\"=$3"]
  {
    assert NatToString(1) == "1" && NatToString(2) == "2" && NatToString(3) == "3";
    assert Clause("first_name", 1) == "\"first_name\"=$1";
    assert Clause("last_name", 2) == "\"last_name\"=$2";
    assert Clause("age", 3) == "\"age\"=$3";
  }

  lemma JoinThree(a: string, b: string, c: string)
    ensures Join([a, b, c], ", ") == a + ", " + (b + ", " + c)
  {
    assert [b, c][1..] == [c];
    assert Join([c], ", ") == c;
    assert Join([b, c], ", ") == b + ", " + c;
    assert [a, b, c][1..] == [b, c];
  }
}
