/**
 * The statement builders buildInsertSql and buildUpdateSql of utils.go.
 *
 * Each turns a field -> value mapping into a `?`-parameterised statement and
 * the positional values that go with it. The Go map is given here as a
 * sequence of (field, value) pairs with distinct fields: one iteration order
 * of the map. Nothing below depends on which order it is.
 *
 * The statements are specified by functions of the field NAMES only
 * (InsertStatement, UpdateStatement), so values can never reach the SQL text;
 * the lemmas show that the SET list decodes back to the field names in order
 * and that the statement holds one placeholder per field.
 */
module SqlBuilder {
  import opened Options

  /** A Go map iterated in one particular order: no field occurs twice. */
  predicate DistinctFields<V>(data: seq<(string, V)>) {
    forall i, j :: 0 <= i < j < |data| ==> data[i].0 != data[j].0
  }

  /** The field names of `data`, in iteration order. */
  function Fields<V>(data: seq<(string, V)>): (fs: seq<string>)
    ensures |fs| == |data| && forall k :: 0 <= k < |data| ==> fs[k] == data[k].0
  {
    seq(|data|, k requires 0 <= k < |data| => data[k].0)
  }

  /** One SET clause: the field name in backticks, bound to a placeholder. */
  function Clause(field: string): string {
    "`" + field + "` = ?"
  }

  /** Go's strings.Join: the parts with `sep` between neighbours, and nowhere else. */
  function Join(parts: seq<string>, sep: string): string {
    if |parts| == 0 then ""
    else if |parts| == 1 then parts[0]
    else parts[0] + sep + Join(parts[1..], sep)
  }

  /** The SET list for the given field names, in their order. */
  function SetList(fields: seq<string>): string {
    Join(seq(|fields|, k requires 0 <= k < |fields| => Clause(fields[k])), ", ")
  }

  /** The statement buildInsertSql builds: "<insertType> INTO <table> SET <set list>". */
  function InsertStatement(fields: seq<string>, tblName: string, insertType: string): string {
    insertType + " INTO " + tblName + " SET " + SetList(fields)
  }

  /** The statement buildUpdateSql builds: "UPDATE <table> SET <set list> WHERE <where>". */
  function UpdateStatement(fields: seq<string>, tblName: string, whereStr: string): string {
    "UPDATE " + tblName + " SET " + SetList(fields) + " WHERE " + whereStr
  }

  /**
   * buildInsertSql: the statement over the field names, and the values in
   * the same order, so that the k-th clause's `?` binds the k-th value.
   */
  method BuildInsertSql<V>(data: seq<(string, V)>, tblName: string, insertType: string)
    returns (sql: string, values: seq<V>)
    requires DistinctFields(data)
    ensures sql == InsertStatement(Fields(data), tblName, insertType)
    ensures |values| == |data| && forall k :: 0 <= k < |data| ==> values[k] == data[k].1
    ensures data == [] ==> sql == insertType + " INTO " + tblName + " SET " && values == []
  {
    var clauses: seq<string> := [];
    values := [];
    for i := 0 to |data|
      invariant |clauses| == i && forall k :: 0 <= k < i ==> clauses[k] == Clause(data[k].0)
      invariant |values| == i && forall k :: 0 <= k < i ==> values[k] == data[k].1
    {
      clauses := clauses + [Clause(data[i].0)];
      values := values + [data[i].1];
    }
    var fields := Fields(data);
    assert clauses == seq(|fields|, k requires 0 <= k < |fields| => Clause(fields[k]));
    var setStr := Join(clauses, ", ");
    sql := insertType + " INTO " + tblName + " SET " + setStr;
  }

  /**
   * buildUpdateSql: the statement over the field names, and the values in
   * clause order followed by the WHERE arguments in their given order.
   */
  method BuildUpdateSql<V>(data: seq<(string, V)>, tblName: string, whereStr: string, whereArgs: seq<V>)
    returns (sql: string, values: seq<V>)
    requires DistinctFields(data)
    ensures sql == UpdateStatement(Fields(data), tblName, whereStr)
    ensures |values| == |data| + |whereArgs|
    ensures forall k :: 0 <= k < |data| ==> values[k] == data[k].1
    ensures forall k :: 0 <= k < |whereArgs| ==> values[|data| + k] == whereArgs[k]
  {
    var clauses: seq<string> := [];
    values := [];
    for i := 0 to |data|
      invariant |clauses| == i && forall k :: 0 <= k < i ==> clauses[k] == Clause(data[k].0)
      invariant |values| == i && forall k :: 0 <= k < i ==> values[k] == data[k].1
    {
      clauses := clauses + [Clause(data[i].0)];
      values := values + [data[i].1];
    }
    var fields := Fields(data);
    assert clauses == seq(|fields|, k requires 0 <= k < |fields| => Clause(fields[k]));
    var setStr := Join(clauses, ", ");
    sql := "UPDATE " + tblName + " SET " + setStr + " WHERE " + whereStr;
    if |whereArgs| > 0 {
      values := values + whereArgs;
    }
  }

  // ---------------------------------------------------------------------------
  // Decoding the SET list: only field names are quoted, and they come back in order

  /** The position of the first `c` in `s`, or |s| when there is none. */
  function IndexOf(s: string, c: char): (i: nat)
    ensures i <= |s|
    ensures forall j :: 0 <= j < i ==> s[j] != c
    ensures i < |s| ==> s[i] == c
  {
    if s == [] || s[0] == c then 0 else 1 + IndexOf(s[1..], c)
  }

  /** Reads a nonempty SET list "`f1` = ?, `f2` = ?, ..." back into its field names. */
  function ParseClauses(s: string): Option<seq<string>>
    decreases |s|
  {
    if s == [] || s[0] != '`' then None
    else
      var close := 1 + IndexOf(s[1..], '`');
      if |s| < close + 5 || s[close..close + 5] != "` = ?" then None
      else
        var rest := s[close + 5..];
        if rest == [] then Some([s[1..close]])
        else if |rest| < 2 || rest[..2] != ", " then None
        else
          match ParseClauses(rest[2..])
          case None => None
          case Some(more) => Some([s[1..close]] + more)
  }

  /** Reads a SET list back into its field names; the empty list has none. */
  function ParseSetList(s: string): Option<seq<string>> {
    if s == [] then Some([]) else ParseClauses(s)
  }

  predicate NoBacktick(fields: seq<string>) {
    forall k :: 0 <= k < |fields| ==> '`' !in fields[k]
  }

  lemma {:induction false} IndexOfAfter(f: string, tail: string)
    requires '`' !in f
    ensures IndexOf(f + "`" + tail, '`') == |f|
  {
    if f != [] {
      assert (f + "`" + tail)[1..] == f[1..] + "`" + tail;
      IndexOfAfter(f[1..], tail);
    }
  }

  /** The SET list of one field followed by the rest of the list. */
  lemma SetListCons(fields: seq<string>)
    requires fields != []
    ensures SetList(fields) == Clause(fields[0]) +
              (if |fields| == 1 then "" else ", " + SetList(fields[1..]))
  {
    var cs := seq(|fields|, k requires 0 <= k < |fields| => Clause(fields[k]));
    var rest := fields[1..];
    assert cs[1..] == seq(|rest|, k requires 0 <= k < |rest| => Clause(rest[k]));
  }

  /** Parsing a SET list whose first clause quotes `f`: `f` comes first, then whatever follows ", " parses to. */
  lemma ParseFirstClause(f: string, tail: string)
    requires '`' !in f
    ensures ParseClauses("`" + f + "` = ?" + tail) ==
              if tail == [] then Some([f])
              else if |tail| < 2 || tail[..2] != ", " then None
              else match ParseClauses(tail[2..])
                   case None => None
                   case Some(more) => Some([f] + more)
  {
    var s := "`" + f + "` = ?" + tail;
    assert s[1..] == f + "`" + (" = ?" + tail);
    IndexOfAfter(f, " = ?" + tail);
    var close := 1 + |f|;
    assert s[close..close + 5] == "` = ?";
    assert s[1..close] == f;
    assert s[close + 5..] == tail;
  }

  /** Decoding the SET list gives back exactly the field names, in order. */
  lemma {:induction false} SetListDecodes(fields: seq<string>)
    requires NoBacktick(fields)
    ensures ParseSetList(SetList(fields)) == Some(fields)
    decreases |fields|
  {
    if fields != [] {
      var f := fields[0];
      SetListCons(fields);
      var tail := if |fields| == 1 then "" else ", " + SetList(fields[1..]);
      assert SetList(fields) == "`" + f + "` = ?" + tail;
      ParseFirstClause(f, tail);
      if |fields| == 1 {
        assert fields == [f];
      } else {
        var rest := fields[1..];
        assert NoBacktick(rest) by {
          forall k | 0 <= k < |rest| ensures '`' !in rest[k] {
            assert rest[k] == fields[k + 1];
          }
        }
        SetListDecodes(rest);
        assert SetList(rest) != [] by {
          SetListCons(rest);
        }
        assert tail[..2] == ", " && tail[2..] == SetList(rest);
        assert [f] + rest == fields;
      }
    }
  }

  /**
   * Field names are quoted without escaping: a field name holding a backtick
   * does not come back from the SET list.
   */
  lemma BacktickBreaksQuoting()
    ensures ParseSetList(SetList(["a`b"])) != Some(["a`b"])
  {
    var s := SetList(["a`b"]);
    SetListCons(["a`b"]);
    assert s == "`a`b` = ?";
    assert IndexOf(s[1..], '`') == 1;
    assert s[2..7][1] == 'b';
  }

  /**
   * An insert statement is insertType, " INTO ", the table name and " SET "
   * verbatim, followed by a SET list that decodes to the field names.
   */
  lemma InsertStatementDecodes(fields: seq<string>, tblName: string, insertType: string)
    requires NoBacktick(fields)
    ensures var head := insertType + " INTO " + tblName + " SET ";
            var sql := InsertStatement(fields, tblName, insertType);
            |head| <= |sql| && sql[..|head|] == head && ParseSetList(sql[|head|..]) == Some(fields)
  {
    var head := insertType + " INTO " + tblName + " SET ";
    var sql := InsertStatement(fields, tblName, insertType);
    assert sql[|head|..] == SetList(fields);
    SetListDecodes(fields);
  }

  /**
   * An update statement is "UPDATE ", the table name and " SET " verbatim, a
   * SET list that decodes to the field names, then " WHERE " and the WHERE
   * string verbatim.
   */
  lemma UpdateStatementDecodes(fields: seq<string>, tblName: string, whereStr: string)
    requires NoBacktick(fields)
    ensures var head := "UPDATE " + tblName + " SET ";
            var foot := " WHERE " + whereStr;
            var sql := UpdateStatement(fields, tblName, whereStr);
            |head| + |foot| <= |sql| && sql[..|head|] == head && sql[|sql| - |foot|..] == foot &&
            ParseSetList(sql[|head|..|sql| - |foot|]) == Some(fields)
  {
    var head := "UPDATE " + tblName + " SET ";
    var foot := " WHERE " + whereStr;
    var sql := UpdateStatement(fields, tblName, whereStr);
    assert sql == head + SetList(fields) + foot;
    assert sql[|head|..|sql| - |foot|] == SetList(fields);
    SetListDecodes(fields);
  }

  // ---------------------------------------------------------------------------
  // Placeholders: one `?` per field

  /** The number of `c` in `s`. */
  function Count(s: string, c: char): nat {
    if s == [] then 0 else (if s[0] == c then 1 else 0) + Count(s[1..], c)
  }

  lemma {:induction false} CountAppend(a: string, b: string, c: char)
    ensures Count(a + b, c) == Count(a, c) + Count(b, c)
    decreases |a|
  {
    if a == [] {
      assert a + b == b;
    } else {
      assert (a + b)[1..] == a[1..] + b;
      CountAppend(a[1..], b, c);
    }
  }

  lemma {:induction false} CountAbsent(s: string, c: char)
    requires c !in s
    ensures Count(s, c) == 0
    decreases |s|
  {
    if s != [] {
      CountAbsent(s[1..], c);
    }
  }

  predicate NoPlaceholder(fields: seq<string>) {
    forall k :: 0 <= k < |fields| ==> '?' !in fields[k]
  }

  /** The SET list holds one `?` per field. */
  lemma {:induction false} SetListPlaceholders(fields: seq<string>)
    requires NoPlaceholder(fields)
    ensures Count(SetList(fields), '?') == |fields|
    decreases |fields|
  {
    if fields != [] {
      var f := fields[0];
      SetListCons(fields);
      CountAbsent(f, '?');
      CountAppend("`" + f, "` = ?", '?');
      CountAppend("`", f, '?');
      assert Count("`", '?') == 0;
      assert Count("` = ?", '?') == 1;
      if |fields| > 1 {
        var rest := fields[1..];
        assert NoPlaceholder(rest) by {
          forall k | 0 <= k < |rest| ensures '?' !in rest[k] {
            assert rest[k] == fields[k + 1];
          }
        }
        SetListPlaceholders(rest);
        CountAppend(Clause(f), ", " + SetList(rest), '?');
        CountAppend(", ", SetList(rest), '?');
        assert Count(", ", '?') == 0;
      }
    }
  }

  /** A field name holding `?` adds a second `?` to its clause. */
  lemma PlaceholderInFieldName()
    ensures Count(SetList(["a?"]), '?') == 2
  {
    SetListCons(["a?"]);
    assert SetList(["a?"]) == "`a?` = ?";
    CountAppend("`a?", "` = ?", '?');
    assert Count("`a?", '?') == 1;
    assert Count("` = ?", '?') == 1;
  }

  /**
   * Apart from any `?` in the caller's table name and insert type, an insert
   * statement holds exactly one placeholder per field: as many as values.
   */
  lemma InsertPlaceholders(fields: seq<string>, tblName: string, insertType: string)
    requires NoPlaceholder(fields)
    ensures Count(InsertStatement(fields, tblName, insertType), '?')
         == Count(insertType, '?') + Count(tblName, '?') + |fields|
  {
    SetListPlaceholders(fields);
    CountAppend(insertType + " INTO " + tblName + " SET ", SetList(fields), '?');
    CountAppend(insertType + " INTO " + tblName, " SET ", '?');
    CountAppend(insertType + " INTO ", tblName, '?');
    CountAppend(insertType, " INTO ", '?');
    assert Count(" SET ", '?') == 0;
    assert Count(" INTO ", '?') == 0;
  }

  /**
   * An update statement holds those of the table name, one placeholder per
   * field, then those of the WHERE string: with no `?` in the table name and
   * one WHERE argument per `?` in the WHERE string, as many as values.
   */
  lemma UpdatePlaceholders(fields: seq<string>, tblName: string, whereStr: string)
    requires NoPlaceholder(fields)
    ensures Count(UpdateStatement(fields, tblName, whereStr), '?')
         == Count(tblName, '?') + |fields| + Count(whereStr, '?')
  {
    SetListPlaceholders(fields);
    var head := "UPDATE " + tblName + " SET ";
    CountAppend(head + SetList(fields) + " WHERE ", whereStr, '?');
    CountAppend(head + SetList(fields), " WHERE ", '?');
    CountAppend(head, SetList(fields), '?');
    CountAppend("UPDATE " + tblName, " SET ", '?');
    CountAppend("UPDATE ", tblName, '?');
    assert Count("UPDATE ", '?') == 0;
    assert Count(" SET ", '?') == 0;
    assert Count(" WHERE ", '?') == 0;
  }
}
