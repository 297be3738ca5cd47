/** The term table queries of middleware/dritywordDB.go: `paramsToMaps`
    and the filter selection of `FindDrityWords`, over a table given as a
    sequence of rows. */
module TermStore {
  import opened Text
  import Maps

  /** A row of `sys_drityword`; `deleted` stands for a non-NULL `deleted_at`. */
  datatype Term = Term(id: string, name: string, description: string, md5: string, value: string, deleted: bool)

  /** The columns a keyword is matched against. */
  datatype Column = Name | Description | Value | Md5

  /** One SQL condition: `id in (...)`, `md5 in (...)`, or `column LIKE '%keyword%'`. */
  datatype Cond = IdIn(ids: seq<string>) | Md5In(md5s: seq<string>) | Like(column: Column, keyword: string)

  /** A condition added with `Where` or with `Or`. */
  datatype Clause = Where(cond: Cond) | Or(cond: Cond)

  /** `paramsToMaps`: a stride-2 loop over the flat key/value list. An odd
      length would read past the end, so the list must be even. */
  method ParamsToMaps(args: seq<string>) returns (params: map<string, string>)
    requires |args| % 2 == 0
    ensures params == Maps.PairsToMap(args)
  {
    params := map[];
    var i := 0;
    while i < |args|
      invariant 0 <= i <= |args| && i % 2 == 0
      invariant params == Maps.PairsToMap(args[..i])
    {
      assert args[..i + 2][..i] == args[..i];
      params := params[args[i] := args[i + 1]];
      i := i + 2;
    }
    assert args[..i] == args;
  }

  /** A missing key reads as the empty string. */
  function Lookup(params: map<string, string>, key: string): string
  {
    if key in params then params[key] else ""
  }

  /** The clauses `FindDrityWords` adds for the arguments `ids`, `md5s` and
      `keywords`; a keyword adds a `Where` on the name and three `Or`s. */
  function Filters(params: map<string, string>): seq<Clause>
  {
    IdFilter(Lookup(params, "ids")) + Md5Filter(Lookup(params, "md5s"))
    + KeywordFilter(Lookup(params, "keywords"))
  }

  function IdFilter(ids: string): seq<Clause>
  {
    if |ids| != 0 then [Where(IdIn(Split(ids, ',')))] else []
  }

  function Md5Filter(md5s: string): seq<Clause>
  {
    if |md5s| != 0 then [Where(Md5In(Split(md5s, ',')))] else []
  }

  function KeywordFilter(keywords: string): seq<Clause>
  {
    if |keywords| != 0 then
      [Where(Like(Name, keywords)), Or(Like(Description, keywords)),
       Or(Like(Value, keywords)), Or(Like(Md5, keywords))]
    else []
  }

  /** Whether `sub` occurs in `s`. */
  predicate Contains(s: string, sub: string)
  {
    IndexOfSeq(s, sub) >= 0
  }

  function ColumnOf(t: Term, c: Column): string
  {
    match c
    case Name => t.name
    case Description => t.description
    case Value => t.value
    case Md5 => t.md5
  }

  predicate Holds(t: Term, c: Cond)
  {
    match c
    case IdIn(ids) => t.id in ids
    case Md5In(md5s) => t.md5 in md5s
    case Like(col, k) => Contains(ColumnOf(t, col), k)
  }

  /** The conditions of all `Where` clauses hold. */
  predicate AllWheres(t: Term, q: seq<Clause>)
  {
    forall i :: 0 <= i < |q| && q[i].Where? ==> Holds(t, q[i].cond)
  }

  /** The condition of some `Or` clause holds. */
  predicate AnyOr(t: Term, q: seq<Clause>)
  {
    exists i :: 0 <= i < |q| && q[i].Or? && Holds(t, q[i].cond)
  }

  predicate HasWhere(q: seq<Clause>)
  {
    exists i :: 0 <= i < |q| && q[i].Where?
  }

  /** How the query builder combines clauses: the soft-delete test, AND the
      conjunction of the `Where` conditions OR-ed with each `Or` condition. */
  predicate Matches(t: Term, q: seq<Clause>)
  {
    !t.deleted && (q == [] || (HasWhere(q) && AllWheres(t, q)) || AnyOr(t, q))
  }

  /** The rows a query returns, in table order. */
  function Select(table: seq<Term>, q: seq<Clause>): (rows: seq<Term>)
    ensures |rows| <= |table|
    ensures forall t :: t in rows ==> t in table && Matches(t, q)
    ensures forall t :: t in table && Matches(t, q) ==> t in rows
  {
    if table == [] then []
    else (if Matches(table[0], q) then [table[0]] else []) + Select(table[1..], q)
  }

  /** The rows not soft-deleted, in table order. */
  function Live(table: seq<Term>): (rows: seq<Term>)
    ensures forall t :: t in rows <==> t in table && !t.deleted
  {
    if table == [] then []
    else (if !table[0].deleted then [table[0]] else []) + Live(table[1..])
  }

  /** `FindDrityWords`: the query builder is extended step by step, then
      counted and run. */
  method FindDrityWords(table: seq<Term>, args: seq<string>) returns (count: nat, data: seq<Term>)
    requires |args| % 2 == 0
    ensures data == Select(table, Filters(Maps.PairsToMap(args)))
    ensures count == |data|
  {
    var params := ParamsToMaps(args);
    var ids := Lookup(params, "ids");
    var md5s := Lookup(params, "md5s");
    var keywords := Lookup(params, "keywords");
    var q: seq<Clause> := [];
    if |ids| != 0 {
      var dwIDs := Split(ids, ',');
      if |dwIDs| > 0 {
        q := q + [Where(IdIn(dwIDs))];
      }
    }
    assert q == IdFilter(ids);
    if |md5s| != 0 {
      var dwMD5s := Split(md5s, ',');
      if |dwMD5s| > 0 {
        q := q + [Where(Md5In(dwMD5s))];
      }
    }
    assert q == IdFilter(ids) + Md5Filter(md5s);
    if |keywords| != 0 {
      q := q + [Where(Like(Name, keywords))];
      q := q + [Or(Like(Description, keywords))];
      q := q + [Or(Like(Value, keywords))];
      q := q + [Or(Like(Md5, keywords))];
    }
    assert q == IdFilter(ids) + Md5Filter(md5s) + KeywordFilter(keywords);
    data := Select(table, q);
    count := |data|;
  }

  /** With no filters every live row is returned, in order. */
  lemma {:induction false} SelectAllIsLive(table: seq<Term>)
    ensures Select(table, []) == Live(table)
  {
    if table != [] {
      SelectAllIsLive(table[1..]);
    }
  }

  /** With no arguments (the reload's call) the query returns all live rows. */
  lemma NoArgumentsReturnsAllLive(table: seq<Term>)
    ensures Filters(Maps.PairsToMap([])) == []
    ensures Select(table, Filters(Maps.PairsToMap([]))) == Live(table)
  {
    assert Maps.PairsToMap([]) == map[];
    SelectAllIsLive(table);
  }

  /** Only the keys `ids`, `md5s` and `keywords` choose the filters. */
  lemma OtherKeysIgnored(params: map<string, string>, key: string, value: string)
    requires key != "ids" && key != "md5s" && key != "keywords"
    ensures Filters(params[key := value]) == Filters(params)
  {
    assert Lookup(params[key := value], "ids") == Lookup(params, "ids");
    assert Lookup(params[key := value], "md5s") == Lookup(params, "md5s");
    assert Lookup(params[key := value], "keywords") == Lookup(params, "keywords");
  }

  /** A non-empty `ids` alone gives one IN list of the untrimmed comma
      pieces, and a row is selected when it is live and its id is a piece. */
  lemma IdsOnlyFilter(params: map<string, string>, t: Term)
    requires Lookup(params, "ids") != ""
    requires Lookup(params, "md5s") == "" && Lookup(params, "keywords") == ""
    ensures Filters(params) == [Where(IdIn(Split(Lookup(params, "ids"), ',')))]
    ensures |Split(Lookup(params, "ids"), ',')| >= 1
    ensures Join(Split(Lookup(params, "ids"), ','), ',') == Lookup(params, "ids")
    ensures Matches(t, Filters(params)) <==> !t.deleted && t.id in Split(Lookup(params, "ids"), ',')
  {
    var q := Filters(params);
    JoinSplit(Lookup(params, "ids"), ',');
    if !t.deleted && t.id in Split(Lookup(params, "ids"), ',') {
      assert q[0].Where?;
    }
  }

  /** A non-empty `md5s` alone filters in the same way on the md5 column. */
  lemma Md5sOnlyFilter(params: map<string, string>, t: Term)
    requires Lookup(params, "md5s") != ""
    requires Lookup(params, "ids") == "" && Lookup(params, "keywords") == ""
    ensures Filters(params) == [Where(Md5In(Split(Lookup(params, "md5s"), ',')))]
    ensures Matches(t, Filters(params)) <==> !t.deleted && t.md5 in Split(Lookup(params, "md5s"), ',')
  {
    var q := Filters(params);
    if !t.deleted && t.md5 in Split(Lookup(params, "md5s"), ',') {
      assert q[0].Where?;
    }
  }

  /** The keyword clauses select a live row whose name, description,
      value or md5 contains the keyword. */
  lemma KeywordMatches(t: Term, k: string)
    requires k != ""
    ensures Matches(t, KeywordFilter(k)) <==>
      !t.deleted && (Contains(t.name, k) || Contains(t.description, k) || Contains(t.value, k) || Contains(t.md5, k))
  {
    var q := KeywordFilter(k);
    assert q[0].Where?;
    if AnyOr(t, q) {
      var i :| 0 <= i < |q| && q[i].Or? && Holds(t, q[i].cond);
      assert i == 1 || i == 2 || i == 3;
    }
    if Contains(t.description, k) { assert q[1].Or? && Holds(t, q[1].cond); }
    if Contains(t.value, k) { assert q[2].Or? && Holds(t, q[2].cond); }
    if Contains(t.md5, k) { assert q[3].Or? && Holds(t, q[3].cond); }
  }

  /** A keyword alone selects a live row whose name, description, value or
      md5 contains it. */
  lemma KeywordOnlyFilter(params: map<string, string>, t: Term)
    requires Lookup(params, "keywords") != ""
    requires Lookup(params, "ids") == "" && Lookup(params, "md5s") == ""
    ensures var k := Lookup(params, "keywords");
      Matches(t, Filters(params)) <==>
        !t.deleted && (Contains(t.name, k) || Contains(t.description, k) || Contains(t.value, k) || Contains(t.md5, k))
  {
    var k := Lookup(params, "keywords");
    assert Filters(params) == KeywordFilter(k);
    KeywordMatches(t, k);
  }
}
