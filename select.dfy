/** SELECT statements (src/CMSx/DB/Query/Select.php). The statement's
    state is the shared Query object it extends; where, whereIn, whereEqual,
    whereBetween, limit and setWhereJoinByAnd are the shared methods of
    Query.Query. */
module Select {
  import opened Php
  import opened Builder
  import opened Conditions
  import Query

  class Select {
    const q: Query.Query

    constructor (table: string, prefix: string)
      ensures fresh(q) && q.table == table && q.prefix == prefix && q.manager == null
      ensures q.Valid() && q.where == Empty() && q.values == Empty() && q.binds == Empty()
      ensures q.columns == [] && q.join == Empty() && q.having == [] && q.limit == None
    {
      q := new Query.Query(table, prefix);
    }

    /** The text make() assembles, before binds are inlined: the column
        list (or *), the table with its prefix, then the clauses in order. */
    function Text(inline: bool): string
      reads q, q.manager
    {
      "SELECT " + (if |q.columns| > 0 then BuildNames(q.columns) else "*")
      + " FROM " + QuoteTable(q.table, q.GetPrefix())
      + BuildJoin(q.join.entries)
      + BuildWhere(q.where.entries, inline, q.whereAnd)
      + BuildGroupBy(q.groupby)
      + BuildHaving(q.having, inline, q.havingAnd)
      + BuildOrderBy(q.orderby)
      + BuildLimit(q.limit, q.offset)
    }

    /** make($bind_values): inlining also substitutes the explicit binds. */
    function Sql(inline: bool): string
      reads q, q.manager
    {
      if inline then ReplaceBindedValues(Text(inline), q.binds.entries) else Text(inline)
    }

    method Make(inline: bool) returns (s: string)
      modifies q`sql
      ensures s == Sql(inline) && q.sql == Some(s)
    {
      s := Sql(inline);
      q.sql := Some(s);
    }

    /** columns($columns, $_ = null): an array, or the argument list; an
        empty list (or null) selects `*`. */
    method Columns(columns: seq<string>)
      modifies q`columns
      ensures q.columns == columns
    {
      q.columns := columns;
    }

    /** join($table, $on, $type): keyed by the table name as given, so
        joining the same table again replaces its join in place. */
    method Join(table: string, on: string, kind: string)
      requires Php.Valid(q.join)
      modifies q`join
      ensures q.join == Put(old(q.join), Name(table), JoinSpec(q.GetPrefix() + table, on, kind))
      ensures Php.Valid(q.join)
    {
      PutValid(q.join, Name(table), JoinSpec(q.GetPrefix() + table, on, kind));
      q.join := Put(q.join, Name(table), JoinSpec(q.GetPrefix() + table, on, kind));
    }

    method OrderBy(orderby: seq<string>)
      modifies q`orderby
      ensures q.orderby == orderby
    {
      q.orderby := orderby;
    }

    method GroupBy(groupby: seq<string>)
      modifies q`groupby
      ensures q.groupby == groupby
    {
      q.groupby := groupby;
    }

    /** having($having, $_ = null): replaces the conditions and binds their
        named values in the having table. */
    method Having(having: seq<Entry<Val>>)
      requires q.Valid() && UniqueKeys(having)
      modifies q`having, q`values
      ensures q.having == having
      ensures q.values == if |having| > 0 then SetValuesIn(old(q.values), "having", having, true) else old(q.values)
      ensures q.Valid()
    {
      q.having := having;
      if |having| > 0 {
        SetValuesInOk(q.values, "having", having, true);
        HavingStored(q.values, having);
        q.SetValues(having, "having", true);
      }
    }

    /** page($page, $onpage): a page below 1 (or empty) is the first page. */
    method Page(page: int, onpage: Option<int>)
      modifies q`limit, q`offset
      ensures q.limit == onpage
      ensures q.offset == Some((if page < 1 then 0 else page - 1) * onpage.GetOr(0))
    {
      var p := if page < 1 then 1 else page;
      q.Limit(onpage, Some((p - 1) * onpage.GetOr(0)));
    }

    method SetHavingJoinByAnd(on: bool)
      modifies q`havingAnd
      ensures q.havingAnd == on
    {
      q.havingAnd := on;
    }
  }

  /** Every named WHERE condition is written as its placeholder, and the
      values handed to PDO bind that placeholder to the condition's value. */
  lemma WherePlaceholderBound(s: Select, i: int)
    requires s.q.Valid() && 0 <= i < |s.q.where.entries| && !KeyIsNumeric(s.q.where.entries[i].key)
    ensures Occurs(BuildBinding("where", s.q.where.entries[i].key.s), s.Sql(false))
    ensures BindingTable(s.q.binds, s.q.values).Some?
    ensures Get(BindingTable(s.q.binds, s.q.values).value, Name(BuildBinding("where", s.q.where.entries[i].key.s)))
            == Some(s.q.where.entries[i].val)
  {
    var e := s.q.where.entries[i];
    var n := BuildBinding("where", e.key.s);
    GroupPlaceholder(s.q.where.entries, i, "where", if s.q.whereAnd then And else Or);
    var w := BuildWhere(s.q.where.entries, false, s.q.whereAnd);
    OccursRight(n, " WHERE ", BuildKeyValue(s.q.where.entries, false, "where", if s.q.whereAnd then And else Or));
    var a := "SELECT " + (if |s.q.columns| > 0 then BuildNames(s.q.columns) else "*")
      + " FROM " + QuoteTable(s.q.table, s.q.GetPrefix()) + BuildJoin(s.q.join.entries);
    OccursRight(n, a, w);
    OccursLeft(n, a + w, BuildGroupBy(s.q.groupby));
    OccursLeft(n, a + w + BuildGroupBy(s.q.groupby), BuildHaving(s.q.having, false, s.q.havingAnd));
    var b := a + w + BuildGroupBy(s.q.groupby) + BuildHaving(s.q.having, false, s.q.havingAnd);
    OccursLeft(n, b, BuildOrderBy(s.q.orderby));
    OccursLeft(n, b + BuildOrderBy(s.q.orderby), BuildLimit(s.q.limit, s.q.offset));
    BindingFound(s.q.binds, s.q.values, "where", e.key.s, e.val);
  }

  /** The same for HAVING: the invariant keeps every named term in the
      having table (HavingStored), so its placeholder is bound. */
  lemma HavingPlaceholderBound(s: Select, i: int)
    requires s.q.Valid() && 0 <= i < |s.q.having| && !KeyIsNumeric(s.q.having[i].key)
    ensures Occurs(BuildBinding("having", s.q.having[i].key.s), s.Sql(false))
    ensures BindingTable(s.q.binds, s.q.values).Some?
    ensures Get(BindingTable(s.q.binds, s.q.values).value, Name(BuildBinding("having", s.q.having[i].key.s)))
            == Some(s.q.having[i].val)
  {
    var e := s.q.having[i];
    var n := BuildBinding("having", e.key.s);
    GroupPlaceholder(s.q.having, i, "having", if s.q.havingAnd then And else Or);
    var h := BuildHaving(s.q.having, false, s.q.havingAnd);
    OccursRight(n, " HAVING ", BuildKeyValue(s.q.having, false, "having", if s.q.havingAnd then And else Or));
    var a := "SELECT " + (if |s.q.columns| > 0 then BuildNames(s.q.columns) else "*")
      + " FROM " + QuoteTable(s.q.table, s.q.GetPrefix()) + BuildJoin(s.q.join.entries)
      + BuildWhere(s.q.where.entries, false, s.q.whereAnd) + BuildGroupBy(s.q.groupby);
    OccursRight(n, a, h);
    OccursLeft(n, a + h, BuildOrderBy(s.q.orderby));
    OccursLeft(n, a + h + BuildOrderBy(s.q.orderby), BuildLimit(s.q.limit, s.q.offset));
    BindingFound(s.q.binds, s.q.values, "having", e.key.s, e.val);
  }

  /** After having($h), each named condition of $h is in the having table. */
  lemma HavingStored(values: PArr<PArr<Val>>, having: seq<Entry<Val>>)
    requires ValuesOk(values) && UniqueKeys(having)
    ensures HavingBound(having, SetValuesIn(values, "having", having, true))
  {
    SetValuesCopies(values, "having", having);
  }
}
