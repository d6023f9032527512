/** UPDATE statements (src/CMSx/DB/Query/Update.php). The conditions,
    limit and setWhereJoinByAnd are the shared methods of Query.Query; the
    assignments live in the `set` value table. */
module Update {
  import opened Php
  import opened Builder
  import opened Conditions
  import Query

  class Update {
    const q: Query.Query

    constructor (table: string, prefix: string)
      ensures fresh(q) && q.table == table && q.prefix == prefix && q.manager == null
      ensures q.Valid() && q.where == Empty() && q.values == Empty() && q.binds == Empty()
    {
      q := new Query.Query(table, prefix);
    }

    /** The text make() assembles before binds are inlined; None (PHP's
        null) while nothing has been set. */
    function Text(inline: bool): Option<string>
      reads q, q.manager
    {
      if Get(q.values, Name("set")).None? then None
      else Some("UPDATE " + QuoteTable(q.table, q.GetPrefix())
        + BuildSet(PartOf(q.values, "set").entries, inline)
        + BuildWhere(q.where.entries, inline, q.whereAnd)
        + BuildLimit(q.limit, q.offset))
    }

    function Sql(inline: bool): Option<string>
      reads q, q.manager
    {
      match Text(inline)
      case None => None
      case Some(t) => Some(if inline then ReplaceBindedValues(t, q.binds.entries) else t)
    }

    /** make($bind_values): without assignments nothing is built and the
        last text is kept. */
    method Make(inline: bool) returns (s: Option<string>)
      modifies q`sql
      ensures s == Sql(inline)
      ensures q.sql == if s.Some? then s else old(q.sql)
    {
      s := Sql(inline);
      if s.Some? {
        q.sql := s;
      }
    }

    /** set($key, $value). */
    method Set(key: Key, v: Val)
      requires q.Valid()
      modifies q`values
      ensures q.values == SetValueIn(old(q.values), "set", key, v)
      ensures q.Valid()
    {
      SetValueKeepsBound(q.State(), "set", key, v);
      q.SetValue(key, v, "set");
    }

    /** setExpression($expression): appended under the next integer key, so
        it is written verbatim. */
    method SetExpression(e: string)
      requires q.Valid()
      modifies q`values
      ensures q.values == Put(old(q.values), Name("set"), Push(PartOf(old(q.values), "set"), Str(e)))
      ensures q.Valid()
    {
      var t := PartOf(q.values, "set");
      SetValueKeepsBound(q.State(), "set", Num(t.next), Str(e));
      PartOfValid(q.values, "set");
      PushValid(t, Str(e));
      assert Put(t, Num(t.next), Str(e)) == Push(t, Str(e));
      q.values := Put(q.values, Name("set"), Push(t, Str(e)));
    }

    /** setArray($array). */
    method SetArray(es: seq<Entry<Val>>)
      requires q.Valid()
      modifies q`values
      ensures q.values == PutAll(old(q.values), "set", es)
      ensures q.Valid()
    {
      var i := 0;
      while i < |es|
        invariant 0 <= i <= |es|
        invariant q.Valid()
        invariant PutAll(q.values, "set", es[i..]) == PutAll(old(q.values), "set", es)
      {
        assert es[i..][1..] == es[i + 1..];
        Set(es[i].key, es[i].val);
        i := i + 1;
      }
      assert es[|es|..] == [];
    }
  }

  /** Every named assignment is written with its placeholder, which the
      values handed to PDO bind to the assigned value. */
  lemma SetPlaceholderBound(u: Update, i: int)
    requires u.q.Valid() && u.Text(false).Some?
    requires 0 <= i < |PartOf(u.q.values, "set").entries| && !KeyIsNumeric(PartOf(u.q.values, "set").entries[i].key)
    ensures Occurs(BuildBinding("set", PartOf(u.q.values, "set").entries[i].key.s), u.Sql(false).value)
    ensures BindingTable(u.q.binds, u.q.values).Some?
    ensures Get(BindingTable(u.q.binds, u.q.values).value, Name(BuildBinding("set", PartOf(u.q.values, "set").entries[i].key.s)))
            == Some(PartOf(u.q.values, "set").entries[i].val)
  {
    var assigns := PartOf(u.q.values, "set").entries;
    var e := assigns[i];
    var n := BuildBinding("set", e.key.s);
    GroupPlaceholder(assigns, i, "set", Sep(", "));
    OccursRight(n, " SET ", BuildKeyValue(assigns, false, "set", Sep(", ")));
    var a := "UPDATE " + QuoteTable(u.q.table, u.q.GetPrefix());
    OccursRight(n, a, BuildSet(assigns, false));
    OccursLeft(n, a + BuildSet(assigns, false), BuildWhere(u.q.where.entries, false, u.q.whereAnd));
    OccursLeft(n, a + BuildSet(assigns, false) + BuildWhere(u.q.where.entries, false, u.q.whereAnd), BuildLimit(u.q.limit, u.q.offset));
    PartOfValid(u.q.values, "set");
    LookupAt(assigns, i);
    BindingFound(u.q.binds, u.q.values, "set", e.key.s, e.val);
  }

  /** Every named condition of a valid statement is written as its
      placeholder after WHERE, and the placeholder is bound to the
      condition's value. */
  lemma WherePlaceholderBound(u: Update, i: int)
    requires u.q.Valid() && u.Text(false).Some?
    requires 0 <= i < |u.q.where.entries| && !KeyIsNumeric(u.q.where.entries[i].key)
    ensures Occurs(BuildBinding("where", u.q.where.entries[i].key.s), u.Sql(false).value)
    ensures BindingTable(u.q.binds, u.q.values).Some?
    ensures Get(BindingTable(u.q.binds, u.q.values).value, Name(BuildBinding("where", u.q.where.entries[i].key.s)))
            == Some(u.q.where.entries[i].val)
  {
    var e := u.q.where.entries[i];
    var n := BuildBinding("where", e.key.s);
    GroupPlaceholder(u.q.where.entries, i, "where", if u.q.whereAnd then And else Or);
    var w := BuildWhere(u.q.where.entries, false, u.q.whereAnd);
    OccursRight(n, " WHERE ", BuildKeyValue(u.q.where.entries, false, "where", if u.q.whereAnd then And else Or));
    var a := "UPDATE " + QuoteTable(u.q.table, u.q.GetPrefix()) + BuildSet(PartOf(u.q.values, "set").entries, false);
    OccursRight(n, a, w);
    OccursLeft(n, a + w, BuildLimit(u.q.limit, u.q.offset));
    BindingFound(u.q.binds, u.q.values, "where", e.key.s, e.val);
  }

  /** An expression added with setExpression is written verbatim when it
      looks like one (it holds a special character). */
  lemma ExpressionWritten(u: Update, i: int)
    requires u.Text(false).Some?
    requires 0 <= i < |PartOf(u.q.values, "set").entries| && KeyIsNumeric(PartOf(u.q.values, "set").entries[i].key)
    requires HasSpecChar(ValString(PartOf(u.q.values, "set").entries[i].val))
    ensures Occurs(ValString(PartOf(u.q.values, "set").entries[i].val), u.Sql(false).value)
  {
    var assigns := PartOf(u.q.values, "set").entries;
    var x := ValString(assigns[i].val);
    KeyValueShows(assigns, i, false, "set", Sep(", "));
    OccursRight(x, " SET ", BuildKeyValue(assigns, false, "set", Sep(", ")));
    var a := "UPDATE " + QuoteTable(u.q.table, u.q.GetPrefix());
    OccursRight(x, a, BuildSet(assigns, false));
    OccursLeft(x, a + BuildSet(assigns, false), BuildWhere(u.q.where.entries, false, u.q.whereAnd));
    OccursLeft(x, a + BuildSet(assigns, false) + BuildWhere(u.q.where.entries, false, u.q.whereAnd), BuildLimit(u.q.limit, u.q.offset));
  }
}
