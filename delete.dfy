/** DELETE statements (src/CMSx/DB/Query/Delete.php). Limit and
    setWhereJoinByAnd are the shared methods of Query.Query; where() is the
    statement's own: it replaces the conditions instead of adding to them. */
module Delete {
  import opened Php
  import opened Builder
  import opened Conditions
  import Query

  /** The conditions where($where, $_ = null) receives: an array first
      argument stands for itself and null for no conditions, both ignoring
      any later arguments; a scalar first argument stands for the whole
      argument list. */
  function WhereItems(args: seq<Arg>): seq<Item>
    requires |args| > 0
  {
    if args[0].List? then args[0].items
    else if args[0] == Scalar(Null) then []
    else Positional(args)
  }

  /** where() as the Delete statement means it: the given conditions replace
      the old ones and are normalised as processWhere does. */
  function WhereConds(c: Conds, args: seq<Arg>): Conds
    requires |args| > 0
  {
    Normalize(Conds(Empty(), c.values), WhereItems(args))
  }

  /** The three forms of where()'s arguments. */
  lemma WhereArgumentForms(c: Conds, first: Arg, rest: seq<Arg>)
    ensures first.List? ==> WhereConds(c, [first] + rest) == Normalize(Conds(Empty(), c.values), first.items)
    ensures first == Scalar(Null) ==> WhereConds(c, [first] + rest) == Conds(Empty(), c.values)
    ensures !first.List? && first != Scalar(Null) ==>
              WhereConds(c, [first] + rest) == WhereConds(c, [List(Positional([first] + rest))])
  {
  }

  /** How a where() call ends. */
  datatype WhereOutcome = Returned(conds: Conds) | ArgumentCountError(conds: Conds)

  /** What where() as written assigns to $this->where for scalar arguments:
      null for a null first argument, the argument list otherwise. */
  function StoredArgs(args: seq<Val>): PArr<Val>
    requires |args| > 0
  {
    if args[0] == Null then Empty() else PArr(Listed(args), |args|)
  }

  /** where() as written, under PHP 8: after the assignment it calls
      processWhere() without the argument the method declares, which raises
      ArgumentCountError before the loop runs, so nothing reaches the where
      value table. */
  function WhereAsWritten(c: Conds, args: seq<Val>): WhereOutcome
    requires |args| > 0
  {
    ArgumentCountError(Conds(StoredArgs(args), c.values))
  }

  /** The same call before PHP 7.1, where a missing argument is only a
      warning: $where is null, the loop iterates nothing and only the final
      copy into the where value table happens. */
  function WhereAsWrittenLegacy(c: Conds, args: seq<Val>): Conds
    requires |args| > 0
  {
    var w := StoredArgs(args);
    Conds(w, if |w.entries| > 0 then SetValuesIn(c.values, "where", w.entries, true) else c.values)
  }

  class Delete {
    const q: Query.Query

    constructor (table: string, prefix: string)
      ensures fresh(q) && q.table == table && q.prefix == prefix && q.manager == null
      ensures q.Valid() && q.where == Empty() && q.values == Empty() && q.binds == Empty()
    {
      q := new Query.Query(table, prefix);
    }

    /** The text make() assembles before binds are inlined; the table takes
        the statement's own prefix only. */
    function Text(inline: bool): string
      reads q
    {
      "DELETE FROM " + QuoteTable(q.table, q.prefix)
      + BuildWhere(q.where.entries, inline, q.whereAnd)
      + BuildLimit(q.limit, q.offset)
    }

    function Sql(inline: bool): string
      reads q
    {
      if inline then ReplaceBindedValues(Text(inline), q.binds.entries) else Text(inline)
    }

    method Make(inline: bool) returns (s: string)
      modifies q`sql
      ensures s == Sql(inline) && q.sql == Some(s)
    {
      s := Sql(inline);
      q.sql := Some(s);
    }

    /** where($where, $_ = null), with the conditions normalised. */
    method Where(args: seq<Arg>)
      requires |args| > 0 && q.Valid()
      modifies q`where, q`values
      ensures q.State() == WhereConds(old(q.State()), args)
      ensures q.Valid()
    {
      q.where := Empty();
      q.ProcessWhere(WhereItems(args));
      NormalizeElsewhere(Conds(Empty(), old(q.values)), WhereItems(args), "having");
    }
  }

  /** Every named condition of a valid statement is written as its
      placeholder after WHERE, and the placeholder is bound to the
      condition's value. */
  lemma WherePlaceholderBound(d: Delete, i: int)
    requires d.q.Valid() && 0 <= i < |d.q.where.entries| && !KeyIsNumeric(d.q.where.entries[i].key)
    ensures Occurs(BuildBinding("where", d.q.where.entries[i].key.s), d.Sql(false))
    ensures BindingTable(d.q.binds, d.q.values).Some?
    ensures Get(BindingTable(d.q.binds, d.q.values).value, Name(BuildBinding("where", d.q.where.entries[i].key.s)))
            == Some(d.q.where.entries[i].val)
  {
    var e := d.q.where.entries[i];
    var n := BuildBinding("where", e.key.s);
    GroupPlaceholder(d.q.where.entries, i, "where", if d.q.whereAnd then And else Or);
    var w := BuildWhere(d.q.where.entries, false, d.q.whereAnd);
    OccursRight(n, " WHERE ", BuildKeyValue(d.q.where.entries, false, "where", if d.q.whereAnd then And else Or));
    var a := "DELETE FROM " + QuoteTable(d.q.table, d.q.prefix);
    OccursRight(n, a, w);
    OccursLeft(n, a + w, BuildLimit(d.q.limit, d.q.offset));
    BindingFound(d.q.binds, d.q.values, "where", e.key.s, e.val);
  }

  /** The test's arguments: the id and a raw expression. */
  const CreatedAtTerm := "`created_at` > now()"

  /** The counterexample: where(12, '`created_at` > now()') as written
      raises instead of returning the statement, and leaves the value tables
      as they were. */
  lemma WhereAsWrittenRaises(c: Conds)
    ensures WhereAsWritten(c, [Int(12), Str(CreatedAtTerm)]).ArgumentCountError?
    ensures WhereAsWritten(c, [Int(12), Str(CreatedAtTerm)]).conds.values == c.values
  {
  }

  /** Before PHP 7.1 the same call returns, but loses the id condition,
      since the bare "12" is not an expression. */
  lemma WhereAsWrittenDropsId(c: Conds)
    ensures BuildWhere(WhereAsWrittenLegacy(c, [Int(12), Str(CreatedAtTerm)]).where.entries, false, true)
            == " WHERE " + CreatedAtTerm
  {
    var es := WhereAsWrittenLegacy(c, [Int(12), Str(CreatedAtTerm)]).where.entries;
    assert es == [es[0], es[1]];
    TwelveDropped();
    FragmentKept(Num(1));
    TwoItems(es[0], es[1], false, "where");
    assert KeyValueItems(es, false, "where") == [CreatedAtTerm];
  }

  lemma TwoItems(e0: Entry<Val>, e1: Entry<Val>, inline: bool, part: string)
    ensures KeyValueItems([e0, e1], inline, part) == KeyValueItem(e0, inline, part) + KeyValueItem(e1, inline, part)
  {
    var es := [e0, e1];
    assert es[1..] == [e1] && es[1..][1..] == [];
    assert KeyValueItems([e1], inline, part) == KeyValueItem(e1, inline, part) + [];
  }

  lemma TwelveDropped()
    ensures KeyValueItem(Entry(Num(0), Int(12)), false, "where") == []
  {
    NatToStringTwelve();
    assert !HasSpecChar("12") by {
      assert forall i :: 0 <= i < |"12"| ==> "12"[i] == '1' || "12"[i] == '2';
    }
  }

  lemma FragmentKept(k: Key)
    requires KeyIsNumeric(k)
    ensures KeyValueItem(Entry(k, Str(CreatedAtTerm)), false, "where") == [CreatedAtTerm]
  {
    assert IsSpecChar(CreatedAtTerm[0]);
  }

  lemma IdPlaceholder()
    ensures KeyValueItem(Entry(Name("id"), Int(12)), false, "where") == ["`id`=:where_id"]
  {
    NotNumeric("id", 0);
    assert !HasSpecChar("id") by {
      assert forall i :: 0 <= i < |"id"| ==> "id"[i] == 'i' || "id"[i] == 'd';
    }
    QuoteKeyShape("id");
    IdTermLiteral();
  }

  lemma IdTermLiteral()
    ensures "`" + "id" + "`" + "=:" + "where" + "_" + "id" == "`id`=:where_id"
  {
  }

  lemma NatToStringTwelve()
    ensures IntToString(12) == "12"
  {
    assert NatToString(1) == "1";
    assert NatToString(12) == NatToString(1) + [DigitChar(2)];
  }

  /** The entries processWhere makes of the test's arguments: the number
      becomes the id condition, the expression is appended under key 0. */
  const NormalizedEntries := [Entry(Name("id"), Int(12)), Entry(Num(0), Str(CreatedAtTerm))]

  lemma FoldTestArgs(values: PArr<PArr<Val>>)
    ensures Fold(Conds(Empty(), values), WhereItems([Scalar(Int(12)), Scalar(Str(CreatedAtTerm))])).where.entries
            == NormalizedEntries
  {
    var items := WhereItems([Scalar(Int(12)), Scalar(Str(CreatedAtTerm))]);
    assert items == [Item(Num(0), Scalar(Int(12))), Item(Num(1), Scalar(Str(CreatedAtTerm)))];
    var c1 := Step(Conds(Empty(), values), items[0]);
    IdStep(values);
    var c2 := Step(c1, items[1]);
    FragmentStep(c1);
    assert items[1..][0] == items[1] && items[1..][1..] == [];
    assert Fold(c1, items[1..]) == Fold(c2, []);
  }

  /** The number 12 at position 0 becomes the id condition. */
  lemma IdStep(values: PArr<PArr<Val>>)
    ensures Step(Conds(Empty(), values), Item(Num(0), Scalar(Int(12)))).where == PArr([Entry(Name("id"), Int(12))], 0)
  {
    var c := Conds(Empty(), values);
    var e := Entry(Name("id"), Int(12));
    assert Step(c, Item(Num(0), Scalar(Int(12)))).where == Put(Unset(Empty(), Num(0)), Name("id"), Int(12));
    assert Unset(Empty<Val>(), Num(0)) == Empty();
    assert [] + [e] == [e];
  }

  /** The expression at position 1 is appended under the next integer key. */
  lemma FragmentStep(c: Conds)
    requires c.where == PArr([Entry(Name("id"), Int(12))], 0)
    ensures Step(c, Item(Num(1), Scalar(Str(CreatedAtTerm)))).where == PArr(NormalizedEntries, 1)
  {
    NotNumeric(CreatedAtTerm, 0);
  }

  lemma RenderNormalized()
    ensures BuildWhere(NormalizedEntries, false, true) == " WHERE " + "`id`=:where_id" + " AND " + CreatedAtTerm
  {
    IdPlaceholder();
    FragmentKept(Num(0));
    TwoItems(NormalizedEntries[0], NormalizedEntries[1], false, "where");
    var items := KeyValueItems(NormalizedEntries, false, "where");
    assert items == ["`id`=:where_id", CreatedAtTerm];
    JoinTwo(" AND ", "`id`=:where_id", CreatedAtTerm);
  }

  /** The corrected where() on the same arguments keeps both conditions. */
  lemma WhereNormalizedKeepsId(c: Conds)
    ensures BuildWhere(WhereConds(c, [Scalar(Int(12)), Scalar(Str(CreatedAtTerm))]).where.entries, false, true)
            == " WHERE " + "`id`=:where_id" + " AND " + CreatedAtTerm
  {
    FoldTestArgs(c.values);
    assert WhereConds(c, [Scalar(Int(12)), Scalar(Str(CreatedAtTerm))]).where.entries == NormalizedEntries;
    RenderNormalized();
  }
}
