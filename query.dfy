/** The base statement of src/CMSx/DB/Query.php: the state every statement
    carries and the methods they share. Each method is proved against the
    value-level functions of module Conditions. */
module Query {
  import opened Php
  import opened Builder
  import opened Conditions

  /** The DB manager as a statement sees it: the table prefix it supplies. */
  class Manager {
    var prefix: string

    constructor (prefix: string)
      ensures this.prefix == prefix
    {
      this.prefix := prefix;
    }
  }

  class Query {
    var table: string
    /** The statement's own prefix; "" stands for PHP's null. */
    var prefix: string
    var manager: Manager?
    /** The text of the last make(), None before the first one. */
    var sql: Option<string>
    var join: PArr<JoinSpec>
    var limit: Option<int>
    var offset: Option<int>
    var where: PArr<Val>
    var values: PArr<PArr<Val>>
    var having: seq<Entry<Val>>
    var columns: seq<string>
    var orderby: seq<string>
    var groupby: seq<string>
    var binds: PArr<Val>
    var whereAnd: bool
    var havingAnd: bool

    /** new Query($table, null, $prefix). */
    constructor (table: string, prefix: string)
      ensures this.table == table && this.prefix == prefix && manager == null && sql == None
      ensures join == Empty() && limit == None && offset == None
      ensures where == Empty() && values == Empty() && binds == Empty()
      ensures having == [] && columns == [] && orderby == [] && groupby == []
      ensures whereAnd && havingAnd
      ensures Valid()
    {
      this.table := table;
      this.prefix := prefix;
      manager := null;
      sql := None;
      join := Empty();
      limit := None;
      offset := None;
      where := Empty();
      values := Empty();
      having := [];
      columns := [];
      orderby := [];
      groupby := [];
      binds := Empty();
      whereAnd := true;
      havingAnd := true;
    }

    /** The conditions and the value tables, as one value. */
    function State(): Conds
      reads this
    {
      Conds(where, values)
    }

    /** The invariant of every public method: the tables are well formed
        and every named WHERE condition and HAVING term is bound. */
    ghost predicate Valid()
      reads this
    {
      Ok(State()) && Bound(State()) && HavingBound(having, values) && Php.Valid(binds) && Php.Valid(join)
    }

    // -------------------------------------------------------------------
    // Prefix and manager

    method SetManager(m: Manager)
      modifies this`manager
      ensures manager == m
    {
      manager := m;
    }

    method SetPrefix(p: string)
      modifies this`prefix
      ensures prefix == p
    {
      prefix := p;
    }

    /** getPrefix(): the statement's own prefix, or the manager's when the
        own one is empty. */
    function GetPrefix(): (r: string)
      reads this, manager
      ensures Truthy(prefix) || manager == null ==> r == prefix
      ensures !Truthy(prefix) && manager != null ==> r == manager.prefix
    {
      if !Truthy(prefix) && manager != null then manager.prefix else prefix
    }

    /** getLastSQL(): the last text, unless it is empty. */
    function GetLastSql(): (r: Option<string>)
      reads this
      ensures r.Some? <==> sql.Some? && Truthy(sql.value)
      ensures r.Some? ==> r == sql
    {
      if sql.Some? && Truthy(sql.value) then sql else None
    }

    // -------------------------------------------------------------------
    // Explicit binds

    /** bind($key, $value). */
    method Bind(key: Key, v: Val)
      requires Php.Valid(binds)
      modifies this`binds
      ensures binds == Put(old(binds), Name(BindKey(key)), v)
      ensures Php.Valid(binds) && Get(binds, Name(BindKey(key))) == Some(v)
    {
      PutValid(binds, Name(BindKey(key)), v);
      PutGet(binds, Name(BindKey(key)), v);
      binds := Put(binds, Name(BindKey(key)), v);
    }

    /** bindArray($values). */
    method BindArray(es: seq<Entry<Val>>)
      requires Php.Valid(binds)
      modifies this`binds
      ensures binds == BindAll(old(binds), es)
      ensures Php.Valid(binds)
    {
      var i := 0;
      while i < |es|
        invariant 0 <= i <= |es|
        invariant Php.Valid(binds)
        invariant BindAll(binds, es[i..]) == BindAll(old(binds), es)
      {
        assert es[i..][1..] == es[i + 1..];
        Bind(es[i].key, es[i].val);
        i := i + 1;
      }
      assert es[|es|..] == [];
    }

    /** getBindedValues(): the explicit binds, then every value of every
        part under its placeholder; None stands for `false`. */
    method GetBindedValues() returns (r: Option<PArr<Val>>)
      ensures r == BindingTable(binds, values)
    {
      var acc := binds;
      var i := 0;
      while i < |values.entries|
        invariant 0 <= i <= |values.entries|
        invariant BindParts(acc, values.entries[i..]) == BindParts(binds, values.entries)
      {
        var part := KeyString(values.entries[i].key);
        var es := values.entries[i].val.entries;
        ghost var start := acc;
        var j := 0;
        while j < |es|
          invariant 0 <= j <= |es|
          invariant BindPart(acc, part, es[j..]) == BindPart(start, part, es)
        {
          assert es[j..][1..] == es[j + 1..];
          acc := Put(acc, Name(BuildBinding(part, KeyString(es[j].key))), es[j].val);
          j := j + 1;
        }
        assert es[|es|..] == [];
        assert values.entries[i..][1..] == values.entries[i + 1..];
        i := i + 1;
      }
      assert values.entries[|values.entries|..] == [];
      r := if |acc.entries| > 0 then Some(acc) else None;
    }

    // -------------------------------------------------------------------
    // Value tables

    /** setValue($key, $value, $part). */
    method SetValue(k: Key, v: Val, part: string)
      modifies this`values
      ensures values == SetValueIn(old(values), part, k, v)
    {
      values := Put(values, Name(part), Put(PartOf(values, part), k, v));
    }

    /** setValues($array, $part, $ignore_num_keys). */
    method SetValues(es: seq<Entry<Val>>, part: string, ignoreNum: bool)
      modifies this`values
      ensures values == SetValuesIn(old(values), part, es, ignoreNum)
    {
      var i := 0;
      while i < |es|
        invariant 0 <= i <= |es|
        invariant SetValuesIn(values, part, es[i..], ignoreNum) == SetValuesIn(old(values), part, es, ignoreNum)
      {
        assert es[i..][1..] == es[i + 1..];
        var e := es[i];
        if KeyIsNumeric(e.key) {
          if !ignoreNum {
            SetValue(Name("_" + KeyString(e.key)), e.val, part);
          }
        } else {
          SetValue(e.key, e.val, part);
        }
        i := i + 1;
      }
      assert es[|es|..] == [];
    }

    // -------------------------------------------------------------------
    // Conditions

    /** processWhere($where). */
    method ProcessWhere(args: seq<Item>)
      requires Ok(State())
      modifies this`where, this`values
      ensures State() == Normalize(old(State()), args)
      ensures Ok(State()) && Bound(State())
      decreases ItemsSize(args), 3
    {
      var i := 0;
      while i < |args|
        invariant 0 <= i <= |args|
        invariant Ok(State())
        invariant Fold(State(), args[i..]) == Fold(old(State()), args)
      {
        var it := args[i];
        assert args[i..][0] == it && args[i..][1..] == args[i + 1..];
        ItemSizeWithin(args, i);
        StepOk(State(), it);
        if KeyIsNumeric(it.key) {
          match it.arg {
            case List(items) =>
              assert ItemSize(it) == 3 + ItemsSize(items);
              ProcessWhere(items);
            case Scalar(v) =>
              if v.Bool? {
                where := Put(Unset(where, it.key), Name("is_active"), Bool(true));
              } else if ValIsNumeric(v) {
                where := Put(Unset(where, it.key), Name("id"), v);
              } else if !v.Null? {
                where := Push(where, v);
              }
          }
        } else {
          match it.arg {
            case List(items) =>
              assert ItemSize(it) == 3 + ItemsSize(items);
              ProcessWhereIn(it.key.s, InVals(items));
            case Scalar(v) =>
              where := Put(where, it.key, v);
          }
        }
        i := i + 1;
      }
      assert args[|args|..] == [];
      if |where.entries| > 0 {
        SetValues(where.entries, "where", true);
      }
      NormalizeOk(old(State()), args);
    }

    /** processWhereIn($column, $array). */
    method ProcessWhereIn(col: string, vals: seq<Val>)
      requires Ok(State())
      modifies this`where, this`values
      ensures State() == Conditions.WhereIn(old(State()), col, vals)
      ensures Ok(State()) && Bound(State())
      decreases 3, 0
    {
      var keys: seq<string> := [];
      var i := 0;
      while i < |vals|
        invariant 0 <= i <= |vals|
        invariant where == old(where)
        invariant keys == InBindings(col, i)
        invariant InValues(values, col, vals[i..], i) == InValues(old(values), col, vals, 0)
      {
        var key := CleanKeyName(col) + "_" + IntToString(i + 1);
        InBindingsSnoc(col, i);
        InValuesStep(values, col, vals, i);
        keys := keys + [BuildBinding("where", key)];
        SetValue(Name(key), vals[i], "where");
        i := i + 1;
      }
      assert vals[|vals|..] == [];
      InValuesOk(old(values), col, vals, 0);
      FragmentSize(QuoteKey(col) + " IN (" + Join(",", keys) + ")");
      ProcessWhere(Fragment(QuoteKey(col) + " IN (" + Join(",", keys) + ")"));
      WhereInOk(old(State()), col, vals);
    }

    /** processWhereBetween($column, $from, $to). */
    method ProcessWhereBetween(col: string, from: Val, to: Val)
      requires Ok(State())
      modifies this`where, this`values
      ensures State() == Between(old(State()), col, from, to)
      ensures Ok(State()) && Bound(State())
    {
      var f := CleanKeyName(col) + "_from";
      SetValue(Name(f), from, "where");
      var t := CleanKeyName(col) + "_to";
      SetValue(Name(t), to, "where");
      var w := QuoteKey(col) + " BETWEEN " + BuildBinding("where", f) + " AND " + BuildBinding("where", t);
      BetweenOk(old(State()), col, from, to);
      FromToNotNumeric(col);
      SetValueInOk(old(values), "where", Name(f), from);
      SetValueInRaw(old(values), "where", Name(f), from);
      SetValueInOk(SetValueIn(old(values), "where", Name(f), from), "where", Name(t), to);
      SetValueInRaw(SetValueIn(old(values), "where", Name(f), from), "where", Name(t), to);
      ProcessWhere(Fragment(w));
    }

    // -------------------------------------------------------------------
    // The public setup methods Select and Update share

    /** where($where, $_ = null): the arguments, in order, under 0, 1, ... */
    method Where(args: seq<Arg>)
      requires |args| > 0 && Valid()
      modifies this`where, this`values
      ensures State() == Normalize(old(State()), Positional(args))
      ensures Valid()
    {
      ProcessWhere(Positional(args));
      NormalizeElsewhere(old(State()), Positional(args), "having");
    }

    /** whereIn($column, $array). */
    method WhereIn(col: string, vals: seq<Val>)
      requires Valid()
      modifies this`where, this`values
      ensures State() == Conditions.WhereIn(old(State()), col, vals)
      ensures Valid()
    {
      ProcessWhereIn(col, vals);
      WhereInElsewhere(old(State()), col, vals, "having");
    }

    /** whereEqual($column, $value). */
    method WhereEqual(column: Key, v: Arg)
      requires Valid()
      modifies this`where, this`values
      ensures State() == Normalize(old(State()), [Item(column, v)])
      ensures Valid()
    {
      ProcessWhere([Item(column, v)]);
      NormalizeElsewhere(old(State()), [Item(column, v)], "having");
    }

    /** whereBetween($column, $from, $to). */
    method WhereBetween(col: string, from: Val, to: Val)
      requires Valid()
      modifies this`where, this`values
      ensures State() == Between(old(State()), col, from, to)
      ensures Valid()
    {
      ProcessWhereBetween(col, from, to);
      BetweenElsewhere(old(State()), col, from, to, "having");
    }

    /** limit($limit, $offset = null): a missing offset keeps the old one. */
    method Limit(limit: Option<int>, offset: Option<int>)
      modifies this`limit, this`offset
      ensures this.limit == limit
      ensures this.offset == if offset.Some? then offset else old(this.offset)
    {
      this.limit := limit;
      if offset.Some? {
        this.offset := offset;
      }
    }

    /** setWhereJoinByAnd($on). */
    method SetWhereJoinByAnd(on: bool)
      modifies this`whereAnd
      ensures whereAnd == on
    {
      whereAnd := on;
    }
  }
}
