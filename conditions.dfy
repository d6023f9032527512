/** The value-level reading of the statement state that src/CMSx/DB/Query.php
    changes in place: the condition list `where`, the per-part value tables
    `values[part]`, and the functions that say what `processWhere`,
    `processWhereIn`, `processWhereBetween`, `setValue`, `setValues` and
    `getBindedValues` compute. The class in query.dfy is proved against them. */
module Conditions {
  import opened Php
  import opened Builder

  // ---------------------------------------------------------------------
  // Arguments of where(...)

  /** One argument: a scalar, or a PHP array of further arguments. */
  datatype Arg = Scalar(v: Val) | List(items: seq<Item>)

  /** A keyed element of an argument array. */
  datatype Item = Item(key: Key, arg: Arg)

  function ArgSize(a: Arg): nat {
    match a
    case Scalar(_) => 1
    case List(items) => 2 + ItemsSize(items)
  }

  function ItemSize(it: Item): nat {
    1 + ArgSize(it.arg)
  }

  function ItemsSize(items: seq<Item>): nat {
    if |items| == 0 then 0 else ItemSize(items[0]) + ItemsSize(items[1..])
  }

  lemma {:induction false} ItemSizeWithin(items: seq<Item>, i: int)
    requires 0 <= i < |items|
    ensures ItemSize(items[i]) <= ItemsSize(items)
  {
    if i > 0 {
      ItemSizeWithin(items[1..], i - 1);
    }
  }

  /** func_get_args(): positional arguments under the keys 0, 1, ... */
  function Positional(args: seq<Arg>): (items: seq<Item>)
    ensures |items| == |args|
    ensures forall i :: 0 <= i < |args| ==> items[i] == Item(Num(i), args[i])
  {
    seq(|args|, i requires 0 <= i < |args| => Item(Num(i), args[i]))
  }

  /** The values of an IN list. An element that is itself an array has no
      scalar value and stands as NULL. */
  function InVals(items: seq<Item>): (vs: seq<Val>)
    ensures |vs| == |items|
  {
    seq(|items|, i requires 0 <= i < |items| => if items[i].arg.Scalar? then items[i].arg.v else Null)
  }

  // ---------------------------------------------------------------------
  // Value tables

  /** The conditions and the value tables of one statement. */
  datatype Conds = Conds(where: PArr<Val>, values: PArr<PArr<Val>>)

  /** `$this->values[$part]`, empty while the part has no table. */
  function PartOf(values: PArr<PArr<Val>>, part: string): PArr<Val> {
    Get(values, Name(part)).GetOr(Empty())
  }

  /** setValue($key, $value, $part). */
  function SetValueIn(values: PArr<PArr<Val>>, part: string, k: Key, v: Val): PArr<PArr<Val>> {
    Put(values, Name(part), Put(PartOf(values, part), k, v))
  }

  /** setValues($array, $part, $ignore_num_keys). */
  function SetValuesIn(values: PArr<PArr<Val>>, part: string, es: seq<Entry<Val>>, ignoreNum: bool): PArr<PArr<Val>>
    decreases |es|
  {
    if |es| == 0 then values
    else
      var e := es[0];
      var next :=
        if !KeyIsNumeric(e.key) then SetValueIn(values, part, e.key, e.val)
        else if ignoreNum then values
        else SetValueIn(values, part, Name("_" + KeyString(e.key)), e.val);
      SetValuesIn(next, part, es[1..], ignoreNum)
  }

  /** Every table is keyed by a clause part and is itself well formed. */
  predicate ValuesOk(values: PArr<PArr<Val>>) {
    && Valid(values)
    && forall i :: 0 <= i < |values.entries| ==>
         values.entries[i].key.Name? && IsPart(values.entries[i].key.s) && Valid(values.entries[i].val)
  }

  /** Raw fragments are never bound: the where table holds named keys only. */
  predicate NoRawBound(values: PArr<PArr<Val>>) {
    forall i :: 0 <= i < |PartOf(values, "where").entries| ==> !KeyIsNumeric(PartOf(values, "where").entries[i].key)
  }

  predicate Ok(c: Conds) {
    Valid(c.where) && ValuesOk(c.values) && NoRawBound(c.values)
  }

  /** Every named condition is bound, under its own key and with its own
      value, in the where table. */
  predicate Bound(c: Conds) {
    forall i :: 0 <= i < |c.where.entries| && !KeyIsNumeric(c.where.entries[i].key) ==>
      Lookup(PartOf(c.values, "where").entries, c.where.entries[i].key) == Some(c.where.entries[i].val)
  }

  /** Every named HAVING term is bound, under its own key and with its own
      value, in the having table. */
  predicate HavingBound(having: seq<Entry<Val>>, values: PArr<PArr<Val>>) {
    forall i :: 0 <= i < |having| && !KeyIsNumeric(having[i].key) ==>
      Lookup(PartOf(values, "having").entries, having[i].key) == Some(having[i].val)
  }

  lemma PartOfValid(values: PArr<PArr<Val>>, part: string)
    requires ValuesOk(values)
    ensures Valid(PartOf(values, part))
  {
    LookupIn(values.entries, Name(part));
  }

  /** setValue touches its own part only and keeps the tables well formed. */
  lemma SetValueInOk(values: PArr<PArr<Val>>, part: string, k: Key, v: Val)
    requires ValuesOk(values) && IsPart(part)
    ensures ValuesOk(SetValueIn(values, part, k, v))
    ensures PartOf(SetValueIn(values, part, k, v), part) == Put(PartOf(values, part), k, v)
    ensures forall q :: q != part ==> PartOf(SetValueIn(values, part, k, v), q) == PartOf(values, q)
  {
    var t := Put(PartOf(values, part), k, v);
    var r := SetValueIn(values, part, k, v);
    PartOfValid(values, part);
    PutValid(PartOf(values, part), k, v);
    PutValid(values, Name(part), t);
    PutGet(values, Name(part), t);
    PutEntries(values, Name(part), t);
    forall i | 0 <= i < |r.entries|
      ensures r.entries[i].key.Name? && IsPart(r.entries[i].key.s) && Valid(r.entries[i].val)
    {
      assert r.entries[i] in r.entries;
    }
  }

  /** A key that cannot be numeric, because it holds an underscore. */
  lemma UnderscoreNotNumeric(a: string, b: string)
    ensures !KeyIsNumeric(Name(a + "_" + b))
  {
    NotNumeric(a + "_" + b, |a|);
  }

  lemma SetValueInRaw(values: PArr<PArr<Val>>, part: string, k: Key, v: Val)
    requires ValuesOk(values) && IsPart(part) && NoRawBound(values)
    requires part == "where" ==> !KeyIsNumeric(k)
    ensures NoRawBound(SetValueIn(values, part, k, v))
  {
    SetValueInOk(values, part, k, v);
    var w := PartOf(SetValueIn(values, part, k, v), "where");
    if part == "where" {
      PutEntries(PartOf(values, "where"), k, v);
      forall i | 0 <= i < |w.entries| ensures !KeyIsNumeric(w.entries[i].key) {
        assert w.entries[i] in w.entries;
      }
    }
  }

  lemma {:induction false} SetValuesInOk(values: PArr<PArr<Val>>, part: string, es: seq<Entry<Val>>, ignoreNum: bool)
    requires ValuesOk(values) && IsPart(part) && NoRawBound(values)
    ensures ValuesOk(SetValuesIn(values, part, es, ignoreNum))
    ensures NoRawBound(SetValuesIn(values, part, es, ignoreNum))
    ensures forall q :: q != part ==> PartOf(SetValuesIn(values, part, es, ignoreNum), q) == PartOf(values, q)
    decreases |es|
  {
    if |es| > 0 {
      var e := es[0];
      if !KeyIsNumeric(e.key) {
        SetValueInOk(values, part, e.key, e.val);
        SetValueInRaw(values, part, e.key, e.val);
        SetValuesInOk(SetValueIn(values, part, e.key, e.val), part, es[1..], ignoreNum);
      } else if !ignoreNum {
        var k := Name("_" + KeyString(e.key));
        UnderscoreNotNumeric("", KeyString(e.key));
        assert "" + "_" + KeyString(e.key) == "_" + KeyString(e.key);
        SetValueInOk(values, part, k, e.val);
        SetValueInRaw(values, part, k, e.val);
        SetValuesInOk(SetValueIn(values, part, k, e.val), part, es[1..], ignoreNum);
      } else {
        SetValuesInOk(values, part, es[1..], ignoreNum);
      }
    }
  }

  /** setValues($array, $part) copies every named entry into the part's
      table, where it is found with its value afterwards. */
  lemma {:induction false} SetValuesCopies(values: PArr<PArr<Val>>, part: string, es: seq<Entry<Val>>)
    requires ValuesOk(values) && IsPart(part) && UniqueKeys(es)
    ensures forall i :: 0 <= i < |es| && !KeyIsNumeric(es[i].key) ==>
      Lookup(PartOf(SetValuesIn(values, part, es, true), part).entries, es[i].key) == Some(es[i].val)
    decreases |es|
  {
    if |es| > 0 {
      var e := es[0];
      var next := if !KeyIsNumeric(e.key) then SetValueIn(values, part, e.key, e.val) else values;
      if !KeyIsNumeric(e.key) {
        SetValueInOk(values, part, e.key, e.val);
        PutGet(PartOf(values, part), e.key, e.val);
      }
      assert UniqueKeys(es[1..]);
      SetValuesCopies(next, part, es[1..]);
      if !KeyIsNumeric(e.key) {
        assert forall i :: 0 <= i < |es[1..]| ==> es[1..][i].key != e.key by {
          forall i | 0 <= i < |es[1..]| ensures es[1..][i].key != e.key {
            assert es[1..][i] == es[i + 1];
          }
        }
        SetValuesUntouched(next, part, es[1..], e.key);
      }
      forall i | 0 <= i < |es| && !KeyIsNumeric(es[i].key)
        ensures Lookup(PartOf(SetValuesIn(values, part, es, true), part).entries, es[i].key) == Some(es[i].val)
      {
        if i > 0 {
          assert es[i] == es[1..][i - 1];
        }
      }
    }
  }

  /** setValues leaves alone a key its array does not hold. */
  lemma {:induction false} SetValuesUntouched(values: PArr<PArr<Val>>, part: string, es: seq<Entry<Val>>, k: Key)
    requires ValuesOk(values) && IsPart(part)
    requires forall i :: 0 <= i < |es| ==> es[i].key != k
    ensures Lookup(PartOf(SetValuesIn(values, part, es, true), part).entries, k) == Lookup(PartOf(values, part).entries, k)
    decreases |es|
  {
    if |es| > 0 {
      var e := es[0];
      if !KeyIsNumeric(e.key) {
        SetValueInOk(values, part, e.key, e.val);
        PutGet(PartOf(values, part), e.key, e.val);
        assert Get(Put(PartOf(values, part), e.key, e.val), k) == Get(PartOf(values, part), k);
        assert forall i :: 0 <= i < |es[1..]| ==> es[1..][i].key != k by {
          forall i | 0 <= i < |es[1..]| ensures es[1..][i].key != k {
            assert es[1..][i] == es[i + 1];
          }
        }
        SetValuesUntouched(SetValueIn(values, part, e.key, e.val), part, es[1..], k);
      } else {
        assert forall i :: 0 <= i < |es[1..]| ==> es[1..][i].key != k by {
          forall i | 0 <= i < |es[1..]| ensures es[1..][i].key != k {
            assert es[1..][i] == es[i + 1];
          }
        }
        SetValuesUntouched(values, part, es[1..], k);
      }
    }
  }

  /** setArray($array) of Update and Insert: each pair written into the part. */
  function PutAll(values: PArr<PArr<Val>>, part: string, es: seq<Entry<Val>>): PArr<PArr<Val>>
    decreases |es|
  {
    if |es| == 0 then values else PutAll(SetValueIn(values, part, es[0].key, es[0].val), part, es[1..])
  }

  /** Writing into a part other than where keeps the conditions well formed
      and bound. */
  lemma SetValueKeepsBound(c: Conds, part: string, k: Key, v: Val)
    requires Ok(c) && Bound(c) && IsPart(part) && part != "where"
    ensures Ok(c.(values := SetValueIn(c.values, part, k, v)))
    ensures Bound(c.(values := SetValueIn(c.values, part, k, v)))
    ensures part != "having" ==> PartOf(SetValueIn(c.values, part, k, v), "having") == PartOf(c.values, "having")
  {
    SetValueInOk(c.values, part, k, v);
    SetValueInRaw(c.values, part, k, v);
  }

  lemma {:induction false} PutAllKeepsBound(c: Conds, part: string, es: seq<Entry<Val>>)
    requires Ok(c) && Bound(c) && IsPart(part) && part != "where"
    ensures Ok(c.(values := PutAll(c.values, part, es)))
    ensures Bound(c.(values := PutAll(c.values, part, es)))
    decreases |es|
  {
    if |es| > 0 {
      SetValueKeepsBound(c, part, es[0].key, es[0].val);
      PutAllKeepsBound(c.(values := SetValueIn(c.values, part, es[0].key, es[0].val)), part, es[1..]);
    }
  }

  /** setValue, setValues and setArray write into their own part only. */
  lemma SetValueInElsewhere(values: PArr<PArr<Val>>, part: string, k: Key, v: Val, p: string)
    requires p != part
    ensures PartOf(SetValueIn(values, part, k, v), p) == PartOf(values, p)
  {
    PutGet(values, Name(part), Put(PartOf(values, part), k, v));
  }

  lemma {:induction false} SetValuesElsewhere(values: PArr<PArr<Val>>, part: string, es: seq<Entry<Val>>, ignoreNum: bool, p: string)
    requires p != part
    ensures PartOf(SetValuesIn(values, part, es, ignoreNum), p) == PartOf(values, p)
    decreases |es|
  {
    if |es| > 0 {
      var e := es[0];
      if !KeyIsNumeric(e.key) {
        SetValueInElsewhere(values, part, e.key, e.val, p);
        SetValuesElsewhere(SetValueIn(values, part, e.key, e.val), part, es[1..], ignoreNum, p);
      } else if !ignoreNum {
        var k := Name("_" + KeyString(e.key));
        SetValueInElsewhere(values, part, k, e.val, p);
        SetValuesElsewhere(SetValueIn(values, part, k, e.val), part, es[1..], ignoreNum, p);
      } else {
        SetValuesElsewhere(values, part, es[1..], ignoreNum, p);
      }
    }
  }

  lemma {:induction false} PutAllElsewhere(values: PArr<PArr<Val>>, part: string, es: seq<Entry<Val>>, p: string)
    requires p != part
    ensures PartOf(PutAll(values, part, es), p) == PartOf(values, p)
    decreases |es|
  {
    if |es| > 0 {
      SetValueInElsewhere(values, part, es[0].key, es[0].val, p);
      PutAllElsewhere(SetValueIn(values, part, es[0].key, es[0].val), part, es[1..], p);
    }
  }

  // ---------------------------------------------------------------------
  // The condition normaliser

  /** processWhere($where): each argument in turn, then the named conditions
      are copied into the where table. */
  function Normalize(c: Conds, args: seq<Item>): Conds
    decreases ItemsSize(args), 3
  {
    var d := Fold(c, args);
    if |d.where.entries| > 0 then d.(values := SetValuesIn(d.values, "where", d.where.entries, true)) else d
  }

  function Fold(c: Conds, args: seq<Item>): Conds
    decreases ItemsSize(args), 2
  {
    if |args| == 0 then c else Fold(Step(c, args[0]), args[1..])
  }

  /** The body of processWhere's loop for one argument. */
  function Step(c: Conds, it: Item): Conds
    decreases ItemSize(it), 1
  {
    if KeyIsNumeric(it.key) then
      match it.arg
      case List(items) =>
        assert ItemSize(it) == 3 + ItemsSize(items);
        Normalize(c, items)
      case Scalar(v) =>
        if v.Bool? then c.(where := Put(Unset(c.where, it.key), Name("is_active"), Bool(true)))
        else if ValIsNumeric(v) then c.(where := Put(Unset(c.where, it.key), Name("id"), v))
        else if !v.Null? then c.(where := Push(c.where, v))
        else c
    else
      match it.arg
      case List(items) =>
        assert ItemSize(it) == 3 + ItemsSize(items);
        WhereIn(c, it.key.s, InVals(items))
      case Scalar(v) => c.(where := Put(c.where, it.key, v))
  }

  /** The where key of the n-th value of an IN list (counted from 1). */
  function InKey(col: string, n: int): string {
    CleanKeyName(col) + "_" + IntToString(n)
  }

  function InValues(values: PArr<PArr<Val>>, col: string, vals: seq<Val>, done: int): PArr<PArr<Val>>
    decreases |vals|
  {
    if |vals| == 0 then values
    else InValues(SetValueIn(values, "where", Name(InKey(col, done + 1)), vals[0]), col, vals[1..], done + 1)
  }

  /** The placeholders of an IN list of n values. */
  function InBindings(col: string, n: nat): (bs: seq<string>)
    ensures |bs| == n
    ensures forall j :: 0 <= j < n ==> bs[j] == BuildBinding("where", InKey(col, j + 1))
  {
    seq(n, j requires 0 <= j < n => BuildBinding("where", InKey(col, j + 1)))
  }

  function InTerm(col: string, n: nat): string {
    QuoteKey(col) + " IN (" + Join(",", InBindings(col, n)) + ")"
  }

  /** A raw fragment as processWhere receives it: the only argument, key 0. */
  function Fragment(term: string): seq<Item> {
    [Item(Num(0), Scalar(Str(term)))]
  }

  lemma FragmentSize(term: string)
    ensures ItemsSize(Fragment(term)) == 2
  {
    var f := Fragment(term);
    assert ItemSize(f[0]) == 2;
    assert f[1..] == [];
    assert ItemsSize(f[1..]) == 0;
  }

  /** processWhereIn($column, $array). */
  function WhereIn(c: Conds, col: string, vals: seq<Val>): Conds
    decreases 3, 0
  {
    var values := InValues(c.values, col, vals, 0);
    FragmentSize(InTerm(col, |vals|));
    Normalize(c.(values := values), Fragment(InTerm(col, |vals|)))
  }

  function FromKey(col: string): string {
    CleanKeyName(col) + "_from"
  }

  function ToKey(col: string): string {
    CleanKeyName(col) + "_to"
  }

  function BetweenTerm(col: string): string {
    QuoteKey(col) + " BETWEEN " + BuildBinding("where", FromKey(col)) + " AND " + BuildBinding("where", ToKey(col))
  }

  /** processWhereBetween($column, $from, $to). */
  function Between(c: Conds, col: string, from: Val, to: Val): Conds {
    var values := SetValueIn(SetValueIn(c.values, "where", Name(FromKey(col)), from), "where", Name(ToKey(col)), to);
    Normalize(c.(values := values), Fragment(BetweenTerm(col)))
  }

  // ---------------------------------------------------------------------
  // The invariants the normaliser keeps

  lemma FromToNotNumeric(col: string)
    ensures !KeyIsNumeric(Name(FromKey(col))) && !KeyIsNumeric(Name(ToKey(col)))
  {
    UnderscoreNotNumeric(CleanKeyName(col), "from");
    UnderscoreNotNumeric(CleanKeyName(col), "to");
    assert CleanKeyName(col) + "_" + "from" == FromKey(col);
    assert CleanKeyName(col) + "_" + "to" == ToKey(col);
  }

  lemma {:induction false} InValuesOk(values: PArr<PArr<Val>>, col: string, vals: seq<Val>, done: int)
    requires ValuesOk(values) && NoRawBound(values)
    ensures ValuesOk(InValues(values, col, vals, done)) && NoRawBound(InValues(values, col, vals, done))
    decreases |vals|
  {
    if |vals| > 0 {
      var k := Name(InKey(col, done + 1));
      UnderscoreNotNumeric(CleanKeyName(col), IntToString(done + 1));
      SetValueInOk(values, "where", k, vals[0]);
      SetValueInRaw(values, "where", k, vals[0]);
      InValuesOk(SetValueIn(values, "where", k, vals[0]), col, vals[1..], done + 1);
    }
  }

  /** After processWhere the state is well formed and every named condition
      is bound: the invariant holds whatever the arguments. */
  lemma {:induction false} NormalizeOk(c: Conds, args: seq<Item>)
    requires Ok(c)
    ensures Ok(Normalize(c, args)) && Bound(Normalize(c, args))
    decreases ItemsSize(args), 3
  {
    FoldOk(c, args);
    var d := Fold(c, args);
    if |d.where.entries| > 0 {
      SetValuesInOk(d.values, "where", d.where.entries, true);
      SetValuesCopies(d.values, "where", d.where.entries);
      assert Normalize(c, args) == d.(values := SetValuesIn(d.values, "where", d.where.entries, true));
    } else {
      assert Normalize(c, args) == d;
    }
  }

  lemma {:induction false} FoldOk(c: Conds, args: seq<Item>)
    requires Ok(c)
    ensures Ok(Fold(c, args))
    decreases ItemsSize(args), 2
  {
    if |args| > 0 {
      StepOk(c, args[0]);
      FoldOk(Step(c, args[0]), args[1..]);
    }
  }

  lemma {:induction false} StepOk(c: Conds, it: Item)
    requires Ok(c)
    ensures Ok(Step(c, it))
    decreases ItemSize(it), 1
  {
    if KeyIsNumeric(it.key) {
      match it.arg
      case List(items) =>
        assert ItemSize(it) == 3 + ItemsSize(items);
        NormalizeOk(c, items);
      case Scalar(v) =>
        if v.Bool? || ValIsNumeric(v) {
          var k := if v.Bool? then Name("is_active") else Name("id");
          UnsetValid(c.where, it.key);
          PutValid(Unset(c.where, it.key), k, if v.Bool? then Bool(true) else v);
        } else if !v.Null? {
          PushValid(c.where, v);
        }
    } else {
      match it.arg
      case List(items) =>
        assert ItemSize(it) == 3 + ItemsSize(items);
        WhereInOk(c, it.key.s, InVals(items));
      case Scalar(v) => PutValid(c.where, it.key, v);
    }
  }

  lemma WhereInOk(c: Conds, col: string, vals: seq<Val>)
    requires Ok(c)
    ensures Ok(WhereIn(c, col, vals)) && Bound(WhereIn(c, col, vals))
    decreases 3, 0
  {
    InValuesOk(c.values, col, vals, 0);
    FragmentSize(InTerm(col, |vals|));
    NormalizeOk(c.(values := InValues(c.values, col, vals, 0)), Fragment(InTerm(col, |vals|)));
  }

  lemma {:induction false} InValuesElsewhere(values: PArr<PArr<Val>>, col: string, vals: seq<Val>, done: int, p: string)
    requires p != "where"
    ensures PartOf(InValues(values, col, vals, done), p) == PartOf(values, p)
    decreases |vals|
  {
    if |vals| > 0 {
      SetValueInElsewhere(values, "where", Name(InKey(col, done + 1)), vals[0], p);
      InValuesElsewhere(SetValueIn(values, "where", Name(InKey(col, done + 1)), vals[0]), col, vals[1..], done + 1, p);
    }
  }

  /** processWhere, whatever its arguments, writes into the where table
      only: every other part's table is as it was. */
  lemma {:induction false} NormalizeElsewhere(c: Conds, args: seq<Item>, p: string)
    requires p != "where"
    ensures PartOf(Normalize(c, args).values, p) == PartOf(c.values, p)
    decreases ItemsSize(args), 3
  {
    FoldElsewhere(c, args, p);
    var d := Fold(c, args);
    if |d.where.entries| > 0 {
      SetValuesElsewhere(d.values, "where", d.where.entries, true, p);
    }
  }

  lemma {:induction false} FoldElsewhere(c: Conds, args: seq<Item>, p: string)
    requires p != "where"
    ensures PartOf(Fold(c, args).values, p) == PartOf(c.values, p)
    decreases ItemsSize(args), 2
  {
    if |args| > 0 {
      StepElsewhere(c, args[0], p);
      FoldElsewhere(Step(c, args[0]), args[1..], p);
    }
  }

  lemma {:induction false} StepElsewhere(c: Conds, it: Item, p: string)
    requires p != "where"
    ensures PartOf(Step(c, it).values, p) == PartOf(c.values, p)
    decreases ItemSize(it), 1
  {
    match it.arg
    case List(items) =>
      assert ItemSize(it) == 3 + ItemsSize(items);
      if KeyIsNumeric(it.key) {
        NormalizeElsewhere(c, items, p);
      } else {
        WhereInElsewhere(c, it.key.s, InVals(items), p);
      }
    case Scalar(v) =>
  }

  lemma WhereInElsewhere(c: Conds, col: string, vals: seq<Val>, p: string)
    requires p != "where"
    ensures PartOf(WhereIn(c, col, vals).values, p) == PartOf(c.values, p)
    decreases 3, 0
  {
    InValuesElsewhere(c.values, col, vals, 0, p);
    FragmentSize(InTerm(col, |vals|));
    NormalizeElsewhere(c.(values := InValues(c.values, col, vals, 0)), Fragment(InTerm(col, |vals|)), p);
  }

  lemma BetweenElsewhere(c: Conds, col: string, from: Val, to: Val, p: string)
    requires p != "where"
    ensures PartOf(Between(c, col, from, to).values, p) == PartOf(c.values, p)
  {
    var v1 := SetValueIn(c.values, "where", Name(FromKey(col)), from);
    SetValueInElsewhere(c.values, "where", Name(FromKey(col)), from, p);
    SetValueInElsewhere(v1, "where", Name(ToKey(col)), to, p);
    NormalizeElsewhere(c.(values := SetValueIn(v1, "where", Name(ToKey(col)), to)), Fragment(BetweenTerm(col)), p);
  }

  lemma BetweenOk(c: Conds, col: string, from: Val, to: Val)
    requires Ok(c)
    ensures Ok(Between(c, col, from, to)) && Bound(Between(c, col, from, to))
  {
    FromToNotNumeric(col);
    var v1 := SetValueIn(c.values, "where", Name(FromKey(col)), from);
    SetValueInOk(c.values, "where", Name(FromKey(col)), from);
    SetValueInRaw(c.values, "where", Name(FromKey(col)), from);
    SetValueInOk(v1, "where", Name(ToKey(col)), to);
    SetValueInRaw(v1, "where", Name(ToKey(col)), to);
    NormalizeOk(c.(values := SetValueIn(v1, "where", Name(ToKey(col)), to)), Fragment(BetweenTerm(col)));
  }

  // ---------------------------------------------------------------------
  // getBindedValues

  /** bind($key, $value): the key gets a leading colon unless it has one. */
  function BindKey(k: Key): (r: string)
    ensures |r| > 0 && r[0] == ':'
    ensures KeyString(k) == r || ":" + KeyString(k) == r
  {
    var s := KeyString(k);
    if |s| > 0 && s[0] == ':' then s else ":" + s
  }

  /** bindArray($values): each pair bound in order. */
  function BindAll(binds: PArr<Val>, es: seq<Entry<Val>>): PArr<Val>
    decreases |es|
  {
    if |es| == 0 then binds else BindAll(Put(binds, Name(BindKey(es[0].key)), es[0].val), es[1..])
  }

  /** The inner loop of getBindedValues for one part. */
  function BindPart(acc: PArr<Val>, part: string, es: seq<Entry<Val>>): PArr<Val>
    decreases |es|
  {
    if |es| == 0 then acc
    else BindPart(Put(acc, Name(BuildBinding(part, KeyString(es[0].key))), es[0].val), part, es[1..])
  }

  /** The outer loop of getBindedValues over the parts. */
  function BindParts(acc: PArr<Val>, parts: seq<Entry<PArr<Val>>>): PArr<Val>
    decreases |parts|
  {
    if |parts| == 0 then acc
    else BindParts(BindPart(acc, KeyString(parts[0].key), parts[0].val.entries), parts[1..])
  }

  /** getBindedValues(): the explicit binds, then every part value under its
      placeholder; `false` (None) when nothing is bound at all. */
  function BindingTable(binds: PArr<Val>, values: PArr<PArr<Val>>): Option<PArr<Val>> {
    var t := BindParts(binds, values.entries);
    if |t.entries| > 0 then Some(t) else None
  }

  /** No value of the part is bound under `name`. */
  predicate Avoids(part: string, es: seq<Entry<Val>>, name: string) {
    forall j :: 0 <= j < |es| ==> BuildBinding(part, KeyString(es[j].key)) != name
  }

  lemma {:induction false} BindPartKeep(acc: PArr<Val>, part: string, es: seq<Entry<Val>>, name: string)
    requires Avoids(part, es, name)
    ensures Get(BindPart(acc, part, es), Name(name)) == Get(acc, Name(name))
    decreases |es|
  {
    if |es| > 0 {
      var b := Name(BuildBinding(part, KeyString(es[0].key)));
      PutGet(acc, b, es[0].val);
      assert Get(Put(acc, b, es[0].val), Name(name)) == Get(acc, Name(name));
      assert Avoids(part, es[1..], name) by {
        forall j | 0 <= j < |es[1..]| ensures BuildBinding(part, KeyString(es[1..][j].key)) != name {
          assert es[1..][j] == es[j + 1];
        }
      }
      BindPartKeep(Put(acc, b, es[0].val), part, es[1..], name);
    }
  }

  lemma {:induction false} BindPartHit(acc: PArr<Val>, part: string, es: seq<Entry<Val>>, i: int)
    requires 0 <= i < |es|
    requires forall j :: 0 <= j < |es| && j != i ==>
      BuildBinding(part, KeyString(es[j].key)) != BuildBinding(part, KeyString(es[i].key))
    ensures Get(BindPart(acc, part, es), Name(BuildBinding(part, KeyString(es[i].key)))) == Some(es[i].val)
    decreases |es|
  {
    var name := BuildBinding(part, KeyString(es[i].key));
    var next := Put(acc, Name(BuildBinding(part, KeyString(es[0].key))), es[0].val);
    if i == 0 {
      PutGet(acc, Name(name), es[0].val);
      assert Avoids(part, es[1..], name) by {
        forall j | 0 <= j < |es[1..]| ensures BuildBinding(part, KeyString(es[1..][j].key)) != name {
          assert es[1..][j] == es[j + 1];
        }
      }
      BindPartKeep(next, part, es[1..], name);
    } else {
      forall j | 0 <= j < |es[1..]| && j != i - 1
        ensures BuildBinding(part, KeyString(es[1..][j].key)) != BuildBinding(part, KeyString(es[1..][i - 1].key))
      {
        assert es[1..][j] == es[j + 1];
      }
      assert es[1..][i - 1] == es[i];
      BindPartHit(next, part, es[1..], i - 1);
    }
  }

  lemma {:induction false} BindPartsKeep(acc: PArr<Val>, parts: seq<Entry<PArr<Val>>>, name: string)
    requires forall j :: 0 <= j < |parts| ==> Avoids(KeyString(parts[j].key), parts[j].val.entries, name)
    ensures Get(BindParts(acc, parts), Name(name)) == Get(acc, Name(name))
    decreases |parts|
  {
    if |parts| > 0 {
      BindPartKeep(acc, KeyString(parts[0].key), parts[0].val.entries, name);
      forall j | 0 <= j < |parts[1..]| ensures Avoids(KeyString(parts[1..][j].key), parts[1..][j].val.entries, name) {
        assert parts[1..][j] == parts[j + 1];
      }
      BindPartsKeep(BindPart(acc, KeyString(parts[0].key), parts[0].val.entries), parts[1..], name);
    }
  }

  lemma {:induction false} BindPartsHit(acc: PArr<Val>, parts: seq<Entry<PArr<Val>>>, i: int, name: string, v: Val)
    requires 0 <= i < |parts|
    requires forall a :: Get(BindPart(a, KeyString(parts[i].key), parts[i].val.entries), Name(name)) == Some(v)
    requires forall j :: i < j < |parts| ==> Avoids(KeyString(parts[j].key), parts[j].val.entries, name)
    ensures Get(BindParts(acc, parts), Name(name)) == Some(v)
    decreases |parts|
  {
    var next := BindPart(acc, KeyString(parts[0].key), parts[0].val.entries);
    if i == 0 {
      forall j | 0 <= j < |parts[1..]| ensures Avoids(KeyString(parts[1..][j].key), parts[1..][j].val.entries, name) {
        assert parts[1..][j] == parts[j + 1];
      }
      BindPartsKeep(next, parts[1..], name);
    } else {
      assert parts[1..][i - 1] == parts[i];
      forall j | i - 1 < j < |parts[1..]| ensures Avoids(KeyString(parts[1..][j].key), parts[1..][j].val.entries, name) {
        assert parts[1..][j] == parts[j + 1];
      }
      BindPartsHit(next, parts[1..], i - 1, name, v);
    }
  }

  /** In one well-formed table, distinct keys have distinct placeholders. */
  lemma PartPlaceholdersDistinct(values: PArr<PArr<Val>>, i: int, ki: int, k: string)
    requires ValuesOk(values) && 0 <= i < |values.entries|
    requires 0 <= ki < |values.entries[i].val.entries| && values.entries[i].val.entries[ki].key == Name(k) && !IsNumeric(k)
    ensures forall j :: 0 <= j < |values.entries[i].val.entries| && j != ki ==>
      BuildBinding(values.entries[i].key.s, KeyString(values.entries[i].val.entries[j].key)) != BuildBinding(values.entries[i].key.s, k)
  {
    var p := values.entries[i].key.s;
    var es := values.entries[i].val.entries;
    forall j | 0 <= j < |es| && j != ki ensures BuildBinding(p, KeyString(es[j].key)) != BuildBinding(p, k) {
      BindingInjective(p, KeyString(es[j].key), p, k);
      match es[j].key
      case Num(n) => IntToStringNumeric(n);
      case Name(s) => assert es[j].key != es[ki].key;
    }
  }

  /** getBindedValues binds a named value of a part under `:part_key`: the
      placeholder the clause builders write resolves to the stored value. */
  lemma BindingFound(binds: PArr<Val>, values: PArr<PArr<Val>>, part: string, k: string, v: Val)
    requires ValuesOk(values) && !IsNumeric(k)
    requires Lookup(PartOf(values, part).entries, Name(k)) == Some(v)
    ensures BindingTable(binds, values).Some?
    ensures Get(BindingTable(binds, values).value, Name(BuildBinding(part, k))) == Some(v)
  {
    var name := BuildBinding(part, k);
    LookupFound(values.entries, Name(part));
    var i :| 0 <= i < |values.entries| && values.entries[i].key == Name(part);
    LookupAt(values.entries, i);
    var es := values.entries[i].val.entries;
    LookupFound(es, Name(k));
    var ki :| 0 <= ki < |es| && es[ki].key == Name(k);
    LookupAt(es, ki);
    PartPlaceholdersDistinct(values, i, ki, k);
    assert KeyString(values.entries[i].key) == part;
    forall a ensures Get(BindPart(a, part, es), Name(name)) == Some(v) {
      BindPartHit(a, part, es, ki);
    }
    forall j | i < j < |values.entries| ensures Avoids(KeyString(values.entries[j].key), values.entries[j].val.entries, name) {
      var q := values.entries[j].key.s;
      assert values.entries[j].key != values.entries[i].key;
      forall x | 0 <= x < |values.entries[j].val.entries|
        ensures BuildBinding(q, KeyString(values.entries[j].val.entries[x].key)) != name
      {
        BindingInjective(q, KeyString(values.entries[j].val.entries[x].key), part, k);
      }
    }
    BindPartsHit(binds, values.entries, i, name, v);
    var t := BindParts(binds, values.entries);
    LookupFound(t.entries, Name(name));
  }

  // ---------------------------------------------------------------------
  // What processWhere does with each kind of argument

  /** A positional scalar: a number becomes the `id` condition and a boolean,
      true or false alike, the condition `is_active = true`, each replacing
      the condition stored under the argument's own index; any other string
      is appended as a raw fragment under the next integer key; null is
      ignored. The value tables are left alone. */
  lemma PositionalScalar(c: Conds, k: Key, v: Val)
    requires KeyIsNumeric(k) && Valid(c.where)
    ensures var r := Step(c, Item(k, Scalar(v)));
      && r.values == c.values
      && (v.Bool? ==>
            && Get(r.where, Name("is_active")) == Some(Bool(true)) && Get(r.where, k).None?
            && forall k' :: k' != k && k' != Name("is_active") ==> Get(r.where, k') == Get(c.where, k'))
      && (!v.Bool? && ValIsNumeric(v) ==>
            && Get(r.where, Name("id")) == Some(v) && Get(r.where, k).None?
            && forall k' :: k' != k && k' != Name("id") ==> Get(r.where, k') == Get(c.where, k'))
      && (v.Str? && !IsNumeric(v.s) ==> r.where == PArr(c.where.entries + [Entry(Num(c.where.next), v)], c.where.next + 1))
      && (v.Null? ==> r == c)
  {
    NotNumeric("id", 0);
    NotNumeric("is_active", 0);
    if v.Bool? || ValIsNumeric(v) {
      var name := if v.Bool? then Name("is_active") else Name("id");
      var u := Unset(c.where, k);
      UnsetValid(c.where, k);
      PutGet(u, name, if v.Bool? then Bool(true) else v);
    }
  }

  /** A keyed scalar sets `where[key]`: an existing key keeps its position
      and takes the new value, a new one is appended; nothing else changes. */
  lemma KeyedScalar(c: Conds, k: Key, v: Val)
    requires !KeyIsNumeric(k)
    ensures var r := Step(c, Item(k, Scalar(v)));
      && r.values == c.values
      && Get(r.where, k) == Some(v)
      && (forall k' :: k' != k ==> Get(r.where, k') == Get(c.where, k'))
      && (Get(c.where, k).Some? ==> KeysOf(r.where.entries) == KeysOf(c.where.entries))
      && (Get(c.where, k).None? ==> r.where.entries == c.where.entries + [Entry(k, v)])
  {
    PutGet(c.where, k, v);
    PutPosition(c.where, k, v);
  }

  /** Normalising one raw term appends it under the next integer key. */
  lemma FragmentShape(c: Conds, t: string)
    requires !IsNumeric(t)
    ensures Fold(c, Fragment(t)) == c.(where := Push(c.where, Str(t)))
    ensures Normalize(c, Fragment(t)).where.entries == c.where.entries + [Entry(Num(c.where.next), Str(t))]
  {
    var f := Fragment(t);
    assert f[1..] == [];
    var d := Step(c, f[0]);
    assert d == c.(where := Push(c.where, Str(t)));
    assert Fold(c, f) == Fold(d, f[1..]) == d;
  }

  /** The copy into the where table that follows keeps the value of a key
      the conditions do not hold. */
  lemma FragmentAppended(c: Conds, t: string, k: Key)
    requires ValuesOk(c.values) && !IsNumeric(t) && Get(c.where, k).None? && k.Name?
    ensures Normalize(c, Fragment(t)).where.entries == c.where.entries + [Entry(Num(c.where.next), Str(t))]
    ensures Lookup(PartOf(Normalize(c, Fragment(t)).values, "where").entries, k) == Lookup(PartOf(c.values, "where").entries, k)
  {
    FragmentShape(c, t);
    var es := c.where.entries + [Entry(Num(c.where.next), Str(t))];
    LookupFound(c.where.entries, k);
    forall i | 0 <= i < |es| ensures es[i].key != k {
      if i < |c.where.entries| {
        assert es[i] == c.where.entries[i];
      }
    }
    SetValuesUntouched(c.values, "where", es, k);
  }

  /** Distinct positions of an IN list have distinct keys. */
  lemma InKeyInjective(col: string, a: nat, b: nat)
    requires InKey(col, a) == InKey(col, b)
    ensures a == b
  {
    var p := CleanKeyName(col) + "_";
    assert InKey(col, a) == p + IntToString(a) && InKey(col, b) == p + IntToString(b);
    assert (p + IntToString(a))[|p|..] == IntToString(a);
    assert (p + IntToString(b))[|p|..] == IntToString(b);
    NatToStringInjective(a, b);
  }

  lemma {:induction false} InValuesKeep(values: PArr<PArr<Val>>, col: string, vals: seq<Val>, done: nat, n: nat)
    requires ValuesOk(values) && n <= done
    ensures Lookup(PartOf(InValues(values, col, vals, done), "where").entries, Name(InKey(col, n)))
            == Lookup(PartOf(values, "where").entries, Name(InKey(col, n)))
    decreases |vals|
  {
    if |vals| > 0 {
      var k := Name(InKey(col, done + 1));
      SetValueInOk(values, "where", k, vals[0]);
      if InKey(col, n) == InKey(col, done + 1) {
        InKeyInjective(col, n, done + 1);
      }
      assert Name(InKey(col, n)) != k;
      PutGet(PartOf(values, "where"), k, vals[0]);
      assert Get(Put(PartOf(values, "where"), k, vals[0]), Name(InKey(col, n))) == Get(PartOf(values, "where"), Name(InKey(col, n)));
      assert Lookup(PartOf(SetValueIn(values, "where", k, vals[0]), "where").entries, Name(InKey(col, n)))
             == Lookup(PartOf(values, "where").entries, Name(InKey(col, n)));
      InValuesKeep(SetValueIn(values, "where", k, vals[0]), col, vals[1..], done + 1, n);
    }
  }

  /** The j-th value of an IN list is stored under the key numbered done+j+1. */
  lemma {:induction false} InValuesStored(values: PArr<PArr<Val>>, col: string, vals: seq<Val>, done: nat, j: int)
    requires ValuesOk(values) && 0 <= j < |vals|
    ensures Lookup(PartOf(InValues(values, col, vals, done), "where").entries, Name(InKey(col, done + j + 1))) == Some(vals[j])
    decreases |vals|
  {
    var k := Name(InKey(col, done + 1));
    var next := SetValueIn(values, "where", k, vals[0]);
    assert InValues(values, col, vals, done) == InValues(next, col, vals[1..], done + 1);
    SetValueInOk(values, "where", k, vals[0]);
    if j == 0 {
      PutGet(PartOf(values, "where"), k, vals[0]);
      InValuesKeep(next, col, vals[1..], done + 1, done + 1);
    } else {
      InValuesStored(next, col, vals[1..], done + 1, j - 1);
      assert (done + 1) + (j - 1) + 1 == done + j + 1;
      assert vals[1..][j - 1] == vals[j];
    }
  }

  /** One more value of an IN list adds one placeholder at the end. */
  lemma InBindingsSnoc(col: string, n: nat)
    ensures InBindings(col, n + 1) == InBindings(col, n) + [BuildBinding("where", InKey(col, n + 1))]
  {
    var a := InBindings(col, n + 1);
    var b := InBindings(col, n) + [BuildBinding("where", InKey(col, n + 1))];
    assert |a| == |b|;
    forall j | 0 <= j < |a| ensures a[j] == b[j] {
    }
  }

  /** processWhereIn stores the values one at a time, in order. */
  lemma InValuesStep(values: PArr<PArr<Val>>, col: string, vals: seq<Val>, i: nat)
    requires i < |vals|
    ensures InValues(values, col, vals[i..], i)
            == InValues(SetValueIn(values, "where", Name(InKey(col, i + 1)), vals[i]), col, vals[i + 1..], i + 1)
  {
    assert vals[i..][1..] == vals[i + 1..];
  }

  /** The IN term lists the placeholder of every value, in order. */
  lemma InTermLists(col: string, n: nat, j: int)
    requires 0 <= j < n
    ensures Occurs(BuildBinding("where", InKey(col, j + 1)), InTerm(col, n))
  {
    var bs := InBindings(col, n);
    JoinContains(",", bs, j);
    OccursRight(bs[j], QuoteKey(col) + " IN (", Join(",", bs));
    OccursLeft(bs[j], QuoteKey(col) + " IN (" + Join(",", bs), ")");
  }

  lemma InTermRaw(col: string, n: nat)
    ensures !IsNumeric(InTerm(col, n))
  {
    var t := InTerm(col, n);
    assert t[|QuoteKey(col)| + 1] == 'I';
    NotNumeric(t, |QuoteKey(col)| + 1);
  }

  lemma WhereInIs(c: Conds, col: string, vals: seq<Val>)
    ensures WhereIn(c, col, vals) == Normalize(Conds(c.where, InValues(c.values, col, vals, 0)), Fragment(InTerm(col, |vals|)))
  {
  }

  /** processWhereIn appends its raw term after the old conditions. */
  lemma WhereInAppends(c: Conds, col: string, vals: seq<Val>)
    ensures WhereIn(c, col, vals).where.entries == c.where.entries + [Entry(Num(c.where.next), Str(InTerm(col, |vals|)))]
  {
    InTermRaw(col, |vals|);
    FragmentShape(Conds(c.where, InValues(c.values, col, vals, 0)), InTerm(col, |vals|));
    WhereInIs(c, col, vals);
  }

  /** processWhereIn stores the values of the list, then copies the
      conditions with the new term into the where table. */
  lemma WhereInValues(c: Conds, col: string, vals: seq<Val>)
    ensures WhereIn(c, col, vals).values
            == SetValuesIn(InValues(c.values, col, vals, 0), "where",
                           c.where.entries + [Entry(Num(c.where.next), Str(InTerm(col, |vals|)))], true)
  {
    InTermRaw(col, |vals|);
    FragmentShape(Conds(c.where, InValues(c.values, col, vals, 0)), InTerm(col, |vals|));
    WhereInIs(c, col, vals);
  }

  /** The j-th value of an IN list survives a copy of entries that do not
      use its key. */
  lemma InValueCopied(values: PArr<PArr<Val>>, col: string, vals: seq<Val>, j: int, es: seq<Entry<Val>>)
    requires ValuesOk(values) && NoRawBound(values) && 0 <= j < |vals|
    requires forall i :: 0 <= i < |es| ==> es[i].key != Name(InKey(col, j + 1))
    ensures Lookup(PartOf(SetValuesIn(InValues(values, col, vals, 0), "where", es, true), "where").entries, Name(InKey(col, j + 1)))
            == Some(vals[j])
  {
    InValuesOk(values, col, vals, 0);
    InValuesStored(values, col, vals, 0, j);
    assert 0 + j + 1 == j + 1;
    SetValuesUntouched(InValues(values, col, vals, 0), "where", es, Name(InKey(col, j + 1)));
  }

  /** processWhereIn stores the j-th value under the j-th key. */
  lemma WhereInStored(c: Conds, col: string, vals: seq<Val>, j: int)
    requires ValuesOk(c.values) && NoRawBound(c.values) && 0 <= j < |vals| && Get(c.where, Name(InKey(col, j + 1))).None?
    ensures Lookup(PartOf(WhereIn(c, col, vals).values, "where").entries, Name(InKey(col, j + 1))) == Some(vals[j])
  {
    var k := Name(InKey(col, j + 1));
    var es := c.where.entries + [Entry(Num(c.where.next), Str(InTerm(col, |vals|)))];
    LookupFound(c.where.entries, k);
    forall i | 0 <= i < |es| ensures es[i].key != k {
      if i < |c.where.entries| {
        assert es[i] == c.where.entries[i];
      }
    }
    InValueCopied(c.values, col, vals, j, es);
    WhereInValues(c, col, vals);
  }

  /** processWhereIn adds the one raw term `col IN (...)` under the next
      integer key and binds its j-th placeholder to the j-th value (unless
      the conditions already hold a named condition under that very key,
      which the final copy would write over). */
  lemma WhereInBound(c: Conds, binds: PArr<Val>, col: string, vals: seq<Val>, j: int)
    requires Ok(c) && 0 <= j < |vals| && Get(c.where, Name(InKey(col, j + 1))).None?
    ensures WhereIn(c, col, vals).where.entries == c.where.entries + [Entry(Num(c.where.next), Str(InTerm(col, |vals|)))]
    ensures Occurs(BuildBinding("where", InKey(col, j + 1)), InTerm(col, |vals|))
    ensures BindingTable(binds, WhereIn(c, col, vals).values).Some?
    ensures Get(BindingTable(binds, WhereIn(c, col, vals).values).value, Name(BuildBinding("where", InKey(col, j + 1)))) == Some(vals[j])
  {
    var r := WhereIn(c, col, vals);
    WhereInAppends(c, col, vals);
    WhereInStored(c, col, vals, j);
    InTermLists(col, |vals|, j);
    WhereInOk(c, col, vals);
    UnderscoreNotNumeric(CleanKeyName(col), IntToString(j + 1));
    BindingFound(binds, r.values, "where", InKey(col, j + 1), vals[j]);
  }

  lemma BetweenTermRaw(col: string)
    ensures !IsNumeric(BetweenTerm(col))
  {
    var t := BetweenTerm(col);
    assert t[|QuoteKey(col)| + 1] == 'B';
    NotNumeric(t, |QuoteKey(col)| + 1);
  }

  /** processWhereBetween adds the one raw term `col BETWEEN ... AND ...`
      and binds its two placeholders to the two bounds (unless the
      conditions already hold a named condition under one of those keys). */
  lemma BetweenBound(c: Conds, binds: PArr<Val>, col: string, from: Val, to: Val)
    requires Ok(c) && Get(c.where, Name(FromKey(col))).None? && Get(c.where, Name(ToKey(col))).None?
    ensures Between(c, col, from, to).where.entries == c.where.entries + [Entry(Num(c.where.next), Str(BetweenTerm(col)))]
    ensures BindingTable(binds, Between(c, col, from, to).values).Some?
    ensures Get(BindingTable(binds, Between(c, col, from, to).values).value, Name(BuildBinding("where", FromKey(col)))) == Some(from)
    ensures Get(BindingTable(binds, Between(c, col, from, to).values).value, Name(BuildBinding("where", ToKey(col)))) == Some(to)
  {
    var f := Name(FromKey(col));
    var t := Name(ToKey(col));
    assert |FromKey(col)| != |ToKey(col)|;
    var v1 := SetValueIn(c.values, "where", f, from);
    var v2 := SetValueIn(v1, "where", t, to);
    SetValueInOk(c.values, "where", f, from);
    SetValueInOk(v1, "where", t, to);
    PutGet(PartOf(c.values, "where"), f, from);
    PutGet(PartOf(v1, "where"), t, to);
    var c1 := c.(values := v2);
    BetweenTermRaw(col);
    FragmentAppended(c1, BetweenTerm(col), f);
    FragmentAppended(c1, BetweenTerm(col), t);
    BetweenOk(c, col, from, to);
    FromToNotNumeric(col);
    BindingFound(binds, Between(c, col, from, to).values, "where", FromKey(col), from);
    BindingFound(binds, Between(c, col, from, to).values, "where", ToKey(col), to);
  }
}
