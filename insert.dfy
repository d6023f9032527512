/** INSERT statements (src/CMSx/DB/Query/Insert.php). The row lives in the
    `insert` value table; column names are its keys. */
module Insert {
  import opened Php
  import opened Builder
  import opened Conditions
  import Query

  /** array_keys of the row, in string form. */
  function ColumnNames(row: seq<Entry<Val>>): (names: seq<string>)
    ensures |names| == |row|
    ensures forall i :: 0 <= i < |row| ==> names[i] == KeyString(row[i].key)
  {
    seq(|row|, i requires 0 <= i < |row| => KeyString(row[i].key))
  }

  /** The statement make() writes for a row that is set. */
  function InsertText(table: string, prefix: string, row: seq<Entry<Val>>, inline: bool): string {
    "INSERT INTO " + QuoteTable(table, prefix) + " (" + BuildNames(ColumnNames(row))
    + ") VALUES (" + BuildValues(row, inline, "insert") + ")"
  }

  /** Column i and value i of a row both occur in its statement. */
  lemma RowWritten(table: string, prefix: string, row: seq<Entry<Val>>, inline: bool, i: int)
    requires 0 <= i < |row|
    ensures Occurs(QuoteAll(ColumnNames(row))[i], InsertText(table, prefix, row, inline))
    ensures Occurs(ValueItems(row, inline, "insert")[i], InsertText(table, prefix, row, inline))
  {
    var cols := QuoteAll(ColumnNames(row));
    var vals := ValueItems(row, inline, "insert");
    var head := "INSERT INTO " + QuoteTable(table, prefix) + " (";
    var names := head + BuildNames(ColumnNames(row)) + ") VALUES (";
    OccursJoined(", ", cols, i, head, ") VALUES (");
    OccursLeft(cols[i], names, BuildValues(row, inline, "insert"));
    OccursLeft(cols[i], names + BuildValues(row, inline, "insert"), ")");
    OccursJoined(", ", vals, i, names, ")");
  }

  class Insert {
    const q: Query.Query

    constructor (table: string, prefix: string)
      ensures fresh(q) && q.table == table && q.prefix == prefix && q.manager == null
      ensures q.Valid() && q.where == Empty() && q.values == Empty() && q.binds == Empty()
    {
      q := new Query.Query(table, prefix);
    }

    /** make($bind_values): None (PHP's null) while no column is set; the
        table takes the statement's own prefix, and explicit binds are
        never inlined. */
    function Text(inline: bool): Option<string>
      reads q
    {
      if Get(q.values, Name("insert")).None? then None
      else
        Some(InsertText(q.table, q.prefix, PartOf(q.values, "insert").entries, inline))
    }

    method Make(inline: bool) returns (s: Option<string>)
      modifies q`sql
      ensures s == Text(inline)
      ensures q.sql == if s.Some? then s else old(q.sql)
    {
      s := Text(inline);
      if s.Some? {
        q.sql := s;
      }
    }

    /** set($key, $value). */
    method Set(key: Key, v: Val)
      requires q.Valid()
      modifies q`values
      ensures q.values == SetValueIn(old(q.values), "insert", key, v)
      ensures q.Valid()
    {
      SetValueKeepsBound(q.State(), "insert", key, v);
      q.SetValue(key, v, "insert");
    }

    /** setArray($array). */
    method SetArray(es: seq<Entry<Val>>)
      requires q.Valid()
      modifies q`values
      ensures q.values == PutAll(old(q.values), "insert", es)
      ensures q.Valid()
    {
      var i := 0;
      while i < |es|
        invariant 0 <= i <= |es|
        invariant q.Valid()
        invariant PutAll(q.values, "insert", es[i..]) == PutAll(old(q.values), "insert", es)
      {
        assert es[i..][1..] == es[i + 1..];
        Set(es[i].key, es[i].val);
        i := i + 1;
      }
      assert es[|es|..] == [];
    }
  }

  /** Column i and value i of the row are written at the same position of
      their lists: the quoted key, and its placeholder (or its literal). */
  lemma ColumnsMatchValues(ins: Insert, inline: bool, i: int)
    requires ins.Text(inline).Some? && 0 <= i < |PartOf(ins.q.values, "insert").entries|
    ensures var row := PartOf(ins.q.values, "insert").entries;
            && |QuoteAll(ColumnNames(row))| == |ValueItems(row, inline, "insert")|
            && QuoteAll(ColumnNames(row))[i] == QuoteKey(KeyString(row[i].key))
            && ValueItems(row, inline, "insert")[i]
               == (if inline then QuoteValue(row[i].val) else BuildBinding("insert", KeyString(row[i].key)))
            && Occurs(QuoteKey(KeyString(row[i].key)), ins.Text(inline).value)
            && Occurs(ValueItems(row, inline, "insert")[i], ins.Text(inline).value)
  {
    RowWritten(ins.q.table, ins.q.prefix, PartOf(ins.q.values, "insert").entries, inline, i);
  }

  /** With placeholders, each named column's placeholder is bound to the
      value set for it. */
  lemma InsertPlaceholderBound(ins: Insert, i: int)
    requires ins.q.Valid() && ins.Text(false).Some?
    requires 0 <= i < |PartOf(ins.q.values, "insert").entries|
    requires !KeyIsNumeric(PartOf(ins.q.values, "insert").entries[i].key)
    ensures Occurs(BuildBinding("insert", PartOf(ins.q.values, "insert").entries[i].key.s), ins.Text(false).value)
    ensures BindingTable(ins.q.binds, ins.q.values).Some?
    ensures Get(BindingTable(ins.q.binds, ins.q.values).value, Name(BuildBinding("insert", PartOf(ins.q.values, "insert").entries[i].key.s)))
            == Some(PartOf(ins.q.values, "insert").entries[i].val)
  {
    var row := PartOf(ins.q.values, "insert").entries;
    ColumnsMatchValues(ins, false, i);
    PartOfValid(ins.q.values, "insert");
    LookupAt(row, i);
    BindingFound(ins.q.binds, ins.q.values, "insert", row[i].key.s, row[i].val);
  }
}
