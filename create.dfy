/** CREATE TABLE statements (src/CMSx/DB/Query/Create.php). The statement
    collects a table definition: columns, enum value lists, indexes, a
    primary key, foreign keys and the storage engine; make() renders it.
    The engine rule of the source is the class invariant: a table with a
    full-text index is a MyISAM table. */
module Create {
  import opened Php
  import opened Builder
  import Db
  import Query

  /** One entry of the foreign_key table; a missing action is 0. */
  datatype ForeignKey = ForeignKey(column: string, table: string, refColumn: string, onDelete: int, onUpdate: int)

  /** The `$definition` array, component by component; a `None` primary key
      is PHP's null. */
  datatype Definition = Definition(
    engine: string,
    columns: PArr<string>,
    enums: PArr<seq<Entry<Val>>>,
    index: PArr<seq<string>>,
    unique: PArr<seq<string>>,
    fulltext: PArr<seq<string>>,
    foreignKeys: PArr<ForeignKey>,
    primaryKey: Option<seq<string>>)

  /** The definition a new statement starts from. */
  function Initial(): (d: Definition)
    ensures d.engine == Db.TypeMyIsam && d.primaryKey.None?
    ensures d.columns.entries == [] && d.index.entries == [] && d.unique.entries == []
    ensures d.fulltext.entries == [] && d.foreignKeys.entries == [] && d.enums.entries == []
  {
    Definition(Db.TypeMyIsam, Empty(), Empty(), Empty(), Empty(), Empty(), Empty(), None)
  }

  /** Full-text indexes exist only on MyISAM tables. */
  predicate FulltextOk(d: Definition) {
    |d.fulltext.entries| > 0 ==> d.engine == Db.TypeMyIsam
  }

  /** `$col ? $col : $default`. */
  function OrDefault(col: string, default: string): string {
    if Truthy(col) then col else default
  }

  /** The key an index is stored (and named) under: its tag, then the
      column names joined by underscores. */
  function IndexName(tag: string, cols: seq<string>): string {
    tag + Join("_", cols)
  }

  // ---------------------------------------------------------------------
  // Changes that may throw

  /** setType($type): refused while a full-text index exists, unless the new
      engine is MyISAM. */
  function SetEngine(d: Definition, engine: string): (r: (Db.Outcome, Definition))
    ensures r.0.Raised? <==> |d.fulltext.entries| > 0 && engine != Db.TypeMyIsam
    ensures r.0.Raised? ==> r.0 == Db.Raised(Db.ErrorFulltextOnlyMyIsam) && r.1 == d
    ensures r.0.Done? ==> r.1.engine == engine && r.1.(engine := d.engine) == d
    ensures FulltextOk(d) ==> FulltextOk(r.1)
  {
    if |d.fulltext.entries| > 0 && engine != Db.TypeMyIsam then (Db.Raised(Db.ErrorFulltextOnlyMyIsam), d)
    else (Db.Done, d.(engine := engine))
  }

  /** addFulltextIndex($columns): refused unless the table is MyISAM. */
  function AddFulltext(d: Definition, cols: seq<string>): (r: (Db.Outcome, Definition))
    ensures r.0.Raised? <==> d.engine != Db.TypeMyIsam
    ensures r.0.Raised? ==> r.0 == Db.Raised(Db.ErrorFulltextOnlyMyIsam) && r.1 == d
    ensures r.0.Done? ==> Get(r.1.fulltext, Name(IndexName("f_", cols))) == Some(cols)
    ensures r.0.Done? ==> |r.1.fulltext.entries| > 0 && r.1.(fulltext := d.fulltext) == d
    ensures FulltextOk(d) ==> FulltextOk(r.1)
  {
    if d.engine != Db.TypeMyIsam then (Db.Raised(Db.ErrorFulltextOnlyMyIsam), d)
    else
      PutGet(d.fulltext, Name(IndexName("f_", cols)), cols);
      (Db.Done, d.(fulltext := Put(d.fulltext, Name(IndexName("f_", cols)), cols)))
  }

  /** addForeignKey(...): the key is stored first, then the table is switched
      to InnoDB, which throws (keeping the key) when a full-text index
      exists. */
  function AddForeign(d: Definition, column: string, table: string, refColumn: string, onDelete: int, onUpdate: int)
    : (r: (Db.Outcome, Definition))
    ensures Get(r.1.foreignKeys, Name("fk_" + column))
            == Some(ForeignKey(column, table, refColumn, onDelete, if onUpdate != 0 then onUpdate else onDelete))
    ensures r.0.Raised? <==> |d.fulltext.entries| > 0
    ensures r.0.Raised? ==> r.0 == Db.Raised(Db.ErrorFulltextOnlyMyIsam) && r.1.engine == d.engine
    ensures r.0.Done? ==> r.1.engine == Db.TypeInnoDb
    ensures r.1.(foreignKeys := d.foreignKeys, engine := d.engine) == d
    ensures FulltextOk(d) ==> FulltextOk(r.1)
  {
    var fk := ForeignKey(column, table, refColumn, onDelete, if onUpdate != 0 then onUpdate else onDelete);
    PutGet(d.foreignKeys, Name("fk_" + column), fk);
    SetEngine(d.(foreignKeys := Put(d.foreignKeys, Name("fk_" + column), fk)), Db.TypeInnoDb)
  }

  // ---------------------------------------------------------------------
  // Column types of the shortcut methods

  const IdType := "INT UNSIGNED AUTO_INCREMENT"
  const ForeignIdType := "INT UNSIGNED DEFAULT NULL"
  const CreatedType := "TIMESTAMP DEFAULT CURRENT_TIMESTAMP"
  const UpdatedType := "TIMESTAMP DEFAULT CURRENT_TIMESTAMP ON UPDATE CURRENT_TIMESTAMP"
  const IntType := "INT UNSIGNED DEFAULT 0"
  const TinyIntType := "TINYINT UNSIGNED DEFAULT 0"
  const BigIntType := "BIGINT UNSIGNED DEFAULT 0"

  function PriceType(unsigned: bool): string {
    "FLOAT(10,2)" + (if unsigned then " UNSIGNED" else "")
  }

  function TextType(long: bool): string {
    if long then "LONGTEXT" else "TEXT"
  }

  function BoolType(default: Val): string {
    "BOOL DEFAULT " + ValString(default)
  }

  function TimeType(unix: bool): string {
    (if unix then "TIMESTAMP" else "DATETIME") + " DEFAULT 0"
  }

  /** A falsy length is 250. */
  function CharType(length: Val): string {
    "VARCHAR(" + (if ValTruthy(length) then ValString(length) else "250") + ") DEFAULT NULL"
  }

  /** A falsy length (null, false, 0, "" or "0") gives the same type as
      length 250. */
  lemma FalsyLengthIs250(length: Val)
    ensures !ValTruthy(length) ==> CharType(length) == CharType(Int(250))
  {
    assert NatToString(2) == "2";
    assert NatToString(25) == NatToString(2) + [DigitChar(5)];
    assert NatToString(250) == NatToString(25) + [DigitChar(0)];
  }

  /** addEnum's type: the values as inline literals, then `$null ?: ' NOT
      NULL'`, so a truthy third argument is appended as its own text. */
  function EnumType(values: seq<Entry<Val>>, tail: Val): string {
    "ENUM (" + BuildValues(values, true, "") + ")" + (if ValTruthy(tail) then ValString(tail) else " NOT NULL")
  }

  /** Every permitted value is listed in the type as its SQL literal, and
      without a third argument the column is NOT NULL. */
  lemma EnumListsValues(values: seq<Entry<Val>>, tail: Val, i: int)
    requires 0 <= i < |values|
    ensures Occurs(QuoteValue(values[i].val), EnumType(values, tail))
    ensures ValTruthy(tail) ==> EndsWith(EnumType(values, tail), ValString(tail))
    ensures !ValTruthy(tail) ==> EndsWith(EnumType(values, tail), " NOT NULL")
  {
    var items := ValueItems(values, true, "");
    var t := if ValTruthy(tail) then ValString(tail) else " NOT NULL";
    OccursJoined(", ", items, i, "ENUM (", ")");
    OccursLeft(items[i], "ENUM (" + BuildValues(values, true, "") + ")", t);
    EndsWithLast("ENUM (" + BuildValues(values, true, "") + ")", t);
  }

  // ---------------------------------------------------------------------
  // addId

  /** addId($col) as written: the column takes the given name but the
      primary key is always `id`. */
  function AddIdAsWritten(d: Definition, col: string): Definition {
    d.(columns := Put(d.columns, Name(OrDefault(col, "id")), IdType), primaryKey := Some(["id"]))
  }

  /** On a new table, addId('page_id') as written keys the table on a column
      it does not have. */
  lemma AddIdAsWrittenKeysMissingColumn()
    ensures var d := AddIdAsWritten(Initial(), "page_id");
            && d.primaryKey == Some(["id"])
            && Get(d.columns, Name("id")).None?
            && Get(d.columns, Name("page_id")) == Some(IdType)
  {
    var d := AddIdAsWritten(Initial(), "page_id");
    assert d.columns.entries == [Entry(Name("page_id"), IdType)];
    assert Name("page_id") != Name("id");
  }

  /** addId($col) as intended: the auto-increment column it defines is the
      primary key. */
  function WithId(d: Definition, col: string): (r: Definition)
    ensures r.primaryKey == Some([OrDefault(col, "id")])
    ensures Get(r.columns, Name(OrDefault(col, "id"))) == Some(IdType)
    ensures forall k :: k != Name(OrDefault(col, "id")) ==> Get(r.columns, k) == Get(d.columns, k)
    ensures r.(columns := d.columns, primaryKey := d.primaryKey) == d
  {
    PutGet(d.columns, Name(OrDefault(col, "id")), IdType);
    d.(columns := Put(d.columns, Name(OrDefault(col, "id")), IdType), primaryKey := Some([OrDefault(col, "id")]))
  }

  // ---------------------------------------------------------------------
  // getDefinition

  /** What getDefinition($component) returns; `Missing` is PHP's null. */
  datatype Component =
    | Whole(definition: Definition)
    | Engine(engine: string)
    | Columns(columns: PArr<string>)
    | Enums(enums: PArr<seq<Entry<Val>>>)
    | Indexes(indexes: PArr<seq<string>>)
    | ForeignKeys(keys: PArr<ForeignKey>)
    | PrimaryKey(key: seq<string>)
    | Missing

  const ComponentNames: set<string> := {"type", "columns", "enum", "index", "unique", "fulltext", "foreign_key", "primary_key"}

  /** The whole definition for no component; null for an unknown component
      and for a primary key that is not set (isset fails on null). */
  function ComponentOf(d: Definition, component: Option<string>): (r: Component)
    ensures component.None? <==> r.Whole?
    ensures r.Whole? ==> r.definition == d
    ensures r.Missing? <==> component.Some? && (component.value !in ComponentNames || (component.value == "primary_key" && d.primaryKey.None?))
  {
    match component
    case None => Whole(d)
    case Some(c) =>
      if c == "type" then Engine(d.engine)
      else if c == "columns" then Columns(d.columns)
      else if c == "enum" then Enums(d.enums)
      else if c == "index" then Indexes(d.index)
      else if c == "unique" then Indexes(d.unique)
      else if c == "fulltext" then Indexes(d.fulltext)
      else if c == "foreign_key" then ForeignKeys(d.foreignKeys)
      else if c == "primary_key" && d.primaryKey.Some? then PrimaryKey(d.primaryKey.value)
      else Missing
  }

  // ---------------------------------------------------------------------
  // make()

  function ColumnPart(e: Entry<string>): string {
    "`" + KeyString(e.key) + "` " + e.val
  }

  function IndexPart(kind: string, e: Entry<seq<string>>): string {
    kind + " `" + KeyString(e.key) + "` (" + BuildNames(e.val) + ")"
  }

  function PrimaryPart(cols: seq<string>): string {
    "PRIMARY KEY (" + BuildNames(cols) + ")"
  }

  function ForeignHead(e: Entry<ForeignKey>): string {
    "FOREIGN KEY `" + KeyString(e.key) + "` (`" + e.val.column + "`)"
  }

  /** The referenced table takes the statement's prefix. */
  function ForeignRefs(prefix: string, fk: ForeignKey): string {
    " REFERENCES `" + prefix + fk.table + "`(`" + fk.refColumn + "`)"
  }

  function ForeignActions(fk: ForeignKey): string {
    " ON DELETE " + BuildReferenceAction(fk.onDelete) + " ON UPDATE " + BuildReferenceAction(fk.onUpdate)
  }

  function ForeignPart(e: Entry<ForeignKey>, prefix: string): string {
    ForeignHead(e) + ForeignRefs(prefix, e.val) + ForeignActions(e.val)
  }

  function ColumnParts(es: seq<Entry<string>>): (r: seq<string>)
    ensures |r| == |es| && forall i :: 0 <= i < |es| ==> r[i] == ColumnPart(es[i])
  {
    seq(|es|, i requires 0 <= i < |es| => ColumnPart(es[i]))
  }

  function IndexParts(kind: string, es: seq<Entry<seq<string>>>): (r: seq<string>)
    ensures |r| == |es| && forall i :: 0 <= i < |es| ==> r[i] == IndexPart(kind, es[i])
  {
    seq(|es|, i requires 0 <= i < |es| => IndexPart(kind, es[i]))
  }

  function ForeignParts(es: seq<Entry<ForeignKey>>, prefix: string): (r: seq<string>)
    ensures |r| == |es| && forall i :: 0 <= i < |es| ==> r[i] == ForeignPart(es[i], prefix)
  {
    seq(|es|, i requires 0 <= i < |es| => ForeignPart(es[i], prefix))
  }

  function PrimaryParts(pk: Option<seq<string>>): seq<string> {
    if pk.Some? then [PrimaryPart(pk.value)] else []
  }

  /** The lines of the table body, in make()'s order. */
  function Parts(d: Definition, prefix: string): seq<string> {
    ColumnParts(d.columns.entries)
    + IndexParts("INDEX", d.index.entries)
    + IndexParts("UNIQUE INDEX", d.unique.entries)
    + IndexParts("FULLTEXT", d.fulltext.entries)
    + PrimaryParts(d.primaryKey)
    + ForeignParts(d.foreignKeys.entries, prefix)
  }

  function CreateText(d: Definition, table: string, prefix: string): string {
    "CREATE TABLE " + QuoteTable(table, prefix) + " (\n  " + Join(",\n  ", Parts(d, prefix)) + "\n) ENGINE=" + d.engine
  }

  /** The column loop of make(). */
  method AppendColumnParts(parts: seq<string>, es: seq<Entry<string>>) returns (r: seq<string>)
    ensures r == parts + ColumnParts(es)
  {
    r := parts;
    for i := 0 to |es|
      invariant r == parts + ColumnParts(es[..i])
    {
      assert ColumnParts(es[..i + 1]) == ColumnParts(es[..i]) + [ColumnPart(es[i])];
      r := r + [ColumnPart(es[i])];
    }
    assert es[..|es|] == es;
  }

  /** The index, unique and full-text loops of make(). */
  method AppendIndexParts(parts: seq<string>, kind: string, es: seq<Entry<seq<string>>>) returns (r: seq<string>)
    ensures r == parts + IndexParts(kind, es)
  {
    r := parts;
    for i := 0 to |es|
      invariant r == parts + IndexParts(kind, es[..i])
    {
      assert IndexParts(kind, es[..i + 1]) == IndexParts(kind, es[..i]) + [IndexPart(kind, es[i])];
      r := r + [IndexPart(kind, es[i])];
    }
    assert es[..|es|] == es;
  }

  /** The foreign-key loop of make(). */
  method AppendForeignParts(parts: seq<string>, es: seq<Entry<ForeignKey>>, prefix: string) returns (r: seq<string>)
    ensures r == parts + ForeignParts(es, prefix)
  {
    r := parts;
    for i := 0 to |es|
      invariant r == parts + ForeignParts(es[..i], prefix)
    {
      assert ForeignParts(es[..i + 1], prefix) == ForeignParts(es[..i], prefix) + [ForeignPart(es[i], prefix)];
      r := r + [ForeignPart(es[i], prefix)];
    }
    assert es[..|es|] == es;
  }

  /** The loops of make(), in order. */
  method BuildParts(d: Definition, prefix: string) returns (parts: seq<string>)
    ensures parts == Parts(d, prefix)
  {
    var cs := ColumnParts(d.columns.entries);
    var ixs := IndexParts("INDEX", d.index.entries);
    var us := IndexParts("UNIQUE INDEX", d.unique.entries);
    var fs := IndexParts("FULLTEXT", d.fulltext.entries);
    var ps := PrimaryParts(d.primaryKey);
    var ks := ForeignParts(d.foreignKeys.entries, prefix);
    parts := AppendColumnParts([], d.columns.entries);
    assert parts == cs;
    parts := AppendIndexParts(parts, "INDEX", d.index.entries);
    assert parts == cs + ixs;
    parts := AppendIndexParts(parts, "UNIQUE INDEX", d.unique.entries);
    assert parts == cs + ixs + us;
    parts := AppendIndexParts(parts, "FULLTEXT", d.fulltext.entries);
    assert parts == cs + ixs + us + fs;
    parts := parts + ps;
    parts := AppendForeignParts(parts, d.foreignKeys.entries, prefix);
    assert parts == cs + ixs + us + fs + ps + ks;
  }

  class Create {
    const q: Query.Query
    var definition: Definition

    constructor (table: string, prefix: string)
      ensures fresh(q) && q.table == table && q.prefix == prefix && q.manager == null
      ensures definition == Initial() && Valid()
    {
      q := new Query.Query(table, prefix);
      definition := Initial();
    }

    predicate Valid()
      reads this
    {
      FulltextOk(definition)
    }

    /** make(): the table with its prefix, the body lines, the engine. */
    function Text(): string
      reads this, q, q.manager
    {
      CreateText(definition, q.table, q.GetPrefix())
    }

    method Make() returns (s: string)
      modifies q`sql
      ensures s == Text() && q.sql == Some(s)
    {
      var p := q.GetPrefix();
      var parts := BuildParts(definition, p);
      s := "CREATE TABLE " + QuoteTable(q.table, p) + " (\n  " + Join(",\n  ", parts) + "\n) ENGINE=" + definition.engine;
      q.sql := Some(s);
    }

    /** getDefinition($component). */
    function GetDefinition(component: Option<string>): Component
      reads this
    {
      ComponentOf(definition, component)
    }

    /** add($column, $definition): a column defined again keeps its place. */
    method Add(column: string, def: string)
      requires Valid()
      modifies this`definition
      ensures definition == old(definition).(columns := Put(old(definition).columns, Name(column), def))
      ensures Get(definition.columns, Name(column)) == Some(def)
      ensures Valid()
    {
      PutGet(definition.columns, Name(column), def);
      definition := definition.(columns := Put(definition.columns, Name(column), def));
    }

    /** addPrimaryKey($columns): None (null) removes the key. */
    method AddPrimaryKey(cols: Option<seq<string>>)
      requires Valid()
      modifies this`definition
      ensures definition == old(definition).(primaryKey := cols)
      ensures Valid()
    {
      definition := definition.(primaryKey := cols);
    }

    /** addIndex($columns). */
    method AddIndex(cols: seq<string>)
      requires Valid()
      modifies this`definition
      ensures definition == old(definition).(index := Put(old(definition).index, Name(IndexName("i_", cols)), cols))
      ensures Valid()
    {
      definition := definition.(index := Put(definition.index, Name(IndexName("i_", cols)), cols));
    }

    /** addUniqueIndex($columns). */
    method AddUniqueIndex(cols: seq<string>)
      requires Valid()
      modifies this`definition
      ensures definition == old(definition).(unique := Put(old(definition).unique, Name(IndexName("u_", cols)), cols))
      ensures Valid()
    {
      definition := definition.(unique := Put(definition.unique, Name(IndexName("u_", cols)), cols));
    }

    /** addFulltextIndex($columns). */
    method AddFulltextIndex(cols: seq<string>) returns (o: Db.Outcome)
      requires Valid()
      modifies this`definition
      ensures (o, definition) == AddFulltext(old(definition), cols)
      ensures Valid()
    {
      if definition.engine != Db.TypeMyIsam {
        return Db.Raised(Db.ErrorFulltextOnlyMyIsam);
      }
      definition := definition.(fulltext := Put(definition.fulltext, Name(IndexName("f_", cols)), cols));
      o := Db.Done;
    }

    /** addForeignKey($column, $f_table, $f_column, $on_delete, $on_update). */
    method AddForeignKey(column: string, table: string, refColumn: string, onDelete: int, onUpdate: int)
      returns (o: Db.Outcome)
      requires Valid()
      modifies this`definition
      ensures (o, definition) == AddForeign(old(definition), column, table, refColumn, onDelete, onUpdate)
      ensures Valid()
    {
      var fk := ForeignKey(column, table, refColumn, onDelete, if onUpdate != 0 then onUpdate else onDelete);
      definition := definition.(foreignKeys := Put(definition.foreignKeys, Name("fk_" + column), fk));
      o := SetType(Db.TypeInnoDb);
    }

    /** setType($type). */
    method SetType(engine: string) returns (o: Db.Outcome)
      requires Valid()
      modifies this`definition
      ensures (o, definition) == SetEngine(old(definition), engine)
      ensures Valid()
    {
      if |definition.fulltext.entries| > 0 && engine != Db.TypeMyIsam {
        return Db.Raised(Db.ErrorFulltextOnlyMyIsam);
      }
      definition := definition.(engine := engine);
      o := Db.Done;
    }

    /** addId($col), keyed on the column it defines. */
    method AddId(col: string)
      requires Valid()
      modifies this`definition
      ensures definition == WithId(old(definition), col)
      ensures Valid()
    {
      Add(OrDefault(col, "id"), IdType);
      AddPrimaryKey(Some([OrDefault(col, "id")]));
    }

    method AddForeignId(col: string)
      requires Valid()
      modifies this`definition
      ensures definition == old(definition).(columns := Put(old(definition).columns, Name(OrDefault(col, "parent_id")), ForeignIdType))
      ensures Valid()
    {
      Add(OrDefault(col, "parent_id"), ForeignIdType);
    }

    method AddPrice(col: string, unsigned: bool)
      requires Valid()
      modifies this`definition
      ensures definition == old(definition).(columns := Put(old(definition).columns, Name(OrDefault(col, "price")), PriceType(unsigned)))
      ensures Valid()
    {
      Add(OrDefault(col, "price"), PriceType(unsigned));
    }

    method AddText(col: string, long: bool)
      requires Valid()
      modifies this`definition
      ensures definition == old(definition).(columns := Put(old(definition).columns, Name(OrDefault(col, "text")), TextType(long)))
      ensures Valid()
    {
      Add(OrDefault(col, "text"), TextType(long));
    }

    method AddBool(col: string, default: Val)
      requires Valid()
      modifies this`definition
      ensures definition == old(definition).(columns := Put(old(definition).columns, Name(col), BoolType(default)))
      ensures Valid()
    {
      Add(col, BoolType(default));
    }

    method AddTime(col: string, unix: bool)
      requires Valid()
      modifies this`definition
      ensures definition == old(definition).(columns := Put(old(definition).columns, Name(col), TimeType(unix)))
      ensures Valid()
    {
      Add(col, TimeType(unix));
    }

    method AddTimeCreated(col: string)
      requires Valid()
      modifies this`definition
      ensures definition == old(definition).(columns := Put(old(definition).columns, Name(OrDefault(col, "created_at")), CreatedType))
      ensures Valid()
    {
      Add(OrDefault(col, "created_at"), CreatedType);
    }

    method AddTimeUpdated(col: string)
      requires Valid()
      modifies this`definition
      ensures definition == old(definition).(columns := Put(old(definition).columns, Name(OrDefault(col, "updated_at")), UpdatedType))
      ensures Valid()
    {
      Add(OrDefault(col, "updated_at"), UpdatedType);
    }

    method AddChar(col: string, length: Val)
      requires Valid()
      modifies this`definition
      ensures definition == old(definition).(columns := Put(old(definition).columns, Name(col), CharType(length)))
      ensures Valid()
    {
      Add(col, CharType(length));
    }

    method AddInt(col: string)
      requires Valid()
      modifies this`definition
      ensures definition == old(definition).(columns := Put(old(definition).columns, Name(col), IntType))
      ensures Valid()
    {
      Add(col, IntType);
    }

    method AddTinyInt(col: string)
      requires Valid()
      modifies this`definition
      ensures definition == old(definition).(columns := Put(old(definition).columns, Name(col), TinyIntType))
      ensures Valid()
    {
      Add(col, TinyIntType);
    }

    method AddBigInt(col: string)
      requires Valid()
      modifies this`definition
      ensures definition == old(definition).(columns := Put(old(definition).columns, Name(col), BigIntType))
      ensures Valid()
    {
      Add(col, BigIntType);
    }

    /** addEnum($col, $values, $null): the value list is kept, and the
        column is defined with the enum type. */
    method AddEnum(col: string, values: seq<Entry<Val>>, tail: Val)
      requires Valid()
      modifies this`definition
      ensures definition == old(definition).(
                enums := Put(old(definition).enums, Name(col), values),
                columns := Put(old(definition).columns, Name(col), EnumType(values, tail)))
      ensures Valid()
    {
      definition := definition.(enums := Put(definition.enums, Name(col), values));
      Add(col, EnumType(values, tail));
    }
  }

  // ---------------------------------------------------------------------
  // What make() writes

  /** Every body line is in the text. */
  lemma PartWritten(d: Definition, table: string, prefix: string, i: int)
    requires 0 <= i < |Parts(d, prefix)|
    ensures Occurs(Parts(d, prefix)[i], CreateText(d, table, prefix))
  {
    var ps := Parts(d, prefix);
    var head := "CREATE TABLE " + QuoteTable(table, prefix) + " (\n  ";
    JoinContains(",\n  ", ps, i);
    OccursRight(ps[i], head, Join(",\n  ", ps));
    OccursLeft(ps[i], head + Join(",\n  ", ps), "\n) ENGINE=");
    OccursLeft(ps[i], head + Join(",\n  ", ps) + "\n) ENGINE=", d.engine);
  }

  /** Every defined column is written with its type. */
  lemma ColumnWritten(d: Definition, table: string, prefix: string, col: string)
    requires Get(d.columns, Name(col)).Some?
    ensures Occurs("`" + col + "` " + Get(d.columns, Name(col)).value, CreateText(d, table, prefix))
  {
    LookupEntry(d.columns.entries, Name(col));
    var i :| 0 <= i < |d.columns.entries| && d.columns.entries[i] == Entry(Name(col), Get(d.columns, Name(col)).value);
    assert Parts(d, prefix)[i] == ColumnPart(d.columns.entries[i]);
    PartWritten(d, table, prefix, i);
  }

  /** A primary key that is set is written. */
  lemma PrimaryKeyWritten(d: Definition, table: string, prefix: string)
    requires d.primaryKey.Some?
    ensures Occurs(PrimaryPart(d.primaryKey.value), CreateText(d, table, prefix))
  {
    var before := ColumnParts(d.columns.entries)
      + IndexParts("INDEX", d.index.entries)
      + IndexParts("UNIQUE INDEX", d.unique.entries)
      + IndexParts("FULLTEXT", d.fulltext.entries);
    assert Parts(d, prefix)[|before|] == PrimaryPart(d.primaryKey.value);
    PartWritten(d, table, prefix, |before|);
  }

  /** Every foreign key references its table under the statement's prefix,
      with both of its actions. */
  lemma ForeignKeyWritten(d: Definition, table: string, prefix: string, i: int)
    requires 0 <= i < |d.foreignKeys.entries|
    ensures Occurs(ForeignRefs(prefix, d.foreignKeys.entries[i].val), CreateText(d, table, prefix))
    ensures Occurs(ForeignActions(d.foreignKeys.entries[i].val), CreateText(d, table, prefix))
  {
    var e := d.foreignKeys.entries[i];
    var before := ColumnParts(d.columns.entries)
      + IndexParts("INDEX", d.index.entries)
      + IndexParts("UNIQUE INDEX", d.unique.entries)
      + IndexParts("FULLTEXT", d.fulltext.entries)
      + PrimaryParts(d.primaryKey);
    assert Parts(d, prefix)[|before| + i] == ForeignPart(e, prefix);
    PartWritten(d, table, prefix, |before| + i);
    OccursIn(ForeignHead(e), ForeignRefs(prefix, e.val), ForeignActions(e.val));
    OccursTrans(ForeignRefs(prefix, e.val), ForeignPart(e, prefix), CreateText(d, table, prefix));
    OccursIn(ForeignHead(e) + ForeignRefs(prefix, e.val), ForeignActions(e.val), "");
    assert ForeignHead(e) + ForeignRefs(prefix, e.val) + ForeignActions(e.val) + "" == ForeignPart(e, prefix);
    OccursTrans(ForeignActions(e.val), ForeignPart(e, prefix), CreateText(d, table, prefix));
  }

  /** The text ends with the engine. */
  lemma EngineWritten(d: Definition, table: string, prefix: string)
    ensures EndsWith(CreateText(d, table, prefix), "\n) ENGINE=" + d.engine)
  {
    EndsWithTwo("CREATE TABLE " + QuoteTable(table, prefix) + " (\n  " + Join(",\n  ", Parts(d, prefix)), "\n) ENGINE=", d.engine);
  }

  /** A statement with a full-text index always creates a MyISAM table. */
  lemma FulltextTableIsMyIsam(c: Create)
    requires c.Valid() && |c.definition.fulltext.entries| > 0
    ensures EndsWith(c.Text(), "\n) ENGINE=" + Db.TypeMyIsam)
  {
    EngineWritten(c.definition, c.q.table, c.q.GetPrefix());
  }

  /** The corrected addId writes an auto-increment column and a primary key
      on that same column. */
  lemma IdIsKeyed(d: Definition, table: string, prefix: string, col: string)
    ensures var r := WithId(d, col); var c := OrDefault(col, "id");
            && Occurs("`" + c + "` " + IdType, CreateText(r, table, prefix))
            && Occurs(PrimaryPart([c]), CreateText(r, table, prefix))
  {
    var r := WithId(d, col);
    ColumnWritten(r, table, prefix, OrDefault(col, "id"));
    PrimaryKeyWritten(r, table, prefix);
  }

  /** After a full-text index on a new table, switching to InnoDB throws. */
  lemma FulltextBlocksInnoDb(cols: seq<string>)
    ensures AddFulltext(Initial(), cols).0 == Db.Done
    ensures SetEngine(AddFulltext(Initial(), cols).1, Db.TypeInnoDb).0 == Db.Raised(Db.ErrorFulltextOnlyMyIsam)
  {
  }
}
