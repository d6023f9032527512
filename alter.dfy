/** ALTER TABLE statements (src/CMSx/DB/Query/Alter.php). Each change
    method writes the whole statement at once; make() hands back the last
    one. The table takes the statement's own prefix only. */
module Alter {
  import opened Php
  import opened Builder
  import Query

  /** The `$after` argument of addColumn and modifyColumn: `true`, a column
      name, or nothing. */
  datatype Placement = NoPlacement | First | After(column: string)

  /** An empty column name ("" or "0") places nothing. */
  function PlacementText(p: Placement): (r: string)
    ensures p.First? ==> r == " FIRST"
    ensures p.After? && Truthy(p.column) ==> r == " AFTER " + QuoteKey(p.column)
    ensures p.NoPlacement? || (p.After? && !Truthy(p.column)) ==> r == ""
  {
    match p
    case First => " FIRST"
    case After(c) => if Truthy(c) then " AFTER " + QuoteKey(c) else ""
    case NoPlacement => ""
  }

  /** build($action, $definition). */
  function Statement(table: string, prefix: string, action: string, def: string): string {
    "ALTER TABLE " + QuoteTable(table, prefix) + " " + Upper(action) + (if Truthy(def) then " " + def else "")
  }

  /** The column clause of addColumn and modifyColumn. */
  function ColumnDefinition(column: string, definition: string, after: Placement): string {
    QuoteKey(column) + " " + definition + PlacementText(after)
  }

  /** The index clause: the tag and the joined columns name the index. */
  function IndexDefinition(tag: string, cols: seq<string>): string {
    QuotedIndexName(tag, cols) + " (" + BuildNames(cols) + ")"
  }

  function QuotedIndexName(tag: string, cols: seq<string>): string {
    "`" + tag + Join("_", cols) + "`"
  }

  function KeyDefinition(cols: seq<string>): string {
    "(" + BuildNames(cols) + ")"
  }

  /** An action with no lower-case letter is written as it is. */
  predicate UpperCase(s: string) {
    forall i :: 0 <= i < |s| ==> !('a' <= s[i] <= 'z')
  }

  /** The statement is the prefixed table, the action and, when there is
      one, the clause. */
  lemma StatementShape(table: string, prefix: string, action: string, def: string)
    requires UpperCase(action)
    ensures Truthy(def) ==> Statement(table, prefix, action, def) == "ALTER TABLE " + QuoteTable(table, prefix) + " " + action + " " + def
    ensures !Truthy(def) ==> Statement(table, prefix, action, def) == "ALTER TABLE " + QuoteTable(table, prefix) + " " + action
  {
    UpperOfUpper(action);
  }

  /** Every column of an index clause is written quoted, and so is its name. */
  lemma IndexColumnsWritten(tag: string, cols: seq<string>, i: int)
    requires 0 <= i < |cols|
    ensures Occurs(QuoteKey(cols[i]), IndexDefinition(tag, cols))
    ensures Occurs(QuotedIndexName(tag, cols), IndexDefinition(tag, cols))
  {
    var name := QuotedIndexName(tag, cols);
    OccursJoined(", ", QuoteAll(cols), i, name + " (", ")");
    OccursFront(name, " (");
    OccursLeft(name, name + " (", BuildNames(cols));
    OccursLeft(name, name + " (" + BuildNames(cols), ")");
  }

  /** A placed column ends with its placement; a bare column name after
      AFTER is backticked. */
  lemma PlacementWritten(column: string, definition: string, after: string)
    requires Bare(after) && Truthy(after)
    ensures EndsWith(ColumnDefinition(column, definition, After(after)), " AFTER `" + after + "`")
    ensures EndsWith(ColumnDefinition(column, definition, First), " FIRST")
  {
    QuoteTableBareKey(after);
    var front := QuoteKey(column) + " " + definition;
    assert ColumnDefinition(column, definition, After(after))[|front|..] == " AFTER `" + after + "`";
    assert ColumnDefinition(column, definition, First)[|front|..] == " FIRST";
  }

  /** rename() applies the prefix to the new name as well. */
  lemma RenameKeepsPrefix(table: string, prefix: string, name: string)
    requires Bare(prefix + name) && Bare(prefix + table)
    ensures Statement(table, prefix, "RENAME TO", QuoteKey(prefix + name))
            == "ALTER TABLE `" + prefix + table + "` RENAME TO `" + prefix + name + "`"
  {
    QuoteTableBare(table, prefix);
    QuoteTableBareKey(prefix + name);
    StatementShape(table, prefix, "RENAME TO", QuoteKey(prefix + name));
  }

  class Alter {
    const q: Query.Query

    constructor (table: string, prefix: string)
      ensures fresh(q) && q.table == table && q.prefix == prefix && q.manager == null && q.sql == None
    {
      q := new Query.Query(table, prefix);
    }

    /** make(): the last statement built, None before the first change. */
    method Make() returns (s: Option<string>)
      ensures s == q.sql
    {
      s := q.sql;
    }

    method Build(action: string, def: string)
      modifies q`sql
      ensures q.sql == Some(Statement(q.table, q.prefix, action, def))
    {
      q.sql := Some(Statement(q.table, q.prefix, action, def));
    }

    method AddColumn(column: string, definition: string, after: Placement)
      modifies q`sql
      ensures q.sql == Some(Statement(q.table, q.prefix, "ADD COLUMN", ColumnDefinition(column, definition, after)))
    {
      Build("ADD COLUMN", ColumnDefinition(column, definition, after));
    }

    method AddIndex(cols: seq<string>)
      modifies q`sql
      ensures q.sql == Some(Statement(q.table, q.prefix, "ADD INDEX", IndexDefinition("i_", cols)))
    {
      Build("ADD INDEX", IndexDefinition("i_", cols));
    }

    method AddUniqueIndex(cols: seq<string>)
      modifies q`sql
      ensures q.sql == Some(Statement(q.table, q.prefix, "ADD UNIQUE", IndexDefinition("u_", cols)))
    {
      Build("ADD UNIQUE", IndexDefinition("u_", cols));
    }

    method AddFulltextIndex(cols: seq<string>)
      modifies q`sql
      ensures q.sql == Some(Statement(q.table, q.prefix, "ADD FULLTEXT", IndexDefinition("f_", cols)))
    {
      Build("ADD FULLTEXT", IndexDefinition("f_", cols));
    }

    method AddPrimaryKey(cols: seq<string>)
      modifies q`sql
      ensures q.sql == Some(Statement(q.table, q.prefix, "ADD PRIMARY KEY", KeyDefinition(cols)))
    {
      Build("ADD PRIMARY KEY", KeyDefinition(cols));
    }

    method DropColumn(column: string)
      modifies q`sql
      ensures q.sql == Some(Statement(q.table, q.prefix, "DROP COLUMN", QuoteKey(column)))
    {
      Build("DROP COLUMN", QuoteKey(column));
    }

    method DropPrimaryKey()
      modifies q`sql
      ensures q.sql == Some(Statement(q.table, q.prefix, "DROP PRIMARY KEY", ""))
    {
      Build("DROP PRIMARY KEY", "");
    }

    method DropIndex(index: string)
      modifies q`sql
      ensures q.sql == Some(Statement(q.table, q.prefix, "DROP INDEX", QuoteKey(index)))
    {
      Build("DROP INDEX", QuoteKey(index));
    }

    method ModifyColumn(column: string, definition: string, after: Placement)
      modifies q`sql
      ensures q.sql == Some(Statement(q.table, q.prefix, "MODIFY COLUMN", ColumnDefinition(column, definition, after)))
    {
      Build("MODIFY COLUMN", ColumnDefinition(column, definition, after));
    }

    method Rename(name: string)
      modifies q`sql
      ensures q.sql == Some(Statement(q.table, q.prefix, "RENAME TO", QuoteKey(q.prefix + name)))
    {
      Build("RENAME TO", QuoteKey(q.prefix + name));
    }

    /** setOrderBy($column): an expression such as `title DESC` is kept as
        it is. */
    method SetOrderBy(column: string)
      modifies q`sql
      ensures q.sql == Some(Statement(q.table, q.prefix, "ORDER BY", QuoteKey(column)))
    {
      Build("ORDER BY", QuoteKey(column));
    }
  }
}
