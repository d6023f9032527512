/** DROP TABLE statements (src/CMSx/DB/Query/Drop.php). */
module Drop {
  import opened Php
  import opened Builder
  import Query

  class Drop {
    const q: Query.Query
    /** Whether IF EXISTS is written; on by default. */
    var ifExists: bool

    constructor (table: string, prefix: string)
      ensures fresh(q) && q.table == table && q.prefix == prefix && q.manager == null
      ensures q.Valid() && ifExists
    {
      q := new Query.Query(table, prefix);
      ifExists := true;
    }

    /** make(): the table takes the statement's own prefix only. */
    function Text(): string
      reads this, q
    {
      "DROP TABLE " + (if ifExists then "IF EXISTS " else "") + QuoteTable(q.table, q.prefix)
    }

    method Make() returns (s: string)
      modifies q`sql
      ensures s == Text() && q.sql == Some(s)
    {
      s := Text();
      q.sql := Some(s);
    }

    /** setIfExists($on). */
    method SetIfExists(on: bool)
      modifies this`ifExists
      ensures ifExists == on
    {
      ifExists := on;
    }
  }

  /** A bare table name is dropped under its prefixed, backticked name. */
  lemma DropBare(d: Drop)
    requires Bare(d.q.prefix + d.q.table)
    ensures d.Text() == "DROP TABLE " + (if d.ifExists then "IF EXISTS " else "") + "`" + d.q.prefix + d.q.table + "`"
  {
    QuoteTableBare(d.q.table, d.q.prefix);
  }
}
