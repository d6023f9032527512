/** TRUNCATE TABLE statements (src/CMSx/DB/Query/Truncate.php). */
module Truncate {
  import opened Php
  import opened Builder
  import Query

  class Truncate {
    const q: Query.Query

    constructor (table: string, prefix: string)
      ensures fresh(q) && q.table == table && q.prefix == prefix && q.manager == null
      ensures q.Valid()
    {
      q := new Query.Query(table, prefix);
    }

    /** make(): unlike Drop, the manager's prefix applies when the
        statement has none. */
    function Text(): string
      reads q, q.manager
    {
      "TRUNCATE TABLE " + QuoteTable(q.table, q.GetPrefix())
    }

    method Make() returns (s: string)
      modifies q`sql
      ensures s == Text() && q.sql == Some(s)
    {
      s := Text();
      q.sql := Some(s);
    }
  }

  /** A bare table name is emptied under its prefixed, backticked name, the
      prefix coming from the manager when the statement has none. */
  lemma TruncateBare(t: Truncate)
    requires Bare(t.q.GetPrefix() + t.q.table)
    ensures t.Text() == "TRUNCATE TABLE `" + t.q.GetPrefix() + t.q.table + "`"
    ensures t.q.manager != null && !Truthy(t.q.prefix) ==> t.Text() == "TRUNCATE TABLE `" + t.q.manager.prefix + t.q.table + "`"
  {
    QuoteTableBare(t.q.table, t.q.GetPrefix());
  }
}
