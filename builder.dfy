/** The stateless half of the statement builder (src/CMSx/DB/Builder.php):
    identifier, table and literal quoting, and the clause fragments every
    statement is assembled from. A PHP `null` fragment is the empty string
    here, which is what it becomes once concatenated. */
module Builder {
  import opened Php
  import Db

  // ---------------------------------------------------------------------
  // Identifiers

  /** The characters of the pattern `[><,\.()`\s\*=:]`; `\s` is space, tab,
      line feed, vertical tab, form feed and carriage return. */
  predicate IsSpecChar(c: char) {
    || c == '>' || c == '<' || c == ',' || c == '.' || c == '(' || c == ')'
    || c == '`' || c == '*' || c == '=' || c == ':'
    || c == ' ' || c == '\t' || c == '\n' || c == '\U{B}' || c == '\U{C}' || c == '\r'
  }

  /** A name holding such a character is taken to be an expression already. */
  predicate HasSpecChar(s: string) {
    exists i :: 0 <= i < |s| && IsSpecChar(s[i])
  }

  /** A name with no special character at all. */
  predicate Bare(s: string) {
    forall i :: 0 <= i < |s| ==> !IsSpecChar(s[i])
  }

  function QuoteKey(k: string): string {
    if HasSpecChar(k) then k else "`" + k + "`"
  }

  /** QuoteKey leaves an expression alone, backticks a bare name, and quoting
      twice is quoting once. */
  lemma QuoteKeyShape(k: string)
    ensures QuoteKey(k) == k <==> HasSpecChar(k)
    ensures Bare(k) ==> QuoteKey(k) == "`" + k + "`"
    ensures HasSpecChar(QuoteKey(k))
    ensures QuoteKey(QuoteKey(k)) == QuoteKey(k)
  {
    if !HasSpecChar(k) {
      var r := "`" + k + "`";
      assert |r| == |k| + 2;
      assert IsSpecChar(r[0]);
    }
  }

  /** QuoteTable($table, $prefix). A name with a backtick or a comma is taken
      as written; otherwise `prefix + table` is quoted, and when it holds a
      space after its first character it is trimmed and split at the first
      space into a table and an alias, each quoted. */
  function QuoteTable(table: string, prefix: string): string {
    if '`' in table || ',' in table then QuoteKey(table)
    else
      var t := prefix + table;
      var sp := IndexOf(t, ' ');
      if 0 < sp < |t| then
        var u := Trim(t, TrimSpace);
        var cut := IndexOf(u, ' ');
        if cut < |u| then QuoteKey(u[..cut]) + " " + QuoteKey(u[cut + 1..]) else QuoteKey(u)
      else QuoteKey(t)
  }

  /** A table list or a quoted name is emitted unchanged, without the prefix. */
  lemma QuoteTableVerbatim(table: string, prefix: string)
    requires '`' in table || ',' in table
    ensures QuoteTable(table, prefix) == table
  {
    var i :| 0 <= i < |table| && (table[i] == '`' || table[i] == ',');
    assert IsSpecChar(table[i]);
  }

  /** A bare table name is backticked together with the prefix. */
  lemma QuoteTableBare(table: string, prefix: string)
    requires Bare(prefix + table)
    ensures QuoteTable(table, prefix) == "`" + prefix + table + "`"
  {
    var t := prefix + table;
    forall i | 0 <= i < |table| ensures table[i] != '`' && table[i] != ',' {
      assert table[i] == t[|prefix| + i];
    }
    assert forall j :: 0 <= j < |t| ==> t[j] != ' ';
    assert !HasSpecChar(t);
  }

  /** `name alias` gives the quoted, prefixed name and the quoted alias. */
  lemma QuoteTableAlias(name: string, alias: string, prefix: string)
    requires Bare(prefix + name) && Bare(alias)
    requires |prefix + name| > 0 && |alias| > 0
    requires (prefix + name)[0] != '\0' && alias[|alias| - 1] != '\0'
    ensures QuoteTable(name + " " + alias, prefix) == "`" + prefix + name + "` `" + alias + "`"
  {
    var pn := prefix + name;
    var table := name + " " + alias;
    var t := prefix + table;
    assert t == pn + " " + alias;
    AliasPlain(name, alias, prefix);
    AliasSplit(pn, alias);
    assert t[..|pn|] == pn;
    assert t[|pn| + 1..] == alias;
    QuoteTableSplit(table, prefix);
    QuoteTableBareKey(pn);
    QuoteTableBareKey(alias);
    BacktickPair(pn, alias);
  }

  lemma BacktickPair(x: string, y: string)
    ensures ("`" + x + "`") + " " + ("`" + y + "`") == "`" + x + "` `" + y + "`"
  {
    var a := ("`" + x + "`") + " " + ("`" + y + "`");
    var b := "`" + x + "` `" + y + "`";
    assert |a| == |b|;
    forall i | 0 <= i < |a| ensures a[i] == b[i] {
      if i == 0 || i == |x| + 1 || i == |x| + 2 || i == |x| + 3 || i == |a| - 1 {
      } else if i <= |x| {
        assert a[i] == x[i - 1] == b[i];
      } else {
        assert a[i] == y[i - |x| - 4] == b[i];
      }
    }
  }

  lemma QuoteTableSplit(table: string, prefix: string)
    requires '`' !in table && ',' !in table
    requires 0 < IndexOf(prefix + table, ' ') < |prefix + table|
    requires Trim(prefix + table, TrimSpace) == prefix + table
    ensures var t := prefix + table; var cut := IndexOf(t, ' ');
            QuoteTable(table, prefix) == QuoteKey(t[..cut]) + " " + QuoteKey(t[cut + 1..])
  {
    var t := prefix + table;
    var u := Trim(t, TrimSpace);
    assert u == t;
    assert IndexOf(u, ' ') < |u|;
  }

  lemma QuoteTableBareKey(s: string)
    requires Bare(s)
    ensures QuoteKey(s) == "`" + s + "`"
  {
  }

  lemma AliasPlain(name: string, alias: string, prefix: string)
    requires Bare(prefix + name) && Bare(alias)
    ensures '`' !in name + " " + alias && ',' !in name + " " + alias
  {
    var pn := prefix + name;
    var table := name + " " + alias;
    forall i | 0 <= i < |table| ensures table[i] != '`' && table[i] != ',' {
      if i < |name| {
        assert table[i] == pn[|prefix| + i];
        assert !IsSpecChar(pn[|prefix| + i]);
      } else if i > |name| {
        assert table[i] == alias[i - |name| - 1];
        assert !IsSpecChar(alias[i - |name| - 1]);
      }
    }
  }

  lemma AliasSplit(pn: string, alias: string)
    requires Bare(pn) && Bare(alias) && |pn| > 0 && |alias| > 0
    requires pn[0] != '\0' && alias[|alias| - 1] != '\0'
    ensures IndexOf(pn + " " + alias, ' ') == |pn|
    ensures Trim(pn + " " + alias, TrimSpace) == pn + " " + alias
  {
    var t := pn + " " + alias;
    assert t[|pn|] == ' ';
    forall j | 0 <= j < |pn| ensures t[j] != ' ' {
      assert t[j] == pn[j];
      assert !IsSpecChar(pn[j]);
    }
    assert t[0] == pn[0] && !IsSpecChar(pn[0]);
    assert t[|t| - 1] == alias[|alias| - 1] && !IsSpecChar(alias[|alias| - 1]);
    TrimUnchanged(t, TrimSpace);
  }

  // ---------------------------------------------------------------------
  // Literals

  /** QuoteValue($value), with magic quotes off: NULL, the addslashes-escaped
      text bare when it is numeric, in double quotes otherwise. */
  function QuoteValue(v: Val): string {
    if v.Null? then "NULL"
    else
      var e := AddSlashes(ValString(v));
      if IsNumeric(e) then e else "\"" + e + "\""
  }

  /** A string literal is printed as written when numeric, and otherwise
      quoted with its quotes, backslashes and NULs escaped. */
  lemma QuoteValueStr(s: string)
    ensures QuoteValue(Str(s)) == if IsNumeric(s) then s else "\"" + AddSlashes(s) + "\""
  {
    if NumericAlphabet(s) {
      NumericUnescaped(s);
    } else {
      EscapedNotNumeric(s);
    }
  }

  /** Text in the numeric alphabet has nothing for addslashes to escape. */
  lemma NumericUnescaped(s: string)
    requires NumericAlphabet(s)
    ensures AddSlashes(s) == s
  {
    forall i | 0 <= i < |s| ensures !NeedsSlash(s[i]) {
      assert NumericChar(s[i]);
    }
    AddSlashesPlain(s);
  }

  /** Escaping either changes nothing or writes a backslash, which no
      numeric string holds. */
  lemma EscapedNotNumeric(s: string)
    ensures AddSlashes(s) == s || !NumericAlphabet(AddSlashes(s))
  {
    if exists i :: 0 <= i < |s| && NeedsSlash(s[i]) {
      var i :| 0 <= i < |s| && NeedsSlash(s[i]);
      AddSlashesMarks(s, i);
      var e := AddSlashes(s);
      var j :| 0 <= j < |e| && e[j] == '\\';
      assert !NumericChar(e[j]);
    } else {
      AddSlashesPlain(s);
    }
  }

  /** Integers are printed bare, in decimal. */
  lemma QuoteValueInt(n: int)
    ensures QuoteValue(Int(n)) == IntToString(n)
  {
    var s := IntToString(n);
    IntToStringNumeric(n);
    forall i | 0 <= i < |s| ensures !NeedsSlash(s[i]) {
      assert IsDigit(s[i]) || s[i] == '-';
    }
    AddSlashesPlain(s);
  }

  /** `NULL` is produced by null and by nothing else. */
  lemma QuoteValueNull(v: Val)
    ensures QuoteValue(v) == "NULL" <==> v.Null?
  {
    if !v.Null? {
      var e := AddSlashes(ValString(v));
      if IsNumeric(e) {
        if e == "NULL" {
          NotNumeric(e, 0);
        }
      } else {
        assert QuoteValue(v)[0] == '"';
      }
    }
  }

  /** The inverse of quoting a string literal: drop the quotes, strip the slashes. */
  function Unquoted(lit: string): string {
    if |lit| >= 2 then StripSlashes(lit[1..|lit| - 1]) else lit
  }

  /** A non-numeric string survives quoting: unquoting gives it back. */
  lemma LiteralRoundTrip(s: string)
    requires !IsNumeric(s)
    ensures Unquoted(QuoteValue(Str(s))) == s
  {
    QuoteValueStr(s);
    var lit := "\"" + AddSlashes(s) + "\"";
    assert lit[1..|lit| - 1] == AddSlashes(s);
    StripAddSlashes(s);
  }

  function QuoteKeyValue(k: string, v: Val): string {
    "`" + k + "`=" + QuoteValue(v)
  }

  // ---------------------------------------------------------------------
  // Placeholders

  /** The placeholder a value of a clause part is bound to. */
  function BuildBinding(part: string, key: string): (r: string)
    ensures |r| == |part| + |key| + 2 && r[0] == ':'
  {
    ":" + part + "_" + key
  }

  /** CleanKeyName($column): dots become underscores. */
  function CleanKeyName(s: string): (r: string)
    ensures |r| == |s|
    ensures forall i :: 0 <= i < |s| ==> r[i] == (if s[i] == '.' then '_' else s[i])
    ensures '.' !in r
  {
    seq(|s|, i requires 0 <= i < |s| => if s[i] == '.' then '_' else s[i])
  }

  /** The four clause parts a statement binds values under. */
  predicate IsPart(p: string) {
    p == "where" || p == "having" || p == "set" || p == "insert"
  }

  /** Within one part distinct keys get distinct placeholders, and the parts
      never share one, so `:set_id` and `:where_id` stay apart. */
  lemma BindingInjective(p1: string, k1: string, p2: string, k2: string)
    requires IsPart(p1) && IsPart(p2)
    ensures BuildBinding(p1, k1) == BuildBinding(p2, k2) <==> p1 == p2 && k1 == k2
  {
    var a, b := BuildBinding(p1, k1), BuildBinding(p2, k2);
    if a == b {
      assert a[1] == p1[0] && b[1] == p2[0];
      assert p1 == p2;
      assert k1 == a[|p1| + 2..] == b[|p2| + 2..] == k2;
    }
  }

  // ---------------------------------------------------------------------
  // Key/value groups: WHERE, HAVING, SET

  /** The glue of BuildKeyValue: `true`, `false` or a string. */
  datatype Glue = And | Or | Sep(text: string)

  function GlueText(g: Glue): string {
    match g
    case And => " AND "
    case Or => " OR "
    case Sep(t) => t
  }

  /** What one condition contributes: a numeric-keyed entry is a raw fragment,
      kept only when it looks like an expression; a named one is a pair,
      inlined or with a placeholder. */
  function KeyValueItem(e: Entry<Val>, inline: bool, part: string): seq<string> {
    if KeyIsNumeric(e.key) then
      if HasSpecChar(ValString(e.val)) then [ValString(e.val)] else []
    else if inline then [QuoteKeyValue(e.key.s, e.val)]
    else [QuoteKey(e.key.s) + "=:" + part + "_" + e.key.s]
  }

  function KeyValueItems(cond: seq<Entry<Val>>, inline: bool, part: string): seq<string> {
    if |cond| == 0 then [] else KeyValueItem(cond[0], inline, part) + KeyValueItems(cond[1..], inline, part)
  }

  /** BuildKeyValue($condition, $bind, $part, $glue) on an array. */
  function BuildKeyValue(cond: seq<Entry<Val>>, inline: bool, part: string, glue: Glue): string {
    Join(GlueText(glue), KeyValueItems(cond, inline, part))
  }

  /** The items follow the input order: one more condition adds its item at the end. */
  lemma {:induction false} KeyValueItemsSnoc(cond: seq<Entry<Val>>, e: Entry<Val>, inline: bool, part: string)
    ensures KeyValueItems(cond + [e], inline, part) == KeyValueItems(cond, inline, part) + KeyValueItem(e, inline, part)
  {
    if |cond| > 0 {
      assert (cond + [e])[1..] == cond[1..] + [e];
      KeyValueItemsSnoc(cond[1..], e, inline, part);
    }
  }

  /** Appending a condition appends its text, after the glue when something
      came before it; a dropped fragment changes nothing. */
  lemma KeyValueSnoc(cond: seq<Entry<Val>>, e: Entry<Val>, inline: bool, part: string, glue: Glue)
    ensures var before := KeyValueItems(cond, inline, part);
            var item := KeyValueItem(e, inline, part);
            BuildKeyValue(cond + [e], inline, part, glue) ==
              if item == [] then BuildKeyValue(cond, inline, part, glue)
              else if before == [] then item[0]
              else BuildKeyValue(cond, inline, part, glue) + GlueText(glue) + item[0]
  {
    KeyValueItemsSnoc(cond, e, inline, part);
    var before := KeyValueItems(cond, inline, part);
    var item := KeyValueItem(e, inline, part);
    if item == [] {
      assert before + item == before;
    } else if before != [] {
      JoinSnoc(GlueText(glue), before, item[0]);
    }
  }

  lemma {:induction false} KeyValueItemsHave(cond: seq<Entry<Val>>, i: int, inline: bool, part: string)
    requires 0 <= i < |cond| && KeyValueItem(cond[i], inline, part) != []
    ensures KeyValueItem(cond[i], inline, part)[0] in KeyValueItems(cond, inline, part)
  {
    if i > 0 {
      KeyValueItemsHave(cond[1..], i - 1, inline, part);
    }
  }

  /** Every condition that is kept appears in the group: a named one as its
      pair (with its placeholder, or inlined), a raw one verbatim. */
  lemma KeyValueShows(cond: seq<Entry<Val>>, i: int, inline: bool, part: string, glue: Glue)
    requires 0 <= i < |cond|
    ensures var k := cond[i].key; var out := BuildKeyValue(cond, inline, part, glue);
            && (!KeyIsNumeric(k) && !inline ==> Occurs(QuoteKey(k.s) + "=:" + part + "_" + k.s, out))
            && (!KeyIsNumeric(k) && inline ==> Occurs(QuoteKeyValue(k.s, cond[i].val), out))
            && (KeyIsNumeric(k) && HasSpecChar(ValString(cond[i].val)) ==> Occurs(ValString(cond[i].val), out))
  {
    var item := KeyValueItem(cond[i], inline, part);
    if item != [] {
      KeyValueItemsHave(cond, i, inline, part);
      var items := KeyValueItems(cond, inline, part);
      var j :| 0 <= j < |items| && items[j] == item[0];
      JoinContains(GlueText(glue), items, j);
    }
  }

  /** A placeholder written for a named condition is the binding of its key. */
  lemma PlaceholderIsBinding(k: string, part: string)
    ensures Occurs(BuildBinding(part, k), QuoteKey(k) + "=:" + part + "_" + k)
  {
    var s := QuoteKey(k) + "=:" + part + "_" + k;
    assert s == QuoteKey(k) + "=" + BuildBinding(part, k) + "";
    OccursIn(QuoteKey(k) + "=", BuildBinding(part, k), "");
  }

  /** With placeholders, a named condition's binding is written into the group. */
  lemma GroupPlaceholder(cond: seq<Entry<Val>>, i: int, part: string, glue: Glue)
    requires 0 <= i < |cond| && !KeyIsNumeric(cond[i].key)
    ensures Occurs(BuildBinding(part, cond[i].key.s), BuildKeyValue(cond, false, part, glue))
  {
    var k := cond[i].key.s;
    KeyValueShows(cond, i, false, part, glue);
    PlaceholderIsBinding(k, part);
    OccursTrans(BuildBinding(part, k), QuoteKey(k) + "=:" + part + "_" + k, BuildKeyValue(cond, false, part, glue));
  }

  function BuildWhere(where: seq<Entry<Val>>, inline: bool, and: bool): (r: string)
    ensures r == "" <==> |where| == 0
  {
    if |where| == 0 then "" else " WHERE " + BuildKeyValue(where, inline, "where", if and then And else Or)
  }

  function BuildHaving(having: seq<Entry<Val>>, inline: bool, and: bool): (r: string)
    ensures r == "" <==> |having| == 0
  {
    if |having| == 0 then "" else " HAVING " + BuildKeyValue(having, inline, "having", if and then And else Or)
  }

  function BuildSet(values: seq<Entry<Val>>, inline: bool): (r: string)
    ensures r == "" <==> |values| == 0
  {
    if |values| == 0 then "" else " SET " + BuildKeyValue(values, inline, "set", Sep(", "))
  }

  // ---------------------------------------------------------------------
  // Lists, limits, joins

  function QuoteAll(names: seq<string>): (r: seq<string>)
    ensures |r| == |names|
    ensures forall i :: 0 <= i < |names| ==> r[i] == QuoteKey(names[i])
  {
    seq(|names|, i requires 0 <= i < |names| => QuoteKey(names[i]))
  }

  /** BuildNames on a list; an empty (or null) list gives nothing. */
  function BuildNames(names: seq<string>): string {
    Join(", ", QuoteAll(names))
  }

  /** Names already quoted come out as they are: the list of `id`, `title`
      reads the same as the list of id, title. */
  lemma NamesIdempotent(names: seq<string>)
    ensures BuildNames(QuoteAll(names)) == BuildNames(names)
    ensures forall i :: 0 <= i < |names| ==> Occurs(QuoteKey(names[i]), BuildNames(names))
  {
    forall i | 0 <= i < |names| ensures QuoteAll(QuoteAll(names))[i] == QuoteAll(names)[i] {
      QuoteKeyShape(names[i]);
    }
    assert QuoteAll(QuoteAll(names)) == QuoteAll(names);
    forall i | 0 <= i < |names| ensures Occurs(QuoteKey(names[i]), BuildNames(names)) {
      JoinContains(", ", QuoteAll(names), i);
    }
  }

  function BuildOrderBy(names: seq<string>): (r: string)
    ensures r == "" <==> |names| == 0
  {
    if |names| == 0 then "" else " ORDER BY " + BuildNames(names)
  }

  function BuildGroupBy(names: seq<string>): (r: string)
    ensures r == "" <==> |names| == 0
  {
    if |names| == 0 then "" else " GROUP BY " + BuildNames(names)
  }

  /** BuildLimit($limit, $offset): nothing for an empty limit, the offset
      only when it is not zero. */
  function BuildLimit(limit: Option<int>, offset: Option<int>): (r: string)
    ensures r == "" <==> limit.None? || limit.value == 0
  {
    if limit.None? || limit.value == 0 then ""
    else " LIMIT " + (if offset.Some? && offset.value != 0 then IntToString(offset.value) + ", " else "") + IntToString(limit.value)
  }

  /** An offset of zero is never printed. */
  lemma LimitZeroOffset(limit: Option<int>)
    ensures BuildLimit(limit, Some(0)) == BuildLimit(limit, None)
  {
  }

  /** One join as Select stores it: the table (prefix already applied), the
      ON condition and the join type ("" for none). */
  datatype JoinSpec = JoinSpec(table: string, on: string, kind: string)

  function JoinClause(j: JoinSpec): string {
    " " + (if Truthy(j.kind) then Upper(j.kind) + " " else "") + "JOIN " + QuoteTable(j.table, "") + " ON " + j.on
  }

  function BuildJoin(joins: seq<Entry<JoinSpec>>): string {
    if |joins| == 0 then "" else JoinClause(joins[0].val) + BuildJoin(joins[1..])
  }

  /** Joins are rendered in insertion order. */
  lemma {:induction false} BuildJoinSnoc(joins: seq<Entry<JoinSpec>>, e: Entry<JoinSpec>)
    ensures BuildJoin(joins + [e]) == BuildJoin(joins) + JoinClause(e.val)
  {
    if |joins| > 0 {
      assert (joins + [e])[1..] == joins[1..] + [e];
      BuildJoinSnoc(joins[1..], e);
    }
  }

  /** BuildValues($values, $bind, $part): one item per entry. */
  function ValueItems(values: seq<Entry<Val>>, inline: bool, part: string): (r: seq<string>)
    ensures |r| == |values|
    ensures forall i :: 0 <= i < |values| ==>
      r[i] == if inline then QuoteValue(values[i].val) else BuildBinding(part, KeyString(values[i].key))
  {
    seq(|values|, i requires 0 <= i < |values| =>
      if inline then QuoteValue(values[i].val) else ":" + part + "_" + KeyString(values[i].key))
  }

  function BuildValues(values: seq<Entry<Val>>, inline: bool, part: string): string {
    Join(", ", ValueItems(values, inline, part))
  }

  /** BuildReferenceAction($action); a missing action is 0. */
  function BuildReferenceAction(action: int): (r: string)
    ensures r == "CASCADE" <==> action == Db.ForeignCascade
    ensures r == "SET NULL" <==> action == Db.ForeignSetNull
    ensures r == "RESTRICT" <==> action != Db.ForeignCascade && action != Db.ForeignSetNull
  {
    if action == Db.ForeignCascade then "CASCADE"
    else if action == Db.ForeignSetNull then "SET NULL"
    else "RESTRICT"
  }

  // ---------------------------------------------------------------------
  // Inlining user binds

  /** ReplaceBindedValues($sql, $binded_values): each key in turn is replaced
      textually by its quoted value. */
  function ReplaceBindedValues(sql: string, binds: seq<Entry<Val>>): string
    decreases |binds|
  {
    if |binds| == 0 then sql
    else ReplaceBindedValues(Replace(KeyString(binds[0].key), QuoteValue(binds[0].val), sql), binds[1..])
  }

  /** Text in which no bound key occurs is left untouched. */
  lemma {:induction false} ReplaceBindedAbsent(sql: string, binds: seq<Entry<Val>>)
    requires forall i :: 0 <= i < |binds| ==> !Occurs(KeyString(binds[i].key), sql)
    ensures ReplaceBindedValues(sql, binds) == sql
    decreases |binds|
  {
    if |binds| > 0 {
      ReplaceAbsent(KeyString(binds[0].key), QuoteValue(binds[0].val), sql);
      assert forall i :: 0 <= i < |binds[1..]| ==> binds[1..][i] == binds[i + 1];
      ReplaceBindedAbsent(sql, binds[1..]);
    }
  }
}
