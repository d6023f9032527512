# cmsx/DB statement builder in Dafny

This project models cmsx/DB, a PHP builder of MySQL statements. Fluent
setup calls store conditions, value tables, column lists and table
definitions in a statement object. `make()` then turns that state into SQL
text, and `getBindedValues()` turns it into the table of placeholder values
handed to PDO. No database is involved.

The modules follow the source:

- `Php` models the PHP runtime the code relies on:
  - ordered arrays with integer and string keys, where `$a[$k] = $v` updates in place or appends, `$a[] = $v` uses the next integer key, and `unset` never lowers that counter;
  - scalars, truthiness, `is_numeric`, `addslashes`, `strtoupper`, `str_replace` and `join`.
- `Db` holds the constants of the manager class: error codes, engines and foreign-key actions. It also defines `Outcome`, the value that stands for a thrown `DB` exception.
- `Builder` holds the static quoting and clause functions.
- `Conditions` holds the value-level reading of the base statement's state:
  - the condition normaliser behind `where(...)`, `whereIn`, `whereBetween`;
  - the value tables;
  - the binding table.
- `Query` holds the base statement as a class whose fields the methods update in place. Each method is proved against a `Conditions` function.
- `Select`, `Update`, `Delete`, `Insert`, `Create`, `Alter`, `Drop` and `Truncate` hold one statement class each. A statement class holds its `Query` object in place of inheriting from it.

Two invariants run through the model:

- Raw fragments are never bound. The `where` value table holds named keys only.
- Every named WHERE condition and every named HAVING term is bound, under its own key and with its own value, in its part's value table. `Query.Query.Valid` states this, and every public setup method keeps it. The WHERE methods write into the where table only (`Conditions.NormalizeElsewhere`), and the set methods into their own part, so neither disturbs the other tables.

The headline lemma is `Conditions.BindingFound`: a placeholder written for a named value of a clause part is bound, in the table `getBindedValues()` returns, to exactly that value. The statement lemmas (`Select.WherePlaceholderBound`, `Select.HavingPlaceholderBound`, `Update.WherePlaceholderBound`, `Delete.WherePlaceholderBound`, `Update.SetPlaceholderBound`, `Insert.InsertPlaceholderBound`, `Conditions.WhereInBound`, `Conditions.BetweenBound`) apply it to the text `make()` writes.

Update and Delete carry their own copies of `limit` and `setWhereJoinByAnd`
(src/CMSx/DB/Query/Delete.php:41-70, src/CMSx/DB/Query/Update.php:40-117).
They are the same code as Select's and are modelled once, as
`Query.Query.Limit` and `Query.Query.SetWhereJoinByAnd`. Update's `where`,
`whereIn`, `whereEqual` and `whereBetween` are likewise `Query.Query`'s.

The PHP runtime the model follows is PHP 8: `is_numeric` uses its decimal
grammar, and a call that omits a declared argument raises
`ArgumentCountError`. One exception is `getBindedValues()` for a statement
with no binds and no values, which follows PHP 7 (see "## Left out").

For `CREATE TABLE`, the rule that a table with a fulltext index must use the MyISAM engine is the invariant of the `Create` class. `Create.FulltextTableIsMyIsam` proves that every such statement ends in `ENGINE=MyISAM`.

## Model

| member | source | states |
|---|---|---|
| Builder.QuoteKeyShape | src/CMSx/DB/Builder.php:179-182 | A key is left as it is exactly when it contains a special character. Otherwise it is wrapped in backticks. The result always counts as quoted, so quoting twice changes nothing. Specifies `Builder.QuoteKey`. |
| Builder.QuoteTableVerbatim | src/CMSx/DB/Builder.php:166-176 | A table name holding a backtick or a comma is returned unchanged and gets no prefix. Specifies `Builder.QuoteTable`. |
| Builder.QuoteTableBare | src/CMSx/DB/Builder.php:166-177 | A plain table name becomes the backticked prefix plus name. Specifies `Builder.QuoteTable`. |
| Builder.QuoteTableAlias | src/CMSx/DB/Builder.php:166-174 | A `table alias` form is split at its first space: the prefixed table and the alias are quoted separately. Specifies `Builder.QuoteTable`. |
| Builder.QuoteValueStr | src/CMSx/DB/Builder.php:184-193 | A numeric string literal is written bare. Any other string is written addslashes-escaped inside double quotes. Specifies `Builder.QuoteValue`. |
| Builder.QuoteValueInt | src/CMSx/DB/Builder.php:184-193 | An integer literal is its decimal text. Specifies `Builder.QuoteValue`. |
| Builder.QuoteValueNull | src/CMSx/DB/Builder.php:186-188 | The literal is `NULL` if and only if the value is null. Specifies `Builder.QuoteValue`. |
| Builder.LiteralRoundTrip | src/CMSx/DB/Builder.php:184-193 | Unquoting and unescaping a quoted non-numeric string gives the string back. Specifies `Builder.QuoteValue`. |
| Php.StripAddSlashes | src/CMSx/DB/Builder.php:189-191 | stripslashes undoes addslashes, so escaping loses nothing. Specifies `Php.AddSlashes`. |
| Php.AddSlashesPlain | src/CMSx/DB/Builder.php:189-191 | A string without quotes, backslashes or NUL is left unchanged. Specifies `Php.AddSlashes`. |
| Php.AddSlashesMarks | src/CMSx/DB/Builder.php:189-191 | A string holding a character that needs escaping gets a backslash. Specifies `Php.AddSlashes`. |
| Php.IntToStringNumeric | src/CMSx/DB/Builder.php:192 | The decimal text of every integer is numeric, so an integer literal is written bare. Specifies `Php.IsNumeric`. |
| Php.NotNumeric | src/CMSx/DB/Query.php:180 | A string holding a character outside the numeric alphabet is not numeric. Specifies `Php.IsNumeric`. |
| Builder.NumericUnescaped | src/CMSx/DB/Builder.php:189-191 | addslashes leaves a numeric string alone. |
| Builder.BindingInjective | src/CMSx/DB/Query.php:122 | Two placeholders `:part_key` over clause parts are equal if and only if both the parts and the keys are equal. So `:set_id` and `:where_id` never collide. Specifies `Builder.BuildBinding`. |
| Builder.CleanKeyName | src/CMSx/DB/Query.php:212-213 | A column name keeps its length, with each `.` replaced by `_` and nothing else changed. |
| Builder.KeyValueSnoc | src/CMSx/DB/Builder.php:94-119 | Conditions are grouped in input order. An appended condition adds its text after the glue, or alone when it is the first one. A dropped fragment adds nothing. Specifies `Builder.BuildKeyValue`. |
| Builder.KeyValueShows | src/CMSx/DB/Builder.php:100-115 | Each kept entry appears in the group. A named entry appears as `key=:part_key`, or as the key quoted with its literal when inlining. A numeric-keyed entry with a special character appears verbatim. Specifies `Builder.BuildKeyValue` and, for inlined entries, `Builder.QuoteKeyValue`. |
| Builder.GroupPlaceholder | src/CMSx/DB/Builder.php:110-113 | In placeholder mode, the binding of every named condition is written into the group. Specifies `Builder.BuildKeyValue`. |
| Builder.BuildWhere | src/CMSx/DB/Builder.php:50-56 | The WHERE clause is empty if and only if there are no conditions. |
| Builder.BuildHaving | src/CMSx/DB/Builder.php:58-64 | The HAVING clause is empty if and only if there are no conditions. |
| Builder.BuildSet | src/CMSx/DB/Builder.php:66-72 | The SET clause is empty if and only if there are no assignments. |
| Builder.NamesIdempotent | src/CMSx/DB/Builder.php:122-135 | A name list built from names that are already quoted is the same list. Every name of the list is written quoted. Specifies `Builder.BuildNames`. |
| Builder.BuildOrderBy | src/CMSx/DB/Builder.php:21-30 | The ORDER BY clause is empty if and only if the list is empty. |
| Builder.BuildGroupBy | src/CMSx/DB/Builder.php:32-41 | The GROUP BY clause is empty if and only if the list is empty. |
| Builder.BuildLimit | src/CMSx/DB/Builder.php:43-48 | The LIMIT clause is empty if and only if the limit is missing or 0. |
| Builder.LimitZeroOffset | src/CMSx/DB/Builder.php:45-47 | An offset of 0 is never printed: it gives the same clause as no offset. |
| Builder.BuildJoinSnoc | src/CMSx/DB/Builder.php:7-19 | JOIN clauses are written in insertion order. Appending a join appends its clause. Specifies `Builder.BuildJoin`. |
| Builder.ValueItems | src/CMSx/DB/Builder.php:138-149 | There is one value item per column. It is the literal when inlining and `:part_key` otherwise. `Builder.BuildValues` joins these items with `, `. |
| Builder.BuildReferenceAction | src/CMSx/DB/Builder.php:152-164 | `FOREIGN_CASCADE` (2) gives CASCADE and `FOREIGN_SET_NULL` (3) gives SET NULL, each if and only if. Any other value gives RESTRICT. The constants are read as those of src/CMSx/DB.php:46-48 (see "## Left out"). |
| Builder.ReplaceBindedAbsent | src/CMSx/DB/Builder.php:74-82 | Replacing binds whose keys do not occur in the text leaves the text unchanged. Specifies `Builder.ReplaceBindedValues`. |
| Conditions.Positional | src/CMSx/DB/Query.php:178 | The argument list is keyed 0, 1, … in order. |
| Conditions.PositionalScalar | src/CMSx/DB/Query.php:179-190 | A positional number becomes `id`. A positional true or false becomes `is_active = true`. Each first drops the condition stored at the argument's index. Any other string is appended under the next integer key as a raw fragment. Null is ignored. Specifies `Conditions.Step`. |
| Conditions.KeyedScalar | src/CMSx/DB/Query.php:192-196 | A keyed scalar sets `where[key]`. An existing key keeps its position and a new one is appended. No other condition changes. Specifies `Conditions.Step`. |
| Conditions.NormalizeOk | src/CMSx/DB/Query.php:177-204 | After processWhere the tables are well formed, no raw fragment is bound, and every named condition is bound. This holds for any arguments. Specifies `Conditions.Normalize`, with `Conditions.Fold` and `Conditions.Step`. |
| Conditions.WhereInOk | src/CMSx/DB/Query.php:207-218 | processWhereIn keeps the same invariant. Specifies `Conditions.WhereIn`. |
| Conditions.BetweenOk | src/CMSx/DB/Query.php:221-237 | processWhereBetween keeps the same invariant. Specifies `Conditions.Between`. |
| Conditions.WhereInAppends | src/CMSx/DB/Query.php:207-218 | processWhereIn appends its one raw term `col IN (...)` after the old conditions, under the next integer key. Specifies `Conditions.WhereIn`. |
| Conditions.WhereInValues | src/CMSx/DB/Query.php:207-218 | The value tables after processWhereIn are the list's values stored under `col_1`, `col_2`, …, followed by the copy of the conditions into the where table. Specifies `Conditions.WhereIn`. |
| Conditions.WhereInStored | src/CMSx/DB/Query.php:207-218 | After processWhereIn the where table holds the value at index j under the key `col_(j+1)`, unless a condition already uses that key. Specifies `Conditions.WhereIn`. |
| Conditions.WhereInBound | src/CMSx/DB/Query.php:207-218 | processWhereIn appends the one raw term `col IN (...)`. The term lists the j-th placeholder, and the binding table maps that placeholder to the j-th value. Specifies `Conditions.WhereIn`. |
| Conditions.BetweenBound | src/CMSx/DB/Query.php:221-237 | processWhereBetween appends the one raw term. The `_from` and `_to` placeholders are bound to the two bounds. Specifies `Conditions.Between`. |
| Conditions.InValuesStored | src/CMSx/DB/Query.php:210-214 | The j-th value of an IN list is stored in the where table under `col_(j+1)`. Specifies `Conditions.InValues`. |
| Conditions.SetValueInOk | src/CMSx/DB/Query.php:245-250 | setValue writes its own part only and keeps the tables well formed. Specifies `Conditions.SetValueIn`. |
| Conditions.SetValuesCopies | src/CMSx/DB/Query.php:260-273 | setValues copies every named entry into the part, where it is then found with its value. Specifies `Conditions.SetValuesIn`. |
| Conditions.SetValueInElsewhere | src/CMSx/DB/Query.php:245-250 | setValue leaves the table of every other part as it was. |
| Conditions.SetValuesElsewhere | src/CMSx/DB/Query.php:260-273 | setValues leaves the table of every other part as it was. |
| Conditions.PutAllElsewhere | src/CMSx/DB/Query/Update.php:102-109 | setArray leaves the table of every other part as it was. |
| Conditions.InValuesElsewhere | src/CMSx/DB/Query.php:210-214 | Storing an IN list leaves every table but the where table as it was. |
| Conditions.NormalizeElsewhere | src/CMSx/DB/Query.php:177-204 | processWhere, whatever its arguments, leaves every table but the where table as it was. So it never disturbs the having, set or insert values. |
| Conditions.WhereInElsewhere | src/CMSx/DB/Query.php:207-218 | processWhereIn leaves every table but the where table as it was. |
| Conditions.BetweenElsewhere | src/CMSx/DB/Query.php:221-237 | processWhereBetween leaves every table but the where table as it was. |
| Conditions.SetValueInRaw | src/CMSx/DB/Query.php:201-203 | Named keys written into the where table keep it free of raw fragments. |
| Conditions.BindKey | src/CMSx/DB/Query.php:83-91 | The bind key starts with a colon. It is the given key, with one colon added when it has none. |
| Conditions.BindingFound | src/CMSx/DB/Query.php:116-128 | A named value of a part is bound in getBindedValues' table under `:part_key`, with its value. The table is then not `false`. Specifies `Conditions.BindingTable`. |
| Query.Query.constructor | src/CMSx/DB/Query.php:34-45 | A new statement has empty tables, no sql, AND glue, and the invariant. |
| Query.Query.GetPrefix | src/CMSx/DB/Query.php:167-174 | The prefix is the statement's own when it is truthy. Otherwise it is the manager's prefix, when a manager is attached. |
| Query.Query.GetLastSql | src/CMSx/DB/Query.php:110-113 | The result is `false` (None) before any make, and the last text afterwards. |
| Query.Query.SetManager | src/CMSx/DB/Query.php:147-152 | The manager is attached. |
| Query.Query.SetPrefix | src/CMSx/DB/Query.php:160-165 | The own prefix is set. |
| Query.Query.Bind | src/CMSx/DB/Query.php:83-91 | The value is stored under the colon-prefixed key. Binding again overwrites it. |
| Query.Query.BindArray | src/CMSx/DB/Query.php:94-101 | The result equals binding each pair in order. |
| Query.Query.GetBindedValues | src/CMSx/DB/Query.php:116-128 | The nested loops compute the binding table. |
| Query.Query.SetValue | src/CMSx/DB/Query.php:245-250 | `values[part][key] = value`. |
| Query.Query.SetValues | src/CMSx/DB/Query.php:260-273 | The loop writes the named pairs, and the numeric ones as `_n` unless told to skip them. |
| Query.Query.ProcessWhere | src/CMSx/DB/Query.php:177-204 | The loop computes the normaliser and keeps the invariant. |
| Query.Query.ProcessWhereIn | src/CMSx/DB/Query.php:207-218 | The loop stores the IN values and adds the IN term. |
| Query.Query.ProcessWhereBetween | src/CMSx/DB/Query.php:221-237 | The two bounds are stored and the BETWEEN term is added. |
| Query.Query.Where | src/CMSx/DB/Query/Select.php:160-165 | where(...) normalises the positional arguments onto the stored conditions, so successive calls accumulate. |
| Query.Query.WhereIn | src/CMSx/DB/Query/Select.php:168-173 | whereIn is processWhereIn. |
| Query.Query.WhereEqual | src/CMSx/DB/Query/Select.php:176-184 | whereEqual normalises the single pair. |
| Query.Query.WhereBetween | src/CMSx/DB/Query/Select.php:187-192 | whereBetween is processWhereBetween. |
| Query.Query.Limit | src/CMSx/DB/Query/Select.php:234-242 | The limit is set. A missing offset keeps the stored one. |
| Query.Query.SetWhereJoinByAnd | src/CMSx/DB/Query/Select.php:257-262 | The WHERE glue switches between AND and OR. |
| Select.Select.Make | src/CMSx/DB/Query/Select.php:11-30 | The columns (or `*`), FROM table, JOIN, WHERE, GROUP BY, HAVING, ORDER BY and LIMIT come in that order. Inlining substitutes the user binds. Only `sql` is written. |
| Select.Select.Columns | src/CMSx/DB/Query/Select.php:136-146 | The column list is replaced. |
| Select.Select.Join | src/CMSx/DB/Query/Select.php:148-157 | The join is keyed by its table. The prefix is captured at call time. Re-joining a table replaces it in place. |
| Select.Select.OrderBy | src/CMSx/DB/Query/Select.php:195-204 | The ORDER BY list is replaced. |
| Select.Select.GroupBy | src/CMSx/DB/Query/Select.php:207-216 | The GROUP BY list is replaced. |
| Select.Select.Having | src/CMSx/DB/Query/Select.php:219-231 | The HAVING terms are replaced and their named values written to the having table. The invariant is kept, including that every named HAVING term is bound. |
| Select.Select.Page | src/CMSx/DB/Query/Select.php:245-254 | page(p, n) is limit(n, (p-1)*n), with a page below 1 treated as 1. |
| Select.Select.SetHavingJoinByAnd | src/CMSx/DB/Query/Select.php:265-270 | The HAVING glue switches between AND and OR. |
| Select.WherePlaceholderBound | src/CMSx/DB/Query/Select.php:13-21 | Every named WHERE condition's placeholder is in the SELECT text and is bound to the condition's value. |
| Select.HavingPlaceholderBound | src/CMSx/DB/Query/Select.php:13-21 | For every valid statement, every named HAVING term's placeholder is in the SELECT text and is bound to the term's value. |
| Select.HavingStored | src/CMSx/DB/Query/Select.php:226-228 | After having(...), each named term is in the having table with its value. |
| Update.Update.Make | src/CMSx/DB/Query/Update.php:10-25 | The result is null (the last text kept) while nothing is set. Otherwise it is UPDATE table, then SET, WHERE and LIMIT, with inlining substituting the binds. |
| Update.Update.Set | src/CMSx/DB/Query/Update.php:86-91 | An assignment on an existing key overwrites it in place. The invariant is kept. |
| Update.Update.SetExpression | src/CMSx/DB/Query/Update.php:94-99 | The expression is appended under the next integer key. |
| Update.Update.SetArray | src/CMSx/DB/Query/Update.php:102-109 | The result equals set on each pair in order. |
| Update.SetPlaceholderBound | src/CMSx/DB/Query/Update.php:15-18 | Every named assignment's `:set_key` is written and bound to its value. |
| Update.WherePlaceholderBound | src/CMSx/DB/Query/Update.php:12-18 | Once something is set, every named WHERE condition's placeholder is in the UPDATE text and is bound to the condition's value. |
| Update.ExpressionWritten | src/CMSx/DB/Query/Update.php:94-99 | An expression with a special character is written verbatim. |
| Delete.Delete.Make | src/CMSx/DB/Query/Delete.php:15-26 | The text is DELETE FROM with the table under its own prefix, then WHERE (absent when there are no conditions), then LIMIT. Inlining substitutes the binds. |
| Delete.Delete.Where | src/CMSx/DB/Query/Delete.php:52-63 | The given conditions replace the stored ones, normalised. The invariant is kept. |
| Delete.WhereArgumentForms | src/CMSx/DB/Query/Delete.php:54-58 | An array first argument stands for itself and a null one for no conditions, both ignoring later arguments. A scalar first argument makes the whole argument list the condition array. Specifies `Delete.WhereItems` and `Delete.WhereConds`. |
| Delete.WherePlaceholderBound | src/CMSx/DB/Query/Delete.php:15-26 | Every named WHERE condition's placeholder is in the DELETE text and is bound to the condition's value. |
| Delete.WhereAsWrittenRaises | src/CMSx/DB/Query/Delete.php:52-63 | As written, under PHP 8, where(12, raw) raises ArgumentCountError and copies nothing into the where table. Specifies `Delete.WhereAsWritten`. |
| Delete.WhereAsWrittenDropsId | src/CMSx/DB/Query/Delete.php:52-63 | Before PHP 7.1 the same call returns, but renders only the raw fragment. Specifies `Delete.WhereAsWrittenLegacy`. |
| Delete.WhereNormalizedKeepsId | tests/unit/build.php:207-217 | With normalisation, where(12, raw) renders `id`=:where_id AND the raw fragment. |
| Insert.Insert.Make | src/CMSx/DB/Query/Insert.php:11-22 | The result is null (the last text kept) until set is called. User binds are never substituted. |
| Insert.Insert.Set | src/CMSx/DB/Query/Insert.php:36-41 | Setting a column again keeps one column with the last value. |
| Insert.Insert.SetArray | src/CMSx/DB/Query/Insert.php:44-51 | The result equals set on each pair in order. |
| Insert.ColumnsMatchValues | src/CMSx/DB/Query/Insert.php:16-19 | The column and value lists have equal length. Position i pairs the quoted column i with its placeholder, or with its literal when inlining. Specifies `Insert.InsertText` and `Builder.BuildValues`. |
| Insert.RowWritten | src/CMSx/DB/Query/Insert.php:16-19 | Column i and value i of a row both occur in the INSERT text built for it. Specifies `Insert.InsertText`. |
| Insert.InsertPlaceholderBound | src/CMSx/DB/Query/Insert.php:16-19 | Each named column's `:insert_key` is written and bound to its value. |
| Insert.ColumnNames | src/CMSx/DB/Query/Insert.php:16 | The column names are the row's keys in order. |
| Drop.Drop.constructor | src/CMSx/DB/Query/Drop.php:10 | IF EXISTS is on by default. |
| Drop.Drop.Make | src/CMSx/DB/Query/Drop.php:12-19 | The text is DROP TABLE, IF EXISTS when on, and the table under its own prefix. It depends on nothing else. |
| Drop.Drop.SetIfExists | src/CMSx/DB/Query/Drop.php:22-27 | The flag is set. |
| Drop.DropBare | src/CMSx/DB/Query/Drop.php:14-16 | A plain table name is written as the backticked own prefix plus name. |
| Truncate.Truncate.Make | src/CMSx/DB/Query/Truncate.php:10-15 | The text is TRUNCATE TABLE with the table quoted under getPrefix(). |
| Truncate.TruncateBare | src/CMSx/DB/Query/Truncate.php:12 | A plain table name is backticked with the effective prefix. That is the manager's prefix when the statement has none of its own. |
| Create.Initial | src/CMSx/DB/Query/Create.php:11-20 | A new definition is empty, uses the MyISAM engine and has no primary key. |
| Create.SetEngine | src/CMSx/DB/Query/Create.php:182-190 | A non-MyISAM engine raises code 31 if and only if a fulltext index exists, leaving everything unchanged. Otherwise the engine is set and nothing else changes. |
| Create.AddFulltext | src/CMSx/DB/Query/Create.php:130-143 | Raises 31 if and only if the engine is not MyISAM, before storing anything. Otherwise the index is stored under `f_` plus the joined columns. |
| Create.AddForeign | src/CMSx/DB/Query/Create.php:164-177 | The key is stored under `fk_column`, with on_update defaulting to on_delete, and it stays stored even when the call then raises. The call raises 31 if and only if fulltext indexes exist. Otherwise the engine becomes InnoDB. The rest is unchanged. |
| Create.ComponentOf | src/CMSx/DB/Query/Create.php:73-80 | A missing component name gives the whole definition. An unknown name, or an unset primary key, gives null. `Create.Create.GetDefinition` returns this for the stored definition. |
| Create.EnumListsValues | src/CMSx/DB/Query/Create.php:273-279 | Every enum value is written as a literal. The type ends with a truthy tail, or with `NOT NULL` when the tail is false. Specifies `Create.EnumType`. |
| Create.AddIdAsWrittenKeysMissingColumn | src/CMSx/DB/Query/Create.php:199-204 | As written, addId('page_id') keys the table on `id`, a column that does not exist. |
| Create.WithId | src/CMSx/DB/Query/Create.php:199-204 | The corrected addId adds the column and keys the table on it. Other columns are unchanged. |
| Create.IdIsKeyed | src/CMSx/DB/Query/Create.php:199-204 | After the corrected addId, the statement writes the id column and a PRIMARY KEY on it. |
| Create.BuildParts | src/CMSx/DB/Query/Create.php:24-50 | The loops build the parts in order: columns, INDEX, UNIQUE INDEX, FULLTEXT, PRIMARY KEY, FOREIGN KEY. |
| Create.AppendColumnParts | src/CMSx/DB/Query/Create.php:25-27 | One part is made per column. |
| Create.AppendIndexParts | src/CMSx/DB/Query/Create.php:29-39 | One part is made per index. |
| Create.AppendForeignParts | src/CMSx/DB/Query/Create.php:45-50 | One part is made per foreign key. |
| Create.Create.Make | src/CMSx/DB/Query/Create.php:22-56 | The parts are joined by `,\n  ` and closed by the engine. |
| Create.Create.Add | src/CMSx/DB/Query/Create.php:83-88 | A column definition is overwritten in place. |
| Create.Create.AddPrimaryKey | src/CMSx/DB/Query/Create.php:91-101 | The primary key is set. |
| Create.Create.AddIndex | src/CMSx/DB/Query/Create.php:104-114 | The index is stored under `i_` plus the joined columns, so re-adding the same columns replaces it. |
| Create.Create.AddUniqueIndex | src/CMSx/DB/Query/Create.php:117-127 | The index is stored under `u_` plus the joined columns. |
| Create.Create.AddFulltextIndex | src/CMSx/DB/Query/Create.php:130-143 | This is AddFulltext on the object. It keeps the fulltext-needs-MyISAM invariant. |
| Create.Create.AddForeignKey | src/CMSx/DB/Query/Create.php:164-177 | This is AddForeign on the object. It keeps the invariant. |
| Create.Create.SetType | src/CMSx/DB/Query/Create.php:182-190 | This is SetEngine on the object. It keeps the invariant. |
| Create.Create.AddId | src/CMSx/DB/Query/Create.php:199-204 | The corrected addId is applied. |
| Create.Create.AddForeignId | src/CMSx/DB/Query/Create.php:207-210 | Defines the column (default `parent_id`) with the foreign id type. |
| Create.Create.AddPrice | src/CMSx/DB/Query/Create.php:213-216 | Defines the column (default `price`) as FLOAT(10,2), UNSIGNED when asked. |
| Create.Create.AddText | src/CMSx/DB/Query/Create.php:219-222 | Defines the column (default `text`) as TEXT or LONGTEXT. |
| Create.Create.AddBool | src/CMSx/DB/Query/Create.php:225-228 | Defines the column as BOOL with the given default written out. |
| Create.Create.AddTime | src/CMSx/DB/Query/Create.php:231-234 | Defines the column as TIMESTAMP (unix) or DATETIME, with DEFAULT 0. |
| Create.Create.AddTimeCreated | src/CMSx/DB/Query/Create.php:237-240 | Defines the creation time column (default `created_at`). |
| Create.Create.AddTimeUpdated | src/CMSx/DB/Query/Create.php:243-246 | Defines the update time column (default `updated_at`). |
| Create.Create.AddChar | src/CMSx/DB/Query/Create.php:249-252 | Defines a VARCHAR column of the given length. |
| Create.FalsyLengthIs250 | src/CMSx/DB/Query/Create.php:249-252 | A falsy length gives the same type as length 250. Specifies `Create.CharType`. |
| Create.Create.AddInt | src/CMSx/DB/Query/Create.php:255-258 | Defines an INT column. |
| Create.Create.AddTinyInt | src/CMSx/DB/Query/Create.php:261-264 | Defines a TINYINT column. |
| Create.Create.AddBigInt | src/CMSx/DB/Query/Create.php:267-270 | Defines a BIGINT column. |
| Create.Create.AddEnum | src/CMSx/DB/Query/Create.php:273-279 | Defines an ENUM column and records its values. |
| Create.PartWritten | src/CMSx/DB/Query/Create.php:52-53 | Every part is written into the statement. Specifies `Create.CreateText`. |
| Create.ColumnWritten | src/CMSx/DB/Query/Create.php:25-27 | Every defined column is written as its backticked name and definition. Specifies `Create.CreateText`. |
| Create.PrimaryKeyWritten | src/CMSx/DB/Query/Create.php:41-43 | A set primary key is written. Specifies `Create.CreateText`. |
| Create.ForeignKeyWritten | src/CMSx/DB/Query/Create.php:45-50 | Every foreign key's reference (with the prefix) and actions are written. Specifies `Create.CreateText`. |
| Create.EngineWritten | src/CMSx/DB/Query/Create.php:52-53 | The statement ends with `\n) ENGINE=` and the engine. Specifies `Create.CreateText`. |
| Create.FulltextTableIsMyIsam | src/CMSx/DB/Query/Create.php:130-134 | A table built by the class with a fulltext index always ends in `ENGINE=MyISAM`. |
| Create.FulltextBlocksInnoDb | tests/unit/build.php:293-314 | A fulltext index on a new table succeeds, and switching to InnoDB afterwards raises 31. |
| Alter.PlacementText | src/CMSx/DB/Query/Alter.php:31-41 | `true` gives ` FIRST`. A non-empty name gives ` AFTER ` and the quoted name. Anything else gives nothing. |
| Alter.StatementShape | src/CMSx/DB/Query/Alter.php:15-21 | The statement is ALTER TABLE, the table under its own prefix, then the action, with ` ` and the definition when one is given. Specifies `Alter.Statement`. |
| Alter.IndexColumnsWritten | src/CMSx/DB/Query/Alter.php:44-80 | The index clause writes its backticked tag-plus-columns name and every quoted column. |
| Alter.PlacementWritten | src/CMSx/DB/Query/Alter.php:120-130 | A placed column ends with ` AFTER` and the backticked name, or with ` FIRST`. |
| Alter.RenameKeepsPrefix | src/CMSx/DB/Query/Alter.php:133-136 | rename quotes the own prefix plus the new name. |
| Alter.Alter.constructor | src/CMSx/DB/Query/Alter.php:10-13 | There is no text before the first change. |
| Alter.Alter.Make | src/CMSx/DB/Query/Alter.php:10-13 | make returns the last statement built. |
| Alter.Alter.Build | src/CMSx/DB/Query/Alter.php:15-21 | Each call overwrites the previous statement. |
| Alter.Alter.AddColumn | src/CMSx/DB/Query/Alter.php:31-41 | ADD COLUMN with the column clause. |
| Alter.Alter.AddIndex | src/CMSx/DB/Query/Alter.php:44-54 | ADD INDEX with the `i_` index clause. |
| Alter.Alter.AddUniqueIndex | src/CMSx/DB/Query/Alter.php:57-67 | ADD UNIQUE with the `u_` index clause. |
| Alter.Alter.AddFulltextIndex | src/CMSx/DB/Query/Alter.php:70-80 | ADD FULLTEXT with the `f_` index clause. |
| Alter.Alter.AddPrimaryKey | src/CMSx/DB/Query/Alter.php:83-93 | ADD PRIMARY KEY with only the column list. |
| Alter.Alter.DropColumn | src/CMSx/DB/Query/Alter.php:97-100 | DROP COLUMN with the quoted name. |
| Alter.Alter.DropPrimaryKey | src/CMSx/DB/Query/Alter.php:102-105 | DROP PRIMARY KEY with no definition. |
| Alter.Alter.DropIndex | src/CMSx/DB/Query/Alter.php:107-110 | DROP INDEX through QuoteKey. |
| Alter.Alter.ModifyColumn | src/CMSx/DB/Query/Alter.php:120-130 | MODIFY COLUMN with the column clause. |
| Alter.Alter.Rename | src/CMSx/DB/Query/Alter.php:133-136 | RENAME TO the quoted, prefixed new name. |
| Alter.Alter.SetOrderBy | src/CMSx/DB/Query/Alter.php:139-142 | ORDER BY through QuoteKey, so `title DESC` is kept verbatim. |

## Left out

- Statement execution and fetching are driver I/O and are not part of this model:
  - `Query::execute` and `__invoke` (src/CMSx/DB/Query.php:52-80);
  - the `execute` overrides of Update, Delete and Insert;
  - Select's fetch methods (src/CMSx/DB/Query/Select.php:32-131).
- Of src/CMSx/DB.php only the constants are modelled (error codes, engines, foreign-key actions). The connection handling, query log, `Execute`, `GetMessage` and the exception class are left out. A thrown `DB` exception is the `Db.Outcome` value `Raised(code)`.
- src/CMSx/DB/Connection.php, src/CMSx/DB/Item.php and src/CMSx/DB/Schema.php are not part of this model. They are I/O orchestration over PDO and over classes that are not shown.
- `__toString` (src/CMSx/DB/Query.php:47-50) is `make(true)`, which is the `Make(true)` of each class. It has no member of its own.
- `getValues` (src/CMSx/DB/Query.php:104-107) is a plain getter of the `values` field.
- Builder::BuildBinding and Builder::CleanKeyName are called but not defined in src/CMSx/DB/Builder.php. They are modelled as tests/unit/build.php:41, 55, 63 and 76 show them: `':' + part + '_' + key`, and `.` replaced by `_`.
- `QuoteKeyValue` always backticks the key, and placeholders carry the raw key (src/CMSx/DB/Builder.php:112, 145, 197). The model follows this code. The dotted-key expectations of tests/unit/build.php:74-77 and 236-238 do not follow from it and are not proved.
- PHP's `is_numeric` is approximated by the PHP 8 decimal grammar: white space, sign, digits with an optional fraction, an exponent. Hexadecimal and other runtime corner cases are not modelled.
- `magic_quotes_gpc` (src/CMSx/DB/Builder.php:189) is taken as off.
- Keys are taken as canonical: a decimal-integer string key is written as an integer key. Create's name-keyed tables and Select's join table (`Select.Select.Join` keys by `Name(table)`) use string keys throughout. PHP would turn a join on a table named `123` into the integer key 123. Nothing visible depends on it, since `BuildJoin` reads only the values and nothing pushes into the join table.
- Builder.BuildReferenceAction: the switch compares against `SQL::FOREIGN_CASCADE` and `SQL::FOREIGN_SET_NULL` (src/CMSx/DB/Builder.php:155, 158). In `namespace CMSx\DB` with no `use` line, that name resolves to the class `CMSx\DB\SQL`, which is not part of this model's sources. The model reads the constants as `DB::FOREIGN_CASCADE` = 2 and `DB::FOREIGN_SET_NULL` = 3 (src/CMSx/DB.php:46-48), as tests/unit/build.php:272-288 expects (`ON DELETE CASCADE`). The `Error` PHP raises at the first `case` label when that class is missing is not modelled.
- PHP type coercions are modelled as explicit values:
  - `limit`, `offset`, `page` and `onpage` are `Option<int>` or `int`; string-to-number conversion is not modelled;
  - a `null` `$on_update` is the value 0;
  - `default` and `length` are scalars.
- Fluent `return $this` is not modelled. Each method changes the object and returns nothing (or the error outcome).
- The "array or argument list" forms of `columns`, `orderby`, `groupby`, `having` and the index methods take a sequence.
- `addIndex(null)`, `addUniqueIndex(null)` and `addPrimaryKey` with a string argument are not modelled. They take a sequence of column names (a primary key may be `None`).
- An element of an IN list that is itself an array is bound as NULL (`Conditions.InVals`).
- The general equivalence of `make(true)` with "placeholders replaced by their values" is not claimed. `ReplaceBindedValues` is a plain text replacement loop: a bind key that is a prefix of another corrupts the result, and the code makes no such promise.
- Conditions.BindingTable / Query.Query.GetBindedValues: with no binds and no values, `$binded_values` is still null at src/CMSx/DB/Query.php:127. PHP 7 counts null as 0 and returns `false`, which is what tests/unit/build.php:68-71 expects, and the model returns `None` for `false`. Under PHP 8 `count(null)` raises TypeError there instead, and the model does not model that error.
- Update.Update.SetExpression: the expression is stored under an integer key of the `set` table, so `getBindedValues` also lists it under `:set_n`, although the text has no such placeholder. The model keeps this and does not prove a statement about it.
- Create.EnumType: `$null ?: ' NOT NULL'` appends the `$null` value itself when it is truthy. The model writes this as the code does, since the intended text is unclear.
- Conditions.WhereInBound, Conditions.BetweenBound: these require that no named condition already uses the generated key (`col_1`, `col_from`, …). If one does, processWhere's final copy into the where table overwrites the generated value with the condition's value, as the code does.
- Delete.Delete.Where: states the corrected reading (reset, then normalise the conditions `Delete.WhereItems` picks out). The code as written is `Delete.WhereAsWritten`; see Findings.
- Delete.WhereAsWritten: takes scalar arguments only. An array first argument would be stored as a nested array, which the where table of scalars cannot hold; the call raises just the same.
- Select.Select.Page: PHP computes `($page - 1) * $onpage` in 64-bit integers and turns an overflowing product into a float. The model's integers are unbounded, so it does not model that overflow.
- Create.Create.AddId: states the corrected reading. The code as written is `Create.AddIdAsWritten`; see Findings.

## Findings

| source | as written | input that shows it | evidently intended | confidence | as-written member | corrected member |
|---|---|---|---|---|---|---|
| src/CMSx/DB/Query/Delete.php:59 | `where()` stores its arguments as the condition list and calls `processWhere()` with no argument, although the signature at src/CMSx/DB/Query.php:177 requires one. | `where(12, '`created_at` > now()')` raises ArgumentCountError under PHP 8. Before PHP 7.1 it returns, but the empty iteration normalises nothing and the text is ` WHERE `created_at` > now()`: the bare `12` is dropped (`Delete.WhereAsWrittenDropsId`). | The arguments are normalised as in the other statements. The test at tests/unit/build.php:207-217 expects `` `id`=:where_id AND `created_at` > now()``. | not executed | Delete.WhereAsWrittenRaises | Delete.WhereNormalizedKeepsId |
| src/CMSx/DB/Query/Create.php:203 | `addId($col)` adds the column `$col` but sets the primary key to the literal `['id']`. | `addId('page_id')` on a new table: the primary key is on `id`, a column the table does not have. | The primary key is on the column just added. | not executed | Create.AddIdAsWrittenKeysMissingColumn | Create.IdIsKeyed |
