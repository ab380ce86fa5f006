/** The statement texts the session renders itself: `CREATE TABLE` from a
    field set, and the information-schema lookup of the table check. */
module Statements {
  import opened Wrappers
  import opened Text
  import opened Dialect

  /** One entry of a `createTable` field set.  `nullable` and
      `autoIncrement` are the truthiness of the `null` and `autoincrement`
      properties; the optional parts are None when the property is undefined. */
  datatype FieldSpec = FieldSpec(
    name: string,
    sqlType: string,
    nullable: bool,
    defaultValue: Option<string>,
    autoIncrement: bool,
    keyConstraint: Option<string>,
    comment: Option<string>)

  const DEFAULT_CHARSET: string := "utf8mb4"
  const DEFAULT_COLLATE: string := "utf8mb4_unicode_ci"

  /** The column clause of one field: the escaped name, the type, the
      nullability, then the optional default, auto-increment, key and
      comment parts in this order. */
  function FieldClause(t: int, d: (char, char), clean: Cleaner, f: FieldSpec): string
  {
    ColumnHead(d, clean, f) + DefaultPart(f) + AutoIncrementPart(f) + KeyPart(f) + CommentPart(t, clean, f)
  }

  function ColumnHead(d: (char, char), clean: Cleaner, f: FieldSpec): string
  {
    EscapeName(d, clean, f.name) + " " + f.sqlType + (if f.nullable then " " else " NOT") + " NULL"
  }

  function DefaultPart(f: FieldSpec): string
  {
    if f.defaultValue.Some? then " DEFAULT " + f.defaultValue.value else ""
  }

  function AutoIncrementPart(f: FieldSpec): string
  {
    if f.autoIncrement then " AUTO_INCREMENT" else ""
  }

  function KeyPart(f: FieldSpec): string
  {
    if f.keyConstraint.Some? then " " + f.keyConstraint.value else ""
  }

  function CommentPart(t: int, clean: Cleaner, f: FieldSpec): string
  {
    if f.comment.Some? then " COMMENT " + StandardizeString(t, clean, f.comment.value) else ""
  }

  function Clauses(t: int, d: (char, char), clean: Cleaner, fields: seq<FieldSpec>): (cs: seq<string>)
    ensures |cs| == |fields|
    ensures forall i :: 0 <= i < |fields| ==> cs[i] == FieldClause(t, d, clean, fields[i])
  {
    seq(|fields|, i requires 0 <= i < |fields| => FieldClause(t, d, clean, fields[i]))
  }

  /** The table options: the engine and character set for a type with the
      MySQL bit, nothing otherwise. */
  function TableSuffix(t: int, charset: Option<string>, collate: Option<string>): string
  {
    if BitAnd(t, MYSQL) != 0 then
      (if BitAnd(t, MARIA) != 0 then " ENGINE=ARIA" else " ENGINE=InnoDB") + CharsetPart(charset, collate)
    else ""
  }

  function CharsetPart(charset: Option<string>, collate: Option<string>): string
  {
    " DEFAULT CHARSET=" + charset.GetOr(DEFAULT_CHARSET) + " COLLATE=" + collate.GetOr(DEFAULT_COLLATE)
  }

  /** Every type with the MySQL bit gets the Aria engine: the InnoDB branch
      cannot be reached. */
  lemma SuffixAlwaysAria(t: int, charset: Option<string>, collate: Option<string>)
    requires BitAnd(t, MYSQL) != 0
    ensures TableSuffix(t, charset, collate) == " ENGINE=ARIA" + CharsetPart(charset, collate)
  {
    MariaMaskCoversMySqlBit(t);
  }

  /** The suffix per session type: MySQL and MariaDB get Aria with utf8mb4
      and utf8mb4_unicode_ci when no character set or collation is given;
      MSSQL gets none. */
  lemma SuffixByDialect(charset: Option<string>, collate: Option<string>)
    ensures CharsetPart(None, None) == " DEFAULT CHARSET=" + "utf8mb4" + " COLLATE=" + "utf8mb4_unicode_ci"
    ensures TableSuffix(MYSQL, charset, collate) == " ENGINE=ARIA" + CharsetPart(charset, collate)
    ensures TableSuffix(MARIA, charset, collate) == " ENGINE=ARIA" + CharsetPart(charset, collate)
    ensures TableSuffix(MSSQL, charset, collate) == ""
  {
    MySqlBitOfTags();
    SuffixAlwaysAria(MYSQL, charset, collate);
    SuffixAlwaysAria(MARIA, charset, collate);
  }

  function CreateTableHead(d: (char, char), clean: Cleaner, name: string): string
  {
    "CREATE TABLE " + EscapeName(d, clean, name) + "("
  }

  /** The text `createTable` sends; None when the session type has no
      delimiter entry (escaping the table name throws). */
  function CreateTableText(t: int, clean: Cleaner, name: string, charset: Option<string>,
                           collate: Option<string>, fields: seq<FieldSpec>): Option<string>
  {
    match NameDelimiters(t)
    case None => None
    case Some(d) =>
      Some(CreateTableHead(d, clean, name) + Join(Clauses(t, d, clean, fields), ',')
           + ")" + TableSuffix(t, charset, collate) + ";")
  }

  lemma JoinSnoc(xs: seq<string>, x: string, sep: char)
    ensures Join(xs + [x], sep) == if xs == [] then x else Join(xs, sep) + [sep] + x
  {
    if |xs| > 1 {
      assert (xs + [x])[1..] == xs[1..] + [x];
      JoinSnoc(xs[1..], x, sep);
    } else if |xs| == 1 {
      assert (xs + [x])[1..] == [x];
    }
  }

  lemma TakeOneMore<T>(s: seq<T>, i: nat)
    requires i < |s|
    ensures s[..i + 1] == s[..i] + [s[i]]
  {
  }

  lemma TakeAll<T>(s: seq<T>)
    ensures s[..|s|] == s
  {
  }

  lemma Pieces<T>(a: seq<T>, b: seq<T>, c: seq<T>)
    ensures var s := a + b + c;
      s[..|a|] == a && s[|s| - |c|..] == c && s[|a|..|s| - |c|] == b
  {
  }

  lemma Associate(a: string, b: string, c: string)
    ensures a + (b + c) == a + b + c
  {
  }

  /** One iteration's appends of the `createTable` loop (each `+=` adds the
      whole right-hand side). */
  method AppendFieldClause(t: int, d: (char, char), clean: Cleaner, query: string, f: FieldSpec) returns (q: string)
    ensures q == query + FieldClause(t, d, clean, f)
  {
    q := query + (EscapeName(d, clean, f.name) + " " + f.sqlType + (if f.nullable then " " else " NOT") + " NULL");
    ghost var q1 := q;
    if f.defaultValue.Some? {
      q := q + (" DEFAULT " + f.defaultValue.value);
    }
    assert q == q1 + DefaultPart(f);
    ghost var q2 := q;
    if f.autoIncrement {
      q := q + " AUTO_INCREMENT";
    }
    assert q == q2 + AutoIncrementPart(f);
    ghost var q3 := q;
    if f.keyConstraint.Some? {
      q := q + (" " + f.keyConstraint.value);
    }
    assert q == q3 + KeyPart(f);
    ghost var q4 := q;
    if f.comment.Some? {
      q := q + (" COMMENT " + StandardizeString(t, clean, f.comment.value));
    }
    assert q == q4 + CommentPart(t, clean, f);
    ghost var head, def, auto, key := ColumnHead(d, clean, f), DefaultPart(f), AutoIncrementPart(f), KeyPart(f);
    Associate(query, head, def);
    Associate(query, head + def, auto);
    Associate(query, head + def + auto, key);
    Associate(query, head + def + auto + key, CommentPart(t, clean, f));
  }

  /** One more clause extends the joined list by a comma (after the first)
      and the clause. */
  lemma JoinStep(cs: seq<string>, i: nat)
    requires i < |cs|
    ensures Join(cs[..i + 1], ',') == Join(cs[..i], ',') + (if 0 < i then "," else "") + cs[i]
  {
    TakeOneMore(cs, i);
    JoinSnoc(cs[..i], cs[i], ',');
    if i == 0 {
      assert cs[..i] == [];
    }
  }

  lemma Regroup(a: string, b: string, c: string, d: string)
    ensures a + b + c + d == a + (b + c + d)
  {
  }

  /** The `createTable` loop: the clauses are appended one field at a time
      with a comma after every clause but the last. */
  method AppendFieldList(t: int, d: (char, char), clean: Cleaner, query: string, fields: seq<FieldSpec>)
    returns (q: string)
    ensures q == query + Join(Clauses(t, d, clean, fields), ',')
  {
    q := query;
    ghost var clauses := Clauses(t, d, clean, fields);
    var i := 0;
    var l := |fields|;
    while i < l
      invariant 0 <= i <= l
      invariant q == query + Join(clauses[..i], ',') + (if 0 < i < l then "," else "")
    {
      ghost var joined := Join(clauses[..i], ',');
      ghost var sep := if 0 < i then "," else "";
      assert q == query + joined + sep;
      q := AppendFieldClause(t, d, clean, q, fields[i]);
      JoinStep(clauses, i);
      Regroup(query, joined, sep, clauses[i]);
      assert q == query + Join(clauses[..i + 1], ',');
      i := i + 1;
      if i < l {
        q := q + ",";
      }
    }
    TakeAll(clauses);
  }

  /** The engine and character-set options appended after the field list. */
  method AppendTableOptions(t: int, query: string, charset: Option<string>, collate: Option<string>)
    returns (q: string)
    ensures q == query + TableSuffix(t, charset, collate)
  {
    var cs := if charset.Some? then charset.value else DEFAULT_CHARSET;
    var col := if collate.Some? then collate.value else DEFAULT_COLLATE;
    q := query;
    if BitAnd(t, MYSQL) != 0 {
      var engine := if BitAnd(t, MARIA) != 0 then " ENGINE=ARIA" else " ENGINE=InnoDB";
      q := q + engine;
      q := q + (" DEFAULT CHARSET=" + cs + " COLLATE=" + col);
      assert q == query + engine + CharsetPart(charset, collate);
      Associate(query, engine, CharsetPart(charset, collate));
    }
  }

  /** `createTable`'s statement text. */
  method RenderCreateTable(t: int, clean: Cleaner, name: string, charset: Option<string>,
                           collate: Option<string>, fields: seq<FieldSpec>) returns (r: Option<string>)
    ensures r == CreateTableText(t, clean, name, charset, collate, fields)
  {
    var delims := NameDelimiters(t);
    if delims.None? {
      return None;
    }
    var d := delims.value;
    var query := "CREATE TABLE " + EscapeName(d, clean, name) + "(";
    query := AppendFieldList(t, d, clean, query, fields);
    query := query + ")";
    query := AppendTableOptions(t, query, charset, collate);
    query := query + ";";
    r := Some(query);
  }

  /** The field list between the parentheses splits back into one clause per
      field, as long as no clause itself contains a comma. */
  lemma CreateTableFieldList(t: int, clean: Cleaner, name: string, charset: Option<string>,
                             collate: Option<string>, fields: seq<FieldSpec>)
    requires NameDelimiters(t).Some?
    requires |fields| >= 1
    requires forall i :: 0 <= i < |fields| ==> ',' !in FieldClause(t, NameDelimiters(t).value, clean, fields[i])
    ensures var d := NameDelimiters(t).value;
      var text := CreateTableText(t, clean, name, charset, collate, fields).value;
      var head := CreateTableHead(d, clean, name);
      var tail := ")" + TableSuffix(t, charset, collate) + ";";
      && |head| + |tail| <= |text|
      && text[..|head|] == head
      && text[|text| - |tail|..] == tail
      && Split(text[|head|..|text| - |tail|], ',') == Clauses(t, d, clean, fields)
  {
    var d := NameDelimiters(t).value;
    var head := CreateTableHead(d, clean, name);
    var tail := ")" + TableSuffix(t, charset, collate) + ";";
    var body := Join(Clauses(t, d, clean, fields), ',');
    Associate(head + body, ")" + TableSuffix(t, charset, collate), ";");
    Associate(head + body, ")", TableSuffix(t, charset, collate));
    assert CreateTableText(t, clean, name, charset, collate, fields).value == head + body + tail;
    Pieces(head, body, tail);
    SplitJoin(Clauses(t, d, clean, fields), ',');
  }

  // ---- whitespace normalisation of the table check ----

  predicate IsControl(c: char)
  {
    c == '\r' || c == '\n' || c == '\t'
  }

  predicate IsBlank(c: char)
  {
    c == ' ' || IsControl(c)
  }

  predicate NoControls(s: string)
  {
    forall i :: 0 <= i < |s| ==> !IsControl(s[i])
  }

  predicate NoDoubleSpace(s: string)
  {
    forall i :: 0 <= i < |s| - 1 ==> !(s[i] == ' ' && s[i + 1] == ' ')
  }

  /** `replace(/[\r\n\t]/gi, ' ')`. */
  function ReplaceControls(s: string): (r: string)
    ensures |r| == |s|
    ensures forall i :: 0 <= i < |s| ==> r[i] == if IsControl(s[i]) then ' ' else s[i]
  {
    if s == [] then [] else [if IsControl(s[0]) then ' ' else s[0]] + ReplaceControls(s[1..])
  }

  function DropSpaces(s: string): (r: string)
    ensures |r| <= |s|
    ensures r == [] || r[0] != ' '
  {
    if s != [] && s[0] == ' ' then DropSpaces(s[1..]) else s
  }

  /** `replace(/ +/gim, ' ')`: every run of spaces becomes one space. */
  function SqueezeSpaces(s: string): string
    decreases |s|
  {
    if s == [] then []
    else if s[0] == ' ' then " " + SqueezeSpaces(DropSpaces(s[1..]))
    else [s[0]] + SqueezeSpaces(s[1..])
  }

  function Normalize(s: string): string
  {
    SqueezeSpaces(ReplaceControls(s))
  }

  /** The text with every blank removed: what normalisation must preserve. */
  function NonBlank(s: string): string
  {
    if s == [] then [] else (if IsBlank(s[0]) then [] else [s[0]]) + NonBlank(s[1..])
  }

  lemma SqueezeFirst(s: string)
    requires s != []
    ensures SqueezeSpaces(s) != [] && SqueezeSpaces(s)[0] == s[0]
  {
  }

  lemma {:induction false} SqueezeNoDoubleSpace(s: string)
    ensures NoDoubleSpace(SqueezeSpaces(s))
    decreases |s|
  {
    if s != [] {
      if s[0] == ' ' {
        var rest := DropSpaces(s[1..]);
        SqueezeNoDoubleSpace(rest);
        if rest != [] {
          SqueezeFirst(rest);
        }
      } else {
        SqueezeNoDoubleSpace(s[1..]);
      }
    }
  }

  lemma {:induction false} DropSpacesNonBlank(s: string)
    ensures NonBlank(DropSpaces(s)) == NonBlank(s)
    ensures forall c :: c in DropSpaces(s) ==> c in s
  {
    if s != [] && s[0] == ' ' {
      DropSpacesNonBlank(s[1..]);
    }
  }

  lemma {:induction false} SqueezeNonBlank(s: string)
    ensures NonBlank(SqueezeSpaces(s)) == NonBlank(s)
    ensures forall c :: c in SqueezeSpaces(s) ==> c == ' ' || c in s
    decreases |s|
  {
    if s != [] {
      if s[0] == ' ' {
        var rest := DropSpaces(s[1..]);
        SqueezeNonBlank(rest);
        DropSpacesNonBlank(s[1..]);
        assert (" " + SqueezeSpaces(rest))[1..] == SqueezeSpaces(rest);
      } else {
        SqueezeNonBlank(s[1..]);
        assert ([s[0]] + SqueezeSpaces(s[1..]))[1..] == SqueezeSpaces(s[1..]);
      }
    }
  }

  lemma {:induction false} ReplaceNonBlank(s: string)
    ensures NonBlank(ReplaceControls(s)) == NonBlank(s)
  {
    if s != [] {
      ReplaceNonBlank(s[1..]);
      var r := ReplaceControls(s);
      assert r[1..] == ReplaceControls(s[1..]);
    }
  }

  /** The normalised text has no CR, LF or TAB, no two spaces in a row, and
      the same non-blank characters in the same order as the raw text. */
  lemma NormalizeProperties(s: string)
    ensures NoControls(Normalize(s))
    ensures NoDoubleSpace(Normalize(s))
    ensures NonBlank(Normalize(s)) == NonBlank(s)
  {
    var r := ReplaceControls(s);
    SqueezeNoDoubleSpace(r);
    SqueezeNonBlank(r);
    ReplaceNonBlank(s);
    var n := Normalize(s);
    forall i | 0 <= i < |n| ensures !IsControl(n[i]) {
      assert n[i] in n;
      if n[i] != ' ' {
        assert n[i] in r;
      }
    }
  }

  lemma {:induction false} ReplaceIdentity(s: string)
    requires NoControls(s)
    ensures ReplaceControls(s) == s
  {
  }

  lemma {:induction false} SqueezeIdentity(s: string)
    requires NoDoubleSpace(s)
    ensures SqueezeSpaces(s) == s
    decreases |s|
  {
    if s != [] {
      assert NoDoubleSpace(s[1..]);
      SqueezeIdentity(s[1..]);
      if s[0] == ' ' {
        assert s[1..] == [] || s[1..][0] != ' ';
        assert DropSpaces(s[1..]) == s[1..];
      }
    }
  }

  /** Text that is already normal is sent as it is. */
  lemma NormalizeIdentity(s: string)
    requires NoControls(s) && NoDoubleSpace(s)
    ensures Normalize(s) == s
  {
    ReplaceIdentity(s);
    SqueezeIdentity(s);
  }

  /** Normalising twice is normalising once. */
  lemma NormalizeIdempotent(s: string)
    ensures Normalize(Normalize(s)) == Normalize(s)
  {
    NormalizeProperties(s);
    NormalizeIdentity(Normalize(s));
  }

  // ---- the table check ----

  /** What prevents a statement from being built: the delimiter lookup throws
      a TypeError; the undefined `SHPS_SQL_MARIADB` case label throws a
      ReferenceError. */
  datatype Thrown = TypeError | ReferenceError

  datatype TableCheck = CheckThrows(thrown: Thrown) | CheckText(text: string)

  /** The template literal of the table check before normalisation. */
  function TableCheckTemplate(d: (char, char), clean: Cleaner, tableText: string): string
  {
    "\n            SELECT COUNT(" + EscapeName(d, clean, "table_name") + ") AS " + EscapeName(d, clean, "c")
    + "\n            FROM " + EscapeName(d, clean, "information_schema") + "." + EscapeName(d, clean, "tables")
    + "\n            WHERE\n                " + EscapeName(d, clean, "table_name") + " = '" + tableText + "'"
  }

  /** The condition appended for a configuration type with a case: the
      catalogue for MSSQL, the schema for MySQL. */
  function TableCheckCondition(d: (char, char), clean: Cleaner, column: string, db: string): string
  {
    " AND " + EscapeName(d, clean, column) + "='" + db + "';"
  }

  /** The statement `_hasTable` sends, from the session type (which picks the
      delimiters), the configuration type (which picks the condition), the
      database name and the table's rendering. */
  function TableCheckQuery(dbType: int, configType: int, clean: Cleaner, db: string, tableText: string): TableCheck
  {
    match NameDelimiters(dbType)
    case None => CheckThrows(TypeError)
    case Some(d) =>
      if configType == MSSQL then
        CheckText(Normalize(TableCheckTemplate(d, clean, tableText) + TableCheckCondition(d, clean, "TABLE_CATALOG", db)))
      else if configType == MYSQL then
        CheckText(Normalize(TableCheckTemplate(d, clean, tableText) + TableCheckCondition(d, clean, "TABLE_SCHEMA", db)))
      else CheckThrows(ReferenceError)
  }

  /** Only MSSQL and MySQL configurations get a statement; every other
      configuration type throws before the `default` branch is reached. */
  lemma TableCheckCases(dbType: int, configType: int, clean: Cleaner, db: string, tableText: string)
    ensures var q := TableCheckQuery(dbType, configType, clean, db, tableText);
      && (q.CheckText? <==> NameDelimiters(dbType).Some? && configType in {MSSQL, MYSQL})
      && (q == CheckThrows(ReferenceError) <==> NameDelimiters(dbType).Some? && configType !in {MSSQL, MYSQL})
  {
  }

  /** For a session as the constructor classifies it, only a MariaDB (6)
      configuration reaches the undefined case label; a configuration type
      without delimiters (Percona 10, say) throws the TypeError first, and
      only MSSQL and MySQL configurations send a statement. */
  lemma TableCheckOutcomeByConfig(configType: int, version: Option<string>, clean: Cleaner, db: string, tableText: string)
    ensures var q := TableCheckQuery(ClassifyType(configType, version), configType, clean, db, tableText);
      && (q == CheckThrows(ReferenceError) <==> configType == MARIA)
      && (q == CheckThrows(TypeError) <==> configType !in {MYSQL, MARIA, MSSQL})
      && (q.CheckText? <==> configType in {MYSQL, MSSQL})
  {
    TableCheckCases(ClassifyType(configType, version), configType, clean, db, tableText);
    if configType == MYSQL {
      MySqlBitOfTags();
      ClassifyMySql(version);
    }
  }

  /** The statement sent has no CR, LF or TAB and no two spaces in a row, and
      up to blanks it is the template followed by the dialect's condition. */
  lemma TableCheckText(dbType: int, configType: int, clean: Cleaner, db: string, tableText: string)
    requires TableCheckQuery(dbType, configType, clean, db, tableText).CheckText?
    ensures var text := TableCheckQuery(dbType, configType, clean, db, tableText).text;
      var d := NameDelimiters(dbType).value;
      var column := if configType == MSSQL then "TABLE_CATALOG" else "TABLE_SCHEMA";
      && NoControls(text) && NoDoubleSpace(text)
      && NonBlank(text) == NonBlank(TableCheckTemplate(d, clean, tableText) + TableCheckCondition(d, clean, column, db))
  {
    var d := NameDelimiters(dbType).value;
    var column := if configType == MSSQL then "TABLE_CATALOG" else "TABLE_SCHEMA";
    NormalizeProperties(TableCheckTemplate(d, clean, tableText) + TableCheckCondition(d, clean, column, db));
  }
}
