/** Dialect tags of the SQL layer, the per-dialect delimiter tables, name and
    string escaping, and the classification of a new session's type. */
module Dialect {
  import opened Wrappers
  import opened Text

  /** The bitmask tags (0b10, 0b10000, 0b10 | 0b100, 0b10 | 0b1000). */
  const MYSQL: int := 2
  const MSSQL: int := 16
  const MARIA: int := 6
  const PERCONA: int := 10

  /** The cleaning function of the string library every escaped token goes
      through; its behaviour is not part of this model. */
  type Cleaner = string -> string

  /** JavaScript's ToInt32 on an integer, as the bits of the 32-bit result. */
  function Int32Bits(x: int): bv32
  {
    if 0 <= x < 0x1_0000_0000 then x as bv32 else (x % 0x1_0000_0000) as bv32
  }

  function FromInt32Bits(b: bv32): int
  {
    if b < 0x8000_0000 then b as int else b as int - 0x1_0000_0000
  }

  /** JavaScript's `a & b` and `a | b` on integers. */
  function BitAnd(a: int, b: int): int
  {
    FromInt32Bits(Int32Bits(a) & Int32Bits(b))
  }

  function BitOr(a: int, b: int): int
  {
    FromInt32Bits(Int32Bits(a) | Int32Bits(b))
  }

  /** The MariaDB and Percona tags are the MySQL tag with one more bit. */
  lemma VariantTags()
    ensures MARIA == BitOr(MYSQL, 4) && PERCONA == BitOr(MYSQL, 8)
    ensures BitOr(MYSQL, MARIA) == MARIA
  {
  }

  /** Because the MariaDB tag contains the MySQL bit, `t & MARIA` is non-zero
      whenever `t & MYSQL` is. */
  lemma MariaMaskCoversMySqlBit(t: int)
    requires BitAnd(t, MYSQL) != 0
    ensures BitAnd(t, MARIA) != 0
  {
    var x := Int32Bits(t);
    assert Int32Bits(2) == 2 && Int32Bits(6) == 6;
    assert x & 2 != 0;
    assert x & 6 != 0 by {
      assert (x & 2) & 6 == x & 2;
      assert (x & 6) & 2 == (x & 2) & 6;
    }
  }

  /** The MySQL and MariaDB tags carry the MySQL bit; MSSQL does not. */
  lemma MySqlBitOfTags()
    ensures BitAnd(MYSQL, MYSQL) != 0 && BitAnd(MARIA, MYSQL) != 0 && BitAnd(MSSQL, MYSQL) == 0
  {
  }

  /** The variable-determinator table: opening and closing identifier
      delimiters, defined for the MySQL, MariaDB and MSSQL tags only. */
  function NameDelimiters(t: int): (d: Option<(char, char)>)
  {
    if t == MYSQL || t == MARIA then Some(('`', '`'))
    else if t == MSSQL then Some(('[', ']'))
    else None
  }

  /** The string-determinator table: the quote character, defined for the
      MySQL, MariaDB and MSSQL tags only.  It covers the same tags as the
      name-delimiter table and differs from both name delimiters, so a quoted
      string never reads as an escaped name. */
  function Quote(t: int): (q: Option<char>)
    ensures q.Some? <==> NameDelimiters(t).Some?
    ensures q.Some? ==> q.value != NameDelimiters(t).value.0 && q.value != NameDelimiters(t).value.1
    ensures q.Some? ==> q.value == '\''
  {
    if t == MYSQL || t == MARIA || t == MSSQL then Some('\'') else None
  }

  /** Name escaping once the delimiters are known.  The end test compares
      `substring(-1)`, which is the whole token, with the closing delimiter. */
  function EscapeName(d: (char, char), clean: Cleaner, v: string): string
  {
    var (s, e) := d;
    if v != "*" && JsSubstring(v, 0, 1) != [s] && JsSubstringFrom(v, -1) != [e]
    then [s] + clean(v) + [e]
    else v
  }

  /** `standardizeName`: None when the session type has no delimiter entry
      (the lookup throws a TypeError). */
  function StandardizeName(t: int, clean: Cleaner, v: string): (r: Option<string>)
    ensures r.None? <==> NameDelimiters(t).None?
  {
    match NameDelimiters(t)
    case None => None
    case Some(d) => Some(EscapeName(d, clean, v))
  }

  /** A token is returned unchanged exactly when it is `*`, starts with the
      opening delimiter or is the closing delimiter alone. */
  lemma EscapeNameKeeps(d: (char, char), clean: Cleaner, v: string)
    ensures EscapeName(d, clean, v) == v <==> v == "*" || (v != [] && v[0] == d.0) || v == [d.1]
  {
    SubstringFromMinusOne(v);
    SubstringFirst(v);
    var r := EscapeName(d, clean, v);
    if !(v == "*" || (v != [] && v[0] == d.0) || v == [d.1]) {
      assert r == [d.0] + clean(v) + [d.1];
      assert r[0] == d.0;
      assert r != v;
    }
  }

  /** Otherwise it is the cleaned token between the delimiters. */
  lemma EscapeNameWraps(d: (char, char), clean: Cleaner, v: string)
    requires !(v == "*" || (v != [] && v[0] == d.0) || v == [d.1])
    ensures EscapeName(d, clean, v) == [d.0] + clean(v) + [d.1]
  {
    SubstringFromMinusOne(v);
    SubstringFirst(v);
  }

  /** Escaping a name twice is the same as escaping it once. */
  lemma EscapeNameIdempotent(d: (char, char), clean: Cleaner, v: string)
    ensures EscapeName(d, clean, EscapeName(d, clean, v)) == EscapeName(d, clean, v)
  {
    var r := EscapeName(d, clean, v);
    EscapeNameKeeps(d, clean, v);
    if r != v {
      EscapeNameWraps(d, clean, v);
      EscapeNameKeeps(d, clean, r);
    }
  }

  lemma StandardizeNameIdempotent(t: int, clean: Cleaner, v: string)
    requires NameDelimiters(t).Some?
    ensures StandardizeName(t, clean, StandardizeName(t, clean, v).value) == StandardizeName(t, clean, v)
  {
    EscapeNameIdempotent(NameDelimiters(t).value, clean, v);
  }

  /** Because of `substring(-1)`, an MSSQL token that merely ends in `]` is
      still wrapped. */
  lemma MssqlEndCheckIsWholeToken(clean: Cleaner)
    ensures StandardizeName(MSSQL, clean, "a]") == Some("[" + clean("a]") + "]")
    ensures StandardizeName(MSSQL, clean, "]") == Some("]")
  {
    EscapeNameWraps(('[', ']'), clean, "a]");
    EscapeNameKeeps(('[', ']'), clean, "]");
  }

  /** `standardizeString`: the token is cleaned first; a type without a quote
      entry concatenates JavaScript's `undefined` on both sides, because a
      string never compares equal to `undefined`. */
  function StandardizeString(t: int, clean: Cleaner, v: string): string
  {
    var c := clean(v);
    match Quote(t)
    case Some(q) =>
      if JsSubstring(c, 0, 1) != [q] && JsSubstringFrom(c, -1) != [q] then [q] + c + [q] else c
    case None => "undefined" + c + "undefined"
  }

  /** With a quote character the cleaned token is kept exactly when it starts
      with the quote or is the quote alone, and quoted otherwise. */
  lemma StandardizeStringQuotes(t: int, clean: Cleaner, v: string)
    requires t in {MYSQL, MARIA, MSSQL}
    ensures var c := clean(v);
      StandardizeString(t, clean, v) ==
        if (c != [] && c[0] == '\'') || c == "'" then c else "'" + c + "'"
  {
    SubstringFromMinusOne(clean(v));
    SubstringFirst(clean(v));
  }

  /** When cleaning leaves an escaped string alone, escaping it again changes
      nothing. */
  lemma StandardizeStringFixedPoint(t: int, clean: Cleaner, v: string)
    requires t in {MYSQL, MARIA, MSSQL}
    requires clean(StandardizeString(t, clean, v)) == StandardizeString(t, clean, v)
    ensures StandardizeString(t, clean, StandardizeString(t, clean, v)) == StandardizeString(t, clean, v)
  {
    var r := StandardizeString(t, clean, v);
    StandardizeStringQuotes(t, clean, v);
    StandardizeStringQuotes(t, clean, r);
    if r != clean(v) {
      assert r[0] == '\'';
    }
  }

  /** The type a new session settles on, from its config type and the
      `VERSION()` text the probe returned (None when it returned none). */
  function ClassifyType(configType: int, version: Option<string>): (t: int)
  {
    if configType == MYSQL then
      if version.Some? && IndexOf(version.value, "MariaDB") > 0 then BitOr(MYSQL, MARIA) else MYSQL
    else configType
  }

  /** A MySQL config gives a MariaDB session exactly when "MariaDB" occurs in
      the version text and the text does not start with it; otherwise MySQL. */
  lemma ClassifyMySql(version: Option<string>)
    ensures ClassifyType(MYSQL, version) ==
      if version.Some? && Contains(version.value, "MariaDB") && !StartsWith(version.value, "MariaDB")
      then MARIA else MYSQL
  {
    VariantTags();
    if version.Some? {
      IndexOfPositive(version.value, "MariaDB");
    }
  }

  /** Any other config type becomes the session type as it is. */
  lemma ClassifyOther(configType: int, version: Option<string>)
    requires configType != MYSQL
    ensures ClassifyType(configType, version) == configType
  {
  }

  /** Every session type that can be produced has a delimiter entry exactly
      when its config type is MySQL, MariaDB or MSSQL. */
  lemma ClassifiedDelimiters(configType: int, version: Option<string>)
    ensures NameDelimiters(ClassifyType(configType, version)).Some? <==> configType in {MYSQL, MARIA, MSSQL}
  {
    ClassifyMySql(version);
  }
}
