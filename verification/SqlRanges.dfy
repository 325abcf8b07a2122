/** Which integers a column holds, and which a Go type does: when a printed column keeps every value of the field, and
    that a field made from a column can take every value in it. */
module SqlRanges {
  import opened Text
  import opened SqlDdl
  import opened SqlTypes
  import opened SqlColumns
  import opened SqlModifiers

  // ---------------------------------------------------------------- ranges

  /** The integers of a number of bits, in two's complement or without sign. */
  datatype Width = Width(bits: nat, signed: bool)

  predicate InWidth(n: int, w: Width) {
    if w.signed then w.bits > 0 && 0 - Pow2(w.bits - 1) <= n < Pow2(w.bits - 1) else 0 <= n < Pow2(w.bits)
  }

  /** Every integer of the one width is in the other. */
  ghost predicate Holds(outer: Width, inner: Width) {
    forall n :: InWidth(n, inner) ==> InWidth(n, outer)
  }

  lemma {:induction false} Pow2Grows(a: nat, b: nat)
    ensures a <= b <==> Pow2(a) <= Pow2(b)
  {
    if a > 0 && b > 0 {
      Pow2Grows(a - 1, b - 1);
    } else if a > 0 {
      Pow2Grows(a - 1, 0);
    } else if b > 0 {
      Pow2Grows(0, b - 1);
    }
  }

  /** A signed width holds narrower and equal signed ones and narrower unsigned ones; an unsigned width holds no signed
      one. */
  lemma {:induction false} HoldsExactly(outer: Width, inner: Width)
    requires outer.bits > 0 && inner.bits > 0
    ensures Holds(outer, inner) <==>
            if outer.signed == inner.signed then inner.bits <= outer.bits else outer.signed && inner.bits < outer.bits
  {
    var low := if inner.signed then 0 - Pow2(inner.bits - 1) else 0;
    var high := if inner.signed then Pow2(inner.bits - 1) - 1 else Pow2(inner.bits) - 1;
    Pow2Grows(0, inner.bits - 1);
    Pow2Grows(0, inner.bits);
    assert InWidth(low, inner) && InWidth(high, inner);
    Pow2Grows(inner.bits, outer.bits);
    Pow2Grows(inner.bits - 1, outer.bits - 1);
    Pow2Grows(inner.bits, outer.bits - 1);
  }

  /** The integer types of Go, on a machine of 64 bits. */
  function GoWidth(ty: GoType): Option<Width> {
    match ty
    case GoInt => Some(Width(64, true))
    case GoInt8 => Some(Width(8, true))
    case GoInt16 => Some(Width(16, true))
    case GoInt32 => Some(Width(32, true))
    case GoInt64 => Some(Width(64, true))
    case GoUint => Some(Width(64, false))
    case GoUint8 => Some(Width(8, false))
    case GoUint16 => Some(Width(16, false))
    case GoUint32 => Some(Width(32, false))
    case GoUint64 => Some(Width(64, false))
    case _ => None
  }

  /** The integer column types as the database systems document them, without and with an UNSIGNED modifier. */
  function ColumnWidth(d: Dialect, word: string, unsigned: bool): Option<Width> {
    if unsigned && !d.MySQL? then None
    else
      match ColumnBits(d, word)
      case None => None
      case Some(bits) => Some(Width(bits, !unsigned && !(d.SQLServer? && word == "TINYINT")))
  }

  function ColumnBits(d: Dialect, word: string): (bits: Option<nat>)
    ensures bits.Some? ==> bits.value > 0
  {
    match d
    case MySQL =>
      if word == "TINYINT" then Some(8)
      else if word == "SMALLINT" then Some(16)
      else if word == "MEDIUMINT" then Some(24)
      else if word == "INT" || word == "INTEGER" then Some(32)
      else if word == "BIGINT" then Some(64)
      else None
    case PostgreSQL =>
      if word == "SMALLINT" || word == "INT2" then Some(16)
      else if word == "INTEGER" || word == "INT" || word == "INT4" || word == "SERIAL" then Some(32)
      else if word == "BIGINT" || word == "INT8" || word == "BIGSERIAL" then Some(64)
      else None
    case SQLite => if word == "INTEGER" then Some(64) else None
    case SQLServer =>
      if word == "TINYINT" then Some(8)
      else if word == "SMALLINT" then Some(16)
      else if word == "INT" then Some(32)
      else if word == "BIGINT" then Some(64)
      else None
  }

  // ---------------------------------------------------------------- the mappings of the other two dialects

  function PostgresType(ty: GoType, size: int): string {
    match ty
    case GoString => if 0 < size <= 255 then Sized("VARCHAR", size) else "TEXT"
    case GoInt => "INTEGER"
    case GoInt32 => "INTEGER"
    case GoInt8 => "SMALLINT"
    case GoInt16 => "SMALLINT"
    case GoInt64 => "BIGINT"
    case GoUint => "INTEGER"
    case GoUint32 => "INTEGER"
    case GoUint8 => "SMALLINT"
    case GoUint16 => "SMALLINT"
    case GoUint64 => "BIGINT"
    case GoFloat32 => "REAL"
    case GoFloat64 => "DOUBLE PRECISION"
    case GoBool => "BOOLEAN"
    case GoTime => "TIMESTAMP"
    case GoTimePtr => "TIMESTAMP"
    case GoBytes => "BYTEA"
    case GoRawMessage => "TEXT"
    case GoOther => "TEXT"
  }

  function SqlServerType(ty: GoType, size: int): string {
    match ty
    case GoString => if 0 < size <= 4000 then Sized("NVARCHAR", size) else "NVARCHAR(MAX)"
    case GoInt => "INT"
    case GoInt32 => "INT"
    case GoInt8 => "TINYINT"
    case GoInt16 => "SMALLINT"
    case GoInt64 => "BIGINT"
    case GoUint => "INT"
    case GoUint32 => "INT"
    case GoUint8 => "TINYINT"
    case GoUint16 => "SMALLINT"
    case GoUint64 => "BIGINT"
    case GoFloat32 => "REAL"
    case GoFloat64 => "FLOAT"
    case GoBool => "BIT"
    case GoTime => "DATETIME2"
    case GoTimePtr => "DATETIME2"
    case GoBytes => "VARBINARY(MAX)"
    case GoRawMessage => "NVARCHAR(MAX)"
    case GoOther => "NVARCHAR(MAX)"
  }

  /** TypeMapping of every dialect. */
  function MappedType(d: Dialect, ty: GoType, size: int): string {
    match d
    case MySQL => MySqlType(ty, size)
    case PostgreSQL => PostgresType(ty, size)
    case SQLite => SqliteType(ty)
    case SQLServer => SqlServerType(ty, size)
  }

  // ---------------------------------------------------------------- printing

  /** The text of an integer column: a word that has a range, perhaps with the modifier. */
  predicate IsIntegerColumn(d: Dialect, text: string, word: string, unsigned: bool) {
    text == word + (if unsigned then " UNSIGNED" else "") && ColumnWidth(d, word, unsigned).Some?
  }

  /** The Go types whose column is too narrow for them, or of the other sign. */
  predicate IsTooWide(d: Dialect, ty: GoType) {
    match d
    case MySQL => ty == GoInt || ty == GoUint
    case PostgreSQL => ty in {GoInt, GoUint, GoUint16, GoUint32, GoUint64}
    case SQLite => ty == GoUint || ty == GoUint64
    case SQLServer => ty in {GoInt, GoInt8, GoUint, GoUint16, GoUint32, GoUint64}
  }

  /** What a dialect prints for an integer field is an integer column of this width. */
  ghost predicate IsPrinted(d: Dialect, ty: GoType, size: int, width: Width) {
    exists word, unsigned ::
      IsIntegerColumn(d, MappedType(d, ty, size), word, unsigned) && ColumnWidth(d, word, unsigned) == Some(width)
  }

  lemma {:induction false} PrintedIs(d: Dialect, ty: GoType, size: int, word: string, unsigned: bool, width: Width)
    requires IsIntegerColumn(d, MappedType(d, ty, size), word, unsigned)
    requires ColumnWidth(d, word, unsigned) == Some(width)
    ensures IsPrinted(d, ty, size, width)
  {
  }

  lemma {:induction false} MySqlPrinted(ty: GoType, size: int) returns (width: Width)
    requires GoWidth(ty).Some?
    ensures IsPrinted(MySQL, ty, size, width) && width.signed == GoWidth(ty).value.signed
    ensures width.bits == if ty == GoInt || ty == GoUint then 32 else GoWidth(ty).value.bits
  {
    width := if ty == GoInt then Width(32, true) else if ty == GoUint then Width(32, false) else GoWidth(ty).value;
    var word := match width.bits
      case 8 => "TINYINT"
      case 16 => "SMALLINT"
      case 32 => "INT"
      case _ => "BIGINT";
    PrintedIs(MySQL, ty, size, word, !width.signed, width);
  }

  lemma {:induction false} PostgresPrinted(ty: GoType, size: int) returns (width: Width)
    requires GoWidth(ty).Some?
    ensures IsPrinted(PostgreSQL, ty, size, width) && width.signed
    ensures width.bits == if ty == GoInt8 || ty == GoUint8 then 16
                          else if ty == GoInt || ty == GoUint then 32
                          else GoWidth(ty).value.bits
  {
    var bits := if ty == GoInt8 || ty == GoUint8 then 16
                else if ty == GoInt || ty == GoUint then 32
                else GoWidth(ty).value.bits;
    width := Width(bits, true);
    PrintedIs(PostgreSQL, ty, size, PostgresType(ty, size), false, width);
  }

  lemma {:induction false} SqlitePrinted(ty: GoType, size: int)
    requires GoWidth(ty).Some?
    ensures IsPrinted(SQLite, ty, size, Width(64, true))
  {
    PrintedIs(SQLite, ty, size, "INTEGER", false, Width(64, true));
  }

  lemma {:induction false} SqlServerPrinted(ty: GoType, size: int) returns (width: Width)
    requires GoWidth(ty).Some?
    ensures IsPrinted(SQLServer, ty, size, width) && (width.signed <==> width.bits != 8)
    ensures width.bits == if ty == GoInt || ty == GoUint then 32 else GoWidth(ty).value.bits
  {
    var bits := if ty == GoInt || ty == GoUint then 32 else GoWidth(ty).value.bits;
    width := Width(bits, bits != 8);
    PrintedIs(SQLServer, ty, size, SqlServerType(ty, size), false, width);
  }

  /** An integer field is printed as an integer column, which holds every value of the field exactly if the field's type
      is not too wide for its column in that dialect. */
  lemma {:induction false} PrintedHoldsExactly(d: Dialect, ty: GoType, size: int) returns (width: Width)
    requires GoWidth(ty).Some?
    ensures IsPrinted(d, ty, size, width)
    ensures Holds(width, GoWidth(ty).value) <==> !IsTooWide(d, ty)
  {
    match d {
      case MySQL => width := MySqlPrinted(ty, size);
      case PostgreSQL => width := PostgresPrinted(ty, size);
      case SQLite =>
        SqlitePrinted(ty, size);
        width := Width(64, true);
      case SQLServer => width := SqlServerPrinted(ty, size);
    }
    HoldsExactly(width, GoWidth(ty).value);
  }

  // ---------------------------------------------------------------- reading

  lemma {:induction false} NoParenthesis(word: string)
    requires '(' !in word
    ensures BaseType(word) == word
  {
    var n := IndexOf(word, '(');
  }

  /** The words of the integer columns that MySQL has hold neither a parenthesis nor the modifier. */
  lemma {:induction false} MySqlWord(word: string)
    requires ColumnWidth(MySQL, word, false).Some?
    ensures '(' !in word && !Contains(word, "(1)") && !Contains(word, "UNSIGNED")
  {
    ContainsHasChar(word, "(1)", '(');
    PairsFound(word);
    assert !HasPair(word, 'U', 'N');
  }

  lemma {:induction false} MySqlReads(sqlType: string, word: string)
    requires Upper(sqlType) == word && ColumnWidth(MySQL, word, false).Some?
    ensures ReverseType(MySQL, sqlType) == MySqlOfBase(word, false, false)
  {
    MySqlWord(word);
    NoParenthesis(word);
  }

  lemma {:induction false} BaseIs(sqlType: string, word: string)
    requires Upper(sqlType) == word && '(' !in word
    ensures BaseType(Upper(sqlType)) == word
  {
    NoParenthesis(word);
  }

  lemma {:induction false} PostgresNarrow(sqlType: string)
    requires Upper(sqlType) in {"SMALLINT", "INT2"}
    ensures PostgresReverse(sqlType) == GoInt16
  {
    BaseIs(sqlType, Upper(sqlType));
  }

  lemma {:induction false} PostgresMiddle(sqlType: string)
    requires Upper(sqlType) in {"INTEGER", "INT", "INT4", "SERIAL"}
    ensures PostgresReverse(sqlType) == GoInt32
  {
    BaseIs(sqlType, Upper(sqlType));
  }

  lemma {:induction false} PostgresBigint(sqlType: string)
    requires Upper(sqlType) == "BIGINT"
    ensures PostgresReverse(sqlType) == GoInt64
  {
    BaseIs(sqlType, "BIGINT");
  }

  lemma {:induction false} PostgresInt8(sqlType: string)
    requires Upper(sqlType) == "INT8"
    ensures PostgresReverse(sqlType) == GoInt64
  {
    BaseIs(sqlType, "INT8");
  }

  lemma {:induction false} PostgresBigserial(sqlType: string)
    requires Upper(sqlType) == "BIGSERIAL"
    ensures PostgresReverse(sqlType) == GoInt64
  {
    BaseIs(sqlType, "BIGSERIAL");
  }

  lemma {:induction false} PostgresBig(sqlType: string)
    requires Upper(sqlType) in {"BIGINT", "INT8", "BIGSERIAL"}
    ensures PostgresReverse(sqlType) == GoInt64
  {
    if Upper(sqlType) == "BIGINT" {
      PostgresBigint(sqlType);
    } else if Upper(sqlType) == "INT8" {
      PostgresInt8(sqlType);
    } else {
      PostgresBigserial(sqlType);
    }
  }

  /** The Go types for the columns of the three widths. */
  lemma {:induction false} PostgresByBits(sqlType: string)
    requires ColumnBits(PostgreSQL, Upper(sqlType)).Some?
    ensures var bits := ColumnBits(PostgreSQL, Upper(sqlType)).value;
            && (bits == 16 || bits == 32 || bits == 64)
            && PostgresReverse(sqlType) == if bits == 16 then GoInt16 else if bits == 32 then GoInt32 else GoInt64
  {
    var bits := ColumnBits(PostgreSQL, Upper(sqlType)).value;
    if bits == 16 {
      PostgresNarrow(sqlType);
    } else if bits == 64 {
      PostgresBig(sqlType);
    } else {
      PostgresMiddle(sqlType);
    }
  }

  lemma {:induction false} PostgresReads(sqlType: string)
    requires ColumnBits(PostgreSQL, Upper(sqlType)).Some?
    ensures GoWidth(PostgresReverse(sqlType)) == Some(Width(ColumnBits(PostgreSQL, Upper(sqlType)).value, true))
  {
    PostgresByBits(sqlType);
  }

  lemma {:induction false} SqlServerReads(sqlType: string, word: string)
    requires Upper(sqlType) == word && ColumnWidth(SQLServer, word, false).Some?
    ensures GoWidth(ReverseType(SQLServer, sqlType)) == ColumnWidth(SQLServer, word, false)
  {
    BaseIs(sqlType, word);
  }

  lemma {:induction false} SqliteReads(sqlType: string)
    requires Upper(sqlType) == "INTEGER"
    ensures ReverseType(SQLite, sqlType) == GoInt64
  {
    ContainsMiddle("", "INT", "EGER");
    assert "" + "INT" + "EGER" == "INTEGER";
  }

  /** An integer column read without the modifier, in any letter case: the Go type takes every integer in it, and where
      Go has a type of that width, no other. */
  lemma {:induction false} ReadHolds(d: Dialect, sqlType: string, word: string)
    requires Upper(sqlType) == word && ColumnWidth(d, word, false).Some?
    ensures GoWidth(ReverseType(d, sqlType)).Some?
    ensures Holds(GoWidth(ReverseType(d, sqlType)).value, ColumnWidth(d, word, false).value)
    ensures word != "MEDIUMINT" ==> GoWidth(ReverseType(d, sqlType)) == ColumnWidth(d, word, false)
  {
    match d {
      case MySQL =>
        MySqlReads(sqlType, word);
        SignedPartner(word);
      case PostgreSQL => PostgresReads(sqlType);
      case SQLite => SqliteReads(sqlType);
      case SQLServer => SqlServerReads(sqlType, word);
    }
    HoldsExactly(GoWidth(ReverseType(d, sqlType)).value, ColumnWidth(d, word, false).value);
  }

  lemma {:induction false} SignedPartner(word: string)
    requires ColumnWidth(MySQL, word, false).Some?
    ensures GoWidth(MySqlOfBase(word, false, false)) ==
            if word == "MEDIUMINT" then Some(Width(32, true)) else ColumnWidth(MySQL, word, false)
  {
  }

  lemma {:induction false} UnsignedPartner(word: string)
    requires ColumnWidth(MySQL, word, true).Some?
    ensures GoWidth(Unsign(MySqlOfBase(word, false, false))) ==
            if word == "MEDIUMINT" then Some(Width(32, false)) else ColumnWidth(MySQL, word, true)
  {
    SignedPartner(word);
  }

  /** The same for a column with the modifier: the parser turns the type to its partner without sign. */
  lemma {:induction false} UnsignedReadHolds(sqlType: string, word: string)
    requires Upper(sqlType) == word && ColumnWidth(MySQL, word, true).Some?
    ensures GoWidth(Unsign(ReverseType(MySQL, sqlType))).Some?
    ensures Holds(GoWidth(Unsign(ReverseType(MySQL, sqlType))).value, ColumnWidth(MySQL, word, true).value)
  {
    MySqlReads(sqlType, word);
    UnsignedPartner(word);
    HoldsExactly(GoWidth(Unsign(ReverseType(MySQL, sqlType))).value, ColumnWidth(MySQL, word, true).value);
  }
}
