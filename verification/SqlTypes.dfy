/** The type mappings: from Go to SQL for MySQL and SQLite, and from SQL to Go for every dialect. */
module SqlTypes {
  import opened Text
  import opened SqlDdl

  /** The Go types that the type mappings tell apart. */
  datatype GoType =
    | GoString | GoInt | GoInt8 | GoInt16 | GoInt32 | GoInt64
    | GoUint | GoUint8 | GoUint16 | GoUint32 | GoUint64
    | GoFloat32 | GoFloat64 | GoBool | GoTime | GoTimePtr | GoBytes | GoRawMessage | GoOther

  function Sized(base: string, size: nat): string {
    base + "(" + Digits(size) + ")"
  }

  function Unsigned(base: string): string {
    base + " UNSIGNED"
  }

  function MySqlType(ty: GoType, size: int): string {
    match ty
    case GoString => if 0 < size <= 255 then Sized("VARCHAR", size) else "TEXT"
    case GoInt => "INT"
    case GoInt32 => "INT"
    case GoInt8 => "TINYINT"
    case GoInt16 => "SMALLINT"
    case GoInt64 => "BIGINT"
    case GoUint => Unsigned("INT")
    case GoUint32 => Unsigned("INT")
    case GoUint8 => Unsigned("TINYINT")
    case GoUint16 => Unsigned("SMALLINT")
    case GoUint64 => Unsigned("BIGINT")
    case GoFloat32 => "FLOAT"
    case GoFloat64 => "DOUBLE"
    case GoBool => Sized("TINYINT", 1)
    case GoTime => "DATETIME"
    case GoTimePtr => "DATETIME"
    case GoBytes => "BLOB"
    case GoRawMessage => "TEXT"
    case GoOther => "TEXT"
  }

  function SqliteType(ty: GoType): string {
    match ty
    case GoString => "TEXT"
    case GoInt => "INTEGER"
    case GoInt8 => "INTEGER"
    case GoInt16 => "INTEGER"
    case GoInt32 => "INTEGER"
    case GoInt64 => "INTEGER"
    case GoUint => "INTEGER"
    case GoUint8 => "INTEGER"
    case GoUint16 => "INTEGER"
    case GoUint32 => "INTEGER"
    case GoUint64 => "INTEGER"
    case GoFloat32 => "REAL"
    case GoFloat64 => "REAL"
    case GoBool => "INTEGER"
    case GoTime => "DATETIME"
    case GoTimePtr => "DATETIME"
    case GoBytes => "BLOB"
    case GoRawMessage => "TEXT"
    case GoOther => "TEXT"
  }

  /** The column type text, for the two dialects that the round trip is about. */
  function TypeText(d: Dialect, ty: GoType, size: int): string
    requires d.MySQL? || d.SQLite?
  {
    if d.MySQL? then MySqlType(ty, size) else SqliteType(ty)
  }

  // ---------------------------------------------------------------- from SQL to Go

  /** The type text up to its parameters. */
  function BaseType(upper: string): string {
    var n := IndexOf(upper, '(');
    if 0 < n < |upper| then upper[..n] else upper
  }

  /** The offset of the first occurrence, or the length of the text. */
  function IndexOf(s: string, c: char): (n: nat)
    ensures n <= |s| && c !in s[..n] && (n < |s| ==> s[n] == c)
  {
    if s == "" || s[0] == c then 0
    else
      var n := IndexOf(s[1..], c) + 1;
      assert s[..n] == [s[0]] + s[1..][..n - 1];
      n
  }

  function MySqlReverse(sqlType: string): GoType {
    var upper := Upper(sqlType);
    MySqlOfBase(BaseType(upper), Contains(upper, "(1)"), Contains(upper, "UNSIGNED"))
  }

  function MySqlOfBase(base: string, one: bool, unsigned: bool): GoType {
    if base == "TINYINT" then (if one then GoBool else if unsigned then GoUint8 else GoInt8)
    else if base == "SMALLINT" then (if unsigned then GoUint16 else GoInt16)
    else if base in {"INT", "INTEGER", "MEDIUMINT"} then (if unsigned then GoUint32 else GoInt32)
    else if base == "BIGINT" then (if unsigned then GoUint64 else GoInt64)
    else if base == "FLOAT" then GoFloat32
    else if base in {"DOUBLE", "DECIMAL", "NUMERIC"} then GoFloat64
    else if base in {"CHAR", "VARCHAR", "TEXT", "TINYTEXT", "MEDIUMTEXT", "LONGTEXT"} then GoString
    else if base in {"DATETIME", "TIMESTAMP", "DATE", "TIME"} then GoTime
    else if base in {"BLOB", "TINYBLOB", "MEDIUMBLOB", "LONGBLOB", "BINARY", "VARBINARY"} then GoBytes
    else if base == "JSON" then GoRawMessage
    else if base in {"BOOL", "BOOLEAN"} then GoBool
    else GoString
  }

  function SqliteReverse(sqlType: string): GoType {
    var upper := Upper(sqlType);
    if Contains(upper, "INT") then GoInt64
    else if Contains(upper, "CHAR") || Contains(upper, "TEXT") || Contains(upper, "CLOB") then GoString
    else if Contains(upper, "REAL") || Contains(upper, "FLOA") || Contains(upper, "DOUB") then GoFloat64
    else if Contains(upper, "BLOB") then GoBytes
    else if upper in {"DATETIME", "DATE", "TIMESTAMP"} then GoTime
    else if upper == "BOOLEAN" then GoBool
    else GoString
  }

  function PostgresReverse(sqlType: string): GoType {
    var base := BaseType(Upper(sqlType));
    if base in {"SMALLINT", "INT2"} then GoInt16
    else if base in {"INTEGER", "INT", "INT4", "SERIAL"} then GoInt32
    else if base in {"BIGINT", "INT8", "BIGSERIAL"} then GoInt64
    else if base in {"REAL", "FLOAT4"} then GoFloat32
    else if base in {"DOUBLE PRECISION", "FLOAT8", "NUMERIC", "DECIMAL"} then GoFloat64
    else if base in {"TIMESTAMP", "TIMESTAMPTZ", "DATE", "TIME", "TIMETZ"} then GoTime
    else if base == "BYTEA" then GoBytes
    else if base in {"BOOLEAN", "BOOL"} then GoBool
    else if base in {"JSON", "JSONB"} then GoRawMessage
    else GoString
  }

  function SqlServerReverse(sqlType: string): GoType {
    var base := BaseType(Upper(sqlType));
    if base == "TINYINT" then GoUint8
    else if base == "SMALLINT" then GoInt16
    else if base == "INT" then GoInt32
    else if base == "BIGINT" then GoInt64
    else if base == "REAL" then GoFloat32
    else if base == "FLOAT" then GoFloat64
    else if base in {"DATETIME", "DATETIME2", "DATE", "TIME", "SMALLDATETIME"} then GoTime
    else if base in {"BINARY", "VARBINARY", "IMAGE"} then GoBytes
    else if base == "BIT" then GoBool
    else GoString
  }

  function ReverseType(d: Dialect, sqlType: string): GoType {
    match d
    case MySQL => MySqlReverse(sqlType)
    case PostgreSQL => PostgresReverse(sqlType)
    case SQLite => SqliteReverse(sqlType)
    case SQLServer => SqlServerReverse(sqlType)
  }

  /** An UNSIGNED modifier turns a signed integer type into its unsigned partner. */
  function Unsign(ty: GoType): GoType {
    match ty
    case GoInt8 => GoUint8
    case GoInt16 => GoUint16
    case GoInt32 => GoUint32
    case GoInt64 => GoUint64
    case _ => ty
  }

  /** The Go type that a dialect's column gives back: what survives of a Go type in SQL. */
  function CanonicalType(d: Dialect, ty: GoType): GoType
    requires d.MySQL? || d.SQLite?
  {
    if d.MySQL? then
      match ty
      case GoInt => GoInt32
      case GoUint => GoUint32
      case GoTimePtr => GoTime
      case GoRawMessage => GoString
      case GoOther => GoString
      case _ => ty
    else
      match ty
      case GoFloat32 => GoFloat64
      case GoFloat64 => GoFloat64
      case GoTime => GoTime
      case GoTimePtr => GoTime
      case GoBytes => GoBytes
      case GoString => GoString
      case GoRawMessage => GoString
      case GoOther => GoString
      case _ => GoInt64
  }
}
