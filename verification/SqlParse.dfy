/** The DDL parser: statement headers, column definitions and key clauses. */
module SqlParse {
  import opened Text
  import opened Folds
  import opened SqlScan
  import opened SqlDdl
  import opened SqlTypes

  // ---------------------------------------------------------------- matching the header

  /** The white space of the patterns. */
  predicate IsBlank(c: char) {
    c == ' ' || c == '\t' || c == '\n' || c == '\U{000C}' || c == '\r'
  }

  predicate IsWordChar(c: char) {
    'a' <= c <= 'z' || 'A' <= c <= 'Z' || '0' <= c <= '9' || c == '_'
  }

  /** The text after a keyword, which is matched in any letter case. */
  function Eat(word: string, s: string): (r: Option<string>)
    ensures r.Some? ==> |word| + |r.value| == |s|
  {
    if word == "" then Some(s)
    else if s != "" && UpperChar(s[0]) == word[0] then Eat(word[1..], s[1..])
    else None
  }

  function EatBlanks(s: string): (r: string)
    ensures |r| <= |s|
  {
    if s != "" && IsBlank(s[0]) then EatBlanks(s[1..]) else s
  }

  /** At least one blank. */
  function EatGap(s: string): (r: Option<string>)
    ensures r.Some? ==> |r.value| < |s|
  {
    if s != "" && IsBlank(s[0]) then Some(EatBlanks(s[1..])) else None
  }

  /** A keyword and the blanks after it. */
  function EatKeyword(word: string, s: string): (r: Option<string>)
    ensures r.Some? ==> |r.value| < |s|
  {
    match Eat(word, s)
    case None => None
    case Some(t) => EatGap(t)
  }

  function WordLength(s: string): (n: nat)
    ensures n <= |s|
    ensures forall i :: 0 <= i < n ==> IsWordChar(s[i])
    ensures n < |s| ==> !IsWordChar(s[n])
  {
    if s != "" && IsWordChar(s[0]) then 1 + WordLength(s[1..]) else 0
  }

  function EatOne(s: string, marks: set<char>): (r: string)
    ensures |r| <= |s|
  {
    if s != "" && s[0] in marks then s[1..] else s
  }

  const OPEN_MARKS := {'`', '"', '\'', '['}
  const CLOSE_MARKS := {'`', '"', '\'', ']'}

  /** A header: the table name, and the text from the open parenthesis on. */
  datatype Header = Header(name: string, rest: string)

  /** An optionally quoted name up to an open parenthesis. */
  function MatchName(s: string): (r: Option<Header>)
    ensures r.Some? ==> 0 < |r.value.rest| < |s| && r.value.rest[0] == '('
  {
    var t := EatOne(s, OPEN_MARKS);
    var n := WordLength(t);
    var rest := EatBlanks(EatOne(t[n..], CLOSE_MARKS));
    if n == 0 || rest == "" || rest[0] != '(' then None else Some(Header(t[..n], rest))
  }

  const PLAIN := ["CREATE", "TABLE"]
  const GUARD := ["IF", "NOT", "EXISTS"]

  /** Keywords with blanks after each, and then a name. */
  function MatchWords(words: seq<string>, s: string): (r: Option<Header>)
    ensures r.Some? ==> 0 < |r.value.rest| < |s| && r.value.rest[0] == '('
    decreases |words|
  {
    if words == [] then MatchName(s)
    else
      match EatKeyword(words[0], s)
      case None => None
      case Some(t) => MatchWords(words[1..], t)
  }

  /** The CREATE TABLE header at the start of the text. The guarded form is tried first, then the plain one. */
  function MatchHeader(s: string): (r: Option<Header>)
    ensures r.Some? ==> 0 < |r.value.rest| < |s| && r.value.rest[0] == '('
  {
    if MatchWords(PLAIN + GUARD, s).Some? then MatchWords(PLAIN + GUARD, s) else MatchWords(PLAIN, s)
  }

  /** The leftmost header: how many characters come before it, and what it is. */
  function FindHeader(s: string): (r: Option<(nat, Header)>)
    ensures r.Some? ==> r.value.0 + |r.value.1.rest| < |s| && r.value.1.rest != "" && r.value.1.rest[0] == '('
  {
    if MatchHeader(s).Some? then Some((0, MatchHeader(s).value))
    else if s == "" then None
    else
      match FindHeader(s[1..])
      case None => None
      case Some((skip, h)) => Some((skip + 1, h))
  }

  // ---------------------------------------------------------------- words

  function FieldLength(s: string): (n: nat)
    ensures n <= |s| && (s != "" && !IsSpace(s[0]) ==> n > 0)
    ensures forall i :: 0 <= i < n ==> !IsSpace(s[i])
    ensures n < |s| ==> IsSpace(s[n])
  {
    if s != "" && !IsSpace(s[0]) then 1 + FieldLength(s[1..]) else 0
  }

  /** strings.Fields: the runs of characters between white space. */
  function Fields(s: string): seq<string>
    decreases |s|
  {
    if s == "" then []
    else if IsSpace(s[0]) then Fields(s[1..])
    else
      var n := FieldLength(s);
      [s[..n]] + Fields(s[n..])
  }

  const MARKS := {'`', '"', '\'', '[', ']'}

  function TrimMarksLeft(s: string): string {
    if s != "" && s[0] in MARKS then TrimMarksLeft(s[1..]) else s
  }

  function TrimMarksRight(s: string): string {
    if s != "" && s[|s| - 1] in MARKS then TrimMarksRight(s[..|s| - 1]) else s
  }

  /** strings.Trim of quotes and brackets. */
  function TrimMarks(s: string): string {
    TrimMarksRight(TrimMarksLeft(s))
  }

  // ---------------------------------------------------------------- one column

  datatype ParsedColumn = ParsedColumn(
    name: string,
    sqlType: string,
    goType: GoType,
    primaryKey: bool,
    autoIncrement: bool,
    notNull: bool,
    size: int)

  /** The text between the parentheses right after the type's word, if it is there and not empty. */
  function TypeParams(s: string): string {
    var n := WordLength(s);
    if n < |s| && s[n] == '(' then
      var inner := s[n + 1..];
      var m := IndexOf(inner, ')');
      if 0 < m < |inner| then inner[..m] else ""
    else ""
  }

  /** strconv.Atoi with the error dropped: zero for bad syntax, the nearest bound out of range. */
  function AtoiOrZero(s: string): int {
    match ParseDecimal(s)
    case None => 0
    case Some(n) =>
      if n < -0x8000_0000_0000_0000 then -0x8000_0000_0000_0000
      else if n > 0x7FFF_FFFF_FFFF_FFFF then 0x7FFF_FFFF_FFFF_FFFF
      else n
  }

  function TypeSize(s: string): int {
    if TypeParams(s) == "" then 0 else AtoiOrZero(TrimSpace(Split(TypeParams(s), ',')[0]))
  }

  predicate HasAutoIncrement(upper: string) {
    Contains(upper, "AUTO_INCREMENT") || Contains(upper, "AUTOINCREMENT") || Contains(upper, "SERIAL") ||
      Contains(upper, "IDENTITY")
  }

  function ColumnGoType(d: Dialect, sqlType: string, rest: string): GoType
  {
    var base := Upper(rest[..WordLength(rest)]);
    var ty := ReverseType(d, sqlType);
    if (base == "TINYINT" || base == "BIT") && TypeSize(rest) == 1 then GoBool
    else if Contains(Upper(rest), "UNSIGNED") then Unsign(ty)
    else ty
  }

  /** parseColumnDef: None where the source returns an error. */
  function ParseColumn(d: Dialect, def: string): Option<ParsedColumn>
  {
    var parts := Fields(def);
    if |parts| < 2 then None
    else
      var rest := Join(parts[1..], " ");
      if WordLength(rest) == 0 then None
      else
        var upper := Upper(rest);
        Some(ParsedColumn(
          TrimMarks(parts[0]), parts[1], ColumnGoType(d, parts[1], rest),
          Contains(upper, "PRIMARY KEY"), HasAutoIncrement(upper), Contains(upper, "NOT NULL"),
          TypeSize(rest)))
  }

  // ---------------------------------------------------------------- one table

  /** The column list of a PRIMARY KEY clause at the start of the text. */
  function MatchKey(s: string): Option<string> {
    match EatKeyword("PRIMARY", s)
    case None => None
    case Some(t) =>
      match Eat("KEY", t)
      case None => None
      case Some(u) =>
        var v := EatBlanks(u);
        if v == "" || v[0] != '(' then None
        else
          var inner := v[1..];
          var m := IndexOf(inner, ')');
          if 0 < m < |inner| then Some(inner[..m]) else None
  }

  function FindKey(s: string): Option<string> {
    if MatchKey(s).Some? then MatchKey(s) else if s == "" then None else FindKey(s[1..])
  }

  function TrimNames(parts: seq<string>): (r: seq<string>)
    ensures |r| == |parts| && forall i :: 0 <= i < |parts| ==> r[i] == TrimMarks(TrimSpace(parts[i]))
  {
    seq(|parts|, i requires 0 <= i < |parts| => TrimMarks(TrimSpace(parts[i])))
  }

  function KeyColumns(entry: string): seq<string> {
    match FindKey(entry)
    case None => []
    case Some(list) => TrimNames(Split(list, ','))
  }

  predicate IsKeyEntry(entry: string) {
    HasPrefix(Upper(entry), "PRIMARY KEY") || HasPrefix(Upper(entry), "CONSTRAINT")
  }

  predicate IsOtherConstraint(entry: string) {
    var upper := Upper(entry);
    || HasPrefix(upper, "INDEX") || HasPrefix(upper, "KEY") || HasPrefix(upper, "UNIQUE")
    || HasPrefix(upper, "FOREIGN") || HasPrefix(upper, "CHECK")
  }

  /** What was read so far: columns, and names of key columns. */
  datatype Taken = Taken(columns: seq<ParsedColumn>, keys: seq<string>)

  /** What one entry adds. */
  function TakeEntry(d: Dialect, so: Taken, raw: string): Taken
  {
    var entry := TrimSpace(raw);
    if entry == "" then so
    else if IsKeyEntry(entry) then so.(keys := so.keys + KeyColumns(entry))
    else if IsOtherConstraint(entry) then so
    else
      match ParseColumn(d, entry)
      case None => so
      case Some(c) => so.(columns := so.columns + [c])
  }

  function Taker(d: Dialect): (Taken, string) -> Taken
  {
    (so, raw) => TakeEntry(d, so, raw)
  }

  function TakeEntries(d: Dialect, pieces: seq<string>): Taken
  {
    Fold(Taker(d), Taken([], []), pieces)
  }

  predicate EqualFold(a: string, b: string) {
    Lower(a) == Lower(b)
  }

  predicate Named(keys: seq<string>, name: string) {
    exists i :: 0 <= i < |keys| && EqualFold(name, keys[i])
  }

  function MarkKeys(columns: seq<ParsedColumn>, keys: seq<string>): (r: seq<ParsedColumn>)
    ensures |r| == |columns|
    ensures forall i :: 0 <= i < |columns| ==>
            r[i] == columns[i].(primaryKey := columns[i].primaryKey || Named(keys, columns[i].name))
  {
    seq(|columns|,
        i requires 0 <= i < |columns| =>
          columns[i].(primaryKey := columns[i].primaryKey || Named(keys, columns[i].name)))
  }

  datatype ParsedTable = ParsedTable(name: string, columns: seq<ParsedColumn>)

  datatype ParseError = ParseFailed

  /** The name of the first table in the text, and what stands between its parentheses. */
  function BodyOf(sql: string): Option<(string, string)> {
    match FindHeader(sql)
    case None => None
    case Some((_, h)) =>
      match Stop(START, h.rest)
      case None => None
      case Some(close) => Some((h.name, if close == 0 then "" else h.rest[1..close]))
  }

  function ColumnsOf(d: Dialect, body: string): seq<ParsedColumn>
  {
    var all := TakeEntries(d, SplitTop(body, 0, ""));
    MarkKeys(all.columns, all.keys)
  }

  /** parseCreateTable. */
  function ParseTable(d: Dialect, sql: string): Result<ParsedTable, ParseError>
  {
    match BodyOf(sql)
    case None => Err(ParseFailed)
    case Some((name, body)) => Ok(ParsedTable(name, ColumnsOf(d, body)))
  }
}
