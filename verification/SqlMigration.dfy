/** Migrations: scripts of ALTER TABLE statements, their rollback scripts, and what both do to a schema. */
module SqlMigration {
  import opened Text
  import opened SqlDdl
  import opened SqlNames

  // ---------------------------------------------------------------- names

  predicate IsCapital(c: char) {
    'A' <= c <= 'Z'
  }

  /** An underscore before every capital but the first character, and then all in lower case. */
  function SnakeFrom(s: string, first: bool): string {
    if s == "" then ""
    else (if IsCapital(s[0]) && !first then "_" else "") + [LowerChar(s[0])] + SnakeFrom(s[1..], false)
  }

  function SnakeCase(s: string): string {
    SnakeFrom(s, true)
  }

  function Underscored(s: string, first: bool): string {
    if s == "" then ""
    else (if IsCapital(s[0]) && !first then "_" else "") + [s[0]] + Underscored(s[1..], false)
  }

  lemma {:induction false} LowerUnderscored(s: string, first: bool)
    ensures Lower(Underscored(s, first)) == SnakeFrom(s, first)
    decreases |s|
  {
    if s != "" {
      LowerUnderscored(s[1..], false);
      LowerConcat(if IsCapital(s[0]) && !first then "_" else "", [s[0]]);
      LowerConcat((if IsCapital(s[0]) && !first then "_" else "") + [s[0]], Underscored(s[1..], false));
    }
  }

  lemma {:induction false} LowerConcat(a: string, b: string)
    ensures Lower(a + b) == Lower(a) + Lower(b)
  {
  }

  lemma {:induction false} UnderscoredNext(s: string, i: nat, result: string)
    requires i < |s|
    ensures result + Underscored(s[i..], i == 0) ==
            (if i > 0 && IsCapital(s[i]) then result + "_" + [s[i]] else result + [s[i]]) +
              Underscored(s[i + 1..], false)
  {
    assert s[i..][0] == s[i] && s[i..][1..] == s[i + 1..];
  }

  /** toSnakeCase: a loop with a builder, and one lower-casing at the end. */
  method ToSnakeCase(s: string) returns (r: string)
    ensures r == SnakeCase(s)
  {
    var result := "";
    for i := 0 to |s|
      invariant Underscored(s, true) == result + Underscored(s[i..], i == 0)
    {
      UnderscoredNext(s, i, result);
      if i > 0 && IsCapital(s[i]) {
        result := result + "_";
      }
      result := result + [s[i]];
    }
    assert s[|s|..] == "" && result + "" == result;
    LowerUnderscored(s, true);
    return Lower(result);
  }

  lemma {:induction false} SnakeHasNoCapital(s: string, first: bool)
    ensures forall i :: 0 <= i < |SnakeFrom(s, first)| ==> !IsCapital(SnakeFrom(s, first)[i])
    decreases |s|
  {
    if s != "" {
      SnakeHasNoCapital(s[1..], false);
    }
  }

  lemma {:induction false} SnakeFixed(s: string, first: bool)
    requires forall i :: 0 <= i < |s| ==> !IsCapital(s[i])
    ensures SnakeFrom(s, first) == s
    decreases |s|
  {
    if s != "" {
      SnakeFixed(s[1..], false);
      assert s == [s[0]] + s[1..];
    }
  }

  /** A name is its own snake case exactly when it has no capital; so snake case is a final form. */
  lemma {:induction false} SnakeCaseIsFinal(s: string)
    ensures SnakeCase(s) == s <==> forall i :: 0 <= i < |s| ==> !IsCapital(s[i])
    ensures SnakeCase(SnakeCase(s)) == SnakeCase(s)
  {
    SnakeHasNoCapital(s, true);
    SnakeFixed(SnakeCase(s), true);
    if forall i :: 0 <= i < |s| ==> !IsCapital(s[i]) {
      SnakeFixed(s, true);
    }
  }

  /** The first letter in capitals. */
  function Capitalized(part: string): string {
    if part == "" then "" else [UpperChar(part[0])] + part[1..]
  }

  function AllCapitalized(parts: seq<string>): (r: seq<string>)
    ensures |r| == |parts| && forall i :: 0 <= i < |parts| ==> r[i] == Capitalized(parts[i])
  {
    seq(|parts|, i requires 0 <= i < |parts| => Capitalized(parts[i]))
  }

  function PascalCase(s: string): string {
    Join(AllCapitalized(Split(s, '_')), "")
  }

  function CamelCase(s: string): string {
    var parts := Split(s, '_');
    Join([parts[0]] + AllCapitalized(parts[1..]), "")
  }

  /** toPascalCase: every part between underscores gets a capital in front. */
  method ToPascalCase(s: string) returns (r: string)
    ensures r == PascalCase(s)
  {
    var parts := Split(s, '_');
    var i := 0;
    while i < |parts|
      invariant 0 <= i <= |parts| == |Split(s, '_')|
      invariant forall k :: 0 <= k < i ==> parts[k] == Capitalized(Split(s, '_')[k])
      invariant forall k :: i <= k < |parts| ==> parts[k] == Split(s, '_')[k]
    {
      if |parts[i]| > 0 {
        parts := parts[i := [UpperChar(parts[i][0])] + parts[i][1..]];
      }
      i := i + 1;
    }
    assert parts == AllCapitalized(Split(s, '_'));
    return Join(parts, "");
  }

  lemma {:induction false} CamelFrom(s: string, parts: seq<string>)
    requires |parts| == |Split(s, '_')| && parts[0] == Split(s, '_')[0]
    requires forall k :: 1 <= k < |parts| ==> parts[k] == Capitalized(Split(s, '_')[k])
    ensures Join(parts, "") == CamelCase(s)
  {
    var rest := AllCapitalized(Split(s, '_')[1..]);
    forall k | 0 <= k < |rest| ensures rest[k] == parts[k + 1] {
      assert Split(s, '_')[1..][k] == Split(s, '_')[k + 1];
    }
    assert parts == [parts[0]] + rest;
  }

  /** toCamelCase: every part but the first. */
  method ToCamelCase(s: string) returns (r: string)
    ensures r == CamelCase(s)
  {
    var parts := Split(s, '_');
    var i := 1;
    while i < |parts|
      invariant 1 <= i <= |parts| == |Split(s, '_')| && parts[0] == Split(s, '_')[0]
      invariant forall k :: 1 <= k < i ==> parts[k] == Capitalized(Split(s, '_')[k])
      invariant forall k :: i <= k < |parts| ==> parts[k] == Split(s, '_')[k]
    {
      if |parts[i]| > 0 {
        parts := parts[i := [UpperChar(parts[i][0])] + parts[i][1..]];
      }
      i := i + 1;
    }
    CamelFrom(s, parts);
    return Join(parts, "");
  }

  lemma {:induction false} Glued(head: string, rest: seq<string>)
    ensures Join([head] + rest, "") == head + Join(rest, "")
  {
    if rest == [] {
      assert [head] + rest == [head] && head + "" == head;
    } else {
      assert ([head] + rest)[1..] == rest && head + "" == head;
    }
  }

  lemma {:induction false} CapitalizedFirst(parts: seq<string>)
    requires parts != []
    ensures AllCapitalized(parts) == [Capitalized(parts[0])] + AllCapitalized(parts[1..])
  {
  }

  /** Both, character by character. */
  lemma {:induction false} CaseAfterMark(s: string)
    ensures CamelCase("_" + s) == PascalCase(s)
  {
    var parts := Split("_" + s, '_');
    assert ("_" + s)[1..] == s;
    assert parts == [""] + Split(s, '_') && parts[1..] == Split(s, '_');
    Glued("", AllCapitalized(Split(s, '_')));
  }

  lemma {:induction false} SplitAfterChar(c: char, s: string)
    requires c != '_'
    ensures Split([c] + s, '_') == [[c] + Split(s, '_')[0]] + Split(s, '_')[1..]
  {
    assert ([c] + s)[1..] == s;
  }

  /** Camel case in two parts: the first part as it is, and the rest of them glued behind it. */
  lemma {:induction false} CamelIs(s: string, first: string, rest: seq<string>)
    requires Split(s, '_') == [first] + rest
    ensures CamelCase(s) == first + Join(AllCapitalized(rest), "")
  {
    assert Split(s, '_')[1..] == rest;
    Glued(first, AllCapitalized(rest));
  }

  lemma {:induction false} PascalIs(s: string, first: string, rest: seq<string>)
    requires Split(s, '_') == [first] + rest
    ensures PascalCase(s) == Capitalized(first) + Join(AllCapitalized(rest), "")
  {
    assert Split(s, '_')[1..] == rest;
    CapitalizedFirst(Split(s, '_'));
    Glued(Capitalized(first), AllCapitalized(rest));
  }

  lemma {:induction false} CamelAfterChar(c: char, s: string)
    requires c != '_'
    ensures CamelCase([c] + s) == [c] + CamelCase(s)
  {
    var first, rest := Split(s, '_')[0], Split(s, '_')[1..];
    SplitAfterChar(c, s);
    CamelIs(s, first, rest);
    CamelIs([c] + s, [c] + first, rest);
    Regroup([c], first, Join(AllCapitalized(rest), ""));
  }

  lemma {:induction false} CapitalizedWord(c: char, word: string)
    ensures Capitalized([c] + word) == [UpperChar(c)] + word
  {
  }

  lemma {:induction false} PascalAfterChar(c: char, s: string)
    requires c != '_'
    ensures PascalCase([c] + s) == [UpperChar(c)] + CamelCase(s)
  {
    var first, rest := Split(s, '_')[0], Split(s, '_')[1..];
    SplitAfterChar(c, s);
    CamelIs(s, first, rest);
    PascalIs([c] + s, [c] + first, rest);
    CapitalizedWord(c, first);
    Regroup([UpperChar(c)], first, Join(AllCapitalized(rest), ""));
  }

  lemma {:induction false} CamelOfSnakeFrom(s: string)
    requires '_' !in s
    ensures CamelCase(SnakeFrom(s, false)) == s
  {
    if s == "" {
      assert Split("", '_')[1..] == [];
      assert CamelCase("") == "";
    } else {
      var rest := SnakeFrom(s[1..], false);
      CamelOfSnakeFrom(s[1..]);
      assert [s[0]] + s[1..] == s;
      if IsCapital(s[0]) {
        var word := [LowerChar(s[0])] + rest;
        assert "_" + [LowerChar(s[0])] + rest == "_" + word;
        CaseAfterMark(word);
        PascalAfterChar(LowerChar(s[0]), rest);
      } else {
        assert "" + [LowerChar(s[0])] + rest == [s[0]] + rest;
        CamelAfterChar(s[0], rest);
      }
    }
  }

  /** Snake case and back: Pascal case and camel case give a name without underscores back but for the case of its first
      letter, so Pascal case gives it back exactly if that is not a small letter, and camel case exactly if it is not a
      capital. */
  lemma {:induction false} SnakeAndBack(s: string)
    requires '_' !in s && s != ""
    ensures PascalCase(SnakeCase(s)) == [UpperChar(LowerChar(s[0]))] + s[1..]
    ensures CamelCase(SnakeCase(s)) == [LowerChar(s[0])] + s[1..]
    ensures PascalCase(SnakeCase(s)) == s <==> !('a' <= s[0] <= 'z')
    ensures CamelCase(SnakeCase(s)) == s <==> !IsCapital(s[0])
  {
    var rest := SnakeFrom(s[1..], false);
    CamelOfSnakeFrom(s[1..]);
    assert SnakeCase(s) == [LowerChar(s[0])] + rest;
    PascalAfterChar(LowerChar(s[0]), rest);
    CamelAfterChar(LowerChar(s[0]), rest);
    assert s == [s[0]] + s[1..];
  }

  // ---------------------------------------------------------------- operations and statements

  /** A field of a model: its name in the program and its column. */
  datatype Field = Field(name: string, column: Column)

  datatype Model = Model(table: string, fields: seq<Field>)

  /** A step of a migration. Dropping an index records only its name. */
  datatype Operation =
    | AddColumn(model: Model, column: string)
    | DropColumn(model: Model, column: string)
    | ModifyColumn(model: Model, column: string, newType: string)
    | AddIndex(model: Model, index: string, columns: seq<string>)
    | DropIndex(model: Model, index: string)

  /** One clause of an ALTER TABLE statement. */
  datatype Clause =
    | AddColumnClause(column: Column)
    | DropColumnClause(name: string)
    | ModifyColumnClause(name: string, newType: string)
    | AddIndexClause(index: string, columns: seq<string>)
    | DropIndexClause(index: string)

  datatype Statement =
    | Alter(table: string, clause: Clause)
    | Note(column: string)

  function FindField(fields: seq<Field>, name: string): Option<Column> {
    if fields == [] then None
    else if fields[0].name == name || fields[0].column.name == name then Some(fields[0].column)
    else FindField(fields[1..], name)
  }

  /** The loop of AddColumn over the fields, which stops at the first match. */
  method LookUpField(fields: seq<Field>, name: string) returns (r: Option<Column>)
    ensures r == FindField(fields, name)
    ensures r.Some? ==>
            exists i :: 0 <= i < |fields| && fields[i].column == r.value &&
              (fields[i].name == name || r.value.name == name) &&
              forall k :: 0 <= k < i ==> fields[k].name != name && fields[k].column.name != name
    ensures r.None? ==> forall i :: 0 <= i < |fields| ==> fields[i].name != name && fields[i].column.name != name
  {
    for i := 0 to |fields|
      invariant FindField(fields, name) == FindField(fields[i..], name)
      invariant forall k :: 0 <= k < i ==> fields[k].name != name && fields[k].column.name != name
    {
      assert fields[i..][0] == fields[i] && fields[i..][1..] == fields[i + 1..];
      if fields[i].name == name || fields[i].column.name == name {
        return Some(fields[i].column);
      }
    }
    assert fields[|fields|..] == [];
    return None;
  }

  function Snakes(names: seq<string>): (r: seq<string>)
    ensures |r| == |names| && forall i :: 0 <= i < |names| ==> r[i] == SnakeCase(names[i])
  {
    seq(|names|, i requires 0 <= i < |names| => SnakeCase(names[i]))
  }

  /** The clause for a column to add, if the model has it. */
  function AddClause(model: Model, column: string): seq<Statement> {
    match FindField(model.fields, column)
    case None => []
    case Some(c) => [Alter(model.table, AddColumnClause(c))]
  }

  /** buildOperation: no statement where the model lacks the column. */
  function Forward(op: Operation): seq<Statement> {
    match op
    case AddColumn(model, column) => AddClause(model, column)
    case DropColumn(model, column) => [Alter(model.table, DropColumnClause(SnakeCase(column)))]
    case ModifyColumn(model, column, newType) => [Alter(model.table, ModifyColumnClause(SnakeCase(column), newType))]
    case AddIndex(model, index, columns) => [Alter(model.table, AddIndexClause(index, Snakes(columns)))]
    case DropIndex(model, index) => [Alter(model.table, DropIndexClause(index))]
  }

  /** buildRollbackOperation. */
  function Backward(op: Operation): seq<Statement> {
    match op
    case AddColumn(model, column) => [Alter(model.table, DropColumnClause(SnakeCase(column)))]
    case DropColumn(model, column) => AddClause(model, column)
    case ModifyColumn(model, column, newType) => [Note(column)]
    case AddIndex(model, index, columns) => [Alter(model.table, DropIndexClause(index))]
    case DropIndex(model, index) => [Alter(model.table, AddIndexClause(index, []))]
  }

  function Script(ops: seq<Operation>): seq<Statement> {
    if ops == [] then [] else Script(ops[..|ops| - 1]) + Forward(ops[|ops| - 1])
  }

  /** The operations undone from the last to the first. */
  function RollbackScript(ops: seq<Operation>): seq<Statement> {
    if ops == [] then [] else Backward(ops[|ops| - 1]) + RollbackScript(ops[..|ops| - 1])
  }

  // ---------------------------------------------------------------- text

  function ClauseText(d: Dialect, c: Clause): string {
    match c
    case AddColumnClause(column) => "ADD COLUMN " + ColumnDef(d, column)
    case DropColumnClause(name) => "DROP COLUMN " + Quote(d, name)
    case ModifyColumnClause(name, newType) =>
      (if d.PostgreSQL? then "ALTER COLUMN" else "MODIFY COLUMN") + " " + Quote(d, name) + " " + newType
    case AddIndexClause(index, columns) =>
      "ADD INDEX " + Quote(d, index) + " (" + Join(QuoteAll(d, columns), ", ") + ")"
    case DropIndexClause(index) => "DROP INDEX " + Quote(d, index)
  }

  /** The comment that tells the reader to record the old type of a column. */
  function NoteText(column: string): string {
    "-- 回滚列 " + column + " 的类型修改需要记录原始类型"
  }

  function StatementText(d: Dialect, s: Statement): string {
    match s
    case Alter(table, clause) => "ALTER TABLE " + Quote(d, table) + "\n  " + ClauseText(d, clause) + ";"
    case Note(column) => NoteText(column)
  }

  function ScriptText(d: Dialect, statements: seq<Statement>): string {
    if statements == [] then "" else StatementText(d, statements[0]) + "\n" + ScriptText(d, statements[1..])
  }

  // ---------------------------------------------------------------- text is read back

  /** What the text of a clause says. The definition of a new column is left as it stands. */
  datatype Told =
    | Adds(name: string, definition: string)
    | Drops(name: string)
    | Modifies(name: string, newType: string)
    | AddsIndex(index: string, columns: seq<string>)
    | DropsIndex(index: string)

  /** A clause by its first words. */
  function ReadClause(d: Dialect, text: string): Option<Told> {
    if "ADD COLUMN " <= text then
      match ReadQuoted(d, text[11..])
      case None => None
      case Some((name, _)) => Some(Adds(name, text[11..]))
    else if "DROP COLUMN " <= text then
      match ReadQuoted(d, text[12..])
      case None => None
      case Some((name, rest)) => if rest == "" then Some(Drops(name)) else None
    else if (if d.PostgreSQL? then "ALTER COLUMN " else "MODIFY COLUMN ") <= text then
      match ReadQuoted(d, text[if d.PostgreSQL? then 13 else 14..])
      case None => None
      case Some((name, rest)) =>
        match Behind(" ", rest)
        case None => None
        case Some(newType) => Some(Modifies(name, newType))
    else if "ADD INDEX " <= text then
      match ReadQuoted(d, text[10..])
      case None => None
      case Some((index, rest)) =>
        match Behind(" (", rest)
        case None => None
        case Some(list) =>
          match ReadNames(d, list)
          case None => None
          case Some(columns) => Some(AddsIndex(index, columns))
    else if "DROP INDEX " <= text then
      match ReadQuoted(d, text[11..])
      case None => None
      case Some((index, rest)) => if rest == "" then Some(DropsIndex(index)) else None
    else None
  }

  /** A statement: the table, and what is done to it. */
  function ReadStatement(d: Dialect, text: string): Option<(string, Told)> {
    if !("ALTER TABLE " <= text) || text[|text| - 1] != ';' then None
    else
      match ReadQuoted(d, text[12..|text| - 1])
      case None => None
      case Some((table, rest)) =>
        match Behind("\n  ", rest)
        case None => None
        case Some(clause) =>
          match ReadClause(d, clause)
          case None => None
          case Some(told) => Some((table, told))
  }

  /** What a clause means to say. */
  function Meant(d: Dialect, c: Clause): Told {
    match c
    case AddColumnClause(column) => Adds(column.name, ColumnDef(d, column))
    case DropColumnClause(name) => Drops(name)
    case ModifyColumnClause(name, newType) => Modifies(name, newType)
    case AddIndexClause(index, columns) => AddsIndex(index, columns)
    case DropIndexClause(index) => DropsIndex(index)
  }

  predicate QuotableClause(d: Dialect, c: Clause) {
    match c
    case AddColumnClause(column) => IsQuotable(d, column.name)
    case DropColumnClause(name) => IsQuotable(d, name)
    case ModifyColumnClause(name, _) => IsQuotable(d, name)
    case AddIndexClause(index, columns) =>
      IsQuotable(d, index) && forall i :: 0 <= i < |columns| ==> IsQuotable(d, columns[i])
    case DropIndexClause(index) => IsQuotable(d, index)
  }

  lemma {:induction false} DefinitionBegins(d: Dialect, c: Column)
    ensures ColumnDef(d, c) == Quote(d, c.name) + (" " + Join(ColumnParts(d, c), " "))
  {
    var parts := [Quote(d, c.name)] + ColumnParts(d, c);
    assert parts[1..] == ColumnParts(d, c);
  }

  /** The text of a clause says what the clause means: the verb, the name, the new type, the columns of the index, and
      the definition of a new column. */
  lemma {:induction false} ClauseReadsBack(d: Dialect, c: Clause)
    requires QuotableClause(d, c)
    ensures ReadClause(d, ClauseText(d, c)) == Some(Meant(d, c))
  {
    match c
    case AddColumnClause(column) => AddReads(d, column);
    case DropColumnClause(name) => DropReads(d, name);
    case ModifyColumnClause(name, newType) => ModifyReads(d, name, newType);
    case AddIndexClause(index, columns) => IndexReads(d, index, columns);
    case DropIndexClause(index) => DropIndexReads(d, index);
  }

  lemma {:induction false} AddReads(d: Dialect, column: Column)
    requires IsQuotable(d, column.name)
    ensures ReadClause(d, ClauseText(d, AddColumnClause(column))) == Some(Adds(column.name, ColumnDef(d, column)))
  {
    var definition := ColumnDef(d, column);
    assert ("ADD COLUMN " + definition)[11..] == definition;
    DefinitionBegins(d, column);
    NameReads(d, column.name, " " + Join(ColumnParts(d, column), " "));
  }

  lemma {:induction false} DropReads(d: Dialect, name: string)
    requires IsQuotable(d, name)
    ensures ReadClause(d, ClauseText(d, DropColumnClause(name))) == Some(Drops(name))
  {
    var text := "DROP COLUMN " + Quote(d, name);
    assert text[0] == 'D' && text[12..] == Quote(d, name) + "";
    NameReads(d, name, "");
  }

  lemma {:induction false} OtherVerbs(d: Dialect, text: string)
    requires "DROP INDEX " <= text
    ensures !("ADD COLUMN " <= text) && !("DROP COLUMN " <= text) && !("ADD INDEX " <= text)
    ensures !((if d.PostgreSQL? then "ALTER COLUMN " else "MODIFY COLUMN ") <= text)
  {
    assert text[0] == "DROP INDEX "[0] && text[5] == "DROP INDEX "[5];
  }

  lemma {:induction false} DropIndexSaid(d: Dialect, text: string, index: string)
    requires "DROP INDEX " <= text && ReadQuoted(d, text[11..]) == Some((index, ""))
    ensures ReadClause(d, text) == Some(DropsIndex(index))
  {
    OtherVerbs(d, text);
  }

  lemma {:induction false} AfterVerb(verb: string, rest: string)
    ensures verb <= verb + rest && (verb + rest)[|verb|..] == rest
  {
  }

  lemma {:induction false} WholeNameReads(d: Dialect, quoted: string, name: string)
    requires IsQuotable(d, name) && quoted == Quote(d, name)
    ensures ReadQuoted(d, quoted) == Some((name, ""))
  {
    NameReads(d, name, "");
    assert quoted + "" == quoted;
  }

  lemma {:induction false} DropIndexIs(d: Dialect, index: string, quoted: string)
    requires IsQuotable(d, index) && quoted == Quote(d, index)
    ensures ReadClause(d, "DROP INDEX " + quoted) == Some(DropsIndex(index))
  {
    AfterVerb("DROP INDEX ", quoted);
    WholeNameReads(d, quoted, index);
    DropIndexSaid(d, "DROP INDEX " + quoted, index);
  }

  lemma {:induction false} DropIndexReads(d: Dialect, index: string)
    requires IsQuotable(d, index)
    ensures ReadClause(d, ClauseText(d, DropIndexClause(index))) == Some(DropsIndex(index))
  {
    DropIndexIs(d, index, Quote(d, index));
  }

  lemma {:induction false} ModifyReads(d: Dialect, name: string, newType: string)
    requires IsQuotable(d, name)
    ensures ReadClause(d, ClauseText(d, ModifyColumnClause(name, newType))) == Some(Modifies(name, newType))
  {
    var text := ClauseText(d, ModifyColumnClause(name, newType));
    var verb := if d.PostgreSQL? then "ALTER COLUMN " else "MODIFY COLUMN ";
    assert text == verb + (Quote(d, name) + (" " + newType));
    assert text[0] == verb[0] && text[1] == verb[1];
    assert text[|verb|..] == Quote(d, name) + (" " + newType);
    NameReads(d, name, " " + newType);
    assert (" " + newType)[1..] == newType;
  }

  lemma {:induction false} AddIndexGrouping(name: string, list: string)
    ensures "ADD INDEX " + name + " (" + list + ")" == "ADD INDEX " + (name + (" (" + (list + ")")))
  {
  }

  lemma {:induction false} AddIndexReads(d: Dialect, text: string, index: string, list: string, columns: seq<string>)
    requires IsQuotable(d, index) && ReadNames(d, list) == Some(columns)
    requires text == "ADD INDEX " + (Quote(d, index) + (" (" + list))
    ensures ReadClause(d, text) == Some(AddsIndex(index, columns))
  {
    assert text[4] == 'I' && text[0] == 'A' && text[1] == 'D';
    assert text[10..] == Quote(d, index) + (" (" + list);
    NameReads(d, index, " (" + list);
    assert (" (" + list)[2..] == list;
  }

  lemma {:induction false} IndexReads(d: Dialect, index: string, columns: seq<string>)
    requires IsQuotable(d, index) && forall i :: 0 <= i < |columns| ==> IsQuotable(d, columns[i])
    ensures ReadClause(d, ClauseText(d, AddIndexClause(index, columns))) == Some(AddsIndex(index, columns))
  {
    var list := Join(QuoteAll(d, columns), ", ") + ")";
    AddIndexGrouping(Quote(d, index), Join(QuoteAll(d, columns), ", "));
    NamesRead(d, columns);
    AddIndexReads(d, ClauseText(d, AddIndexClause(index, columns)), index, list, columns);
  }

  lemma {:induction false} AlterReads(d: Dialect, table: string, clause: string, told: Told, text: string)
    requires IsQuotable(d, table) && ReadClause(d, clause) == Some(told)
    requires text == "ALTER TABLE " + (Quote(d, table) + ("\n  " + clause)) + ";"
    ensures ReadStatement(d, text) == Some((table, told))
  {
    var rest := "\n  " + clause;
    assert text[12..|text| - 1] == Quote(d, table) + rest;
    NameReads(d, table, rest);
    assert rest[3..] == clause;
  }

  /** The text of a statement says which table it changes, and how. Statements that mean different things print
      different texts. */
  lemma {:induction false} StatementReadsBack(d: Dialect, table: string, c: Clause)
    requires IsQuotable(d, table) && QuotableClause(d, c)
    ensures ReadStatement(d, StatementText(d, Alter(table, c))) == Some((table, Meant(d, c)))
  {
    var clause := ClauseText(d, c);
    ClauseReadsBack(d, c);
    AlterReads(d, table, clause, Meant(d, c), "ALTER TABLE " + (Quote(d, table) + ("\n  " + clause)) + ";");
    StatementGrouped("ALTER TABLE ", Quote(d, table), "\n  ", clause, ";");
  }

  lemma {:induction false} StatementGrouped(a: string, b: string, c: string, e: string, f: string)
    ensures a + b + c + e + f == a + (b + (c + e)) + f
  {
  }

  /** A note is one line of comment that names the column, and no statement. */
  lemma {:induction false} NoteIsComment(d: Dialect, column: string)
    requires '\n' !in column
    ensures var text := StatementText(d, Note(column));
            "-- " <= text && '\n' !in text && Contains(text, column) && ReadStatement(d, text) == None
  {
    var text := StatementText(d, Note(column));
    var front := "-- 回滚列 ";
    assert text[0] == '-';
    assert text[|front|..|front| + |column|] == column;
    assert OccursAt(text, column, |front|);
  }

  lemma {:induction false} ScriptTextConcat(d: Dialect, a: seq<Statement>, b: seq<Statement>)
    ensures ScriptText(d, a + b) == ScriptText(d, a) + ScriptText(d, b)
    decreases |a|
  {
    if a == [] {
      assert a + b == b && "" + ScriptText(d, b) == ScriptText(d, b);
    } else {
      assert (a + b)[1..] == a[1..] + b && (a + b)[0] == a[0];
      ScriptTextConcat(d, a[1..], b);
      Regroup(StatementText(d, a[0]) + "\n", ScriptText(d, a[1..]), ScriptText(d, b));
    }
  }

  lemma {:induction false} OneOrNone(d: Dialect, s: seq<Statement>)
    requires |s| <= 1
    ensures ScriptText(d, s) == if s == [] then "" else StatementText(d, s[0]) + "\n"
  {
    if s != [] {
      assert s[1..] == [];
      assert StatementText(d, s[0]) + "\n" + "" == StatementText(d, s[0]) + "\n";
    }
  }

  lemma {:induction false} TextAppended(d: Dialect, header: string, done: seq<Statement>, s: seq<Statement>)
    requires |s| <= 1
    ensures header + ScriptText(d, done + s) ==
            if s == [] then header + ScriptText(d, done)
            else header + ScriptText(d, done) + (StatementText(d, s[0]) + "\n")
  {
    ScriptTextConcat(d, done, s);
    OneOrNone(d, s);
    Regroup(header, ScriptText(d, done), ScriptText(d, s));
    assert ScriptText(d, done) + "" == ScriptText(d, done);
  }

  lemma {:induction false} RollbackNext(ops: seq<Operation>, i: nat, done: seq<Statement>)
    requires i < |ops|
    ensures done + RollbackScript(ops[..i + 1]) == (done + Backward(ops[i])) + RollbackScript(ops[..i])
  {
    assert ops[..i + 1][..i] == ops[..i];
  }

  /** The builder: a list of operations that its methods append to. */
  class MigrationBuilder {
    const dialect: Dialect
    const header: string
    const rollbackHeader: string
    var operations: seq<Operation>

    constructor (dialect: Dialect, header: string, rollbackHeader: string)
      ensures this.dialect == dialect && this.header == header && this.rollbackHeader == rollbackHeader &&
              operations == []
    {
      this.dialect, this.header, this.rollbackHeader := dialect, header, rollbackHeader;
      operations := [];
    }

    /** AddColumn, DropColumn, ModifyColumn, AddIndex and DropIndex. */
    method Append(op: Operation)
      modifies this
      ensures operations == old(operations) + [op]
    {
      operations := operations + [op];
    }

    /** Build. */
    method Build() returns (sql: string)
      ensures sql == header + ScriptText(dialect, Script(operations))
    {
      sql := header;
      assert header + "" == header;
      for i := 0 to |operations|
        invariant sql == header + ScriptText(dialect, Script(operations[..i]))
      {
        var ops := operations[..i + 1];
        assert ops[..|ops| - 1] == operations[..i];
        var statements := Forward(operations[i]);
        TextAppended(dialect, header, Script(operations[..i]), statements);
        if statements != [] {
          sql := sql + (StatementText(dialect, statements[0]) + "\n");
        }
      }
      assert operations[..|operations|] == operations;
    }

    /** BuildRollback: the same loop from the end. */
    method BuildRollback() returns (sql: string)
      ensures sql == rollbackHeader + ScriptText(dialect, RollbackScript(operations))
    {
      sql := rollbackHeader;
      var i := |operations|;
      ghost var done: seq<Statement> := [];
      assert operations[..i] == operations;
      assert rollbackHeader + "" == rollbackHeader;
      while i > 0
        invariant 0 <= i <= |operations|
        invariant RollbackScript(operations) == done + RollbackScript(operations[..i])
        invariant sql == rollbackHeader + ScriptText(dialect, done)
      {
        i := i - 1;
        var statements := Backward(operations[i]);
        RollbackNext(operations, i, done);
        TextAppended(dialect, rollbackHeader, done, statements);
        if statements != [] {
          sql := sql + (StatementText(dialect, statements[0]) + "\n");
        }
        done := done + statements;
      }
      assert done + [] == done;
    }
  }

  // ---------------------------------------------------------------- schemas

  /** A table as the database keeps it: columns by name, and the columns of every index. */
  datatype TableState = TableState(columns: map<string, Column>, indexes: map<string, seq<string>>)

  type Schema = map<string, TableState>

  function Without(names: seq<string>, name: string): seq<string> {
    if names == [] then [] else (if names[0] == name then [] else [names[0]]) + Without(names[1..], name)
  }

  predicate Uses(t: TableState, name: string) {
    exists i :: i in t.indexes && name in t.indexes[i]
  }

  /** Dropping a column takes it out of the indexes, and an index that is left without columns goes too. */
  function DropFromIndexes(indexes: map<string, seq<string>>, name: string): map<string, seq<string>> {
    map i | i in indexes && Without(indexes[i], name) != [] :: Without(indexes[i], name)
  }

  predicate InColumns(t: TableState, names: seq<string>) {
    forall k :: 0 <= k < |names| ==> names[k] in t.columns
  }

  /** What a clause does to a table; None where the database refuses it. */
  function Apply(t: TableState, c: Clause): Option<TableState> {
    match c
    case AddColumnClause(column) =>
      if column.name in t.columns then None else Some(t.(columns := t.columns[column.name := column]))
    case DropColumnClause(name) =>
      if name !in t.columns then None
      else Some(TableState(t.columns - {name}, DropFromIndexes(t.indexes, name)))
    case ModifyColumnClause(name, newType) =>
      if name !in t.columns then None
      else Some(t.(columns := t.columns[name := t.columns[name].(sqlType := newType)]))
    case AddIndexClause(index, columns) =>
      if index in t.indexes || columns == [] || !InColumns(t, columns) then None
      else Some(t.(indexes := t.indexes[index := columns]))
    case DropIndexClause(index) =>
      if index !in t.indexes then None else Some(t.(indexes := t.indexes - {index}))
  }

  function Execute(schema: Schema, s: Statement): Option<Schema> {
    match s
    case Note(_) => Some(schema)
    case Alter(table, clause) =>
      if table !in schema then None
      else
        match Apply(schema[table], clause)
        case None => None
        case Some(t) => Some(schema[table := t])
  }

  /** A script runs statement by statement and fails with the first that fails. */
  function RunScript(schema: Schema, script: seq<Statement>): Option<Schema>
    decreases |script|
  {
    if script == [] then Some(schema)
    else
      match Execute(schema, script[0])
      case None => None
      case Some(next) => RunScript(next, script[1..])
  }

  lemma {:induction false} RunScriptConcat(schema: Schema, a: seq<Statement>, b: seq<Statement>)
    ensures RunScript(schema, a + b) ==
            match RunScript(schema, a) case None => None case Some(next) => RunScript(next, b)
    decreases |a|
  {
    if a == [] {
      assert a + b == b;
    } else {
      assert (a + b)[0] == a[0] && (a + b)[1..] == a[1..] + b;
      match Execute(schema, a[0])
      case None =>
      case Some(next) => RunScriptConcat(next, a[1..], b);
    }
  }

  lemma {:induction false} RunOne(schema: Schema, s: Statement)
    ensures RunScript(schema, [s]) == Execute(schema, s)
  {
    assert [s][1..] == [];
  }

  /** Every index is over columns that exist, and over at least one. */
  predicate TableOk(t: TableState) {
    forall i :: i in t.indexes ==> t.indexes[i] != [] && InColumns(t, t.indexes[i])
  }

  predicate SchemaOk(schema: Schema) {
    forall n :: n in schema ==> TableOk(schema[n])
  }

  lemma {:induction false} WithoutIs(names: seq<string>, name: string)
    ensures name !in Without(names, name)
    ensures forall x :: x in Without(names, name) ==> x in names
    ensures Without(names, name) == names <==> name !in names
  {
    if names != [] {
      WithoutIs(names[1..], name);
      var rest := Without(names[1..], name);
      assert names == [names[0]] + names[1..];
      if names[0] == name {
        assert name in names;
      } else if rest != names[1..] {
        assert Without(names, name)[1..] == rest;
      }
    }
  }

  lemma {:induction false} DropFromIndexesIs(t: TableState, name: string)
    requires TableOk(t)
    ensures DropFromIndexes(t.indexes, name) == t.indexes <==> !Uses(t, name)
  {
    var after := DropFromIndexes(t.indexes, name);
    forall i | i in t.indexes
      ensures Without(t.indexes[i], name) == t.indexes[i] <==> name !in t.indexes[i]
    {
      WithoutIs(t.indexes[i], name);
    }
    if !Uses(t, name) {
      forall i | i in t.indexes ensures i in after && after[i] == t.indexes[i] {
        assert name !in t.indexes[i];
      }
    }
  }

  lemma {:induction false} ApplyKeepsTableOk(t: TableState, c: Clause)
    requires TableOk(t) && Apply(t, c).Some?
    ensures TableOk(Apply(t, c).value)
  {
    var after := Apply(t, c).value;
    if c.DropColumnClause? {
      forall i | i in after.indexes ensures after.indexes[i] != [] && InColumns(after, after.indexes[i]) {
        WithoutIs(t.indexes[i], c.name);
        var left := after.indexes[i];
        forall k | 0 <= k < |left| ensures left[k] in after.columns {
          assert left[k] in t.indexes[i];
        }
      }
    } else {
      forall i | i in after.indexes ensures after.indexes[i] != [] && InColumns(after, after.indexes[i]) {
        if i in t.indexes {
          assert InColumns(t, t.indexes[i]);
        }
      }
    }
  }

  lemma {:induction false} ForwardKeepsSchemaOk(schema: Schema, op: Operation)
    requires SchemaOk(schema) && RunScript(schema, Forward(op)).Some?
    ensures SchemaOk(RunScript(schema, Forward(op)).value)
  {
    var script := Forward(op);
    if script != [] {
      RunOne(schema, script[0]);
      assert script == [script[0]];
      ApplyKeepsTableOk(schema[script[0].table], script[0].clause);
    }
  }

  // ---------------------------------------------------------------- rolling back

  /** When the rollback of one operation gives back the schema that the operation found. */
  predicate Reversible(schema: Schema, op: Operation) {
    match op
    case AddColumn(model, column) =>
      FindField(model.fields, column).Some? && FindField(model.fields, column).value.name == SnakeCase(column)
    case DropColumn(model, column) =>
      && model.table in schema && SnakeCase(column) in schema[model.table].columns
      && FindField(model.fields, column) == Some(schema[model.table].columns[SnakeCase(column)])
      && schema[model.table].columns[SnakeCase(column)].name == SnakeCase(column)
      && !Uses(schema[model.table], SnakeCase(column))
    case ModifyColumn(model, column, newType) =>
      && model.table in schema && SnakeCase(column) in schema[model.table].columns
      && schema[model.table].columns[SnakeCase(column)].sqlType == newType
    case AddIndex(_, _, _) => true
    case DropIndex(_, _) => false
  }

  lemma {:induction false} SchemaPut(schema: Schema, name: string, t: TableState, u: TableState)
    requires name in schema
    ensures schema[name := t][name := u] == schema <==> u == schema[name]
  {
    if u == schema[name] {
      assert schema[name := t][name := u] == schema;
    } else {
      assert schema[name := t][name := u][name] == u;
    }
  }

  /** One clause, and then another on the same table. */
  lemma {:induction false} Back(schema: Schema, table: string, c: Clause, b: Clause)
    requires table in schema && Apply(schema[table], c).Some?
    ensures Execute(schema[table := Apply(schema[table], c).value], Alter(table, b)) == Some(schema) <==>
            Apply(Apply(schema[table], c).value, b) == Some(schema[table])
  {
    var t := Apply(schema[table], c).value;
    match Apply(t, b)
    case None =>
    case Some(u) => SchemaPut(schema, table, t, u);
  }

  lemma {:induction false} AddThenDrop(t: TableState, c: Column, name: string)
    requires TableOk(t) && c.name !in t.columns
    ensures Apply(t.(columns := t.columns[c.name := c]), DropColumnClause(name)) == Some(t) <==> name == c.name
  {
    var added := t.(columns := t.columns[c.name := c]);
    if name == c.name {
      DropFromIndexesIs(t, name);
      assert added.columns - {name} == t.columns;
    } else if name in added.columns {
      assert c.name in added.columns - {name};
    }
  }

  lemma {:induction false} DropThenAdd(t: TableState, name: string, c: Column)
    requires TableOk(t) && name in t.columns
    ensures Apply(TableState(t.columns - {name}, DropFromIndexes(t.indexes, name)), AddColumnClause(c)) == Some(t) <==>
            c.name == name && t.columns[name] == c && !Uses(t, name)
  {
    DropFromIndexesIs(t, name);
    var dropped := t.columns - {name};
    if c.name == name {
      assert dropped[name := c] == t.columns <==> t.columns[name] == c;
    } else if c.name !in dropped {
      assert name !in dropped[c.name := c];
    }
  }

  /** The rollback of an operation restores the schema exactly when the operation is reversible there. */
  lemma {:induction false} RollbackOfOne(schema: Schema, op: Operation)
    requires SchemaOk(schema) && RunScript(schema, Forward(op)).Some?
    ensures RunScript(RunScript(schema, Forward(op)).value, Backward(op)) == Some(schema) <==> Reversible(schema, op)
  {
    match op
    case AddColumn(model, column) => RollbackOfAdd(schema, model, column);
    case DropColumn(model, column) => RollbackOfDrop(schema, model, column);
    case ModifyColumn(model, column, newType) => RollbackOfModify(schema, model, column, newType);
    case AddIndex(model, index, columns) => RollbackOfIndex(schema, model, index, columns);
    case DropIndex(model, index) => RollbackOfDropIndex(schema, model, index);
  }

  lemma {:induction false} RollbackOfAdd(schema: Schema, model: Model, column: string)
    requires SchemaOk(schema) && RunScript(schema, Forward(AddColumn(model, column))).Some?
    ensures var op := AddColumn(model, column);
            RunScript(RunScript(schema, Forward(op)).value, Backward(op)) == Some(schema) <==> Reversible(schema, op)
  {
    var name := SnakeCase(column);
    var drop := Alter(model.table, DropColumnClause(name));
    match FindField(model.fields, column)
    case None =>
      RunOne(schema, drop);
      if model.table in schema && name in schema[model.table].columns {
        var t := schema[model.table];
        assert name !in (t.columns - {name});
      }
    case Some(c) =>
      var add := AddColumnClause(c);
      RunOne(schema, Alter(model.table, add));
      var t := schema[model.table];
      assert TableOk(t);
      RunOne(schema[model.table := Apply(t, add).value], drop);
      Back(schema, model.table, add, DropColumnClause(name));
      AddThenDrop(t, c, name);
  }

  lemma {:induction false} RollbackOfDrop(schema: Schema, model: Model, column: string)
    requires SchemaOk(schema) && RunScript(schema, Forward(DropColumn(model, column))).Some?
    ensures var op := DropColumn(model, column);
            RunScript(RunScript(schema, Forward(op)).value, Backward(op)) == Some(schema) <==> Reversible(schema, op)
  {
    var name := SnakeCase(column);
    var drop := DropColumnClause(name);
    RunOne(schema, Alter(model.table, drop));
    var t := schema[model.table];
    assert TableOk(t);
    var dropped := Apply(t, drop).value;
    var after := schema[model.table := dropped];
    match FindField(model.fields, column)
    case None =>
      assert name !in after[model.table].columns;
    case Some(c) =>
      RunOne(after, Alter(model.table, AddColumnClause(c)));
      Back(schema, model.table, drop, AddColumnClause(c));
      DropThenAdd(t, name, c);
  }

  lemma {:induction false} RollbackOfModify(schema: Schema, model: Model, column: string, newType: string)
    requires RunScript(schema, Forward(ModifyColumn(model, column, newType))).Some?
    ensures var op := ModifyColumn(model, column, newType);
            RunScript(RunScript(schema, Forward(op)).value, Backward(op)) == Some(schema) <==> Reversible(schema, op)
  {
    var name := SnakeCase(column);
    RunOne(schema, Alter(model.table, ModifyColumnClause(name, newType)));
    var t := schema[model.table];
    var after := schema[model.table := t.(columns := t.columns[name := t.columns[name].(sqlType := newType)])];
    RunOne(after, Note(column));
    if t.columns[name].sqlType == newType {
      assert t.columns[name := t.columns[name].(sqlType := newType)] == t.columns;
      assert after == schema;
    } else {
      assert after[model.table].columns[name] != schema[model.table].columns[name];
    }
  }

  lemma {:induction false} RollbackOfIndex(schema: Schema, model: Model, index: string, columns: seq<string>)
    requires RunScript(schema, Forward(AddIndex(model, index, columns))).Some?
    ensures var op := AddIndex(model, index, columns);
            RunScript(RunScript(schema, Forward(op)).value, Backward(op)) == Some(schema)
  {
    var add := AddIndexClause(index, Snakes(columns));
    RunOne(schema, Alter(model.table, add));
    var t := schema[model.table];
    RunOne(schema[model.table := Apply(t, add).value], Alter(model.table, DropIndexClause(index)));
    Back(schema, model.table, add, DropIndexClause(index));
    assert t.indexes[index := Snakes(columns)] - {index} == t.indexes;
  }

  lemma {:induction false} RollbackOfDropIndex(schema: Schema, model: Model, index: string)
    requires RunScript(schema, Forward(DropIndex(model, index))).Some?
    ensures var op := DropIndex(model, index);
            RunScript(RunScript(schema, Forward(op)).value, Backward(op)) == None
  {
    RunOne(schema, Alter(model.table, DropIndexClause(index)));
    RunOne(RunScript(schema, Forward(DropIndex(model, index))).value, Alter(model.table, AddIndexClause(index, [])));
  }

  /** A table with one column and an index on it. */
  function Users(column: Column): Schema {
    map["users" := TableState(map[column.name := column], map["by_name" := [column.name]])]
  }

  /** Two migrations that their rollbacks do not undo: a changed type stays changed, and the statement that would bring
      a dropped index back names no columns, so that the database refuses it. */
  lemma {:induction false} RollbackAtWork(column: Column, newType: string)
    requires SnakeCase(column.name) == column.name && newType != column.sqlType
    ensures SchemaOk(Users(column))
    ensures var op := ModifyColumn(Model("users", []), column.name, newType);
            && RunScript(Users(column), Forward(op)).Some?
            && RunScript(RunScript(Users(column), Forward(op)).value, Backward(op)) ==
               Some(Users(column)["users" := TableState(map[column.name := column.(sqlType := newType)],
                                                        map["by_name" := [column.name]])])
    ensures var op := DropIndex(Model("users", []), "by_name");
            && RunScript(Users(column), Forward(op)).Some?
            && RunScript(RunScript(Users(column), Forward(op)).value, Backward(op)) == None
  {
    var schema, name := Users(column), column.name;
    RunOne(schema, Alter("users", ModifyColumnClause(name, newType)));
    var changed := TableState(map[name := column.(sqlType := newType)], map["by_name" := [name]]);
    assert schema["users"].columns[name := column.(sqlType := newType)] == changed.columns;
    RunOne(schema["users" := changed], Note(name));
    RunOne(schema, Alter("users", DropIndexClause("by_name")));
    RollbackOfDropIndex(schema, Model("users", []), "by_name");
  }

  /** Every operation runs, and is reversible in the schema that it finds. */
  predicate AllReversible(schema: Schema, ops: seq<Operation>)
    decreases |ops|
  {
    ops == [] ||
    (Reversible(schema, ops[0]) && RunScript(schema, Forward(ops[0])).Some? &&
     AllReversible(RunScript(schema, Forward(ops[0])).value, ops[1..]))
  }

  lemma {:induction false} ScriptSnoc(init: seq<Operation>, last: Operation)
    ensures Script(init + [last]) == Script(init) + Forward(last)
    ensures RollbackScript(init + [last]) == Backward(last) + RollbackScript(init)
  {
    assert (init + [last])[..|init|] == init;
  }

  lemma {:induction false} Grouped(a: seq<Statement>, b: seq<Statement>, c: seq<Statement>)
    ensures (a + b) + c == a + (b + c)
  {
  }

  lemma {:induction false} OpsGrouped(op: Operation, ops: seq<Operation>, init: seq<Operation>, last: Operation)
    requires ops == init + [last]
    ensures [op] + ops == ([op] + init) + [last]
  {
  }

  lemma {:induction false} ConsSnoc(op: Operation, ops: seq<Operation>, init: seq<Operation>, last: Operation)
    requires ops == init + [last] && Script([op] + init) == Forward(op) + Script(init)
    ensures Script([op] + ops) == Forward(op) + Script(ops)
  {
    OpsGrouped(op, ops, init, last);
    ScriptSnoc([op] + init, last);
    ScriptSnoc(init, last);
    Grouped(Forward(op), Script(init), Forward(last));
  }

  lemma {:induction false} ConsSnocBack(op: Operation, ops: seq<Operation>, init: seq<Operation>, last: Operation)
    requires ops == init + [last] && RollbackScript([op] + init) == RollbackScript(init) + Backward(op)
    ensures RollbackScript([op] + ops) == RollbackScript(ops) + Backward(op)
  {
    OpsGrouped(op, ops, init, last);
    ScriptSnoc([op] + init, last);
    ScriptSnoc(init, last);
    Grouped(Backward(last), RollbackScript(init), Backward(op));
  }

  lemma {:induction false} ScriptConsNone(op: Operation, ops: seq<Operation>)
    requires ops == []
    ensures Script([op] + ops) == Forward(op) + Script(ops)
    ensures RollbackScript([op] + ops) == RollbackScript(ops) + Backward(op)
  {
    assert [op] + ops == [] + [op];
    ScriptSnoc([], op);
  }

  lemma {:induction false} InitLast(ops: seq<Operation>) returns (init: seq<Operation>, last: Operation)
    requires ops != []
    ensures ops == init + [last] && |init| < |ops|
  {
    init, last := ops[..|ops| - 1], ops[|ops| - 1];
  }

  lemma {:induction false} ScriptCons(op: Operation, ops: seq<Operation>)
    ensures Script([op] + ops) == Forward(op) + Script(ops)
    ensures RollbackScript([op] + ops) == RollbackScript(ops) + Backward(op)
    decreases |ops|
  {
    if ops == [] {
      ScriptConsNone(op, ops);
    } else {
      var init, last := InitLast(ops);
      ScriptCons(op, init);
      ConsSnoc(op, ops, init, last);
      ConsSnocBack(op, ops, init, last);
    }
  }

  /** A migration and then its rollback restore the schema, whatever the list of operations, as long as each is
      reversible when it is applied. */
  lemma {:induction false} RollbackRestores(schema: Schema, ops: seq<Operation>)
    requires SchemaOk(schema) && AllReversible(schema, ops)
    ensures RunScript(schema, Script(ops)).Some?
    ensures RunScript(RunScript(schema, Script(ops)).value, RollbackScript(ops)) == Some(schema)
    decreases |ops|
  {
    if ops != [] {
      var op, rest := ops[0], ops[1..];
      assert ops == [op] + rest;
      ScriptCons(op, rest);
      var next := RunScript(schema, Forward(op)).value;
      ForwardKeepsSchemaOk(schema, op);
      RollbackRestores(next, rest);
      RollbackOfOne(schema, op);
      RunScriptConcat(schema, Forward(op), Script(rest));
      RunScriptConcat(RunScript(schema, Script(ops)).value, RollbackScript(rest), Backward(op));
    }
  }
}
