/** Names in quotes, alone and in lists, read back from the text that they are printed in. */
module SqlNames {
  import opened Text
  import opened SqlDdl

  function OpenMark(d: Dialect): char {
    match d
    case MySQL => '`'
    case PostgreSQL => '"'
    case SQLite => '"'
    case SQLServer => '['
  }

  function CloseMark(d: Dialect): char {
    if d.SQLServer? then ']' else OpenMark(d)
  }

  /** The text behind a beginning that it must have. */
  function Behind(start: string, text: string): Option<string> {
    if start <= text then Some(text[|start|..]) else None
  }

  function UpTo(mark: char, text: string): Option<(string, string)> {
    if text == "" then None
    else if text[0] == mark then Some(("", text[1..]))
    else
      match UpTo(mark, text[1..])
      case None => None
      case Some((name, rest)) => Some(([text[0]] + name, rest))
  }

  /** A quoted name, and what follows it. */
  function ReadQuoted(d: Dialect, text: string): (r: Option<(string, string)>)
    ensures r.Some? ==> |r.value.1| < |text|
  {
    if text == "" || text[0] != OpenMark(d) then None
    else
      var r := UpTo(CloseMark(d), text[1..]);
      UpToShortens(CloseMark(d), text[1..]);
      r
  }

  lemma {:induction false} UpToShortens(mark: char, text: string)
    ensures UpTo(mark, text).Some? ==> |UpTo(mark, text).value.1| < |text|
  {
    if text != "" && text[0] != mark {
      UpToShortens(mark, text[1..]);
    }
  }

  /** Quoted names with commas between them, up to the closing parenthesis. */
  function ReadNames(d: Dialect, text: string): Option<seq<string>>
    decreases |text|
  {
    if text == ")" then Some([])
    else
      match ReadQuoted(d, text)
      case None => None
      case Some((name, rest)) =>
        if rest == ")" then Some([name])
        else if !(", " <= rest) || rest[2..] == ")" then None
        else
          match ReadNames(d, rest[2..])
          case None => None
          case Some(names) => Some([name] + names)
  }

  /** A name that its closing mark cannot end early. */
  predicate IsQuotable(d: Dialect, name: string) {
    CloseMark(d) !in name
  }

  lemma {:induction false} UpToMark(mark: char, name: string, rest: string)
    requires mark !in name
    ensures UpTo(mark, name + [mark] + rest) == Some((name, rest))
  {
    var text := name + [mark] + rest;
    if name == "" {
      assert text == [mark] + rest && text[1..] == rest;
    } else {
      assert text[1..] == name[1..] + [mark] + rest;
      UpToMark(mark, name[1..], rest);
      assert [name[0]] + name[1..] == name;
    }
  }

  lemma {:induction false} NameReads(d: Dialect, name: string, rest: string)
    requires IsQuotable(d, name)
    ensures ReadQuoted(d, Quote(d, name) + rest) == Some((name, rest))
  {
    var text := Quote(d, name) + rest;
    assert text[1..] == name + [CloseMark(d)] + rest;
    UpToMark(CloseMark(d), name, rest);
  }

  lemma {:induction false} OneNameReads(d: Dialect, name: string)
    requires IsQuotable(d, name)
    ensures ReadNames(d, Quote(d, name) + ")") == Some([name])
  {
    NameReads(d, name, ")");
    OtherThanClose(d, name, ")");
  }

  lemma {:induction false} MoreNamesRead(d: Dialect, name: string, list: string, names: seq<string>)
    requires IsQuotable(d, name) && list != ")" && ReadNames(d, list) == Some(names)
    ensures ReadNames(d, Quote(d, name) + (", " + list)) == Some([name] + names)
  {
    NameReads(d, name, ", " + list);
    OtherThanClose(d, name, ", " + list);
    assert (", " + list)[2..] == list;
  }

  lemma {:induction false} NamesRead(d: Dialect, names: seq<string>)
    requires forall i :: 0 <= i < |names| ==> IsQuotable(d, names[i])
    ensures ReadNames(d, Join(QuoteAll(d, names), ", ") + ")") == Some(names)
  {
    if |names| == 0 {
      assert "" + ")" == ")";
    } else if |names| == 1 {
      OneNameReads(d, names[0]);
      assert names == [names[0]];
    } else {
      var quoted, rest := QuoteAll(d, names), names[1..];
      assert quoted[1..] == QuoteAll(d, rest);
      var list := Join(QuoteAll(d, rest), ", ") + ")";
      NamesRead(d, rest);
      ListBegins(d, rest);
      MoreNamesRead(d, names[0], list, rest);
      ListGrouping(quoted[0], Join(quoted[1..], ", "));
      assert [names[0]] + rest == names;
    }
  }

  lemma {:induction false} ListGrouping(head: string, rest: string)
    ensures head + ", " + rest + ")" == head + (", " + (rest + ")"))
  {
  }

  lemma {:induction false} OtherThanClose(d: Dialect, name: string, rest: string)
    ensures Quote(d, name) + rest != ")"
  {
    assert (Quote(d, name) + rest)[0] == OpenMark(d);
  }

  lemma {:induction false} ListBegins(d: Dialect, names: seq<string>)
    requires names != []
    ensures Join(QuoteAll(d, names), ", ") + ")" != ")"
  {
    var first := QuoteAll(d, names)[0];
    assert first[0] == OpenMark(d);
    assert (Join(QuoteAll(d, names), ", ") + ")")[0] == OpenMark(d);
  }
}
