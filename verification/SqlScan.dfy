/** The character scanners of the DDL parser: matching parentheses outside quotes, splitting at top-level
    commas, and the escaping of string literals. */
module SqlScan {
  import opened Text

  // ---------------------------------------------------------------- the parenthesis scanner

  datatype QuoteState = Outside | Inside(mark: char)

  datatype Scan = Scan(depth: int, quote: QuoteState, escaped: bool)

  function Step(s: Scan, ch: char): Scan {
    match s.quote
    case Inside(mark) =>
      if s.escaped then s.(escaped := false)
      else if ch == '\\' then s.(escaped := true)
      else if ch == mark then s.(quote := Outside)
      else s
    case Outside =>
      if ch == '\'' || ch == '"' then s.(quote := Inside(ch))
      else if ch == '(' then s.(depth := s.depth + 1)
      else if ch == ')' then s.(depth := s.depth - 1)
      else s
  }

  /** The character that closes the parenthesis being matched. */
  predicate Closes(s: Scan, ch: char) {
    s.quote.Outside? && ch == ')' && s.depth == 1
  }

  function Run(s: Scan, text: string): Scan
    decreases |text|
  {
    if text == "" then s else Run(Step(s, text[0]), text[1..])
  }

  /** The scanner passes the text without finding the closing parenthesis. */
  predicate Quiet(s: Scan, text: string)
    decreases |text|
  {
    text == "" || (!Closes(s, text[0]) && Quiet(Step(s, text[0]), text[1..]))
  }

  /** The offset in the text at which the scanner stops, if it does. */
  function Stop(s: Scan, text: string): (r: Option<nat>)
    ensures r.Some? ==> r.value < |text| && text[r.value] == ')'
    decreases |text|
  {
    if text == "" then None
    else if Closes(s, text[0]) then Some(0)
    else
      match Stop(Step(s, text[0]), text[1..])
      case None => None
      case Some(i) => Some(i + 1)
  }

  const START := Scan(0, Outside, false)

  /** findMatchingParen as a function of the text after the opening index. */
  function MatchingParen(input: string, open: int): int {
    if open < 0 || open >= |input| || input[open] != '(' then -1
    else
      match Stop(START, input[open..])
      case None => -1
      case Some(i) => open + i
  }

  /** findMatchingParen: one pass with a depth, a quote mark and an escape flag. */
  method FindMatchingParen(input: string, openIndex: int) returns (r: int)
    ensures r == MatchingParen(input, openIndex)
  {
    if openIndex < 0 || openIndex >= |input| || input[openIndex] != '(' {
      return -1;
    }
    var depth := 0;
    var inQuote: Option<char> := None;
    var escaped := false;
    ghost var s := START;
    for idx := openIndex to |input|
      invariant s == Scan(depth, if inQuote.Some? then Inside(inQuote.value) else Outside, escaped)
      invariant match Stop(s, input[idx..])
                case None => MatchingParen(input, openIndex) == -1
                case Some(i) => MatchingParen(input, openIndex) == idx + i
    {
      var ch := input[idx];
      assert input[idx..][1..] == input[idx + 1..];
      assert input[idx..][0] == ch;
      s := Step(s, ch);
      if inQuote.Some? {
        if escaped {
          escaped := false;
          continue;
        }
        if ch == '\\' {
          escaped := true;
          continue;
        }
        if ch == inQuote.value {
          inQuote := None;
        }
        continue;
      }
      if ch == '\'' || ch == '"' {
        inQuote := Some(ch);
      } else if ch == '(' {
        depth := depth + 1;
      } else if ch == ')' {
        depth := depth - 1;
        if depth == 0 {
          return idx;
        }
      }
    }
    assert input[|input|..] == "";
    return -1;
  }

  lemma {:induction false} RunConcat(s: Scan, a: string, b: string)
    ensures Run(s, a + b) == Run(Run(s, a), b)
    decreases |a|
  {
    if a == "" {
      assert a + b == b;
    } else {
      AppendTail(a, b);
      RunConcat(Step(s, a[0]), a[1..], b);
    }
  }

  lemma {:induction false} QuietConcat(s: Scan, a: string, b: string)
    ensures Quiet(s, a + b) <==> Quiet(s, a) && Quiet(Run(s, a), b)
    decreases |a|
  {
    if a == "" {
      assert a + b == b;
    } else {
      AppendTail(a, b);
      QuietConcat(Step(s, a[0]), a[1..], b);
    }
  }

  /** The scanner stops right after a quiet text that brings it to a closing parenthesis. */
  lemma {:induction false} StopAfterQuiet(s: Scan, a: string, rest: string)
    requires Quiet(s, a) && rest != "" && Closes(Run(s, a), rest[0])
    ensures Stop(s, a + rest) == Some(|a|)
    decreases |a|
  {
    if a == "" {
      assert a + rest == rest;
    } else {
      AppendTail(a, rest);
      StopAfterQuiet(Step(s, a[0]), a[1..], rest);
    }
  }

  /** Where the scanner stops, the text before is quiet and the text after does not matter. */
  lemma {:induction false} StopSplits(s: Scan, text: string)
    requires Stop(s, text).Some?
    ensures var i := Stop(s, text).value;
            Quiet(s, text[..i]) && Closes(Run(s, text[..i]), text[i])
    decreases |text|
  {
    if !Closes(s, text[0]) {
      StopSplits(Step(s, text[0]), text[1..]);
      var i := Stop(s, text).value;
      assert text[..i][1..] == text[1..][..i - 1];
    }
  }

  // ---------------------------------------------------------------- string literals

  /** strings.ReplaceAll of one character by a text. */
  function ReplaceChar(s: string, c: char, with: string): string {
    if s == "" then "" else (if s[0] == c then with else [s[0]]) + ReplaceChar(s[1..], c, with)
  }

  /** escapeString: two replacements, one after the other. */
  function EscapeString(s: string): string {
    ReplaceChar(ReplaceChar(s, '\'', "''"), '\\', "\\\\")
  }

  predicate IsSpecial(c: char) {
    c == '\'' || c == '\\'
  }

  /** Every special character doubled, in one pass. */
  function Doubled(s: string): string {
    if s == "" then "" else (if IsSpecial(s[0]) then [s[0], s[0]] else [s[0]]) + Doubled(s[1..])
  }

  /** Every doubled special character halved. */
  function Halved(s: string): string {
    if s == "" then ""
    else if |s| > 1 && IsSpecial(s[0]) && s[1] == s[0] then [s[0]] + Halved(s[2..])
    else [s[0]] + Halved(s[1..])
  }

  lemma {:induction false} ReplaceCharConcat(a: string, b: string, c: char, with: string)
    ensures ReplaceChar(a + b, c, with) == ReplaceChar(a, c, with) + ReplaceChar(b, c, with)
    decreases |a|
  {
    if a == "" {
      assert a + b == b;
    } else {
      AppendTail(a, b);
      ReplaceCharConcat(a[1..], b, c, with);
    }
  }

  /** The two replacements do not disturb each other: they double every special character once. */
  lemma {:induction false} EscapeIsDoubling(s: string)
    ensures EscapeString(s) == Doubled(s)
  {
    if s != "" {
      EscapeIsDoubling(s[1..]);
      var head := if s[0] == '\'' then "''" else [s[0]];
      ReplaceCharConcat(head, ReplaceChar(s[1..], '\'', "''"), '\\', "\\\\");
      assert s[0] == '\'' ==> "''" == ['\'', '\''] && "''"[1..] == "'";
      assert ReplaceChar(head, '\\', "\\\\") == if IsSpecial(s[0]) then [s[0], s[0]] else [s[0]];
    }
  }

  lemma {:induction false} HalvedDoubled(s: string)
    ensures Halved(Doubled(s)) == s
  {
    if s != "" {
      HalvedDoubled(s[1..]);
      var d := Doubled(s);
      if IsSpecial(s[0]) {
        assert d[2..] == Doubled(s[1..]);
      } else {
        assert d[1..] == Doubled(s[1..]);
      }
    }
  }

  /** Escaping is undone by halving. */
  lemma {:induction false} UnescapeEscaped(s: string)
    ensures Halved(EscapeString(s)) == s
  {
    EscapeIsDoubling(s);
    HalvedDoubled(s);
  }

  lemma {:induction false} DoubledStaysInside(s: string, depth: int)
    ensures Quiet(Scan(depth, Inside('\''), false), Doubled(s))
    ensures Run(Scan(depth, Inside('\''), false), Doubled(s)) == Scan(depth, Inside('\''), false)
  {
    if s != "" {
      var inside := Scan(depth, Inside('\''), false);
      var head := if IsSpecial(s[0]) then [s[0], s[0]] else [s[0]];
      DoubledStaysInside(s[1..], depth);
      QuietConcat(inside, head, Doubled(s[1..]));
      RunConcat(inside, head, Doubled(s[1..]));
      if IsSpecial(s[0]) {
        assert head[1..] == [s[0]];
        if s[0] == '\'' {
          assert Step(inside, '\'') == Scan(depth, Outside, false);
        } else {
          assert Step(inside, '\\') == Scan(depth, Inside('\''), true);
        }
      }
    }
  }

  /** A quoted literal is transparent to the scanner: whatever the string, the scanner enters and leaves it
      outside quotes, at the same depth, and never stops inside. */
  lemma {:induction false} LiteralIsTransparent(s: string, depth: int)
    ensures var literal := "'" + EscapeString(s) + "'";
            var outside := Scan(depth, Outside, false);
            Quiet(outside, literal) && Run(outside, literal) == outside
  {
    EscapeIsDoubling(s);
    DoubledStaysInside(s, depth);
    var outside, inside := Scan(depth, Outside, false), Scan(depth, Inside('\''), false);
    assert Run(outside, "'") == inside && Quiet(outside, "'");
    assert Run(inside, "'") == outside && Quiet(inside, "'");
    RunConcat(outside, "'", Doubled(s));
    QuietConcat(outside, "'", Doubled(s));
    RunConcat(outside, "'" + Doubled(s), "'");
    QuietConcat(outside, "'" + Doubled(s), "'");
  }

  // ---------------------------------------------------------------- splitting at top-level commas

  function Depth(depth: int, ch: char): int {
    if ch == '(' then depth + 1 else if ch == ')' then depth - 1 else depth
  }

  function DepthAfter(depth: int, text: string): int
    decreases |text|
  {
    if text == "" then depth else DepthAfter(Depth(depth, text[0]), text[1..])
  }

  /** The pieces between commas at depth zero; a piece that is empty at the very end is dropped. */
  function SplitTop(text: string, depth: int, current: string): seq<string> {
    if text == "" then if current == "" then [] else [current]
    else if text[0] == ',' && depth == 0 then [current] + SplitTop(text[1..], depth, "")
    else SplitTop(text[1..], Depth(depth, text[0]), current + [text[0]])
  }

  /** splitColumns: one pass with a depth and a builder. */
  method SplitColumns(body: string) returns (result: seq<string>)
    ensures result == SplitTop(body, 0, "")
  {
    result := [];
    var current := "";
    var depth := 0;
    for i := 0 to |body|
      invariant SplitTop(body, 0, "") == result + SplitTop(body[i..], depth, current)
    {
      var ch := body[i];
      assert body[i..][0] == ch && body[i..][1..] == body[i + 1..];
      if ch == '(' {
        depth := depth + 1;
        current := current + [ch];
      } else if ch == ')' {
        depth := depth - 1;
        current := current + [ch];
      } else if ch == ',' && depth == 0 {
        result := result + [current];
        current := "";
      } else {
        current := current + [ch];
      }
    }
    assert body[|body|..] == "";
    if |current| > 0 {
      result := result + [current];
    }
  }

  /** No comma of the text stands at depth zero. */
  predicate NoTopComma(depth: int, text: string)
    decreases |text|
  {
    text == "" || (!(text[0] == ',' && depth == 0) && NoTopComma(Depth(depth, text[0]), text[1..]))
  }

  /** A piece that splitting must not cut: balanced, with no comma at depth zero. */
  predicate Whole(piece: string) {
    DepthAfter(0, piece) == 0 && NoTopComma(0, piece)
  }

  lemma {:induction false} SplitTopPiece(piece: string, rest: string, depth: int, current: string)
    requires NoTopComma(depth, piece)
    ensures SplitTop(piece + rest, depth, current) == SplitTop(rest, DepthAfter(depth, piece), current + piece)
    decreases |piece|
  {
    if piece == "" {
      assert piece + rest == rest && current + piece == current;
    } else {
      AppendTail(piece, rest);
      SplitTopPiece(piece[1..], rest, Depth(depth, piece[0]), current + [piece[0]]);
      assert current + [piece[0]] + piece[1..] == current + piece;
    }
  }

  /** Splitting undoes joining, for any pieces that may stand between commas, as long as the last one is not
      empty; an empty last piece is lost. */
  lemma {:induction false} SplitOfJoin(pieces: seq<string>)
    requires forall i :: 0 <= i < |pieces| ==> Whole(pieces[i])
    ensures SplitTop(Join(pieces, ","), 0, "") == pieces <==> pieces == [] || pieces[|pieces| - 1] != ""
  {
    if pieces != [] {
      SplitOfJoinPieces(pieces);
      var n := |pieces| - 1;
      assert pieces == pieces[..n] + [pieces[n]];
    }
  }

  lemma {:induction false} SplitOfJoinPieces(pieces: seq<string>)
    requires pieces != [] && forall i :: 0 <= i < |pieces| ==> Whole(pieces[i])
    ensures SplitTop(Join(pieces, ","), 0, "") ==
            if pieces[|pieces| - 1] == "" then pieces[..|pieces| - 1] else pieces
  {
    var head := pieces[0];
    if |pieces| == 1 {
      SplitTopPiece(head, "", 0, "");
      assert head + "" == head && "" + head == head;
      if head != "" {
        assert pieces == [head];
      }
    } else {
      var rest := pieces[1..];
      var tail := "," + Join(rest, ",");
      SplitTopPiece(head, tail, 0, "");
      assert Join(pieces, ",") == head + tail;
      assert "" + head == head;
      assert tail[1..] == Join(rest, ",");
      SplitOfJoinPieces(rest);
      assert pieces == [head] + rest;
      assert pieces[..|pieces| - 1] == [head] + rest[..|rest| - 1];
    }
  }

  /** The text ends with a comma at depth zero. */
  predicate EndsInTopComma(text: string, depth: int) {
    text != "" &&
    if |text| == 1 then text[0] == ',' && depth == 0
    else EndsInTopComma(text[1..], Depth(depth, text[0]))
  }

  /** What joining gives back: the text, short of a final top-level comma. */
  function Rejoined(text: string, depth: int): string {
    if EndsInTopComma(text, depth) then text[..|text| - 1] else text
  }

  lemma {:induction false} SplitTopEmpty(text: string, depth: int, current: string)
    ensures SplitTop(text, depth, current) == [] <==> current == "" && text == ""
    decreases |text|
  {
    if text != "" && !(text[0] == ',' && depth == 0) {
      SplitTopEmpty(text[1..], Depth(depth, text[0]), current + [text[0]]);
    }
  }

  lemma {:induction false} JoinCons(head: string, rest: seq<string>)
    ensures Join([head] + rest, ",") == if rest == [] then head else head + "," + Join(rest, ",")
  {
    assert ([head] + rest)[1..] == rest;
  }

  lemma {:induction false} JoinAtComma(current: string, rest: seq<string>, text: string, back: string)
    requires text != "" && text[0] == ',' && back == Rejoined(text[1..], 0)
    requires Join(rest, ",") == back && (rest == [] <==> text[1..] == "")
    ensures Join([current] + rest, ",") == current + Rejoined(text, 0)
  {
    JoinCons(current, rest);
    if |text| > 1 {
      RejoinedTail(text, 0);
      assert current + "," + back == current + ("," + back);
    } else {
      assert Rejoined(text, 0) == "";
    }
  }

  lemma {:induction false} JoinOfSplitFrom(text: string, depth: int, current: string)
    ensures Join(SplitTop(text, depth, current), ",") == current + Rejoined(text, depth)
    decreases |text|
  {
    if text == "" {
      assert current + text == current;
    } else if text[0] == ',' && depth == 0 {
      JoinOfSplitFrom(text[1..], 0, "");
      SplitTopEmpty(text[1..], 0, "");
      var back := Rejoined(text[1..], 0);
      assert "" + back == back;
      JoinAtComma(current, SplitTop(text[1..], 0, ""), text, back);
    } else {
      var depth' := Depth(depth, text[0]);
      JoinOfSplitFrom(text[1..], depth', current + [text[0]]);
      RejoinedTail(text, depth);
      Regroup(current, [text[0]], Rejoined(text[1..], depth'));
    }
  }

  lemma {:induction false} RejoinedTail(text: string, depth: int)
    requires text != "" && (|text| > 1 || !EndsInTopComma(text, depth))
    ensures Rejoined(text, depth) == [text[0]] + Rejoined(text[1..], Depth(depth, text[0]))
  {
    assert text == [text[0]] + text[1..];
    if |text| > 1 && EndsInTopComma(text, depth) {
      assert text[..|text| - 1] == [text[0]] + text[1..][..|text| - 2];
    }
  }

  /** Joining undoes splitting exactly for the bodies that do not end in a top-level comma. */
  lemma {:induction false} JoinOfSplit(body: string)
    ensures Join(SplitTop(body, 0, ""), ",") == body <==> !EndsInTopComma(body, 0)
  {
    JoinOfSplitFrom(body, 0, "");
    assert "" + Rejoined(body, 0) == Rejoined(body, 0);
    if EndsInTopComma(body, 0) {
      assert |Rejoined(body, 0)| < |body|;
    }
  }
}
