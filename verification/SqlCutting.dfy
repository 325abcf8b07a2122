/** Cutting a script into statements, for any way of finding the headers. */
module SqlCutting {
  import opened Text
  import opened SqlScan

  /** Where a header starts and where its open parenthesis stands, in a text. */
  type Finder = string -> Option<(nat, nat)>

  predicate Fits(loc: Option<(nat, nat)>, s: string) {
    loc.Some? ==> loc.value.0 < loc.value.1 < |s| && s[loc.value.1] == '('
  }

  ghost predicate Proper(find: Finder) {
    forall s :: Fits(find(s), s)
  }

  /** The position after the first semicolon at or after a position, or the end. */
  function SemicolonEnd(input: string, i: nat): (end: nat)
    requires i <= |input|
    ensures i <= end <= |input|
    decreases |input| - i
  {
    if i == |input| then i else if input[i] == ';' then i + 1 else SemicolonEnd(input, i + 1)
  }

  /** It ends with the first semicolon from the position on, whether that is inside quotes or not, or else with the
      input. */
  lemma {:induction false} EndsAtSemicolon(input: string, i: nat)
    requires i <= |input|
    ensures var end := SemicolonEnd(input, i);
            if ';' in input[i..] then i < end && input[end - 1] == ';' && ';' !in input[i..end - 1]
            else end == |input|
    decreases |input| - i
  {
    if i < |input| {
      assert input[i..] == [input[i]] + input[i + 1..];
      if input[i] != ';' {
        EndsAtSemicolon(input, i + 1);
        var end := SemicolonEnd(input, i);
        if ';' in input[i + 1..] {
          assert input[i..end - 1] == [input[i]] + input[i + 1..end - 1];
        }
      }
    }
  }

  datatype Span = Span(start: nat, end: nat)

  /** The first statement at or after an offset. */
  function Next(find: Finder, input: string, offset: nat): (r: Option<Span>)
    requires offset <= |input|
    ensures Proper(find) && r.Some? ==> offset <= r.value.start < r.value.end <= |input|
  {
    match find(input[offset..])
    case None => None
    case Some((skip, open)) =>
      var close := MatchingParen(input, offset + open);
      if close < 0 then None else Some(Span(offset + skip, SemicolonEnd(input, close + 1)))
  }

  ghost function Spans(find: Finder, input: string, offset: nat): seq<Span>
    requires Proper(find) && offset <= |input|
    decreases |input| - offset
  {
    match Next(find, input, offset)
    case None => []
    case Some(span) => [span] + Spans(find, input, span.end)
  }

  predicate Within(span: Span, offset: nat, input: string) {
    offset <= span.start < span.end <= |input|
  }

  /** The spans lie in the input, are not empty, and each ends before the next one starts. */
  lemma {:induction false} SpansInOrder(find: Finder, input: string, offset: nat)
    requires Proper(find) && offset <= |input|
    ensures forall i :: 0 <= i < |Spans(find, input, offset)| ==> Within(Spans(find, input, offset)[i], offset, input)
    ensures forall i, j :: 0 <= i < j < |Spans(find, input, offset)| ==>
              Spans(find, input, offset)[i].end <= Spans(find, input, offset)[j].start
    decreases |input| - offset
  {
    var next := Next(find, input, offset);
    if next.Some? {
      var rest := Spans(find, input, next.value.end);
      SpansInOrder(find, input, next.value.end);
      assert Spans(find, input, offset) == [next.value] + rest;
      forall i | 0 <= i < |rest| ensures Within(rest[i], offset, input) && next.value.end <= rest[i].start {
        assert Within(rest[i], next.value.end, input);
      }
    }
  }

  function Slice(input: string, span: Span): string {
    if Within(span, 0, input) then input[span.start..span.end] else ""
  }

  function Slices(input: string, spans: seq<Span>): (r: seq<string>)
    ensures |r| == |spans| && forall i :: 0 <= i < |spans| ==> r[i] == Slice(input, spans[i])
  {
    seq(|spans|, i requires 0 <= i < |spans| => Slice(input, spans[i]))
  }

  /** The statements of a script. */
  ghost function Statements(find: Finder, input: string): seq<string>
    requires Proper(find)
  {
    Slices(input, Spans(find, input, 0))
  }

  /** One turn of the loop: the header, its parenthesis, and the end of the statement. */
  method FindNext(find: Finder, input: string, offset: nat) returns (r: Option<Span>)
    requires Proper(find) && offset <= |input|
    ensures r == Next(find, input, offset)
  {
    var loc := find(input[offset..]);
    assert Fits(loc, input[offset..]);
    if loc.None? {
      return None;
    }
    var start, openParen := offset + loc.value.0, offset + loc.value.1;
    var closeParen := FindMatchingParen(input, openParen);
    if closeParen < 0 {
      return None;
    }
    var end := closeParen + 1;
    while end < |input| && input[end] != ';'
      invariant closeParen < end <= |input|
      invariant SemicolonEnd(input, end) == SemicolonEnd(input, closeParen + 1)
    {
      end := end + 1;
    }
    if end < |input| && input[end] == ';' {
      end := end + 1;
    }
    return Some(Span(start, end));
  }

  /** findCreateTableStatements: a loop that moves an offset through the input. */
  method FindStatements(find: Finder, input: string) returns (results: seq<string>)
    requires Proper(find)
    ensures results == Statements(find, input)
  {
    results := [];
    var offset := 0;
    ghost var spans: seq<Span> := [];
    while offset < |input|
      invariant 0 <= offset <= |input|
      invariant Spans(find, input, 0) == spans + Spans(find, input, offset)
      invariant results == Slices(input, spans)
      decreases |input| - offset
    {
      var next := FindNext(find, input, offset);
      if next.None? {
        return;
      }
      SpansNext(find, input, offset, spans, next.value);
      results := results + [input[next.value.start..next.value.end]];
      spans := spans + [next.value];
      offset := next.value.end;
    }
    NoneAtEnd(find, input);
  }

  lemma {:induction false} SpansNext(find: Finder, input: string, offset: nat, spans: seq<Span>, span: Span)
    requires Proper(find) && offset <= |input| && Next(find, input, offset) == Some(span)
    ensures spans + Spans(find, input, offset) == (spans + [span]) + Spans(find, input, span.end)
    ensures Slices(input, spans + [span]) == Slices(input, spans) + [input[span.start..span.end]]
  {
    SpansGrouped(spans, span, Spans(find, input, span.end));
    SlicesSnoc(input, spans, span);
  }

  lemma {:induction false} SpansGrouped(a: seq<Span>, x: Span, b: seq<Span>)
    ensures a + ([x] + b) == (a + [x]) + b
  {
  }

  lemma {:induction false} SlicesSnoc(input: string, spans: seq<Span>, span: Span)
    requires span.start < span.end <= |input|
    ensures Slices(input, spans + [span]) == Slices(input, spans) + [input[span.start..span.end]]
  {
  }

  lemma {:induction false} NoneAtEnd(find: Finder, input: string)
    requires Proper(find)
    ensures Spans(find, input, |input|) == []
  {
    assert Fits(find(input[|input|..]), input[|input|..]);
  }

  // ---------------------------------------------------------------- statements in their place

  lemma {:induction false} SemicolonAfter(input: string, i: nat, before: string, more: string)
    requires i <= |input| && input[i..] == before + ";" + more && ';' !in before
    ensures SemicolonEnd(input, i) == i + |before| + 1
    decreases |before|
  {
    assert input[i] == input[i..][0];
    if before != "" {
      assert input[i + 1..] == input[i..][1..];
      assert (before + ";" + more)[1..] == before[1..] + ";" + more;
      SemicolonAfter(input, i + 1, before[1..], more);
    }
  }

  lemma {:induction false} NextAt(find: Finder, input: string, offset: nat, skip: nat, open: nat, rest: string, n: nat,
                                  span: Span)
    requires offset <= offset + open < |input| && find(input[offset..]) == Some((skip, open))
    requires input[offset + open..] == rest && rest[0] == '(' && Stop(START, rest) == Some(n)
    requires span.start == offset + skip && span.end == SemicolonEnd(input, offset + open + n + 1)
    ensures Next(find, input, offset) == Some(span)
  {
    assert input[offset + open] == rest[0];
  }

  /** A statement is cut out exactly: a header, a text that the scanner stops after, and an ending up to a
      semicolon. The slices of the input are given. */
  lemma {:induction false} NextPlaced(find: Finder, input: string, offset: nat, gap: string, head: string,
                                      inner: string, ending: string, more: string, after: string, span: Span)
    requires after == ending + ";" + more && ';' !in ending && offset + |gap| + |head| + |inner| <= |input|
    requires input[offset..] == gap + (head + (inner + after))
    requires input[offset + |gap| + |head|..] == inner + after
    requires input[offset + |gap| + |head| + |inner|..] == after
    requires find(gap + (head + (inner + after))) == Some((|gap|, |gap| + |head|))
    requires inner != "" && inner[0] == '(' && Stop(START, inner + after) == Some(|inner| - 1)
    requires span.start == offset + |gap| && span.end == offset + |gap| + |head| + |inner| + |ending| + 1
    ensures Next(find, input, offset) == Some(span)
  {
    var open, rest := |gap| + |head|, inner + after;
    SemicolonAfter(input, offset + open + |inner|, ending, more);
    assert rest[0] == '(';
    NextAt(find, input, offset, |gap|, open, rest, |inner| - 1, span);
  }

  lemma {:induction false} NextIs(find: Finder, input: string, pre: string, gap: string, head: string, inner: string,
                                  ending: string, more: string, after: string, span: Span)
    requires after == ending + ";" + more && ';' !in ending && input == pre + (gap + (head + (inner + after)))
    requires find(gap + (head + (inner + after))) == Some((|gap|, |gap| + |head|))
    requires inner != "" && inner[0] == '(' && Stop(START, inner + after) == Some(|inner| - 1)
    requires span.start == |pre| + |gap| && span.end == |pre| + |gap| + |head| + |inner| + |ending| + 1
    ensures Next(find, input, |pre|) == Some(span)
  {
    InPlace(input, pre, gap, head, inner, after);
    NextPlaced(find, input, |pre|, gap, head, inner, ending, more, after, span);
  }

  lemma {:induction false} InPlace(input: string, pre: string, gap: string, head: string, inner: string, after: string)
    requires input == pre + (gap + (head + (inner + after)))
    ensures |input| == |pre| + |gap| + |head| + |inner| + |after|
    ensures input[|pre|..] == gap + (head + (inner + after))
    ensures input[|pre| + |gap| + |head|..] == inner + after
    ensures input[|pre| + |gap| + |head| + |inner|..] == after
  {
  }

  // ---------------------------------------------------------------- a script of statements

  /** A statement in three parts: the header, the text in parentheses, and the ending before the semicolon. */
  datatype Piece = Piece(head: string, inner: string, ending: string)

  function PieceText(p: Piece): string {
    p.head + (p.inner + (p.ending + ";"))
  }

  /** The finder sees the header at once, or behind a line break. */
  predicate Found(find: Finder, head: string, rest: string) {
    find("" + (head + rest)) == Some((0, |head|)) && find("\n" + (head + rest)) == Some((1, 1 + |head|))
  }

  ghost predicate FoundAlways(find: Finder, head: string) {
    forall rest :: rest != "" && rest[0] == '(' ==> Found(find, head, rest)
  }

  /** The scanner stops at the end of the inner text. */
  predicate StopsAfter(inner: string, after: string) {
    Stop(START, inner + after) == Some(|inner| - 1)
  }

  ghost predicate StopsAlways(inner: string, ending: string) {
    forall more :: StopsAfter(inner, ending + ";" + more)
  }

  ghost predicate Seen(find: Finder, p: Piece) {
    && p.inner != "" && p.inner[0] == '(' && ';' !in p.ending
    && FoundAlways(find, p.head) && StopsAlways(p.inner, p.ending)
  }

  function PieceTexts(ps: seq<Piece>): (r: seq<string>)
    ensures |r| == |ps| && forall i :: 0 <= i < |ps| ==> r[i] == PieceText(ps[i])
  {
    seq(|ps|, i requires 0 <= i < |ps| => PieceText(ps[i]))
  }

  lemma {:induction false} PieceGrouping(head: string, inner: string, ending: string, more: string)
    ensures (head + (inner + (ending + ";"))) + more == head + (inner + (ending + ";" + more))
  {
  }

  lemma {:induction false} PieceInPlace(input: string, pre: string, gap: string, p: Piece, text: string, more: string,
                                        after: string)
    requires text == PieceText(p) && input == pre + (gap + (text + more)) && after == p.ending + ";" + more
    ensures input == pre + (gap + (p.head + (p.inner + after)))
    ensures |text| == |p.head| + |p.inner| + |p.ending| + 1
  {
    PieceGrouping(p.head, p.inner, p.ending, more);
    assert text + more == p.head + (p.inner + after);
  }

  lemma {:induction false} NextPiece(find: Finder, input: string, pre: string, gap: string, p: Piece, text: string,
                                     more: string, span: Span)
    requires Seen(find, p) && (gap == "" || gap == "\n") && text == PieceText(p)
    requires input == pre + (gap + (text + more))
    requires span.start == |pre| + |gap| && span.end == |pre| + |gap| + |text|
    ensures Next(find, input, |pre|) == Some(span)
  {
    var after := p.ending + ";" + more;
    PieceInPlace(input, pre, gap, p, text, more, after);
    SeenHere(find, p, gap, more, after);
    NextIs(find, input, pre, gap, p.head, p.inner, p.ending, more, after, span);
  }

  /** What finder and scanner say of a piece in its place. */
  lemma {:induction false} SeenHere(find: Finder, p: Piece, gap: string, more: string, after: string)
    requires Seen(find, p) && (gap == "" || gap == "\n") && after == p.ending + ";" + more
    ensures find(gap + (p.head + (p.inner + after))) == Some((|gap|, |gap| + |p.head|))
    ensures Stop(START, p.inner + after) == Some(|p.inner| - 1)
  {
    assert StopsAfter(p.inner, p.ending + ";" + more);
    var rest := p.inner + after;
    assert rest != "" && rest[0] == '(';
    assert Found(find, p.head, rest);
  }

  lemma {:induction false} MiddleSlice(input: string, pre: string, gap: string, text: string, more: string,
                                       before: string, span: Span)
    requires text != "" && input == pre + (gap + (text + more)) && before == pre + gap + text
    requires span.start == |pre| + |gap| && span.end == |pre| + |gap| + |text|
    ensures Slice(input, span) == text && input == before + more && span.end == |before|
  {
  }

  lemma {:induction false} SlicesCons(input: string, span: Span, spans: seq<Span>)
    ensures Slices(input, [span] + spans) == [Slice(input, span)] + Slices(input, spans)
  {
  }

  lemma {:induction false} SlicesNext(find: Finder, input: string, offset: nat, span: Span)
    requires Proper(find) && offset <= |input| && Next(find, input, offset) == Some(span)
    ensures Slices(input, Spans(find, input, offset)) ==
            [Slice(input, span)] + Slices(input, Spans(find, input, span.end))
  {
    SlicesCons(input, span, Spans(find, input, span.end));
  }

  lemma {:induction false} CutFirst(find: Finder, input: string, pre: string, gap: string, p: Piece, text: string,
                                    more: string, before: string)
    requires Proper(find) && Seen(find, p) && (gap == "" || gap == "\n") && text == PieceText(p) && text != ""
    requires input == pre + (gap + (text + more)) && before == pre + gap + text
    ensures input == before + more
    ensures Slices(input, Spans(find, input, |pre|)) == [text] + Slices(input, Spans(find, input, |before|))
  {
    var span := Span(|pre| + |gap|, |pre| + |gap| + |text|);
    NextPiece(find, input, pre, gap, p, text, more, span);
    MiddleSlice(input, pre, gap, text, more, before, span);
    SlicesNext(find, input, |pre|, span);
  }

  lemma {:induction false} CutLast(find: Finder, input: string, pre: string, gap: string, p: Piece)
    requires Proper(find) && Seen(find, p) && (gap == "" || gap == "\n") && input == pre + (gap + PieceText(p))
    ensures Slices(input, Spans(find, input, |pre|)) == [PieceText(p)]
  {
    var before := pre + gap + PieceText(p);
    assert PieceText(p) + "" == PieceText(p);
    CutFirst(find, input, pre, gap, p, PieceText(p), "", before);
    assert before + "" == before;
    NoneAtEnd(find, input);
  }

  ghost predicate AllSeen(find: Finder, ps: seq<Piece>) {
    forall i :: 0 <= i < |ps| ==> Seen(find, ps[i])
  }

  /** Statements joined with line breaks are cut apart again. */
  lemma {:induction false} ScriptCutFrom(find: Finder, input: string, pre: string, gap: string, ps: seq<Piece>)
    requires Proper(find) && ps != [] && AllSeen(find, ps) && (gap == "" || gap == "\n")
    requires input == pre + (gap + Join(PieceTexts(ps), "\n"))
    ensures Slices(input, Spans(find, input, |pre|)) == PieceTexts(ps)
    decreases |ps|
  {
    JoinFirst(ps);
    assert Seen(find, ps[0]);
    if |ps| == 1 {
      CutLast(find, input, pre, gap, ps[0]);
    } else {
      var before := pre + gap + PieceText(ps[0]);
      CutFirst(find, input, pre, gap, ps[0], PieceText(ps[0]), "\n" + Join(PieceTexts(ps[1..]), "\n"), before);
      ScriptCutFrom(find, input, before, "\n", ps[1..]);
    }
  }

  lemma {:induction false} JoinFirst(ps: seq<Piece>)
    requires ps != []
    ensures PieceTexts(ps) == [PieceText(ps[0])] + PieceTexts(ps[1..])
    ensures |ps| == 1 ==> Join(PieceTexts(ps), "\n") == PieceText(ps[0])
    ensures |ps| > 1 ==> Join(PieceTexts(ps), "\n") == PieceText(ps[0]) + ("\n" + Join(PieceTexts(ps[1..]), "\n"))
  {
    assert PieceTexts(ps)[1..] == PieceTexts(ps[1..]);
    if |ps| > 1 {
      Regroup(PieceText(ps[0]), "\n", Join(PieceTexts(ps)[1..], "\n"));
    }
  }

  /** A script of printed statements is cut into exactly those statements. */
  lemma {:induction false} ScriptCut(find: Finder, ps: seq<Piece>)
    requires Proper(find) && AllSeen(find, ps)
    ensures Statements(find, Join(PieceTexts(ps), "\n")) == PieceTexts(ps)
  {
    var input := Join(PieceTexts(ps), "\n");
    if ps == [] {
      NoneAtEnd(find, input);
    } else {
      assert input == "" + ("" + input);
      ScriptCutFrom(find, input, "", "", ps);
    }
  }
}
