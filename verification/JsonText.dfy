/**
 The part of JSON's grammar that the stream parser relies on: where strings begin and end.
 Cutting a text into lines, trimming them and joining them again leaves its tokens alone.
 */
module JsonText {
  import opened Text
  import opened Trim

  /** The tokens so far, the token being read, and whether it is a string. */
  datatype Lexer = Lexer(tokens: seq<string>, cur: string, inString: bool, escaped: bool)

  const START := Lexer([], "", false, false)

  function EndToken(l: Lexer): Lexer {
    if l.cur == "" then l else Lexer(l.tokens + [l.cur], "", false, false)
  }

  predicate IsPunctuation(c: char) {
    c in "{}[]:,"
  }

  function Feed(l: Lexer, c: char): Lexer {
    if l.inString then
      if l.escaped then l.(cur := l.cur + [c], escaped := false)
      else if c == '\\' then l.(cur := l.cur + [c], escaped := true)
      else if c == '"' then Lexer(l.tokens + [l.cur + [c]], "", false, false)
      else l.(cur := l.cur + [c])
    else if IsSpace(c) then EndToken(l)
    else if IsPunctuation(c) then Lexer(EndToken(l).tokens + [[c]], "", false, false)
    else if c == '"' then Lexer(EndToken(l).tokens, [c], true, false)
    else l.(cur := l.cur + [c])
  }

  function Run(l: Lexer, s: string): Lexer
    decreases |s|
  {
    if s == "" then l else Run(Feed(l, s[0]), s[1..])
  }

  /** The token sequence of a text: strings whole, punctuation one by one, the rest at spaces. */
  function Tokens(s: string): seq<string> {
    EndToken(Run(START, s)).tokens
  }

  /** No line break lies inside a string, and no string is left open (RFC 8259, section 7). */
  predicate StringsOnOneLine(l: Lexer, s: string)
    decreases |s|
  {
    if s == "" then !l.inString
    else (s[0] == '\n' ==> !l.inString) && StringsOnOneLine(Feed(l, s[0]), s[1..])
  }

  lemma {:induction false} RunAppend(l: Lexer, a: string, b: string)
    ensures Run(l, a + b) == Run(Run(l, a), b)
    decreases |a|
  {
    if a == "" {
      assert a + b == b;
    } else {
      assert (a + b)[1..] == a[1..] + b;
      RunAppend(Feed(l, a[0]), a[1..], b);
    }
  }

  /** Between tokens, any run of spaces does what one does. */
  lemma {:induction false} RunSpaces(l: Lexer, w: string)
    requires AllSpace(w) && !l.inString
    ensures Run(l, w) == if w == "" then l else EndToken(l)
    decreases |w|
  {
    if w == "" {
    } else {
      assert EndToken(EndToken(l)) == EndToken(l);
      RunSpaces(Feed(l, w[0]), w[1..]);
    }
  }

  lemma {:induction false} SpacesDoNotCloseAString(l: Lexer, w: string)
    requires AllSpace(w) && l.inString
    ensures Run(l, w).inString
    decreases |w|
  {
    if w == "" {
    } else {
      SpacesDoNotCloseAString(Feed(l, w[0]), w[1..]);
    }
  }

  /** Trimming a text that ends outside a string changes nothing but the pending end of token. */
  lemma RunTrimmed(l: Lexer, s: string)
    requires !l.inString && l.cur == "" && !Run(l, s).inString
    ensures !Run(l, TrimSpace(s)).inString
    ensures EndToken(Run(l, TrimSpace(s))) == EndToken(Run(l, s))
  {
    var lead, tail := TrimSplits(s);
    var m := TrimSpace(s);
    RunAppend(l, lead + m, tail);
    RunAppend(l, lead, m);
    RunSpaces(l, lead);
    var mid := Run(l, m);
    assert Run(l, s) == Run(mid, tail);
    if mid.inString {
      SpacesDoNotCloseAString(mid, tail);
    } else {
      RunSpaces(mid, tail);
    }
  }

  lemma {:induction false} FirstLineEndsOutside(l: Lexer, line: string, rest: string)
    requires StringsOnOneLine(l, line + ['\n'] + rest)
    ensures !Run(l, line).inString
    ensures StringsOnOneLine(Run(l, line + ['\n']), rest)
    decreases |line|
  {
    var s := line + ['\n'] + rest;
    if line == "" {
      assert s[1..] == rest;
      assert (line + ['\n'])[1..] == "";
    } else {
      assert s[1..] == line[1..] + ['\n'] + rest;
      assert (line + ['\n'])[1..] == line[1..] + ['\n'];
      FirstLineEndsOutside(Feed(l, line[0]), line[1..], rest);
    }
  }

  lemma {:induction false} LastLineEndsOutside(l: Lexer, line: string)
    requires StringsOnOneLine(l, line)
    ensures !Run(l, line).inString
    decreases |line|
  {
    if line == "" {
    } else {
      LastLineEndsOutside(Feed(l, line[0]), line[1..]);
    }
  }

  function TrimAll(lines: seq<string>): (trimmed: seq<string>)
    ensures |trimmed| == |lines| && forall i | 0 <= i < |lines| :: trimmed[i] == TrimSpace(lines[i])
  {
    if lines == [] then [] else [TrimSpace(lines[0])] + TrimAll(lines[1..])
  }

  lemma {:induction false} RunTrimmedLines(l: Lexer, lines: seq<string>)
    requires lines != [] && !l.inString && l.cur == ""
    requires StringsOnOneLine(l, Join(lines, '\n'))
    ensures EndToken(Run(l, Join(TrimAll(lines), '\n'))) == EndToken(Run(l, Join(lines, '\n')))
    ensures !Run(l, Join(TrimAll(lines), '\n')).inString
    decreases |lines|
  {
    var line := lines[0];
    if |lines| == 1 {
      LastLineEndsOutside(l, line);
      RunTrimmed(l, line);
    } else {
      var rest := Join(lines[1..], '\n');
      var trimmed := TrimAll(lines);
      assert trimmed[1..] == TrimAll(lines[1..]);
      FirstLineEndsOutside(l, line, rest);
      RunTrimmed(l, line);
      RunAppend(l, line + ['\n'], rest);
      RunAppend(l, line, ['\n']);
      RunAppend(l, TrimSpace(line) + ['\n'], Join(trimmed[1..], '\n'));
      RunAppend(l, TrimSpace(line), ['\n']);
      RunSpaces(Run(l, line), ['\n']);
      RunSpaces(Run(l, TrimSpace(line)), ['\n']);
      RunTrimmedLines(EndToken(Run(l, line)), lines[1..]);
    }
  }

  /** The token sequence survives being sent line by line and put together again. */
  lemma TokensSurviveLineTrimming(text: string)
    requires StringsOnOneLine(START, text)
    ensures var joined := TrimSpace(Join(TrimAll(Split(text, '\n')), '\n'));
      Tokens(joined) == Tokens(text) && !Run(START, joined).inString
  {
    var lines := Split(text, '\n');
    JoinOfSplit(text, '\n');
    RunTrimmedLines(START, lines);
    RunTrimmed(START, Join(TrimAll(lines), '\n'));
  }

  lemma {:induction false} TokensOnlyGrow(l: Lexer, s: string)
    ensures l.tokens <= Run(l, s).tokens
    decreases |s|
  {
    if s == "" {
    } else {
      TokensOnlyGrow(Feed(l, s[0]), s[1..]);
    }
  }

  lemma FirstToken(s: string)
    requires s != "" && IsPunctuation(s[0])
    ensures Tokens(s) != [] && Tokens(s)[0] == [s[0]]
  {
    assert !IsSpace(s[0]);
    TokensOnlyGrow(Feed(START, s[0]), s[1..]);
    assert Feed(START, s[0]).tokens == [[s[0]]];
  }

  // ---------- the elements of an array ----------

  datatype Nesting = Nesting(depth: nat, inString: bool, escaped: bool)

  const TOP := Nesting(0, false, false)

  function Advance(n: Nesting, c: char): Nesting {
    if n.inString then
      if n.escaped then n.(escaped := false)
      else if c == '\\' then n.(escaped := true)
      else if c == '"' then n.(inString := false)
      else n
    else if c == '"' then n.(inString := true)
    else if c == '[' || c == '{' then n.(depth := n.depth + 1)
    else if (c == ']' || c == '}') && n.depth > 0 then n.(depth := n.depth - 1)
    else n
  }

  /** Cut at the commas that are in no string and no nested array or object. */
  function CutAtCommas(s: string, n: Nesting, cur: string): seq<string>
    decreases |s|
  {
    if s == "" then [cur]
    else if s[0] == ',' && n == TOP then [cur] + CutAtCommas(s[1..], TOP, "")
    else CutAtCommas(s[1..], Advance(n, s[0]), cur + [s[0]])
  }

  /** The texts of the elements of a valid, trimmed array text. */
  function Elements(text: string): seq<string> {
    var inner := if |text| < 2 then "" else text[1..|text| - 1];
    if TrimSpace(inner) == "" then [] else TrimAll(CutAtCommas(inner, TOP, ""))
  }

  /** Every bracket and string opened in s is closed in s, and every comma is inside one; true of any JSON value. */
  predicate Closed(s: string, n: Nesting) {
    if s == "" then n == TOP
    else !(s[0] == ',' && n == TOP) && Closed(s[1..], Advance(n, s[0]))
  }

  lemma {:induction false} CutPastClosed(value: string, rest: string, n: Nesting, cur: string)
    requires Closed(value, n)
    ensures CutAtCommas(value + rest, n, cur) == CutAtCommas(rest, TOP, cur + value)
    decreases |value|
  {
    if value == "" {
      assert value + rest == rest;
      assert cur + value == cur;
    } else {
      assert (value + rest)[1..] == value[1..] + rest;
      CutPastClosed(value[1..], rest, Advance(n, value[0]), cur + [value[0]]);
      assert cur + [value[0]] + value[1..] == cur + value;
    }
  }

  lemma {:induction false} CutOfJoin(values: seq<string>)
    requires values != [] && forall i | 0 <= i < |values| :: Closed(values[i], TOP)
    ensures CutAtCommas(Join(values, ','), TOP, "") == values
  {
    var v := values[0];
    if |values| == 1 {
      CutPastClosed(v, "", TOP, "");
      assert v + "" == v && "" + v == v;
    } else {
      var rest := [','] + Join(values[1..], ',');
      assert Join(values, ',') == v + rest;
      CutPastClosed(v, rest, TOP, "");
      assert "" + v == v;
      assert rest[1..] == Join(values[1..], ',');
      CutOfJoin(values[1..]);
      assert values == [v] + values[1..];
    }
  }

  function ArrayText(values: seq<string>): string {
    "[" + Join(values, ',') + "]"
  }

  /** Reading the elements of a printed array gives back the printed values. */
  lemma ElementsOfArrayText(values: seq<string>)
    requires forall i | 0 <= i < |values| :: values[i] != "" && Trimmed(values[i]) && Closed(values[i], TOP)
    ensures Elements(ArrayText(values)) == values
  {
    var inner := ArrayText(values)[1..|ArrayText(values)| - 1];
    assert inner == Join(values, ',');
    if values == [] {
      TrimOfTrimmed(inner);
    } else {
      assert inner[0] == values[0][0];
      assert !IsSpace(inner[0]);
      var lead, tail := TrimSplits(inner);
      assert inner == lead + TrimSpace(inner) + tail;
      CutOfJoin(values);
      forall i | 0 <= i < |values|
        ensures TrimAll(values)[i] == values[i]
      {
        TrimOfTrimmed(values[i]);
      }
      assert TrimAll(values) == values;
    }
  }

  lemma {:induction false} SpacesAreClosed(pad: string)
    requires AllSpace(pad)
    ensures Closed(pad, TOP)
    decreases |pad|
  {
    if pad == "" {
    } else {
      assert IsSpace(pad[0]);
      SpacesAreClosed(pad[1..]);
    }
  }

  lemma {:induction false} ClosedOn(a: string, b: string, n: Nesting)
    requires Closed(a, n) && Closed(b, TOP)
    ensures Closed(a + b, n)
    decreases |a|
  {
    if a == "" {
      assert a + b == b;
    } else {
      assert (a + b)[1..] == a[1..] + b;
      ClosedOn(a[1..], b, Advance(n, a[0]));
    }
  }

  /** A value with white space around it. */
  datatype Padded = Padded(lead: string, value: string, tail: string) {
    predicate Valid() {
      && AllSpace(lead) && AllSpace(tail)
      && value != "" && Trimmed(value) && Closed(value, TOP)
    }

    function Text(): string {
      lead + (value + tail)
    }
  }

  function TextsOf(items: seq<Padded>): (texts: seq<string>)
    ensures |texts| == |items| && forall i | 0 <= i < |items| :: texts[i] == items[i].Text()
  {
    if items == [] then [] else [items[0].Text()] + TextsOf(items[1..])
  }

  function ValuesOf(items: seq<Padded>): (values: seq<string>)
    ensures |values| == |items| && forall i | 0 <= i < |items| :: values[i] == items[i].value
  {
    if items == [] then [] else [items[0].value] + ValuesOf(items[1..])
  }

  lemma PaddedIsClosed(item: Padded)
    requires item.Valid()
    ensures Closed(item.Text(), TOP) && TrimSpace(item.Text()) == item.value
  {
    SpacesAreClosed(item.lead);
    SpacesAreClosed(item.tail);
    ClosedOn(item.value, item.tail, TOP);
    ClosedOn(item.lead, item.value + item.tail, TOP);
    TrimPadded(item.lead, item.value, item.tail);
  }

  lemma {:induction false} PaddedAreTrimmed(items: seq<Padded>)
    requires forall i | 0 <= i < |items| :: items[i].Valid()
    ensures TrimAll(TextsOf(items)) == ValuesOf(items)
    ensures forall i | 0 <= i < |items| :: Closed(TextsOf(items)[i], TOP)
  {
    if items == [] {
    } else {
      PaddedIsClosed(items[0]);
      PaddedAreTrimmed(items[1..]);
      assert TextsOf(items)[1..] == TextsOf(items[1..]);
    }
  }

  lemma PaddedAreNotBlank(items: seq<Padded>)
    requires items != [] && items[0].Valid()
    ensures TrimSpace(Join(TextsOf(items), ',')) != ""
  {
    var all, first := Join(TextsOf(items), ','), items[0];
    BlankIsSpace(all);
    assert TextsOf(items)[0] <= all;
    assert first.Text()[|first.lead|] == first.value[0];
    assert !IsSpace(all[|first.lead|]);
  }

  lemma ElementsOfBracketed(inner: string)
    ensures Elements("[" + (inner + "]")) == if TrimSpace(inner) == "" then [] else TrimAll(CutAtCommas(inner, TOP, ""))
  {
    var text := "[" + (inner + "]");
    assert text[1..|text| - 1] == inner;
  }

  /** White space in an array does not matter, and nothing else in it is an element. */
  lemma ElementsOfSpacedArray(items: seq<Padded>)
    requires items != [] && forall i | 0 <= i < |items| :: items[i].Valid()
    ensures Elements("[" + (Join(TextsOf(items), ',') + "]")) == ValuesOf(items)
  {
    PaddedAreNotBlank(items);
    ElementsOfBracketed(Join(TextsOf(items), ','));
    PaddedAreTrimmed(items);
    CutOfJoin(TextsOf(items));
  }

  lemma BlankArrayIsEmpty(pad: string)
    requires AllSpace(pad)
    ensures Elements("[" + (pad + "]")) == []
  {
    ElementsOfBracketed(pad);
    TrimPadded(pad, "", "");
    assert pad + ("" + "") == pad;
  }

  // ---------- the tokens of an array and of its elements ----------

  lemma {:induction false} JoinOfCut(s: string, n: Nesting, cur: string)
    ensures CutAtCommas(s, n, cur) != [] && Join(CutAtCommas(s, n, cur), ',') == cur + s
    decreases |s|
  {
    if s == "" {
      assert cur + s == cur;
    } else if s[0] == ',' && n == TOP {
      JoinOfCut(s[1..], TOP, "");
      var rest := CutAtCommas(s[1..], TOP, "");
      assert ([cur] + rest)[1..] == rest;
      assert "" + s[1..] == s[1..] && [','] + s[1..] == s;
      assert cur + [','] + s[1..] == cur + s;
    } else {
      JoinOfCut(s[1..], Advance(n, s[0]), cur + [s[0]]);
      assert cur + [s[0]] + s[1..] == cur + s;
    }
  }

  /** Read one after the other, with commas between, the parts all end outside a string. */
  ghost predicate EndOutside(l: Lexer, parts: seq<string>)
    decreases |parts|
  {
    parts != [] ==>
      && !Run(l, parts[0]).inString
      && (|parts| > 1 ==> EndOutside(Feed(Run(l, parts[0]), ','), parts[1..]))
  }

  /** The two scanners agree about strings. */
  predicate InStep(n: Nesting, l: Lexer) {
    n.inString == l.inString && n.escaped == l.escaped && (n.escaped ==> n.inString)
  }

  lemma RunSnoc(l: Lexer, s: string, c: char)
    ensures Run(l, s + [c]) == Feed(Run(l, s), c)
  {
    RunAppend(l, s, [c]);
  }

  /** A text is only cut outside its strings. */
  lemma {:induction false} CutsAreOutside(l: Lexer, s: string, n: Nesting, cur: string)
    requires InStep(n, Run(l, cur)) && !Run(Run(l, cur), s).inString
    ensures EndOutside(l, CutAtCommas(s, n, cur))
    decreases |s|
  {
    if s == "" {
    } else if s[0] == ',' && n == TOP {
      var next := Feed(Run(l, cur), ',');
      assert Run(next, "") == next;
      CutsAreOutside(next, s[1..], TOP, "");
      var rest := CutAtCommas(s[1..], TOP, "");
      assert ([cur] + rest)[1..] == rest;
    } else {
      RunSnoc(l, cur, s[0]);
      CutsAreOutside(l, s[1..], Advance(n, s[0]), cur + [s[0]]);
    }
  }

  /** Trimming parts that end outside strings changes nothing but the pending end of token. */
  lemma {:induction false} RunTrimmedParts(l: Lexer, parts: seq<string>)
    requires parts != [] && !l.inString && l.cur == "" && EndOutside(l, parts)
    ensures EndToken(Run(l, Join(TrimAll(parts), ','))) == EndToken(Run(l, Join(parts, ',')))
    ensures !Run(l, Join(TrimAll(parts), ',')).inString && !Run(l, Join(parts, ',')).inString
    decreases |parts|
  {
    var part := parts[0];
    RunTrimmed(l, part);
    if |parts| == 1 {
      assert TrimAll(parts) == [TrimSpace(part)];
    } else {
      var trimmed := TrimAll(parts);
      assert trimmed[1..] == TrimAll(parts[1..]);
      var next := Feed(Run(l, part), ',');
      RunSnoc(l, part, ',');
      RunSnoc(l, TrimSpace(part), ',');
      assert Feed(Run(l, TrimSpace(part)), ',') == next;
      RunAppend(l, part + [','], Join(parts[1..], ','));
      RunAppend(l, TrimSpace(part) + [','], Join(trimmed[1..], ','));
      RunTrimmedParts(next, parts[1..]);
    }
  }

  lemma BracketedTokens(inner: string)
    ensures var at := Run(Feed(START, '['), inner);
      && Run(START, "[" + inner + "]") == Feed(at, ']')
      && (!Run(START, "[" + inner + "]").inString ==> !at.inString)
      && (!at.inString ==> Tokens("[" + inner + "]") == EndToken(at).tokens + ["]"])
  {
    assert ("[" + inner)[1..] == inner;
    assert Run(START, "[" + inner) == Run(Feed(START, '['), inner);
    RunSnoc(START, "[" + inner, ']');
  }

  lemma BlankArrayTokens(inner: string)
    requires TrimSpace(inner) == ""
    ensures Tokens("[" + inner + "]") == Tokens(ArrayText([]))
  {
    var lead, tail := TrimSplits(inner);
    assert AllSpace(inner);
    RunSpaces(Feed(START, '['), inner);
    BracketedTokens(inner);
    BracketedTokens("");
    assert "[" + "" + "]" == ArrayText([]);
  }

  lemma ElementsRunAlike(l: Lexer, inner: string)
    requires !l.inString && !l.escaped && l.cur == "" && !Run(l, inner).inString
    ensures var trimmed := Join(TrimAll(CutAtCommas(inner, TOP, "")), ',');
      EndToken(Run(l, trimmed)) == EndToken(Run(l, inner)) && !Run(l, trimmed).inString
  {
    JoinOfCut(inner, TOP, "");
    assert "" + inner == inner;
    assert Run(l, "") == l;
    CutsAreOutside(l, inner, TOP, "");
    RunTrimmedParts(l, CutAtCommas(inner, TOP, ""));
  }

  /** A text in brackets has the tokens of its elements, put in brackets again with commas between. */
  lemma ElementsKeepTheTokens(text: string)
    requires |text| >= 2 && text[0] == '[' && text[|text| - 1] == ']' && !Run(START, text).inString
    ensures Tokens(ArrayText(Elements(text))) == Tokens(text)
  {
    var inner := text[1..|text| - 1];
    assert text == "[" + inner + "]";
    BracketedTokens(inner);
    if TrimSpace(inner) == "" {
      BlankArrayTokens(inner);
    } else {
      var parts := CutAtCommas(inner, TOP, "");
      ElementsRunAlike(Feed(START, '['), inner);
      BracketedTokens(Join(TrimAll(parts), ','));
    }
  }
}
