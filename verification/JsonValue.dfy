/**
 JSON values and their texts, for what the scanners of a text promise about every one of them: its
 tokens are those of the value, and nothing beside it can be mistaken for a part of it.
 */
module JsonValue {
  import opened Trim
  import opened JsonText

  /** A number or a literal by its text, and a string by what stands between its quotes. */
  datatype Value = Scalar(text: string) | Quoted(body: string) | List(items: Items) | Record(fields: Fields)

  datatype Items = NoItem | Item(head: Value, tail: Items)

  datatype Fields = NoField | Field(key: string, value: Value, rest: Fields)

  /** No quote in it but escaped ones, and no line break. */
  predicate IsBody(s: string) {
    if s == "" then true
    else if s[0] == '\\' then |s| >= 2 && s[1] != '\n' && IsBody(s[2..])
    else s[0] != '"' && s[0] != '\n' && IsBody(s[1..])
  }

  predicate IsScalar(s: string) {
    s != "" && forall i | 0 <= i < |s| :: !IsSpace(s[i]) && !IsPunctuation(s[i]) && s[i] != '"'
  }

  predicate WellFormed(v: Value) {
    match v
    case Scalar(text) => IsScalar(text)
    case Quoted(body) => IsBody(body)
    case List(items) => AllWellFormed(items)
    case Record(fields) => FieldsWellFormed(fields)
  }

  predicate AllWellFormed(items: Items) {
    items.Item? ==> WellFormed(items.head) && AllWellFormed(items.tail)
  }

  predicate FieldsWellFormed(fields: Fields) {
    fields.Field? ==> IsBody(fields.key) && WellFormed(fields.value) && FieldsWellFormed(fields.rest)
  }

  // ---------- printing ----------

  function Quote(body: string): string {
    "\"" + (body + "\"")
  }

  function Print(v: Value): string {
    match v
    case Scalar(text) => text
    case Quoted(body) => Quote(body)
    case List(items) => "[" + (PrintItems(items) + "]")
    case Record(fields) => "{" + (PrintFields(fields) + "}")
  }

  function PrintItems(items: Items): string {
    match items
    case NoItem => ""
    case Item(head, NoItem) => Print(head)
    case Item(head, tail) => Print(head) + ("," + PrintItems(tail))
  }

  function PrintFields(fields: Fields): string {
    match fields
    case NoField => ""
    case Field(key, value, NoField) => Quote(key) + (":" + Print(value))
    case Field(key, value, rest) => Quote(key) + (":" + (Print(value) + ("," + PrintFields(rest))))
  }

  lemma {:induction false} BodiesAreOneLine(body: string)
    requires IsBody(body)
    ensures '\n' !in body
    decreases |body|
  {
    if body == "" {
    } else if body[0] == '\\' {
      BodiesAreOneLine(body[2..]);
      assert body == [body[0]] + [body[1]] + body[2..];
    } else {
      BodiesAreOneLine(body[1..]);
      assert body == [body[0]] + body[1..];
    }
  }

  lemma {:induction false} ValuesAreOneLine(v: Value)
    requires WellFormed(v)
    ensures '\n' !in Print(v)
    decreases v
  {
    match v
    case Scalar(text) => assert IsSpace('\n');
    case Quoted(body) => BodiesAreOneLine(body);
    case List(items) => ItemsAreOneLine(items);
    case Record(fields) => FieldsAreOneLine(fields);
  }

  lemma {:induction false} ItemsAreOneLine(items: Items)
    requires AllWellFormed(items)
    ensures '\n' !in PrintItems(items)
    decreases items
  {
    if items.Item? {
      ValuesAreOneLine(items.head);
      ItemsAreOneLine(items.tail);
    }
  }

  lemma {:induction false} FieldsAreOneLine(fields: Fields)
    requires FieldsWellFormed(fields)
    ensures '\n' !in PrintFields(fields)
    decreases fields
  {
    if fields.Field? {
      BodiesAreOneLine(fields.key);
      ValuesAreOneLine(fields.value);
      FieldsAreOneLine(fields.rest);
    }
  }

  // ---------- nesting ----------

  /** Reading s leads from one nesting to the other, past no comma at the top. */
  predicate Reads(s: string, n: Nesting, m: Nesting)
    decreases |s|
  {
    if s == "" then n == m
    else !(s[0] == ',' && n == TOP) && Reads(s[1..], Advance(n, s[0]), m)
  }

  lemma {:induction false} ReadsIsClosed(s: string, n: Nesting)
    ensures Reads(s, n, TOP) <==> Closed(s, n)
    decreases |s|
  {
    if s == "" {
    } else {
      ReadsIsClosed(s[1..], Advance(n, s[0]));
    }
  }

  lemma {:induction false} ReadsOn(a: string, b: string, n: Nesting, m: Nesting, k: Nesting)
    requires Reads(a, n, m) && Reads(b, m, k)
    ensures Reads(a + b, n, k)
    decreases |a|
  {
    if a == "" {
      assert a + b == b;
    } else {
      assert (a + b)[1..] == a[1..] + b;
      ReadsOn(a[1..], b, Advance(n, a[0]), m, k);
    }
  }

  lemma ReadsChar(c: char, b: string, n: Nesting, k: Nesting)
    requires !(c == ',' && n == TOP) && Reads(b, Advance(n, c), k)
    ensures Reads([c] + b, n, k)
  {
    assert ([c] + b)[1..] == b;
  }

  function At(depth: nat): Nesting {
    Nesting(depth, false, false)
  }

  lemma {:induction false} BodyReads(body: string, depth: nat)
    requires IsBody(body)
    ensures Reads(body + "\"", Nesting(depth, true, false), At(depth))
    decreases |body|
  {
    var s := body + "\"";
    if body == "" {
      assert s[1..] == "";
    } else if body[0] == '\\' {
      assert s[1..] == body[1..] + "\"" && s[1..][1..] == body[2..] + "\"";
      BodyReads(body[2..], depth);
    } else {
      assert s[1..] == body[1..] + "\"";
      BodyReads(body[1..], depth);
    }
  }

  lemma QuoteReads(body: string, depth: nat)
    requires IsBody(body)
    ensures Reads(Quote(body), At(depth), At(depth))
  {
    BodyReads(body, depth);
    ReadsChar('"', body + "\"", At(depth), At(depth));
  }

  lemma {:induction false} ScalarReads(s: string, depth: nat)
    requires forall i | 0 <= i < |s| :: !IsPunctuation(s[i]) && s[i] != '"'
    ensures Reads(s, At(depth), At(depth))
    decreases |s|
  {
    if s == "" {
    } else {
      assert !IsPunctuation(s[0]);
      ScalarReads(s[1..], depth);
    }
  }

  /** Whatever is nested in a value, its text ends where it began, and a comma in it is never at the top. */
  lemma {:induction false} ValueReads(v: Value, depth: nat)
    requires WellFormed(v)
    ensures Reads(Print(v), At(depth), At(depth))
    decreases v
  {
    match v
    case Scalar(text) => ScalarReads(text, depth);
    case Quoted(body) => QuoteReads(body, depth);
    case List(items) =>
      ItemsRead(items, depth + 1);
      assert Reads("]", At(depth + 1), At(depth));
      ReadsOn(PrintItems(items), "]", At(depth + 1), At(depth + 1), At(depth));
      ReadsChar('[', PrintItems(items) + "]", At(depth), At(depth));
    case Record(fields) =>
      FieldsRead(fields, depth + 1);
      assert Reads("}", At(depth + 1), At(depth));
      ReadsOn(PrintFields(fields), "}", At(depth + 1), At(depth + 1), At(depth));
      ReadsChar('{', PrintFields(fields) + "}", At(depth), At(depth));
  }

  lemma {:induction false} ItemsRead(items: Items, depth: nat)
    requires AllWellFormed(items) && depth > 0
    ensures Reads(PrintItems(items), At(depth), At(depth))
    decreases items
  {
    if items.Item? {
      ValueReads(items.head, depth);
      if items.tail.Item? {
        ItemsRead(items.tail, depth);
        ReadsChar(',', PrintItems(items.tail), At(depth), At(depth));
        ReadsOn(Print(items.head), "," + PrintItems(items.tail), At(depth), At(depth), At(depth));
      }
    }
  }

  lemma {:induction false} FieldsRead(fields: Fields, depth: nat)
    requires FieldsWellFormed(fields) && depth > 0
    ensures Reads(PrintFields(fields), At(depth), At(depth))
    decreases fields
  {
    if fields.Field? {
      var value := Print(fields.value);
      QuoteReads(fields.key, depth);
      ValueReads(fields.value, depth);
      if fields.rest.NoField? {
        ReadsChar(':', value, At(depth), At(depth));
        ReadsOn(Quote(fields.key), ":" + value, At(depth), At(depth), At(depth));
      } else {
        var more := PrintFields(fields.rest);
        FieldsRead(fields.rest, depth);
        ReadsChar(',', more, At(depth), At(depth));
        ReadsOn(value, "," + more, At(depth), At(depth), At(depth));
        ReadsChar(':', value + ("," + more), At(depth), At(depth));
        ReadsOn(Quote(fields.key), ":" + (value + ("," + more)), At(depth), At(depth), At(depth));
      }
    }
  }

  /** The text of a value is closed: as an element of an array it is cut out whole. */
  lemma ValuesAreClosed(v: Value)
    requires WellFormed(v)
    ensures Closed(Print(v), TOP)
  {
    ValueReads(v, 0);
    ReadsIsClosed(Print(v), TOP);
  }

  // ---------- tokens ----------

  function TokensOf(v: Value): seq<string> {
    match v
    case Scalar(text) => [text]
    case Quoted(body) => [Quote(body)]
    case List(items) => ["["] + (ItemTokens(items) + ["]"])
    case Record(fields) => ["{"] + (FieldTokens(fields) + ["}"])
  }

  function ItemTokens(items: Items): seq<string> {
    match items
    case NoItem => []
    case Item(head, NoItem) => TokensOf(head)
    case Item(head, tail) => TokensOf(head) + ([","] + ItemTokens(tail))
  }

  function FieldTokens(fields: Fields): seq<string> {
    match fields
    case NoField => []
    case Field(key, value, NoField) => [Quote(key)] + ([":"] + TokensOf(value))
    case Field(key, value, rest) => [Quote(key)] + ([":"] + (TokensOf(value) + ([","] + FieldTokens(rest))))
  }

  /** Between tokens, with these read so far. */
  function Between(tokens: seq<string>): Lexer {
    Lexer(tokens, "", false, false)
  }

  /** After s, and whatever ends its last token, these more tokens have been read. */
  predicate Scans(s: string, tokens: seq<string>, more: seq<string>) {
    var l := Run(Between(tokens), s);
    !l.inString && !l.escaped && EndToken(l) == Between(tokens + more)
  }

  /** A mark ends the token before it. */
  lemma ScansMark(s: string, c: char, rest: string, tokens: seq<string>, more: seq<string>, after: seq<string>)
    requires IsPunctuation(c) && !IsSpace(c) && c != '"'
    requires Scans(s, tokens, more) && Scans(rest, tokens + more + [[c]], after)
    ensures Scans(s + ([c] + rest), tokens, more + ([[c]] + after))
  {
    var l := Run(Between(tokens), s);
    RunAppend(Between(tokens), s, [c] + rest);
    assert ([c] + rest)[1..] == rest;
    assert Feed(l, c) == Between(tokens + more + [[c]]);
    assert tokens + more + [[c]] + after == tokens + (more + ([[c]] + after));
  }

  lemma ScansNothing(tokens: seq<string>)
    ensures Scans("", tokens, [])
  {
    assert tokens + [] == tokens;
  }

  /** What stands in brackets. */
  lemma ScansBracketed(open: char, s: string, close: char, tokens: seq<string>, more: seq<string>)
    requires IsPunctuation(open) && !IsSpace(open) && open != '"'
    requires IsPunctuation(close) && !IsSpace(close) && close != '"'
    requires Scans(s, tokens + [[open]], more)
    ensures Scans([open] + (s + [close]), tokens, [[open]] + (more + [[close]]))
  {
    ScansNothing(tokens + [[open]] + more + [[close]]);
    ScansMark(s, close, "", tokens + [[open]], more, []);
    assert [close] + "" == [close];
    assert more + ([[close]] + []) == more + [[close]];
    ScansNothing(tokens);
    assert tokens + [] + [[open]] == tokens + [[open]];
    ScansMark("", open, s + [close], tokens, [], more + [[close]]);
    assert "" + ([open] + (s + [close])) == [open] + (s + [close]);
    assert [] + ([[open]] + (more + [[close]])) == [[open]] + (more + [[close]]);
  }

  lemma {:induction false} BodyScans(body: string, tokens: seq<string>, cur: string)
    requires IsBody(body)
    ensures Run(Lexer(tokens, cur, true, false), body + "\"") == Between(tokens + [cur + (body + "\"")])
    decreases |body|
  {
    var s := body + "\"";
    if body == "" {
      assert s[1..] == "" && s == "\"";
    } else if body[0] == '\\' {
      assert s[1..] == body[1..] + "\"" && s[1..][1..] == body[2..] + "\"";
      BodyScans(body[2..], tokens, cur + [body[0]] + [body[1]]);
      assert cur + [body[0]] + [body[1]] + (body[2..] + "\"") == cur + s;
    } else {
      assert s[1..] == body[1..] + "\"";
      BodyScans(body[1..], tokens, cur + [body[0]]);
      assert cur + [body[0]] + (body[1..] + "\"") == cur + s;
    }
  }

  lemma QuoteScans(body: string, tokens: seq<string>)
    requires IsBody(body)
    ensures Scans(Quote(body), tokens, [Quote(body)])
  {
    BodyScans(body, tokens, "\"");
    assert Quote(body)[1..] == body + "\"";
    assert Quote(body)[0] == '"' && !IsSpace('"');
  }

  lemma {:induction false} ScalarScans(s: string, tokens: seq<string>, cur: string)
    requires forall i | 0 <= i < |s| :: !IsSpace(s[i]) && !IsPunctuation(s[i]) && s[i] != '"'
    ensures Run(Lexer(tokens, cur, false, false), s) == Lexer(tokens, cur + s, false, false)
    decreases |s|
  {
    if s == "" {
      assert cur + s == cur;
    } else {
      ScalarScans(s[1..], tokens, cur + [s[0]]);
      assert cur + [s[0]] + s[1..] == cur + s;
    }
  }

  lemma {:induction false} ValueScans(v: Value, tokens: seq<string>)
    requires WellFormed(v)
    ensures Scans(Print(v), tokens, TokensOf(v))
    decreases v
  {
    match v
    case Scalar(text) =>
      ScalarScans(text, tokens, "");
      assert "" + text == text;
    case Quoted(body) => QuoteScans(body, tokens);
    case List(items) =>
      ItemsScan(items, tokens + ["["]);
      ScansBracketed('[', PrintItems(items), ']', tokens, ItemTokens(items));
    case Record(fields) =>
      FieldsScan(fields, tokens + ["{"]);
      ScansBracketed('{', PrintFields(fields), '}', tokens, FieldTokens(fields));
  }

  lemma {:induction false} ItemsScan(items: Items, tokens: seq<string>)
    requires AllWellFormed(items)
    ensures Scans(PrintItems(items), tokens, ItemTokens(items))
    decreases items
  {
    if items.NoItem? {
      ScansNothing(tokens);
    } else {
      ValueScans(items.head, tokens);
      if items.tail.Item? {
        var more := TokensOf(items.head);
        ItemsScan(items.tail, tokens + more + [","]);
        ScansMark(Print(items.head), ',', PrintItems(items.tail), tokens, more, ItemTokens(items.tail));
      }
    }
  }

  lemma {:induction false} FieldsScan(fields: Fields, tokens: seq<string>)
    requires FieldsWellFormed(fields)
    ensures Scans(PrintFields(fields), tokens, FieldTokens(fields))
    decreases fields
  {
    if fields.NoField? {
      ScansNothing(tokens);
    } else {
      var key, value, more := Quote(fields.key), Print(fields.value), TokensOf(fields.value);
      var begun := tokens + [key] + [":"];
      QuoteScans(fields.key, tokens);
      ValueScans(fields.value, begun);
      if fields.rest.NoField? {
        ScansMark(key, ':', value, tokens, [key], more);
      } else {
        FieldsScan(fields.rest, begun + more + [","]);
        ScansMark(value, ',', PrintFields(fields.rest), begun, more, FieldTokens(fields.rest));
        ScansMark(key, ':', value + ("," + PrintFields(fields.rest)), tokens, [key],
          more + ([","] + FieldTokens(fields.rest)));
      }
    }
  }

  /** The tokens of a value's text are the value's. */
  lemma ValuesHaveTheirTokens(v: Value)
    requires WellFormed(v)
    ensures Tokens(Print(v)) == TokensOf(v)
  {
    ValueScans(v, []);
    assert [] + TokensOf(v) == TokensOf(v);
  }
}
