/** strings.TrimSpace. */
module Trim {

  /** unicode.IsSpace. */
  predicate IsSpace(c: char) {
    || c == '\t' || c == '\n' || c == '\U{0b}' || c == '\U{0c}' || c == '\r' || c == ' '
    || c == '\U{85}' || c == '\U{a0}' || c == '\U{1680}'
    || '\U{2000}' <= c <= '\U{200a}'
    || c == '\U{2028}' || c == '\U{2029}' || c == '\U{202f}' || c == '\U{205f}' || c == '\U{3000}'
  }

  predicate AllSpace(s: string) {
    forall i | 0 <= i < |s| :: IsSpace(s[i])
  }

  function TrimLeft(s: string): string {
    if s != "" && IsSpace(s[0]) then TrimLeft(s[1..]) else s
  }

  function TrimRight(s: string): string {
    if s != "" && IsSpace(s[|s| - 1]) then TrimRight(s[..|s| - 1]) else s
  }

  function TrimSpace(s: string): string {
    TrimRight(TrimLeft(s))
  }

  /** Nothing, or text that neither begins nor ends with a space. */
  predicate Trimmed(s: string) {
    s == "" || (!IsSpace(s[0]) && !IsSpace(s[|s| - 1]))
  }

  lemma {:induction false} TrimLeftSplits(s: string) returns (lead: string)
    ensures s == lead + TrimLeft(s) && AllSpace(lead)
    ensures TrimLeft(s) == "" || !IsSpace(TrimLeft(s)[0])
  {
    if s != "" && IsSpace(s[0]) {
      var shorter := TrimLeftSplits(s[1..]);
      lead := [s[0]] + shorter;
    } else {
      lead := "";
    }
  }

  lemma {:induction false} TrimRightSplits(s: string) returns (tail: string)
    ensures s == TrimRight(s) + tail && AllSpace(tail)
    ensures TrimRight(s) == "" || !IsSpace(TrimRight(s)[|TrimRight(s)| - 1])
  {
    if s != "" && IsSpace(s[|s| - 1]) {
      var shorter := TrimRightSplits(s[..|s| - 1]);
      tail := shorter + [s[|s| - 1]];
      assert s == s[..|s| - 1] + [s[|s| - 1]];
    } else {
      tail := "";
    }
  }

  /** Trimming removes spaces at the two ends and nothing else, and all of them. */
  lemma TrimSplits(s: string) returns (lead: string, tail: string)
    ensures s == lead + TrimSpace(s) + tail && AllSpace(lead) && AllSpace(tail)
    ensures Trimmed(TrimSpace(s))
  {
    lead := TrimLeftSplits(s);
    tail := TrimRightSplits(TrimLeft(s));
    var m := TrimSpace(s);
    assert TrimLeft(s) == m + tail;
    assert m != "" ==> m[0] == TrimLeft(s)[0];
  }

  lemma BlankIsSpace(s: string)
    ensures TrimSpace(s) == "" ==> AllSpace(s)
  {
    var lead, tail := TrimSplits(s);
    assert TrimSpace(s) == "" ==> s == lead + tail;
  }

  lemma {:induction false} TrimLeftPadded(lead: string, s: string)
    requires AllSpace(lead) && (s == "" || !IsSpace(s[0]))
    ensures TrimLeft(lead + s) == s
    decreases |lead|
  {
    if lead == "" {
      assert lead + s == s;
    } else {
      assert (lead + s)[1..] == lead[1..] + s;
      TrimLeftPadded(lead[1..], s);
    }
  }

  lemma {:induction false} TrimRightPadded(s: string, tail: string)
    requires AllSpace(tail) && (s == "" || !IsSpace(s[|s| - 1]))
    ensures TrimRight(s + tail) == s
    decreases |tail|
  {
    if tail == "" {
      assert s + tail == s;
    } else {
      var last := |tail| - 1;
      assert (s + tail)[..|s + tail| - 1] == s + tail[..last];
      TrimRightPadded(s, tail[..last]);
    }
  }

  /** White space around a trimmed text is what trimming takes away. */
  lemma TrimPadded(lead: string, s: string, tail: string)
    requires AllSpace(lead) && AllSpace(tail) && Trimmed(s)
    ensures TrimSpace(lead + (s + tail)) == s
  {
    if s == "" {
      TrimLeftPadded(lead + tail, "");
      assert lead + (s + tail) == lead + tail + "";
    } else {
      TrimLeftPadded(lead, s + tail);
      TrimRightPadded(s, tail);
    }
  }

  lemma TrimOfTrimmed(s: string)
    requires Trimmed(s)
    ensures TrimSpace(s) == s
  {
  }

  lemma TrimAfterSpace(s: string)
    requires Trimmed(s)
    ensures TrimSpace(" " + s) == s
  {
    assert (" " + s)[1..] == s;
    assert TrimLeft(" " + s) == TrimLeft(s) == s;
  }
}
