/** Reducing an untrusted filename to one bare component. */
module Filename {
  import opened Prelude
  import opened Text
  import opened Paths

  /** strings.ReplaceAll(name, "\\", "/"). */
  function Unslash(name: string): (s: string)
    ensures |s| == |name| && '\\' !in s
    ensures forall i | 0 <= i < |name| :: s[i] == if name[i] == '\\' then '/' else name[i]
  {
    seq(|name|, i requires 0 <= i < |name| => if name[i] == '\\' then '/' else name[i])
  }

  function StripSlashes(s: string): string {
    if s != "" && s[|s| - 1] == '/' then StripSlashes(s[..|s| - 1]) else s
  }

  function LastPart(s: string): Part {
    Parts(s)[|Parts(s)| - 1]
  }

  /** filepath.Base. */
  function Base(path: string): string {
    if path == "" then "."
    else if StripSlashes(path) == "" then "/"
    else LastPart(StripSlashes(path))
  }

  predicate IsControl(c: char) {
    c < ' ' || c == '\U{7f}'
  }

  predicate HasControl(s: string) {
    exists i | 0 <= i < |s| :: IsControl(s[i])
  }

  datatype BadName = NoUsableName(name: string) | ControlCharacters(name: string)

  function Sanitize(name: string): Result<string, BadName> {
    var base := Base(Unslash(name));
    if base == "." || base == ".." || base == "/" || base == "" then Failure(NoUsableName(name))
    else if HasControl(base) then Failure(ControlCharacters(name))
    else Success(base)
  }

  /** What a sanitized name is: one plain component. */
  predicate IsBareName(c: string) {
    IsName(c) && '\\' !in c && !HasControl(c)
  }

  predicate AllSlashes(s: string) {
    forall i | 0 <= i < |s| :: s[i] == '/'
  }

  lemma {:induction false} StripSlashesRemovesTail(s: string, tail: string)
    requires AllSlashes(tail)
    requires s == "" || s[|s| - 1] != '/'
    ensures StripSlashes(s + tail) == s
  {
    if tail == "" {
      assert s + tail == s;
    } else {
      var all := s + tail;
      assert all[..|all| - 1] == s + tail[..|tail| - 1];
      StripSlashesRemovesTail(s, tail[..|tail| - 1]);
    }
  }

  lemma {:induction false} StripSlashesSplits(s: string) returns (tail: string)
    ensures AllSlashes(tail) && s == StripSlashes(s) + tail
    ensures var t := StripSlashes(s); t == "" || t[|t| - 1] != '/'
  {
    if s != "" && s[|s| - 1] == '/' {
      var shorter := StripSlashesSplits(s[..|s| - 1]);
      tail := shorter + "/";
      assert s == s[..|s| - 1] + "/";
    } else {
      tail := "";
    }
  }

  /** A name in front of which there is nothing, or something that ends a component. */
  predicate EndsComponent(pre: string) {
    pre == "" || pre[|pre| - 1] == '/'
  }

  lemma LastPartIsLast(pre: string, c: string)
    requires EndsComponent(pre) && '/' !in c
    ensures LastPart(pre + c) == c
  {
    SplitWithoutSeparator(c, '/');
    if pre == "" {
      assert pre + c == c;
    } else {
      var front := pre[..|pre| - 1];
      assert pre + c == front + ['/'] + c;
      SplitAppend(front, c, '/');
    }
  }

  /** Only the last component counts, whatever directories it is dressed up with. */
  lemma SanitizeKeepsOnlyTheLastComponent(name: string, pre: string, c: string, tail: string)
    requires Unslash(name) == pre + c + tail
    requires EndsComponent(pre) && AllSlashes(tail) && c != "" && '/' !in c
    ensures Sanitize(name).Success? <==> IsBareName(c)
    ensures IsBareName(c) ==> Sanitize(name) == Success(c)
  {
    var s := pre + c;
    assert s[|s| - 1] == c[|c| - 1];
    StripSlashesRemovesTail(s, tail);
    LastPartIsLast(pre, c);
    assert Base(Unslash(name)) == c;
    assert forall i | 0 <= i < |c| :: c[i] == Unslash(name)[|pre| + i];
  }

  lemma {:induction false} LastPartPrefix(parts: seq<string>) returns (pre: string)
    requires parts != []
    ensures EndsComponent(pre) && Join(parts, '/') == pre + parts[|parts| - 1]
  {
    if |parts| == 1 {
      pre := "";
    } else {
      var rest := LastPartPrefix(parts[1..]);
      pre := parts[0] + "/" + rest;
      assert pre + parts[|parts| - 1] == parts[0] + "/" + (rest + parts[|parts| - 1]);
    }
  }

  /** Every text that is not all slashes has a last component, and Base finds it. */
  lemma BaseSplits(s: string) returns (pre: string, c: string, tail: string)
    requires StripSlashes(s) != ""
    ensures s == pre + c + tail && EndsComponent(pre) && AllSlashes(tail)
    ensures c != "" && '/' !in c && Base(s) == c
  {
    var t := StripSlashes(s);
    tail := StripSlashesSplits(s);
    c := LastPart(t);
    JoinOfSplit(t, '/');
    pre := LastPartPrefix(Parts(t));
    assert t == pre + c;
    assert c == "" ==> t == pre;
  }

  /** Every accepted name is bare and is left alone the second time; nothing but slashes is no name. */
  lemma SanitizedNameIsBare(name: string)
    ensures var r := Sanitize(name);
      r.Success? ==> IsBareName(r.value) && Sanitize(r.value) == r
    ensures AllSlashes(Unslash(name)) ==> Sanitize(name).Failure?
  {
    if AllSlashes(Unslash(name)) {
      StripSlashesRemovesTail("", Unslash(name));
      assert "" + Unslash(name) == Unslash(name);
    }
    if Sanitize(name).Success? {
      var pre, c, tail := BaseSplits(Unslash(name));
      SanitizeKeepsOnlyTheLastComponent(name, pre, c, tail);
      assert Unslash(c) == c == "" + c + "";
      SanitizeKeepsOnlyTheLastComponent(c, "", c, "");
    }
  }
}
