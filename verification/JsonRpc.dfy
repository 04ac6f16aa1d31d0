/** JSON-RPC messages, and the merge of the injected tools into a tools/list result. */
module JsonRpc {
  import opened Prelude

  /** A decoded JSON value; an object keeps its last value for each key, as a Go map does. */
  datatype Json =
    | Null
    | Bool(b: bool)
    | Number(text: string)
    | Str(s: string)
    | Array(items: seq<Json>)
    | Object(fields: map<string, Json>)

  datatype RpcError = RpcError(code: int, message: string, data: Option<Json>)

  /** id is the raw text of the id, "" when there is none. */
  datatype Message = Message(
    id: string, methodName: string, params: Option<Json>, result: Option<Json>, error: Option<RpcError>)
  {
    predicate IsRequest() {
      methodName != "" && id != "" && id != "null"
    }

    predicate IsResponse() {
      methodName == "" && (result.Some? || error.Some?)
    }

    function IDString(): string {
      if id == "null" then "" else id
    }
  }

  function NewErrorResponse(id: string, code: int, message: string): Message {
    Message(id, "", None, None, Some(RpcError(code, message, None)))
  }

  function NewResultResponse(id: string, result: Json): Message {
    Message(id, "", None, Some(result), None)
  }

  datatype ToolInfo = ToolInfo(name: string, description: string, inputSchema: Json)

  /**
   The two coders of a tool entry: probe decodes an entry far enough to read its name (None when it
   does not decode), encode makes an entry of an injected definition.
   */
  datatype Codec = Codec(probe: Json -> Option<string>, encode: ToolInfo -> Json) {
    ghost predicate Valid() {
      forall t: ToolInfo :: probe(encode(t)) == Some(t.name)
    }
  }

  function Names(tools: seq<ToolInfo>): seq<string> {
    if tools == [] then [] else [tools[0].name] + Names(tools[1..])
  }

  function Encoded(c: Codec, tools: seq<ToolInfo>): seq<Json> {
    if tools == [] then [] else [c.encode(tools[0])] + Encoded(c, tools[1..])
  }

  /** An undecodable entry cannot collide. */
  predicate Collides(c: Codec, injected: seq<ToolInfo>, tool: Json) {
    c.probe(tool).Some? && c.probe(tool).value in Names(injected)
  }

  function Kept(c: Codec, injected: seq<ToolInfo>, tools: seq<Json>): seq<Json> {
    if tools == [] then []
    else (if Collides(c, injected, tools[0]) then [] else [tools[0]]) + Kept(c, injected, tools[1..])
  }

  function Collisions(c: Codec, injected: seq<ToolInfo>, tools: seq<Json>): seq<string> {
    if tools == [] then []
    else (if Collides(c, injected, tools[0]) then [c.probe(tools[0]).value] else [])
         + Collisions(c, injected, tools[1..])
  }

  /** NilMapPanic is the assignment into the nil map that a result of JSON null decodes to. */
  datatype MergeOutcome = Merged(result: Json, collisions: seq<string>) | Unmergeable | NilMapPanic

  /** The upstream tools of a decoded result; no "tools" and a null "tools" are both the empty list. */
  function UpstreamTools(fields: map<string, Json>): Option<seq<Json>> {
    if "tools" !in fields then Some([])
    else
      match fields["tools"]
      case Null => Some([])
      case Array(items) => Some(items)
      case _ => None
  }

  /** A list that was never made: json.Marshal writes null for a nil slice. */
  predicate StaysNil(fields: map<string, Json>, injected: seq<ToolInfo>) {
    ("tools" in fields ==> fields["tools"] == Null) && injected == []
  }

  function Merge(c: Codec, result: Json, injected: seq<ToolInfo>): MergeOutcome {
    match result
    case Null => NilMapPanic
    case Object(fields) =>
      (match UpstreamTools(fields)
       case None => Unmergeable
       case Some(tools) =>
         var merged := Kept(c, injected, tools) + Encoded(c, injected);
         var list := if StaysNil(fields, injected) then Null else Array(merged);
         Merged(Object(fields["tools" := list]), Collisions(c, injected, tools)))
    case _ => Unmergeable
  }

  // ---------- the merge in place ----------

  lemma {:induction false} FilterAppend(c: Codec, injected: seq<ToolInfo>, tools: seq<Json>, tool: Json)
    ensures Kept(c, injected, tools + [tool])
         == Kept(c, injected, tools) + if Collides(c, injected, tool) then [] else [tool]
    ensures Collisions(c, injected, tools + [tool])
         == Collisions(c, injected, tools)
            + if Collides(c, injected, tool) then [c.probe(tool).value] else []
  {
    if tools == [] {
      assert [tool][1..] == [];
      assert [] + [tool] == [tool];
    } else {
      assert (tools + [tool])[1..] == tools[1..] + [tool];
      FilterAppend(c, injected, tools[1..], tool);
    }
  }

  /**
   kept := tools[:0] over the same backing array: entries that stay are moved forward over
   entries already read, and what is not yet read is never overwritten.
   */
  method FilterInPlace(c: Codec, injected: seq<ToolInfo>, names: set<string>, tools: array<Json>)
    returns (kept: nat, collisions: seq<string>)
    requires forall name :: name in names <==> name in Names(injected)
    modifies tools
    ensures kept <= tools.Length
    ensures tools[..kept] == Kept(c, injected, old(tools[..]))
    ensures tools[kept..] == old(tools[kept..])
    ensures collisions == Collisions(c, injected, old(tools[..]))
  {
    ghost var was := tools[..];
    kept, collisions := 0, [];
    for i := 0 to tools.Length
      invariant kept <= i
      invariant tools[..kept] == Kept(c, injected, was[..i])
      invariant tools[kept..] == was[kept..]
      invariant collisions == Collisions(c, injected, was[..i])
    {
      var raw := tools[i];
      assert raw == tools[kept..][i - kept] == was[i];
      FilterAppend(c, injected, was[..i], raw);
      assert was[..i + 1] == was[..i] + [raw];
      var name := c.probe(raw);
      if name.Some? && name.value in names {
        collisions := collisions + [name.value];
      } else {
        ghost var before := tools[..kept];
        tools[kept] := raw;
        kept := kept + 1;
        assert tools[..kept] == before + [raw];
        assert tools[kept..] == was[kept..];
      }
    }
    assert was[..tools.Length] == was;
  }

  /** Go's append to the slice buf[:n]: into the backing array while there is room, else into a larger copy. */
  method Append(buf: array<Json>, n: nat, x: Json) returns (grown: array<Json>)
    requires n <= buf.Length
    modifies buf
    ensures n < grown.Length && grown[..n + 1] == old(buf[..n]) + [x]
    ensures grown == buf || fresh(grown)
  {
    if n < buf.Length {
      buf[n] := x;
      grown := buf;
    } else {
      grown := new Json[2 * n + 1](i requires i >= 0 reads buf => if i < n && i < buf.Length then buf[i] else Null);
      grown[n] := x;
      assert grown[..n] == buf[..n];
    }
    assert grown[..n + 1] == grown[..n] + [x];
  }

  lemma {:induction false} EncodedAppend(c: Codec, tools: seq<ToolInfo>, t: ToolInfo)
    ensures Encoded(c, tools + [t]) == Encoded(c, tools) + [c.encode(t)]
  {
    if tools == [] {
      assert [t][1..] == [] && [] + [t] == [t];
    } else {
      assert (tools + [t])[1..] == tools[1..] + [t];
      EncodedAppend(c, tools[1..], t);
    }
  }

  lemma {:induction false} NamesAppend(tools: seq<ToolInfo>, t: ToolInfo)
    ensures Names(tools + [t]) == Names(tools) + [t.name]
  {
    if tools == [] {
      assert [t][1..] == [] && [] + [t] == [t];
    } else {
      assert (tools + [t])[1..] == tools[1..] + [t];
      NamesAppend(tools[1..], t);
    }
  }

  method CollectNames(injected: seq<ToolInfo>) returns (names: set<string>)
    ensures forall name :: name in names <==> name in Names(injected)
  {
    names := {};
    for i := 0 to |injected|
      invariant forall name :: name in names <==> name in Names(injected[..i])
    {
      NamesAppend(injected[..i], injected[i]);
      assert injected[..i + 1] == injected[..i] + [injected[i]];
      names := names + {injected[i].name};
    }
    assert injected[..|injected|] == injected;
  }

  method AppendInjected(c: Codec, injected: seq<ToolInfo>, tools: array<Json>, kept: nat)
    returns (list: seq<Json>)
    requires kept <= tools.Length
    modifies tools
    ensures list == old(tools[..kept]) + Encoded(c, injected)
  {
    ghost var front := tools[..kept];
    var buf, n := tools, kept;
    assert front + Encoded(c, injected[..0]) == front;
    for i := 0 to |injected|
      invariant buf == tools || fresh(buf)
      invariant n <= buf.Length && buf[..n] == front + Encoded(c, injected[..i])
    {
      EncodedAppend(c, injected[..i], injected[i]);
      assert injected[..i + 1] == injected[..i] + [injected[i]];
      buf := Append(buf, n, c.encode(injected[i]));
      n := n + 1;
    }
    assert injected[..|injected|] == injected;
    list := buf[..n];
  }

  /** MergeToolsListResult, step by step. */
  method MergeToolsListResult(c: Codec, result: Json, injected: seq<ToolInfo>) returns (r: MergeOutcome)
    ensures r == Merge(c, result, injected)
  {
    if !result.Null? && !result.Object? {
      return Unmergeable;
    }
    var fields := if result.Object? then result.fields else map[];
    var decoded := UpstreamTools(fields);
    if decoded.None? {
      return Unmergeable;
    }
    var items := decoded.value;
    var names := CollectNames(injected);
    var tools := new Json[|items|](i requires 0 <= i < |items| => items[i]);
    assert tools[..] == items;
    var kept, collisions := FilterInPlace(c, injected, names, tools);
    var list := AppendInjected(c, injected, tools, kept);
    if result.Null? {
      return NilMapPanic;
    }
    var isNil := ("tools" in fields ==> fields["tools"].Null?) && |injected| == 0;
    return Merged(Object(fields["tools" := if isNil then Null else Array(list)]), collisions);
  }

  // ---------- what the merge guarantees ----------

  lemma {:induction false} EncodedProbes(c: Codec, tools: seq<ToolInfo>)
    requires c.Valid()
    ensures |Encoded(c, tools)| == |Names(tools)| == |tools|
    ensures forall i | 0 <= i < |tools| ::
      && Names(tools)[i] == tools[i].name
      && Encoded(c, tools)[i] == c.encode(tools[i])
      && c.probe(Encoded(c, tools)[i]) == Some(tools[i].name)
  {
    if tools == [] {
    } else {
      EncodedProbes(c, tools[1..]);
    }
  }

  lemma {:induction false} KeptDoNotCollide(c: Codec, injected: seq<ToolInfo>, tools: seq<Json>)
    ensures forall i | 0 <= i < |Kept(c, injected, tools)| ::
      !Collides(c, injected, Kept(c, injected, tools)[i]) && Kept(c, injected, tools)[i] in tools
  {
    if tools == [] {
    } else {
      KeptDoNotCollide(c, injected, tools[1..]);
    }
  }

  lemma {:induction false} FilterIsIdle(c: Codec, injected: seq<ToolInfo>, tools: seq<Json>, rest: seq<Json>)
    requires forall i | 0 <= i < |tools| :: !Collides(c, injected, tools[i])
    ensures Kept(c, injected, tools + rest) == tools + Kept(c, injected, rest)
    ensures Collisions(c, injected, tools + rest) == Collisions(c, injected, rest)
  {
    if tools == [] {
      assert tools + rest == rest;
      assert tools + Kept(c, injected, rest) == Kept(c, injected, rest);
    } else {
      assert (tools + rest)[1..] == tools[1..] + rest;
      FilterIsIdle(c, injected, tools[1..], rest);
      assert [tools[0]] + (tools[1..] + Kept(c, injected, rest)) == tools + Kept(c, injected, rest);
    }
  }

  lemma {:induction false} FilterDropsInjected(c: Codec, injected: seq<ToolInfo>, some: seq<ToolInfo>)
    requires c.Valid() && forall i | 0 <= i < |some| :: some[i].name in Names(injected)
    ensures Kept(c, injected, Encoded(c, some)) == []
    ensures Collisions(c, injected, Encoded(c, some)) == Names(some)
  {
    if some == [] {
    } else {
      assert c.probe(c.encode(some[0])) == Some(some[0].name);
      assert Encoded(c, some)[1..] == Encoded(c, some[1..]);
      FilterDropsInjected(c, injected, some[1..]);
    }
  }

  // ---------- the merge, entry by entry ----------

  /** The entry has the name of one of these tools; one that does not decode has no name. */
  ghost predicate IsNamed(c: Codec, injected: seq<ToolInfo>, tool: Json) {
    exists i :: 0 <= i < |injected| && c.probe(tool) == Some(injected[i].name)
  }

  lemma {:induction false} NamesAre(tools: seq<ToolInfo>)
    ensures |Names(tools)| == |tools| && forall i | 0 <= i < |tools| :: Names(tools)[i] == tools[i].name
  {
    if tools == [] {
    } else {
      NamesAre(tools[1..]);
    }
  }

  lemma CollidesIsNamed(c: Codec, injected: seq<ToolInfo>, tool: Json)
    ensures Collides(c, injected, tool) <==> IsNamed(c, injected, tool)
  {
    NamesAre(injected);
    if Collides(c, injected, tool) {
      var i :| 0 <= i < |injected| && Names(injected)[i] == c.probe(tool).value;
      assert c.probe(tool) == Some(injected[i].name);
    }
  }

  /** The places, from first to last, of the entries that have one of these names, or have none. */
  ghost predicate Selects(c: Codec, injected: seq<ToolInfo>, tools: seq<Json>, named: bool, places: seq<nat>) {
    && (forall j, k | 0 <= j < k < |places| :: places[j] < places[k])
    && (forall j | 0 <= j < |places| :: places[j] < |tools| && IsNamed(c, injected, tools[places[j]]) == named)
    && (forall i | 0 <= i < |tools| && IsNamed(c, injected, tools[i]) == named :: i in places)
  }

  /** These are all the entries without one of these names, in their order. */
  ghost predicate AreTheOthers(c: Codec, injected: seq<ToolInfo>, tools: seq<Json>, stay: seq<nat>, others: seq<Json>) {
    && Selects(c, injected, tools, false, stay)
    && |others| == |stay| && forall j | 0 <= j < |stay| :: others[j] == tools[stay[j]]
  }

  /** These are the names of all the other entries, in their order. */
  ghost predicate AreTheCollisions(
    c: Codec, injected: seq<ToolInfo>, tools: seq<Json>, go: seq<nat>, collisions: seq<string>)
  {
    && Selects(c, injected, tools, true, go)
    && |collisions| == |go| && forall j | 0 <= j < |go| :: c.probe(tools[go[j]]) == Some(collisions[j])
  }

  lemma SelectsSkips(c: Codec, injected: seq<ToolInfo>, tools: seq<Json>, tool: Json, named: bool, places: seq<nat>)
    requires Selects(c, injected, tools, named, places) && IsNamed(c, injected, tool) != named
    ensures Selects(c, injected, tools + [tool], named, places)
  {
    var all := tools + [tool];
    forall i | 0 <= i < |all| && IsNamed(c, injected, all[i]) == named
      ensures i in places
    {
      assert all[i] == tools[i];
    }
  }

  lemma SelectsTakes(c: Codec, injected: seq<ToolInfo>, tools: seq<Json>, tool: Json, named: bool, places: seq<nat>)
    requires Selects(c, injected, tools, named, places) && IsNamed(c, injected, tool) == named
    ensures Selects(c, injected, tools + [tool], named, places + [|tools|])
  {
    var all, more := tools + [tool], places + [|tools|];
    forall j | 0 <= j < |more|
      ensures more[j] < |all| && IsNamed(c, injected, all[more[j]]) == named
    {
      if j < |places| {
        assert all[places[j]] == tools[places[j]];
      }
    }
    forall i | 0 <= i < |all| && IsNamed(c, injected, all[i]) == named
      ensures i in more
    {
      if i < |tools| {
        assert all[i] == tools[i];
        assert i in places;
      } else {
        assert more[|places|] == i;
      }
    }
  }

  lemma {:induction false} KeptAreTheOthers(c: Codec, injected: seq<ToolInfo>, tools: seq<Json>)
    returns (stay: seq<nat>)
    ensures AreTheOthers(c, injected, tools, stay, Kept(c, injected, tools))
    decreases |tools|
  {
    if tools == [] {
      stay := [];
    } else {
      var front, tool := tools[..|tools| - 1], tools[|tools| - 1];
      assert tools == front + [tool];
      stay := KeptAreTheOthers(c, injected, front);
      FilterAppend(c, injected, front, tool);
      CollidesIsNamed(c, injected, tool);
      if IsNamed(c, injected, tool) {
        SelectsSkips(c, injected, front, tool, false, stay);
      } else {
        SelectsTakes(c, injected, front, tool, false, stay);
        stay := stay + [|front|];
      }
    }
  }

  lemma {:induction false} CollisionsAreTheNamed(c: Codec, injected: seq<ToolInfo>, tools: seq<Json>)
    returns (go: seq<nat>)
    ensures AreTheCollisions(c, injected, tools, go, Collisions(c, injected, tools))
    decreases |tools|
  {
    if tools == [] {
      go := [];
    } else {
      var front, tool := tools[..|tools| - 1], tools[|tools| - 1];
      assert tools == front + [tool];
      go := CollisionsAreTheNamed(c, injected, front);
      FilterAppend(c, injected, front, tool);
      CollidesIsNamed(c, injected, tool);
      if IsNamed(c, injected, tool) {
        SelectsTakes(c, injected, front, tool, true, go);
        go := go + [|front|];
      } else {
        SelectsSkips(c, injected, front, tool, true, go);
      }
    }
  }

  /** Upstream's other entries in their order, then the injected definitions in theirs. */
  ghost predicate IsMergeOf(
    c: Codec, injected: seq<ToolInfo>, tools: seq<Json>, list: seq<Json>, collisions: seq<string>)
  {
    && |list| >= |injected|
    && var k := |list| - |injected|;
    && (exists stay :: AreTheOthers(c, injected, tools, stay, list[..k]))
    && (forall i | 0 <= i < |injected| :: list[k + i] == c.encode(injected[i]))
    && exists go :: AreTheCollisions(c, injected, tools, go, collisions)
  }

  lemma {:induction false} EncodedAre(c: Codec, tools: seq<ToolInfo>)
    ensures |Encoded(c, tools)| == |tools| && forall i | 0 <= i < |tools| :: Encoded(c, tools)[i] == c.encode(tools[i])
  {
    if tools == [] {
    } else {
      EncodedAre(c, tools[1..]);
    }
  }

  lemma PartsAreMerge(
    c: Codec, injected: seq<ToolInfo>, tools: seq<Json>, stay: seq<nat>, others: seq<Json>, locals: seq<Json>,
    go: seq<nat>, collisions: seq<string>)
    requires AreTheOthers(c, injected, tools, stay, others) && AreTheCollisions(c, injected, tools, go, collisions)
    requires |locals| == |injected| && forall i | 0 <= i < |injected| :: locals[i] == c.encode(injected[i])
    ensures IsMergeOf(c, injected, tools, others + locals, collisions)
  {
    var list := others + locals;
    var k := |list| - |injected|;
    assert list[..k] == others;
    forall i | 0 <= i < |injected|
      ensures list[k + i] == c.encode(injected[i])
    {
      assert list[k + i] == locals[i];
    }
  }

  lemma FilteredListIsMerge(c: Codec, injected: seq<ToolInfo>, tools: seq<Json>)
    ensures IsMergeOf(c, injected, tools,
      Kept(c, injected, tools) + Encoded(c, injected), Collisions(c, injected, tools))
  {
    var stay := KeptAreTheOthers(c, injected, tools);
    var go := CollisionsAreTheNamed(c, injected, tools);
    EncodedAre(c, injected);
    PartsAreMerge(c, injected, tools, stay, Kept(c, injected, tools), Encoded(c, injected),
      go, Collisions(c, injected, tools));
  }

  ghost predicate DistinctNames(tools: seq<ToolInfo>) {
    forall i, j | 0 <= i < j < |tools| :: tools[i].name != tools[j].name
  }

  /** The places in a merged list whose entry has the given name. */
  ghost predicate NamedAt(c: Codec, list: seq<Json>, name: string, k: nat) {
    k < |list| && c.probe(list[k]) == Some(name)
  }

  lemma OthersHaveOtherNames(
    c: Codec, injected: seq<ToolInfo>, tools: seq<Json>, stay: seq<nat>, others: seq<Json>, i: nat)
    requires AreTheOthers(c, injected, tools, stay, others) && i < |injected|
    ensures forall l | 0 <= l < |others| :: c.probe(others[l]) != Some(injected[i].name)
  {
    forall l | 0 <= l < |others|
      ensures c.probe(others[l]) != Some(injected[i].name)
    {
      assert others[l] == tools[stay[l]] && !IsNamed(c, injected, tools[stay[l]]);
    }
  }

  /** In a merged list each injected name occurs exactly once, with the local definition. */
  lemma MergeListsOnce(
    c: Codec, injected: seq<ToolInfo>, tools: seq<Json>, list: seq<Json>, collisions: seq<string>, i: nat)
    requires c.Valid() && DistinctNames(injected) && i < |injected|
    requires IsMergeOf(c, injected, tools, list, collisions)
    ensures exists k: nat ::
      && NamedAt(c, list, injected[i].name, k)
      && list[k] == c.encode(injected[i])
      && forall l: nat :: NamedAt(c, list, injected[i].name, l) ==> l == k
  {
    var n := |list| - |injected|;
    var stay :| AreTheOthers(c, injected, tools, stay, list[..n]);
    OthersHaveOtherNames(c, injected, tools, stay, list[..n], i);
    assert forall l | 0 <= l < n :: list[l] == list[..n][l];
    assert forall j | 0 <= j < |injected| :: c.probe(list[n + j]) == Some(injected[j].name);
    assert NamedAt(c, list, injected[i].name, n + i);
    forall l: nat | NamedAt(c, list, injected[i].name, l)
      ensures l == n + i
    {
      assert l >= n ==> list[n + (l - n)] == list[l];
      assert l >= n ==> injected[l - n].name == injected[i].name;
    }
  }

  /** The result of tools/list is one that can be merged: its "tools" is a list, null or absent. */
  predicate CanMerge(result: Json) {
    result.Object? && ("tools" in result.fields ==> result.fields["tools"].Array? || result.fields["tools"].Null?)
  }

  /** Upstream's entries, none if there is no list. */
  function ListOf(result: Json): seq<Json>
    requires result.Object?
  {
    if "tools" in result.fields && result.fields["tools"].Array? then result.fields["tools"].items else []
  }

  /**
   Every upstream entry that has no injected name stays, where it was among the others; the local
   definitions follow; and the names of the entries that do not stay are what is reported.
   */
  lemma MergeKeepsTheOthers(c: Codec, result: Json, injected: seq<ToolInfo>)
    ensures Merge(c, result, injected).Merged? <==> CanMerge(result)
    ensures var m := Merge(c, result, injected);
      m.Merged? ==>
        && m.result.Object? && "tools" in m.result.fields
        && var list := m.result.fields["tools"];
        if injected == [] && ("tools" in result.fields ==> result.fields["tools"].Null?) then
          list == Null && m.collisions == []
        else
          list.Array? && IsMergeOf(c, injected, ListOf(result), list.items, m.collisions)
  {
    if CanMerge(result) {
      FilteredListIsMerge(c, injected, ListOf(result));
    }
  }

  /** The list of a merged result. */
  function MergedTools(c: Codec, result: Json, injected: seq<ToolInfo>): seq<Json>
    requires Merge(c, result, injected).Merged?
  {
    UpstreamTools(Merge(c, result, injected).result.fields).value
  }

  lemma MergedToolsAre(c: Codec, result: Json, injected: seq<ToolInfo>)
    requires Merge(c, result, injected).Merged?
    ensures MergedTools(c, result, injected)
         == Kept(c, injected, UpstreamTools(result.fields).value) + Encoded(c, injected)
  {
  }

  lemma FilterOfMerged(c: Codec, injected: seq<ToolInfo>, tools: seq<Json>)
    requires c.Valid()
    ensures var merged := Kept(c, injected, tools) + Encoded(c, injected);
      Kept(c, injected, merged) + Encoded(c, injected) == merged && Collisions(c, injected, merged) == Names(injected)
  {
    var kept := Kept(c, injected, tools);
    KeptDoNotCollide(c, injected, tools);
    EncodedProbes(c, injected);
    assert forall i | 0 <= i < |injected| :: injected[i].name == Names(injected)[i];
    FilterIsIdle(c, injected, kept, Encoded(c, injected));
    FilterDropsInjected(c, injected, injected);
    assert kept + [] == kept;
  }

  /** A list that the filter and the definitions give back is left as it is. */
  lemma MergeAgain(c: Codec, fields: map<string, Json>, list: Json, tools: seq<Json>, injected: seq<ToolInfo>)
    requires if injected == [] then list == Array(tools) || (list == Null && tools == []) else list == Array(tools)
    requires Kept(c, injected, tools) + Encoded(c, injected) == tools
    requires Collisions(c, injected, tools) == Names(injected)
    ensures var once := Object(fields["tools" := list]);
      Merge(c, once, injected) == Merged(once, Names(injected))
  {
    assert fields["tools" := list]["tools" := list] == fields["tools" := list];
  }

  /** Merging a merged list again changes nothing and reports every injected name as a collision. */
  lemma MergeIsIdempotent(c: Codec, result: Json, injected: seq<ToolInfo>)
    requires c.Valid()
    ensures var once := Merge(c, result, injected);
      once.Merged? ==> Merge(c, once.result, injected) == Merged(once.result, Names(injected))
  {
    if Merge(c, result, injected).Merged? {
      var tools := UpstreamTools(result.fields).value;
      var merged := Kept(c, injected, tools) + Encoded(c, injected);
      FilterOfMerged(c, injected, tools);
      if StaysNil(result.fields, injected) {
        assert merged == [];
        MergeAgain(c, result.fields, Null, [], injected);
      } else {
        MergeAgain(c, result.fields, Array(merged), merged, injected);
      }
    }
  }

  /** Everything in the result but "tools" is what upstream sent. */
  lemma MergeTouchesOnlyTools(c: Codec, result: Json, injected: seq<ToolInfo>)
    ensures var m := Merge(c, result, injected);
      m.Merged? ==>
        && result.Object? && m.result.Object?
        && m.result.fields.Keys == result.fields.Keys + {"tools"}
        && forall key | key in result.fields && key != "tools" :: m.result.fields[key] == result.fields[key]
    ensures (Merge(c, result, injected) == NilMapPanic) <==> result == Null
  {
  }

  /** In a merged list each injected name occurs exactly once, with the local definition. */
  lemma InjectedOccurOnce(c: Codec, result: Json, injected: seq<ToolInfo>, i: nat)
    requires c.Valid() && DistinctNames(injected) && i < |injected|
    requires Merge(c, result, injected).Merged?
    ensures var list := MergedTools(c, result, injected);
      exists k: nat ::
        && NamedAt(c, list, injected[i].name, k)
        && list[k] == c.encode(injected[i])
        && forall l: nat :: NamedAt(c, list, injected[i].name, l) ==> l == k
  {
    var tools := UpstreamTools(result.fields).value;
    MergedToolsAre(c, result, injected);
    FilteredListIsMerge(c, injected, tools);
    MergeListsOnce(c, injected, tools, MergedTools(c, result, injected), Collisions(c, injected, tools), i);
  }
}
