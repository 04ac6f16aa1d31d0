/** The injected tools: the names the proxy handles itself and the definitions it lists. */
module ToolSet {
  import opened JsonRpc

  const FILE_UPLOAD := "ext_file_upload"
  const FILE_UPLOAD_TO_THREAD := "ext_file_upload_to_thread"
  const FILE_DOWNLOAD := "ext_file_download"

  predicate Handles(name: string) {
    name == FILE_UPLOAD || name == FILE_UPLOAD_TO_THREAD || name == FILE_DOWNLOAD
  }

  /** The definitions in order; wording supplies a tool's description and input schema. */
  function Definitions(wording: string -> (string, Json)): seq<ToolInfo> {
    [ Definition(wording, FILE_UPLOAD),
      Definition(wording, FILE_UPLOAD_TO_THREAD),
      Definition(wording, FILE_DOWNLOAD) ]
  }

  function Definition(wording: string -> (string, Json), name: string): ToolInfo {
    ToolInfo(name, wording(name).0, wording(name).1)
  }

  lemma NamesOfThree(a: ToolInfo, b: ToolInfo, c: ToolInfo)
    ensures Names([a, b, c]) == [a.name, b.name, c.name]
  {
    assert [a, b, c][1..] == [b, c] && [b, c][1..] == [c];
    assert Names([c]) == [c.name];
    assert Names([b, c]) == [b.name, c.name];
  }

  lemma DefinitionsAreHandled(wording: string -> (string, Json), name: string)
    ensures Handles(name) <==> name in Names(Definitions(wording))
    ensures DistinctNames(Definitions(wording))
  {
    NamesOfThree(Definition(wording, FILE_UPLOAD), Definition(wording, FILE_UPLOAD_TO_THREAD),
      Definition(wording, FILE_DOWNLOAD));
    assert FILE_UPLOAD != FILE_UPLOAD_TO_THREAD by { assert |FILE_UPLOAD| != |FILE_UPLOAD_TO_THREAD|; }
    assert FILE_DOWNLOAD != FILE_UPLOAD_TO_THREAD by { assert |FILE_DOWNLOAD| != |FILE_UPLOAD_TO_THREAD|; }
    assert FILE_UPLOAD != FILE_DOWNLOAD by { assert |FILE_UPLOAD| != |FILE_DOWNLOAD|; }
  }

  /**
   The merged list tells the agent the truth: an entry names a tool that is handled locally exactly
   when it is a local definition, and every other entry is upstream's, untouched.
   */
  lemma ListAgreesWithRouting(c: Codec, wording: string -> (string, Json), result: Json, k: nat)
    requires c.Valid() && Merge(c, result, Definitions(wording)).Merged?
    requires k < |MergedTools(c, result, Definitions(wording))|
    ensures
      var defs := Definitions(wording);
      var entry := MergedTools(c, result, defs)[k];
      var local := c.probe(entry).Some? && Handles(c.probe(entry).value);
      && (local <==> entry in Encoded(c, defs))
      && (!local ==> entry in UpstreamTools(result.fields).value)
  {
    var defs := Definitions(wording);
    var tools := UpstreamTools(result.fields).value;
    var kept := Kept(c, defs, tools);
    MergedToolsAre(c, result, defs);
    KeptDoNotCollide(c, defs, tools);
    EncodedProbes(c, defs);
    var entry := MergedTools(c, result, defs)[k];
    forall name {
      DefinitionsAreHandled(wording, name);
    }
    if k < |kept| {
      assert entry == kept[k];
    } else {
      assert entry == Encoded(c, defs)[k - |kept|];
      assert Names(defs)[k - |kept|] == defs[k - |kept|].name;
    }
  }

  /** Each handled tool is listed exactly once, as it is defined here. */
  lemma HandledToolsAreListedOnce(c: Codec, wording: string -> (string, Json), result: Json, name: string)
    requires c.Valid() && Merge(c, result, Definitions(wording)).Merged? && Handles(name)
    ensures var list := MergedTools(c, result, Definitions(wording));
      exists k: nat ::
        && NamedAt(c, list, name, k)
        && list[k] == c.encode(Definition(wording, name))
        && forall l: nat :: NamedAt(c, list, name, l) ==> l == k
  {
    DefinitionsAreHandled(wording, name);
    var i := if name == FILE_UPLOAD then 0 else if name == FILE_UPLOAD_TO_THREAD then 1 else 2;
    InjectedOccurOnce(c, result, Definitions(wording), i);
  }
}
