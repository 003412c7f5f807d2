/** The tool registry: a dictionary from tool name to its spec, filled at
    start-up by `init_tools`, and looked up by name when a chat turn runs a
    tool. A handler is identified by the pipeline it runs. */
module ToolRegistry {

  import opened Common

  datatype Handler =
    | FindMaterialsPipeline
    | ViewNoticesPipeline
    | CoverGeneratorPipeline
    | CheckMarksPipeline
    | GenerateMarksheetPipeline

  datatype ToolSpec = ToolSpec(name: string, handler: Handler)

  /** Every entry is filed under its own name. */
  predicate FiledByName(tools: map<string, ToolSpec>)
  {
    forall n :: n in tools ==> tools[n].name == n
  }

  function UnknownToolMessage(name: string): string
  {
    "Unknown tool: " + name
  }

  /** `get_tool` on the dictionary: the registered spec, or ValueError. */
  function Lookup(tools: map<string, ToolSpec>, name: string): (r: Result<ToolSpec>)
    ensures r.Ok? <==> name in tools
    ensures r.Ok? ==> r.value == tools[name]
    ensures r.Err? ==> r.error == ValueError(UnknownToolMessage(name))
  {
    if name !in tools then Err(ValueError(UnknownToolMessage(name))) else Ok(tools[name])
  }

  /** The five tools `init_tools` registers, in its order. */
  const InitSpecs: seq<ToolSpec> := [
    ToolSpec("find_materials", FindMaterialsPipeline),
    ToolSpec("view_notices", ViewNoticesPipeline),
    ToolSpec("generate_cover_page", CoverGeneratorPipeline),
    ToolSpec("check_marks", CheckMarksPipeline),
    ToolSpec("generate_marksheet", GenerateMarksheetPipeline)
  ]

  /** The dictionary after `init_tools`. */
  function AfterInit(tools: map<string, ToolSpec>): map<string, ToolSpec>
  {
    tools[InitSpecs[0].name := InitSpecs[0]][InitSpecs[1].name := InitSpecs[1]]
         [InitSpecs[2].name := InitSpecs[2]][InitSpecs[3].name := InitSpecs[3]]
         [InitSpecs[4].name := InitSpecs[4]]
  }

  /** After `init_tools` the five names are registered, each with its own
      pipeline, and every other entry is as it was. */
  lemma InitToolsTable(tools: map<string, ToolSpec>)
    ensures AfterInit(tools).Keys == tools.Keys + set i | 0 <= i < |InitSpecs| :: InitSpecs[i].name
    ensures forall i :: 0 <= i < |InitSpecs| ==> Lookup(AfterInit(tools), InitSpecs[i].name) == Ok(InitSpecs[i])
    ensures forall n :: n in tools && (forall i :: 0 <= i < |InitSpecs| ==> InitSpecs[i].name != n)
                        ==> AfterInit(tools)[n] == tools[n]
    ensures FiledByName(tools) ==> FiledByName(AfterInit(tools))
  {
    assert |InitSpecs[0].name| == 14 && |InitSpecs[1].name| == 12 && |InitSpecs[2].name| == 19
        && |InitSpecs[3].name| == 11 && |InitSpecs[4].name| == 18;
  }

  /** On the empty start-up registry: exactly the five tools. */
  lemma InitEmptyRegistry()
    ensures AfterInit(map[]).Keys == set i | 0 <= i < |InitSpecs| :: InitSpecs[i].name
  {
    InitToolsTable(map[]);
  }

  /** `TOOL_REGISTRY` with `register_tool` and `get_tool`. */
  class Registry {
    var tools: map<string, ToolSpec>

    ghost predicate Valid()
      reads this
    {
      FiledByName(tools)
    }

    /** The registry starts empty. */
    constructor()
      ensures Valid() && tools == map[]
    {
      tools := map[];
    }

    /** `register_tool`: inserts or overwrites the entry under the spec's
        name; every other entry stays as it was. */
    method Register(spec: ToolSpec)
      requires Valid()
      modifies this
      ensures Valid()
      ensures tools == old(tools)[spec.name := spec]
      ensures forall n :: n != spec.name ==> (n in tools <==> n in old(tools))
      ensures forall n :: n != spec.name && n in tools ==> tools[n] == old(tools)[n]
    {
      tools := tools[spec.name := spec];
    }

    function Get(name: string): (r: Result<ToolSpec>)
      reads this
      ensures r.Ok? <==> name in tools
      ensures r.Ok? ==> r.value == tools[name]
      ensures Valid() && r.Ok? ==> r.value.name == name
    {
      Lookup(tools, name)
    }

    /** `init_tools`: registers the five tools one after the other. */
    method InitTools()
      requires Valid()
      modifies this
      ensures Valid()
      ensures tools == AfterInit(old(tools))
    {
      InitToolsTable(tools);
      Register(InitSpecs[0]);
      Register(InitSpecs[1]);
      Register(InitSpecs[2]);
      Register(InitSpecs[3]);
      Register(InitSpecs[4]);
    }
  }
}
