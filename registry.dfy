/**
  ToolCollection: the name-to-tool registry. All three scripts build it the
  same way; website-copycat and dungeon-crawler answer a missing tool or a
  raising tool with `None` (RunLenient), scrapybara-cli raises (RunStrict).
 */
module Registry {
  import opened Blocks

  /** Tool `i` is the last one in `tools` advertised under `name`. */
  predicate LastWithName(tools: seq<Tool>, name: string, i: int)
  {
    0 <= i < |tools| && tools[i].params.name == name &&
    forall k :: i < k < |tools| ==> tools[k].params.name != name
  }

  /** The index of the last tool advertised under `name`, or -1. */
  function LastIndex(tools: seq<Tool>, name: string): (r: int)
    ensures r == -1 <==> forall i :: 0 <= i < |tools| ==> tools[i].params.name != name
    ensures r != -1 ==> LastWithName(tools, name, r)
  {
    if |tools| == 0 then -1
    else if tools[|tools| - 1].params.name == name then |tools| - 1
    else LastIndex(tools[..|tools| - 1], name)
  }

  /** The dictionary comprehension keyed by `to_params()["name"]`: a name is
      a key iff some tool has it, and maps to the last tool that has it. */
  function ToolMap(tools: seq<Tool>): (m: map<string, Tool>)
    ensures forall name :: name in m <==> LastIndex(tools, name) != -1
    ensures forall name :: name in m ==> m[name] == tools[LastIndex(tools, name)]
  {
    if |tools| == 0 then map[]
    else
      var front, t := tools[..|tools| - 1], tools[|tools| - 1];
      ToolMap(front)[t.params.name := t]
  }

  /** The collection: the tools as given, the map built from them, and the
      truth value `bool(result)` of a returned ToolResult, which the lenient
      scripts test. The ToolResult class, and so its `__bool__`, is not part
      of this model: any predicate on results may stand for it. */
  datatype ToolCollection = ToolCollection(tools: seq<Tool>, toolMap: map<string, Tool>, resultTruth: ToolResult -> bool)

  function Collect(tools: seq<Tool>, resultTruth: ToolResult -> bool): ToolCollection
  {
    ToolCollection(tools, ToolMap(tools), resultTruth)
  }

  /** `to_params()`: every tool's parameters, in the order given. */
  function ToParams(c: ToolCollection): seq<ToolParam>
  {
    seq(|c.tools|, i requires 0 <= i < |c.tools| => c.tools[i].params)
  }

  /** `run` of website-copycat and dungeon-crawler. */
  function RunLenient(c: ToolCollection, name: string, input: ToolInput): Option<ToolResult>
  {
    if name !in c.toolMap then None
    else match c.toolMap[name].call(input)
      case Returned(r) => Some(r)
      case Raised(_) => None
  }

  const NoToolError := PyException("ValueError", "ToolCollection error, no tool found in collection!")

  /** `run` of scrapybara-cli. */
  function RunStrict(c: ToolCollection, name: string, input: ToolInput): Result<ToolResult, PyException>
  {
    if name !in c.toolMap then Err(NoToolError)
    else match c.toolMap[name].call(input)
      case Returned(r) => Ok(r)
      case Raised(e) => Err(e)
  }

  /** The index of the last tool named `name` is unique. */
  lemma LastWithNameUnique(tools: seq<Tool>, name: string, i: int, j: int)
    requires LastWithName(tools, name, i) && LastWithName(tools, name, j)
    ensures i == j
  {
  }

  /** All tool names differ. */
  predicate DistinctNames(tools: seq<Tool>)
  {
    forall i, j :: 0 <= i < j < |tools| ==> tools[i].params.name != tools[j].params.name
  }

  /** `to_params` lists every tool, duplicates included, in order, and the
      names it advertises are exactly the keys of the map. */
  lemma ParamsMatchMap(tools: seq<Tool>, truth: ToolResult -> bool)
    ensures |ToParams(Collect(tools, truth))| == |tools|
    ensures forall i :: 0 <= i < |tools| ==> ToParams(Collect(tools, truth))[i] == tools[i].params
    ensures forall name :: name in ToolMap(tools) <==>
      exists i :: 0 <= i < |ToParams(Collect(tools, truth))| && ToParams(Collect(tools, truth))[i].name == name
  {
    var ps := ToParams(Collect(tools, truth));
    forall name ensures name in ToolMap(tools) <==> exists i :: 0 <= i < |ps| && ps[i].name == name {
      if name in ToolMap(tools) {
        var i :| 0 <= i < |tools| && tools[i].params.name == name;
        assert ps[i].name == name;
      }
    }
  }

  /** The names the tools are advertised under. */
  function Names(tools: seq<Tool>): set<string>
  {
    if |tools| == 0 then {} else Names(tools[..|tools| - 1]) + {tools[|tools| - 1].params.name}
  }

  /** The map's keys are exactly the advertised names. */
  lemma {:induction false} KeysAreNames(tools: seq<Tool>)
    ensures ToolMap(tools).Keys == Names(tools)
  {
    if |tools| > 0 {
      KeysAreNames(tools[..|tools| - 1]);
    }
  }

  lemma {:induction false} NamesMembership(tools: seq<Tool>, name: string)
    ensures name in Names(tools) <==> exists i :: 0 <= i < |tools| && tools[i].params.name == name
  {
    if |tools| > 0 {
      var front := tools[..|tools| - 1];
      NamesMembership(front, name);
      if name in Names(front) {
        var i :| 0 <= i < |front| && front[i].params.name == name;
        assert tools[i] == front[i];
      }
      if exists i :: 0 <= i < |tools| && tools[i].params.name == name {
        var i :| 0 <= i < |tools| && tools[i].params.name == name;
        if i < |front| {
          assert front[i] == tools[i];
        }
      }
    }
  }

  /** Adding a tool keeps the names distinct iff its name is new. */
  lemma DistinctStep(front: seq<Tool>, t: Tool)
    ensures DistinctNames(front + [t]) <==> DistinctNames(front) && t.params.name !in Names(front)
  {
    var tools := front + [t];
    NamesMembership(front, t.params.name);
    if DistinctNames(tools) {
      forall i, j | 0 <= i < j < |front| ensures front[i].params.name != front[j].params.name {
        assert tools[i] == front[i] && tools[j] == front[j];
      }
    }
    if t.params.name in Names(front) {
      var i :| 0 <= i < |front| && front[i].params.name == t.params.name;
      assert tools[i].params.name == tools[|front|].params.name;
    }
    if DistinctNames(front) && t.params.name !in Names(front) {
      forall i, j | 0 <= i < j < |tools| ensures tools[i].params.name != tools[j].params.name {
        if j < |front| {
          assert front[i] == tools[i] && front[j] == tools[j];
        } else {
          assert front[i] == tools[i];
        }
      }
    }
  }

  /** There are at most as many names as tools, and exactly as many iff no
      two tools share a name. With KeysAreNames: the map has one entry per
      tool only when names are distinct; a duplicate is not rejected, it
      shadows the earlier tool. */
  lemma {:induction false} NamesSizeIffDistinct(tools: seq<Tool>)
    ensures |Names(tools)| <= |tools|
    ensures |Names(tools)| == |tools| <==> DistinctNames(tools)
  {
    if |tools| > 0 {
      var front, t := tools[..|tools| - 1], tools[|tools| - 1];
      assert front + [t] == tools;
      NamesSizeIffDistinct(front);
      DistinctStep(front, t);
      var k := t.params.name;
      if k in Names(front) {
        assert Names(front) + {k} == Names(front);
      }
    }
  }

  /** Lenient `run`: `None` when no tool has the name; otherwise the last
      tool of that name is called, and an exception it raises becomes `None`. */
  lemma LenientRunUsesLastTool(tools: seq<Tool>, truth: ToolResult -> bool, name: string, input: ToolInput)
    ensures (forall i :: 0 <= i < |tools| ==> tools[i].params.name != name) ==>
      RunLenient(Collect(tools, truth), name, input) == None
    ensures forall i :: LastWithName(tools, name, i) ==>
      RunLenient(Collect(tools, truth), name, input) ==
        (match tools[i].call(input) case Returned(r) => Some(r) case Raised(_) => None)
  {
    forall i | LastWithName(tools, name, i)
      ensures RunLenient(Collect(tools, truth), name, input) ==
        (match tools[i].call(input) case Returned(r) => Some(r) case Raised(_) => None)
    {
      var j :| LastWithName(tools, name, j) && ToolMap(tools)[name] == tools[j];
      LastWithNameUnique(tools, name, i, j);
    }
  }

  /** Strict `run`: a ValueError when no tool has the name; otherwise the last
      tool of that name is called and whatever it raises is raised again. */
  lemma StrictRunUsesLastTool(tools: seq<Tool>, truth: ToolResult -> bool, name: string, input: ToolInput)
    ensures (forall i :: 0 <= i < |tools| ==> tools[i].params.name != name) ==>
      RunStrict(Collect(tools, truth), name, input) == Err(NoToolError)
    ensures forall i :: LastWithName(tools, name, i) ==>
      RunStrict(Collect(tools, truth), name, input) ==
        (match tools[i].call(input) case Returned(r) => Ok(r) case Raised(e) => Err(e))
  {
    forall i | LastWithName(tools, name, i)
      ensures RunStrict(Collect(tools, truth), name, input) ==
        (match tools[i].call(input) case Returned(r) => Ok(r) case Raised(e) => Err(e))
    {
      var j :| LastWithName(tools, name, j) && ToolMap(tools)[name] == tools[j];
      LastWithNameUnique(tools, name, i, j);
    }
  }

  /** The two `run`s agree on every call that returns; the lenient one turns
      every exception, the missing-tool error included, into `None`. */
  lemma LenientIsContainedStrict(c: ToolCollection, name: string, input: ToolInput)
    ensures RunLenient(c, name, input) ==
      (match RunStrict(c, name, input) case Ok(r) => Some(r) case Err(_) => None)
  {
  }
}
