/**
 * The workflow graph: the routing of the supervisor's output by task type,
 * and the nodes and fixed edges the graph is built from, as data.
 */
module Graph {
  import opened State

  const Start: string := "__start__"
  const End: string := "__end__"

  /** A dispatch of the state to one node. */
  datatype Send = Send(node: string, arg: TutorState)

  /** The nodes the graph registers. */
  const Nodes: set<string> := {"supervisor", "reading", "grammar", "vocabulary", "image_processor", "aggregator"}

  /** The fixed edges; the edge out of the supervisor is the routing below. */
  const Edges: set<(string, string)> := {
    (Start, "supervisor"),
    ("reading", "aggregator"),
    ("grammar", "aggregator"),
    ("vocabulary", "aggregator"),
    ("image_processor", "aggregator"),
    ("aggregator", End)
  }

  /** `route_by_task(state)`. */
  function RouteByTask(s: TutorState): (r: seq<Send>)
    ensures forall i :: 0 <= i < |r| ==> r[i].arg == s
    ensures TaskType(s) == "analyze" ==> |r| == 3 && r[0].node == "reading" && r[1].node == "grammar" && r[2].node == "vocabulary"
    ensures TaskType(s) == "image_process" ==> |r| == 1 && r[0].node == "image_processor"
    ensures TaskType(s) == "chat" ==> |r| == 1 && r[0].node == "chat"
    ensures TaskType(s) !in {"analyze", "image_process", "chat"} ==> r == []
  {
    var t := TaskType(s);
    if t == "analyze" then [Send("reading", s), Send("grammar", s), Send("vocabulary", s)]
    else if t == "image_process" then [Send("image_processor", s)]
    else if t == "chat" then [Send("chat", s)]
    else []
  }

  /** A state without a task type is routed as an analysis. */
  lemma MissingTaskIsAnalyze(s: TutorState)
    requires s.taskType.None?
    ensures RouteByTask(s) == [Send("reading", s), Send("grammar", s), Send("vocabulary", s)]
  {
  }

  /**
   * Every node an analysis or an image task is routed to is registered and
   * leads to the aggregator, which leads to the end; the chat target is not a
   * registered node.
   */
  lemma RoutedNodesReachEnd(s: TutorState)
    ensures forall i :: 0 <= i < |RouteByTask(s)| && TaskType(s) != "chat" ==>
      RouteByTask(s)[i].node in Nodes && (RouteByTask(s)[i].node, "aggregator") in Edges
    ensures ("aggregator", End) in Edges && (Start, "supervisor") in Edges
    ensures TaskType(s) == "chat" ==> RouteByTask(s)[0].node !in Nodes
  {
  }
}
