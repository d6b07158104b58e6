/** The agent list: at most one agent is expanded at a time, and clicking an
    agent expands it or, when it already is expanded, collapses it. */
module Agents {
  import opened Wrappers
  import opened Seqs

  /** The fields of an agent the expansion logic looks at. */
  datatype Agent = Agent(id: string, hostname: string, status: string)

  /** `expandedAgentId === id ? null : id` */
  function NextExpanded(current: Option<string>, id: string): (r: Option<string>)
    ensures current == Some(id) ==> r.None?
    ensures current != Some(id) ==> r == Some(id)
  {
    if current == Some(id) then None else Some(id)
  }

  /** Clicking the same agent twice gives back the state before only when it
      was the expanded one; otherwise the agent ends collapsed. */
  lemma ClickTwice(current: Option<string>, id: string)
    ensures NextExpanded(NextExpanded(current, id), id) == if current == Some(id) then current else None
  {
  }

  /** The agent's panel is the expanded one. */
  function PanelOpen(expanded: Option<string>): Agent -> bool {
    (a: Agent) => expanded == Some(a.id)
  }

  /** The agents whose detail panel is rendered, in list order, one panel per
      list entry with the expanded id. */
  function DetailPanels(agents: seq<Agent>, expanded: Option<string>): (r: seq<Agent>)
    ensures forall a :: a in r <==> a in agents && expanded == Some(a.id)
    ensures IsSubseq(r, agents) && |r| == KeptCount(agents, PanelOpen(expanded))
    ensures expanded.None? ==> r == []
  {
    FilterCount(agents, PanelOpen(expanded));
    Filter(agents, PanelOpen(expanded))
  }

  predicate DistinctIds(agents: seq<Agent>) {
    forall i, j :: 0 <= i < j < |agents| ==> agents[i].id != agents[j].id
  }

  /** With distinct agent ids, at most one detail panel is open. */
  lemma {:induction false} AtMostOnePanel(agents: seq<Agent>, expanded: Option<string>)
    requires DistinctIds(agents)
    ensures |DetailPanels(agents, expanded)| <= 1
  {
    var keep := PanelOpen(expanded);
    if agents != [] {
      assert DistinctIds(agents[1..]);
      AtMostOnePanel(agents[1..], expanded);
      FilterStep(agents, keep);
      if keep(agents[0]) {
        forall a | a in agents[1..] ensures !keep(a) {
          var j :| 0 <= j < |agents[1..]| && agents[1..][j] == a;
          assert agents[j + 1] == a;
        }
      }
    }
  }

  /** The page's expansion state. */
  class AgentList {
    /** The `expandedAgentId` state cell. */
    var expanded: Option<string>

    constructor ()
      ensures expanded == None
    {
      expanded := None;
    }

    /** `toggleExpand` */
    method ToggleExpand(id: string)
      modifies this
      ensures expanded == NextExpanded(old(expanded), id)
    {
      expanded := if expanded == Some(id) then None else Some(id);
    }
  }
}
