/** The node list of the network topology editor: adding a node, overlaying
    new data onto the nodes with a given id, deleting them, and the selected
    node the properties panel shows. Edges are kept but never edited here. */
module NetworkTopology {
  import opened Wrappers
  import opened Strings
  import opened Seqs

  /** A canvas position; the editor draws it at random for a new node, so it
      is an input here. */
  datatype Position = Position(x: real, y: real)

  /** A graph node: its id, its renderer kind, its position and its data
      record (label, type, status, ip, ...), a string-to-string map. */
  datatype Node = Node(id: string, kind: string, position: Position, data: map<string, string>)

  datatype Edge = Edge(id: string, source: string, target: string)

  /** The data of a freshly added node whose id is `id`. */
  function NewNodeData(id: string): (d: map<string, string>)
    ensures d.Keys == {"label", "type", "status", "ip"}
  {
    map["label" := "New Node " + id, "type" := "server", "status" := "healthy", "ip" := "10.0.99." + id]
  }

  /** The node `handleAddNode` builds when the list has `count` nodes: its id
      is the decimal rendering of `count + 1`. */
  function NewNode(count: nat, position: Position): (n: Node)
    ensures IsDecimal(n.id) && ParseNat(n.id) == count + 1
    ensures |n.id| > 1 ==> n.id[0] != '0'
    ensures n.kind == "custom" && n.position == position
    ensures n.data.Keys == {"label", "type", "status", "ip"}
    ensures n.data["label"] == "New Node " + n.id && n.data["ip"] == "10.0.99." + n.id
    ensures n.data["type"] == "server" && n.data["status"] == "healthy"
  {
    ParseNatToString(count + 1);
    var id := NatToString(count + 1);
    Node(id, "custom", position, NewNodeData(id))
  }

  /** `{ ...node, data: { ...node.data, ...newData } }`: the keys of `newData`
      win. */
  function Overlay(node: Node, newData: map<string, string>): (r: Node)
    ensures r.id == node.id && r.kind == node.kind && r.position == node.position
    ensures r.data.Keys == node.data.Keys + newData.Keys
    ensures forall k :: k in newData ==> r.data[k] == newData[k]
    ensures forall k :: k in node.data && k !in newData ==> r.data[k] == node.data[k]
  {
    node.(data := node.data + newData)
  }

  /** The list `handleUpdateNode` installs. */
  function UpdateNodes(nodes: seq<Node>, id: string, newData: map<string, string>): (r: seq<Node>)
    ensures |r| == |nodes|
    ensures forall i :: 0 <= i < |nodes| && nodes[i].id == id ==> r[i] == Overlay(nodes[i], newData)
    ensures forall i :: 0 <= i < |nodes| && nodes[i].id != id ==> r[i] == nodes[i]
  {
    Map((node: Node) => if node.id == id then Overlay(node, newData) else node, nodes)
  }

  /** The list `handleDeleteNode` installs. */
  function DeleteNodes(nodes: seq<Node>, id: string): (r: seq<Node>)
    ensures forall n :: n in r <==> n in nodes && n.id != id
    ensures IsSubseq(r, nodes) && |r| == KeptCount(nodes, Survives(id))
  {
    FilterCount(nodes, Survives(id));
    Filter(nodes, Survives(id))
  }

  /** The node is not the one being deleted. */
  function Survives(id: string): Node -> bool {
    (node: Node) => node.id != id
  }

  /** Every node keeps its id, so an update never changes which ids exist. */
  lemma UpdateKeepsIds(nodes: seq<Node>, id: string, newData: map<string, string>)
    ensures forall i :: 0 <= i < |nodes| ==> UpdateNodes(nodes, id, newData)[i].id == nodes[i].id
  {
  }

  /** Updating an id that no node has leaves the list as it was. */
  lemma UpdateAbsentId(nodes: seq<Node>, id: string, newData: map<string, string>)
    requires forall i :: 0 <= i < |nodes| ==> nodes[i].id != id
    ensures UpdateNodes(nodes, id, newData) == nodes
  {
  }

  /** Saving the same data twice is saving it once. */
  lemma UpdateIdempotent(nodes: seq<Node>, id: string, newData: map<string, string>)
    ensures UpdateNodes(UpdateNodes(nodes, id, newData), id, newData) == UpdateNodes(nodes, id, newData)
  {
    var once := UpdateNodes(nodes, id, newData);
    forall i | 0 <= i < |nodes| && nodes[i].id == id
      ensures Overlay(once[i], newData) == once[i]
    {
      assert once[i].data + newData == once[i].data;
    }
  }

  /** The next id is the list length plus one and is not checked against the
      ids in use: deleting node "1" of ["1", "2"] and adding a node gives a
      second node "2". */
  lemma DeleteThenAddDuplicatesId(p: Position, q: Position)
    ensures
      var nodes := [NewNode(0, p), NewNode(1, q)];
      var after := DeleteNodes(nodes, "1");
      var added := after + [NewNode(|after|, p)];
      |added| == 2 && added[0].id == "2" && added[1].id == "2"
  {
    var nodes := [NewNode(0, p), NewNode(1, q)];
    assert nodes[0].id == "1" && nodes[1].id == "2";
    assert DeleteNodes(nodes, "1") == [nodes[1]];
  }

  /** The topology page's editing state. */
  class TopologyEditor {
    /** The `nodes` state cell. */
    var nodes: seq<Node>
    /** The `edges` state cell. */
    var edges: seq<Edge>
    /** The `selectedNode` state cell: the node the properties panel shows. */
    var selected: Option<Node>

    constructor ()
      ensures nodes == [] && edges == [] && selected == None
    {
      nodes := [];
      edges := [];
      selected := None;
    }

    /** `onNodeClick`: the clicked node becomes the selection. */
    method NodeClick(node: Node)
      modifies this
      ensures selected == Some(node)
      ensures nodes == old(nodes) && edges == old(edges)
    {
      selected := Some(node);
    }

    /** `handleAddNode`: appends one node and keeps the earlier ones. */
    method AddNode(position: Position)
      modifies this
      ensures nodes == old(nodes) + [NewNode(|old(nodes)|, position)]
      ensures edges == old(edges) && selected == old(selected)
    {
      nodes := nodes + [NewNode(|nodes|, position)];
    }

    /** `handleUpdateNode`: overlays `newData` onto every node with that id
        and onto the selection, if there is one. */
    method UpdateNode(id: string, newData: map<string, string>)
      modifies this
      ensures nodes == UpdateNodes(old(nodes), id, newData)
      ensures old(selected).Some? ==> selected == Some(Overlay(old(selected).value, newData))
      ensures old(selected).None? ==> selected == None
      ensures edges == old(edges)
    {
      nodes := UpdateNodes(nodes, id, newData);
      if selected.Some? {
        selected := Some(Overlay(selected.value, newData));
      }
    }

    /** `handleDeleteNode`: drops every node with that id and clears the
        selection; edges to the deleted node stay. */
    method DeleteNode(id: string)
      modifies this
      ensures nodes == DeleteNodes(old(nodes), id)
      ensures selected == None
      ensures edges == old(edges)
    {
      nodes := DeleteNodes(nodes, id);
      selected := None;
    }

    /** The panel's close button. */
    method CloseProperties()
      modifies this
      ensures selected == None
      ensures nodes == old(nodes) && edges == old(edges)
    {
      selected := None;
    }
  }
}
