/** `NodeRegistry` of src/shared/NodeRegistry.py: a dictionary from node id
    to node with overwrite-on-register, silent deregistration and
    `None`-returning lookup. */
module NodeRegistries {
  import opened Wrappers
  import opened AiNodes
  import Dicts

  datatype NodeRegistry = NodeRegistry(nodes: Dicts.Dict<string, AiNode>)

  /** `NodeRegistry()`. */
  const Empty: NodeRegistry := NodeRegistry([])

  /** Every entry sits under its node's own id. */
  predicate Valid(reg: NodeRegistry)
  {
    KeyedById(reg.nodes)
  }

  /** `get_node_by_id(id)`: the node, or `None` for an unknown id. */
  function GetNodeById(reg: NodeRegistry, id: string): (r: Option<AiNode>)
    ensures r.Some? <==> id in Dicts.Keys(reg.nodes)
    ensures Valid(reg) && r.Some? ==> r.value.nodeId == id
  {
    Dicts.GetPresent(reg.nodes, id);
    Dicts.Get(reg.nodes, id)
  }

  /** `register_node(n)`: last writer wins; other ids are untouched. */
  function RegisterNode(reg: NodeRegistry, n: AiNode): (r: NodeRegistry)
    ensures GetNodeById(r, n.nodeId) == Some(n)
    ensures forall id :: id != n.nodeId ==> GetNodeById(r, id) == GetNodeById(reg, id)
    ensures Valid(reg) ==> Valid(r)
  {
    RegisterKeepsValid(reg, n);
    NodeRegistry(Dicts.Put(reg.nodes, n.nodeId, n))
  }

  lemma RegisterKeepsValid(reg: NodeRegistry, n: AiNode)
    ensures Valid(reg) ==> KeyedById(Dicts.Put(reg.nodes, n.nodeId, n))
  {
    if Valid(reg) {
      Dicts.PutKeepsUnique(reg.nodes, n.nodeId, n);
    }
  }

  /** `deregister_node(id)`: removes the id; an absent id changes nothing. */
  function DeregisterNode(reg: NodeRegistry, id: string): (r: NodeRegistry)
    ensures GetNodeById(r, id) == None
    ensures forall other :: other != id ==> GetNodeById(r, other) == GetNodeById(reg, other)
    ensures id !in Dicts.Keys(reg.nodes) ==> r == reg
    ensures Valid(reg) ==> Valid(r)
  {
    NodeRegistry(Dicts.Remove(reg.nodes, id))
  }

  /** `get_all_nodes()`: the dictionary itself, so every lookup through it
      agrees with `get_node_by_id`. */
  function GetAllNodes(reg: NodeRegistry): (r: Dicts.Dict<string, AiNode>)
    ensures forall id :: Dicts.Get(r, id) == GetNodeById(reg, id)
    ensures Dicts.Keys(r) == Dicts.Keys(reg.nodes)
  {
    reg.nodes
  }
}
