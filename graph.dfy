/**
 * The search-tree node of src/player/graph.rs.  `NodeRef<T>` is a shared handle to a
 * locked `Node<T>`; here the handle is a Dafny reference to a `Node<T>` object (the lock
 * only matters between threads).  `add_child` changes two nodes in place, which may be
 * the same node.
 */
module NodeGraph {
  import opened Wrappers

  class Node<T> {
    var data: Option<T>
    var incoming: seq<Node<T>>
    var outgoing: seq<Node<T>>

    /** `NodeRef::new(d)`: a node carrying `d`, with no edges. */
    constructor New(d: T)
      ensures data == Some(d) && incoming == [] && outgoing == []
    {
      data := Some(d);
      incoming := [];
      outgoing := [];
    }

    /** `NodeRef::new_root()`: a node without data, with no edges. */
    constructor NewRoot()
      ensures IsRoot() && incoming == [] && outgoing == []
    {
      data := None;
      incoming := [];
      outgoing := [];
    }

    /** `is_root`: the node carries no data. */
    predicate IsRoot()
      reads this
    {
      data.None?
    }

    /** `data`: only a node that is not the root has data (the root makes it panic). */
    function Data(): (d: T)
      reads this
      requires !IsRoot()
      ensures data == Some(d)
    {
      data.value
    }

    /** `data_mut`, used to overwrite the data of a node that is not the root. */
    method SetData(d: T)
      requires !IsRoot()
      modifies this
      ensures data == Some(d) && incoming == old(incoming) && outgoing == old(outgoing)
    {
      data := Some(d);
    }

    /**
     * `add_child`: `child` goes to the end of this node's `outgoing`, this node to the end
     * of `child`'s `incoming`, and `child` is handed back.  A node may be its own child.
     */
    method AddChild(child: Node<T>) returns (r: Node<T>)
      modifies this, child
      ensures r == child
      ensures data == old(data) && child.data == old(child.data)
      ensures child != this ==>
        && outgoing == old(outgoing) + [child] && incoming == old(incoming)
        && child.incoming == old(child.incoming) + [this] && child.outgoing == old(child.outgoing)
      ensures child == this ==> outgoing == old(outgoing) + [this] && incoming == old(incoming) + [this]
    {
      outgoing := outgoing + [child];
      child.incoming := child.incoming + [this];
      r := child;
    }
  }

  /** Within `nodes`, each edge is listed once at its source and once at its target. */
  ghost predicate Mirrored<T>(nodes: set<Node<T>>)
    reads nodes
  {
    forall a, b :: a in nodes && b in nodes ==> multiset(a.outgoing)[b] == multiset(b.incoming)[a]
  }

  /** A node no edge in `nodes` leaves from or goes to, outside `nodes`, is not listed in them. */
  ghost predicate Closed<T>(nodes: set<Node<T>>)
    reads nodes
  {
    forall a :: a in nodes ==>
      (forall i :: 0 <= i < |a.outgoing| ==> a.outgoing[i] in nodes)
      && (forall i :: 0 <= i < |a.incoming| ==> a.incoming[i] in nodes)
  }

  /** `add_child` between two nodes of a mirrored set keeps it mirrored. */
  twostate lemma AddChildKeepsMirrored<T>(nodes: set<Node<T>>, parent: Node<T>, child: Node<T>)
    requires parent in nodes && child in nodes
    requires old(Mirrored(nodes))
    requires child != parent ==>
      && parent.outgoing == old(parent.outgoing) + [child] && parent.incoming == old(parent.incoming)
      && child.incoming == old(child.incoming) + [parent] && child.outgoing == old(child.outgoing)
    requires child == parent ==>
      parent.outgoing == old(parent.outgoing) + [parent] && parent.incoming == old(parent.incoming) + [parent]
    requires forall n :: n in nodes && n != parent && n != child ==>
      n.outgoing == old(n.outgoing) && n.incoming == old(n.incoming)
    ensures Mirrored(nodes)
  {
    forall a, b | a in nodes && b in nodes
      ensures multiset(a.outgoing)[b] == multiset(b.incoming)[a]
    {
      assert old(multiset(a.outgoing)[b]) == old(multiset(b.incoming)[a]);
      if a == parent {
        assert multiset(a.outgoing) == old(multiset(a.outgoing)) + multiset{child};
      }
      if b == child {
        assert multiset(b.incoming) == old(multiset(b.incoming)) + multiset{parent};
      }
    }
  }

  /** `add_child` between two nodes of a closed set keeps it closed. */
  twostate lemma AddChildKeepsClosed<T>(nodes: set<Node<T>>, parent: Node<T>, child: Node<T>)
    requires parent in nodes && child in nodes
    requires old(Closed(nodes))
    requires parent.outgoing == old(parent.outgoing) + [child]
    requires child.incoming == old(child.incoming) + [parent]
    requires child != parent ==> parent.incoming == old(parent.incoming) && child.outgoing == old(child.outgoing)
    requires forall n :: n in nodes && n != parent && n != child ==>
      n.outgoing == old(n.outgoing) && n.incoming == old(n.incoming)
    ensures Closed(nodes)
  {
    forall a | a in nodes
      ensures (forall i :: 0 <= i < |a.outgoing| ==> a.outgoing[i] in nodes)
      ensures (forall i :: 0 <= i < |a.incoming| ==> a.incoming[i] in nodes)
    {
      assert forall i :: 0 <= i < |old(a.outgoing)| ==> old(a.outgoing)[i] in nodes;
      assert forall i :: 0 <= i < |old(a.incoming)| ==> old(a.incoming)[i] in nodes;
    }
  }
}
