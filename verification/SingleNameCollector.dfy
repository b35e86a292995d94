/** The single-field collector of `_update_names_core`: it does not depend on the order. */
module SingleNameCollector {
  import opened Common
  import opened NameCollector

  datatype Single = Single(names: map<NodeId, Name>, ids: set<NodeId>, skipped: set<NodeId>, complete: bool)

  /** Some record of `id` has a readable name field, be it empty. */
  ghost predicate Listed(nodes: seq<Node>, key: KeyOf, f: Field, id: NodeId) {
    exists node :: node in nodes && NamesReadable(node, f) && key(node.id) == id
  }

  ghost predicate FormAt(nodes: seq<Node>, key: KeyOf, f: Field, names: map<NodeId, Name>, ids: set<NodeId>, id: NodeId) {
    && (id in ids <==> Mentions(nodes, key, id))
    && (id in names <==> Listed(nodes, key, f, id) && !Ambiguous(nodes, key, f, id))
    && (id in names ==> Joins(nodes, key, f, id, names[id]))
  }

  ghost predicate Authoritative(nodes: seq<Node>, key: KeyOf, f: Field) {
    && (forall node :: node in nodes ==> NamesReadable(node, f))
    && (forall id :: !Ambiguous(nodes, key, f, id))
  }

  /**
   The closed form: ids are those mentioned; an id has the one name its records agree on,
   no name if they give none, and no entry if they contradict each other or none is
   readable; the snapshot is complete when every record was readable and none contradicted.
   */
  ghost predicate Form(nodes: seq<Node>, key: KeyOf, f: Field, names: map<NodeId, Name>, ids: set<NodeId>, complete: bool) {
    && (forall id :: FormAt(nodes, key, f, names, ids, id))
    && (complete <==> Authoritative(nodes, key, f))
  }

  /** The loop also remembers the ids it has given up on: exactly the contradicted ones. */
  ghost predicate Collected(nodes: seq<Node>, key: KeyOf, f: Field, st: Single) {
    && Form(nodes, key, f, st.names, st.ids, st.complete)
    && (forall id :: id in st.skipped <==> Ambiguous(nodes, key, f, id))
  }

  lemma ListedMore(nodes: seq<Node>, node: Node, key: KeyOf, f: Field, id: NodeId)
    ensures Listed(nodes + [node], key, f, id) <==>
            (Listed(nodes, key, f, id) || (NamesReadable(node, f) && key(node.id) == id))
  {
    assert forall x :: x in nodes + [node] <==> x in nodes || x == node;
  }

  /** What one iteration of the collecting loop does. */
  function Step(st: Single, node: Node, key: KeyOf, f: Field): Single {
    if !Usable(node) then st.(complete := false)
    else
      var id := key(node.id);
      if id in st.skipped then st
      else
        var seen := st.(ids := st.ids + {id});
        if Raw(node, f).BadName? then seen.(complete := false)
        else
          var incoming := Normalized(Raw(node, f));
          var existing := if id in st.names then st.names[id] else None;
          match MergeNames(existing, incoming)
          case Merged(name) => seen.(names := st.names[id := name])
          case Conflict => seen.(complete := false, names := st.names - {id}, skipped := st.skipped + {id})
  }

  lemma StepCollectsAt(nodes: seq<Node>, node: Node, key: KeyOf, f: Field, st: Single, id: NodeId)
    requires Collected(nodes, key, f, st)
    ensures var all, st' := nodes + [node], Step(st, node, key, f);
      FormAt(all, key, f, st'.names, st'.ids, id) && (id in st'.skipped <==> Ambiguous(all, key, f, id))
  {
    assert FormAt(nodes, key, f, st.names, st.ids, id);
    MentionsMore(nodes, node, key, id);
    ListedMore(nodes, node, key, f, id);
    if Usable(node) && key(node.id) == id {
      if id in st.skipped {
        AmbiguityGrows(nodes, node, key, f, id);
      } else if Raw(node, f).BadName? {
        SilentRecord(nodes, node, key, f, id);
      } else {
        MergeExtendsJoin(nodes, node, key, f, id, if id in st.names then st.names[id] else None);
      }
    } else {
      SilentRecord(nodes, node, key, f, id);
    }
  }

  lemma AuthoritativeMore(nodes: seq<Node>, node: Node, key: KeyOf, f: Field)
    ensures Authoritative(nodes + [node], key, f) <==>
            (Authoritative(nodes, key, f) && NamesReadable(node, f) && !Ambiguous(nodes + [node], key, f, key(node.id)))
  {
    var all := nodes + [node];
    assert forall x :: x in all <==> x in nodes || x == node;
    forall id ensures Ambiguous(nodes, key, f, id) ==> Ambiguous(all, key, f, id) {
      if Ambiguous(nodes, key, f, id) { AmbiguityGrows(nodes, node, key, f, id); }
    }
    if NamesReadable(node, f) {
      forall id | id != key(node.id) ensures Ambiguous(all, key, f, id) <==> Ambiguous(nodes, key, f, id) {
        SilentRecord(nodes, node, key, f, id);
      }
    }
  }

  lemma StepCollects(nodes: seq<Node>, node: Node, key: KeyOf, f: Field, st: Single)
    requires Collected(nodes, key, f, st)
    ensures Collected(nodes + [node], key, f, Step(st, node, key, f))
  {
    var all, st' := nodes + [node], Step(st, node, key, f);
    forall id
      ensures FormAt(all, key, f, st'.names, st'.ids, id)
      ensures id in st'.skipped <==> Ambiguous(all, key, f, id)
    {
      StepCollectsAt(nodes, node, key, f, st, id);
    }
    AuthoritativeMore(nodes, node, key, f);
    if Usable(node) {
      assert key(node.id) in st'.skipped <==> Ambiguous(all, key, f, key(node.id));
    }
  }

  method CollectSingleName(nodes: seq<Node>, key: KeyOf, f: Field)
    returns (names: map<NodeId, Name>, ids: set<NodeId>, complete: bool)
    ensures Form(nodes, key, f, names, ids, complete)
  {
    names, ids, complete := map[], {}, true;
    var skipped: set<NodeId> := {};
    assert nodes[..0] == [];
    assert forall id :: FormAt([], key, f, names, ids, id);
    for i := 0 to |nodes|
      invariant Collected(nodes[..i], key, f, Single(names, ids, skipped, complete))
    {
      var node := nodes[i];
      StepCollects(nodes[..i], node, key, f, Single(names, ids, skipped, complete));
      assert nodes[..i] + [node] == nodes[..i + 1];
      if !Usable(node) {
        complete := false;
        continue;
      }
      var id := key(node.id);
      if id in skipped {
        continue;
      }
      ids := ids + {id};
      if Raw(node, f).BadName? {
        complete := false;
        continue;
      }
      var name := Normalized(Raw(node, f));
      if id !in names || names[id].None? {
        names := names[id := name];
        continue;
      }
      var merged := MergeNames(names[id], name);
      if merged.Conflict? {
        complete := false;
        names := names - {id};
        skipped := skipped + {id};
        continue;
      }
      names := names[id := merged.name];
    }
    assert nodes[..|nodes|] == nodes;
  }

  /**
   Any two orders of the same records, with any repetitions, give the same names, ids and
   completeness.
   */
  lemma OrderDoesNotMatter(a: seq<Node>, b: seq<Node>, key: KeyOf, f: Field,
                           na: map<NodeId, Name>, ia: set<NodeId>, ca: bool,
                           nb: map<NodeId, Name>, ib: set<NodeId>, cb: bool)
    requires forall node :: node in a <==> node in b
    requires Form(a, key, f, na, ia, ca) && Form(b, key, f, nb, ib, cb)
    ensures na == nb && ia == ib && ca == cb
  {
    forall id
      ensures Ambiguous(a, key, f, id) <==> Ambiguous(b, key, f, id)
      ensures id in ia <==> id in ib
      ensures id in na <==> id in nb
      ensures id in na ==> na[id] == nb[id]
    {
      assert FormAt(a, key, f, na, ia, id) && FormAt(b, key, f, nb, ib, id);
      assert Listed(a, key, f, id) <==> Listed(b, key, f, id);
      assert forall name :: Says(a, key, f, id, name) <==> Says(b, key, f, id, name);
      if id in na {
        assert Says(a, key, f, id, na[id]) <==> Says(b, key, f, id, na[id]);
        assert Says(a, key, f, id, nb[id]) <==> Says(b, key, f, id, nb[id]);
      }
    }
  }
}
