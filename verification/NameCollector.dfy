/**
 Folding a node snapshot into node names: the two-field collector behind
 `sync_name_tables_if_changed` and the single-field collector of `_update_names_core`.

 A snapshot may list one node id several times. A state is a map here; the original
 keeps the same entries as a tuple sorted by id.
 */
module NameCollector {
  import opened Common

  /** `user["id"]` as found: missing, of a wrong type, a string or a number. */
  datatype RawId = NoId | BadId | TextId(s: string) | NumberId(n: int)

  datatype RawName = NoName | TextName(s: string) | BadName

  datatype Node = NotADict | NoUser | User(id: RawId, longName: RawName, shortName: RawName)

  datatype Field = LongName | ShortName

  type NodeId = string
  type Name = Option<string>

  /** `str(normalize_node_id(..))`; nothing is assumed about it. */
  type KeyOf = RawId -> NodeId

  predicate Usable(node: Node) {
    node.User? && (node.id.NumberId? || (node.id.TextId? && node.id.s != ""))
  }

  function Raw(node: Node, f: Field): RawName
    requires node.User?
  {
    if f.LongName? then node.longName else node.shortName
  }

  /** `_normalize_node_name_value`: empty and non-string names count as absent. */
  function Normalized(raw: RawName): Name {
    if raw.TextName? && raw.s != "" then Some(raw.s) else None
  }

  datatype MergeResult = Merged(name: Name) | Conflict

  /** `_merge_node_name_values` */
  function MergeNames(existing: Name, incoming: Name): MergeResult {
    if existing.None? then Merged(incoming)
    else if incoming.None? then Merged(existing)
    else if existing == incoming then Merged(existing)
    else Conflict
  }

  // ---------------------------------------------------------------- what a snapshot says

  predicate Mentions(nodes: seq<Node>, key: KeyOf, id: NodeId) {
    exists node :: node in nodes && Usable(node) && key(node.id) == id
  }

  /** Some record of `id` spells this name in this field. */
  predicate Says(nodes: seq<Node>, key: KeyOf, f: Field, id: NodeId, name: Name) {
    name.Some? && exists node :: node in nodes && Usable(node) && key(node.id) == id && Normalized(Raw(node, f)) == name
  }

  /** Two records of `id` contradict each other in this field. */
  ghost predicate Ambiguous(nodes: seq<Node>, key: KeyOf, f: Field, id: NodeId) {
    exists a, b :: Says(nodes, key, f, id, a) && Says(nodes, key, f, id, b) && a != b
  }

  /** `name` is the join of what the records say: their common name, or nothing. */
  ghost predicate Joins(nodes: seq<Node>, key: KeyOf, f: Field, id: NodeId, name: Name) {
    forall a: Name :: Says(nodes, key, f, id, a) <==> name.Some? && a == name
  }

  predicate NamesReadable(node: Node, f: Field) { Usable(node) && !Raw(node, f).BadName? }

  /** Every claim about one more record, from the claims about the records before it. */
  lemma SaysMore(nodes: seq<Node>, node: Node, key: KeyOf, f: Field, id: NodeId, name: Name)
    ensures Says(nodes + [node], key, f, id, name) <==>
            (Says(nodes, key, f, id, name)
             || (name.Some? && Usable(node) && key(node.id) == id && Normalized(Raw(node, f)) == name))
  {
    assert forall x :: x in nodes + [node] <==> x in nodes || x == node;
  }

  lemma MentionsMore(nodes: seq<Node>, node: Node, key: KeyOf, id: NodeId)
    ensures Mentions(nodes + [node], key, id) <==> (Mentions(nodes, key, id) || (Usable(node) && key(node.id) == id))
  {
    assert forall x :: x in nodes + [node] <==> x in nodes || x == node;
  }

  /** Merging extends a join by one record, or detects that the field became ambiguous. */
  lemma MergeExtendsJoin(nodes: seq<Node>, node: Node, key: KeyOf, f: Field, id: NodeId, existing: Name)
    requires Usable(node) && key(node.id) == id && Joins(nodes, key, f, id, existing)
    ensures var m := MergeNames(existing, Normalized(Raw(node, f)));
      if m.Conflict? then Ambiguous(nodes + [node], key, f, id)
      else Joins(nodes + [node], key, f, id, m.name) && !Ambiguous(nodes + [node], key, f, id)
  {
    forall a ensures Says(nodes + [node], key, f, id, a) <==>
      (Says(nodes, key, f, id, a) || (a.Some? && Normalized(Raw(node, f)) == a)) {
      SaysMore(nodes, node, key, f, id, a);
    }
    var incoming := Normalized(Raw(node, f));
    if MergeNames(existing, incoming).Conflict? {
      assert Says(nodes + [node], key, f, id, existing) && Says(nodes + [node], key, f, id, incoming);
    }
  }

  /** A record of another id, or one without a name, leaves a field as it was. */
  lemma SilentRecord(nodes: seq<Node>, node: Node, key: KeyOf, f: Field, id: NodeId)
    requires !Usable(node) || key(node.id) != id || Normalized(Raw(node, f)).None?
    ensures forall a :: Says(nodes + [node], key, f, id, a) <==> Says(nodes, key, f, id, a)
    ensures Ambiguous(nodes + [node], key, f, id) <==> Ambiguous(nodes, key, f, id)
  {
    forall a ensures Says(nodes + [node], key, f, id, a) <==> Says(nodes, key, f, id, a) {
      SaysMore(nodes, node, key, f, id, a);
    }
  }

  /** Contradictions do not go away. */
  lemma AmbiguityGrows(nodes: seq<Node>, node: Node, key: KeyOf, f: Field, id: NodeId)
    requires Ambiguous(nodes, key, f, id)
    ensures Ambiguous(nodes + [node], key, f, id)
  {
    var a, b :| Says(nodes, key, f, id, a) && Says(nodes, key, f, id, b) && a != b;
    SaysMore(nodes, node, key, f, id, a);
    SaysMore(nodes, node, key, f, id, b);
  }
}
