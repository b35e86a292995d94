/**
 The two-field collector. Ids and completeness never depend on the order of the records;
 names do once an id has three records and one of its fields is contradicted.
 */
module PairNameCollector {
  import opened Common
  import opened NameCollector

  datatype Names = Names(longName: Name, shortName: Name)

  function Of(names: Names, f: Field): Name { if f.LongName? then names.longName else names.shortName }

  type NameState = map<NodeId, Names>

  datatype Snapshot = Snapshot(state: NameState, ids: set<NodeId>, skipped: set<NodeId>, complete: bool)

  const NO_SNAPSHOT := Snapshot(map[], {}, {}, true)

  function Resolved(m: MergeResult): Name { if m.Conflict? then None else m.name }

  /** What one iteration of the collecting loop does. */
  function Step(st: Snapshot, node: Node, key: KeyOf): Snapshot {
    if !Usable(node) then st.(complete := false)
    else
      var id := key(node.id);
      if id in st.skipped then st
      else
        var readable := !node.longName.BadName? && !node.shortName.BadName?;
        var seen := st.(ids := st.ids + {id}, complete := st.complete && readable);
        var incoming := Names(Normalized(node.longName), Normalized(node.shortName));
        if id !in st.state then seen.(state := st.state[id := incoming])
        else
          var long := MergeNames(st.state[id].longName, incoming.longName);
          var short := MergeNames(st.state[id].shortName, incoming.shortName);
          var names := Names(Resolved(long), Resolved(short));
          if (long.Conflict? || short.Conflict?) && names == Names(None, None)
          then seen.(complete := false, state := st.state - {id}, skipped := st.skipped + {id})
          else seen.(complete := seen.complete && long.Merged? && short.Merged?, state := st.state[id := names])
  }

  function Collect(nodes: seq<Node>, key: KeyOf): Snapshot {
    if nodes == [] then NO_SNAPSHOT
    else Step(Collect(nodes[..|nodes| - 1], key), nodes[|nodes| - 1], key)
  }

  /** `_collect_node_name_snapshot`; `None` stands for a snapshot that is no dictionary. */
  method CollectNodeNameSnapshot(nodes: Option<seq<Node>>, key: KeyOf)
    returns (state: NameState, ids: set<NodeId>, complete: bool)
    ensures nodes.None? ==> state == map[] && ids == {} && !complete
    ensures nodes.Some? ==> var r := Collect(nodes.value, key); state == r.state && ids == r.ids && complete == r.complete
  {
    state, ids, complete := map[], {}, true;
    if nodes.None? {
      return map[], {}, false;
    }
    if nodes.value == [] {
      return;
    }
    var skipped: set<NodeId> := {};
    for i := 0 to |nodes.value|
      invariant Collect(nodes.value[..i], key) == Snapshot(state, ids, skipped, complete)
    {
      var node := nodes.value[i];
      assert nodes.value[..i + 1] == nodes.value[..i] + [node];
      assert nodes.value[..i + 1][..i] == nodes.value[..i];
      if !Usable(node) {
        complete := false;
        continue;
      }
      var id := key(node.id);
      if id in skipped {
        continue;
      }
      ids := ids + {id};
      if node.longName.BadName? {
        complete := false;
      }
      if node.shortName.BadName? {
        complete := false;
      }
      var longName, shortName := Normalized(node.longName), Normalized(node.shortName);
      if id !in state {
        state := state[id := Names(longName, shortName)];
        continue;
      }
      var long, short := MergeNames(state[id].longName, longName), MergeNames(state[id].shortName, shortName);
      if long.Conflict? && short.Conflict? {
        complete := false;
        state, skipped := state - {id}, skipped + {id};
        continue;
      }
      if long.Conflict? || short.Conflict? {
        complete := false;
        var resolved := Names(Resolved(long), Resolved(short));
        if resolved.longName.None? && resolved.shortName.None? {
          state, skipped := state - {id}, skipped + {id};
          continue;
        }
        state := state[id := resolved];
        continue;
      }
      state := state[id := Names(long.name, short.name)];
    }
    assert nodes.value[..|nodes.value|] == nodes.value;
  }

  // ---------------------------------------------------------------- what the fold computes

  ghost predicate Contradicted(nodes: seq<Node>, key: KeyOf, id: NodeId) {
    Ambiguous(nodes, key, LongName, id) || Ambiguous(nodes, key, ShortName, id)
  }

  ghost predicate JoinsBoth(nodes: seq<Node>, key: KeyOf, id: NodeId, names: Names) {
    Joins(nodes, key, LongName, id, names.longName) && Joins(nodes, key, ShortName, id, names.shortName)
  }

  predicate BothReadable(node: Node) { NamesReadable(node, LongName) && NamesReadable(node, ShortName) }

  ghost predicate Authoritative(nodes: seq<Node>, key: KeyOf) {
    && (forall node :: node in nodes ==> BothReadable(node))
    && (forall id :: !Contradicted(nodes, key, id))
  }

  /** Number of records of `id`. */
  function Records(nodes: seq<Node>, key: KeyOf, id: NodeId): nat {
    if nodes == [] then 0
    else
      var node := nodes[|nodes| - 1];
      Records(nodes[..|nodes| - 1], key, id) + if Usable(node) && key(node.id) == id then 1 else 0
  }

  /** The join of a field, or nothing where the field is contradicted. */
  ghost predicate JoinsOrNothing(nodes: seq<Node>, key: KeyOf, f: Field, id: NodeId, name: Name) {
    if Ambiguous(nodes, key, f, id) then name.None? else Joins(nodes, key, f, id, name)
  }

  /** What the fold knows about one id after any number of records. */
  ghost predicate KnowsAt(nodes: seq<Node>, key: KeyOf, st: Snapshot, id: NodeId) {
    && (id in st.ids <==> Mentions(nodes, key, id))
    && (id in st.state || id in st.skipped ==> id in st.ids)
    && (id in st.skipped ==> id !in st.state && Contradicted(nodes, key, id))
    && (!Contradicted(nodes, key, id) && id in st.ids ==> id in st.state && JoinsBoth(nodes, key, id, st.state[id]))
    && (Contradicted(nodes, key, id) ==> !st.complete)
    && (Records(nodes, key, id) <= 2 && id in st.state ==>
          && JoinsOrNothing(nodes, key, LongName, id, st.state[id].longName)
          && JoinsOrNothing(nodes, key, ShortName, id, st.state[id].shortName))
    && (Records(nodes, key, id) <= 2 && id in st.ids && id !in st.state ==>
          && JoinsOrNothing(nodes, key, LongName, id, None)
          && JoinsOrNothing(nodes, key, ShortName, id, None))
    && (Records(nodes, key, id) <= 2 && id in st.state && Contradicted(nodes, key, id) ==> st.state[id] != Names(None, None))
  }

  ghost predicate Knows(nodes: seq<Node>, key: KeyOf, st: Snapshot) {
    && (forall id :: KnowsAt(nodes, key, st, id))
    && (st.complete <==> Authoritative(nodes, key))
  }

  lemma RecordsMore(nodes: seq<Node>, node: Node, key: KeyOf, id: NodeId)
    ensures Records(nodes + [node], key, id) ==
            Records(nodes, key, id) + if Usable(node) && key(node.id) == id then 1 else 0
  {
    assert (nodes + [node])[..|nodes|] == nodes;
  }

  /** A single record cannot contradict itself. */
  lemma {:induction false} FewRecords(nodes: seq<Node>, key: KeyOf, id: NodeId)
    ensures Records(nodes, key, id) == 0 <==> !Mentions(nodes, key, id)
    ensures Records(nodes, key, id) <= 1 ==> !Contradicted(nodes, key, id)
  {
    if nodes != [] {
      var before, node := nodes[..|nodes| - 1], nodes[|nodes| - 1];
      assert before + [node] == nodes;
      FewRecords(before, key, id);
      MentionsMore(before, node, key, id);
      if Usable(node) && key(node.id) == id {
        forall f, a ensures Says(nodes, key, f, id, a) <==>
          (Says(before, key, f, id, a) || (a.Some? && Normalized(Raw(node, f)) == a)) {
          SaysMore(before, node, key, f, id, a);
        }
      } else {
        SilentRecord(before, node, key, LongName, id);
        SilentRecord(before, node, key, ShortName, id);
      }
    }
  }

  /** One more record of an id whose records agree so far. */
  lemma StepAgreeing(nodes: seq<Node>, node: Node, key: KeyOf, st: Snapshot, id: NodeId)
    requires KnowsAt(nodes, key, st, id) && Usable(node) && key(node.id) == id && !Contradicted(nodes, key, id)
    ensures KnowsAt(nodes + [node], key, Step(st, node, key), id)
  {
    MentionsMore(nodes, node, key, id);
    RecordsMore(nodes, node, key, id);
    var existing := if id in st.state then st.state[id] else Names(None, None);
    MergeExtendsJoin(nodes, node, key, LongName, id, existing.longName);
    MergeExtendsJoin(nodes, node, key, ShortName, id, existing.shortName);
  }

  /** One more record of an id that is contradicted already. */
  lemma StepContradicted(nodes: seq<Node>, node: Node, key: KeyOf, st: Snapshot, id: NodeId)
    requires KnowsAt(nodes, key, st, id) && Usable(node) && key(node.id) == id && Contradicted(nodes, key, id)
    ensures KnowsAt(nodes + [node], key, Step(st, node, key), id)
  {
    MentionsMore(nodes, node, key, id);
    RecordsMore(nodes, node, key, id);
    FewRecords(nodes, key, id);
    if Ambiguous(nodes, key, LongName, id) { AmbiguityGrows(nodes, node, key, LongName, id); }
    if Ambiguous(nodes, key, ShortName, id) { AmbiguityGrows(nodes, node, key, ShortName, id); }
  }

  /** A record that is unusable or belongs to another id. */
  lemma StepElsewhere(nodes: seq<Node>, node: Node, key: KeyOf, st: Snapshot, id: NodeId)
    requires KnowsAt(nodes, key, st, id) && (!Usable(node) || key(node.id) != id)
    ensures KnowsAt(nodes + [node], key, Step(st, node, key), id)
  {
    MentionsMore(nodes, node, key, id);
    RecordsMore(nodes, node, key, id);
    SilentRecord(nodes, node, key, LongName, id);
    SilentRecord(nodes, node, key, ShortName, id);
  }

  lemma AuthoritativeMore(nodes: seq<Node>, node: Node, key: KeyOf)
    ensures Authoritative(nodes + [node], key) <==>
            (Authoritative(nodes, key) && BothReadable(node) && !Contradicted(nodes + [node], key, key(node.id)))
  {
    var all := nodes + [node];
    assert forall x :: x in all <==> x in nodes || x == node;
    forall id ensures Contradicted(nodes, key, id) ==> Contradicted(all, key, id) {
      if Ambiguous(nodes, key, LongName, id) { AmbiguityGrows(nodes, node, key, LongName, id); }
      if Ambiguous(nodes, key, ShortName, id) { AmbiguityGrows(nodes, node, key, ShortName, id); }
    }
    if BothReadable(node) {
      forall id | id != key(node.id) ensures Contradicted(all, key, id) <==> Contradicted(nodes, key, id) {
        SilentRecord(nodes, node, key, LongName, id);
        SilentRecord(nodes, node, key, ShortName, id);
      }
    }
  }

  lemma {:induction false} CollectKnows(nodes: seq<Node>, key: KeyOf)
    ensures Knows(nodes, key, Collect(nodes, key))
  {
    if nodes == [] {
      assert forall id :: KnowsAt(nodes, key, NO_SNAPSHOT, id);
    } else {
      var before, node := nodes[..|nodes| - 1], nodes[|nodes| - 1];
      assert before + [node] == nodes;
      var st, st' := Collect(before, key), Collect(nodes, key);
      CollectKnows(before, key);
      forall id ensures KnowsAt(nodes, key, st', id) {
        assert KnowsAt(before, key, st, id);
        if !Usable(node) || key(node.id) != id {
          StepElsewhere(before, node, key, st, id);
        } else if Contradicted(before, key, id) {
          StepContradicted(before, node, key, st, id);
        } else {
          StepAgreeing(before, node, key, st, id);
        }
      }
      CompletenessStep(before, node, key, st);
    }
  }

  lemma CompletenessStep(nodes: seq<Node>, node: Node, key: KeyOf, st: Snapshot)
    requires Knows(nodes, key, st)
    ensures Step(st, node, key).complete <==> Authoritative(nodes + [node], key)
  {
    AuthoritativeMore(nodes, node, key);
    if Usable(node) {
      var id := key(node.id);
      assert KnowsAt(nodes, key, st, id);
      if !Contradicted(nodes, key, id) {
        StepAgreeing(nodes, node, key, st, id);
        var existing := if id in st.state then st.state[id] else Names(None, None);
        assert JoinsBoth(nodes, key, id, existing);
        MergeExtendsJoin(nodes, node, key, LongName, id, existing.longName);
        MergeExtendsJoin(nodes, node, key, ShortName, id, existing.shortName);
      }
    }
  }

  // ---------------------------------------------------------------- order

  /** The same records in another order. */
  ghost predicate Reordered(a: seq<Node>, b: seq<Node>) { multiset(a) == multiset(b) }

  lemma {:induction false} RecordsByMultiset(a: seq<Node>, b: seq<Node>, key: KeyOf, id: NodeId)
    requires Reordered(a, b)
    ensures Records(a, key, id) == Records(b, key, id)
    decreases |a|
  {
    if a == [] {
      assert |multiset(b)| == |b|;
    } else {
      var node := a[|a| - 1];
      assert a == a[..|a| - 1] + [node];
      assert node in multiset(b);
      var i :| 0 <= i < |b| && b[i] == node;
      var rest := b[..i] + b[i + 1..];
      assert b == b[..i] + [node] + b[i + 1..];
      assert multiset(a[..|a| - 1]) == multiset(a) - multiset{node};
      assert multiset(rest) == multiset(b) - multiset{node};
      RecordsByMultiset(a[..|a| - 1], rest, key, id);
      RecordsConcat(b[..i], b[i + 1..], key, id);
      RecordsConcat(b[..i] + [node], b[i + 1..], key, id);
      RecordsMore(b[..i], node, key, id);
    }
  }

  lemma {:induction false} RecordsConcat(a: seq<Node>, b: seq<Node>, key: KeyOf, id: NodeId)
    ensures Records(a + b, key, id) == Records(a, key, id) + Records(b, key, id)
    decreases |b|
  {
    if b == [] {
      assert a + b == a;
    } else {
      var front, node := b[..|b| - 1], b[|b| - 1];
      assert a + b == (a + front) + [node] && b == front + [node];
      RecordsConcat(a, front, key, id);
      RecordsMore(a + front, node, key, id);
    }
  }

  lemma SaysByMultiset(a: seq<Node>, b: seq<Node>, key: KeyOf)
    requires Reordered(a, b)
    ensures forall node :: node in a <==> node in b
    ensures forall f, id, name :: Says(a, key, f, id, name) <==> Says(b, key, f, id, name)
    ensures forall id :: Mentions(a, key, id) <==> Mentions(b, key, id)
    ensures forall f, id :: Ambiguous(a, key, f, id) <==> Ambiguous(b, key, f, id)
  {
    assert forall node :: node in a <==> node in multiset(a);
    assert forall node :: node in b <==> node in multiset(b);
    forall f, id, name ensures Says(a, key, f, id, name) <==> Says(b, key, f, id, name) {
    }
    forall id ensures Mentions(a, key, id) <==> Mentions(b, key, id) {
    }
  }

  /** Ids and completeness depend only on which records there are. */
  lemma IdsAndCompletenessIgnoreOrder(a: seq<Node>, b: seq<Node>, key: KeyOf)
    requires Reordered(a, b)
    ensures Collect(a, key).ids == Collect(b, key).ids
    ensures Collect(a, key).complete == Collect(b, key).complete
  {
    var ra, rb := Collect(a, key), Collect(b, key);
    CollectKnows(a, key);
    CollectKnows(b, key);
    SaysByMultiset(a, b, key);
    forall id ensures id in ra.ids <==> id in rb.ids {
      assert KnowsAt(a, key, ra, id) && KnowsAt(b, key, rb, id);
    }
    assert forall id :: Contradicted(a, key, id) <==> Contradicted(b, key, id);
  }

  /** An id with at most two records, or with records that agree, gets the same names in any order. */
  ghost predicate Tame(nodes: seq<Node>, key: KeyOf, id: NodeId) {
    Records(nodes, key, id) <= 2 || !Contradicted(nodes, key, id)
  }

  lemma TameIdsIgnoreOrder(a: seq<Node>, b: seq<Node>, key: KeyOf, id: NodeId)
    requires Reordered(a, b) && Tame(a, key, id)
    ensures id in Collect(a, key).state <==> id in Collect(b, key).state
    ensures id in Collect(a, key).state ==> Collect(a, key).state[id] == Collect(b, key).state[id]
  {
    var ra, rb := Collect(a, key), Collect(b, key);
    CollectKnows(a, key);
    CollectKnows(b, key);
    SaysByMultiset(a, b, key);
    RecordsByMultiset(a, b, key, id);
    assert KnowsAt(a, key, ra, id) && KnowsAt(b, key, rb, id);
    if id in ra.state && id in rb.state {
      JoinsAgree(a, b, key, LongName, id, ra.state[id].longName, rb.state[id].longName);
      JoinsAgree(a, b, key, ShortName, id, ra.state[id].shortName, rb.state[id].shortName);
    } else if id in ra.state {
      JoinsAgree(a, b, key, LongName, id, ra.state[id].longName, None);
      JoinsAgree(a, b, key, ShortName, id, ra.state[id].shortName, None);
    } else if id in rb.state {
      JoinsAgree(a, b, key, LongName, id, None, rb.state[id].longName);
      JoinsAgree(a, b, key, ShortName, id, None, rb.state[id].shortName);
    }
  }

  lemma JoinsAgree(a: seq<Node>, b: seq<Node>, key: KeyOf, f: Field, id: NodeId, na: Name, nb: Name)
    requires forall name :: Says(a, key, f, id, name) <==> Says(b, key, f, id, name)
    ensures JoinsOrNothing(a, key, f, id, na) && JoinsOrNothing(b, key, f, id, nb) ==> na == nb
    ensures Joins(a, key, f, id, na) && Joins(b, key, f, id, nb) ==> na == nb
  {
    assert Says(a, key, f, id, na) <==> Says(b, key, f, id, na);
    assert Says(a, key, f, id, nb) <==> Says(b, key, f, id, nb);
  }

  /** A complete snapshot has one entry per id, each field the join of its records. */
  lemma CompleteMeansJoined(nodes: seq<Node>, key: KeyOf, id: NodeId)
    requires Collect(nodes, key).complete
    ensures var r := Collect(nodes, key);
      && r.state.Keys == r.ids
      && (id in r.ids <==> Mentions(nodes, key, id))
      && (id in r.ids ==> JoinsBoth(nodes, key, id, r.state[id]))
  {
    var r := Collect(nodes, key);
    CollectKnows(nodes, key);
    forall i ensures i in r.ids <==> i in r.state { assert KnowsAt(nodes, key, r, i); }
    assert KnowsAt(nodes, key, r, id);
  }

  ghost predicate AtMost(n: nat, nodes: seq<Node>, key: KeyOf) {
    forall id :: Records(nodes, key, id) <= n
  }

  function PlainKey(id: RawId): NodeId {
    match id
    case TextId(s) => s
    case NumberId(n) => Decimal(n)
    case _ => ""
  }

  function Record(long: string, short: string): Node { User(TextId("!1"), TextName(long), TextName(short)) }

  lemma CollectMore(nodes: seq<Node>, node: Node, key: KeyOf)
    ensures Collect(nodes + [node], key) == Step(Collect(nodes, key), node, key)
  {
    assert (nodes + [node])[..|nodes|] == nodes;
  }

  lemma {:induction false} RecordsAtMostLength(nodes: seq<Node>, key: KeyOf, id: NodeId)
    ensures Records(nodes, key, id) <= |nodes|
  {
    if nodes != [] { RecordsAtMostLength(nodes[..|nodes| - 1], key, id); }
  }

  const FULL := Snapshot(map["!1" := Names(Some("Base"), Some("B"))], {"!1"}, {}, true)
  const RESET := Snapshot(map["!1" := Names(None, Some("B"))], {"!1"}, {}, false)

  lemma SampleSteps()
    ensures var x, y := Record("Base", "B"), Record("Roof", "B");
      && Step(NO_SNAPSHOT, x, PlainKey) == FULL && Step(FULL, x, PlainKey) == FULL
      && Step(FULL, y, PlainKey) == RESET && Step(RESET, x, PlainKey) == FULL.(complete := false)
  {
    assert "Base"[0] != "Roof"[0];
  }

  lemma SampleCollections()
    ensures var x, y := Record("Base", "B"), Record("Roof", "B");
      Collect([x, x, y], PlainKey) == RESET && Collect([x, y, x], PlainKey) == FULL.(complete := false)
  {
    var x, y := Record("Base", "B"), Record("Roof", "B");
    SampleSteps();
    CollectMore([], x, PlainKey);
    CollectMore([x], x, PlainKey);
    CollectMore([x], y, PlainKey);
    CollectMore([x, x], y, PlainKey);
    CollectMore([x, y], x, PlainKey);
    assert [] + [x] == [x] && [x] + [x] == [x, x] && [x] + [y] == [x, y];
    assert [x, x] + [y] == [x, x, y] && [x, y] + [x] == [x, y, x];
  }

  /** Three records of one node, two long names: the order decides whether one survives. */
  lemma ThreeRecordsDependOnOrder()
    ensures var x, y := Record("Base", "B"), Record("Roof", "B");
      && Reordered([x, x, y], [x, y, x])
      && AtMost(3, [x, x, y], PlainKey)
      && Collect([x, x, y], PlainKey).state == map["!1" := Names(None, Some("B"))]
      && Collect([x, y, x], PlainKey).state == map["!1" := Names(Some("Base"), Some("B"))]
  {
    var x, y := Record("Base", "B"), Record("Roof", "B");
    SampleCollections();
    forall id ensures Records([x, x, y], PlainKey, id) <= 3 { RecordsAtMostLength([x, x, y], PlainKey, id); }
  }

  /** Every snapshot with at most `n` records per id gives the same state in every order. */
  ghost predicate OrderFree(n: nat) {
    forall a, b, key :: AtMost(n, a, key) && Reordered(a, b) ==> Collect(a, key).state == Collect(b, key).state
  }

  lemma TwoRecordsSuffice(a: seq<Node>, b: seq<Node>, key: KeyOf)
    requires AtMost(2, a, key) && Reordered(a, b)
    ensures Collect(a, key).state == Collect(b, key).state
  {
    var sa, sb := Collect(a, key).state, Collect(b, key).state;
    forall id ensures id in sa <==> id in sb ensures id in sa ==> sa[id] == sb[id] {
      TameIdsIgnoreOrder(a, b, key, id);
    }
  }

  /**
   So two records per id is exactly how far order-independence goes: with a bound of two
   every snapshot has it, with any larger bound some snapshot lacks it.
   */
  lemma TwoRecordsIsTheLimit(n: nat)
    ensures OrderFree(n) <==> n <= 2
  {
    if n <= 2 {
      forall a, b, key | AtMost(n, a, key) && Reordered(a, b) ensures Collect(a, key).state == Collect(b, key).state {
        assert forall id :: Records(a, key, id) <= n;
        TwoRecordsSuffice(a, b, key);
      }
    } else {
      ThreeRecordsDependOnOrder();
      var x, y := Record("Base", "B"), Record("Roof", "B");
      assert forall id :: Records([x, x, y], PlainKey, id) <= 3;
      assert map["!1" := Names(None, Some("B"))]["!1"] != map["!1" := Names(Some("Base"), Some("B"))]["!1"];
    }
  }
}
