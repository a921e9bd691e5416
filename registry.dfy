/** The chain of `MPoint` records hanging off `session.mpoint`. The records live
    in a store indexed by their address; `next` is the index of the record the
    C field holds the address of. */
module Registry {
  import opened Opt
  import opened CStrings
  import opened Schema

  /** Bound of every name buffer in collectd's plugin.h. */
  const DATA_MAX_NAME_LEN: nat := 64

  /** One `MPoint`: its (truncated) name, its field definitions and `next`. */
  datatype MPoint = MPoint(name: string, defs: seq<MPDef>, next: nat)

  /** Every `next` designates a record of the store. */
  ghost predicate Closed(nodes: seq<MPoint>) {
    forall i | 0 <= i < |nodes| :: nodes[i].next < |nodes|
  }

  /** `cycle` lists distinct records, each one's `next` being the one after it,
      and the last one's `next` being the first. */
  ghost predicate IsCycle(nodes: seq<MPoint>, cycle: seq<nat>) {
    && |cycle| >= 1
    && (forall k | 0 <= k < |cycle| :: cycle[k] < |nodes|)
    && (forall j, k | 0 <= j < k < |cycle| :: cycle[j] != cycle[k])
    && (forall k | 0 <= k < |cycle| - 1 :: nodes[cycle[k]].next == cycle[k + 1])
    && nodes[cycle[|cycle| - 1]].next == cycle[0]
  }

  /** The shape the chain keeps: empty with no head, or a cycle through the head. */
  ghost predicate Chain(nodes: seq<MPoint>, head: Option<nat>, cycle: seq<nat>) {
    && Closed(nodes)
    && (head.None? ==> nodes == [] && cycle == [])
    && (head.Some? ==> IsCycle(nodes, cycle) && cycle[0] == head.value)
  }

  /** The `strncmp(mp->name, name, DATA_MAX_NAME_LEN) == 0` test. */
  predicate Matches(m: MPoint, name: string) {
    StrnEq(m.name, name, DATA_MAX_NAME_LEN)
  }

  /** Position in `cycle`, from `k` on, of the first record whose name matches;
      `|cycle|` when none does. */
  function FirstMatchFrom(nodes: seq<MPoint>, cycle: seq<nat>, name: string, k: nat): (p: nat)
    requires k <= |cycle|
    requires forall j | 0 <= j < |cycle| :: cycle[j] < |nodes|
    ensures k <= p <= |cycle|
    ensures forall j | k <= j < p :: !Matches(nodes[cycle[j]], name)
    ensures p < |cycle| ==> Matches(nodes[cycle[p]], name)
    decreases |cycle| - k
  {
    if k == |cycle| then k
    else if Matches(nodes[cycle[k]], name) then k
    else FirstMatchFrom(nodes, cycle, name, k + 1)
  }

  /** What `find_mpoint_struct` returns: the record at the first matching
      position of the cycle, head first, if any. */
  function Lookup(nodes: seq<MPoint>, cycle: seq<nat>, name: string): Option<nat>
    requires forall j | 0 <= j < |cycle| :: cycle[j] < |nodes|
  {
    var p := FirstMatchFrom(nodes, cycle, name, 0);
    if p < |cycle| then Some(cycle[p]) else None
  }

  /** Lookup finds nothing exactly when no record of the cycle matches (so
      always on an empty chain); what it finds is a record of the cycle whose
      name matches the query within the first DATA_MAX_NAME_LEN characters,
      and no record before it in the cycle matches. */
  lemma LookupMeaning(nodes: seq<MPoint>, cycle: seq<nat>, name: string)
    requires forall j | 0 <= j < |cycle| :: cycle[j] < |nodes|
    ensures Lookup(nodes, cycle, name).None? <==> forall j | 0 <= j < |cycle| :: !Matches(nodes[cycle[j]], name)
    ensures cycle == [] ==> Lookup(nodes, cycle, name).None?
    ensures Lookup(nodes, cycle, name).Some? ==>
      Lookup(nodes, cycle, name).value < |nodes| && Matches(nodes[Lookup(nodes, cycle, name).value], name)
    ensures Lookup(nodes, cycle, name).Some? ==>
      exists p | 0 <= p < |cycle| :: && cycle[p] == Lookup(nodes, cycle, name).value
                                     && Matches(nodes[cycle[p]], name)
                                     && forall j | 0 <= j < p :: !Matches(nodes[cycle[j]], name)
  {
  }

  /** The store after `create_mpoint` as written: a record for `name` is
      appended with `next` the old head (itself on an empty chain), and the OLD
      HEAD's `next` (not that of the record before it) now points at it. */
  function Insert(nodes: seq<MPoint>, head: Option<nat>, name: string, defs: seq<MPDef>): (r: seq<MPoint>)
    requires head.Some? ==> head.value < |nodes|
    ensures |r| == |nodes| + 1
    ensures r[|nodes|].name == Prefix(name, DATA_MAX_NAME_LEN) && r[|nodes|].defs == defs
  {
    var n := |nodes|;
    match head
    case None => nodes + [MPoint(Prefix(name, DATA_MAX_NAME_LEN), defs, n)]
    case Some(h) => nodes[h := nodes[h].(next := n)] + [MPoint(Prefix(name, DATA_MAX_NAME_LEN), defs, h)]
  }

  /** The cycle after `Insert`: the new record, then the old head if any. */
  function InsertCycle(head: Option<nat>, n: nat): seq<nat> {
    match head
    case None => [n]
    case Some(h) => [n, h]
  }

  /** After an insertion the chain is again a cycle through its new head, the
      new record is found under its name, and every record keeps its name and
      definitions. */
  lemma InsertKeepsChain(nodes: seq<MPoint>, head: Option<nat>, cycle: seq<nat>, name: string, defs: seq<MPDef>)
    requires Chain(nodes, head, cycle)
    ensures Chain(Insert(nodes, head, name, defs), Some(|nodes|), InsertCycle(head, |nodes|))
    ensures Lookup(Insert(nodes, head, name, defs), InsertCycle(head, |nodes|), name) == Some(|nodes|)
    ensures forall i | 0 <= i < |nodes| ::
      Insert(nodes, head, name, defs)[i].name == nodes[i].name
      && Insert(nodes, head, name, defs)[i].defs == nodes[i].defs
    ensures forall i | 0 <= i < |nodes| && Some(i) != head :: Insert(nodes, head, name, defs)[i] == nodes[i]
  {
    var r := Insert(nodes, head, name, defs);
    CopyComparesEqual(name, DATA_MAX_NAME_LEN);
    assert Matches(r[|nodes|], name);
    assert FirstMatchFrom(r, InsertCycle(head, |nodes|), name, 0) == 0;
  }

  /** The record reached from `from` after following `steps` `next` links. */
  ghost function Walk(nodes: seq<MPoint>, from: nat, steps: nat): (r: nat)
    requires Closed(nodes) && from < |nodes|
    ensures r < |nodes|
    decreases steps
  {
    if steps == 0 then from else Walk(nodes, nodes[from].next, steps - 1)
  }

  /** Following `next` from a record of the cycle moves along the cycle in
      order, and back to its first record after the last. */
  lemma {:induction false} WalkAlongCycle(nodes: seq<MPoint>, cycle: seq<nat>, k: nat, steps: nat)
    requires Closed(nodes) && IsCycle(nodes, cycle) && k < |cycle| && k + steps <= |cycle|
    ensures Walk(nodes, cycle[k], steps) == if k + steps < |cycle| then cycle[k + steps] else cycle[0]
    decreases steps
  {
    if steps > 0 && k + 1 < |cycle| {
      WalkAlongCycle(nodes, cycle, k + 1, steps - 1);
    }
  }

  /** Whatever the number of steps, a walk from a record of the cycle never
      leaves the cycle: the records reachable from the head are exactly the
      records of the cycle. */
  lemma {:induction false} WalkStaysInCycle(nodes: seq<MPoint>, cycle: seq<nat>, k: nat, steps: nat)
    requires Closed(nodes) && IsCycle(nodes, cycle) && k < |cycle|
    ensures Walk(nodes, cycle[k], steps) in cycle
    decreases steps
  {
    if steps > 0 {
      WalkStaysInCycle(nodes, cycle, if k + 1 < |cycle| then k + 1 else 0, steps - 1);
    }
  }

  /** As written, an insertion into a non-empty chain leaves only the new record
      and the previous head reachable from the new head. */
  lemma OnlyNewAndOldHeadReachable(nodes: seq<MPoint>, head: Option<nat>, cycle: seq<nat>, name: string, defs: seq<MPDef>, steps: nat)
    requires Chain(nodes, head, cycle) && head.Some?
    ensures Chain(Insert(nodes, head, name, defs), Some(|nodes|), [|nodes|, head.value])
    ensures var w := Walk(Insert(nodes, head, name, defs), |nodes|, steps);
      w == |nodes| || w == head.value
    ensures Walk(Insert(nodes, head, name, defs), |nodes|, 1) == head.value
  {
    InsertKeepsChain(nodes, head, cycle, name, defs);
    var r := Insert(nodes, head, name, defs);
    WalkStaysInCycle(r, [|nodes|, head.value], 0, steps);
    WalkAlongCycle(r, [|nodes|, head.value], 0, 1);
  }

  /** As written, the first of three names inserted in turn into an empty chain
      is no longer found, although its record is still in the store. */
  lemma ThirdInsertLosesFirst(a: string, b: string, c: string, da: seq<MPDef>, db: seq<MPDef>, dc: seq<MPDef>)
    requires !StrnEq(b, a, DATA_MAX_NAME_LEN) && !StrnEq(c, a, DATA_MAX_NAME_LEN)
    ensures var s1 := Insert([], None, a, da);
            var s2 := Insert(s1, Some(0), b, db);
            var s3 := Insert(s2, Some(1), c, dc);
            && Chain(s3, Some(2), [2, 1])
            && s3[0].name == Prefix(a, DATA_MAX_NAME_LEN)
            && Lookup(s3, [2, 1], a) == None
  {
    var s1 := Insert([], None, a, da);
    InsertKeepsChain([], None, [], a, da);
    var s2 := Insert(s1, Some(0), b, db);
    InsertKeepsChain(s1, Some(0), [0], b, db);
    var s3 := Insert(s2, Some(1), c, dc);
    InsertKeepsChain(s2, Some(1), [1, 0], c, dc);
    assert s3[2].name == Prefix(c, DATA_MAX_NAME_LEN) && s3[1].name == Prefix(b, DATA_MAX_NAME_LEN);
    assert Prefix(Prefix(c, DATA_MAX_NAME_LEN), DATA_MAX_NAME_LEN) == Prefix(c, DATA_MAX_NAME_LEN);
    assert Prefix(Prefix(b, DATA_MAX_NAME_LEN), DATA_MAX_NAME_LEN) == Prefix(b, DATA_MAX_NAME_LEN);
    assert !Matches(s3[2], a) && !Matches(s3[1], a);
    LookupMeaning(s3, [2, 1], a);
  }

  /** The chain depends only on the `next` links: changing names or field
      definitions keeps it. */
  lemma SameLinksKeepChain(nodes: seq<MPoint>, nodes': seq<MPoint>, head: Option<nat>, cycle: seq<nat>)
    requires Chain(nodes, head, cycle)
    requires |nodes'| == |nodes| && forall i | 0 <= i < |nodes| :: nodes'[i].next == nodes[i].next
    ensures Chain(nodes', head, cycle)
  {
    if head.Some? {
      assert forall k | 0 <= k < |cycle| - 1 :: nodes'[cycle[k]].next == cycle[k + 1];
    }
  }

  /** `create_mpoint` links the record first and `configure_mpoint` fills in
      its definitions afterwards; the result is the same insertion. */
  lemma InsertThenDefine(nodes: seq<MPoint>, head: Option<nat>, name: string, defs: seq<MPDef>)
    requires head.Some? ==> head.value < |nodes|
    ensures Insert(nodes, head, name, defs)
      == Insert(nodes, head, name, [])[|nodes| := Insert(nodes, head, name, [])[|nodes|].(defs := defs)]
  {
  }
}
