/** `buildTree` of the folder sidebar: a flat list of folder rows, each naming
    its parent by id, becomes a forest. A map from id to a fresh node is filled
    first (a later row with the same id replaces an earlier one), then every row's
    node is pushed into its parent's `children` when the parent id is non-empty
    and in the map, and into `roots` otherwise. */
module FolderTree {
  import opened Common

  datatype FolderRow = FolderRow(id: string, name: string, parentId: Option<string>)

  /** A folder node; `children` grows in place while the tree is built. */
  class FolderNode {
    const id: string
    const name: string
    const parentId: Option<string>
    var children: seq<FolderNode>

    /** `{ ...f, children: [] }`. */
    constructor (row: FolderRow)
      ensures id == row.id && name == row.name && parentId == row.parentId
      ensures children == []
    {
      id := row.id;
      name := row.name;
      parentId := row.parentId;
      children := [];
    }
  }

  // ---------------------------------------------------------------------------
  // The forest, described on ids

  /** The ids of `rows`: the keys of the map. */
  function Ids(rows: seq<FolderRow>): (r: set<string>)
    ensures forall k :: 0 <= k < |rows| ==> rows[k].id in r
  {
    if |rows| == 0 then {} else Ids(rows[..|rows| - 1]) + {rows[|rows| - 1].id}
  }

  /** The ids of `rows`, in order. */
  function IdSeq(rows: seq<FolderRow>): (r: seq<string>)
    ensures |r| == |rows| && forall k :: 0 <= k < |rows| ==> r[k] == rows[k].id
  {
    if |rows| == 0 then [] else IdSeq(rows[..|rows| - 1]) + [rows[|rows| - 1].id]
  }

  /** No two rows share an id. */
  predicate UniqueIds(rows: seq<FolderRow>)
  {
    forall i, j :: 0 <= i < j < |rows| ==> rows[i].id != rows[j].id
  }

  /** The test of the second pass: `f.parent_id && map.has(f.parent_id)`. */
  predicate HasParentIn(f: FolderRow, ids: set<string>)
  {
    Truthy(f.parentId) && f.parentId.value in ids
  }

  /** `f` names `p` as its parent. */
  predicate ChildOf(f: FolderRow, p: string)
  {
    Truthy(f.parentId) && f.parentId.value == p
  }

  /** The ids pushed into `roots` while `rows` are visited, when the map holds
      `ids`. */
  function RootIds(rows: seq<FolderRow>, ids: set<string>): (r: seq<string>)
    ensures |r| <= |rows|
    ensures forall k :: 0 <= k < |r| ==> r[k] in Ids(rows)
  {
    if |rows| == 0 then []
    else
      var f := rows[|rows| - 1];
      RootIds(rows[..|rows| - 1], ids) + (if HasParentIn(f, ids) then [] else [f.id])
  }

  /** The ids pushed into the children of `p`'s node while `rows` are visited. */
  function ChildIds(rows: seq<FolderRow>, p: string): (r: seq<string>)
    ensures |r| <= |rows|
    ensures forall k :: 0 <= k < |r| ==> r[k] in Ids(rows)
  {
    if |rows| == 0 then []
    else
      var f := rows[|rows| - 1];
      ChildIds(rows[..|rows| - 1], p) + (if ChildOf(f, p) then [f.id] else [])
  }

  /** The row whose spread made the node the map keeps for `x`: the last row
      with that id. */
  function LastRow(rows: seq<FolderRow>, x: string): (r: FolderRow)
    requires x in Ids(rows)
    ensures r.id == x && r in rows
  {
    if rows[|rows| - 1].id == x then rows[|rows| - 1] else LastRow(rows[..|rows| - 1], x)
  }

  /** The nodes that `m` gives for the ids `xs`, in order. */
  function Nodes(m: map<string, FolderNode>, xs: seq<string>): (r: seq<FolderNode>)
    requires forall k :: 0 <= k < |xs| ==> xs[k] in m
    ensures |r| == |xs| && forall k :: 0 <= k < |xs| ==> r[k] == m[xs[k]]
  {
    seq(|xs|, k requires 0 <= k < |xs| => m[xs[k]])
  }

  lemma NodesSnoc(m: map<string, FolderNode>, xs: seq<string>, x: string)
    requires forall k :: 0 <= k < |xs| ==> xs[k] in m
    requires x in m
    ensures Nodes(m, xs + [x]) == Nodes(m, xs) + [m[x]]
  {
  }

  /** Different ids have different nodes. */
  predicate Injective(m: map<string, FolderNode>)
  {
    forall a, b :: a in m && b in m && a != b ==> m[a] != m[b]
  }

  // ---------------------------------------------------------------------------
  // The two passes

  /** `buildTree(flat)`. The map is returned as a ghost result so that the
      contract can name the node of every id. */
  method BuildTree(flat: seq<FolderRow>) returns (roots: seq<FolderNode>, ghost nodes: map<string, FolderNode>)
    ensures nodes.Keys == Ids(flat) && Injective(nodes)
    ensures forall x :: x in nodes ==>
              && fresh(nodes[x])
              && nodes[x].id == x
              && nodes[x].name == LastRow(flat, x).name
              && nodes[x].parentId == LastRow(flat, x).parentId
              && nodes[x].children == Nodes(nodes, ChildIds(flat, x))
    ensures roots == Nodes(nodes, RootIds(flat, Ids(flat)))
  {
    var m := FillMap(flat);
    roots := LinkNodes(flat, m);
    nodes := m;
  }

  /** The first pass: `flat.forEach((f) => map.set(f.id, { ...f, children: [] }))`. */
  method FillMap(flat: seq<FolderRow>) returns (m: map<string, FolderNode>)
    ensures m.Keys == Ids(flat) && Injective(m)
    ensures forall x :: x in m ==>
              && fresh(m[x])
              && m[x].id == x
              && m[x].name == LastRow(flat, x).name
              && m[x].parentId == LastRow(flat, x).parentId
              && m[x].children == []
  {
    m := map[];
    for i := 0 to |flat|
      invariant m.Keys == Ids(flat[..i]) && Injective(m)
      invariant forall x :: x in m ==>
                  && fresh(m[x])
                  && m[x].id == x
                  && m[x].name == LastRow(flat[..i], x).name
                  && m[x].parentId == LastRow(flat[..i], x).parentId
                  && m[x].children == []
    {
      assert flat[..i + 1][..i] == flat[..i];
      var node := new FolderNode(flat[i]);
      m := m[flat[i].id := node];
    }
    assert flat[..|flat|] == flat;
  }

  /** The second pass: each row's node goes to its parent's `children` or to
      `roots`. */
  method LinkNodes(flat: seq<FolderRow>, m: map<string, FolderNode>) returns (roots: seq<FolderNode>)
    requires m.Keys == Ids(flat) && Injective(m)
    requires forall x :: x in m ==> m[x].children == []
    modifies m.Values
    ensures forall x :: x in m ==> m[x].children == Nodes(m, ChildIds(flat, x))
    ensures roots == Nodes(m, RootIds(flat, m.Keys))
  {
    roots := [];
    for j := 0 to |flat|
      invariant Ids(flat[..j]) <= m.Keys
      invariant forall x :: x in m ==> m[x].children == Nodes(m, ChildIds(flat[..j], x))
      invariant roots == Nodes(m, RootIds(flat[..j], m.Keys))
    {
      IdsStep(flat, j);
      var f := flat[j];
      var node := m[f.id];
      if Truthy(f.parentId) && f.parentId.value in m {
        var p := f.parentId.value;
        var parent := m[p];
        ChildStep(flat, j, m.Keys);
        NodesSnoc(m, ChildIds(flat[..j], p), f.id);
        parent.children := parent.children + [node];
        forall x | x in m
          ensures m[x].children == Nodes(m, ChildIds(flat[..j + 1], x))
        {
          if x != p {
            assert m[x] != parent;
          }
        }
      } else {
        RootStep(flat, j, m.Keys);
        NodesSnoc(m, RootIds(flat[..j], m.Keys), f.id);
        roots := roots + [node];
      }
    }
    assert flat[..|flat|] == flat;
  }

  lemma IdsStep(rows: seq<FolderRow>, j: nat)
    requires j < |rows|
    ensures Ids(rows[..j + 1]) == Ids(rows[..j]) + {rows[j].id}
  {
    assert rows[..j + 1][..j] == rows[..j];
  }

  /** Visiting a row whose parent is in the map appends its id to that
      parent's list and to no other list. */
  lemma ChildStep(rows: seq<FolderRow>, j: nat, ids: set<string>)
    requires j < |rows| && HasParentIn(rows[j], ids)
    ensures RootIds(rows[..j + 1], ids) == RootIds(rows[..j], ids)
    ensures ChildIds(rows[..j + 1], rows[j].parentId.value) == ChildIds(rows[..j], rows[j].parentId.value) + [rows[j].id]
    ensures forall x :: x != rows[j].parentId.value ==> ChildIds(rows[..j + 1], x) == ChildIds(rows[..j], x)
  {
    assert rows[..j + 1][..j] == rows[..j];
  }

  /** Visiting any other row appends its id to the roots and to the children
      of no node in the map. */
  lemma RootStep(rows: seq<FolderRow>, j: nat, ids: set<string>)
    requires j < |rows| && !HasParentIn(rows[j], ids)
    ensures RootIds(rows[..j + 1], ids) == RootIds(rows[..j], ids) + [rows[j].id]
    ensures forall x :: x in ids ==> ChildIds(rows[..j + 1], x) == ChildIds(rows[..j], x)
  {
    assert rows[..j + 1][..j] == rows[..j];
  }

  // ---------------------------------------------------------------------------
  // Properties of the forest

  /** `a` is `b` with some elements left out, the rest in their order. */
  predicate Subsequence(a: seq<string>, b: seq<string>)
    decreases |b|
  {
    if |a| == 0 then true
    else if |b| == 0 then false
    else (a[|a| - 1] == b[|b| - 1] && Subsequence(a[..|a| - 1], b[..|b| - 1])) || Subsequence(a, b[..|b| - 1])
  }

  lemma SubsequenceSnoc(a: seq<string>, b: seq<string>, x: string)
    requires Subsequence(a, b)
    ensures Subsequence(a + [x], b + [x]) && Subsequence(a, b + [x])
  {
    assert (a + [x])[..|a|] == a && (b + [x])[..|b|] == b;
  }

  /** `roots` and every `children` list keep the input order. */
  lemma {:induction false} ForestKeepsOrder(rows: seq<FolderRow>, ids: set<string>, p: string)
    ensures Subsequence(RootIds(rows, ids), IdSeq(rows))
    ensures Subsequence(ChildIds(rows, p), IdSeq(rows))
  {
    if |rows| > 0 {
      var init, f := rows[..|rows| - 1], rows[|rows| - 1];
      ForestKeepsOrder(init, ids, p);
      SubsequenceSnoc(RootIds(init, ids), IdSeq(init), f.id);
      SubsequenceSnoc(ChildIds(init, p), IdSeq(init), f.id);
      assert RootIds(init, ids) + [] == RootIds(init, ids);
      assert ChildIds(init, p) + [] == ChildIds(init, p);
    }
  }

  /** With unique ids, an id occurs in `RootIds` (resp. `ChildIds(p)`) exactly
      when its row passes the root test (resp. names `p`), and at most once. */
  lemma PlacementExact(rows: seq<FolderRow>, ids: set<string>, p: string, k: nat)
    requires UniqueIds(rows) && k < |rows|
    ensures rows[k].id in RootIds(rows, ids) <==> !HasParentIn(rows[k], ids)
    ensures rows[k].id in ChildIds(rows, p) <==> ChildOf(rows[k], p)
    ensures multiset(RootIds(rows, ids))[rows[k].id] <= 1
    ensures multiset(ChildIds(rows, p))[rows[k].id] <= 1
  {
    RootPlacement(rows, ids, k);
    ChildPlacement(rows, p, k);
  }

  lemma RootPlacement(rows: seq<FolderRow>, ids: set<string>, k: nat)
    requires UniqueIds(rows) && k < |rows|
    ensures rows[k].id in RootIds(rows, ids) <==> !HasParentIn(rows[k], ids)
    ensures multiset(RootIds(rows, ids))[rows[k].id] <= 1
  {
    RootMember(rows, ids, k);
    RootOnce(rows, ids, k);
  }

  lemma {:induction false} RootMember(rows: seq<FolderRow>, ids: set<string>, k: nat)
    requires UniqueIds(rows) && k < |rows|
    ensures rows[k].id in RootIds(rows, ids) <==> !HasParentIn(rows[k], ids)
  {
    var init, f := rows[..|rows| - 1], rows[|rows| - 1];
    var x := rows[k].id;
    assert RootIds(rows, ids) == RootIds(init, ids) + (if HasParentIn(f, ids) then [] else [f.id]);
    if k < |rows| - 1 {
      assert UniqueIds(init);
      RootMember(init, ids, k);
      assert init[k] == rows[k];
      assert f.id != x;
    } else {
      assert init + [f] == rows;
      LastIdFresh(init, f);
      NotAnId(init, ids, "", x);
    }
  }

  lemma {:induction false} RootOnce(rows: seq<FolderRow>, ids: set<string>, k: nat)
    requires UniqueIds(rows) && k < |rows|
    ensures multiset(RootIds(rows, ids))[rows[k].id] <= 1
  {
    var init, f := rows[..|rows| - 1], rows[|rows| - 1];
    var x := rows[k].id;
    var added := if HasParentIn(f, ids) then [] else [f.id];
    assert RootIds(rows, ids) == RootIds(init, ids) + added;
    if k < |rows| - 1 {
      assert UniqueIds(init);
      RootOnce(init, ids, k);
      assert init[k] == rows[k];
      assert f.id != x;
      CountOther(RootIds(init, ids), added, x);
    } else {
      assert init + [f] == rows;
      LastIdFresh(init, f);
      NotAnId(init, ids, "", x);
      CountFresh(RootIds(init, ids), added, x);
    }
  }

  /** Appending a list without `x` leaves the count of `x`. */
  lemma CountOther(before: seq<string>, added: seq<string>, x: string)
    requires x !in added
    ensures multiset(before + added)[x] == multiset(before)[x]
  {
    assert multiset(before + added) == multiset(before) + multiset(added);
  }

  /** Appending at most one element to a list without `x` counts `x` at most
      once. */
  lemma CountFresh(before: seq<string>, added: seq<string>, x: string)
    requires x !in before && |added| <= 1
    ensures multiset(before + added)[x] <= 1
  {
    assert multiset(before + added) == multiset(before) + multiset(added);
    assert multiset(before)[x] == 0;
    if |added| == 1 {
      assert added == [added[0]];
    }
  }

  lemma ChildPlacement(rows: seq<FolderRow>, p: string, k: nat)
    requires UniqueIds(rows) && k < |rows|
    ensures rows[k].id in ChildIds(rows, p) <==> ChildOf(rows[k], p)
    ensures multiset(ChildIds(rows, p))[rows[k].id] <= 1
  {
    ChildMember(rows, p, k);
    ChildOnce(rows, p, k);
  }

  lemma {:induction false} ChildMember(rows: seq<FolderRow>, p: string, k: nat)
    requires UniqueIds(rows) && k < |rows|
    ensures rows[k].id in ChildIds(rows, p) <==> ChildOf(rows[k], p)
  {
    var init, f := rows[..|rows| - 1], rows[|rows| - 1];
    var x := rows[k].id;
    assert ChildIds(rows, p) == ChildIds(init, p) + (if ChildOf(f, p) then [f.id] else []);
    if k < |rows| - 1 {
      assert UniqueIds(init);
      ChildMember(init, p, k);
      assert init[k] == rows[k];
      assert f.id != x;
    } else {
      assert init + [f] == rows;
      LastIdFresh(init, f);
      NotAnId(init, {}, p, x);
    }
  }

  lemma {:induction false} ChildOnce(rows: seq<FolderRow>, p: string, k: nat)
    requires UniqueIds(rows) && k < |rows|
    ensures multiset(ChildIds(rows, p))[rows[k].id] <= 1
  {
    var init, f := rows[..|rows| - 1], rows[|rows| - 1];
    var x := rows[k].id;
    var added := if ChildOf(f, p) then [f.id] else [];
    assert ChildIds(rows, p) == ChildIds(init, p) + added;
    if k < |rows| - 1 {
      assert UniqueIds(init);
      ChildOnce(init, p, k);
      assert init[k] == rows[k];
      assert f.id != x;
      CountOther(ChildIds(init, p), added, x);
    } else {
      assert init + [f] == rows;
      LastIdFresh(init, f);
      NotAnId(init, {}, p, x);
      CountFresh(ChildIds(init, p), added, x);
    }
  }

  /** Under unique ids, no earlier row carries the last row's id. */
  lemma LastIdFresh(init: seq<FolderRow>, f: FolderRow)
    requires UniqueIds(init + [f])
    ensures forall j :: 0 <= j < |init| ==> init[j].id != f.id
  {
    forall j | 0 <= j < |init|
      ensures init[j].id != f.id
    {
      assert (init + [f])[j] == init[j] && (init + [f])[|init|] == f;
    }
  }

  /** An id no row carries occurs in none of the lists. */
  lemma {:induction false} NotAnId(rows: seq<FolderRow>, ids: set<string>, p: string, x: string)
    requires forall j :: 0 <= j < |rows| ==> rows[j].id != x
    ensures x !in RootIds(rows, ids) && x !in ChildIds(rows, p)
  {
    if |rows| > 0 {
      NotAnId(rows[..|rows| - 1], ids, p, x);
    }
  }

  /** Every input folder is placed exactly once. A folder whose parent id is
      empty or unknown is a root, once, and in the `children` of no node. */
  lemma RootPlaced(flat: seq<FolderRow>, k: nat, q: string)
    requires UniqueIds(flat) && k < |flat|
    requires !HasParentIn(flat[k], Ids(flat)) && q in Ids(flat)
    ensures multiset(RootIds(flat, Ids(flat)))[flat[k].id] == 1
    ensures flat[k].id !in ChildIds(flat, q)
  {
    var ids := Ids(flat);
    var x := flat[k].id;
    PlacementExact(flat, ids, q, k);
    var roots := RootIds(flat, ids);
    assert x in multiset(roots);
  }

  /** Any other folder is in its parent's `children`, once, in no other
      `children`, and not a root. */
  lemma ChildPlaced(flat: seq<FolderRow>, k: nat, q: string)
    requires UniqueIds(flat) && k < |flat|
    requires HasParentIn(flat[k], Ids(flat))
    ensures flat[k].id !in RootIds(flat, Ids(flat))
    ensures multiset(ChildIds(flat, flat[k].parentId.value))[flat[k].id] == 1
    ensures q != flat[k].parentId.value ==> flat[k].id !in ChildIds(flat, q)
  {
    var ids := Ids(flat);
    var x, p := flat[k].id, flat[k].parentId.value;
    PlacementExact(flat, ids, q, k);
    PlacementExact(flat, ids, p, k);
    var siblings := ChildIds(flat, p);
    assert x in multiset(siblings);
  }

  /** The sum of the children counts of the nodes of `ps`. */
  function ChildCount(rows: seq<FolderRow>, ps: seq<string>): nat
  {
    if |ps| == 0 then 0 else ChildCount(rows, ps[..|ps| - 1]) + |ChildIds(rows, ps[|ps| - 1])|
  }

  /** How many of the distinct `ps` a row names as its parent. */
  function ParentHits(f: FolderRow, ps: seq<string>): nat
  {
    if |ps| == 0 then 0 else ParentHits(f, ps[..|ps| - 1]) + (if ChildOf(f, ps[|ps| - 1]) then 1 else 0)
  }

  predicate Distinct(ps: seq<string>)
  {
    forall i, j :: 0 <= i < j < |ps| ==> ps[i] != ps[j]
  }

  lemma {:induction false} ParentHitsOnce(f: FolderRow, ps: seq<string>)
    requires Distinct(ps)
    ensures ParentHits(f, ps) == if HasParentIn(f, set x | x in ps) then 1 else 0
  {
    if |ps| > 0 {
      var init, y := ps[..|ps| - 1], ps[|ps| - 1];
      ParentHitsOnce(f, init);
      assert (set x | x in ps) == (set x | x in init) + {y};
      if ChildOf(f, y) {
        assert y !in init;
      }
    }
  }

  lemma {:induction false} ChildCountSnoc(rows: seq<FolderRow>, f: FolderRow, ps: seq<string>)
    ensures ChildCount(rows + [f], ps) == ChildCount(rows, ps) + ParentHits(f, ps)
  {
    if |ps| > 0 {
      ChildCountSnoc(rows, f, ps[..|ps| - 1]);
      assert (rows + [f])[..|rows|] == rows;
    }
  }

  /** Every row is counted once: |roots| + Σ |children| = |rows|, the sum
      taken over distinct ids `ps` that are exactly the map's keys. */
  lemma {:induction false} CountsAddUp(rows: seq<FolderRow>, ps: seq<string>)
    requires Distinct(ps)
    ensures |RootIds(rows, set x | x in ps)| + ChildCount(rows, ps) == |rows|
  {
    var ids := set x | x in ps;
    if |rows| == 0 {
      ZeroChildren(ps);
    } else {
      var init, f := rows[..|rows| - 1], rows[|rows| - 1];
      CountsAddUp(init, ps);
      assert init + [f] == rows;
      ChildCountSnoc(init, f, ps);
      ParentHitsOnce(f, ps);
    }
  }

  lemma {:induction false} ZeroChildren(ps: seq<string>)
    ensures ChildCount([], ps) == 0
  {
    if |ps| > 0 {
      ZeroChildren(ps[..|ps| - 1]);
    }
  }

  /** The forest has as many places as the input has folders. */
  lemma ForestSize(flat: seq<FolderRow>)
    requires UniqueIds(flat)
    ensures |RootIds(flat, Ids(flat))| + ChildCount(flat, IdSeq(flat)) == |flat|
  {
    var ps := IdSeq(flat);
    assert Distinct(ps);
    assert (set x | x in ps) == Ids(flat) by {
      forall x | x in Ids(flat)
        ensures x in ps
      {
        IdWitness(flat, x);
      }
    }
    CountsAddUp(flat, ps);
  }

  lemma {:induction false} IdWitness(rows: seq<FolderRow>, x: string)
    requires x in Ids(rows)
    ensures exists k :: 0 <= k < |rows| && rows[k].id == x
  {
    if rows[|rows| - 1].id != x {
      IdWitness(rows[..|rows| - 1], x);
    }
  }

  /** A folder whose node receives no row keeps the empty `children` it was
      created with. */
  lemma Childless(flat: seq<FolderRow>, p: string)
    requires forall k :: 0 <= k < |flat| ==> !ChildOf(flat[k], p)
    ensures ChildIds(flat, p) == []
  {
    NoChildren(flat, p);
  }

  lemma {:induction false} NoChildren(rows: seq<FolderRow>, p: string)
    requires forall k :: 0 <= k < |rows| ==> !ChildOf(rows[k], p)
    ensures ChildIds(rows, p) == []
  {
    if |rows| > 0 {
      NoChildren(rows[..|rows| - 1], p);
    }
  }

  /** Folders on a parent cycle whose members are all in the input are never
      roots: each names, as its parent, the id of the next one. */
  lemma CycleHasNoRoot(flat: seq<FolderRow>, cycle: seq<nat>, k: nat)
    requires UniqueIds(flat) && 0 < |cycle| && k < |cycle|
    requires forall i :: 0 <= i < |cycle| ==> cycle[i] < |flat|
    requires forall i :: 0 <= i < |cycle| ==>
               flat[cycle[i]].parentId == Some(flat[cycle[(i + 1) % |cycle|]].id)
    requires forall i :: 0 <= i < |cycle| ==> flat[cycle[i]].id != ""
    ensures flat[cycle[k]].id !in RootIds(flat, Ids(flat))
  {
    var next := cycle[(k + 1) % |cycle|];
    assert flat[next].id in Ids(flat);
    PlacementExact(flat, Ids(flat), "", cycle[k]);
  }

  /** A chain of ids from a root down through children lists: the folders the
      rendered tree reaches. */
  predicate Descends(flat: seq<FolderRow>, path: seq<string>)
  {
    && |path| > 0
    && path[0] in RootIds(flat, Ids(flat))
    && forall i :: 0 <= i < |path| - 1 ==> path[i + 1] in ChildIds(flat, path[i])
  }

  /** So no folder on such a cycle is reachable from the roots. */
  lemma {:induction false} CycleUnreachable(flat: seq<FolderRow>, cycle: seq<nat>, path: seq<string>)
    requires UniqueIds(flat) && 0 < |cycle|
    requires forall i :: 0 <= i < |cycle| ==> cycle[i] < |flat|
    requires forall i :: 0 <= i < |cycle| ==>
               flat[cycle[i]].parentId == Some(flat[cycle[(i + 1) % |cycle|]].id)
    requires forall i :: 0 <= i < |cycle| ==> flat[cycle[i]].id != ""
    requires Descends(flat, path)
    ensures forall j :: 0 <= j < |cycle| ==> path[|path| - 1] != flat[cycle[j]].id
    decreases |path|
  {
    if |path| == 1 {
      forall j | 0 <= j < |cycle|
        ensures path[0] != flat[cycle[j]].id
      {
        CycleHasNoRoot(flat, cycle, j);
      }
    } else {
      var init := path[..|path| - 1];
      forall i | 0 <= i < |init| - 1
        ensures init[i + 1] in ChildIds(flat, init[i])
      {
        assert init[i + 1] == path[i + 1] && init[i] == path[i];
      }
      CycleUnreachable(flat, cycle, init);
      var prev := path[|path| - 2];
      assert init[|init| - 1] == prev;
      forall j | 0 <= j < |cycle|
        ensures path[|path| - 1] != flat[cycle[j]].id
      {
        var after := (j + 1) % |cycle|;
        assert prev != flat[cycle[after]].id;
        ChildPlacement(flat, prev, cycle[j]);
      }
    }
  }
}
