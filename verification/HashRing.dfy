/**
 The client's consistent-hash ring: 128 virtual nodes per member, sorted by hash, searched by
 bisection with wrap-around. SHA-1 enters as an arbitrary function from strings to 32-bit points.
 */
module HashRing {
  import opened Basics
  import opened Names
  import opened Sorting

  const CIRCLE: int := 0x1_0000_0000

  type Point = n: int | 0 <= n < 0x1_0000_0000

  type Hash = string -> Point

  const VNODE_COUNT: int := 128

  /** Membership as published by the operator. */
  datatype Ring = Ring(version: int, members: seq<string>)

  /** A virtual node: its place on the circle and the member owning it. */
  datatype VNode = VNode(at: Point, owner: string)

  /** The resolved ring: `positions[i]` owns `hashes[i]`. */
  datatype HashRing = HashRing(version: int, hashes: seq<Point>, positions: seq<string>)

  /** Clockwise distance from `from` to `to`. */
  function Clockwise(from: Point, to: Point): Point {
    (to - from) % CIRCLE
  }

  /** The text hashed for the `i`th virtual node of a member. */
  function Label(member: string, i: nat): string {
    member + "#" + Decimal(i)
  }

  function VNodeOf(h: Hash, member: string, i: nat): VNode {
    VNode(h(Label(member, i)), member)
  }

  /** The virtual nodes of one member, in creation order. */
  function VNodesOf(h: Hash, member: string, n: nat): seq<VNode> {
    seq(n, i requires 0 <= i < n => VNodeOf(h, member, i))
  }

  /** All virtual nodes, in creation order. */
  function AllVNodes(h: Hash, members: seq<string>): seq<VNode> {
    if members == [] then []
    else AllVNodes(h, members[..|members| - 1]) + VNodesOf(h, members[|members| - 1], VNODE_COUNT)
  }

  /** `v` is a virtual node of some member. */
  ghost predicate IsVNode(h: Hash, members: seq<string>, v: VNode) {
    v.owner in members && exists i: nat :: i < VNODE_COUNT && v == VNodeOf(h, v.owner, i)
  }

  lemma {:induction false} AllVNodesExact(h: Hash, members: seq<string>, v: VNode)
    ensures v in AllVNodes(h, members) <==> IsVNode(h, members, v)
  {
    if members != [] {
      var front, last := members[..|members| - 1], members[|members| - 1];
      AllVNodesExact(h, front, v);
      assert members == front + [last];
      var own := VNodesOf(h, last, VNODE_COUNT);
      if IsVNode(h, members, v) && v.owner == last {
        var i: nat :| i < VNODE_COUNT && v == VNodeOf(h, v.owner, i);
        assert own[i] == v;
      }
      if v in own {
        var i: nat :| i < VNODE_COUNT && v == own[i];
        assert v == VNodeOf(h, v.owner, i);
      }
    }
  }

  function Zip(hashes: seq<Point>, positions: seq<string>): (z: seq<VNode>)
    requires |hashes| == |positions|
  {
    seq(|hashes|, i requires 0 <= i < |hashes| => VNode(hashes[i], positions[i]))
  }

  /**
   `built` is a resolved form of `r`: sorted by hash and holding exactly the virtual nodes of
   its members. Virtual nodes that share a hash may come in any order.
   */
  ghost predicate Resolves(h: Hash, built: HashRing, r: Ring) {
    && built.version == r.version
    && |built.hashes| == |built.positions|
    && (forall i, j :: 0 <= i < j < |built.hashes| ==> built.hashes[i] <= built.hashes[j])
    && multiset(Zip(built.hashes, built.positions)) == multiset(AllVNodes(h, r.members))
  }

  function Without<T>(s: seq<T>, k: nat): (w: seq<T>)
    requires k < |s|
    ensures |w| == |s| - 1
    ensures multiset(w) == multiset(s) - multiset{s[k]}
  {
    assert s == s[..k] + [s[k]] + s[k + 1..];
    s[..k] + s[k + 1..]
  }

  /** The entries of `all` at the places `idx`, in the order of `idx`. */
  function Gather<T>(all: seq<T>, idx: seq<nat>): (g: seq<T>)
    requires forall i :: 0 <= i < |idx| ==> idx[i] < |all|
    ensures |g| == |idx|
  {
    seq(|idx|, i requires 0 <= i < |idx| => all[idx[i]])
  }

  lemma GatherWithout<T>(all: seq<T>, idx: seq<nat>, k: nat)
    requires forall i :: 0 <= i < |idx| ==> idx[i] < |all|
    requires k < |idx|
    ensures multiset(Gather(all, idx)) == multiset(Gather(all, Without(idx, k))) + multiset{all[idx[k]]}
  {
    var g := Gather(all, idx);
    assert g == g[..k] + [g[k]] + g[k + 1..];
    assert Gather(all, Without(idx, k)) == g[..k] + g[k + 1..];
  }

  /** Permuting the places permutes the entries. */
  lemma {:induction false} GatherPermuted<T>(all: seq<T>, a: seq<nat>, b: seq<nat>)
    requires forall i :: 0 <= i < |a| ==> a[i] < |all|
    requires forall i :: 0 <= i < |b| ==> b[i] < |all|
    requires multiset(a) == multiset(b)
    ensures multiset(Gather(all, a)) == multiset(Gather(all, b))
    decreases |a|
  {
    SameElements(a, b);
    if a != [] {
      assert a[0] in b;
      var k :| 0 <= k < |b| && b[k] == a[0];
      GatherPermuted(all, Without(a, 0), Without(b, k));
      GatherWithout(all, a, 0);
      GatherWithout(all, b, k);
    }
  }

  /** Sorting places by hash and carrying both columns along resolves the ring. */
  lemma GatherResolves(h: Hash, r: Ring, hashes: seq<Point>, positions: seq<string>, idx: seq<nat>, built: HashRing)
    requires |hashes| == |positions| && Zip(hashes, positions) == AllVNodes(h, r.members)
    requires multiset(idx) == multiset(seq(|hashes|, i => i))
    requires forall i :: 0 <= i < |idx| ==> idx[i] < |hashes|
    requires forall i, j :: 0 <= i < j < |idx| ==> hashes[idx[i]] <= hashes[idx[j]]
    requires built == HashRing(r.version, Gather(hashes, idx), Gather(positions, idx))
    ensures Resolves(h, built, r)
  {
    var all := Zip(hashes, positions);
    var range: seq<nat> := seq(|hashes|, i => i);
    GatherPermuted(all, idx, range);
    assert Gather(all, idx) == Zip(built.hashes, built.positions);
    assert Gather(all, range) == all;
  }

  /** Each member's 128 virtual nodes, in the order of their labels. */
  lemma {:induction false} VNodeAt(h: Hash, members: seq<string>, m: nat, i: nat)
    requires m < |members| && i < 128
    ensures |AllVNodes(h, members)| == 128 * |members|
    ensures AllVNodes(h, members)[128 * m + i] == VNode(h(Label(members[m], i)), members[m])
  {
    var front := members[..|members| - 1];
    if front == [] {
    } else if m < |front| {
      VNodeAt(h, front, m, i);
    } else {
      VNodeAt(h, front, 0, 0);
    }
  }

  /** Entry `128 * m + i` is the virtual node of member `m` under its `i`th label. */
  ghost predicate InColumns(h: Hash, members: seq<string>, hashes: seq<Point>, positions: seq<string>) {
    && |hashes| == |positions| == 128 * |members|
    && forall m, i :: 0 <= m < |members| && 0 <= i < 128 ==>
         hashes[128 * m + i] == h(Label(members[m], i)) && positions[128 * m + i] == members[m]
  }

  lemma ColumnsInOrder(h: Hash, members: seq<string>, hashes: seq<Point>, positions: seq<string>)
    requires |hashes| == |positions| == 128 * |members| && Zip(hashes, positions) == AllVNodes(h, members)
    ensures InColumns(h, members, hashes, positions)
  {
    forall m, i | 0 <= m < |members| && 0 <= i < 128
      ensures hashes[128 * m + i] == h(Label(members[m], i)) && positions[128 * m + i] == members[m]
    {
      VNodeAt(h, members, m, i);
      assert Zip(hashes, positions)[128 * m + i] == VNode(hashes[128 * m + i], positions[128 * m + i]);
    }
  }

  /** Lists the virtual nodes of all members, as two columns. */
  method CollectVNodes(h: Hash, members: seq<string>) returns (hashes: seq<Point>, positions: seq<string>)
    ensures |hashes| == |positions| == 128 * |members|
    ensures Zip(hashes, positions) == AllVNodes(h, members)
    ensures InColumns(h, members, hashes, positions)
  {
    hashes, positions := [], [];
    for m := 0 to |members|
      invariant |hashes| == |positions| == VNODE_COUNT * m
      invariant Zip(hashes, positions) == AllVNodes(h, members[..m])
    {
      var member := members[m];
      assert members[..m + 1][..m] == members[..m];
      for i := 0 to VNODE_COUNT
        invariant |hashes| == |positions| == VNODE_COUNT * m + i
        invariant Zip(hashes, positions) == AllVNodes(h, members[..m]) + VNodesOf(h, member, i)
      {
        var at := h(member + "#" + Decimal(i));
        assert Zip(hashes + [at], positions + [member]) == Zip(hashes, positions) + [VNode(at, member)];
        assert VNodesOf(h, member, i + 1) == VNodesOf(h, member, i) + [VNode(at, member)];
        hashes, positions := hashes + [at], positions + [member];
      }
    }
    assert members[..|members|] == members;
    ColumnsInOrder(h, members, hashes, positions);
  }

  /** The places of `hashes`, sorted by the hash found there. */
  method SortPlaces(hashes: seq<Point>) returns (idx: seq<nat>)
    ensures multiset(idx) == multiset(seq(|hashes|, i => i))
    ensures forall i :: 0 <= i < |idx| ==> idx[i] < |hashes|
    ensures forall i, j :: 0 <= i < j < |idx| ==> hashes[idx[i]] <= hashes[idx[j]]
  {
    var key := (j: nat) => if j < |hashes| then hashes[j] else 0;
    var range: seq<nat> := seq(|hashes|, i => i);
    idx := Sort(key, range);
    SameElements(idx, range);
    forall i | 0 <= i < |idx| ensures idx[i] < |hashes| {
      assert idx[i] in idx;
      assert idx[i] in range;
    }
    assert forall i, j :: 0 <= i < j < |idx| ==> key(idx[i]) <= key(idx[j]);
  }

  /** The 128 labels of a member are all different. */
  lemma LabelsDiffer(member: string, i: nat, j: nat)
    ensures member + "#" + Decimal(i) == member + "#" + Decimal(j) <==> i == j
  {
    assert (member + "#" + Decimal(i))[|member| + 1..] == Decimal(i);
    assert (member + "#" + Decimal(j))[|member| + 1..] == Decimal(j);
    ParseDecimal(i);
    ParseDecimal(j);
  }

  /** The resolved ring has an entry of `owner` at `point`. */
  ghost predicate At(built: HashRing, point: Point, owner: string) {
    |built.hashes| == |built.positions|
    && exists k :: 0 <= k < |built.hashes| && built.hashes[k] == point && built.positions[k] == owner
  }

  /** Every member is at the hashes of its 128 labels, and nothing else is anywhere. */
  ghost predicate Placed(h: Hash, built: HashRing, members: seq<string>) {
    && |built.hashes| == |built.positions|
    && (forall m, i: nat :: m in members && i < 128 ==> At(built, h(Label(m, i)), m))
    && forall k :: 0 <= k < |built.hashes| ==>
         built.positions[k] in members && exists i: nat :: i < 128 && built.hashes[k] == h(Label(built.positions[k], i))
  }

  /** A resolved ring holds every member at the hashes of its 128 labels, and nothing else. */
  lemma ResolvedPlaces(h: Hash, built: HashRing, r: Ring)
    requires Resolves(h, built, r)
    ensures Placed(h, built, r.members)
  {
    ResolvedVNodes(h, built, r);
    forall m, i: nat | m in r.members && i < 128 ensures At(built, h(Label(m, i)), m) {
      assert IsVNode(h, r.members, VNodeOf(h, m, i));
    }
    forall k | 0 <= k < |built.hashes|
      ensures built.positions[k] in r.members && exists i: nat :: i < 128 && built.hashes[k] == h(Label(built.positions[k], i))
    {
      var v := VNode(built.hashes[k], built.positions[k]);
      assert IsVNode(h, r.members, v);
      var i: nat :| i < VNODE_COUNT && v == VNodeOf(h, v.owner, i);
      assert built.hashes[k] == h(Label(built.positions[k], i));
    }
  }

  /** Member `m` owns the hash of "m#i", for each of the 128 values of `i`. */
  lemma PlacedAt(h: Hash, built: HashRing, r: Ring, m: string, i: nat)
    requires Resolves(h, built, r) && m in r.members && i < 128
    ensures At(built, h(m + "#" + Decimal(i)), m)
  {
    ResolvedPlaces(h, built, r);
    assert Label(m, i) == m + "#" + Decimal(i);
  }

  /** Every entry of a resolved ring is one of those. */
  lemma PlaceOf(h: Hash, built: HashRing, r: Ring, k: nat) returns (i: nat)
    requires Resolves(h, built, r) && k < |built.hashes|
    ensures built.positions[k] in r.members && i < 128 && built.hashes[k] == h(built.positions[k] + "#" + Decimal(i))
  {
    ResolvedPlaces(h, built, r);
    i :| i < 128 && built.hashes[k] == h(Label(built.positions[k], i));
  }

  lemma Gathered(h: Hash, r: Ring, hashes: seq<Point>, positions: seq<string>, idx: seq<nat>, built: HashRing)
    requires |hashes| == |positions| == 128 * |r.members| && Zip(hashes, positions) == AllVNodes(h, r.members)
    requires multiset(idx) == multiset(seq(|hashes|, i => i))
    requires forall i :: 0 <= i < |idx| ==> idx[i] < |hashes|
    requires forall i, j :: 0 <= i < j < |idx| ==> hashes[idx[i]] <= hashes[idx[j]]
    requires built == HashRing(r.version, Gather(hashes, idx), Gather(positions, idx))
    ensures Resolves(h, built, r) && Placed(h, built, r.members)
    ensures |built.hashes| == |built.positions| == 128 * |r.members|
  {
    SameElements(idx, seq(|hashes|, i => i));
    GatherResolves(h, r, hashes, positions, idx, built);
    ResolvedPlaces(h, built, r);
  }

  /** Builds the resolved ring of a published membership. */
  method BuildRing(h: Hash, r: Ring) returns (built: HashRing)
    ensures Resolves(h, built, r)
    ensures |built.hashes| == |built.positions| == 128 * |r.members|
    ensures Placed(h, built, r.members)
  {
    var hashes, positions := CollectVNodes(h, r.members);
    var idx := SortPlaces(hashes);
    var sortedHashes: seq<Point>, sortedPositions: seq<string> := [], [];
    for i := 0 to |idx|
      invariant sortedHashes == Gather(hashes, idx[..i])
      invariant sortedPositions == Gather(positions, idx[..i])
    {
      sortedHashes := sortedHashes + [hashes[idx[i]]];
      sortedPositions := sortedPositions + [positions[idx[i]]];
    }
    assert idx[..|idx|] == idx;
    built := HashRing(r.version, sortedHashes, sortedPositions);
    Gathered(h, r, hashes, positions, idx, built);
  }

  /** `i` is where the bisection of a sorted list for `x` lands. */
  predicate FirstAtLeast(hashes: seq<Point>, x: Point, i: nat) {
    && i <= |hashes|
    && (forall k :: 0 <= k < i ==> hashes[k] < x)
    && (forall k :: i <= k < |hashes| ==> hashes[k] >= x)
  }

  /** `pod` is what a resolved ring answers for the point `x`. */
  ghost predicate Answers(built: HashRing, x: Point, pod: string) {
    && |built.hashes| == |built.positions| > 0
    && exists i: nat :: FirstAtLeast(built.hashes, x, i)
                     && pod == built.positions[if i == |built.hashes| then 0 else i]
  }

  /** The bisection of a lookup, wrapping past the end; `None` when the ring is empty. */
  method Search(built: HashRing, x: Point) returns (pod: Option<string>)
    requires |built.hashes| == |built.positions|
    requires forall i, j :: 0 <= i < j < |built.hashes| ==> built.hashes[i] <= built.hashes[j]
    ensures pod.None? <==> built.hashes == []
    ensures pod.Some? ==> Answers(built, x, pod.value)
  {
    if |built.hashes| == 0 { return None; }
    var i, j := 0, |built.hashes|;
    while i < j
      invariant 0 <= i <= j <= |built.hashes|
      invariant forall k :: 0 <= k < i ==> built.hashes[k] < x
      invariant forall k :: j <= k < |built.hashes| ==> built.hashes[k] >= x
    {
      var mid := i + (j - i) / 2;
      if built.hashes[mid] >= x { j := mid; } else { i := mid + 1; }
    }
    assert FirstAtLeast(built.hashes, x, i);
    pod := Some(built.positions[if i == |built.hashes| then 0 else i]);
  }

  // The simple specification, and its agreement with the bisection

  /** `v` is a virtual node at the least clockwise distance from `x`. */
  ghost predicate IsNearest(h: Hash, members: seq<string>, x: Point, v: VNode) {
    && IsVNode(h, members, v)
    && forall u :: IsVNode(h, members, u) ==> Clockwise(x, v.at) <= Clockwise(x, u.at)
  }

  /** `pod` owns a virtual node at the least clockwise distance from `x`. */
  ghost predicate Owns(h: Hash, members: seq<string>, x: Point, pod: string) {
    exists v :: IsNearest(h, members, x, v) && v.owner == pod
  }

  lemma ResolvedVNodes(h: Hash, built: HashRing, r: Ring)
    requires Resolves(h, built, r)
    ensures forall i :: 0 <= i < |built.hashes| ==> IsVNode(h, r.members, VNode(built.hashes[i], built.positions[i]))
    ensures forall u :: IsVNode(h, r.members, u) ==>
              exists i :: 0 <= i < |built.hashes| && u == VNode(built.hashes[i], built.positions[i])
  {
    var z := Zip(built.hashes, built.positions);
    SameElements(z, AllVNodes(h, r.members));
    forall i | 0 <= i < |built.hashes|
      ensures IsVNode(h, r.members, VNode(built.hashes[i], built.positions[i]))
    {
      assert z[i] in z;
      AllVNodesExact(h, r.members, z[i]);
    }
    forall u | IsVNode(h, r.members, u)
      ensures exists i :: 0 <= i < |built.hashes| && u == VNode(built.hashes[i], built.positions[i])
    {
      AllVNodesExact(h, r.members, u);
      assert u in z;
      var i :| 0 <= i < |z| && z[i] == u;
    }
  }

  /** The first hash at or after `x`, or else the first hash of all, is the clockwise nearest. */
  lemma FirstIsNearest(hashes: seq<Point>, x: Point, i: nat, k: nat)
    requires forall a, b :: 0 <= a < b < |hashes| ==> hashes[a] <= hashes[b]
    requires FirstAtLeast(hashes, x, i) && k < |hashes|
    ensures Clockwise(x, hashes[if i == |hashes| then 0 else i]) <= Clockwise(x, hashes[k])
  {
    var first := if i == |hashes| then 0 else i;
    if k >= i {
      assert hashes[first] <= hashes[k];
    } else if i < |hashes| {
      assert Clockwise(x, hashes[k]) == hashes[k] - x + CIRCLE;
    } else {
      assert Clockwise(x, hashes[k]) == hashes[k] - x + CIRCLE;
      assert Clockwise(x, hashes[0]) == hashes[0] - x + CIRCLE;
    }
  }

  /** Whatever a resolved ring answers owns a nearest virtual node, ties included. */
  lemma AnswerOwns(h: Hash, built: HashRing, r: Ring, x: Point, pod: string)
    requires Resolves(h, built, r) && Answers(built, x, pod)
    ensures Owns(h, r.members, x, pod) && pod in r.members
  {
    ResolvedVNodes(h, built, r);
    var i: nat :| FirstAtLeast(built.hashes, x, i) && pod == built.positions[if i == |built.hashes| then 0 else i];
    var first := if i == |built.hashes| then 0 else i;
    var v := VNode(built.hashes[first], built.positions[first]);
    forall u | IsVNode(h, r.members, u) ensures Clockwise(x, v.at) <= Clockwise(x, u.at) {
      var k :| 0 <= k < |built.hashes| && u == VNode(built.hashes[k], built.positions[k]);
      FirstIsNearest(built.hashes, x, i, k);
    }
    assert IsNearest(h, r.members, x, v);
  }

  /** The columns of an arrangement whose virtual nodes all lie at zero. */
  function Columns(version: int, order: seq<VNode>): (built: HashRing)
    requires forall i :: 0 <= i < |order| ==> order[i].at == 0
    ensures built.version == version && |built.hashes| == |built.positions| == |order| && Zip(built.hashes, built.positions) == order
    ensures forall i :: 0 <= i < |order| ==> built.hashes[i] == 0 && built.positions[i] == order[i].owner
  {
    HashRing(version, seq(|order|, i => 0), seq(|order|, i requires 0 <= i < |order| => order[i].owner))
  }

  lemma Foremost<T>(s: seq<T>, x: T) returns (r: seq<T>)
    requires x in s
    ensures r != [] && r[0] == x && multiset(r) == multiset(s) && forall y :: y in r <==> y in s
  {
    var k :| 0 <= k < |s| && s[k] == x;
    r := [x] + Without(s, k);
    SameElements(r, s);
  }

  lemma AtZero(h: Hash, members: seq<string>, v: VNode)
    requires v in AllVNodes(h, members) && forall s :: h(s) == 0
    ensures v.at == 0
  {
    AllVNodesExact(h, members, v);
  }

  /** Under a constant hash the virtual nodes may be arranged with any of them first. */
  lemma ArrangedFirst(h: Hash, members: seq<string>, v: VNode) returns (order: seq<VNode>)
    requires IsVNode(h, members, v) && forall s :: h(s) == 0
    ensures order != [] && order[0] == v && multiset(order) == multiset(AllVNodes(h, members))
    ensures forall i :: 0 <= i < |order| ==> order[i].at == 0
  {
    AllVNodesExact(h, members, v);
    order := Foremost(AllVNodes(h, members), v);
    forall i | 0 <= i < |order| ensures order[i].at == 0 { AtZero(h, members, order[i]); }
  }

  /** Every member of a ring can be answered. */
  lemma MembersAnswer(r: Ring, name: string) returns (h: Hash, built: HashRing)
    requires name in r.members
    ensures Resolves(h, built, r) && forall key :: Answers(built, h(key), name)
  {
    h := _ => 0;
    assert IsVNode(h, r.members, VNodeOf(h, name, 0));
    var order := ArrangedFirst(h, r.members, VNodeOf(h, name, 0));
    built := Columns(r.version, order);
    assert FirstAtLeast(built.hashes, 0, 0);
  }

  lemma OwnerHasLabel(h: Hash, members: seq<string>, x: Point, v: VNode) returns (i: nat)
    requires IsNearest(h, members, x, v)
    ensures i < 128 && v.at == h(Label(v.owner, i)) && NoneNearer(h, members, x, v.at)
  {
    assert IsVNode(h, members, v);
    i :| i < VNODE_COUNT && v == VNodeOf(h, v.owner, i);
    forall m, j: nat | m in members && j < 128 ensures (v.at - x) % 0x1_0000_0000 <= (h(Label(m, j)) - x) % 0x1_0000_0000 {
      assert IsVNode(h, members, VNodeOf(h, m, j));
    }
  }

  lemma LabelOwns(h: Hash, members: seq<string>, x: Point, pod: string, i: nat)
    requires pod in members && i < 128 && NoneNearer(h, members, x, h(Label(pod, i)))
    ensures Owns(h, members, x, pod)
  {
    var v := VNodeOf(h, pod, i);
    assert IsVNode(h, members, v);
    forall u | IsVNode(h, members, u) ensures Clockwise(x, v.at) <= Clockwise(x, u.at) {
      var j: nat :| j < VNODE_COUNT && u == VNodeOf(h, u.owner, j);
      assert u.at == h(Label(u.owner, j));
    }
    assert IsNearest(h, members, x, v);
  }

  /** Owning a key in terms of labels: one of the pod's 128 is at least as near, clockwise, as any other. */
  lemma OwnsByLabel(h: Hash, members: seq<string>, x: Point, pod: string)
    ensures Owns(h, members, x, pod)
       <==> pod in members && exists i: nat :: i < 128 && NoneNearer(h, members, x, h(Label(pod, i)))
  {
    if Owns(h, members, x, pod) {
      var v :| IsNearest(h, members, x, v) && v.owner == pod;
      var i := OwnerHasLabel(h, members, x, v);
    } else if pod in members {
      forall i: nat | i < 128 && NoneNearer(h, members, x, h(Label(pod, i))) ensures false {
        LabelOwns(h, members, x, pod, i);
      }
    }
  }

  /** No label of a member lies nearer to `x`, clockwise on a circle of 2^32 points, than `point`. */
  ghost predicate NoneNearer(h: Hash, members: seq<string>, x: Point, point: Point) {
    forall m, j: nat :: m in members && j < 128 ==>
      (point - x) % 0x1_0000_0000 <= (h(Label(m, j)) - x) % 0x1_0000_0000
  }

  // Consequences for changing memberships

  /** No point of the circle is shared by virtual nodes of two different members. */
  ghost predicate NoSharedPoints(h: Hash, members: seq<string>) {
    forall u, v :: IsVNode(h, members, u) && IsVNode(h, members, v) && u.at == v.at ==> u.owner == v.owner
  }

  lemma ClockwiseInjective(x: Point, a: Point, b: Point)
    requires Clockwise(x, a) == Clockwise(x, b)
    ensures a == b
  {
    assert a - x == Clockwise(x, a) || a - x + CIRCLE == Clockwise(x, a);
    assert b - x == Clockwise(x, b) || b - x + CIRCLE == Clockwise(x, b);
  }

  /** Without shared points a key has one owner. */
  lemma OwnerUnique(h: Hash, members: seq<string>, x: Point, p: string, q: string)
    requires NoSharedPoints(h, members)
    requires Owns(h, members, x, p) && Owns(h, members, x, q)
    ensures p == q
  {
    var u :| IsNearest(h, members, x, u) && u.owner == p;
    var v :| IsNearest(h, members, x, v) && v.owner == q;
    assert IsVNode(h, members, u) && IsVNode(h, members, v);
    ClockwiseInjective(x, u.at, v.at);
  }

  /** Every key has a single owner exactly when no point is shared. */
  lemma SingleOwnersIff(h: Hash, members: seq<string>)
    ensures NoSharedPoints(h, members)
       <==> forall x, p, q :: Owns(h, members, x, p) && Owns(h, members, x, q) ==> p == q
  {
    if NoSharedPoints(h, members) {
      forall x, p, q | Owns(h, members, x, p) && Owns(h, members, x, q) ensures p == q {
        OwnerUnique(h, members, x, p, q);
      }
    } else {
      var u, v :| IsVNode(h, members, u) && IsVNode(h, members, v) && u.at == v.at && u.owner != v.owner;
      assert IsNearest(h, members, u.at, u) && IsNearest(h, members, u.at, v);
      assert Owns(h, members, u.at, u.owner) && Owns(h, members, u.at, v.owner);
    }
  }

  lemma SubsetVNodes(h: Hash, small: seq<string>, big: seq<string>, v: VNode)
    requires forall m :: m in small ==> m in big
    ensures IsVNode(h, small, v) <==> IsVNode(h, big, v) && v.owner in small
  {
  }

  /**
   Removing members moves no key of a survivor: however either ring was sorted, a key whose old
   owner stays keeps that owner.
   */
  lemma RemovalKeepsSurvivors(h: Hash, before: Ring, after: Ring, b: HashRing, a: HashRing, x: Point, p: string, q: string)
    requires NoSharedPoints(h, before.members)
    requires forall m :: m in after.members ==> m in before.members
    requires Resolves(h, b, before) && Resolves(h, a, after)
    requires Answers(b, x, p) && Answers(a, x, q)
    ensures p in after.members ==> q == p
  {
    AnswerOwns(h, b, before, x, p);
    AnswerOwns(h, a, after, x, q);
    if p in after.members {
      var v :| IsNearest(h, before.members, x, v) && v.owner == p;
      forall u ensures IsVNode(h, after.members, u) <==> IsVNode(h, before.members, u) && u.owner in after.members {
        SubsetVNodes(h, after.members, before.members, u);
      }
      assert IsVNode(h, before.members, v);
      assert IsNearest(h, after.members, x, v);
      assert NoSharedPoints(h, after.members);
      OwnerUnique(h, after.members, x, p, q);
    }
  }

  /** Adding one member moves keys only to it. */
  lemma AdditionMovesOnlyToNew(h: Hash, before: Ring, after: Ring, added: string, b: HashRing, a: HashRing, x: Point, p: string, q: string)
    requires NoSharedPoints(h, after.members)
    requires forall m :: m in after.members <==> m in before.members || m == added
    requires Resolves(h, b, before) && Resolves(h, a, after)
    requires Answers(b, x, p) && Answers(a, x, q)
    ensures q == p || q == added
  {
    AnswerOwns(h, a, after, x, q);
    if q != added {
      RemovalKeepsSurvivors(h, after, before, a, b, x, q, p);
    }
  }

  /** Without shared points the answers depend only on the set of members. */
  lemma MemberOrderIrrelevant(h: Hash, r: Ring, s: Ring, b: HashRing, a: HashRing, x: Point, p: string, q: string)
    requires NoSharedPoints(h, r.members)
    requires forall m :: m in r.members <==> m in s.members
    requires Resolves(h, b, r) && Resolves(h, a, s)
    requires Answers(b, x, p) && Answers(a, x, q)
    ensures p == q
  {
    AnswerOwns(h, b, r, x, p);
    RemovalKeepsSurvivors(h, r, s, b, a, x, p, q);
  }
}
