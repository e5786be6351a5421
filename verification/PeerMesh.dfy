/** The simulator's peer mesh: rings within the cohorts of honest nodes, a backbone between them, then optional links.
    Whatever the random choices, the required links always fit, and the honest nodes are connected. */
module PeerMesh {
  import opened Sets
  import opened Graphs

  datatype Config = Config(
    nodes: nat, attackers: nat, cohortIds: seq<nat>, seed: bv64, shortcutsPerNode: nat, crossLinksPerNode: nat,
    attackerLinksPerNode: nat, maxPeerDegree: nat, maxAttackerDegree: nat)

  datatype Built = Mesh(neighbors: Graph) | InvalidConfig | InsufficientCapacity

  // ---- What is asked for

  predicate Honest(c: Config, v: nat) { c.attackers <= v < c.nodes }

  function HonestNodes(c: Config): set<nat> { set v: nat | v < c.nodes && Honest(c, v) }

  predicate Common(c: Config) { c.nodes > 0 && c.attackers < c.nodes && |c.cohortIds| == c.nodes }

  function CohortOf(c: Config, id: nat): set<nat>
    requires Common(c)
  {
    set v: nat | c.attackers <= v < c.nodes && c.cohortIds[v] == id
  }

  function Cohorts(c: Config): set<nat>
    requires Common(c)
  {
    set v: nat | c.attackers <= v < c.nodes :: c.cohortIds[v]
  }

  predicate Sound(c: Config) {
    && Common(c)
    && c.maxPeerDegree >= (if |Cohorts(c)| > 1 then 4 else 2)
    && !(c.attackers > 0 && c.attackerLinksPerNode > 0 && c.maxAttackerDegree == 0)
  }

  function Cap(c: Config, v: nat): nat { if v < c.attackers then c.maxAttackerDegree else c.maxPeerDegree }

  function Caps(c: Config): seq<nat> { seq(c.nodes, v requires 0 <= v < c.nodes => Cap(c, v)) }

  // ---- Random order

  ghost predicate Distinct(s: seq<nat>) { forall i, j :: 0 <= i < j < |s| ==> s[i] != s[j] }

  /** The same elements in another order. */
  ghost predicate Reordered(s: seq<nat>, t: seq<nat>) {
    multiset(s) == multiset(t) && |s| == |t| && Elements(s) == Elements(t) && (Distinct(s) ==> Distinct(t))
  }

  lemma Swapped(s: seq<nat>, i: nat, j: nat)
    requires i < |s| && j < |s|
    ensures Reordered(s, s[i := s[j]][j := s[i]])
  {
    var t := s[i := s[j]][j := s[i]];
    forall x | x in s ensures x in t {
      var k :| 0 <= k < |s| && s[k] == x;
      if k == i { assert t[j] == x; } else if k == j { assert t[i] == x; } else { assert t[k] == x; }
    }
  }

  lemma ReorderedOn(s: seq<nat>, t: seq<nat>, u: seq<nat>)
    requires Reordered(s, t) && Reordered(t, u)
    ensures Reordered(s, u)
  {}

  class DeterministicRng {
    var state: bv64

    constructor (seed: bv64) {
      state := seed ^ 0xA076_1D64_78BD_642F;
    }

    method NextU64() returns (value: bv64)
      modifies this
    {
      state := state + 0x9E37_79B9_7F4A_7C15;
      value := state;
      value := (value ^ (value >> 30)) * 0xBF58_476D_1CE4_E5B9;
      value := (value ^ (value >> 27)) * 0x94D0_49BB_1331_11EB;
      value := value ^ (value >> 31);
    }

    method Shuffle(values: seq<nat>) returns (shuffled: seq<nat>)
      modifies this
      ensures Reordered(values, shuffled)
    {
      hide Reordered;
      shuffled := values;
      Unchanged(values);
      var index := |values|;
      while index > 1
        invariant 0 <= index <= |values| == |shuffled| && Reordered(values, shuffled)
        decreases index
      {
        index := index - 1;
        var draw := NextU64();
        var selected := (draw as nat) % (index + 1);
        Swapped(shuffled, index, selected);
        ReorderedOn(values, shuffled, shuffled[index := shuffled[selected]][selected := shuffled[index]]);
        shuffled := shuffled[index := shuffled[selected]][selected := shuffled[index]];
      }
    }
  }

  lemma Unchanged(s: seq<nat>)
    ensures Reordered(s, s)
  {}

  // ---- The graph

  predicate Within(g: Graph, nodes: seq<nat>) { forall i :: 0 <= i < |nodes| ==> nodes[i] < |g| }

  predicate Linkable(g: Graph, caps: seq<nat>, v: nat, w: nat) {
    && v < |g| && w < |g| && |caps| == |g| && v != w && w !in g[v] && |g[v]| < caps[v] && |g[w]| < caps[w]
  }

  /** The node has as many more links to the candidates as wanted, or none of them can be added. */
  ghost predicate Supplied(base: Graph, g: Graph, caps: seq<nat>, v: nat, candidates: set<nat>, target: nat) {
    && v < |base| && v < |g|
    && (|(g[v] - base[v]) * candidates| >= target || forall w :: w in candidates ==> !Linkable(g, caps, v, w))
  }

  lemma LinkableLess(g: Graph, h: Graph, caps: seq<nat>, v: nat, w: nat)
    requires Grows(g, h) && !Linkable(g, caps, v, w)
    ensures !Linkable(h, caps, v, w)
  {
    if v < |g| && w < |g| {
      SubsetSize(g[v], h[v]);
      SubsetSize(g[w], h[w]);
    }
  }

  /** Further links leave a node supplied, and so does counting from an earlier graph. */
  lemma SuppliedMore(early: Graph, base: Graph, g: Graph, h: Graph, caps: seq<nat>, v: nat, candidates: set<nat>, target: nat)
    requires Grows(early, base) && Grows(base, g) && Grows(g, h) && Supplied(base, g, caps, v, candidates, target)
    ensures Supplied(early, h, caps, v, candidates, target)
  {
    hide Linkable;
    SubsetSize((g[v] - base[v]) * candidates, (h[v] - early[v]) * candidates);
    forall w | w in candidates && !Linkable(g, caps, v, w) ensures !Linkable(h, caps, v, w) { LinkableLess(g, h, caps, v, w); }
  }

  /** After an attempt no candidate up to this one can be added any more. */
  lemma Further(g: Graph, h: Graph, caps: seq<nat>, v: nat, candidates: seq<nat>, i: nat)
    requires i < |candidates| && Grows(g, h) && v < |g| && Within(g, candidates)
    requires forall k :: 0 <= k < i ==> !Linkable(g, caps, v, candidates[k])
    requires candidates[i] in h[v] || !Linkable(g, caps, v, candidates[i])
    ensures forall k :: 0 <= k <= i ==> !Linkable(h, caps, v, candidates[k])
  {
    forall k | 0 <= k <= i ensures !Linkable(h, caps, v, candidates[k]) {
      if candidates[k] !in h[v] { LinkableLess(g, h, caps, v, candidates[k]); }
    }
  }

  lemma OneLinkMore(was: set<nat>, now: set<nat>, w: nat)
    requires was <= now && w !in was && w in now
    ensures |now| >= |was| + 1
  {
    SubsetSize(was + {w}, now);
  }

  lemma InElements(s: seq<nat>, i: nat)
    requires i < |s|
    ensures s[i] in Elements(s)
  {}

  lemma HasIndex(s: seq<nat>, w: nat)
    requires w in Elements(s)
    ensures exists k :: 0 <= k < |s| && s[k] == w
  {}

  class BoundedGraph {
    var neighbors: Graph
    const caps: seq<nat>

    ghost predicate Valid()
      reads this
    {
      |caps| == |neighbors| && Undirected(neighbors) && Capped(neighbors, caps)
    }

    constructor (caps: seq<nat>)
      ensures Valid() && this.caps == caps && |neighbors| == |caps|
      ensures forall v :: 0 <= v < |neighbors| ==> neighbors[v] == {}
    {
      this.caps := caps;
      neighbors := seq(|caps|, v => {});
    }

    predicate CanAdd(left: nat, right: nat)
      requires left < |neighbors| && right < |neighbors| && |caps| == |neighbors|
      reads this
    {
      left != right && right !in neighbors[left] && |neighbors[left]| < caps[left] && |neighbors[right]| < caps[right]
    }

    method Add(left: nat, right: nat) returns (added: bool)
      requires Valid() && left < |neighbors| && right < |neighbors|
      modifies this
      ensures Valid() && added == old(CanAdd(left, right)) && Grows(old(neighbors), neighbors)
      ensures neighbors == if added then WithEdge(old(neighbors), left, right) else old(neighbors)
      ensures added ==> right in neighbors[left] && |neighbors[left]| == |old(neighbors)[left]| + 1
                        && |neighbors[right]| == |old(neighbors)[right]| + 1
                        && forall v :: 0 <= v < |neighbors| && v != left && v != right ==> neighbors[v] == old(neighbors)[v]
    {
      if !CanAdd(left, right) { return false; }
      EdgeAdded(neighbors, left, right);
      neighbors := WithEdge(neighbors, left, right);
      return true;
    }

    /** Links a node to candidates until `target` links were added. */
    method AddOptionalLinks(node: nat, candidates: seq<nat>, target: nat)
      requires Valid() && node < |neighbors| && Within(neighbors, candidates)
      modifies this
      ensures Valid() && Grows(old(neighbors), neighbors)
      ensures Supplied(old(neighbors), neighbors, caps, node, Elements(candidates), target)
    {
      hide Undirected, Capped, Elements;
      var added: nat := 0;
      for i := 0 to |candidates|
        invariant Valid() && Grows(old(neighbors), neighbors)
        invariant added <= |(neighbors[node] - old(neighbors)[node]) * Elements(candidates)|
        invariant forall k :: 0 <= k < i ==> !Linkable(neighbors, caps, node, candidates[k])
      {
        ghost var before := neighbors;
        var ok := Add(node, candidates[i]);
        Further(before, neighbors, caps, node, candidates, i);
        if ok {
          InElements(candidates, i);
          ghost var was, now := before[node] - old(neighbors)[node], neighbors[node] - old(neighbors)[node];
          OneLinkMore(was * Elements(candidates), now * Elements(candidates), candidates[i]);
          added := added + 1;
          if added == target { break; }
        }
      }
      forall w | w in Elements(candidates) ensures exists k :: 0 <= k < |candidates| && candidates[k] == w { HasIndex(candidates, w); }
    }

    /** Links the first pair that can be linked. */
    method ConnectFirstAvailable(left: seq<nat>, right: seq<nat>) returns (linked: bool, ghost a: nat, ghost b: nat)
      requires Valid() && Within(neighbors, left) && Within(neighbors, right)
      modifies this
      ensures Valid() && Grows(old(neighbors), neighbors)
      ensures linked ==> a in left && b in right && old(a < |neighbors| && b < |neighbors| && CanAdd(a, b))
                         && neighbors == WithEdge(old(neighbors), a, b)
      ensures !linked ==> neighbors == old(neighbors)
                          && forall i, j :: 0 <= i < |left| && 0 <= j < |right| ==> !CanAdd(left[i], right[j])
    {
      hide Undirected, Capped, WithEdge;
      a, b := 0, 0;
      for i := 0 to |left|
        invariant Valid() && neighbors == old(neighbors)
        invariant forall k, j :: 0 <= k < i && 0 <= j < |right| ==> !CanAdd(left[k], right[j])
      {
        for j := 0 to |right|
          invariant Valid() && neighbors == old(neighbors)
          invariant forall k :: 0 <= k < j ==> !CanAdd(left[i], right[k])
        {
          var ok := Add(left[i], right[j]);
          if ok { return true, left[i], right[j]; }
        }
      }
      return false, a, b;
    }

    method ConnectPair(left: nat, right: nat) returns (ok: bool)
      requires Valid() && left < |neighbors| && right < |neighbors| && left != right
      requires neighbors[left] == {} && neighbors[right] == {} && caps[left] >= 1 && caps[right] >= 1
      modifies this
      ensures Valid() && ok && Grows(old(neighbors), neighbors) && neighbors == WithEdge(old(neighbors), left, right)
    {
      ok := Add(left, right);
    }

    /** Links nodes that have no links yet into a ring; the degrees always allow it. */
    method ConnectRing(nodes: seq<nat>) returns (ok: bool)
      requires Valid() && Distinct(nodes)
      requires forall v :: v in nodes ==> v < |neighbors| && neighbors[v] == {} && caps[v] >= 2
      modifies this
      ensures Valid() && ok && Grows(old(neighbors), neighbors) && Chained(neighbors, nodes)
      ensures forall v :: v in nodes ==> |neighbors[v]| <= 2 && neighbors[v] <= Elements(nodes)
      ensures forall v :: 0 <= v < |neighbors| && v !in nodes ==> neighbors[v] == old(neighbors)[v]
    {
      hide Undirected, WithEdge, Ringed, Distinct, Grows, Chained, Elements;
      GrowsSelf(neighbors);
      if |nodes| < 2 {
        ShortChain(neighbors, nodes);
        return true;
      }
      if |nodes| == 2 {
        assert nodes[0] in nodes && nodes[1] in nodes;
        Apart(nodes, 0, 1);
        ok := ConnectPair(nodes[0], nodes[1]);
        PairRing(old(neighbors), neighbors, nodes);
        return;
      }
      RingStart(neighbors, nodes);
      for index := 0 to |nodes|
        invariant Valid() && |neighbors| == |old(neighbors)| && Grows(old(neighbors), neighbors)
        invariant forall v :: 0 <= v < |neighbors| && v !in nodes ==> neighbors[v] == old(neighbors)[v]
        invariant Ringed(neighbors, nodes, index)
      {
        RingNext(neighbors, nodes, index);
        SuccModulo(|nodes|, index);
        ghost var before := neighbors;
        assert nodes[index] in nodes && nodes[(index + 1) % |nodes|] in nodes;
        var added := Add(nodes[index], nodes[(index + 1) % |nodes|]);
        if !added { return false; }
        RingMore(before, neighbors, nodes, index);
        GrowsOn(old(neighbors), before, neighbors);
      }
      RingDone(neighbors, nodes);
      return true;
    }
  }

  // ---- Rings

  function Succ(n: nat, j: nat): nat { if j + 1 < n then j + 1 else 0 }

  lemma SuccModulo(n: nat, j: nat)
    requires j < n
    ensures (j + 1) % n == Succ(n, j) < n
  {}

  function Behind(nodes: seq<nat>, steps: nat, j: nat): set<nat>
    requires j < |nodes|
  {
    if 0 < j <= steps then {nodes[j - 1]}
    else if j == 0 && steps == |nodes| then {nodes[|nodes| - 1]}
    else {}
  }

  function Beyond(nodes: seq<nat>, steps: nat, j: nat): set<nat>
    requires j < |nodes|
  {
    if j < steps then {nodes[Succ(|nodes|, j)]} else {}
  }

  /** After so many steps the node at position j is linked to the one before and the one after it, if those links
      have been made. */
  ghost predicate LinkedAs(g: Graph, nodes: seq<nat>, steps: nat, j: nat)
    requires j < |nodes|
  {
    nodes[j] < |g| && g[nodes[j]] == Behind(nodes, steps, j) + Beyond(nodes, steps, j)
  }

  ghost predicate Ringed(g: Graph, nodes: seq<nat>, steps: nat) {
    forall j :: 0 <= j < |nodes| ==> LinkedAs(g, nodes, steps, j)
  }

  lemma ShortChain(g: Graph, nodes: seq<nat>)
    requires |nodes| < 2 && forall v :: v in nodes ==> v < |g|
    ensures Chained(g, nodes)
  {
    assert forall i :: 0 <= i < |nodes| ==> nodes[i] in nodes;
  }

  lemma RingStart(g: Graph, nodes: seq<nat>)
    requires |nodes| > 2 && forall v :: v in nodes ==> v < |g| && g[v] == {}
    ensures Ringed(g, nodes, 0)
  {
    assert forall j :: 0 <= j < |nodes| ==> nodes[j] in nodes;
  }

  lemma Apart(nodes: seq<nat>, i: nat, j: nat)
    requires Distinct(nodes) && i < |nodes| && j < |nodes| && i != j
    ensures nodes[i] != nodes[j]
  {}

  lemma RingNext(g: Graph, nodes: seq<nat>, steps: nat)
    requires |nodes| > 2 && steps < |nodes| && Distinct(nodes) && Ringed(g, nodes, steps)
    ensures var a, b := nodes[steps], nodes[Succ(|nodes|, steps)];
            a < |g| && b < |g| && a != b && b !in g[a] && |g[a]| <= 1 && |g[b]| <= 1
  {
    hide Distinct, Succ, Behind, Beyond;
    var n := |nodes|;
    var next := Succ(n, steps);
    RingHere(nodes, steps);
    Apart(nodes, steps, next);
    if steps > 0 { Apart(nodes, steps - 1, next); }
    assert LinkedAs(g, nodes, steps, steps) && LinkedAs(g, nodes, steps, next);
    assert Behind(nodes, steps, steps) + {} == Behind(nodes, steps, steps);
    assert {} + Beyond(nodes, steps, next) == Beyond(nodes, steps, next);
  }

  lemma RingHere(nodes: seq<nat>, steps: nat)
    requires |nodes| > 2 && steps < |nodes|
    ensures var next := Succ(|nodes|, steps);
            && next < |nodes| && next != steps && (steps > 0 ==> next != steps - 1)
            && Beyond(nodes, steps, steps) == {} && Behind(nodes, steps, steps) == (if steps > 0 then {nodes[steps - 1]} else {})
            && Behind(nodes, steps, next) == {} && |Beyond(nodes, steps, next)| <= 1
  {}

  lemma RingMore(g: Graph, h: Graph, nodes: seq<nat>, steps: nat)
    requires |nodes| > 2 && steps < |nodes| && Distinct(nodes) && Ringed(g, nodes, steps)
    requires nodes[steps] < |g| && nodes[Succ(|nodes|, steps)] < |g|
    requires h == WithEdge(g, nodes[steps], nodes[Succ(|nodes|, steps)])
    ensures Ringed(h, nodes, steps + 1)
  {
    hide Distinct, Succ, WithEdge, LinkedAs;
    var more := steps + 1;
    forall j | 0 <= j < |nodes| ensures LinkedAs(h, nodes, more, j) {
      assert LinkedAs(g, nodes, steps, j);
      RingMoreAt(g, nodes, steps, j);
    }
  }

  lemma RingMoreAt(g: Graph, nodes: seq<nat>, steps: nat, j: nat)
    requires |nodes| > 2 && steps < |nodes| && Distinct(nodes) && j < |nodes| && LinkedAs(g, nodes, steps, j)
    requires nodes[steps] < |g| && nodes[Succ(|nodes|, steps)] < |g|
    ensures LinkedAs(WithEdge(g, nodes[steps], nodes[Succ(|nodes|, steps)]), nodes, steps + 1, j)
  {
    hide Distinct, Succ, Behind, Beyond;
    RingHere(nodes, steps);
    var next := Succ(|nodes|, steps);
    RingStep(nodes, steps, j);
    Apart(nodes, steps, next);
    if j != steps { Apart(nodes, j, steps); }
    if j != next { Apart(nodes, j, next); }
  }

  lemma RingStep(nodes: seq<nat>, steps: nat, j: nat)
    requires |nodes| > 2 && steps < |nodes| && j < |nodes|
    ensures var next := Succ(|nodes|, steps);
            && Behind(nodes, steps + 1, j) == Behind(nodes, steps, j) + (if j == next then {nodes[steps]} else {})
            && Beyond(nodes, steps + 1, j) == Beyond(nodes, steps, j) + (if j == steps then {nodes[next]} else {})
  {}

  lemma RingDone(g: Graph, nodes: seq<nat>)
    requires |nodes| > 2 && Ringed(g, nodes, |nodes|)
    ensures Chained(g, nodes)
    ensures forall v :: v in nodes ==> v < |g| && |g[v]| <= 2 && g[v] <= Elements(nodes)
  {
    hide LinkedAs;
    forall v | v in nodes ensures v < |g| && |g[v]| <= 2 && g[v] <= Elements(nodes) {
      var j :| 0 <= j < |nodes| && nodes[j] == v;
      assert LinkedAs(g, nodes, |nodes|, j);
      RingEnd(g, nodes, j);
    }
    forall i | 0 <= i < |nodes| ensures nodes[i] < |g| && (i < |nodes| - 1 ==> nodes[i + 1] in g[nodes[i]]) {
      assert LinkedAs(g, nodes, |nodes|, i);
      RingEnd(g, nodes, i);
    }
  }

  lemma RingEnd(g: Graph, nodes: seq<nat>, j: nat)
    requires |nodes| > 2 && j < |nodes| && LinkedAs(g, nodes, |nodes|, j)
    ensures nodes[j] < |g| && |g[nodes[j]]| <= 2 && g[nodes[j]] <= Elements(nodes)
    ensures j < |nodes| - 1 ==> nodes[j + 1] in g[nodes[j]]
  {
    var n := |nodes|;
    var before, after := nodes[if j == 0 then n - 1 else j - 1], nodes[Succ(n, j)];
    assert g[nodes[j]] == {before} + {after} == {before, after};
    PairSize(before, after);
  }

  lemma PairSize(a: nat, b: nat)
    ensures |{a, b}| <= 2
  {
    if a == b { assert {a, b} == {a}; }
  }

  lemma PairRing(g: Graph, h: Graph, nodes: seq<nat>)
    requires |nodes| == 2 && Distinct(nodes) && nodes[0] < |g| && nodes[1] < |g| && g[nodes[0]] == {} && g[nodes[1]] == {}
    requires h == WithEdge(g, nodes[0], nodes[1])
    ensures Chained(h, nodes) && forall v :: v in nodes ==> |h[v]| <= 2 && h[v] <= Elements(nodes)
    ensures forall v :: 0 <= v < |g| && v !in nodes ==> h[v] == g[v]
  {
    assert nodes[0] in nodes && nodes[1] in nodes;
    assert h[nodes[0]] == {nodes[1]} && h[nodes[1]] == {nodes[0]};
    assert nodes[0] in Elements(nodes) && nodes[1] in Elements(nodes);
    assert forall v :: v in nodes ==> v == nodes[0] || v == nodes[1];
  }

  // ---- Cohorts

  /** The cohorts of honest nodes, by ascending identifier. */
  ghost predicate Grouped(c: Config, ids: seq<nat>, groups: seq<seq<nat>>)
    requires Common(c)
  {
    && |ids| == |groups| && (forall i, j :: 0 <= i < j < |ids| ==> ids[i] < ids[j])
    && (forall id :: id in Cohorts(c) <==> id in ids)
    && forall k :: 0 <= k < |groups| ==> GroupOf(c, ids[k], groups[k])
  }

  ghost predicate GroupOf(c: Config, id: nat, group: seq<nat>)
    requires Common(c)
  {
    group != [] && Distinct(group) && Elements(group) == CohortOf(c, id)
  }

  lemma GroupReordered(c: Config, id: nat, group: seq<nat>, other: seq<nat>)
    requires Common(c) && GroupOf(c, id, group) && Reordered(group, other)
    ensures GroupOf(c, id, other)
  {}

  lemma GroupNodes(c: Config, id: nat, group: seq<nat>)
    requires Common(c) && GroupOf(c, id, group)
    ensures forall v :: v in group ==> Honest(c, v) && c.cohortIds[v] == id
  {
    forall v | v in group ensures Honest(c, v) && c.cohortIds[v] == id { assert v in Elements(group); }
  }

  /** No node is in two groups. */
  lemma GroupsApart(c: Config, ids: seq<nat>, groups: seq<seq<nat>>, k: nat, m: nat, v: nat)
    requires Common(c) && Grouped(c, ids, groups) && k < |groups| && m < |groups| && v in groups[k] && v in groups[m]
    ensures k == m
  {
    GroupNodes(c, ids[k], groups[k]);
    GroupNodes(c, ids[m], groups[m]);
  }

  function IdsBefore(c: Config, v: nat): set<nat>
    requires Common(c) && v <= c.nodes
  {
    set w: nat | c.attackers <= w < v :: c.cohortIds[w]
  }

  method GatherCohorts(c: Config) returns (cohorts: map<nat, seq<nat>>)
    requires Common(c)
    ensures cohorts.Keys == Cohorts(c) && forall id :: id in cohorts ==> GroupOf(c, id, cohorts[id])
  {
    hide SoFar, IdsBefore, Cohorts;
    cohorts := map[];
    NoIds(c);
    for v := c.attackers to c.nodes
      invariant cohorts.Keys == IdsBefore(c, v) && forall id :: id in cohorts ==> SoFar(c, v, id, cohorts[id])
    {
      var id := c.cohortIds[v];
      IdsNext(c, v);
      if id in cohorts { SoFarSome(c, v, id, cohorts[id]); }
      NextMember(c, v, if id in cohorts then cohorts[id] else []);
      forall other | other in cohorts && other != id ensures SoFar(c, v + 1, other, cohorts[other]) { NotMember(c, v, other, cohorts[other]); }
      cohorts := cohorts[id := (if id in cohorts then cohorts[id] else []) + [v]];
    }
    AllMembers(c, cohorts);
  }

  lemma NoIds(c: Config)
    requires Common(c)
    ensures IdsBefore(c, c.attackers) == {}
  {}

  lemma IdsNext(c: Config, v: nat)
    requires Common(c) && c.attackers <= v < c.nodes
    ensures IdsBefore(c, v + 1) == IdsBefore(c, v) + {c.cohortIds[v]}
    ensures c.cohortIds[v] !in IdsBefore(c, v) ==> forall w :: c.attackers <= w < v ==> c.cohortIds[w] != c.cohortIds[v]
  {}

  method HonestCohorts(c: Config) returns (ids: seq<nat>, groups: seq<seq<nat>>)
    requires Common(c)
    ensures Grouped(c, ids, groups)
  {
    hide GroupOf, Cohorts;
    var cohorts := GatherCohorts(c);
    ids, groups := [], [];
    var rest := cohorts.Keys;
    while rest != {}
      invariant rest <= cohorts.Keys && |ids| == |groups|
      invariant forall i, j :: 0 <= i < j < |ids| ==> ids[i] < ids[j]
      invariant forall i, x :: 0 <= i < |ids| && x in rest ==> ids[i] < x
      invariant forall x :: x in cohorts <==> x in ids || x in rest
      invariant forall k :: 0 <= k < |groups| ==> GroupOf(c, ids[k], groups[k])
      decreases |rest|
    {
      var id := Smallest(rest);
      ids, groups, rest := ids + [id], groups + [cohorts[id]], rest - {id};
    }
  }

  method Smallest(numbers: set<nat>) returns (least: nat)
    requires numbers != {}
    ensures least in numbers && forall x :: x in numbers ==> least <= x
  {
    least :| least in numbers;
    var rest := numbers - {least};
    while rest != {}
      invariant rest <= numbers && least in numbers && forall x :: x in numbers && x !in rest ==> least <= x
      decreases |rest|
    {
      var x :| x in rest;
      if x < least { least := x; }
      rest := rest - {x};
    }
  }

  /** The members of a cohort among the nodes before v. */
  ghost predicate SoFar(c: Config, v: nat, id: nat, group: seq<nat>)
    requires Common(c) && v <= c.nodes
  {
    Distinct(group) && group != [] && forall w :: w in group <==> c.attackers <= w < v && c.cohortIds[w] == id
  }

  lemma SoFarSome(c: Config, v: nat, id: nat, group: seq<nat>)
    requires Common(c) && v <= c.nodes && SoFar(c, v, id, group)
    ensures group != []
  {}

  lemma NextMember(c: Config, v: nat, group: seq<nat>)
    requires Common(c) && c.attackers <= v < c.nodes
    requires group == [] ==> forall w :: c.attackers <= w < v ==> c.cohortIds[w] != c.cohortIds[v]
    requires group != [] ==> SoFar(c, v, c.cohortIds[v], group)
    ensures SoFar(c, v + 1, c.cohortIds[v], group + [v])
  {
    assert forall i :: 0 <= i < |group| ==> group[i] in group;
  }

  lemma NotMember(c: Config, v: nat, id: nat, group: seq<nat>)
    requires Common(c) && c.attackers <= v < c.nodes && c.cohortIds[v] != id && SoFar(c, v, id, group)
    ensures SoFar(c, v + 1, id, group)
  {}

  lemma AllMembers(c: Config, cohorts: map<nat, seq<nat>>)
    requires Common(c) && cohorts.Keys == IdsBefore(c, c.nodes)
    requires forall id :: id in cohorts ==> SoFar(c, c.nodes, id, cohorts[id])
    ensures cohorts.Keys == Cohorts(c) && forall id :: id in cohorts ==> GroupOf(c, id, cohorts[id])
  {
    forall id | id in cohorts ensures GroupOf(c, id, cohorts[id]) {
      assert Elements(cohorts[id]) == CohortOf(c, id);
    }
  }

  /** As many groups as cohorts. */
  lemma {:induction false} AscendingSize(ids: seq<nat>)
    requires forall i, j :: 0 <= i < j < |ids| ==> ids[i] < ids[j]
    ensures |Elements(ids)| == |ids|
  {
    if ids == [] {
      assert Elements(ids) == {};
    } else {
      var n := |ids| - 1;
      AscendingSize(ids[..n]);
      assert ids == ids[..n] + [ids[n]];
      assert Elements(ids) == Elements(ids[..n]) + {ids[n]} && ids[n] !in ids[..n];
    }
  }

  lemma GroupCount(c: Config, ids: seq<nat>, groups: seq<seq<nat>>)
    requires Common(c) && Grouped(c, ids, groups)
    ensures |groups| == |Cohorts(c)| && |groups| > 0
  {
    hide GroupOf;
    AscendingSize(ids);
    assert Elements(ids) == Cohorts(c);
    assert c.cohortIds[c.attackers] in Cohorts(c);
  }

  // ---- Building

  ghost function Union(groups: seq<seq<nat>>, n: nat): set<nat>
    requires n <= |groups|
  {
    if n == 0 then {} else Union(groups, n - 1) + Elements(groups[n - 1])
  }

  lemma {:induction false} UnionMeans(groups: seq<seq<nat>>, n: nat)
    requires n <= |groups|
    ensures forall v :: v in Union(groups, n) <==> exists m :: 0 <= m < n && v in groups[m]
  {
    if n > 0 {
      UnionMeans(groups, n - 1);
      forall v ensures v in Union(groups, n) <==> exists m :: 0 <= m < n && v in groups[m] {
        if v in Union(groups, n - 1) {
          var m :| 0 <= m < n - 1 && v in groups[m];
        }
      }
    }
  }

  lemma UnionHonest(c: Config, ids: seq<nat>, groups: seq<seq<nat>>)
    requires Common(c) && Grouped(c, ids, groups)
    ensures Union(groups, |groups|) == HonestNodes(c)
  {
    hide GroupOf;
    UnionMeans(groups, |groups|);
    forall v ensures v in Union(groups, |groups|) <==> v in HonestNodes(c) {
      if v in Union(groups, |groups|) {
        var m :| 0 <= m < |groups| && v in groups[m];
        GroupNodes(c, ids[m], groups[m]);
      } else if v in HonestNodes(c) {
        var id := c.cohortIds[v];
        assert id in Cohorts(c);
        var m :| 0 <= m < |ids| && ids[m] == id;
        GroupHas(c, id, groups[m], v);
      }
    }
  }

  lemma GroupHas(c: Config, id: nat, group: seq<nat>, v: nat)
    requires Common(c) && GroupOf(c, id, group) && Honest(c, v) && c.cohortIds[v] == id
    ensures v in group
  {
    assert v in Elements(group);
  }

  /** A group whose ring is closed and that no other group is linked to. */
  ghost predicate Closed(g: Graph, group: seq<nat>) {
    forall v :: v in group ==> v < |g| && |g[v]| <= 2 && g[v] <= Elements(group)
  }

  /** A group without links. */
  ghost predicate Bare(g: Graph, group: seq<nat>) {
    forall v :: v in group ==> v < |g| && g[v] == {}
  }

  /** A group with at most one link to another one. */
  ghost predicate Open(g: Graph, group: seq<nat>) {
    forall v :: v in group ==> v < |g| && |g[v]| <= 3
  }

  ghost predicate RingsClosed(g: Graph, groups: seq<seq<nat>>, n: nat) {
    && (forall m :: 0 <= m < n && m < |groups| ==> Closed(g, groups[m]) && Connected(g, Elements(groups[m])))
    && (forall m :: n <= m < |groups| ==> Bare(g, groups[m]))
  }

  /** The first n + 1 groups are joined, the others not yet. */
  ghost predicate Joined(g: Graph, groups: seq<seq<nat>>, n: nat) {
    && n < |groups| && Connected(g, Union(groups, n + 1)) && Open(g, groups[n])
    && (forall m :: 0 <= m < |groups| ==> Connected(g, Elements(groups[m])))
    && (forall m :: n < m < |groups| ==> Closed(g, groups[m]))
    && (forall m :: 0 <= m < n ==> Sparse(g, groups[m]))
  }

  /** A group with at most two links to others. */
  ghost predicate Sparse(g: Graph, group: seq<nat>) {
    forall v :: v in group ==> v < |g| && |g[v]| <= 4
  }

  lemma SameNodes(g: Graph, h: Graph, group: seq<nat>)
    requires |g| == |h| && forall v :: v in group && v < |g| ==> h[v] == g[v]
    ensures Closed(g, group) ==> Closed(h, group)
    ensures Bare(g, group) ==> Bare(h, group)
  {}

  lemma RingClosed(c: Config, ids: seq<nat>, groups: seq<seq<nat>>, g: Graph, h: Graph, n: nat)
    requires Common(c) && Grouped(c, ids, groups) && n < |groups| && RingsClosed(g, groups, n)
    requires |g| == |h| && Grows(g, h) && Undirected(h) && Chained(h, groups[n]) && Closed(h, groups[n])
    requires forall v :: 0 <= v < |g| && v !in groups[n] ==> h[v] == g[v]
    ensures RingsClosed(h, groups, n + 1)
  {
    hide Connected, Grows, Undirected, Chained, Grouped, Closed, Bare;
    ChainedConnected(h, groups[n]);
    forall m | 0 <= m < |groups| && m != n
      ensures (Closed(g, groups[m]) ==> Closed(h, groups[m])) && (Bare(g, groups[m]) ==> Bare(h, groups[m]))
    {
      forall v | v in groups[m] && v < |g| ensures h[v] == g[v] {
        if v in groups[n] { GroupsApart(c, ids, groups, m, n, v); }
      }
      SameNodes(g, h, groups[m]);
    }
    forall m | 0 <= m < n ensures Connected(h, Elements(groups[m])) { ConnectedMore(g, h, Elements(groups[m])); }
  }

  lemma RegroupedClosed(g: Graph, groups: seq<seq<nat>>, n: nat, group: seq<nat>)
    requires n < |groups| && RingsClosed(g, groups, n) && Elements(group) == Elements(groups[n])
    ensures RingsClosed(g, groups[n := group], n)
  {
    hide Connected;
    assert forall v :: v in group ==> v in Elements(group);
    assert forall v :: v in Elements(groups[n]) ==> v in groups[n];
    assert Bare(g, groups[n]);
  }

  lemma FirstJoined(g: Graph, groups: seq<seq<nat>>)
    requires groups != [] && RingsClosed(g, groups, |groups|)
    ensures Joined(g, groups, 0)
  {
    hide Connected;
    assert Union(groups, 1) == Union(groups, 0) + Elements(groups[0]) == Elements(groups[0]);
    assert Closed(g, groups[0]);
  }

  /** Linking the next group. */
  lemma NextJoined(c: Config, ids: seq<nat>, groups: seq<seq<nat>>, g: Graph, h: Graph, n: nat, a: nat, b: nat)
    requires Common(c) && Grouped(c, ids, groups) && n + 1 < |groups| && Joined(g, groups, n)
    requires Undirected(g) && Undirected(h) && Grows(g, h) && a in groups[n] && b in groups[n + 1]
    requires a < |g| && b < |g| && a != b && b !in g[a] && h == WithEdge(g, a, b)
    ensures Joined(h, groups, n + 1)
  {
    hide Connected, Grouped, Undirected, Grows, Sparse, Union, Closed, Open, WithEdge, Elements;
    EdgeAdded(g, a, b);
    NextConnected(groups, g, h, n, a, b);
    NextClosed(c, ids, groups, g, h, n, a, b);
    NextSparse(c, ids, groups, g, h, n, a, b);
  }

  lemma NextConnected(groups: seq<seq<nat>>, g: Graph, h: Graph, n: nat, a: nat, b: nat)
    requires n + 1 < |groups| && Connected(g, Union(groups, n + 1)) && Grows(g, h) && Undirected(h)
    requires forall m :: 0 <= m < |groups| ==> Connected(g, Elements(groups[m]))
    requires a in groups[n] && b in groups[n + 1] && a < |g| && b < |g| && b in h[a]
    ensures Connected(h, Union(groups, n + 2)) && forall m :: 0 <= m < |groups| ==> Connected(h, Elements(groups[m]))
  {
    hide Connected, Undirected;
    forall m | 0 <= m < |groups| ensures Connected(h, Elements(groups[m])) { ConnectedMore(g, h, Elements(groups[m])); }
    ConnectedMore(g, h, Union(groups, n + 1));
    UnionMeans(groups, n + 1);
    assert a in Union(groups, n + 1) && b in Elements(groups[n + 1]);
    ConnectedJoin(h, Union(groups, n + 1), Elements(groups[n + 1]), a, b);
  }

  lemma NextClosed(c: Config, ids: seq<nat>, groups: seq<seq<nat>>, g: Graph, h: Graph, n: nat, a: nat, b: nat)
    requires Common(c) && Grouped(c, ids, groups) && n + 1 < |groups| && a in groups[n] && b in groups[n + 1]
    requires forall m :: n < m < |groups| ==> Closed(g, groups[m])
    requires |h| == |g| && b < |g| && |h[b]| <= |g[b]| + 1 && forall v :: 0 <= v < |g| && v != a && v != b ==> h[v] == g[v]
    ensures Open(h, groups[n + 1]) && forall m :: n + 1 < m < |groups| ==> Closed(h, groups[m])
  {
    hide Grouped;
    forall m | n + 1 < m < |groups| ensures Closed(h, groups[m]) {
      if a in groups[m] { GroupsApart(c, ids, groups, n, m, a); }
      if b in groups[m] { GroupsApart(c, ids, groups, n + 1, m, b); }
      assert Closed(g, groups[m]);
      SameNodes(g, h, groups[m]);
    }
    if a in groups[n + 1] { GroupsApart(c, ids, groups, n, n + 1, a); }
    assert Closed(g, groups[n + 1]);
  }

  lemma NextSparse(c: Config, ids: seq<nat>, groups: seq<seq<nat>>, g: Graph, h: Graph, n: nat, a: nat, b: nat)
    requires Common(c) && Grouped(c, ids, groups) && n + 1 < |groups| && a in groups[n] && b in groups[n + 1]
    requires Open(g, groups[n]) && forall m :: 0 <= m < n ==> Sparse(g, groups[m])
    requires |h| == |g| && a < |g| && |h[a]| <= |g[a]| + 1 && forall v :: 0 <= v < |g| && v != a && v != b ==> h[v] == g[v]
    ensures forall m :: 0 <= m <= n ==> Sparse(h, groups[m])
  {
    hide Grouped;
    forall m | 0 <= m < n ensures Sparse(h, groups[m]) {
      if a in groups[m] { GroupsApart(c, ids, groups, m, n, a); }
      if b in groups[m] { GroupsApart(c, ids, groups, m, n + 1, b); }
      assert Sparse(g, groups[m]);
    }
    if b in groups[n] { GroupsApart(c, ids, groups, n, n + 1, b); }
  }

  /** The next link always fits. */
  lemma JoinFits(c: Config, ids: seq<nat>, groups: seq<seq<nat>>, g: Graph, n: nat, a: nat, b: nat)
    requires Common(c) && Grouped(c, ids, groups) && n + 1 < |groups| && Joined(g, groups, n) && Undirected(g)
    requires a in groups[n] && b in groups[n + 1]
    ensures a < |g| && b < |g| && a != b && b !in g[a] && |g[a]| <= 3 && |g[b]| <= 2
  {
    hide Connected, Grouped;
    assert Closed(g, groups[n + 1]);
    if a == b { GroupsApart(c, ids, groups, n, n + 1, a); }
    if b in g[a] {
      assert a in g[b] && a in Elements(groups[n + 1]);
      GroupsApart(c, ids, groups, n, n + 1, a);
    }
  }

  lemma GroupsWithin(c: Config, ids: seq<nat>, groups: seq<seq<nat>>, g: Graph)
    requires Common(c) && Grouped(c, ids, groups) && |g| == c.nodes
    ensures forall k :: 0 <= k < |groups| ==> Within(g, groups[k]) && groups[k] != []
  {
    hide GroupOf;
    forall k | 0 <= k < |groups| ensures Within(g, groups[k]) && groups[k] != [] {
      GroupNodes(c, ids[k], groups[k]);
      GroupSome(c, ids[k], groups[k]);
      assert forall i :: 0 <= i < |groups[k]| ==> groups[k][i] in groups[k];
    }
  }

  lemma GroupSome(c: Config, id: nat, group: seq<nat>)
    requires Common(c) && GroupOf(c, id, group)
    ensures group != [] && Distinct(group)
  {}

  lemma ReorderedWithin(g: Graph, s: seq<nat>, t: seq<nat>)
    requires Within(g, s) && Reordered(s, t)
    ensures Within(g, t) && |s| == |t| && forall x :: x in t <==> x in s
  {
    forall x ensures x in t <==> x in s { assert x in Elements(s) <==> x in Elements(t); }
    forall i | 0 <= i < |t| ensures t[i] < |g| { assert t[i] in t; }
  }

  lemma CapOf(c: Config, v: nat)
    requires v < c.nodes
    ensures Caps(c)[v] == Cap(c, v) && |Caps(c)| == c.nodes
  {}

  /** Closes the ring of every cohort. */
  method ConnectRings(c: Config, graph: BoundedGraph, rng: DeterministicRng, ids: seq<nat>, groups: seq<seq<nat>>)
    returns (ok: bool, shuffled: seq<seq<nat>>)
    requires Sound(c) && Grouped(c, ids, groups) && graph.Valid() && graph.caps == Caps(c)
    requires forall v :: 0 <= v < |graph.neighbors| ==> graph.neighbors[v] == {}
    modifies graph, rng
    ensures graph.Valid() && ok && Grouped(c, ids, shuffled) && RingsClosed(graph.neighbors, shuffled, |shuffled|)
  {
    hide Undirected, Capped, GroupOf, Closed, Connected, Chained, Elements, Cohorts, Sound;
    shuffled := groups;
    SoundDegree(c);
    NothingLinked(c, ids, groups, graph.neighbors);
    for k := 0 to |groups|
      invariant graph.Valid() && |shuffled| == |groups| && Grouped(c, ids, shuffled)
      invariant RingsClosed(graph.neighbors, shuffled, k)
    {
      var nodes := rng.Shuffle(shuffled[k]);
      GroupReordered(c, ids[k], shuffled[k], nodes);
      ReorderedSame(shuffled[k], nodes);
      RegroupedClosed(graph.neighbors, shuffled, k, nodes);
      shuffled := shuffled[k := nodes];
      GroupSome(c, ids[k], nodes);
      GroupNodes(c, ids[k], nodes);
      assert Bare(graph.neighbors, shuffled[k]);
      forall v | v in nodes ensures graph.caps[v] >= 2 { CapOf(c, v); }
      ghost var before := graph.neighbors;
      ok := graph.ConnectRing(nodes);
      RingIsClosed(graph.neighbors, nodes);
      RingClosed(c, ids, shuffled, before, graph.neighbors, k);
    }
    ok := true;
  }

  lemma SoundDegree(c: Config)
    requires Sound(c)
    ensures Common(c) && c.maxPeerDegree >= 2 && (|Cohorts(c)| > 1 ==> c.maxPeerDegree >= 4)
  {}

  lemma ReorderedSame(s: seq<nat>, t: seq<nat>)
    requires Reordered(s, t)
    ensures Elements(s) == Elements(t)
  {}

  lemma RingIsClosed(g: Graph, nodes: seq<nat>)
    requires Chained(g, nodes) && forall v :: v in nodes ==> v < |g| && |g[v]| <= 2 && g[v] <= Elements(nodes)
    ensures Closed(g, nodes)
  {}

  lemma NothingLinked(c: Config, ids: seq<nat>, groups: seq<seq<nat>>, g: Graph)
    requires Common(c) && Grouped(c, ids, groups) && |g| == c.nodes && forall v :: 0 <= v < |g| ==> g[v] == {}
    ensures RingsClosed(g, groups, 0)
  {
    hide GroupOf;
    forall m | 0 <= m < |groups| ensures Bare(g, groups[m]) { GroupNodes(c, ids[m], groups[m]); }
  }

  /** Links each cohort to the next. */
  method ConnectCohortBackbone(c: Config, graph: BoundedGraph, rng: DeterministicRng, ids: seq<nat>, groups: seq<seq<nat>>)
    returns (ok: bool)
    requires Sound(c) && Grouped(c, ids, groups) && graph.Valid() && graph.caps == Caps(c)
    requires RingsClosed(graph.neighbors, groups, |groups|)
    modifies graph, rng
    ensures graph.Valid() && ok && |groups| > 0 && Joined(graph.neighbors, groups, |groups| - 1)
  {
    hide Undirected, Capped, Grouped, Joined, RingsClosed, WithEdge, Sound, Cohorts;
    SoundDegree(c);
    GroupCount(c, ids, groups);
    FirstJoined(graph.neighbors, groups);
    for k := 0 to |groups| - 1
      invariant graph.Valid() && Joined(graph.neighbors, groups, k)
    {
      GroupsWithin(c, ids, groups, graph.neighbors);
      var left := rng.Shuffle(groups[k]);
      var right := rng.Shuffle(groups[k + 1]);
      ReorderedWithin(graph.neighbors, groups[k], left);
      ReorderedWithin(graph.neighbors, groups[k + 1], right);
      PairFits(c, ids, groups, graph, k, left[0], right[0]);
      ghost var before := graph.neighbors;
      var linked;
      ghost var a, b;
      linked, a, b := graph.ConnectFirstAvailable(left, right);
      if !linked { return false; }
      NextJoined(c, ids, groups, before, graph.neighbors, k, a, b);
    }
    return true;
  }

  lemma PairFits(c: Config, ids: seq<nat>, groups: seq<seq<nat>>, graph: BoundedGraph, k: nat, a: nat, b: nat)
    requires Sound(c) && Grouped(c, ids, groups) && graph.Valid() && graph.caps == Caps(c)
    requires k + 1 < |groups| && Joined(graph.neighbors, groups, k) && a in groups[k] && b in groups[k + 1]
    ensures a < |graph.neighbors| && b < |graph.neighbors| && graph.CanAdd(a, b)
  {
    hide GroupOf, Joined, Undirected, Capped, Cohorts;
    JoinFits(c, ids, groups, graph.neighbors, k, a, b);
    GroupCount(c, ids, groups);
    GroupNodes(c, ids[k], groups[k]);
    GroupNodes(c, ids[k + 1], groups[k + 1]);
    CapOf(c, a);
    CapOf(c, b);
  }

  method AddSameCohortShortcuts(graph: BoundedGraph, rng: DeterministicRng, groups: seq<seq<nat>>, perNode: nat)
    requires graph.Valid() && forall k :: 0 <= k < |groups| ==> Within(graph.neighbors, groups[k])
    modifies graph, rng
    ensures graph.Valid() && Grows(old(graph.neighbors), graph.neighbors)
    ensures forall k, v :: 0 <= k < |groups| && v in groups[k] ==>
              Supplied(old(graph.neighbors), graph.neighbors, graph.caps, v, Elements(groups[k]), perNode)
  {
    hide Undirected, Capped, Reordered, Supplied, Elements;
    ghost var base := graph.neighbors;
    if perNode == 0 {
      forall k, v | 0 <= k < |groups| && v in groups[k] ensures Supplied(base, base, graph.caps, v, Elements(groups[k]), 0) {
        assert Within(base, groups[k]);
        NothingWanted(base, graph.caps, v, Elements(groups[k]));
      }
      return;
    }
    for k := 0 to |groups|
      invariant graph.Valid() && Grows(base, graph.neighbors)
      invariant forall m, v :: 0 <= m < k && v in groups[m] ==>
                  Supplied(base, graph.neighbors, graph.caps, v, Elements(groups[m]), perNode)
    {
      for i := 0 to |groups[k]|
        invariant graph.Valid() && Grows(base, graph.neighbors)
        invariant forall m, v :: 0 <= m < k && v in groups[m] ==>
                    Supplied(base, graph.neighbors, graph.caps, v, Elements(groups[m]), perNode)
        invariant forall j :: 0 <= j < i ==>
                    Supplied(base, graph.neighbors, graph.caps, groups[k][j], Elements(groups[k]), perNode)
      {
        var candidates := rng.Shuffle(groups[k]);
        ReorderedWithin(graph.neighbors, groups[k], candidates);
        ReorderedSame(groups[k], candidates);
        ghost var mid := graph.neighbors;
        graph.AddOptionalLinks(groups[k][i], candidates, perNode);
        ghost var g := graph.neighbors;
        forall v, cands | Supplied(base, mid, graph.caps, v, cands, perNode) ensures Supplied(base, g, graph.caps, v, cands, perNode) {
          SuppliedMore(base, base, mid, g, graph.caps, v, cands, perNode);
        }
        SuppliedMore(base, mid, g, g, graph.caps, groups[k][i], Elements(groups[k]), perNode);
      }
    }
  }

  lemma NothingWanted(g: Graph, caps: seq<nat>, v: nat, candidates: set<nat>)
    requires v < |g|
    ensures Supplied(g, g, caps, v, candidates, 0)
  {}

  /** The honest nodes of other cohorts. */
  function Strangers(c: Config, v: nat): set<nat>
    requires Common(c) && v < c.nodes
  {
    set w: nat | c.attackers <= w < c.nodes && c.cohortIds[w] != c.cohortIds[v]
  }

  predicate IsAttacker(c: Config, v: nat) { v < c.attackers }

  function Attackers(c: Config): set<nat> { set w: nat | w < c.attackers && IsAttacker(c, w) }

  method AddCrossCohortLinks(c: Config, graph: BoundedGraph, rng: DeterministicRng)
    requires Common(c) && graph.Valid() && |graph.neighbors| == c.nodes
    modifies graph, rng
    ensures graph.Valid() && Grows(old(graph.neighbors), graph.neighbors)
    ensures forall v :: c.attackers <= v < c.nodes ==>
              Supplied(old(graph.neighbors), graph.neighbors, graph.caps, v, Strangers(c, v), c.crossLinksPerNode)
  {
    hide Undirected, Capped, Reordered, Supplied;
    ghost var base := graph.neighbors;
    if c.crossLinksPerNode == 0 {
      forall v | c.attackers <= v < c.nodes ensures Supplied(base, base, graph.caps, v, Strangers(c, v), 0) {
        NothingWanted(base, graph.caps, v, Strangers(c, v));
      }
      return;
    }
    for v := c.attackers to c.nodes
      invariant graph.Valid() && Grows(base, graph.neighbors)
      invariant forall w :: c.attackers <= w < v ==>
                  Supplied(base, graph.neighbors, graph.caps, w, Strangers(c, w), c.crossLinksPerNode)
    {
      var others: seq<nat> := [];
      for w := c.attackers to c.nodes
        modifies {}
        invariant Within(graph.neighbors, others)
        invariant forall x :: x in others <==> c.attackers <= x < w && c.cohortIds[x] != c.cohortIds[v]
      {
        if c.cohortIds[w] != c.cohortIds[v] { others := others + [w]; }
      }
      var candidates := rng.Shuffle(others);
      ReorderedWithin(graph.neighbors, others, candidates);
      assert Elements(candidates) == Strangers(c, v);
      ghost var mid := graph.neighbors;
      graph.AddOptionalLinks(v, candidates, c.crossLinksPerNode);
      ghost var g := graph.neighbors;
      forall w | c.attackers <= w < v ensures Supplied(base, g, graph.caps, w, Strangers(c, w), c.crossLinksPerNode) {
        SuppliedMore(base, base, mid, g, graph.caps, w, Strangers(c, w), c.crossLinksPerNode);
      }
      SuppliedMore(base, mid, g, g, graph.caps, v, Strangers(c, v), c.crossLinksPerNode);
    }
  }

  method AddAttackerExposure(c: Config, graph: BoundedGraph, rng: DeterministicRng)
    requires Common(c) && graph.Valid() && |graph.neighbors| == c.nodes
    modifies graph, rng
    ensures graph.Valid() && Grows(old(graph.neighbors), graph.neighbors)
    ensures forall v :: c.attackers <= v < c.nodes ==>
              Supplied(old(graph.neighbors), graph.neighbors, graph.caps, v, Attackers(c), c.attackerLinksPerNode)
  {
    hide Undirected, Capped, Reordered, Supplied;
    ghost var base := graph.neighbors;
    if c.attackerLinksPerNode == 0 || c.attackers == 0 {
      forall v | c.attackers <= v < c.nodes ensures Supplied(base, base, graph.caps, v, Attackers(c), c.attackerLinksPerNode) {
        NobodyWanted(base, graph.caps, v, Attackers(c), c.attackerLinksPerNode);
      }
      return;
    }
    var attackers := seq(c.attackers, i => i);
    for v := c.attackers to c.nodes
      invariant graph.Valid() && Grows(base, graph.neighbors)
      invariant forall w :: c.attackers <= w < v ==>
                  Supplied(base, graph.neighbors, graph.caps, w, Attackers(c), c.attackerLinksPerNode)
    {
      var candidates := rng.Shuffle(attackers);
      ReorderedWithin(graph.neighbors, attackers, candidates);
      AllAttackers(c, attackers);
      assert Elements(candidates) == Attackers(c);
      ghost var mid := graph.neighbors;
      graph.AddOptionalLinks(v, candidates, c.attackerLinksPerNode);
      ghost var g := graph.neighbors;
      forall w | c.attackers <= w < v ensures Supplied(base, g, graph.caps, w, Attackers(c), c.attackerLinksPerNode) {
        SuppliedMore(base, base, mid, g, graph.caps, w, Attackers(c), c.attackerLinksPerNode);
      }
      SuppliedMore(base, mid, g, g, graph.caps, v, Attackers(c), c.attackerLinksPerNode);
    }
  }

  lemma NobodyWanted(g: Graph, caps: seq<nat>, v: nat, candidates: set<nat>, target: nat)
    requires v < |g| && (target == 0 || candidates == {})
    ensures Supplied(g, g, caps, v, candidates, target)
  {}

  lemma AllAttackers(c: Config, attackers: seq<nat>)
    requires |attackers| == c.attackers && forall i :: 0 <= i < |attackers| ==> attackers[i] == i
    ensures forall x :: x in attackers <==> x in Attackers(c)
  {
    forall x | x in Attackers(c) ensures x in attackers { assert attackers[x] == x; }
  }

  /** What every mesh is: undirected, without loops, within the degrees, each cohort and all honest nodes connected
      among themselves. */
  ghost predicate Proper(c: Config, g: Graph)
    requires Common(c)
  {
    && Undirected(g) && Capped(g, Caps(c))
    && (forall id :: id in Cohorts(c) ==> Connected(g, CohortOf(c, id)))
    && Connected(g, HonestNodes(c))
  }

  /** Rings and a backbone: what connects the honest nodes, with few links each. */
  ghost predicate Backbone(c: Config, g: Graph)
    requires Common(c)
  {
    |g| == c.nodes && Connected(g, HonestNodes(c)) && forall v :: c.attackers <= v < c.nodes ==> |g[v]| <= 4
  }

  /** Beyond the backbone every honest node has the optional links asked for, as far as any could be added. */
  ghost predicate Complete(c: Config, base: Graph, g: Graph)
    requires Common(c)
  {
    && Grows(base, g)
    && forall v :: c.attackers <= v < c.nodes ==>
         && Supplied(base, g, Caps(c), v, CohortOf(c, c.cohortIds[v]), c.shortcutsPerNode)
         && Supplied(base, g, Caps(c), v, Strangers(c, v), c.crossLinksPerNode)
         && Supplied(base, g, Caps(c), v, Attackers(c), c.attackerLinksPerNode)
  }

  lemma JoinedBackbone(c: Config, ids: seq<nat>, groups: seq<seq<nat>>, g: Graph)
    requires Common(c) && Grouped(c, ids, groups) && groups != [] && Joined(g, groups, |groups| - 1) && |g| == c.nodes
    ensures Backbone(c, g)
  {
    hide Connected, GroupOf, Undirected, Capped, CohortOf, Cohorts;
    UnionHonest(c, ids, groups);
    forall v | c.attackers <= v < c.nodes ensures |g[v]| <= 4 {
      var k := GroupWith(c, ids, groups, v);
      if k < |groups| - 1 { assert Sparse(g, groups[k]); } else { assert Open(g, groups[k]); }
    }
  }

  /** Every honest node is in the group of its cohort. */
  lemma GroupWith(c: Config, ids: seq<nat>, groups: seq<seq<nat>>, v: nat) returns (k: nat)
    requires Common(c) && Grouped(c, ids, groups) && c.attackers <= v < c.nodes
    ensures k < |groups| && v in groups[k] && Elements(groups[k]) == CohortOf(c, c.cohortIds[v])
  {
    hide GroupOf;
    assert c.cohortIds[v] in Cohorts(c);
    k :| 0 <= k < |ids| && ids[k] == c.cohortIds[v];
    GroupElements(c, ids[k], groups[k]);
    assert v in Elements(groups[k]);
  }

  lemma AllComplete(c: Config, ids: seq<nat>, groups: seq<seq<nat>>, g0: Graph, g1: Graph, g2: Graph, g3: Graph)
    requires Common(c) && Grouped(c, ids, groups) && |g0| == c.nodes && Grows(g0, g1) && Grows(g1, g2) && Grows(g2, g3)
    requires forall k, v :: 0 <= k < |groups| && v in groups[k] ==>
               Supplied(g0, g1, Caps(c), v, Elements(groups[k]), c.shortcutsPerNode)
    requires forall v :: c.attackers <= v < c.nodes ==> Supplied(g1, g2, Caps(c), v, Strangers(c, v), c.crossLinksPerNode)
    requires forall v :: c.attackers <= v < c.nodes ==> Supplied(g2, g3, Caps(c), v, Attackers(c), c.attackerLinksPerNode)
    ensures Complete(c, g0, g3)
  {
    hide Grouped, Supplied, Grows, Caps, CohortOf, Strangers, Attackers, Elements;
    GrowsOn(g0, g1, g2);
    GrowsOn(g1, g2, g3);
    GrowsOn(g0, g2, g3);
    GrowsSelf(g0);
    GrowsSelf(g3);
    forall v | c.attackers <= v < c.nodes
      ensures && Supplied(g0, g3, Caps(c), v, CohortOf(c, c.cohortIds[v]), c.shortcutsPerNode)
              && Supplied(g0, g3, Caps(c), v, Strangers(c, v), c.crossLinksPerNode)
              && Supplied(g0, g3, Caps(c), v, Attackers(c), c.attackerLinksPerNode)
    {
      var k := GroupWith(c, ids, groups, v);
      SuppliedMore(g0, g0, g1, g3, Caps(c), v, Elements(groups[k]), c.shortcutsPerNode);
      SuppliedMore(g0, g1, g2, g3, Caps(c), v, Strangers(c, v), c.crossLinksPerNode);
      SuppliedMore(g0, g2, g3, g3, Caps(c), v, Attackers(c), c.attackerLinksPerNode);
    }
  }

  lemma JoinedProper(c: Config, ids: seq<nat>, groups: seq<seq<nat>>, g: Graph, h: Graph)
    requires Common(c) && Grouped(c, ids, groups) && groups != [] && Joined(g, groups, |groups| - 1)
    requires Grows(g, h) && Undirected(h) && Capped(h, Caps(c))
    ensures Proper(c, h)
  {
    hide Connected, GroupOf, Undirected, Capped, Grows, CohortOf, Cohorts;
    UnionHonest(c, ids, groups);
    ConnectedMore(g, h, HonestNodes(c));
    forall id | id in Cohorts(c) ensures Connected(h, CohortOf(c, id)) {
      var k :| 0 <= k < |ids| && ids[k] == id;
      GroupElements(c, id, groups[k]);
      ConnectedMore(g, h, Elements(groups[k]));
    }
  }

  lemma GroupElements(c: Config, id: nat, group: seq<nat>)
    requires Common(c) && GroupOf(c, id, group)
    ensures Elements(group) == CohortOf(c, id)
  {}

  method CohortCount(c: Config) returns (count: nat)
    requires Common(c)
    ensures count == |Cohorts(c)|
  {
    hide GroupOf;
    var ids, groups := HonestCohorts(c);
    GroupCount(c, ids, groups);
    count := |groups|;
  }

  /** Builds the mesh: refused exactly for wrong configurations, never for want of degrees. */
  method BuildPeerMesh(c: Config) returns (built: Built)
    ensures built.InvalidConfig? <==> !Sound(c)
    ensures !built.InsufficientCapacity?
    ensures built.Mesh? ==> Common(c) && |built.neighbors| == c.nodes && Proper(c, built.neighbors)
    ensures built.Mesh? ==> exists base :: Backbone(c, base) && Complete(c, base, built.neighbors)
  {
    hide Undirected, Capped, Grouped, Cohorts, Proper, Joined, RingsClosed, Caps, Grows, Backbone, Complete, Supplied;
    if c.nodes == 0 || c.attackers >= c.nodes || |c.cohortIds| != c.nodes { return InvalidConfig; }
    var count := CohortCount(c);
    if c.maxPeerDegree < (if count > 1 then 4 else 2) { return InvalidConfig; }
    if c.attackers > 0 && c.attackerLinksPerNode > 0 && c.maxAttackerDegree == 0 { return InvalidConfig; }
    CapOf(c, 0);
    var graph := new BoundedGraph(Caps(c));
    var rng := new DeterministicRng(c.seed);
    var ids, groups := HonestCohorts(c);
    var ok;
    ok, groups := ConnectRings(c, graph, rng, ids, groups);
    if !ok { return InsufficientCapacity; }
    ok := ConnectCohortBackbone(c, graph, rng, ids, groups);
    if !ok { return InsufficientCapacity; }
    ghost var joined := graph.neighbors;
    GroupsWithin(c, ids, groups, graph.neighbors);
    GroupCount(c, ids, groups);
    AddSameCohortShortcuts(graph, rng, groups, c.shortcutsPerNode);
    ghost var g1 := graph.neighbors;
    AddCrossCohortLinks(c, graph, rng);
    ghost var g2 := graph.neighbors;
    AddAttackerExposure(c, graph, rng);
    GrowsOn(joined, g1, g2);
    GrowsOn(joined, g2, graph.neighbors);
    JoinedProper(c, ids, groups, joined, graph.neighbors);
    JoinedBackbone(c, ids, groups, joined);
    AllComplete(c, ids, groups, joined, g1, g2, graph.neighbors);
    return Mesh(graph.neighbors);
  }
}
