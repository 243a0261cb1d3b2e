/** Dividing checkpoint files, tensors and sockets among ranks by ceiling division. */
module Sharding {
  import opened Prelude

  /** A slice with bounds clamped to the list, as list slicing does. */
  function Slice<T>(xs: seq<T>, lo: nat, hi: nat): seq<T>
    requires lo <= hi
  {
    xs[Min(lo, |xs|)..Min(hi, |xs|)]
  }

  function PerRank(n: nat, world: nat): (p: nat)
    requires world > 0
    ensures n <= p * world < n + world
  {
    var p := (n + world - 1) / world;
    CeilingBounds(n, world, p);
    p
  }

  lemma CeilingBounds(n: nat, world: nat, p: nat)
    requires world > 0 && p == (n + world - 1) / world
    ensures n <= p * world < n + world
  {
    assert n + world - 1 == world * p + (n + world - 1) % world;
  }

  /** What rank `rank` of `world` gets. */
  function Shard<T>(xs: seq<T>, rank: nat, world: nat): seq<T>
    requires rank < world
  {
    var p := PerRank(|xs|, world);
    MulMonotone(rank, rank + 1, p);
    Slice(xs, rank * p, (rank + 1) * p)
  }

  /** Rank `r` gets the elements from `r * p` on, `p` of them or what is left, `p` being the least number with which all
      ranks together get everything. */
  lemma ShardAt<T>(xs: seq<T>, rank: nat, world: nat, p: nat)
    requires rank < world && |xs| <= p * world < |xs| + world
    ensures |Shard(xs, rank, world)| == Max(0, Min(p, |xs| - rank * p))
    ensures forall j :: 0 <= j < |Shard(xs, rank, world)| ==>
      0 <= rank * p + j < |xs| && Shard(xs, rank, world)[j] == xs[rank * p + j]
  {
    hide PerRank;
    var q := PerRank(|xs|, world);
    if p < q { MulMonotone(p + 1, q, world); } else if p > q { MulMonotone(q + 1, p, world); }
    assert p == q;
    MulMonotone(rank, rank + 1, p);
    assert (rank + 1) * p == rank * p + p;
  }

  /** The first `k` chunks of `p` elements, one after another. */
  function Chunks<T>(xs: seq<T>, p: nat, k: nat): seq<T> {
    if k == 0 then [] else
    MulMonotone(k - 1, k, p);
    Chunks(xs, p, k - 1) + Slice(xs, (k - 1) * p, k * p)
  }

  /** Chunks in order are a prefix of the list, and all of it once there are enough. */
  lemma {:induction false} ChunksAreAPrefix<T>(xs: seq<T>, p: nat, k: nat)
    ensures k * p >= 0 && Chunks(xs, p, k) == xs[..Min(k * p, |xs|)]
  {
    if k > 0 {
      ChunksAreAPrefix(xs, p, k - 1);
      MulMonotone(k - 1, k, p);
      var a, b := Min((k - 1) * p, |xs|), Min(k * p, |xs|);
      assert xs[..a] + xs[a..b] == xs[..b];
    }
  }

  /** What the first `k` ranks get, in rank order. */
  function AllShards<T>(xs: seq<T>, world: nat, k: nat): seq<T>
    requires k <= world
  {
    if k == 0 then [] else AllShards(xs, world, k - 1) + Shard(xs, k - 1, world)
  }

  lemma {:induction false} ShardsAreChunks<T>(xs: seq<T>, world: nat, k: nat)
    requires 0 < world && k <= world
    ensures AllShards(xs, world, k) == Chunks(xs, PerRank(|xs|, world), k)
  {
    if k > 0 { ShardsAreChunks(xs, world, k - 1); }
  }

  /** The shards of all ranks, in rank order, are the whole list, for every length and every world size. */
  lemma ShardsPartition<T>(xs: seq<T>, world: nat)
    requires world > 0
    ensures AllShards(xs, world, world) == xs
  {
    var p := PerRank(|xs|, world);
    ShardsAreChunks(xs, world, world);
    ChunksAreAPrefix(xs, p, world);
    assert world * p == p * world;
    assert xs[..|xs|] == xs;
  }

  lemma PositiveFactor(p: nat, q: nat)
    requires p * q > 0
    ensures p > 0
  {}

  /** A position lies in one chunk only. */
  lemma OneChunk(a: nat, b: nat, p: nat, i: nat)
    requires a * p <= i < (a + 1) * p && b * p <= i < (b + 1) * p
    ensures a == b
  {
    if a < b { MulMonotone(a + 1, b, p); } else if a > b { MulMonotone(b + 1, a, p); }
  }

  lemma ChunkOf(i: nat, p: nat)
    requires p > 0
    ensures i / p * p <= i < (i / p + 1) * p
  {
    assert i == p * (i / p) + i % p;
  }

  /** Position `i` of the list lies in the shard of exactly one rank. */
  lemma OneRankPerItem<T>(xs: seq<T>, world: nat, i: nat) returns (rank: nat)
    requires world > 0 && i < |xs|
    ensures rank < world
    ensures var p := PerRank(|xs|, world); rank * p <= i < (rank + 1) * p
    ensures forall r: nat :: r < world && r * PerRank(|xs|, world) <= i < (r + 1) * PerRank(|xs|, world) ==> r == rank
  {
    hide PerRank;
    var p := PerRank(|xs|, world);
    PositiveFactor(p, world);
    rank := i / p;
    ChunkOf(i, p);
    assert world * p == p * world;
    if rank >= world {
      MulMonotone(world, rank, p);
      assert false;
    }
    forall r: nat | r < world && r * p <= i < (r + 1) * p ensures r == rank { OneChunk(r, rank, p, i); }
  }

  // ---- tensors, regrouped by file -------------------------------------------------------------

  datatype Entry = Entry(name: string, file: string)

  datatype Group = Group(file: string, names: seq<string>)

  /** The pairs of a grouping, group by group. */
  function Pairs(groups: seq<Group>): multiset<Entry> {
    if groups == [] then multiset{} else
    var last := groups[|groups| - 1];
    Pairs(groups[..|groups| - 1]) + Members(last.file, last.names)
  }

  function Members(file: string, names: seq<string>): multiset<Entry> {
    if names == [] then multiset{} else Members(file, names[..|names| - 1]) + multiset{Entry(names[|names| - 1], file)}
  }

  lemma MembersPush(file: string, names: seq<string>, name: string)
    ensures Members(file, names + [name]) == Members(file, names) + multiset{Entry(name, file)}
  {
    assert (names + [name])[..|names|] == names;
  }

  lemma {:induction false} PairsAt(groups: seq<Group>, k: nat, name: string)
    requires k < |groups|
    ensures Pairs(groups[k := Group(groups[k].file, groups[k].names + [name])])
         == Pairs(groups) + multiset{Entry(name, groups[k].file)}
  {
    hide Members;
    var n := |groups| - 1;
    var g := Group(groups[k].file, groups[k].names + [name]);
    var updated := groups[k := g];
    MembersPush(groups[k].file, groups[k].names, name);
    if k == n {
      assert updated[..n] == groups[..n];
    } else {
      PairsAt(groups[..n], k, name);
      assert updated[..n] == groups[..n][k := g];
    }
  }

  lemma PairsPush(groups: seq<Group>, file: string, name: string)
    ensures Pairs(groups + [Group(file, [name])]) == Pairs(groups) + multiset{Entry(name, file)}
  {
    assert (groups + [Group(file, [name])])[..|groups|] == groups;
    assert [name][..0] == [];
    assert Members(file, [name]) == Members(file, []) + multiset{Entry(name, file)};
  }

  ghost predicate DistinctFiles(groups: seq<Group>) {
    forall i, j :: 0 <= i < j < |groups| ==> groups[i].file != groups[j].file
  }

  /** Files one name under its file, at the end if the file is new. */
  method AddToGroup(groups: seq<Group>, e: Entry) returns (r: seq<Group>)
    requires DistinctFiles(groups)
    ensures DistinctFiles(r) && Pairs(r) == Pairs(groups) + multiset{e}
  {
    hide Pairs;
    var k := 0;
    while k < |groups| && groups[k].file != e.file
      invariant k <= |groups| && forall j :: 0 <= j < k ==> groups[j].file != e.file
    {
      k := k + 1;
    }
    if k < |groups| {
      PairsAt(groups, k, e.name);
      r := groups[k := Group(groups[k].file, groups[k].names + [e.name])];
    } else {
      PairsPush(groups, e.file, e.name);
      r := groups + [Group(e.file, [e.name])];
    }
  }

  /** The first loop: names collected under their file, files in order of first use. */
  method GroupByFile(entries: seq<Entry>) returns (groups: seq<Group>)
    ensures DistinctFiles(groups) && Pairs(groups) == multiset(entries)
  {
    groups := [];
    for i := 0 to |entries|
      invariant DistinctFiles(groups) && Pairs(groups) == multiset(entries[..i])
    {
      hide Pairs, DistinctFiles;
      assert entries[..i + 1] == entries[..i] + [entries[i]];
      groups := AddToGroup(groups, entries[i]);
    }
    assert entries[..|entries|] == entries;
  }

  lemma {:induction false} PairsHas(groups: seq<Group>, k: nat, j: nat)
    requires k < |groups| && j < |groups[k].names|
    ensures Entry(groups[k].names[j], groups[k].file) in Pairs(groups)
  {
    hide Members;
    var n := |groups| - 1;
    if k < n { PairsHas(groups[..n], k, j); } else { MembersHas(groups[n].file, groups[n].names, j); }
  }

  lemma {:induction false} MembersHas(file: string, names: seq<string>, j: nat)
    requires j < |names|
    ensures Entry(names[j], file) in Members(file, names)
  {
    if j < |names| - 1 { MembersHas(file, names[..|names| - 1], j); }
  }

  ghost predicate DistinctNames(entries: seq<Entry>) {
    forall i, j :: 0 <= i < j < |entries| ==> entries[i].name != entries[j].name
  }

  /** Loads the tensors of one rank: `loaded` maps each name to the file its tensor was read from. */
  method SplitTensors(weightMap: seq<Entry>, rank: nat, world: nat) returns (loaded: map<string, string>)
    requires rank < world && DistinctNames(weightMap)
    ensures forall e :: e in Shard(weightMap, rank, world) ==> e.name in loaded && loaded[e.name] == e.file
    ensures forall name :: name in loaded ==> Entry(name, loaded[name]) in Shard(weightMap, rank, world)
  {
    var mine := Shard(weightMap, rank, world);
    var groups := GroupByFile(mine);
    loaded := map[];
    for k := 0 to |groups|
      invariant forall name :: name in loaded ==> Entry(name, loaded[name]) in mine
      invariant forall g, j :: 0 <= g < k && 0 <= j < |groups[g].names| ==> groups[g].names[j] in loaded
    {
      for j := 0 to |groups[k].names|
        invariant forall name :: name in loaded ==> Entry(name, loaded[name]) in mine
        invariant forall g, j :: 0 <= g < k && 0 <= j < |groups[g].names| ==> groups[g].names[j] in loaded
        invariant forall i :: 0 <= i < j ==> groups[k].names[i] in loaded
      {
        PairsHas(groups, k, j);
        assert Entry(groups[k].names[j], groups[k].file) in multiset(mine);
        loaded := loaded[groups[k].names[j] := groups[k].file];
      }
    }
    forall e | e in mine ensures e.name in loaded && loaded[e.name] == e.file {
      assert e in Pairs(groups);
      var g, j := PairIsSomewhere(groups, e);
      assert Entry(e.name, loaded[e.name]) in mine;
      SameNameSameEntry(weightMap, rank, world, e, Entry(e.name, loaded[e.name]));
    }
  }

  lemma {:induction false} PairIsSomewhere(groups: seq<Group>, e: Entry) returns (g: nat, j: nat)
    requires e in Pairs(groups)
    ensures g < |groups| && j < |groups[g].names| && groups[g].names[j] == e.name && groups[g].file == e.file
  {
    var n := |groups| - 1;
    if e in Members(groups[n].file, groups[n].names) {
      g := n;
      j := MemberIsSomewhere(groups[n].file, groups[n].names, e);
    } else {
      g, j := PairIsSomewhere(groups[..n], e);
    }
  }

  lemma {:induction false} MemberIsSomewhere(file: string, names: seq<string>, e: Entry) returns (j: nat)
    requires e in Members(file, names)
    ensures j < |names| && names[j] == e.name && file == e.file
  {
    var n := |names| - 1;
    if e == Entry(names[n], file) { j := n; } else { j := MemberIsSomewhere(file, names[..n], e); }
  }

  lemma SameNameSameEntry(weightMap: seq<Entry>, rank: nat, world: nat, a: Entry, b: Entry)
    requires rank < world && DistinctNames(weightMap)
    requires a in Shard(weightMap, rank, world) && b in Shard(weightMap, rank, world)
    requires a.name == b.name
    ensures a == b
  {
    var i := ShardIndex(weightMap, rank, world, a);
    var j := ShardIndex(weightMap, rank, world, b);
  }

  lemma ShardIndex<T>(xs: seq<T>, rank: nat, world: nat, x: T) returns (i: nat)
    requires rank < world && x in Shard(xs, rank, world)
    ensures i < |xs| && xs[i] == x && rank * PerRank(|xs|, world) <= i < (rank + 1) * PerRank(|xs|, world)
  {
    var p := PerRank(|xs|, world);
    MulMonotone(rank, rank + 1, p);
    var s := Shard(xs, rank, world);
    var k :| 0 <= k < |s| && s[k] == x;
    i := Min(rank * p, |xs|) + k;
  }

  /** Every tensor is loaded by exactly one rank. */
  lemma TensorOnOneRank(weightMap: seq<Entry>, world: nat, i: nat) returns (rank: nat)
    requires world > 0 && DistinctNames(weightMap) && i < |weightMap|
    ensures rank < world && weightMap[i] in Shard(weightMap, rank, world)
    ensures forall r: nat, e ::
      r < world && e in Shard(weightMap, r, world) && e.name == weightMap[i].name ==> r == rank
  {
    rank := OneRankPerItem(weightMap, world, i);
    var p := PerRank(|weightMap|, world);
    var s := Shard(weightMap, rank, world);
    assert s[i - rank * p] == weightMap[i];
    forall r: nat, e | r < world && e in Shard(weightMap, r, world) && e.name == weightMap[i].name ensures r == rank {
      var j := ShardIndex(weightMap, r, world, e);
      assert j == i;
    }
  }

  // ---- leaders --------------------------------------------------------------------------------

  function LeaderOf(rank: nat, size: nat): (src: nat)
    requires size > 0
    ensures src <= rank < src + size
  {
    assert rank == size * (rank / size) + rank % size;
    rank / size * size
  }

  /** A leader's socket paths: those of its group, short at the end of the list. */
  function GroupPaths<T>(paths: seq<T>, leader: nat, size: nat): seq<T> { Slice(paths, leader, leader + size) }

  lemma NextMultiple(k: nat, size: nat)
    ensures (k + 1) * size == k * size + size
  {}

  lemma LeaderIsMultiple(rank: nat, size: nat)
    requires size > 0
    ensures LeaderOf(rank, size) == rank / size * size
  {}

  lemma Multiple(k: nat, size: nat)
    requires size > 0
    ensures LeaderOf(k * size, size) == k * size
  {
    LeaderIsMultiple(k * size, size);
    OneChunk(k * size / size, k, size, k * size);
  }

  /** Leaders lead themselves, every rank has exactly one leader, and the leader's slice holds that rank's path. */
  lemma OneLeader<T>(paths: seq<T>, rank: nat, size: nat)
    requires size > 0 && rank < |paths|
    ensures LeaderOf(LeaderOf(rank, size), size) == LeaderOf(rank, size)
    ensures paths[rank] in GroupPaths(paths, LeaderOf(rank, size), size)
    ensures forall l: nat :: l == LeaderOf(l, size) && l <= rank < l + size ==> l == LeaderOf(rank, size)
  {
    hide LeaderOf;
    var src := LeaderOf(rank, size);
    LeaderIsMultiple(rank, size);
    ChunkOf(rank, size);
    Multiple(rank / size, size);
    assert GroupPaths(paths, src, size)[rank - src] == paths[rank];
    forall l: nat | l == LeaderOf(l, size) && l <= rank < l + size ensures l == src {
      LeaderIsMultiple(l, size);
      NextMultiple(l / size, size);
      OneChunk(l / size, rank / size, size, rank);
    }
  }

  /** The socket paths of the first `k` leaders, in order. */
  function AllGroups<T>(paths: seq<T>, size: nat, k: nat): seq<T> {
    if k == 0 then [] else
    AllGroups(paths, size, k - 1) + (MulMonotone(0, k - 1, size); GroupPaths(paths, (k - 1) * size, size))
  }

  lemma {:induction false} GroupsAreChunks<T>(paths: seq<T>, size: nat, k: nat)
    ensures AllGroups(paths, size, k) == Chunks(paths, size, k)
  {
    if k > 0 {
      GroupsAreChunks(paths, size, k - 1);
      assert k * size == (k - 1) * size + size;
    }
  }

  /** The leaders' slices, in order, are all the paths, the last group short if need be. */
  lemma GroupsPartition<T>(paths: seq<T>, size: nat)
    requires size > 0
    ensures AllGroups(paths, size, (|paths| + size - 1) / size) == paths
  {
    var groups := (|paths| + size - 1) / size;
    CeilingBounds(|paths|, size, groups);
    GroupsAreChunks(paths, size, groups);
    ChunksAreAPrefix(paths, size, groups);
    assert paths[..|paths|] == paths;
  }
}
