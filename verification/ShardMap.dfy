/** The shard map: its validation, its routing, and the configuration records built from it. */
module ShardMap {
  import opened Common

  datatype Pair = Pair(leader: string, follower: string)

  datatype ShardConfig = ShardConfig(id: int, startRow: int, endRow: int, active: Pair, standby: Option<Pair>)

  /** The first row of the table at a place. */
  function StartAt(i: int): (row: int)
    ensures row == 256 * i
  {
    i * TABLE_HEIGHT
  }

  // ---------- sorting ----------

  datatype Order = ByStart | ByID

  predicate Precedes(o: Order, a: ShardConfig, b: ShardConfig) {
    match o
    case ByStart => a.startRow < b.startRow || (a.startRow == b.startRow && a.id < b.id)
    case ByID => a.id < b.id
  }

  ghost predicate IsSorted(o: Order, s: seq<ShardConfig>) {
    forall i, j :: 0 <= i < j < |s| ==> !Precedes(o, s[j], s[i])
  }

  function Insert(o: Order, x: ShardConfig, s: seq<ShardConfig>): (r: seq<ShardConfig>)
    ensures multiset(r) == multiset(s) + multiset{x}
  {
    if s == [] || !Precedes(o, x, s[|s| - 1]) then s + [x] else
      assert s == s[..|s| - 1] + [s[|s| - 1]];
      Insert(o, x, s[..|s| - 1]) + [s[|s| - 1]]
  }

  lemma {:induction false} InsertSorts(o: Order, x: ShardConfig, s: seq<ShardConfig>)
    requires IsSorted(o, s)
    ensures IsSorted(o, Insert(o, x, s))
  {
    if s != [] && Precedes(o, x, s[|s| - 1]) {
      var rest := Insert(o, x, s[..|s| - 1]);
      InsertSorts(o, x, s[..|s| - 1]);
      forall i | 0 <= i < |rest| ensures !Precedes(o, s[|s| - 1], rest[i]) {
        assert rest[i] in multiset(rest);
        assert rest[i] == x || rest[i] in s[..|s| - 1];
      }
    }
  }

  function Sort(o: Order, s: seq<ShardConfig>): (r: seq<ShardConfig>)
    ensures multiset(r) == multiset(s)
  {
    if s == [] then [] else
      assert s == s[..|s| - 1] + [s[|s| - 1]];
      Insert(o, s[|s| - 1], Sort(o, s[..|s| - 1]))
  }

  lemma {:induction false} SortSorts(o: Order, s: seq<ShardConfig>)
    ensures IsSorted(o, Sort(o, s))
  {
    if s != [] {
      SortSorts(o, s[..|s| - 1]);
      InsertSorts(o, s[|s| - 1], Sort(o, s[..|s| - 1]));
    }
  }

  lemma SortLength(o: Order, s: seq<ShardConfig>)
    ensures |Sort(o, s)| == |s|
  {
    assert |multiset(s)| == |s| && |multiset(Sort(o, s))| == |Sort(o, s)|;
  }

  lemma SortPermutes(o: Order, s: seq<ShardConfig>)
    ensures |Sort(o, s)| == |s|
    ensures forall x :: x in Sort(o, s) <==> x in s
  {
    SortLength(o, s);
    forall x ensures x in Sort(o, s) <==> x in s {
      assert x in multiset(s) <==> x in s;
      assert x in multiset(Sort(o, s)) <==> x in Sort(o, s);
    }
  }

  // ---------- distinct keys under permutation ----------

  function IdOf(s: ShardConfig): int { s.id }
  function StartOf(s: ShardConfig): int { s.startRow }

  predicate DistinctBy(f: ShardConfig -> int, s: seq<ShardConfig>) {
    forall i, j :: 0 <= i < j < |s| ==> f(s[i]) != f(s[j])
  }

  function KeysOf(f: ShardConfig -> int, s: seq<ShardConfig>): set<int> { set x | x in s :: f(x) }

  lemma KeysSnoc(f: ShardConfig -> int, s: seq<ShardConfig>)
    requires s != []
    ensures KeysOf(f, s) == KeysOf(f, s[..|s| - 1]) + {f(s[|s| - 1])}
  {
    assert s == s[..|s| - 1] + [s[|s| - 1]];
  }

  lemma DistinctSnoc(f: ShardConfig -> int, s: seq<ShardConfig>)
    requires s != []
    ensures DistinctBy(f, s) <==> DistinctBy(f, s[..|s| - 1]) && f(s[|s| - 1]) !in KeysOf(f, s[..|s| - 1])
  {
    var n := |s| - 1;
    if f(s[n]) in KeysOf(f, s[..n]) {
      var x :| x in s[..n] && f(x) == f(s[n]);
      var i :| 0 <= i < n && s[..n][i] == x;
      assert f(s[i]) == f(s[n]);
    } else {
      forall i | 0 <= i < n ensures f(s[i]) != f(s[n]) {
        assert s[..n][i] == s[i] && s[i] in s[..n];
      }
    }
  }

  /** Keys are distinct exactly if there are as many of them as entries. */
  lemma {:induction false} DistinctKeys(f: ShardConfig -> int, s: seq<ShardConfig>)
    ensures DistinctBy(f, s) <==> |KeysOf(f, s)| == |s|
  {
    if s == [] {
      assert KeysOf(f, s) == {};
    } else {
      DistinctKeys(f, s[..|s| - 1]);
      KeysBounded(f, s[..|s| - 1]);
      KeysSnoc(f, s);
      DistinctSnoc(f, s);
    }
  }

  lemma {:induction false} KeysBounded(f: ShardConfig -> int, s: seq<ShardConfig>)
    ensures |KeysOf(f, s)| <= |s|
  {
    if s == [] {
      assert KeysOf(f, s) == {};
    } else {
      KeysBounded(f, s[..|s| - 1]);
      KeysSnoc(f, s);
    }
  }

  lemma DistinctUnderSort(f: ShardConfig -> int, o: Order, s: seq<ShardConfig>)
    ensures DistinctBy(f, Sort(o, s)) <==> DistinctBy(f, s)
  {
    SortPermutes(o, s);
    DistinctKeys(f, s);
    DistinctKeys(f, Sort(o, s));
    assert KeysOf(f, s) == KeysOf(f, Sort(o, s));
  }

  // ---------- validation ----------

  predicate Fits(s: ShardConfig) {
    s.endRow - s.startRow == TABLE_HEIGHT && s.active.leader != "" && s.active.follower != ""
  }

  /** A shard map is valid, in whatever order it is listed, if it cuts the rows from zero on into tables:
      distinct ids, complete shards, and distinct starts at the table boundaries below its height. */
  predicate ValidMap(shards: seq<ShardConfig>) {
    && shards != [] && DistinctBy(IdOf, shards) && DistinctBy(StartOf, shards)
    && forall s :: s in shards ==> Fits(s) && s.startRow % TABLE_HEIGHT == 0 && 0 <= s.startRow < StartAt(|shards|)
  }

  ghost predicate InOrder(sorted: seq<ShardConfig>) {
    forall i :: 0 <= i < |sorted| ==> Fits(sorted[i]) && sorted[i].startRow == StartAt(i)
  }

  lemma MultipleAbove(a: int, b: int)
    requires a % TABLE_HEIGHT == 0 && b % TABLE_HEIGHT == 0 && a < b
    ensures a + TABLE_HEIGHT <= b
  {
  }

  lemma {:induction false} StartsFromBelow(sorted: seq<ShardConfig>, i: nat)
    requires i < |sorted| && IsSorted(ByStart, sorted) && DistinctBy(StartOf, sorted)
    requires forall s :: s in sorted ==> s.startRow % TABLE_HEIGHT == 0 && 0 <= s.startRow
    ensures sorted[i].startRow >= StartAt(i)
  {
    if i > 0 {
      StartsFromBelow(sorted, i - 1);
      assert sorted[i - 1] in sorted && sorted[i] in sorted;
      assert StartOf(sorted[i - 1]) != StartOf(sorted[i]) && !Precedes(ByStart, sorted[i], sorted[i - 1]);
      MultipleAbove(sorted[i - 1].startRow, sorted[i].startRow);
    }
  }

  lemma {:induction false} StartsFromAbove(sorted: seq<ShardConfig>, i: nat)
    requires i < |sorted| && IsSorted(ByStart, sorted) && DistinctBy(StartOf, sorted)
    requires forall s :: s in sorted ==> s.startRow % TABLE_HEIGHT == 0 && s.startRow < StartAt(|sorted|)
    ensures sorted[i].startRow <= StartAt(i)
    decreases |sorted| - i
  {
    if i < |sorted| - 1 {
      StartsFromAbove(sorted, i + 1);
      assert sorted[i + 1] in sorted && sorted[i] in sorted;
      assert StartOf(sorted[i]) != StartOf(sorted[i + 1]) && !Precedes(ByStart, sorted[i + 1], sorted[i]);
      MultipleAbove(sorted[i].startRow, sorted[i + 1].startRow);
    } else {
      assert sorted[i] in sorted;
      MultipleAbove(sorted[i].startRow, StartAt(|sorted|));
    }
  }

  lemma ValidMapIsInOrder(shards: seq<ShardConfig>)
    requires ValidMap(shards)
    ensures InOrder(Sort(ByStart, shards))
  {
    var sorted := Sort(ByStart, shards);
    SortPermutes(ByStart, shards);
    SortSorts(ByStart, shards);
    DistinctUnderSort(StartOf, ByStart, shards);
    forall i | 0 <= i < |sorted| ensures Fits(sorted[i]) && sorted[i].startRow == StartAt(i) {
      assert sorted[i] in shards;
      StartsFromBelow(sorted, i);
      StartsFromAbove(sorted, i);
    }
  }

  lemma InOrderAt(sorted: seq<ShardConfig>, s: ShardConfig)
    requires InOrder(sorted) && s in sorted
    ensures Fits(s) && s.startRow % TABLE_HEIGHT == 0 && 0 <= s.startRow < StartAt(|sorted|)
  {
    var i :| 0 <= i < |sorted| && sorted[i] == s;
  }

  lemma InOrderIsDistinct(sorted: seq<ShardConfig>)
    requires InOrder(sorted)
    ensures DistinctBy(StartOf, sorted)
  {
    forall i, j | 0 <= i < j < |sorted| ensures StartOf(sorted[i]) != StartOf(sorted[j]) {
    }
  }

  lemma InOrderIsValidMap(shards: seq<ShardConfig>)
    requires shards != [] && DistinctBy(IdOf, Sort(ByStart, shards)) && InOrder(Sort(ByStart, shards))
    ensures ValidMap(shards)
  {
    var sorted := Sort(ByStart, shards);
    SortPermutes(ByStart, shards);
    DistinctUnderSort(IdOf, ByStart, shards);
    InOrderIsDistinct(sorted);
    DistinctUnderSort(StartOf, ByStart, shards);
    forall s | s in shards ensures Fits(s) && s.startRow % TABLE_HEIGHT == 0 && 0 <= s.startRow < StartAt(|shards|) {
      InOrderAt(sorted, s);
    }
  }

  /** A map is valid exactly if, sorted by its starts, it lists the tables one after the other. */
  lemma ValidMapIff(shards: seq<ShardConfig>)
    ensures var sorted := Sort(ByStart, shards);
            ValidMap(shards) <==> shards != [] && DistinctBy(IdOf, sorted) && InOrder(sorted)
  {
    if ValidMap(shards) {
      ValidMapIsInOrder(shards);
      DistinctUnderSort(IdOf, ByStart, shards);
    }
    if shards != [] && DistinctBy(IdOf, Sort(ByStart, shards)) && InOrder(Sort(ByStart, shards)) {
      InOrderIsValidMap(shards);
    }
  }

  /** The loop over the sorted copy: one pass over ids, ranges, addresses and starts. */
  method CheckSorted(sorted: seq<ShardConfig>) returns (ok: bool)
    ensures ok <==> DistinctBy(IdOf, sorted) && InOrder(sorted)
  {
    var expectedStart := 0;
    var seenIDs: set<int> := {};
    for i := 0 to |sorted|
      invariant expectedStart == StartAt(i)
      invariant forall k :: 0 <= k < i ==> Fits(sorted[k]) && sorted[k].startRow == StartAt(k)
      invariant forall j, k :: 0 <= j < k < i ==> IdOf(sorted[j]) != IdOf(sorted[k])
      invariant seenIDs == set k | 0 <= k < i :: sorted[k].id
    {
      var shard := sorted[i];
      if shard.id in seenIDs {
        ghost var k :| 0 <= k < i && sorted[k].id == shard.id;
        assert IdOf(sorted[k]) == IdOf(sorted[i]);
        return false;
      }
      seenIDs := seenIDs + {shard.id};
      if shard.startRow < 0 || shard.endRow - shard.startRow != TABLE_HEIGHT {
        return false;
      }
      if shard.active.leader == "" || shard.active.follower == "" {
        return false;
      }
      if shard.startRow != expectedStart {
        return false;
      }
      expectedStart := shard.endRow;
    }
    ok := expectedStart == StartAt(|sorted|);
  }

  /** Accepts exactly the valid maps, and returns them sorted by start row. */
  method ValidateShardMap(shards: seq<ShardConfig>) returns (res: Option<seq<ShardConfig>>)
    ensures res == if ValidMap(shards) then Some(Sort(ByStart, shards)) else None
  {
    ValidMapIff(shards);
    if |shards| == 0 {
      return None;
    }
    var sorted := Sort(ByStart, shards);
    var ok := CheckSorted(sorted);
    res := if ok then Some(sorted) else None;
  }

  // ---------- routing ----------

  predicate Covers(s: ShardConfig, row: int) { s.startRow <= row < s.endRow }

  /** The first listed shard that covers the row. */
  function Route(shards: seq<ShardConfig>, row: int): Option<ShardConfig> {
    if shards == [] then None
    else if Covers(shards[0], row) then Some(shards[0])
    else Route(shards[1..], row)
  }

  method RouteShard(shards: seq<ShardConfig>, row: int) returns (res: Option<ShardConfig>)
    ensures res == Route(shards, row)
  {
    for i := 0 to |shards|
      invariant Route(shards, row) == Route(shards[i..], row)
    {
      assert shards[i..][1..] == shards[i + 1..];
      if row >= shards[i].startRow && row < shards[i].endRow {
        return Some(shards[i]);
      }
    }
    res := None;
  }

  lemma {:induction false} RouteFinds(shards: seq<ShardConfig>, row: int)
    ensures Route(shards, row).None? <==> forall s :: s in shards ==> !Covers(s, row)
    ensures Route(shards, row).Some? ==> Route(shards, row).value in shards && Covers(Route(shards, row).value, row)
  {
    if shards != [] {
      RouteFinds(shards[1..], row);
      assert shards == [shards[0]] + shards[1..];
    }
  }

  /** Routing is a partition: a valid map, in any list order, sends every row below its height to exactly
      one shard, the one whose table holds it, and refuses every other row. */
  lemma RoutingIsAPartition(shards: seq<ShardConfig>, row: int)
    requires ValidMap(shards)
    ensures Route(shards, row).Some? <==> 0 <= row < StartAt(|shards|)
    ensures Route(shards, row).Some? ==>
              && Route(shards, row).value in shards
              && Route(shards, row).value.startRow == row - row % TABLE_HEIGHT
              && forall s :: s in shards && Covers(s, row) ==> s == Route(shards, row).value
  {
    var sorted := Sort(ByStart, shards);
    SortPermutes(ByStart, shards);
    ValidMapIff(shards);
    RouteFinds(shards, row);
    if 0 <= row < StartAt(|shards|) {
      var i := row / TABLE_HEIGHT;
      assert sorted[i] in shards && Covers(sorted[i], row);
    }
    forall s | s in shards && Covers(s, row)
      ensures 0 <= row < StartAt(|shards|) && s == sorted[row / TABLE_HEIGHT] && s.startRow == row - row % TABLE_HEIGHT
    {
      assert s in sorted;
      var i :| 0 <= i < |sorted| && sorted[i] == s;
      assert i == row / TABLE_HEIGHT;
    }
  }

  /** The row the coordinator sends to the shard is the row the client prepared its message for, and
      adding the shard's start gives the global row back. */
  lemma LocalRowsAgree(shards: seq<ShardConfig>, globalRow: int)
    requires ValidMap(shards) && Route(shards, globalRow).Some?
    ensures var local := globalRow - Route(shards, globalRow).value.startRow;
            local == globalRow % TABLE_HEIGHT && 0 <= local < TABLE_HEIGHT
            && Route(shards, globalRow).value.startRow + local == globalRow
  {
    RoutingIsAPartition(shards, globalRow);
  }
}
