/** Shard configuration records: promotion of a standby pair, scaling to a number of shards, and the check
    against the configured inventory that a restarting coordinator makes. */
module ShardConfigs {
  import opened Common
  import opened ShardMap

  datatype Key = Current | OfEpoch(epochID: int)

  datatype Config = Config(key: Key, version: int, shardCount: int, rowsPerShard: int, globalTableHeight: int, shards: seq<ShardConfig>)

  predicate ValidConfig(c: Config) {
    && c.version > 0
    && c.shardCount == |c.shards|
    && c.rowsPerShard == TABLE_HEIGHT
    && c.globalTableHeight == c.shardCount * c.rowsPerShard
    && ValidMap(c.shards)
  }

  function ConfigOf(shards: seq<ShardConfig>, version: int): Config {
    Config(Current, version, |shards|, TABLE_HEIGHT, StartAt(|shards|), shards)
  }

  /** The same ids and row ranges at the same places. */
  predicate SameTopology(a: seq<ShardConfig>, b: seq<ShardConfig>) {
    |a| == |b| && forall i :: 0 <= i < |a| ==> a[i].id == b[i].id && a[i].startRow == b[i].startRow && a[i].endRow == b[i].endRow
  }

  // ---------- promotion ----------

  function Swapped(s: ShardConfig): ShardConfig
    requires s.standby.Some?
  {
    s.(active := s.standby.value, standby := Some(s.active))
  }

  /** The configuration with one shard's standby pair promoted, if it has a usable one. */
  function Promoted(c: Config, index: nat): Option<Config>
    requires index < |c.shards|
  {
    if c.shards[index].standby.None? then None else
      var proposed := c.(version := c.version + 1, shards := c.shards[index := Swapped(c.shards[index])]);
      if ValidConfig(proposed) then Some(proposed) else None
  }

  predicate Usable(p: Pair) { p.leader != "" && p.follower != "" }

  lemma SwapKeepsMap(shards: seq<ShardConfig>, index: nat)
    requires ValidMap(shards) && index < |shards| && shards[index].standby.Some?
    ensures ValidMap(shards[index := Swapped(shards[index])]) <==> Usable(shards[index].standby.value)
  {
    var after := shards[index := Swapped(shards[index])];
    assert after[index] in after;
    forall i, j | 0 <= i < j < |after| ensures IdOf(after[i]) != IdOf(after[j]) && StartOf(after[i]) != StartOf(after[j]) {
      assert IdOf(shards[i]) != IdOf(shards[j]) && StartOf(shards[i]) != StartOf(shards[j]);
    }
    if Usable(shards[index].standby.value) {
      forall s | s in after ensures Fits(s) && s.startRow % TABLE_HEIGHT == 0 && 0 <= s.startRow < StartAt(|after|) {
        var i :| 0 <= i < |after| && after[i] == s;
        assert shards[i] in shards;
      }
    }
  }

  /** A valid configuration accepts the promotion of exactly the shards with a complete standby pair. */
  lemma PromotedIff(c: Config, index: nat)
    requires ValidConfig(c) && index < |c.shards|
    ensures Promoted(c, index).Some? <==> c.shards[index].standby.Some? && Usable(c.shards[index].standby.value)
    ensures Promoted(c, index).Some? ==>
              SameTopology(Promoted(c, index).value.shards, c.shards) && Promoted(c, index).value.version == c.version + 1
  {
    if c.shards[index].standby.Some? {
      SwapKeepsMap(c.shards, index);
    }
  }

  /** What an accepted promotion changes, field by field: the shard's old standby pair becomes its active pair and the
      old active pair its standby, leader for leader and follower for follower; the version rises by one; nothing else
      changes, in this shard or in any other. */
  lemma PromotionByField(c: Config, index: nat)
    requires ValidConfig(c) && index < |c.shards|
    ensures Promoted(c, index).Some? <==>
            c.shards[index].standby.Some? && c.shards[index].standby.value.leader != "" && c.shards[index].standby.value.follower != ""
    ensures Promoted(c, index).Some? ==>
              var p, before, after := Promoted(c, index).value, c.shards[index], Promoted(c, index).value.shards[index];
              && |p.shards| == |c.shards| && (forall i :: 0 <= i < |c.shards| && i != index ==> p.shards[i] == c.shards[i])
              && after.active.leader == before.standby.value.leader && after.active.follower == before.standby.value.follower
              && after.standby.Some?
              && after.standby.value.leader == before.active.leader && after.standby.value.follower == before.active.follower
              && after.id == before.id && after.startRow == before.startRow && after.endRow == before.endRow
              && p.version == c.version + 1 && p.key == c.key && p.shardCount == c.shardCount
              && p.rowsPerShard == c.rowsPerShard && p.globalTableHeight == c.globalTableHeight
  {
    PromotedIff(c, index);
  }

  /** Promoting the same shard again gives the old shards back, two versions later. */
  lemma PromotionUndoesItself(c: Config, index: nat)
    requires ValidConfig(c) && index < |c.shards| && Promoted(c, index).Some?
    ensures Promoted(Promoted(c, index).value, index) == Some(c.(version := c.version + 2))
  {
    var once := Promoted(c, index).value;
    assert Fits(c.shards[index]) by { assert c.shards[index] in c.shards; }
    PromotedIff(once, index);
    assert once.shards[index := Swapped(once.shards[index])] == c.shards;
  }

  lemma {:induction false} TopologyRoutes(a: seq<ShardConfig>, b: seq<ShardConfig>, row: int)
    requires SameTopology(a, b)
    ensures Route(a, row).Some? <==> Route(b, row).Some?
    ensures Route(a, row).Some? ==> Route(a, row).value.id == Route(b, row).value.id
                                    && Route(a, row).value.startRow == Route(b, row).value.startRow
  {
    if a != [] && !Covers(a[0], row) {
      assert forall i :: 0 <= i < |a| - 1 ==> a[1..][i] == a[i + 1] && b[1..][i] == b[i + 1];
      TopologyRoutes(a[1..], b[1..], row);
    }
  }

  /** Promotion sends every row to the shard it went to before. */
  lemma PromotionKeepsRouting(c: Config, index: nat, row: int)
    requires ValidConfig(c) && index < |c.shards| && Promoted(c, index).Some?
    ensures var before, after := Route(c.shards, row), Route(Promoted(c, index).value.shards, row);
            && (before.Some? <==> after.Some?)
            && (before.Some? ==> before.value.id == after.value.id && before.value.startRow == after.value.startRow)
  {
    TopologyRoutes(c.shards, Promoted(c, index).value.shards, row);
  }

  // ---------- scaling ----------

  /** The first shards by id, with the rows of their places. */
  function Replaced(inventory: seq<ShardConfig>, count: nat): (shards: seq<ShardConfig>)
    requires count <= |inventory|
    ensures |shards| == count
  {
    SortLength(ByID, inventory);
    seq(count, i requires 0 <= i < count =>
      Sort(ByID, inventory)[i].(startRow := StartAt(i), endRow := StartAt(i + 1)))
  }

  function Build(inventory: seq<ShardConfig>, count: int, version: int): Option<Config> {
    if count <= 0 || count > |inventory| then None else
      var shards := Replaced(inventory, count);
      if ValidMap(shards) then Some(ConfigOf(Sort(ByStart, shards), version)) else None
  }

  method BuildShardConfigFromInventory(inventory: seq<ShardConfig>, shardCount: int, version: int) returns (res: Option<Config>)
    ensures res == Build(inventory, shardCount, version)
  {
    if shardCount <= 0 {
      return None;
    }
    if shardCount > |inventory| {
      return None;
    }
    var sorted := Sort(ByID, inventory);
    SortLength(ByID, inventory);
    var shards := [];
    ghost var all := Replaced(inventory, shardCount);
    for i := 0 to shardCount
      invariant shards == all[..i]
    {
      var shard := sorted[i];
      shard := shard.(startRow := StartAt(i), endRow := StartAt(i + 1));
      shards := shards + [shard];
    }
    assert all[..shardCount] == all;
    var validated := ValidateShardMap(shards);
    res := if validated.Some? then Some(ConfigOf(validated.value, version)) else None;
  }

  lemma SortSnoc(o: Order, s: seq<ShardConfig>, x: ShardConfig)
    requires Sort(o, s) == s && (s != [] ==> !Precedes(o, x, s[|s| - 1]))
    ensures Sort(o, s + [x]) == s + [x]
  {
    assert (s + [x])[..|s|] == s;
  }

  lemma InOrderPrefix(s: seq<ShardConfig>)
    requires InOrder(s) && s != []
    ensures InOrder(s[..|s| - 1])
    ensures |s| > 1 ==> !Precedes(ByStart, s[|s| - 1], s[..|s| - 1][|s| - 2])
  {
  }

  lemma {:induction false} SortOfInOrder(s: seq<ShardConfig>)
    requires InOrder(s)
    ensures Sort(ByStart, s) == s
  {
    if s != [] {
      var before, last := s[..|s| - 1], s[|s| - 1];
      InOrderPrefix(s);
      SortOfInOrder(before);
      assert s == before + [last];
      SortSnoc(ByStart, before, last);
    }
  }

  /** From a valid inventory, any number of shards that it has can be built, in place order. */
  lemma BuildSucceedsIff(inventory: seq<ShardConfig>, count: int, version: int)
    requires ValidMap(inventory)
    ensures Build(inventory, count, version).Some? <==> 0 < count <= |inventory|
    ensures 0 < count <= |inventory| ==>
              Build(inventory, count, version) == Some(ConfigOf(Replaced(inventory, count), version))
  {
    if 0 < count <= |inventory| {
      var shards, byID := Replaced(inventory, count), Sort(ByID, inventory);
      SortPermutes(ByID, inventory);
      DistinctUnderSort(IdOf, ByID, inventory);
      forall i | 0 <= i < count ensures Fits(shards[i]) {
        assert byID[i] in inventory;
      }
      assert InOrder(shards);
      SortOfInOrder(shards);
      forall i, j | 0 <= i < j < count ensures IdOf(shards[i]) != IdOf(shards[j]) {
        assert IdOf(byID[i]) != IdOf(byID[j]);
      }
      InOrderIsValidMap(shards);
    }
  }

  /** A configured shard that has an inventory shard's id and pairs, whatever its rows. */
  ghost predicate SamePairs(a: ShardConfig, s: ShardConfig) { a.id == s.id && a.active == s.active && a.standby == s.standby }

  /** The configuration takes the inventory's shard. */
  ghost predicate Takes(c: Config, a: ShardConfig) { exists i :: 0 <= i < |c.shards| && SamePairs(a, c.shards[i]) }

  lemma ByIDRises(inventory: seq<ShardConfig>)
    requires ValidMap(inventory)
    ensures var byID := Sort(ByID, inventory);
            && |byID| == |inventory| && (forall a :: a in byID <==> a in inventory)
            && forall i, j :: 0 <= i < j < |byID| ==> byID[i].id < byID[j].id
  {
    var byID := Sort(ByID, inventory);
    SortPermutes(ByID, inventory);
    SortSorts(ByID, inventory);
    DistinctUnderSort(IdOf, ByID, inventory);
    forall i, j | 0 <= i < j < |byID| ensures byID[i].id < byID[j].id {
      assert IdOf(byID[i]) != IdOf(byID[j]) && !Precedes(ByID, byID[j], byID[i]);
    }
  }

  lemma PrefixTakes(inventory: seq<ShardConfig>, byID: seq<ShardConfig>, c: Config, a: ShardConfig)
    requires c.shards != [] && |c.shards| <= |byID| && (forall x :: x in byID <==> x in inventory)
    requires forall i, j :: 0 <= i < j < |byID| ==> byID[i].id < byID[j].id
    requires forall i :: 0 <= i < |c.shards| ==> SamePairs(byID[i], c.shards[i])
    requires a in inventory
    ensures Takes(c, a) <==> a.id <= c.shards[|c.shards| - 1].id
  {
    var i :| 0 <= i < |byID| && byID[i] == a;
    if i < |c.shards| {
      assert SamePairs(a, c.shards[i]);
    }
  }

  /** What is built: the current configuration, with as many shards as asked for, under the given version. */
  lemma BuiltByField(inventory: seq<ShardConfig>, count: int, version: int)
    requires ValidMap(inventory) && 0 < count <= |inventory|
    ensures Build(inventory, count, version).Some?
    ensures var c := Build(inventory, count, version).value;
            && c.key == Current && c.version == version && c.shardCount == count == |c.shards|
            && c.rowsPerShard == 256 && c.globalTableHeight == 256 * count
  {
    BuildSucceedsIff(inventory, count, version);
  }

  lemma ReplacedAt(inventory: seq<ShardConfig>, count: nat, i: nat)
    requires i < count <= |inventory| == |Sort(ByID, inventory)|
    ensures var s := Replaced(inventory, count)[i];
            s.startRow == 256 * i && s.endRow == 256 * i + 256 && SamePairs(Sort(ByID, inventory)[i], s)
  {
  }

  ghost predicate HasPairs(inventory: seq<ShardConfig>, s: ShardConfig) { exists a :: a in inventory && SamePairs(a, s) }

  lemma PrefixIsOrdered(inventory: seq<ShardConfig>, byID: seq<ShardConfig>, c: Config)
    requires |c.shards| <= |byID| && (forall x :: x in byID <==> x in inventory)
    requires forall i, j :: 0 <= i < j < |byID| ==> byID[i].id < byID[j].id
    requires forall i :: 0 <= i < |c.shards| ==> SamePairs(byID[i], c.shards[i])
    ensures forall i, j :: 0 <= i < j < |c.shards| ==> c.shards[i].id < c.shards[j].id
    ensures forall i :: 0 <= i < |c.shards| ==> HasPairs(inventory, c.shards[i])
  {
    forall i, j | 0 <= i < j < |c.shards| ensures c.shards[i].id < c.shards[j].id {
      assert SamePairs(byID[i], c.shards[i]) && SamePairs(byID[j], c.shards[j]);
    }
    forall i | 0 <= i < |c.shards| ensures HasPairs(inventory, c.shards[i]) {
      assert byID[i] in byID && SamePairs(byID[i], c.shards[i]);
    }
  }

  ghost predicate TakesSmallest(inventory: seq<ShardConfig>, c: Config) {
    && (forall i, j :: 0 <= i < j < |c.shards| ==> c.shards[i].id < c.shards[j].id)
    && (forall i :: 0 <= i < |c.shards| ==> HasPairs(inventory, c.shards[i]))
    && (c.shards != [] ==> forall a :: a in inventory ==> (Takes(c, a) <==> a.id <= c.shards[|c.shards| - 1].id))
  }

  lemma PrefixTakesSmallest(inventory: seq<ShardConfig>, byID: seq<ShardConfig>, c: Config)
    requires c.shards != [] && |c.shards| <= |byID| && (forall x :: x in byID <==> x in inventory)
    requires forall i, j :: 0 <= i < j < |byID| ==> byID[i].id < byID[j].id
    requires forall i :: 0 <= i < |c.shards| ==> SamePairs(byID[i], c.shards[i])
    ensures TakesSmallest(inventory, c)
  {
    PrefixIsOrdered(inventory, byID, c);
    forall a | a in inventory ensures Takes(c, a) <==> a.id <= c.shards[|c.shards| - 1].id {
      PrefixTakes(inventory, byID, c, a);
    }
  }

  lemma ReplacedTakesSmallest(inventory: seq<ShardConfig>, count: nat, version: int)
    requires ValidMap(inventory) && 0 < count <= |inventory| == |Sort(ByID, inventory)|
    ensures TakesSmallest(inventory, ConfigOf(Replaced(inventory, count), version))
  {
    ByIDRises(inventory);
    forall i | 0 <= i < count ensures SamePairs(Sort(ByID, inventory)[i], Replaced(inventory, count)[i]) {
      ReplacedAt(inventory, count, i);
    }
    PrefixTakesSmallest(inventory, Sort(ByID, inventory), ConfigOf(Replaced(inventory, count), version));
  }

  /** Which shards, and where: every shard has the rows of its place; they come in the order of their ids, each with an
      inventory shard's own pairs; and they are exactly the inventory's shards with the smallest ids. */
  lemma BuiltTakesSmallest(inventory: seq<ShardConfig>, count: int, version: int)
    requires ValidMap(inventory) && 0 < count <= |inventory|
    ensures Build(inventory, count, version).Some? && |Build(inventory, count, version).value.shards| == count
    ensures forall i :: 0 <= i < count ==>
              var s := Build(inventory, count, version).value.shards[i]; s.startRow == 256 * i && s.endRow == 256 * i + 256
    ensures TakesSmallest(inventory, Build(inventory, count, version).value)
  {
    BuildSucceedsIff(inventory, count, version);
    SortLength(ByID, inventory);
    forall i | 0 <= i < count
      ensures Replaced(inventory, count)[i].startRow == 256 * i && Replaced(inventory, count)[i].endRow == 256 * i + 256
    {
      ReplacedAt(inventory, count, i);
    }
    ReplacedTakesSmallest(inventory, count, version);
  }

  // ---------- the inventory check ----------

  /** The inventory entry with this id; the last one listed wins. */
  function Lookup(inventory: seq<ShardConfig>, id: int): Option<ShardConfig> {
    if inventory == [] then None
    else if inventory[|inventory| - 1].id == id then Some(inventory[|inventory| - 1])
    else Lookup(inventory[..|inventory| - 1], id)
  }

  predicate Matches(available: ShardConfig, s: ShardConfig) {
    available == s || (available.standby.Some? && s == Swapped(available))
  }

  /** Every configured shard is the inventory's, as listed or with its pairs swapped. */
  predicate Contains(inventory: seq<ShardConfig>, c: Config) {
    && ValidConfig(c)
    && forall i :: 0 <= i < |c.shards| ==>
         Lookup(inventory, c.shards[i].id).Some? && Matches(Lookup(inventory, c.shards[i].id).value, c.shards[i])
  }

  method ValidateShardInventoryContainsConfig(inventory: seq<ShardConfig>, c: Config) returns (ok: bool)
    ensures ok <==> Contains(inventory, c)
  {
    if !ValidConfig(c) {
      return false;
    }
    var byID: map<int, ShardConfig> := map[];
    for i := 0 to |inventory|
      invariant forall id :: id in byID <==> Lookup(inventory[..i], id).Some?
      invariant forall id :: id in byID ==> Lookup(inventory[..i], id) == Some(byID[id])
    {
      assert inventory[..i + 1][..i] == inventory[..i];
      byID := byID[inventory[i].id := inventory[i]];
    }
    assert inventory[..|inventory|] == inventory;
    for i := 0 to |c.shards|
      invariant forall k :: 0 <= k < i ==>
                  Lookup(inventory, c.shards[k].id).Some? && Matches(Lookup(inventory, c.shards[k].id).value, c.shards[k])
    {
      if c.shards[i].id !in byID || !Matches(byID[c.shards[i].id], c.shards[i]) {
        return false;
      }
    }
    ok := true;
  }

  lemma {:induction false} LookupFinds(inventory: seq<ShardConfig>, s: ShardConfig)
    requires DistinctBy(IdOf, inventory) && s in inventory
    ensures Lookup(inventory, s.id) == Some(s)
  {
    var n := |inventory| - 1;
    var i :| 0 <= i < |inventory| && inventory[i] == s;
    if i < n {
      assert IdOf(inventory[i]) != IdOf(inventory[n]);
      assert s in inventory[..n] by { assert inventory[..n][i] == s; }
      LookupFinds(inventory[..n], s);
    }
  }

  /** The same shard with the same pairs, or with active and standby exchanged. */
  ghost predicate SameOrExchanged(a: ShardConfig, s: ShardConfig) {
    && a.id == s.id && a.startRow == s.startRow && a.endRow == s.endRow
    && ((a.active == s.active && a.standby == s.standby)
        || (a.standby.Some? && s.standby.Some?
            && a.active.leader == s.standby.value.leader && a.active.follower == s.standby.value.follower
            && a.standby.value.leader == s.active.leader && a.standby.value.follower == s.active.follower))
  }

  ghost predicate Listed(inventory: seq<ShardConfig>, s: ShardConfig) { exists a :: a in inventory && SameOrExchanged(a, s) }

  /** A configuration passes the check of a valid inventory exactly if it is valid and each of its shards is one of
      the inventory's, with the pairs as listed or exchanged. */
  lemma ContainedIff(inventory: seq<ShardConfig>, c: Config)
    requires ValidMap(inventory)
    ensures Contains(inventory, c) <==> ValidConfig(c) && forall i :: 0 <= i < |c.shards| ==> Listed(inventory, c.shards[i])
  {
    forall i | 0 <= i < |c.shards| ensures Available(inventory, c.shards[i]) <==> Listed(inventory, c.shards[i]) {
      LookupMatchesIff(inventory, c.shards[i]);
    }
    if ValidConfig(c) && forall i :: 0 <= i < |c.shards| ==> Listed(inventory, c.shards[i]) {
      forall i | 0 <= i < |c.shards| ensures Available(inventory, c.shards[i]) {
        assert Listed(inventory, c.shards[i]);
      }
    }
    if Contains(inventory, c) {
      forall i | 0 <= i < |c.shards| ensures Listed(inventory, c.shards[i]) {
        assert Available(inventory, c.shards[i]);
      }
    }
  }

  predicate Available(inventory: seq<ShardConfig>, s: ShardConfig) {
    Lookup(inventory, s.id).Some? && Matches(Lookup(inventory, s.id).value, s)
  }

  lemma {:induction false} LookupIsListed(inventory: seq<ShardConfig>, id: int)
    ensures Lookup(inventory, id).Some? ==> Lookup(inventory, id).value in inventory && Lookup(inventory, id).value.id == id
  {
    if inventory != [] && inventory[|inventory| - 1].id != id {
      LookupIsListed(inventory[..|inventory| - 1], id);
    }
  }

  lemma LookupMatchesIff(inventory: seq<ShardConfig>, s: ShardConfig)
    requires ValidMap(inventory)
    ensures Available(inventory, s) <==> Listed(inventory, s)
  {
    LookupIsListed(inventory, s.id);
    if a :| a in inventory && SameOrExchanged(a, s) {
      LookupFinds(inventory, a);
    }
    if Available(inventory, s) {
      assert SameOrExchanged(Lookup(inventory, s.id).value, s);
    }
  }

  /** Promotion keeps a configuration within its inventory. */
  lemma PromotionStaysContained(inventory: seq<ShardConfig>, c: Config, index: nat)
    requires Contains(inventory, c) && index < |c.shards| && Promoted(c, index).Some?
    ensures Contains(inventory, Promoted(c, index).value)
  {
    var available := Lookup(inventory, c.shards[index].id).value;
    assert Matches(available, c.shards[index]);
    assert Matches(available, Swapped(c.shards[index]));
  }

  lemma ReplacedMatches(inventory: seq<ShardConfig>, count: nat, i: nat)
    requires ValidMap(inventory) && i < count <= |inventory| == |Sort(ByID, inventory)|
    ensures Lookup(inventory, Replaced(inventory, count)[i].id).Some?
    ensures Matches(Lookup(inventory, Replaced(inventory, count)[i].id).value, Replaced(inventory, count)[i]) <==>
            Sort(ByID, inventory)[i].startRow == StartAt(i)
  {
    SortPermutes(ByID, inventory);
    assert Sort(ByID, inventory)[i] in inventory;
    LookupFinds(inventory, Sort(ByID, inventory)[i]);
  }

  lemma ReplacedContainedIff(inventory: seq<ShardConfig>, c: Config)
    requires ValidMap(inventory) && ValidConfig(c) && |c.shards| <= |inventory| == |Sort(ByID, inventory)|
    requires c.shards == Replaced(inventory, |c.shards|)
    ensures Contains(inventory, c) <==> forall i :: 0 <= i < |c.shards| ==> Sort(ByID, inventory)[i].startRow == StartAt(i)
  {
    forall i | 0 <= i < |c.shards|
      ensures Lookup(inventory, c.shards[i].id).Some?
      ensures Matches(Lookup(inventory, c.shards[i].id).value, c.shards[i]) <==> Sort(ByID, inventory)[i].startRow == StartAt(i)
    {
      ReplacedMatches(inventory, |c.shards|, i);
    }
  }

  /** A scaled configuration passes the check exactly if the shards it takes by id sit at the rows of
      their places in the inventory. */
  lemma ScalingContainedIff(inventory: seq<ShardConfig>, count: int, version: int)
    requires ValidMap(inventory) && 0 < count <= |inventory| && version > 0
    ensures Build(inventory, count, version).Some? && |Sort(ByID, inventory)| == |inventory|
    ensures Contains(inventory, Build(inventory, count, version).value) <==>
            forall i :: 0 <= i < count ==> Sort(ByID, inventory)[i].startRow == StartAt(i)
  {
    BuildSucceedsIff(inventory, count, version);
    SortLength(ByID, inventory);
    BuiltIsValid(inventory, count, version);
    ReplacedContainedIff(inventory, Build(inventory, count, version).value);
  }

  lemma BuiltIsValid(inventory: seq<ShardConfig>, count: int, version: int)
    requires Build(inventory, count, version).Some? && version > 0
    ensures ValidConfig(Build(inventory, count, version).value)
  {
    var shards := Replaced(inventory, count);
    var sorted := Sort(ByStart, shards);
    SortPermutes(ByStart, shards);
    DistinctUnderSort(IdOf, ByStart, shards);
    DistinctUnderSort(StartOf, ByStart, shards);
  }

  /** Ids are ordered like rows. */
  predicate OrderedAlike(inventory: seq<ShardConfig>) {
    Sort(ByID, inventory) == Sort(ByStart, inventory)
  }

  lemma PlacingInOrder(sorted: seq<ShardConfig>, i: nat)
    requires InOrder(sorted) && i < |sorted|
    ensures sorted[i].(startRow := StartAt(i), endRow := StartAt(i + 1)) == sorted[i]
  {
    assert Fits(sorted[i]);
  }

  lemma ReplacedIsPrefix(inventory: seq<ShardConfig>, count: nat)
    requires ValidMap(inventory) && OrderedAlike(inventory) && count <= |inventory| == |Sort(ByStart, inventory)|
    ensures Replaced(inventory, count) == Sort(ByStart, inventory)[..count]
    ensures forall i :: 0 <= i < count ==> Sort(ByStart, inventory)[i].startRow == StartAt(i)
  {
    ValidMapIsInOrder(inventory);
    var sorted := Sort(ByStart, inventory);
    forall i | 0 <= i < count ensures Replaced(inventory, count)[i] == sorted[i] {
      PlacingInOrder(sorted, i);
    }
  }

  /** With ids ordered like rows, scaling takes a prefix of the sorted inventory, with the inventory's own
      active and standby pairs: promotions made before are forgotten. */
  lemma ScalingTakesAPrefix(inventory: seq<ShardConfig>, count: int, version: int)
    requires ValidMap(inventory) && OrderedAlike(inventory) && 0 < count <= |inventory|
    ensures |Sort(ByStart, inventory)| == |inventory|
    ensures Build(inventory, count, version) == Some(ConfigOf(Sort(ByStart, inventory)[..count], version))
    ensures version > 0 ==> Contains(inventory, Build(inventory, count, version).value)
  {
    BuildSucceedsIff(inventory, count, version);
    SortLength(ByStart, inventory);
    ReplacedIsPrefix(inventory, count);
    if version > 0 {
      ScalingContainedIff(inventory, count, version);
    }
  }

  /** Scaling undoes a promotion: from a promoted configuration, any number of shards that still includes
      the promoted one gives it its old active pair back. */
  lemma ScalingUndoesPromotion(inventory: seq<ShardConfig>, before: int, index: nat, after: int, version: int)
    requires ValidMap(inventory) && OrderedAlike(inventory) && version > 0
    requires index < before <= |inventory| && index < after <= |inventory|
    requires Build(inventory, before, version).Some? && index < |Build(inventory, before, version).value.shards|
    requires Promoted(Build(inventory, before, version).value, index).Some?
    ensures var promoted, scaled := Promoted(Build(inventory, before, version).value, index).value, Build(inventory, after, version + 2);
            && scaled.Some? && |scaled.value.shards| == after
            && scaled.value.shards[index] == Build(inventory, before, version).value.shards[index]
            && promoted.shards[index] == Swapped(scaled.value.shards[index])
  {
    ScalingTakesAPrefix(inventory, before, version);
    ScalingTakesAPrefix(inventory, after, version + 2);
  }

  // ---------- an inventory whose ids are not ordered like its rows ----------

  const PAIR: Pair := Pair("leader", "follower")

  /** Shard 1 first, then shard 0. */
  function Misordered(): seq<ShardConfig> {
    [ShardConfig(1, StartAt(0), StartAt(1), PAIR, None), ShardConfig(0, StartAt(1), StartAt(2), PAIR, None)]
  }

  lemma TwoSorted(a: ShardConfig, b: ShardConfig)
    requires b.id < a.id
    ensures Sort(ByID, [a, b]) == [b, a]
  {
    assert [a, b][..1] == [a] && [a][..0] == [];
    assert Sort(ByID, [a]) == Insert(ByID, a, []) == [a];
    assert Insert(ByID, b, [a]) == Insert(ByID, b, []) + [a] == [b, a];
  }

  lemma MisorderedIsSorted()
    ensures Sort(ByStart, Misordered()) == Misordered()
  {
    assert InOrder(Misordered());
    SortOfInOrder(Misordered());
  }

  lemma MisorderedIsValid()
    ensures ValidMap(Misordered())
  {
    var inventory := Misordered();
    assert StartAt(0) == 0 && StartAt(1) == 256 && StartAt(2) == 512;
    assert inventory[0].id != inventory[1].id;
    forall s | s in inventory ensures Fits(s) && s.startRow % TABLE_HEIGHT == 0 && 0 <= s.startRow < StartAt(2) {
      assert s == inventory[0] || s == inventory[1];
    }
  }

  /** It is a valid inventory, one shard can be built from it, and that configuration does not pass the
      inventory check. */
  lemma MisorderedFailsTheCheck()
    ensures ValidMap(Misordered()) && !OrderedAlike(Misordered())
    ensures Build(Misordered(), 1, 1).Some? && !Contains(Misordered(), Build(Misordered(), 1, 1).value)
  {
    var inventory := Misordered();
    MisorderedIsValid();
    MisorderedIsSorted();
    TwoSorted(inventory[0], inventory[1]);
    ScalingContainedIff(inventory, 1, 1);
    assert Sort(ByID, inventory)[0].startRow != StartAt(0);
  }
}
