/** Go maps filled from a flat key/value list or from several maps, where a
    later entry overwrites an earlier one. Shared by `paramsToMaps`
    (middleware/dritywordDB.go) and `ArrayToStringMap` / `MergeStringMap`
    (utils/utils.go). */
module Maps {

  /** The key of the j-th pair of a flat list. */
  function PairKey(args: seq<string>, j: nat): string
    requires 2 * j + 1 < |args|
  {
    args[2 * j]
  }

  /** The value of the j-th pair of a flat list. */
  function PairValue(args: seq<string>, j: nat): string
    requires 2 * j + 1 < |args|
  {
    args[2 * j + 1]
  }

  /** The map a stride-2 loop `m[args[i]] = args[i+1]` leaves behind. */
  function PairsToMap(args: seq<string>): map<string, string>
    requires |args| % 2 == 0
  {
    if |args| == 0 then map[]
    else PairsToMap(args[..|args| - 2])[args[|args| - 2] := args[|args| - 1]]
  }

  /** A key is in the map exactly when it is the key of some pair. */
  lemma {:induction false} PairsToMapKeys(args: seq<string>, k: string)
    requires |args| % 2 == 0
    ensures k in PairsToMap(args) <==> exists j: nat :: 2 * j + 1 < |args| && PairKey(args, j) == k
  {
    if |args| > 0 {
      var init := args[..|args| - 2];
      PairsToMapKeys(init, k);
      var last := (|args| - 2) / 2;
      assert PairKey(args, last) == args[|args| - 2];
      forall j: nat | 2 * j + 1 < |init| ensures PairKey(init, j) == PairKey(args, j) {}
      if exists j: nat :: 2 * j + 1 < |args| && PairKey(args, j) == k {
        var j: nat :| 2 * j + 1 < |args| && PairKey(args, j) == k;
        if j != last { assert PairKey(init, j) == k; }
      }
    }
  }

  /** The value kept for a key is that of the last pair carrying it. */
  lemma {:induction false} PairsToMapLastWins(args: seq<string>, j: nat)
    requires |args| % 2 == 0 && 2 * j + 1 < |args|
    requires forall j': nat :: j < j' && 2 * j' + 1 < |args| ==> PairKey(args, j') != PairKey(args, j)
    ensures PairKey(args, j) in PairsToMap(args)
    ensures PairsToMap(args)[PairKey(args, j)] == PairValue(args, j)
  {
    var last := (|args| - 2) / 2;
    if j != last {
      var init := args[..|args| - 2];
      assert PairKey(args, last) != PairKey(args, j);
      forall j': nat | j < j' && 2 * j' + 1 < |init| ensures PairKey(init, j') != PairKey(init, j) {
        assert PairKey(init, j') == PairKey(args, j');
      }
      PairsToMapLastWins(init, j);
      assert PairKey(init, j) == PairKey(args, j) && PairValue(init, j) == PairValue(args, j);
    }
  }

  /** The map a loop copying every map of the list, in order, leaves behind. */
  function MergeAll(maps: seq<map<string, string>>): map<string, string>
  {
    if |maps| == 0 then map[] else MergeAll(maps[..|maps| - 1]) + maps[|maps| - 1]
  }

  /** A merged key comes from some map, and its value from the last map holding it. */
  lemma {:induction false} MergeAllLookup(maps: seq<map<string, string>>, i: nat, k: string)
    requires i < |maps| && k in maps[i]
    requires forall i' :: i < i' < |maps| ==> k !in maps[i']
    ensures k in MergeAll(maps) && MergeAll(maps)[k] == maps[i][k]
  {
    if i != |maps| - 1 {
      MergeAllLookup(maps[..|maps| - 1], i, k);
    }
  }

  /** Every merged key belongs to one of the maps. */
  lemma {:induction false} MergeAllKeys(maps: seq<map<string, string>>, k: string)
    ensures k in MergeAll(maps) ==> exists i :: 0 <= i < |maps| && k in maps[i]
  {
    if |maps| > 0 && k in MergeAll(maps) && k !in maps[|maps| - 1] {
      MergeAllKeys(maps[..|maps| - 1], k);
      var i :| 0 <= i < |maps| - 1 && k in maps[..|maps| - 1][i];
      assert k in maps[i];
    }
  }
}
