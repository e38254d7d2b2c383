/** The attribution tables of the research report (`maais/analytics/research.py`). */
module Attribution {
  import opened Sorting
  import opened Sums
  import opened Research

  // ------------------------------------------------------------------ attribution

  datatype Row = Row(key: string, trades: nat, wins: nat, losses: nat, winRate: real, net: real, expectancy: real)

  function NetOf(a: Allocation): real { a.net }

  function Count<T(!new)>(p: T -> bool, s: seq<T>): nat { |Filter(p, s)| }

  function Wins(s: seq<Allocation>): nat { Count((a: Allocation) => a.net > 0.0, s) }
  function Losses(s: seq<Allocation>): nat { Count((a: Allocation) => a.net < 0.0, s) }

  /** `_mean`; the caller never passes an empty group. */
  function Mean<T>(f: T -> real, s: seq<T>): real
    requires s != []
  {
    SumBy(f, s) / |s| as real
  }

  function RowFor(key: string, items: seq<Allocation>): Row
    requires items != []
  {
    Row(key, |items|, Wins(items), Losses(items), Wins(items) as real / |items| as real,
        SumBy(NetOf, items), Mean(NetOf, items))
  }

  /** The allocations that carry one value of the grouping field. */
  function Group(field: Allocation -> string, allocations: seq<Allocation>, key: string): seq<Allocation> {
    Filter((a: Allocation) => field(a) == key, allocations)
  }

  ghost predicate GroupsAre(
      groups: map<string, seq<Allocation>>, field: Allocation -> string, allocations: seq<Allocation>)
  {
    forall k: string ::
      (k in groups <==> Group(field, allocations, k) != []) &&
      (k in groups ==> groups[k] == Group(field, allocations, k))
  }

  lemma {:induction false} GroupSnoc(field: Allocation -> string, before: seq<Allocation>, a: Allocation, key: string)
    ensures Group(field, before + [a], key)
            == Group(field, before, key) + if field(a) == key then [a] else []
  {
    FilterConcat((x: Allocation) => field(x) == key, before, [a]);
  }

  /** The grouping dictionary. */
  method CollectGroups(allocations: seq<Allocation>, field: Allocation -> string)
      returns (groups: map<string, seq<Allocation>>)
    ensures GroupsAre(groups, field, allocations)
  {
    groups := map[];
    var i := 0;
    while i < |allocations|
      invariant 0 <= i <= |allocations| && GroupsAre(groups, field, allocations[..i])
    {
      var a := allocations[i];
      var key := field(a);
      assert allocations[..i + 1] == allocations[..i] + [a];
      forall k: string { GroupSnoc(field, allocations[..i], a, k); }
      groups := groups[key := (if key in groups then groups[key] else []) + [a]];
      i := i + 1;
    }
    assert allocations[..i] == allocations;
  }

  /** The row's rate and expectancy are its wins and its net result per trade. */
  predicate Averages(r: Row) {
    && 0 < r.trades && r.winRate * r.trades as real == r.wins as real && r.expectancy * r.trades as real == r.net
  }

  /** Rows in strictly increasing key order, one per value that occurs, each computed from exactly
      the allocations that carry it. */
  ghost predicate IsTable(rows: seq<Row>, field: Allocation -> string, allocations: seq<Allocation>) {
    && (forall i, j :: 0 <= i < j < |rows| ==> Less(rows[i].key, rows[j].key))
    && (forall a :: a in allocations ==> exists i :: 0 <= i < |rows| && rows[i].key == field(a))
    && (forall i :: 0 <= i < |rows| ==>
          Group(field, allocations, rows[i].key) != [] &&
          rows[i] == RowFor(rows[i].key, Group(field, allocations, rows[i].key)))
    && (forall i :: 0 <= i < |rows| ==> Averages(rows[i]))
  }

  /** The keys of a dictionary in ascending order, smallest first. */
  method OrderedKeys(ks: set<string>) returns (r: seq<string>)
    ensures forall k :: k in ks <==> k in r
    ensures forall i, j :: 0 <= i < j < |r| ==> Less(r[i], r[j])
  {
    var keys := ks;
    r := [];
    while keys != {}
      invariant keys <= ks && forall k :: k in ks <==> k in r || k in keys
      invariant forall k, i :: k in keys && 0 <= i < |r| ==> Less(r[i], k)
      invariant forall i, j :: 0 <= i < j < |r| ==> Less(r[i], r[j])
      decreases keys
    {
      LeastExists(keys);
      var key :| Least(key, keys);
      r := r + [key];
      keys := keys - {key};
    }
  }

  /** The row reports the group of its key. */
  predicate RowIs(groups: map<string, seq<Allocation>>, key: string, row: Row) {
    key in groups && groups[key] != [] && row == RowFor(key, groups[key])
  }

  lemma {:induction false} RowAverages(key: string, items: seq<Allocation>)
    requires items != []
    ensures Averages(RowFor(key, items))
  {
  }

  /** One row per key. */
  method BuildRows(groups: map<string, seq<Allocation>>, keys: seq<string>) returns (rows: seq<Row>)
    requires forall i :: 0 <= i < |keys| ==> keys[i] in groups && groups[keys[i]] != []
    ensures |rows| == |keys| && forall j :: 0 <= j < |keys| ==> RowIs(groups, keys[j], rows[j]) && Averages(rows[j])
  {
    rows := [];
    for i := 0 to |keys|
      invariant |rows| == i
      invariant forall j :: 0 <= j < i ==> RowIs(groups, keys[j], rows[j]) && Averages(rows[j])
    {
      RowAverages(keys[i], groups[keys[i]]);
      rows := rows + [RowFor(keys[i], groups[keys[i]])];
    }
  }

  lemma {:induction false} GroupsFilled(
      groups: map<string, seq<Allocation>>, field: Allocation -> string, allocations: seq<Allocation>,
      keys: seq<string>)
    requires GroupsAre(groups, field, allocations) && forall k :: k in groups <==> k in keys
    ensures forall i :: 0 <= i < |keys| ==> keys[i] in groups && groups[keys[i]] != []
  {
    forall i | 0 <= i < |keys| ensures keys[i] in groups && groups[keys[i]] != [] {
      assert keys[i] in keys;
    }
  }

  /** `_attribution`: group, then report the groups in key order. */
  method Attribute(allocations: seq<Allocation>, field: Allocation -> string) returns (rows: seq<Row>)
    ensures IsTable(rows, field, allocations)
  {
    var groups := CollectGroups(allocations, field);
    var keys := OrderedKeys(groups.Keys);
    GroupsFilled(groups, field, allocations, keys);
    rows := BuildRows(groups, keys);
    TableComplete(allocations, field, groups, keys, rows);
  }

  /** Rows made from every group in key order form the table. */
  lemma {:induction false} TableComplete(
      allocations: seq<Allocation>, field: Allocation -> string, groups: map<string, seq<Allocation>>,
      keys: seq<string>, rows: seq<Row>)
    requires GroupsAre(groups, field, allocations) && |rows| == |keys|
    requires forall k :: k in groups <==> k in keys
    requires forall i, j :: 0 <= i < j < |keys| ==> Less(keys[i], keys[j])
    requires forall j :: 0 <= j < |keys| ==> RowIs(groups, keys[j], rows[j]) && Averages(rows[j])
    ensures IsTable(rows, field, allocations)
  {
    forall i | 0 <= i < |rows| ensures rows[i].key == keys[i] && RowIs(groups, keys[i], rows[i]) {
    }
    forall a | a in allocations ensures exists i :: 0 <= i < |rows| && rows[i].key == field(a) {
      assert a in Group(field, allocations, field(a));
      assert field(a) in keys;
      var j :| 0 <= j < |keys| && keys[j] == field(a);
      assert rows[j].key == field(a);
    }
  }

  // ------------------------------------------------------------------ the rows partition the trades

  function ByKey(g: string -> real): Row -> real { (r: Row) => g(r.key) }

  function GroupSum(f: Allocation -> real, field: Allocation -> string, s: seq<Allocation>): string -> real {
    (k: string) => SumBy(f, Group(field, s, k))
  }

  predicate DistinctKeys(rows: seq<Row>) { forall i, j :: 0 <= i < j < |rows| ==> rows[i].key != rows[j].key }

  predicate HasKey(rows: seq<Row>, key: string) { exists i :: 0 <= i < |rows| && rows[i].key == key }

  lemma {:induction false} HasKeyTail(rows: seq<Row>, key: string)
    requires rows != [] && DistinctKeys(rows)
    ensures HasKey(rows, key) <==> rows[0].key == key || HasKey(rows[1..], key)
    ensures !(rows[0].key == key && HasKey(rows[1..], key))
  {
    assert forall i :: 0 <= i < |rows[1..]| ==> rows[1..][i] == rows[i + 1];
    assert forall i :: 0 < i < |rows| ==> rows[i] == rows[1..][i - 1];
  }

  /** Raising one key's amount by `c` raises the total by `c` if some row has that key. */
  lemma {:induction false} RaiseOne(rows: seq<Row>, g: string -> real, h: string -> real, key: string, c: real)
    requires DistinctKeys(rows)
    requires forall k: string :: g(k) == h(k) + if k == key then c else 0.0
    ensures SumBy(ByKey(g), rows) == SumBy(ByKey(h), rows) + if HasKey(rows, key) then c else 0.0
  {
    if rows != [] {
      RaiseOne(rows[1..], g, h, key, c);
      HasKeyTail(rows, key);
    }
  }

  /** Any amount summed group by group is the amount summed over all allocations. */
  lemma {:induction false} GroupsPartition(
      f: Allocation -> real, field: Allocation -> string, rows: seq<Row>, s: seq<Allocation>)
    requires DistinctKeys(rows) && forall a :: a in s ==> HasKey(rows, field(a))
    ensures SumBy(ByKey(GroupSum(f, field, s)), rows) == SumBy(f, s)
  {
    if s == [] {
      NoGroups(f, field, rows);
    } else {
      var g, h := GroupSum(f, field, s), GroupSum(f, field, s[1..]);
      GroupsPartition(f, field, rows, s[1..]);
      forall k: string ensures g(k) == h(k) + if k == field(s[0]) then f(s[0]) else 0.0 {
        if k == field(s[0]) {
          assert Group(field, s, k)[1..] == Group(field, s[1..], k);
        }
      }
      assert s[0] in s;
      RaiseOne(rows, g, h, field(s[0]), f(s[0]));
    }
  }

  lemma {:induction false} NoGroups(f: Allocation -> real, field: Allocation -> string, rows: seq<Row>)
    ensures SumBy(ByKey(GroupSum(f, field, [])), rows) == 0.0
  {
    if rows != [] {
      assert Group(field, [], rows[0].key) == [];
      assert GroupSum(f, field, [])(rows[0].key) == 0.0;
      NoGroups(f, field, rows[1..]);
    }
  }

  function One(a: Allocation): real { 1.0 }
  function Won(a: Allocation): real { if a.net > 0.0 then 1.0 else 0.0 }
  function Lost(a: Allocation): real { if a.net < 0.0 then 1.0 else 0.0 }

  lemma {:induction false} CountsAreSums(s: seq<Allocation>)
    ensures SumBy(One, s) == |s| as real
    ensures SumBy(Won, s) == Wins(s) as real && SumBy(Lost, s) == Losses(s) as real
  {
    if s != [] { CountsAreSums(s[1..]); }
  }

  function TradesOf(r: Row): real { r.trades as real }
  function WinsOf(r: Row): real { r.wins as real }
  function LossesOf(r: Row): real { r.losses as real }
  function NetIn(r: Row): real { r.net }

  /** For every grouping field the rows add up to the overall performance figures. */
  lemma {:induction false} TablePartitions(rows: seq<Row>, field: Allocation -> string, s: seq<Allocation>)
    requires IsTable(rows, field, s)
    ensures SumBy(TradesOf, rows) == |s| as real
    ensures SumBy(WinsOf, rows) == Wins(s) as real && SumBy(LossesOf, rows) == Losses(s) as real
    ensures SumBy(NetIn, rows) == SumBy(NetOf, s)
  {
    forall i, j | 0 <= i < j < |rows| ensures rows[i].key != rows[j].key { LessTotal(rows[i].key, rows[j].key); }
    forall i | 0 <= i < |rows|
      ensures TradesOf(rows[i]) == ByKey(GroupSum(One, field, s))(rows[i])
      ensures WinsOf(rows[i]) == ByKey(GroupSum(Won, field, s))(rows[i])
      ensures LossesOf(rows[i]) == ByKey(GroupSum(Lost, field, s))(rows[i])
    {
      CountsAreSums(Group(field, s, rows[i].key));
    }
    SumAlike(TradesOf, ByKey(GroupSum(One, field, s)), rows);
    SumAlike(WinsOf, ByKey(GroupSum(Won, field, s)), rows);
    SumAlike(LossesOf, ByKey(GroupSum(Lost, field, s)), rows);
    SumAlike(NetIn, ByKey(GroupSum(NetOf, field, s)), rows);
    CountsAreSums(s);
    GroupsPartition(One, field, rows, s);
    GroupsPartition(Won, field, rows, s);
    GroupsPartition(Lost, field, rows, s);
    GroupsPartition(NetOf, field, rows, s);
  }
}
