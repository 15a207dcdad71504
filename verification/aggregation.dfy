/**
 `filtered_df.groupby(col)["Valor"].sum()` and the `Percentual` column
 derived from it (dashboard.py:229-230, 252-253, 275-276, 298-299 and the
 same computation at 393-394, 403-404, 413-414).
 */
module Aggregation {
  import opened Records
  import opened StringOrder

  /** One row of a grouped table: a key and the sum of `Valor` over it. */
  datatype Group = Group(key: string, sum: real)

  type Table = seq<Group>

  function Keys(t: Table): set<string>
  {
    set g | g in t :: g.key
  }

  /** pandas sorts group keys (`sort=True`), which also makes them distinct. */
  predicate Sorted(t: Table)
  {
    forall i, j :: 0 <= i < j < |t| ==> Less(t[i].key, t[j].key)
  }

  /** The sum recorded for `k`, or 0 when `k` is not a key. */
  function Lookup(t: Table, k: string): real
    decreases |t|
  {
    if |t| == 0 then 0.0
    else if t[0].key == k then t[0].sum
    else Lookup(t[1..], k)
  }

  /** `category_totals["Valor"].sum()`: the total of one table. */
  function TableTotal(t: Table): real
    decreases |t|
  {
    if |t| == 0 then 0.0 else t[0].sum + TableTotal(t[1..])
  }

  lemma {:induction false} LookupAbsent(t: Table, k: string)
    requires k !in Keys(t)
    ensures Lookup(t, k) == 0.0
    decreases |t|
  {
    if |t| > 0 {
      assert t[0] in t;
      assert forall g :: g in t[1..] ==> g in t;
      LookupAbsent(t[1..], k);
    }
  }

  /** In a sorted table the entry at `i` is the one `Lookup` finds. */
  lemma {:induction false} LookupAt(t: Table, i: nat)
    requires Sorted(t)
    requires i < |t|
    ensures Lookup(t, t[i].key) == t[i].sum
    decreases i
  {
    if i > 0 {
      assert Less(t[0].key, t[i].key);
      LessIrreflexive(t[i].key);
      assert Sorted(t[1..]);
      assert t[1..][i - 1] == t[i];
      LookupAt(t[1..], i - 1);
    }
  }

  /** Every key after the head of a sorted table is above it. */
  lemma AboveHead(t: Table, k: string, rest: Table)
    requires Sorted(t) && |t| > 0
    requires Less(t[0].key, k)
    requires Keys(rest) == Keys(t[1..]) + {k}
    ensures forall g :: g in rest ==> Less(t[0].key, g.key)
  {
    forall g | g in rest
      ensures Less(t[0].key, g.key)
    {
      assert g.key in Keys(rest);
      if g.key != k {
        var h :| h in t[1..] && h.key == g.key;
        var m :| 0 <= m < |t[1..]| && t[1..][m] == h;
        assert t[m + 1] == h;
      }
    }
  }

  /** What adding amount `a` under key `k` to table `t` must produce. */
  ghost predicate Inserted(t: Table, k: string, a: real, t': Table)
  {
    && Sorted(t')
    && Keys(t') == Keys(t) + {k}
    && (forall j :: Lookup(t', j) == Lookup(t, j) + (if j == k then a else 0.0))
    && TableTotal(t') == TableTotal(t) + a
  }

  lemma KeysCons(g: Group, t: Table)
    ensures Keys([g] + t) == {g.key} + Keys(t)
  {
    assert forall h :: h in [g] + t <==> h == g || h in t;
  }

  lemma InsertExisting(t: Table, k: string, a: real)
    requires Sorted(t) && |t| > 0 && t[0].key == k
    ensures Inserted(t, k, a, [Group(k, t[0].sum + a)] + t[1..])
  {
    var t' := [Group(k, t[0].sum + a)] + t[1..];
    assert t == [t[0]] + t[1..];
    KeysCons(t[0], t[1..]);
    KeysCons(t'[0], t[1..]);
    assert t'[0].key == t[0].key && t'[1..] == t[1..];
    assert Sorted(t') by {
      forall i, j | 0 <= i < j < |t'|
        ensures Less(t'[i].key, t'[j].key)
      {
        assert t'[i].key == t[i].key && t'[j].key == t[j].key;
      }
    }
    forall j
      ensures Lookup(t', j) == Lookup(t, j) + (if j == k then a else 0.0)
    {
      if j != k {
        assert Lookup(t', j) == Lookup(t[1..], j);
      }
    }
    assert TableTotal(t') == t'[0].sum + TableTotal(t[1..]);
  }

  lemma InsertBefore(t: Table, k: string, a: real)
    requires Sorted(t) && |t| > 0 && Less(k, t[0].key)
    ensures Inserted(t, k, a, [Group(k, a)] + t)
  {
    var t' := [Group(k, a)] + t;
    assert k !in Keys(t) by {
      if k in Keys(t) {
        var g :| g in t && g.key == k;
        var m :| 0 <= m < |t| && t[m] == g;
        if m != 0 {
          LessTransitive(k, t[0].key, k);
        }
        LessIrreflexive(k);
      }
    }
    LookupAbsent(t, k);
    KeysCons(Group(k, a), t);
    assert t'[1..] == t;
    forall i, j | 0 <= i < j < |t'|
      ensures Less(t'[i].key, t'[j].key)
    {
      if i == 0 && j > 1 {
        LessTransitive(k, t[0].key, t[j - 1].key);
      }
    }
  }

  lemma SortedAfterHead(t: Table, k: string, rest: Table)
    requires Sorted(t) && |t| > 0 && Less(t[0].key, k)
    requires Sorted(rest) && Keys(rest) == Keys(t[1..]) + {k}
    ensures Sorted([t[0]] + rest)
  {
    AboveHead(t, k, rest);
    var t' := [t[0]] + rest;
    forall i, j | 0 <= i < j < |t'|
      ensures Less(t'[i].key, t'[j].key)
    {
      if i == 0 {
        assert t'[j] in rest;
      } else {
        assert t'[i] == rest[i - 1] && t'[j] == rest[j - 1];
      }
    }
  }

  lemma InsertAfter(t: Table, k: string, a: real, rest: Table)
    requires Sorted(t) && |t| > 0 && Less(t[0].key, k)
    requires Inserted(t[1..], k, a, rest)
    ensures Inserted(t, k, a, [t[0]] + rest)
  {
    var t' := [t[0]] + rest;
    SortedAfterHead(t, k, rest);
    assert t == [t[0]] + t[1..];
    KeysCons(t[0], t[1..]);
    KeysCons(t[0], rest);
    assert t'[0] == t[0] && t'[1..] == rest;
    LessIrreflexive(k);
    forall j
      ensures Lookup(t', j) == Lookup(t, j) + (if j == k then a else 0.0)
    {
      if j != t[0].key {
        assert Lookup(t', j) == Lookup(rest, j);
        assert Lookup(t, j) == Lookup(t[1..], j);
      }
    }
  }

  /** Adds `a` to the group of `k`, creating the group in its sorted place if
      it is new. */
  function Insert(t: Table, k: string, a: real): (t': Table)
    requires Sorted(t)
    ensures Inserted(t, k, a, t')
    decreases |t|
  {
    if |t| == 0 then
      assert Keys([Group(k, a)]) == {k};
      [Group(k, a)]
    else if t[0].key == k then
      InsertExisting(t, k, a);
      [Group(k, t[0].sum + a)] + t[1..]
    else if Less(k, t[0].key) then
      InsertBefore(t, k, a);
      [Group(k, a)] + t
    else
      LessTotal(k, t[0].key);
      var rest := Insert(t[1..], k, a);
      InsertAfter(t, k, a, rest);
      [t[0]] + rest
  }

  /** The rows of `rows` whose column `c` equals `k`. */
  function Where(rows: seq<Row>, c: Column, k: string): (grp: seq<Row>)
    ensures forall i :: 0 <= i < |grp| ==> Field(grp[i], c) == k
    ensures forall r :: multiset(grp)[r] == if Field(r, c) == k then multiset(rows)[r] else 0
    decreases |rows|
  {
    if |rows| == 0 then []
    else
      var rest := Where(rows[1..], c, k);
      assert rows == [rows[0]] + rows[1..];
      if Field(rows[0], c) == k then [rows[0]] + rest else rest
  }

  /** The reference meaning of a group's sum: the total of the rows with
      that key. */
  function GroupSum(rows: seq<Row>, c: Column, k: string): real
  {
    Total(Where(rows, c, k))
  }

  lemma GroupSumCons(rows: seq<Row>, c: Column, k: string)
    requires |rows| > 0
    ensures GroupSum(rows, c, k) == GroupSum(rows[1..], c, k) + (if k == Field(rows[0], c) then Amount(rows[0]) else 0.0)
  {
    var w := Where(rows[1..], c, k);
    if Field(rows[0], c) == k {
      assert Where(rows, c, k) == [rows[0]] + w;
      assert ([rows[0]] + w)[1..] == w;
    } else {
      assert Where(rows, c, k) == w;
    }
  }

  lemma ColumnSetCons(rows: seq<Row>, c: Column)
    requires |rows| > 0
    ensures (set r | r in rows :: Field(r, c)) == {Field(rows[0], c)} + (set r | r in rows[1..] :: Field(r, c))
  {
    assert rows == [rows[0]] + rows[1..];
    assert forall r :: r in rows <==> r == rows[0] || r in rows[1..];
  }

  /** `groupby(c)["Valor"].sum()` over `rows`. */
  function GroupBy(rows: seq<Row>, c: Column): (t: Table)
    ensures Sorted(t)
    ensures Keys(t) == set r | r in rows :: Field(r, c)
    ensures forall k :: Lookup(t, k) == GroupSum(rows, c, k)
    ensures TableTotal(t) == Total(rows)
    decreases |rows|
  {
    if |rows| == 0 then []
    else
      var rest := GroupBy(rows[1..], c);
      ColumnSetCons(rows, c);
      forall k
        ensures GroupSum(rows, c, k) == GroupSum(rows[1..], c, k) + (if k == Field(rows[0], c) then Amount(rows[0]) else 0.0)
      {
        GroupSumCons(rows, c, k);
      }
      Insert(rest, Field(rows[0], c), Amount(rows[0]))
  }

  /** Each line of a grouped table holds the sum of exactly the rows with its
      key, and the keys are exactly the values present in the column. */
  lemma GroupByEntries(rows: seq<Row>, c: Column)
    ensures forall i :: 0 <= i < |GroupBy(rows, c)| ==>
      GroupBy(rows, c)[i].sum == Total(Where(rows, c, GroupBy(rows, c)[i].key))
    ensures forall k :: k in Keys(GroupBy(rows, c)) <==> exists r :: r in rows && Field(r, c) == k
  {
    var t := GroupBy(rows, c);
    forall i | 0 <= i < |t|
      ensures t[i].sum == Total(Where(rows, c, t[i].key))
    {
      LookupAt(t, i);
    }
  }
}
