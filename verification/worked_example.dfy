/**
 A worked instance: a supplies and a staff expense of one hospital, month
 and cost center, with both categories selected.
 */
module WorkedExample {
  import opened Records
  import opened Filtering
  import opened Aggregation
  import opened Percentages
  import opened Dashboard
  import opened StringOrder

  const Supplies := Row("2024-01", "A", "X", "Supplies", "S1", Some(100.0))
  const Staff := Row("2024-01", "A", "X", "Staff", "S2", Some(300.0))
  const Both := Selection(["2024-01"], ["A"], ["X"], ["Supplies", "Staff"])

  lemma BothRowsPass()
    ensures FilterRows([Supplies, Staff], Both) == [Supplies, Staff]
  {
    assert Passes(Supplies, Both) && Passes(Staff, Both);
    assert [Supplies, Staff][1..] == [Staff];
    assert [Staff][1..] == [];
  }

  lemma CategoryTable()
    ensures GroupBy([Supplies, Staff], Category) == [Group("Staff", 300.0), Group("Supplies", 100.0)]
  {
    assert [Supplies, Staff][1..] == [Staff];
    assert [Staff][1..] == [];
    assert GroupBy([Staff], Category) == [Group("Staff", 300.0)];
    assert !Less("Supplies", "Staff") by {
      assert Less("Staff", "Supplies");
      LessAsymmetric("Staff", "Supplies");
    }
    assert "Staff" != "Supplies";
    var single := [Group("Staff", 300.0)];
    assert single[1..] == [];
    assert Insert(single, "Supplies", 100.0) == [single[0]] + Insert(single[1..], "Supplies", 100.0);
    assert GroupBy([Supplies, Staff], Category) == Insert(single, "Supplies", 100.0);
  }

  lemma CategoryShares()
    ensures WithPercentages([Group("Staff", 300.0), Group("Supplies", 100.0)])
      == [Share("Staff", 300.0, Some(75.0)), Share("Supplies", 100.0, Some(25.0))]
  {
    var t := [Group("Staff", 300.0), Group("Supplies", 100.0)];
    assert t[1..] == [Group("Supplies", 100.0)];
    assert TableTotal(t) == 400.0;
  }

  /** Total 400; the categories listed in sorted order with 75% and 25%; the
      button offers the colour-blind mode before any click. */
  lemma TwoCategories()
    ensures UpdateDashboard([Supplies, Staff], Both, 0).total == ValorTotal(400.0)
    ensures UpdateDashboard([Supplies, Staff], Both, 0).categoryInfo
      == Lines([Share("Staff", 300.0, Some(75.0)), Share("Supplies", 100.0, Some(25.0))])
    ensures UpdateDashboard([Supplies, Staff], Both, 0).buttonLabel == "Modo Daltonismo"
  {
    BothRowsPass();
    CategoryTable();
    CategoryShares();
    assert [Supplies, Staff][1..] == [Staff];
    assert [Staff][1..] == [];
    assert Total([Supplies, Staff]) == 400.0;
  }
}
