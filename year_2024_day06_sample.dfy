/**
 * The walk of the unit-test map of 2024 day 6: the parsed map the test
 * expects, the 55 items it expects from the iterator, and the 41 cells.
 */
module Year2024Day06Sample {
  import opened Wrappers
  import opened Year2024Day06
  import RustText

  /** The map the parse test expects for its 10 by 10 grid. */
  function SampleMap(): Parsed
  {
    Parsed(Some(Guard(Up, (4, 6))), (10, 10), SampleObstacles(), 0)
  }

  function SampleObstacles(): set<(nat, nat)>
  {
    {(4, 0), (9, 1), (2, 3), (7, 4), (1, 6), (8, 7), (0, 8), (6, 9)}
  }

  /** The items the iteration test expects, in order. */
  function SampleTrace(): seq<Item>
  {
    TracePart0() + TracePart1() + TracePart2() + TracePart3() + TracePart4()
  }

  function TracePart0(): seq<Item>
  {
    [(4, 6, Up),
     (4, 5, Up),
     (4, 4, Up),
     (4, 3, Up),
     (4, 2, Up),
     (4, 1, Up),
     (4, 1, Right),
     (5, 1, Right),
     (6, 1, Right),
     (7, 1, Right),
     (8, 1, Right)]
  }

  function TracePart1(): seq<Item>
  {
    [(8, 1, Down),
     (8, 2, Down),
     (8, 3, Down),
     (8, 4, Down),
     (8, 5, Down),
     (8, 6, Down),
     (8, 6, Left),
     (7, 6, Left),
     (6, 6, Left),
     (5, 6, Left),
     (4, 6, Left)]
  }

  function TracePart2(): seq<Item>
  {
    [(3, 6, Left),
     (2, 6, Left),
     (2, 6, Up),
     (2, 5, Up),
     (2, 4, Up),
     (2, 4, Right),
     (3, 4, Right),
     (4, 4, Right),
     (5, 4, Right),
     (6, 4, Right),
     (6, 4, Down)]
  }

  function TracePart3(): seq<Item>
  {
    [(6, 5, Down),
     (6, 6, Down),
     (6, 7, Down),
     (6, 8, Down),
     (6, 8, Left),
     (5, 8, Left),
     (4, 8, Left),
     (3, 8, Left),
     (2, 8, Left),
     (1, 8, Left),
     (1, 8, Up)]
  }

  function TracePart4(): seq<Item>
  {
    [(1, 7, Up),
     (1, 7, Right),
     (2, 7, Right),
     (3, 7, Right),
     (4, 7, Right),
     (5, 7, Right),
     (6, 7, Right),
     (7, 7, Right),
     (7, 7, Down),
     (7, 8, Down),
     (7, 9, Down)]
  }


  /** The test's k-th item, read from the part that holds it. */
  function ItemAt(k: nat): Item
    requires k < 55
  {
    if k < 11 then TracePart0()[k]
    else if k < 22 then TracePart1()[k - 11]
    else if k < 33 then TracePart2()[k - 22]
    else if k < 44 then TracePart3()[k - 33]
    else TracePart4()[k - 44]
  }

  lemma ItemAtTrace(k: nat)
    requires k < 55
    ensures |SampleTrace()| == 55 && ItemAt(k) == SampleTrace()[k]
  {
  }

  /** The guard the test's k-th item describes, and no guard after the last. */
  function StateAt(k: nat): Option<Guard>
    requires k <= 55
  {
    if k == 55 then None
    else Some(Guard(ItemAt(k).2, (ItemAt(k).0, ItemAt(k).1)))
  }

  lemma StepsAgree0(k: nat)
    requires 0 <= k < 3
    ensures GuardInvariant(StateAt(k), (10, 10), SampleObstacles())
    ensures NextGuard(StateAt(k), (10, 10), SampleObstacles()) == StateAt(k + 1)
  {
    if k == 0 {
      assert StateAt(0) == Some(Guard(Up, (4, 6)));
      assert StateAt(1) == Some(Guard(Up, (4, 5)));
    } else if k == 1 {
      assert StateAt(1) == Some(Guard(Up, (4, 5)));
      assert StateAt(2) == Some(Guard(Up, (4, 4)));
    } else if k == 2 {
      assert StateAt(2) == Some(Guard(Up, (4, 4)));
      assert StateAt(3) == Some(Guard(Up, (4, 3)));
    }
  }

  lemma StepsAgree3(k: nat)
    requires 3 <= k < 6
    ensures GuardInvariant(StateAt(k), (10, 10), SampleObstacles())
    ensures NextGuard(StateAt(k), (10, 10), SampleObstacles()) == StateAt(k + 1)
  {
    if k == 3 {
      assert StateAt(3) == Some(Guard(Up, (4, 3)));
      assert StateAt(4) == Some(Guard(Up, (4, 2)));
    } else if k == 4 {
      assert StateAt(4) == Some(Guard(Up, (4, 2)));
      assert StateAt(5) == Some(Guard(Up, (4, 1)));
    } else if k == 5 {
      assert StateAt(5) == Some(Guard(Up, (4, 1)));
      assert StateAt(6) == Some(Guard(Right, (4, 1)));
    }
  }

  lemma StepsAgree6(k: nat)
    requires 6 <= k < 9
    ensures GuardInvariant(StateAt(k), (10, 10), SampleObstacles())
    ensures NextGuard(StateAt(k), (10, 10), SampleObstacles()) == StateAt(k + 1)
  {
    if k == 6 {
      assert StateAt(6) == Some(Guard(Right, (4, 1)));
      assert StateAt(7) == Some(Guard(Right, (5, 1)));
    } else if k == 7 {
      assert StateAt(7) == Some(Guard(Right, (5, 1)));
      assert StateAt(8) == Some(Guard(Right, (6, 1)));
    } else if k == 8 {
      assert StateAt(8) == Some(Guard(Right, (6, 1)));
      assert StateAt(9) == Some(Guard(Right, (7, 1)));
    }
  }

  lemma StepsAgree9(k: nat)
    requires 9 <= k < 12
    ensures GuardInvariant(StateAt(k), (10, 10), SampleObstacles())
    ensures NextGuard(StateAt(k), (10, 10), SampleObstacles()) == StateAt(k + 1)
  {
    if k == 9 {
      assert StateAt(9) == Some(Guard(Right, (7, 1)));
      assert StateAt(10) == Some(Guard(Right, (8, 1)));
    } else if k == 10 {
      assert StateAt(10) == Some(Guard(Right, (8, 1)));
      assert StateAt(11) == Some(Guard(Down, (8, 1)));
    } else if k == 11 {
      assert StateAt(11) == Some(Guard(Down, (8, 1)));
      assert StateAt(12) == Some(Guard(Down, (8, 2)));
    }
  }

  lemma StepsAgree12(k: nat)
    requires 12 <= k < 15
    ensures GuardInvariant(StateAt(k), (10, 10), SampleObstacles())
    ensures NextGuard(StateAt(k), (10, 10), SampleObstacles()) == StateAt(k + 1)
  {
    if k == 12 {
      assert StateAt(12) == Some(Guard(Down, (8, 2)));
      assert StateAt(13) == Some(Guard(Down, (8, 3)));
    } else if k == 13 {
      assert StateAt(13) == Some(Guard(Down, (8, 3)));
      assert StateAt(14) == Some(Guard(Down, (8, 4)));
    } else if k == 14 {
      assert StateAt(14) == Some(Guard(Down, (8, 4)));
      assert StateAt(15) == Some(Guard(Down, (8, 5)));
    }
  }

  lemma StepsAgree15(k: nat)
    requires 15 <= k < 18
    ensures GuardInvariant(StateAt(k), (10, 10), SampleObstacles())
    ensures NextGuard(StateAt(k), (10, 10), SampleObstacles()) == StateAt(k + 1)
  {
    if k == 15 {
      assert StateAt(15) == Some(Guard(Down, (8, 5)));
      assert StateAt(16) == Some(Guard(Down, (8, 6)));
    } else if k == 16 {
      assert StateAt(16) == Some(Guard(Down, (8, 6)));
      assert StateAt(17) == Some(Guard(Left, (8, 6)));
    } else if k == 17 {
      assert StateAt(17) == Some(Guard(Left, (8, 6)));
      assert StateAt(18) == Some(Guard(Left, (7, 6)));
    }
  }

  lemma StepsAgree18(k: nat)
    requires 18 <= k < 21
    ensures GuardInvariant(StateAt(k), (10, 10), SampleObstacles())
    ensures NextGuard(StateAt(k), (10, 10), SampleObstacles()) == StateAt(k + 1)
  {
    if k == 18 {
      assert StateAt(18) == Some(Guard(Left, (7, 6)));
      assert StateAt(19) == Some(Guard(Left, (6, 6)));
    } else if k == 19 {
      assert StateAt(19) == Some(Guard(Left, (6, 6)));
      assert StateAt(20) == Some(Guard(Left, (5, 6)));
    } else if k == 20 {
      assert StateAt(20) == Some(Guard(Left, (5, 6)));
      assert StateAt(21) == Some(Guard(Left, (4, 6)));
    }
  }

  lemma StepsAgree21(k: nat)
    requires 21 <= k < 24
    ensures GuardInvariant(StateAt(k), (10, 10), SampleObstacles())
    ensures NextGuard(StateAt(k), (10, 10), SampleObstacles()) == StateAt(k + 1)
  {
    if k == 21 {
      assert StateAt(21) == Some(Guard(Left, (4, 6)));
      assert StateAt(22) == Some(Guard(Left, (3, 6)));
    } else if k == 22 {
      assert StateAt(22) == Some(Guard(Left, (3, 6)));
      assert StateAt(23) == Some(Guard(Left, (2, 6)));
    } else if k == 23 {
      assert StateAt(23) == Some(Guard(Left, (2, 6)));
      assert StateAt(24) == Some(Guard(Up, (2, 6)));
    }
  }

  lemma StepsAgree24(k: nat)
    requires 24 <= k < 27
    ensures GuardInvariant(StateAt(k), (10, 10), SampleObstacles())
    ensures NextGuard(StateAt(k), (10, 10), SampleObstacles()) == StateAt(k + 1)
  {
    if k == 24 {
      assert StateAt(24) == Some(Guard(Up, (2, 6)));
      assert StateAt(25) == Some(Guard(Up, (2, 5)));
    } else if k == 25 {
      assert StateAt(25) == Some(Guard(Up, (2, 5)));
      assert StateAt(26) == Some(Guard(Up, (2, 4)));
    } else if k == 26 {
      assert StateAt(26) == Some(Guard(Up, (2, 4)));
      assert StateAt(27) == Some(Guard(Right, (2, 4)));
    }
  }

  lemma StepsAgree27(k: nat)
    requires 27 <= k < 30
    ensures GuardInvariant(StateAt(k), (10, 10), SampleObstacles())
    ensures NextGuard(StateAt(k), (10, 10), SampleObstacles()) == StateAt(k + 1)
  {
    if k == 27 {
      assert StateAt(27) == Some(Guard(Right, (2, 4)));
      assert StateAt(28) == Some(Guard(Right, (3, 4)));
    } else if k == 28 {
      assert StateAt(28) == Some(Guard(Right, (3, 4)));
      assert StateAt(29) == Some(Guard(Right, (4, 4)));
    } else if k == 29 {
      assert StateAt(29) == Some(Guard(Right, (4, 4)));
      assert StateAt(30) == Some(Guard(Right, (5, 4)));
    }
  }

  lemma StepsAgree30(k: nat)
    requires 30 <= k < 33
    ensures GuardInvariant(StateAt(k), (10, 10), SampleObstacles())
    ensures NextGuard(StateAt(k), (10, 10), SampleObstacles()) == StateAt(k + 1)
  {
    if k == 30 {
      assert StateAt(30) == Some(Guard(Right, (5, 4)));
      assert StateAt(31) == Some(Guard(Right, (6, 4)));
    } else if k == 31 {
      assert StateAt(31) == Some(Guard(Right, (6, 4)));
      assert StateAt(32) == Some(Guard(Down, (6, 4)));
    } else if k == 32 {
      assert StateAt(32) == Some(Guard(Down, (6, 4)));
      assert StateAt(33) == Some(Guard(Down, (6, 5)));
    }
  }

  lemma StepsAgree33(k: nat)
    requires 33 <= k < 36
    ensures GuardInvariant(StateAt(k), (10, 10), SampleObstacles())
    ensures NextGuard(StateAt(k), (10, 10), SampleObstacles()) == StateAt(k + 1)
  {
    if k == 33 {
      assert StateAt(33) == Some(Guard(Down, (6, 5)));
      assert StateAt(34) == Some(Guard(Down, (6, 6)));
    } else if k == 34 {
      assert StateAt(34) == Some(Guard(Down, (6, 6)));
      assert StateAt(35) == Some(Guard(Down, (6, 7)));
    } else if k == 35 {
      assert StateAt(35) == Some(Guard(Down, (6, 7)));
      assert StateAt(36) == Some(Guard(Down, (6, 8)));
    }
  }

  lemma StepsAgree36(k: nat)
    requires 36 <= k < 39
    ensures GuardInvariant(StateAt(k), (10, 10), SampleObstacles())
    ensures NextGuard(StateAt(k), (10, 10), SampleObstacles()) == StateAt(k + 1)
  {
    if k == 36 {
      assert StateAt(36) == Some(Guard(Down, (6, 8)));
      assert StateAt(37) == Some(Guard(Left, (6, 8)));
    } else if k == 37 {
      assert StateAt(37) == Some(Guard(Left, (6, 8)));
      assert StateAt(38) == Some(Guard(Left, (5, 8)));
    } else if k == 38 {
      assert StateAt(38) == Some(Guard(Left, (5, 8)));
      assert StateAt(39) == Some(Guard(Left, (4, 8)));
    }
  }

  lemma StepsAgree39(k: nat)
    requires 39 <= k < 42
    ensures GuardInvariant(StateAt(k), (10, 10), SampleObstacles())
    ensures NextGuard(StateAt(k), (10, 10), SampleObstacles()) == StateAt(k + 1)
  {
    if k == 39 {
      assert StateAt(39) == Some(Guard(Left, (4, 8)));
      assert StateAt(40) == Some(Guard(Left, (3, 8)));
    } else if k == 40 {
      assert StateAt(40) == Some(Guard(Left, (3, 8)));
      assert StateAt(41) == Some(Guard(Left, (2, 8)));
    } else if k == 41 {
      assert StateAt(41) == Some(Guard(Left, (2, 8)));
      assert StateAt(42) == Some(Guard(Left, (1, 8)));
    }
  }

  lemma StepsAgree42(k: nat)
    requires 42 <= k < 45
    ensures GuardInvariant(StateAt(k), (10, 10), SampleObstacles())
    ensures NextGuard(StateAt(k), (10, 10), SampleObstacles()) == StateAt(k + 1)
  {
    if k == 42 {
      assert StateAt(42) == Some(Guard(Left, (1, 8)));
      assert StateAt(43) == Some(Guard(Up, (1, 8)));
    } else if k == 43 {
      assert StateAt(43) == Some(Guard(Up, (1, 8)));
      assert StateAt(44) == Some(Guard(Up, (1, 7)));
    } else if k == 44 {
      assert StateAt(44) == Some(Guard(Up, (1, 7)));
      assert StateAt(45) == Some(Guard(Right, (1, 7)));
    }
  }

  lemma StepsAgree45(k: nat)
    requires 45 <= k < 48
    ensures GuardInvariant(StateAt(k), (10, 10), SampleObstacles())
    ensures NextGuard(StateAt(k), (10, 10), SampleObstacles()) == StateAt(k + 1)
  {
    if k == 45 {
      assert StateAt(45) == Some(Guard(Right, (1, 7)));
      assert StateAt(46) == Some(Guard(Right, (2, 7)));
    } else if k == 46 {
      assert StateAt(46) == Some(Guard(Right, (2, 7)));
      assert StateAt(47) == Some(Guard(Right, (3, 7)));
    } else if k == 47 {
      assert StateAt(47) == Some(Guard(Right, (3, 7)));
      assert StateAt(48) == Some(Guard(Right, (4, 7)));
    }
  }

  lemma StepsAgree48(k: nat)
    requires 48 <= k < 51
    ensures GuardInvariant(StateAt(k), (10, 10), SampleObstacles())
    ensures NextGuard(StateAt(k), (10, 10), SampleObstacles()) == StateAt(k + 1)
  {
    if k == 48 {
      assert StateAt(48) == Some(Guard(Right, (4, 7)));
      assert StateAt(49) == Some(Guard(Right, (5, 7)));
    } else if k == 49 {
      assert StateAt(49) == Some(Guard(Right, (5, 7)));
      assert StateAt(50) == Some(Guard(Right, (6, 7)));
    } else if k == 50 {
      assert StateAt(50) == Some(Guard(Right, (6, 7)));
      assert StateAt(51) == Some(Guard(Right, (7, 7)));
    }
  }

  lemma StepsAgree51(k: nat)
    requires 51 <= k < 54
    ensures GuardInvariant(StateAt(k), (10, 10), SampleObstacles())
    ensures NextGuard(StateAt(k), (10, 10), SampleObstacles()) == StateAt(k + 1)
  {
    if k == 51 {
      assert StateAt(51) == Some(Guard(Right, (7, 7)));
      assert StateAt(52) == Some(Guard(Down, (7, 7)));
    } else if k == 52 {
      assert StateAt(52) == Some(Guard(Down, (7, 7)));
      assert StateAt(53) == Some(Guard(Down, (7, 8)));
    } else if k == 53 {
      assert StateAt(53) == Some(Guard(Down, (7, 8)));
      assert StateAt(54) == Some(Guard(Down, (7, 9)));
    }
  }

  lemma StepsAgree54(k: nat)
    requires 54 <= k < 55
    ensures GuardInvariant(StateAt(k), (10, 10), SampleObstacles())
    ensures NextGuard(StateAt(k), (10, 10), SampleObstacles()) == StateAt(k + 1)
  {
    if k == 54 {
      assert StateAt(54) == Some(Guard(Down, (7, 9)));
      assert StateAt(55) == None;
    }
  }

  lemma StepsAgree(k: nat)
    requires k < 55
    ensures GuardInvariant(StateAt(k), (10, 10), SampleObstacles())
    ensures NextGuard(StateAt(k), (10, 10), SampleObstacles()) == StateAt(k + 1)
  {
    if k < 3 { StepsAgree0(k); }
    else if k < 6 { StepsAgree3(k); }
    else if k < 9 { StepsAgree6(k); }
    else if k < 12 { StepsAgree9(k); }
    else if k < 15 { StepsAgree12(k); }
    else if k < 18 { StepsAgree15(k); }
    else if k < 21 { StepsAgree18(k); }
    else if k < 24 { StepsAgree21(k); }
    else if k < 27 { StepsAgree24(k); }
    else if k < 30 { StepsAgree27(k); }
    else if k < 33 { StepsAgree30(k); }
    else if k < 36 { StepsAgree33(k); }
    else if k < 39 { StepsAgree36(k); }
    else if k < 42 { StepsAgree39(k); }
    else if k < 45 { StepsAgree42(k); }
    else if k < 48 { StepsAgree45(k); }
    else if k < 51 { StepsAgree48(k); }
    else if k < 54 { StepsAgree51(k); }
    else { StepsAgree54(k); }
  }

  /** The guard after k calls is the one the k-th expected item describes. */
  lemma {:induction false} GuardsAlong(k: nat)
    requires k <= 55
    ensures GuardInvariant(StateAt(0), (10, 10), SampleObstacles())
    ensures GuardAfter(StateAt(0), (10, 10), SampleObstacles(), k) == StateAt(k)
  {
    StepsAgree(0);
    if k > 0 {
      GuardsAlong(k - 1);
      StepsAgree(k - 1);
      GuardAfterSnoc(StateAt(0), (10, 10), SampleObstacles(), k - 1);
    }
  }

  /** The iterator yields exactly the `n` = 55 items the test expects, then
    * stops. */
  lemma SampleWalk(n: nat)
    requires n == 55
    ensures GuardInvariant(SampleMap().guard, (10, 10), SampleMap().obstacles)
    ensures Trace(SampleMap().guard, (10, 10), SampleMap().obstacles, n) == SampleTrace()
    ensures GuardAfter(SampleMap().guard, (10, 10), SampleMap().obstacles, n).None?
  {
    var g0 := SampleMap().guard;
    assert g0 == StateAt(0);
    GuardsAlong(n - 1);
    GuardsAlong(n);
    TraceLength(g0, (10, 10), SampleObstacles(), n);
    var t := Trace(g0, (10, 10), SampleObstacles(), n);
    forall i | 0 <= i < n
      ensures t[i] == SampleTrace()[i]
    {
      TraceAt(g0, (10, 10), SampleObstacles(), n, i);
      GuardsAlong(i);
      ItemAtTrace(i);
    }
  }

  /** The 41 visited cells, ordered by row and then by column. */
  function SampleCells(): seq<(nat, nat)>
  {
    CellsPart0() + CellsPart1() + CellsPart2() + CellsPart3()
  }

  function CellsPart0(): seq<(nat, nat)>
  {
    [(4, 1), (5, 1), (6, 1), (7, 1), (8, 1), (4, 2), (8, 2), (4, 3), (8, 3), (2, 4), (3, 4)]
  }

  function CellsPart1(): seq<(nat, nat)>
  {
    [(4, 4), (5, 4), (6, 4), (8, 4), (2, 5), (4, 5), (6, 5), (8, 5), (2, 6), (3, 6), (4, 6)]
  }

  function CellsPart2(): seq<(nat, nat)>
  {
    [(5, 6), (6, 6), (7, 6), (8, 6), (1, 7), (2, 7), (3, 7), (4, 7), (5, 7), (6, 7), (7, 7)]
  }

  function CellsPart3(): seq<(nat, nat)>
  {
    [(1, 8), (2, 8), (3, 8), (4, 8), (5, 8), (6, 8), (7, 8), (7, 9)]
  }


  function CellKey(c: (nat, nat)): nat
  {
    c.1 * 10 + c.0
  }

  /** Each cell's key is below the next one's. */
  predicate KeysIncrease(u: seq<(nat, nat)>)
  {
    forall i :: 0 <= i < |u| - 1 ==> CellKey(u[i]) < CellKey(u[i + 1])
  }

  lemma {:induction false} KeysIncreaseAppend(a: seq<(nat, nat)>, b: seq<(nat, nat)>)
    requires KeysIncrease(a) && KeysIncrease(b)
    requires a != [] && b != [] && CellKey(a[|a| - 1]) < CellKey(b[0])
    ensures KeysIncrease(a + b)
  {
    var u := a + b;
    forall i | 0 <= i < |u| - 1
      ensures CellKey(u[i]) < CellKey(u[i + 1])
    {
      if i < |a| - 1 {
        assert u[i] == a[i] && u[i + 1] == a[i + 1];
      } else if i == |a| - 1 {
        assert u[i] == a[i] && u[i + 1] == b[0];
      } else {
        assert u[i] == b[i - |a|] && u[i + 1] == b[i + 1 - |a|];
      }
    }
  }

  lemma CellsPart0Sorted()
    ensures KeysIncrease(CellsPart0())
  {
    var u := CellsPart0();
    forall i | 0 <= i < |u| - 1
      ensures CellKey(u[i]) < CellKey(u[i + 1])
    {
      if i == 0 { assert u[0] == (4, 1) && u[1] == (5, 1); }
      else if i == 1 { assert u[1] == (5, 1) && u[2] == (6, 1); }
      else if i == 2 { assert u[2] == (6, 1) && u[3] == (7, 1); }
      else if i == 3 { assert u[3] == (7, 1) && u[4] == (8, 1); }
      else if i == 4 { assert u[4] == (8, 1) && u[5] == (4, 2); }
      else if i == 5 { assert u[5] == (4, 2) && u[6] == (8, 2); }
      else if i == 6 { assert u[6] == (8, 2) && u[7] == (4, 3); }
      else if i == 7 { assert u[7] == (4, 3) && u[8] == (8, 3); }
      else if i == 8 { assert u[8] == (8, 3) && u[9] == (2, 4); }
      else if i == 9 { assert u[9] == (2, 4) && u[10] == (3, 4); }
    }
  }

  lemma CellsPart1Sorted()
    ensures KeysIncrease(CellsPart1())
  {
    var u := CellsPart1();
    forall i | 0 <= i < |u| - 1
      ensures CellKey(u[i]) < CellKey(u[i + 1])
    {
      if i == 0 { assert u[0] == (4, 4) && u[1] == (5, 4); }
      else if i == 1 { assert u[1] == (5, 4) && u[2] == (6, 4); }
      else if i == 2 { assert u[2] == (6, 4) && u[3] == (8, 4); }
      else if i == 3 { assert u[3] == (8, 4) && u[4] == (2, 5); }
      else if i == 4 { assert u[4] == (2, 5) && u[5] == (4, 5); }
      else if i == 5 { assert u[5] == (4, 5) && u[6] == (6, 5); }
      else if i == 6 { assert u[6] == (6, 5) && u[7] == (8, 5); }
      else if i == 7 { assert u[7] == (8, 5) && u[8] == (2, 6); }
      else if i == 8 { assert u[8] == (2, 6) && u[9] == (3, 6); }
      else if i == 9 { assert u[9] == (3, 6) && u[10] == (4, 6); }
    }
  }

  lemma CellsPart2Sorted()
    ensures KeysIncrease(CellsPart2())
  {
    var u := CellsPart2();
    forall i | 0 <= i < |u| - 1
      ensures CellKey(u[i]) < CellKey(u[i + 1])
    {
      if i == 0 { assert u[0] == (5, 6) && u[1] == (6, 6); }
      else if i == 1 { assert u[1] == (6, 6) && u[2] == (7, 6); }
      else if i == 2 { assert u[2] == (7, 6) && u[3] == (8, 6); }
      else if i == 3 { assert u[3] == (8, 6) && u[4] == (1, 7); }
      else if i == 4 { assert u[4] == (1, 7) && u[5] == (2, 7); }
      else if i == 5 { assert u[5] == (2, 7) && u[6] == (3, 7); }
      else if i == 6 { assert u[6] == (3, 7) && u[7] == (4, 7); }
      else if i == 7 { assert u[7] == (4, 7) && u[8] == (5, 7); }
      else if i == 8 { assert u[8] == (5, 7) && u[9] == (6, 7); }
      else if i == 9 { assert u[9] == (6, 7) && u[10] == (7, 7); }
    }
  }

  lemma CellsPart3Sorted()
    ensures KeysIncrease(CellsPart3())
  {
    var u := CellsPart3();
    forall i | 0 <= i < |u| - 1
      ensures CellKey(u[i]) < CellKey(u[i + 1])
    {
      if i == 0 { assert u[0] == (1, 8) && u[1] == (2, 8); }
      else if i == 1 { assert u[1] == (2, 8) && u[2] == (3, 8); }
      else if i == 2 { assert u[2] == (3, 8) && u[3] == (4, 8); }
      else if i == 3 { assert u[3] == (4, 8) && u[4] == (5, 8); }
      else if i == 4 { assert u[4] == (5, 8) && u[5] == (6, 8); }
      else if i == 5 { assert u[5] == (6, 8) && u[6] == (7, 8); }
      else if i == 6 { assert u[6] == (7, 8) && u[7] == (7, 9); }
    }
  }

  lemma SampleCellsSorted()
    ensures |SampleCells()| == 41 && KeysIncrease(SampleCells())
  {
    CellsPart0Sorted();
    CellsPart1Sorted();
    CellsPart2Sorted();
    CellsPart3Sorted();
    var c0, c1, c2, c3 := CellsPart0(), CellsPart1(), CellsPart2(), CellsPart3();
    assert (c0)[|c0| - 1] == (3, 4) && c1[0] == (4, 4);
    KeysIncreaseAppend(c0, c1);
    assert (c0 + c1)[|c0 + c1| - 1] == (4, 6) && c2[0] == (5, 6);
    KeysIncreaseAppend(c0 + c1, c2);
    assert (c0 + c1 + c2)[|c0 + c1 + c2| - 1] == (7, 7) && c3[0] == (1, 8);
    KeysIncreaseAppend(c0 + c1 + c2, c3);
  }

  lemma SplitLast(u: seq<(nat, nat)>)
    requires u != []
    ensures u == u[..|u| - 1] + [u[|u| - 1]]
  {
  }

  lemma CellSetSnoc(init: seq<(nat, nat)>, last: (nat, nat))
    ensures (set c | c in init + [last]) == (set c | c in init) + {last}
  {
  }

  /** A sequence whose keys strictly increase has as many distinct elements as entries. */
  lemma {:induction false} SortedCellsCount(u: seq<(nat, nat)>)
    requires KeysIncrease(u)
    ensures |(set c | c in u)| == |u|
  {
    if u != [] {
      var init := u[..|u| - 1];
      var last := u[|u| - 1];
      SplitLast(u);
      assert KeysIncrease(init) by {
        forall i | 0 <= i < |init| - 1 ensures CellKey(init[i]) < CellKey(init[i + 1]) {
          assert init[i] == u[i] && init[i + 1] == u[i + 1];
        }
      }
      SortedCellsCount(init);
      forall i | 0 <= i < |init| ensures init[i] != last {
        SortedBelow(u, i);
      }
      CellSetSnoc(init, last);
    }
  }

  lemma {:induction false} SortedBelow(u: seq<(nat, nat)>, i: nat)
    requires KeysIncrease(u)
    requires i < |u| - 1
    ensures CellKey(u[i]) < CellKey(u[|u| - 1])
    decreases |u| - i
  {
    if i < |u| - 2 {
      SortedBelow(u, i + 1);
    }
  }

  lemma TracePart0Listed(j: nat)
    requires j < 11
    ensures (TracePart0()[j].0, TracePart0()[j].1) in SampleCells()
  {
    if j == 0 { assert TracePart0()[0] == (4, 6, Up) && CellsPart1()[10] == (4, 6); }
    else if j == 1 { assert TracePart0()[1] == (4, 5, Up) && CellsPart1()[5] == (4, 5); }
    else if j == 2 { assert TracePart0()[2] == (4, 4, Up) && CellsPart1()[0] == (4, 4); }
    else if j == 3 { assert TracePart0()[3] == (4, 3, Up) && CellsPart0()[7] == (4, 3); }
    else if j == 4 { assert TracePart0()[4] == (4, 2, Up) && CellsPart0()[5] == (4, 2); }
    else if j == 5 { assert TracePart0()[5] == (4, 1, Up) && CellsPart0()[0] == (4, 1); }
    else if j == 6 { assert TracePart0()[6] == (4, 1, Right) && CellsPart0()[0] == (4, 1); }
    else if j == 7 { assert TracePart0()[7] == (5, 1, Right) && CellsPart0()[1] == (5, 1); }
    else if j == 8 { assert TracePart0()[8] == (6, 1, Right) && CellsPart0()[2] == (6, 1); }
    else if j == 9 { assert TracePart0()[9] == (7, 1, Right) && CellsPart0()[3] == (7, 1); }
    else if j == 10 { assert TracePart0()[10] == (8, 1, Right) && CellsPart0()[4] == (8, 1); }
  }

  lemma TracePart1Listed(j: nat)
    requires j < 11
    ensures (TracePart1()[j].0, TracePart1()[j].1) in SampleCells()
  {
    if j == 0 { assert TracePart1()[0] == (8, 1, Down) && CellsPart0()[4] == (8, 1); }
    else if j == 1 { assert TracePart1()[1] == (8, 2, Down) && CellsPart0()[6] == (8, 2); }
    else if j == 2 { assert TracePart1()[2] == (8, 3, Down) && CellsPart0()[8] == (8, 3); }
    else if j == 3 { assert TracePart1()[3] == (8, 4, Down) && CellsPart1()[3] == (8, 4); }
    else if j == 4 { assert TracePart1()[4] == (8, 5, Down) && CellsPart1()[7] == (8, 5); }
    else if j == 5 { assert TracePart1()[5] == (8, 6, Down) && CellsPart2()[3] == (8, 6); }
    else if j == 6 { assert TracePart1()[6] == (8, 6, Left) && CellsPart2()[3] == (8, 6); }
    else if j == 7 { assert TracePart1()[7] == (7, 6, Left) && CellsPart2()[2] == (7, 6); }
    else if j == 8 { assert TracePart1()[8] == (6, 6, Left) && CellsPart2()[1] == (6, 6); }
    else if j == 9 { assert TracePart1()[9] == (5, 6, Left) && CellsPart2()[0] == (5, 6); }
    else if j == 10 { assert TracePart1()[10] == (4, 6, Left) && CellsPart1()[10] == (4, 6); }
  }

  lemma TracePart2Listed(j: nat)
    requires j < 11
    ensures (TracePart2()[j].0, TracePart2()[j].1) in SampleCells()
  {
    if j == 0 { assert TracePart2()[0] == (3, 6, Left) && CellsPart1()[9] == (3, 6); }
    else if j == 1 { assert TracePart2()[1] == (2, 6, Left) && CellsPart1()[8] == (2, 6); }
    else if j == 2 { assert TracePart2()[2] == (2, 6, Up) && CellsPart1()[8] == (2, 6); }
    else if j == 3 { assert TracePart2()[3] == (2, 5, Up) && CellsPart1()[4] == (2, 5); }
    else if j == 4 { assert TracePart2()[4] == (2, 4, Up) && CellsPart0()[9] == (2, 4); }
    else if j == 5 { assert TracePart2()[5] == (2, 4, Right) && CellsPart0()[9] == (2, 4); }
    else if j == 6 { assert TracePart2()[6] == (3, 4, Right) && CellsPart0()[10] == (3, 4); }
    else if j == 7 { assert TracePart2()[7] == (4, 4, Right) && CellsPart1()[0] == (4, 4); }
    else if j == 8 { assert TracePart2()[8] == (5, 4, Right) && CellsPart1()[1] == (5, 4); }
    else if j == 9 { assert TracePart2()[9] == (6, 4, Right) && CellsPart1()[2] == (6, 4); }
    else if j == 10 { assert TracePart2()[10] == (6, 4, Down) && CellsPart1()[2] == (6, 4); }
  }

  lemma TracePart3Listed(j: nat)
    requires j < 11
    ensures (TracePart3()[j].0, TracePart3()[j].1) in SampleCells()
  {
    if j == 0 { assert TracePart3()[0] == (6, 5, Down) && CellsPart1()[6] == (6, 5); }
    else if j == 1 { assert TracePart3()[1] == (6, 6, Down) && CellsPart2()[1] == (6, 6); }
    else if j == 2 { assert TracePart3()[2] == (6, 7, Down) && CellsPart2()[9] == (6, 7); }
    else if j == 3 { assert TracePart3()[3] == (6, 8, Down) && CellsPart3()[5] == (6, 8); }
    else if j == 4 { assert TracePart3()[4] == (6, 8, Left) && CellsPart3()[5] == (6, 8); }
    else if j == 5 { assert TracePart3()[5] == (5, 8, Left) && CellsPart3()[4] == (5, 8); }
    else if j == 6 { assert TracePart3()[6] == (4, 8, Left) && CellsPart3()[3] == (4, 8); }
    else if j == 7 { assert TracePart3()[7] == (3, 8, Left) && CellsPart3()[2] == (3, 8); }
    else if j == 8 { assert TracePart3()[8] == (2, 8, Left) && CellsPart3()[1] == (2, 8); }
    else if j == 9 { assert TracePart3()[9] == (1, 8, Left) && CellsPart3()[0] == (1, 8); }
    else if j == 10 { assert TracePart3()[10] == (1, 8, Up) && CellsPart3()[0] == (1, 8); }
  }

  lemma TracePart4Listed(j: nat)
    requires j < 11
    ensures (TracePart4()[j].0, TracePart4()[j].1) in SampleCells()
  {
    if j == 0 { assert TracePart4()[0] == (1, 7, Up) && CellsPart2()[4] == (1, 7); }
    else if j == 1 { assert TracePart4()[1] == (1, 7, Right) && CellsPart2()[4] == (1, 7); }
    else if j == 2 { assert TracePart4()[2] == (2, 7, Right) && CellsPart2()[5] == (2, 7); }
    else if j == 3 { assert TracePart4()[3] == (3, 7, Right) && CellsPart2()[6] == (3, 7); }
    else if j == 4 { assert TracePart4()[4] == (4, 7, Right) && CellsPart2()[7] == (4, 7); }
    else if j == 5 { assert TracePart4()[5] == (5, 7, Right) && CellsPart2()[8] == (5, 7); }
    else if j == 6 { assert TracePart4()[6] == (6, 7, Right) && CellsPart2()[9] == (6, 7); }
    else if j == 7 { assert TracePart4()[7] == (7, 7, Right) && CellsPart2()[10] == (7, 7); }
    else if j == 8 { assert TracePart4()[8] == (7, 7, Down) && CellsPart2()[10] == (7, 7); }
    else if j == 9 { assert TracePart4()[9] == (7, 8, Down) && CellsPart3()[6] == (7, 8); }
    else if j == 10 { assert TracePart4()[10] == (7, 9, Down) && CellsPart3()[7] == (7, 9); }
  }

  lemma TraceCellListed(i: nat)
    requires i < 55
    ensures (SampleTrace()[i].0, SampleTrace()[i].1) in SampleCells()
  {
    ItemAtTrace(i);
    if i < 11 { TracePart0Listed(i); }
    else if i < 22 { TracePart1Listed(i - 11); }
    else if i < 33 { TracePart2Listed(i - 22); }
    else if i < 44 { TracePart3Listed(i - 33); }
    else { TracePart4Listed(i - 44); }
  }

  lemma ItemVisited(k: nat)
    requires k < 55
    ensures (ItemAt(k).0, ItemAt(k).1) in Positions(SampleTrace())
  {
    ItemAtTrace(k);
  }

  lemma CellsPart0Visited(j: nat)
    requires j < 11
    ensures CellsPart0()[j] in Positions(SampleTrace())
  {
    if j == 0 { ItemVisited(5); assert CellsPart0()[0] == (4, 1) && ItemAt(5) == (4, 1, Up); }
    else if j == 1 { ItemVisited(7); assert CellsPart0()[1] == (5, 1) && ItemAt(7) == (5, 1, Right); }
    else if j == 2 { ItemVisited(8); assert CellsPart0()[2] == (6, 1) && ItemAt(8) == (6, 1, Right); }
    else if j == 3 { ItemVisited(9); assert CellsPart0()[3] == (7, 1) && ItemAt(9) == (7, 1, Right); }
    else if j == 4 { ItemVisited(10); assert CellsPart0()[4] == (8, 1) && ItemAt(10) == (8, 1, Right); }
    else if j == 5 { ItemVisited(4); assert CellsPart0()[5] == (4, 2) && ItemAt(4) == (4, 2, Up); }
    else if j == 6 { ItemVisited(12); assert CellsPart0()[6] == (8, 2) && ItemAt(12) == (8, 2, Down); }
    else if j == 7 { ItemVisited(3); assert CellsPart0()[7] == (4, 3) && ItemAt(3) == (4, 3, Up); }
    else if j == 8 { ItemVisited(13); assert CellsPart0()[8] == (8, 3) && ItemAt(13) == (8, 3, Down); }
    else if j == 9 { ItemVisited(26); assert CellsPart0()[9] == (2, 4) && ItemAt(26) == (2, 4, Up); }
    else if j == 10 { ItemVisited(28); assert CellsPart0()[10] == (3, 4) && ItemAt(28) == (3, 4, Right); }
  }

  lemma CellsPart1Visited(j: nat)
    requires j < 11
    ensures CellsPart1()[j] in Positions(SampleTrace())
  {
    if j == 0 { ItemVisited(2); assert CellsPart1()[0] == (4, 4) && ItemAt(2) == (4, 4, Up); }
    else if j == 1 { ItemVisited(30); assert CellsPart1()[1] == (5, 4) && ItemAt(30) == (5, 4, Right); }
    else if j == 2 { ItemVisited(31); assert CellsPart1()[2] == (6, 4) && ItemAt(31) == (6, 4, Right); }
    else if j == 3 { ItemVisited(14); assert CellsPart1()[3] == (8, 4) && ItemAt(14) == (8, 4, Down); }
    else if j == 4 { ItemVisited(25); assert CellsPart1()[4] == (2, 5) && ItemAt(25) == (2, 5, Up); }
    else if j == 5 { ItemVisited(1); assert CellsPart1()[5] == (4, 5) && ItemAt(1) == (4, 5, Up); }
    else if j == 6 { ItemVisited(33); assert CellsPart1()[6] == (6, 5) && ItemAt(33) == (6, 5, Down); }
    else if j == 7 { ItemVisited(15); assert CellsPart1()[7] == (8, 5) && ItemAt(15) == (8, 5, Down); }
    else if j == 8 { ItemVisited(23); assert CellsPart1()[8] == (2, 6) && ItemAt(23) == (2, 6, Left); }
    else if j == 9 { ItemVisited(22); assert CellsPart1()[9] == (3, 6) && ItemAt(22) == (3, 6, Left); }
    else if j == 10 { ItemVisited(0); assert CellsPart1()[10] == (4, 6) && ItemAt(0) == (4, 6, Up); }
  }

  lemma CellsPart2Visited(j: nat)
    requires j < 11
    ensures CellsPart2()[j] in Positions(SampleTrace())
  {
    if j == 0 { ItemVisited(20); assert CellsPart2()[0] == (5, 6) && ItemAt(20) == (5, 6, Left); }
    else if j == 1 { ItemVisited(19); assert CellsPart2()[1] == (6, 6) && ItemAt(19) == (6, 6, Left); }
    else if j == 2 { ItemVisited(18); assert CellsPart2()[2] == (7, 6) && ItemAt(18) == (7, 6, Left); }
    else if j == 3 { ItemVisited(16); assert CellsPart2()[3] == (8, 6) && ItemAt(16) == (8, 6, Down); }
    else if j == 4 { ItemVisited(44); assert CellsPart2()[4] == (1, 7) && ItemAt(44) == (1, 7, Up); }
    else if j == 5 { ItemVisited(46); assert CellsPart2()[5] == (2, 7) && ItemAt(46) == (2, 7, Right); }
    else if j == 6 { ItemVisited(47); assert CellsPart2()[6] == (3, 7) && ItemAt(47) == (3, 7, Right); }
    else if j == 7 { ItemVisited(48); assert CellsPart2()[7] == (4, 7) && ItemAt(48) == (4, 7, Right); }
    else if j == 8 { ItemVisited(49); assert CellsPart2()[8] == (5, 7) && ItemAt(49) == (5, 7, Right); }
    else if j == 9 { ItemVisited(35); assert CellsPart2()[9] == (6, 7) && ItemAt(35) == (6, 7, Down); }
    else if j == 10 { ItemVisited(51); assert CellsPart2()[10] == (7, 7) && ItemAt(51) == (7, 7, Right); }
  }

  lemma CellsPart3Visited(j: nat)
    requires j < 8
    ensures CellsPart3()[j] in Positions(SampleTrace())
  {
    if j == 0 { ItemVisited(42); assert CellsPart3()[0] == (1, 8) && ItemAt(42) == (1, 8, Left); }
    else if j == 1 { ItemVisited(41); assert CellsPart3()[1] == (2, 8) && ItemAt(41) == (2, 8, Left); }
    else if j == 2 { ItemVisited(40); assert CellsPart3()[2] == (3, 8) && ItemAt(40) == (3, 8, Left); }
    else if j == 3 { ItemVisited(39); assert CellsPart3()[3] == (4, 8) && ItemAt(39) == (4, 8, Left); }
    else if j == 4 { ItemVisited(38); assert CellsPart3()[4] == (5, 8) && ItemAt(38) == (5, 8, Left); }
    else if j == 5 { ItemVisited(36); assert CellsPart3()[5] == (6, 8) && ItemAt(36) == (6, 8, Down); }
    else if j == 6 { ItemVisited(53); assert CellsPart3()[6] == (7, 8) && ItemAt(53) == (7, 8, Down); }
    else if j == 7 { ItemVisited(54); assert CellsPart3()[7] == (7, 9) && ItemAt(54) == (7, 9, Down); }
  }

  /** The j-th visited cell, read from the part that holds it. */
  function CellAt(j: nat): (nat, nat)
    requires j < 41
  {
    if j < 11 then CellsPart0()[j]
    else if j < 22 then CellsPart1()[j - 11]
    else if j < 33 then CellsPart2()[j - 22]
    else CellsPart3()[j - 33]
  }

  lemma CellAtCells(j: nat)
    requires j < 41
    ensures |SampleCells()| == 41 && CellAt(j) == SampleCells()[j]
  {
  }

  lemma CellVisited(j: nat)
    requires j < 41
    ensures SampleCells()[j] in Positions(SampleTrace())
  {
    CellAtCells(j);
    if j < 11 { CellsPart0Visited(j); }
    else if j < 22 { CellsPart1Visited(j - 11); }
    else if j < 33 { CellsPart2Visited(j - 22); }
    else { CellsPart3Visited(j - 33); }
  }

  lemma SamplePositions()
    ensures |Positions(SampleTrace())| == 41
  {
    var t, u := SampleTrace(), SampleCells();
    forall q | q in Positions(t) ensures q in u {
      var i :| 0 <= i < |t| && q == (t[i].0, t[i].1);
      TraceCellListed(i);
    }
    forall q | q in u ensures q in Positions(t) {
      var j :| 0 <= j < |u| && u[j] == q;
      CellVisited(j);
    }
    assert Positions(t) == (set c | c in u);
    SampleCellsSorted();
    SortedCellsCount(u);
  }


  /** `count_positions` on the sample: 41 distinct cells, whatever budget of
    * at least 55 calls is allowed. */
  lemma SampleCount(fuel: nat)
    requires fuel >= 55
    ensures GuardInvariant(SampleMap().guard, (10, 10), SampleMap().obstacles)
    ensures CountWithin(SampleMap(), fuel) == Some(41)
  {
    var n := 55;
    SampleWalk(n);
    var p := SampleMap();
    GoneStaysGone(p.guard, p.size, p.obstacles, n, fuel);
    SamplePositions();
  }

  /** The ten rows of the test map; the test text is them joined by `\n`. */
  function SampleRows(): seq<string>
  {
    ["....#.....",
     ".........#",
     "..........",
     "..#.......",
     ".......#..",
     "..........",
     ".#..^.....",
     "........#.",
     "#.........",
     "......#..."]
  }

  lemma SampleRowShapes()
    ensures |SampleRows()| == 10
    ensures forall y :: 0 <= y < 10 ==> RustText.IsLine(SampleRows()[y]) && |SampleRows()[y]| == 10
  {
  }

  lemma {:induction false} MarkerCountPrefix(rows: seq<string>, k: nat)
    requires k < |rows|
    ensures MarkerCount(rows[..k + 1]) == MarkerCount(rows[..k]) + LineMarkers(rows[k])
  {
    assert rows[..k + 1][..k] == rows[..k];
  }

  lemma {:induction false} GridObstaclesPrefix(rows: seq<string>, k: nat)
    requires k < |rows|
    ensures GridObstacles(rows[..k + 1]) == GridObstacles(rows[..k]) + LineObstacles(rows[k], k)
  {
    LineObstaclesOfPrefix(rows[..k + 1]);
    assert rows[..k + 1][..k] == rows[..k];
  }

  /** A line with one `#` cell. */
  lemma LineObstacleAt(line: string, y: nat, x0: nat)
    requires x0 < |line| && line[x0] == '#'
    requires forall x :: 0 <= x < |line| && line[x] == '#' ==> x == x0
    ensures LineObstacles(line, y) == {(x0, y)}
  {
  }

  /** A line without `#`. */
  lemma LineWithoutObstacle(line: string, y: nat)
    requires '#' !in line
    ensures LineObstacles(line, y) == {}
  {
    forall x | 0 <= x < |line| ensures line[x] != '#' {
      assert line[x] in line;
    }
  }

  /** Only row 6 draws the guard, with one `^`. */
  lemma SampleRowMarkers(y: nat)
    requires y < 10
    ensures LineMarkers(SampleRows()[y]) == if y == 6 then 1 else 0
  {
    if y < 5 { UpperRowMarkers(y); } else { LowerRowMarkers(y); }
  }

  lemma UpperRowMarkers(y: nat)
    requires 0 <= y < 5
    ensures LineMarkers(SampleRows()[y]) == if y == 6 then 1 else 0
  {
    if y == 0 { assert SampleRows()[0] == "....#....."; }
    else if y == 1 { assert SampleRows()[1] == ".........#"; }
    else if y == 2 { assert SampleRows()[2] == ".........."; }
    else if y == 3 { assert SampleRows()[3] == "..#......."; }
    else if y == 4 { assert SampleRows()[4] == ".......#.."; }
  }

  lemma LowerRowMarkers(y: nat)
    requires 5 <= y < 10
    ensures LineMarkers(SampleRows()[y]) == if y == 6 then 1 else 0
  {
    if y == 5 { assert SampleRows()[5] == ".........."; }
    else if y == 6 { assert SampleRows()[6] == ".#..^....."; }
    else if y == 7 { assert SampleRows()[7] == "........#."; }
    else if y == 8 { assert SampleRows()[8] == "#........."; }
    else if y == 9 { assert SampleRows()[9] == "......#..."; }
  }

  /** The `#` cells of row `y` of the test map. */
  function RowObstacles(y: nat): set<(nat, nat)>
  {
    if y == 0 then {(4, 0)}
    else if y == 1 then {(9, 1)}
    else if y == 2 then {}
    else if y == 3 then {(2, 3)}
    else if y == 4 then {(7, 4)}
    else if y == 5 then {}
    else if y == 6 then {(1, 6)}
    else if y == 7 then {(8, 7)}
    else if y == 8 then {(0, 8)}
    else {(6, 9)}
  }

  lemma SampleRowObstacles(y: nat)
    requires y < 10
    ensures LineObstacles(SampleRows()[y], y) == RowObstacles(y)
  {
    var r := SampleRows();
    if y == 0 { assert r[0] == "....#....."; LineObstacleAt(r[0], 0, 4); }
    else if y == 1 { assert r[1] == ".........#"; LineObstacleAt(r[1], 1, 9); }
    else if y == 2 { assert r[2] == ".........."; LineWithoutObstacle(r[2], 2); }
    else if y == 3 { assert r[3] == "..#......."; LineObstacleAt(r[3], 3, 2); }
    else if y == 4 { assert r[4] == ".......#.."; LineObstacleAt(r[4], 4, 7); }
    else if y == 5 { assert r[5] == ".........."; LineWithoutObstacle(r[5], 5); }
    else if y == 6 { assert r[6] == ".#..^....."; LineObstacleAt(r[6], 6, 1); }
    else if y == 7 { assert r[7] == "........#."; LineObstacleAt(r[7], 7, 8); }
    else if y == 8 { assert r[8] == "#........."; LineObstacleAt(r[8], 8, 0); }
    else if y == 9 { assert r[9] == "......#..."; LineObstacleAt(r[9], 9, 6); }
  }

  /** Summed over the first `k` rows: the guard is the only marker, in row 6. */
  lemma {:induction false} SampleMarkersUpTo(k: nat)
    requires k <= 10
    ensures MarkerCount(SampleRows()[..k]) == if k > 6 then 1 else 0
  {
    if k > 0 {
      SampleMarkersUpTo(k - 1);
      SampleRowShapes();
      MarkerCountPrefix(SampleRows(), k - 1);
      SampleRowMarkers(k - 1);
    }
  }

  /** The `#` cells of the first `k` rows. */
  function ObstaclesUpTo(k: nat): set<(nat, nat)>
  {
    if k == 0 then {} else ObstaclesUpTo(k - 1) + RowObstacles(k - 1)
  }

  lemma {:induction false} SampleObstaclesUpTo(k: nat)
    requires k <= 10
    ensures GridObstacles(SampleRows()[..k]) == ObstaclesUpTo(k)
  {
    if k > 0 {
      SampleObstaclesUpTo(k - 1);
      SampleRowShapes();
      GridObstaclesPrefix(SampleRows(), k - 1);
      SampleRowObstacles(k - 1);
    } else {
      assert SampleRows()[..0] == [];
    }
  }

  lemma SampleObstacleCells()
    ensures GridObstacles(SampleRows()) == SampleObstacles()
  {
    SampleObstaclesUpTo(10);
    SampleRowShapes();
    assert SampleRows()[..10] == SampleRows();
    assert ObstaclesUpTo(10) == SampleObstacles();
  }

  /** A guard drawn on the test map is the `^` at (4, 6). */
  lemma SampleGuardDrawn(g: Guard)
    requires GuardDrawn(SampleRows(), g)
    ensures g == Guard(Up, (4, 6))
  {
    var (x, y) := g.position;
    var r := SampleRows();
    SampleRowMarkers(y);
    assert r[y][x] in r[y];
    if y == 6 {
      assert r[6] == ".#..^.....";
    }
  }

  /** The parse test: the test text gives the guard at (4, 6) facing up, the
    * size 10 by 10, the eight obstacles and no iterations. */
  lemma ParseSample(text: string)
    requires text == RustText.Join(SampleRows(), "\n")
    ensures ParseMap(text) == Ok(SampleMap())
  {
    SampleRowShapes();
    RustText.LinesJoin(SampleRows());
    ParseSampleRows(text);
  }

  /** Any text whose lines are the ten rows parses to the test map. */
  lemma ParseSampleRows(text: string)
    requires RustText.Lines(text) == SampleRows()
    ensures ParseMap(text) == Ok(SampleMap())
  {
    var rows := SampleRows();
    assert |rows| == 10 && |rows[0]| == 10 && Rectangular(rows) by {
      SampleRowShapes();
    }
    assert MarkerCount(rows) == 1 by {
      SampleMarkersUpTo(10);
      assert rows[..10] == rows;
    }
    ParseMapSucceeds(text);
    ParseMapResult(text);
    var p := ParseMap(text).value;
    assert p.obstacles == SampleObstacles() by {
      SampleObstacleCells();
    }
    assert p.guard == Some(Guard(Up, (4, 6))) by {
      SampleGuardDrawn(p.guard.value);
    }
  }

  /** `count_positions` on the test text: the map parses to the test map,
    * whose walk visits 41 distinct cells. */
  lemma SampleTextCount(text: string, fuel: nat)
    requires text == RustText.Join(SampleRows(), "\n") && fuel >= 55
    ensures ParseMap(text) == Ok(SampleMap())
    ensures GuardInvariant(SampleMap().guard, (10, 10), SampleMap().obstacles)
    ensures CountWithin(SampleMap(), fuel) == Some(41)
  {
    ParseSample(text);
    SampleCount(fuel);
  }
}
