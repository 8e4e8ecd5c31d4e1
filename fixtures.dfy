/**
  The two weighted example graphs with known A* answers: the "longway round"
  graph, where node E is reached first from Start and later more cheaply
  from D, and the German city network from Saarbrücken (SB) to Würzburg (WB).
  For each, the tie-free run of the search is followed one iteration at a time.
 */
module Fixtures {
  import opened Wrappers
  import opened GraphRep
  import opened Forward

  // ---------------------------------------------------------------------
  // The "longway round" graph

  const LongAdj: map<string, set<string>> :=
    map["Start" := {"C", "E"}, "C" := {"D"}, "D" := {"E", "Goal"}, "E" := {"Goal"}, "Goal" := {}]

  const LongH: map<string, real> :=
    map["Start" := 0.0, "C" := 80.0, "D" := 50.0, "E" := 5.0, "Goal" := 0.0]

  const LongW: map<string, real> :=
    map["Start->C" := 16.0, "Start->E" := 90.0, "C->D" := 30.0,
        "D->E" := 40.0, "E->Goal" := 10.0, "D->Goal" := 300.0]

  /** The trees after each of the first five iterations. */
  const Long1 := Tree(map["Start" := None, "C" := Some("Start"), "E" := Some("Start")],
                      map["Start" := 0.0, "C" := 16.0, "E" := 90.0], {"C", "E"}, 1)
  const Long2 := Tree(map["Start" := None, "C" := Some("Start"), "E" := Some("Start"), "Goal" := Some("E")],
                      map["Start" := 0.0, "C" := 16.0, "E" := 90.0, "Goal" := 100.0], {"C", "Goal"}, 2)
  const Long3 := Tree(map["Start" := None, "C" := Some("Start"), "E" := Some("Start"), "Goal" := Some("E"), "D" := Some("C")],
                      map["Start" := 0.0, "C" := 16.0, "E" := 90.0, "Goal" := 100.0, "D" := 46.0], {"Goal", "D"}, 3)
  const Long4 := Tree(map["Start" := None, "C" := Some("Start"), "E" := Some("D"), "Goal" := Some("E"), "D" := Some("C")],
                      map["Start" := 0.0, "C" := 16.0, "E" := 86.0, "Goal" := 100.0, "D" := 46.0], {"Goal", "E"}, 4)
  const Long5 := Tree(map["Start" := None, "C" := Some("Start"), "E" := Some("D"), "Goal" := Some("E"), "D" := Some("C")],
                      map["Start" := 0.0, "C" := 16.0, "E" := 86.0, "Goal" := 96.0, "D" := 46.0], {"Goal"}, 5)

  /** The tree the run stops in: the goal extracted in the sixth iteration. */
  const LongEnd := Long5.(open := {}, iter := 6)

  /** The edge keys of the graph, spelled out. */
  lemma LongwayKeys()
    ensures EdgeName("Start", "C") == "Start->C" && EdgeName("Start", "E") == "Start->E"
    ensures EdgeName("C", "D") == "C->D" && EdgeName("D", "E") == "D->E"
    ensures EdgeName("E", "Goal") == "E->Goal" && EdgeName("D", "Goal") == "D->Goal"
  {
  }

  lemma LongwayGraphOk()
    ensures WeightedOk(LongAdj, LongH, LongW)
  {
    LongwayKeys();
  }

  /** Iteration 1: Start is the only open node; C and E join the tree below it. */
  lemma LongwayStep1()
    ensures forall c :: c in LongAdj["Start"] ==> EdgeName("Start", c) in LongW
    ensures Relax(LongW, Extracted(InitTree("Start"), "Start"), "Start", LongAdj["Start"]) == Long1
  {
    LongwayKeys();
    var t := Extracted(InitTree("Start"), "Start");
    var r := Relax(LongW, t, "Start", LongAdj["Start"]);
    assert (set c | c in LongAdj["Start"] && Improves(LongW, t, "Start", c)) == {"C", "E"};
    assert r.parent == Long1.parent;
    assert r.g == Long1.g;
  }

  /** Iteration 2: E (estimate 95) beats C (96); Goal joins below E at cost 100. */
  lemma LongwayStep2()
    ensures forall c :: c in LongAdj["E"] ==> EdgeName("E", c) in LongW
    ensures Relax(LongW, Extracted(Long1, "E"), "E", LongAdj["E"]) == Long2
  {
    LongwayKeys();
    var t := Extracted(Long1, "E");
    var r := Relax(LongW, t, "E", LongAdj["E"]);
    assert (set c | c in LongAdj["E"] && Improves(LongW, t, "E", c)) == {"Goal"};
    assert r.parent == Long2.parent;
    assert r.g == Long2.g;
  }

  /** Iteration 3: C (96) beats Goal (100); D joins below C at cost 46. */
  lemma LongwayStep3()
    ensures forall c :: c in LongAdj["C"] ==> EdgeName("C", c) in LongW
    ensures Relax(LongW, Extracted(Long2, "C"), "C", LongAdj["C"]) == Long3
  {
    LongwayKeys();
    var t := Extracted(Long2, "C");
    var r := Relax(LongW, t, "C", LongAdj["C"]);
    assert (set c | c in LongAdj["C"] && Improves(LongW, t, "C", c)) == {"D"};
    assert r.parent == Long3.parent;
    assert r.g == Long3.g;
  }

  /** Iteration 4: D (96) beats Goal (100); E is re-parented to D at cost 86, Goal keeps 100 over 346. */
  lemma LongwayStep4()
    ensures forall c :: c in LongAdj["D"] ==> EdgeName("D", c) in LongW
    ensures Relax(LongW, Extracted(Long3, "D"), "D", LongAdj["D"]) == Long4
  {
    LongwayKeys();
    var t := Extracted(Long3, "D");
    var r := Relax(LongW, t, "D", LongAdj["D"]);
    assert Improves(LongW, t, "D", "E") && !Improves(LongW, t, "D", "Goal");
    assert (set c | c in LongAdj["D"] && Improves(LongW, t, "D", c)) == {"E"};
    assert r.parent == Long3.parent["E" := Some("D")] == Long4.parent;
    assert r.g == Long3.g["E" := 86.0] == Long4.g;
  }

  /** Iteration 5: E (91) beats Goal (100); Goal is re-parented to E at cost 96. */
  lemma LongwayStep5()
    ensures forall c :: c in LongAdj["E"] ==> EdgeName("E", c) in LongW
    ensures Relax(LongW, Extracted(Long4, "E"), "E", LongAdj["E"]) == Long5
  {
    LongwayKeys();
    var t := Extracted(Long4, "E");
    var r := Relax(LongW, t, "E", LongAdj["E"]);
    assert (set c | c in LongAdj["E"] && Improves(LongW, t, "E", c)) == {"Goal"};
    assert r.parent == Long5.parent;
    assert r.g == Long5.g;
  }

  /*
    `LongwayChainK` carries the run through iteration K: the extracted node is
    the one best open node and not the goal, so the run from the tree before
    the iteration is the run from the tree after it with one iteration less.
  */
  lemma LongwayChain1(fuel: nat, rest: nat)
    requires fuel == rest + 1 && WeightedOk(LongAdj, LongH, LongW) && TreeOk(LongAdj, InitTree("Start"))
    ensures TreeOk(LongAdj, Long1)
    ensures Run(LongAdj, LongH, LongW, "Goal", InitTree("Start"), fuel) == Run(LongAdj, LongH, LongW, "Goal", Long1, rest)
    ensures TieFree(LongAdj, LongH, LongW, "Goal", InitTree("Start"), fuel) == TieFree(LongAdj, LongH, LongW, "Goal", Long1, rest)
  {
    assert UniqueBest(InitTree("Start"), LongH, "Start");
    LongwayStep1();
    UniqueStep(LongAdj, LongH, LongW, "Goal", InitTree("Start"), fuel, rest, "Start", Long1);
  }

  lemma LongwayChain2(fuel: nat, rest: nat)
    requires fuel == rest + 1 && WeightedOk(LongAdj, LongH, LongW) && TreeOk(LongAdj, Long1)
    ensures TreeOk(LongAdj, Long2)
    ensures Run(LongAdj, LongH, LongW, "Goal", Long1, fuel) == Run(LongAdj, LongH, LongW, "Goal", Long2, rest)
    ensures TieFree(LongAdj, LongH, LongW, "Goal", Long1, fuel) == TieFree(LongAdj, LongH, LongW, "Goal", Long2, rest)
  {
    assert UniqueBest(Long1, LongH, "E");
    LongwayStep2();
    UniqueStep(LongAdj, LongH, LongW, "Goal", Long1, fuel, rest, "E", Long2);
  }

  lemma LongwayChain3(fuel: nat, rest: nat)
    requires fuel == rest + 1 && WeightedOk(LongAdj, LongH, LongW) && TreeOk(LongAdj, Long2)
    ensures TreeOk(LongAdj, Long3)
    ensures Run(LongAdj, LongH, LongW, "Goal", Long2, fuel) == Run(LongAdj, LongH, LongW, "Goal", Long3, rest)
    ensures TieFree(LongAdj, LongH, LongW, "Goal", Long2, fuel) == TieFree(LongAdj, LongH, LongW, "Goal", Long3, rest)
  {
    assert UniqueBest(Long2, LongH, "C");
    LongwayStep3();
    UniqueStep(LongAdj, LongH, LongW, "Goal", Long2, fuel, rest, "C", Long3);
  }

  lemma LongwayChain4(fuel: nat, rest: nat)
    requires fuel == rest + 1 && WeightedOk(LongAdj, LongH, LongW) && TreeOk(LongAdj, Long3)
    ensures TreeOk(LongAdj, Long4)
    ensures Run(LongAdj, LongH, LongW, "Goal", Long3, fuel) == Run(LongAdj, LongH, LongW, "Goal", Long4, rest)
    ensures TieFree(LongAdj, LongH, LongW, "Goal", Long3, fuel) == TieFree(LongAdj, LongH, LongW, "Goal", Long4, rest)
  {
    assert UniqueBest(Long3, LongH, "D");
    LongwayStep4();
    UniqueStep(LongAdj, LongH, LongW, "Goal", Long3, fuel, rest, "D", Long4);
  }

  lemma LongwayChain5(fuel: nat, rest: nat)
    requires fuel == rest + 1 && WeightedOk(LongAdj, LongH, LongW) && TreeOk(LongAdj, Long4)
    ensures TreeOk(LongAdj, Long5)
    ensures Run(LongAdj, LongH, LongW, "Goal", Long4, fuel) == Run(LongAdj, LongH, LongW, "Goal", Long5, rest)
    ensures TieFree(LongAdj, LongH, LongW, "Goal", Long4, fuel) == TieFree(LongAdj, LongH, LongW, "Goal", Long5, rest)
  {
    assert UniqueBest(Long4, LongH, "E");
    LongwayStep5();
    UniqueStep(LongAdj, LongH, LongW, "Goal", Long4, fuel, rest, "E", Long5);
  }

  /** The sixth iteration extracts the goal. */
  lemma LongwayLast(fuel: nat)
    requires fuel > 0 && WeightedOk(LongAdj, LongH, LongW) && TreeOk(LongAdj, Long5)
    ensures TieFree(LongAdj, LongH, LongW, "Goal", Long5, fuel)
    ensures Run(LongAdj, LongH, LongW, "Goal", Long5, fuel) == RunResult(Reached, LongEnd)
  {
    assert UniqueBest(Long5, LongH, "Goal");
    UniqueGoal(LongAdj, LongH, LongW, "Goal", Long5, fuel);
    assert Extracted(Long5, "Goal") == LongEnd;
  }

  /**
    With at least six iterations of budget the run from Start is tie-free and
    reaches the goal in the sixth. E, first reached from Start (`Long1`), is
    re-parented to D in the fourth (`Long4`).
  */
  lemma LongwayRun(fuel: nat)
    requires fuel >= 6
    ensures WeightedOk(LongAdj, LongH, LongW) && TreeOk(LongAdj, InitTree("Start")) && InitTree("Start").open != {}
    ensures TieFree(LongAdj, LongH, LongW, "Goal", InitTree("Start"), fuel)
    ensures Run(LongAdj, LongH, LongW, "Goal", InitTree("Start"), fuel) == RunResult(Reached, LongEnd)
  {
    var f1, f2, f3, f4, f5 := fuel - 1, fuel - 2, fuel - 3, fuel - 4, fuel - 5;
    LongwayGraphOk();
    LongwayChain1(fuel, f1);
    LongwayChain2(f1, f2);
    LongwayChain3(f2, f3);
    LongwayChain4(f3, f4);
    LongwayChain5(f4, f5);
    LongwayLast(f5);
  }

  /** The only tree path from Start to Goal in the final tree is the long way round. */
  lemma LongwayPath(path: seq<string>)
    requires TreePath(LongAdj, LongW, LongEnd.parent, LongEnd.g, "Start", "Goal", path)
    ensures path == ["Start", "C", "D", "E", "Goal"]
  {
    var n := |path|;
    assert LongEnd.parent[path[n - 1]] == Some(path[n - 2]);
    assert path[n - 2] == "E";
    assert LongEnd.parent[path[n - 2]] == Some(path[n - 3]);
    assert path[n - 3] == "D";
    assert LongEnd.parent[path[n - 3]] == Some(path[n - 4]);
    assert path[n - 4] == "C";
    assert LongEnd.parent[path[n - 4]] == Some(path[n - 5]);
    assert path[n - 5] == "Start" == path[0];
  }

  /**
    What a search on this graph returns, whatever the budget beyond six: it
    reaches the goal, and the backtracked path is Start, C, D, E, Goal.
  */
  lemma LongwayAnswer(fuel: nat, stop: Stop, t: Tree, path: seq<string>)
    requires fuel >= 6
    requires EndsAs(LongAdj, LongH, LongW, "Goal", InitTree("Start"), fuel, stop, t)
    requires TreePath(LongAdj, LongW, t.parent, t.g, "Start", "Goal", path)
    ensures stop == Reached && t == LongEnd && t.iter == 6
    ensures t.g["Goal"] == 96.0 && t.parent["E"] == Some("D")
    ensures path == ["Start", "C", "D", "E", "Goal"]
  {
    var t0 := InitTree("Start");
    LongwayRun(fuel);
    assert TieFreeRun(LongAdj, LongH, LongW, "Goal", t0, fuel) == Some(RunResult(Reached, LongEnd));
    LongwayPath(path);
  }

  // ---------------------------------------------------------------------
  // The German city network from Saarbrücken (SB) to Würzburg (WB)

  const GermanAdj: map<string, set<string>> :=
    map["SB" := {"KL", "KA"}, "KL" := {"Frankfurt", "LH"}, "KA" := {"HB"}, "HB" := {"WB"},
        "Frankfurt" := {"WB"}, "LH" := {"WB"}, "WB" := {}]

  const GermanH: map<string, real> :=
    map["SB" := 222.0, "KL" := 158.0, "Frankfurt" := 96.0, "LH" := 108.0, "KA" := 140.0, "HB" := 87.0, "WB" := 0.0]

  const GermanW: map<string, real> :=
    map["SB->KL" := 70.0, "SB->KA" := 145.0, "KA->HB" := 84.0, "HB->WB" := 102.0,
        "KL->Frankfurt" := 103.0, "Frankfurt->WB" := 116.0, "KL->LH" := 53.0, "LH->WB" := 183.0]

  /** The trees after each of the first five iterations. */
  const G1 := Tree(map["SB" := None, "KL" := Some("SB"), "KA" := Some("SB")],
                   map["SB" := 0.0, "KL" := 70.0, "KA" := 145.0], {"KL", "KA"}, 1)
  const G2 := Tree(map["SB" := None, "KL" := Some("SB"), "KA" := Some("SB"), "Frankfurt" := Some("KL"), "LH" := Some("KL")],
                   map["SB" := 0.0, "KL" := 70.0, "KA" := 145.0, "Frankfurt" := 173.0, "LH" := 123.0],
                   {"KA", "Frankfurt", "LH"}, 2)
  const G3 := Tree(map["SB" := None, "KL" := Some("SB"), "KA" := Some("SB"), "Frankfurt" := Some("KL"), "LH" := Some("KL"),
                       "WB" := Some("LH")],
                   map["SB" := 0.0, "KL" := 70.0, "KA" := 145.0, "Frankfurt" := 173.0, "LH" := 123.0, "WB" := 306.0],
                   {"KA", "Frankfurt", "WB"}, 3)
  const G4 := Tree(map["SB" := None, "KL" := Some("SB"), "KA" := Some("SB"), "Frankfurt" := Some("KL"), "LH" := Some("KL"),
                       "WB" := Some("Frankfurt")],
                   map["SB" := 0.0, "KL" := 70.0, "KA" := 145.0, "Frankfurt" := 173.0, "LH" := 123.0, "WB" := 289.0],
                   {"KA", "WB"}, 4)
  const G5 := Tree(map["SB" := None, "KL" := Some("SB"), "KA" := Some("SB"), "Frankfurt" := Some("KL"), "LH" := Some("KL"),
                       "WB" := Some("Frankfurt"), "HB" := Some("KA")],
                   map["SB" := 0.0, "KL" := 70.0, "KA" := 145.0, "Frankfurt" := 173.0, "LH" := 123.0, "WB" := 289.0,
                       "HB" := 229.0],
                   {"WB", "HB"}, 5)

  /** The tree the run stops in: WB extracted in the sixth iteration, HB left open. */
  const GermanEnd := G5.(open := {"HB"}, iter := 6)

  /** The edge keys of the network, spelled out. */
  lemma GermanKeys()
    ensures EdgeName("SB", "KL") == "SB->KL" && EdgeName("SB", "KA") == "SB->KA"
    ensures EdgeName("KA", "HB") == "KA->HB" && EdgeName("HB", "WB") == "HB->WB"
    ensures EdgeName("KL", "Frankfurt") == "KL->Frankfurt" && EdgeName("Frankfurt", "WB") == "Frankfurt->WB"
    ensures EdgeName("KL", "LH") == "KL->LH" && EdgeName("LH", "WB") == "LH->WB"
  {
  }

  lemma GermanGraphOk()
    ensures WeightedOk(GermanAdj, GermanH, GermanW)
  {
    GermanKeys();
  }

  /** Iteration 1: SB is the only open node; KL and KA join the tree below it. */
  lemma GermanStep1()
    ensures forall c :: c in GermanAdj["SB"] ==> EdgeName("SB", c) in GermanW
    ensures Relax(GermanW, Extracted(InitTree("SB"), "SB"), "SB", GermanAdj["SB"]) == G1
  {
    GermanKeys();
    var t := Extracted(InitTree("SB"), "SB");
    var r := Relax(GermanW, t, "SB", GermanAdj["SB"]);
    assert (set c | c in GermanAdj["SB"] && Improves(GermanW, t, "SB", c)) == {"KL", "KA"};
    assert r.parent == G1.parent;
    assert r.g == G1.g;
  }

  /** Iteration 2: KL (estimate 228) beats KA (285); Frankfurt and LH join below KL. */
  lemma GermanStep2()
    ensures forall c :: c in GermanAdj["KL"] ==> EdgeName("KL", c) in GermanW
    ensures Relax(GermanW, Extracted(G1, "KL"), "KL", GermanAdj["KL"]) == G2
  {
    GermanKeys();
    var t := Extracted(G1, "KL");
    var r := Relax(GermanW, t, "KL", GermanAdj["KL"]);
    assert (set c | c in GermanAdj["KL"] && Improves(GermanW, t, "KL", c)) == {"Frankfurt", "LH"};
    assert r.parent == G2.parent;
    assert r.g == G2.g;
  }

  /** Iteration 3: LH (231) beats Frankfurt (269) and KA; WB joins below LH at cost 306. */
  lemma GermanStep3()
    ensures forall c :: c in GermanAdj["LH"] ==> EdgeName("LH", c) in GermanW
    ensures Relax(GermanW, Extracted(G2, "LH"), "LH", GermanAdj["LH"]) == G3
  {
    GermanKeys();
    var t := Extracted(G2, "LH");
    var r := Relax(GermanW, t, "LH", GermanAdj["LH"]);
    assert (set c | c in GermanAdj["LH"] && Improves(GermanW, t, "LH", c)) == {"WB"};
    assert r.parent == G3.parent;
    assert r.g == G3.g;
  }

  /** Iteration 4: Frankfurt (269) beats KA and WB (306); WB is re-parented to Frankfurt at cost 289. */
  lemma GermanStep4()
    ensures forall c :: c in GermanAdj["Frankfurt"] ==> EdgeName("Frankfurt", c) in GermanW
    ensures Relax(GermanW, Extracted(G3, "Frankfurt"), "Frankfurt", GermanAdj["Frankfurt"]) == G4
  {
    GermanKeys();
    var t := Extracted(G3, "Frankfurt");
    var r := Relax(GermanW, t, "Frankfurt", GermanAdj["Frankfurt"]);
    assert (set c | c in GermanAdj["Frankfurt"] && Improves(GermanW, t, "Frankfurt", c)) == {"WB"};
    assert r.parent == G4.parent;
    assert r.g == G4.g;
  }

  /** Iteration 5: KA (285) beats WB (289); HB joins below KA at cost 229. */
  lemma GermanStep5()
    ensures forall c :: c in GermanAdj["KA"] ==> EdgeName("KA", c) in GermanW
    ensures Relax(GermanW, Extracted(G4, "KA"), "KA", GermanAdj["KA"]) == G5
  {
    GermanKeys();
    var t := Extracted(G4, "KA");
    var r := Relax(GermanW, t, "KA", GermanAdj["KA"]);
    assert (set c | c in GermanAdj["KA"] && Improves(GermanW, t, "KA", c)) == {"HB"};
    assert r.parent == G5.parent;
    assert r.g == G5.g;
  }

  /*
    `GermanChainK` carries the run through iteration K: the extracted node is
    the one best open node and not the goal, so the run from the tree before
    the iteration is the run from the tree after it with one iteration less.
  */
  lemma GermanChain1(fuel: nat, rest: nat)
    requires fuel == rest + 1 && WeightedOk(GermanAdj, GermanH, GermanW) && TreeOk(GermanAdj, InitTree("SB"))
    ensures TreeOk(GermanAdj, G1)
    ensures Run(GermanAdj, GermanH, GermanW, "WB", InitTree("SB"), fuel) == Run(GermanAdj, GermanH, GermanW, "WB", G1, rest)
    ensures TieFree(GermanAdj, GermanH, GermanW, "WB", InitTree("SB"), fuel) == TieFree(GermanAdj, GermanH, GermanW, "WB", G1, rest)
  {
    assert UniqueBest(InitTree("SB"), GermanH, "SB");
    GermanStep1();
    UniqueStep(GermanAdj, GermanH, GermanW, "WB", InitTree("SB"), fuel, rest, "SB", G1);
  }

  lemma GermanChain2(fuel: nat, rest: nat)
    requires fuel == rest + 1 && WeightedOk(GermanAdj, GermanH, GermanW) && TreeOk(GermanAdj, G1)
    ensures TreeOk(GermanAdj, G2)
    ensures Run(GermanAdj, GermanH, GermanW, "WB", G1, fuel) == Run(GermanAdj, GermanH, GermanW, "WB", G2, rest)
    ensures TieFree(GermanAdj, GermanH, GermanW, "WB", G1, fuel) == TieFree(GermanAdj, GermanH, GermanW, "WB", G2, rest)
  {
    assert UniqueBest(G1, GermanH, "KL");
    GermanStep2();
    UniqueStep(GermanAdj, GermanH, GermanW, "WB", G1, fuel, rest, "KL", G2);
  }

  lemma GermanChain3(fuel: nat, rest: nat)
    requires fuel == rest + 1 && WeightedOk(GermanAdj, GermanH, GermanW) && TreeOk(GermanAdj, G2)
    ensures TreeOk(GermanAdj, G3)
    ensures Run(GermanAdj, GermanH, GermanW, "WB", G2, fuel) == Run(GermanAdj, GermanH, GermanW, "WB", G3, rest)
    ensures TieFree(GermanAdj, GermanH, GermanW, "WB", G2, fuel) == TieFree(GermanAdj, GermanH, GermanW, "WB", G3, rest)
  {
    assert UniqueBest(G2, GermanH, "LH");
    GermanStep3();
    UniqueStep(GermanAdj, GermanH, GermanW, "WB", G2, fuel, rest, "LH", G3);
  }

  lemma GermanChain4(fuel: nat, rest: nat)
    requires fuel == rest + 1 && WeightedOk(GermanAdj, GermanH, GermanW) && TreeOk(GermanAdj, G3)
    ensures TreeOk(GermanAdj, G4)
    ensures Run(GermanAdj, GermanH, GermanW, "WB", G3, fuel) == Run(GermanAdj, GermanH, GermanW, "WB", G4, rest)
    ensures TieFree(GermanAdj, GermanH, GermanW, "WB", G3, fuel) == TieFree(GermanAdj, GermanH, GermanW, "WB", G4, rest)
  {
    assert UniqueBest(G3, GermanH, "Frankfurt");
    GermanStep4();
    UniqueStep(GermanAdj, GermanH, GermanW, "WB", G3, fuel, rest, "Frankfurt", G4);
  }

  lemma GermanChain5(fuel: nat, rest: nat)
    requires fuel == rest + 1 && WeightedOk(GermanAdj, GermanH, GermanW) && TreeOk(GermanAdj, G4)
    ensures TreeOk(GermanAdj, G5)
    ensures Run(GermanAdj, GermanH, GermanW, "WB", G4, fuel) == Run(GermanAdj, GermanH, GermanW, "WB", G5, rest)
    ensures TieFree(GermanAdj, GermanH, GermanW, "WB", G4, fuel) == TieFree(GermanAdj, GermanH, GermanW, "WB", G5, rest)
  {
    assert UniqueBest(G4, GermanH, "KA");
    GermanStep5();
    UniqueStep(GermanAdj, GermanH, GermanW, "WB", G4, fuel, rest, "KA", G5);
  }

  /** The sixth iteration extracts the goal. */
  lemma GermanLast(fuel: nat)
    requires fuel > 0 && WeightedOk(GermanAdj, GermanH, GermanW) && TreeOk(GermanAdj, G5)
    ensures TieFree(GermanAdj, GermanH, GermanW, "WB", G5, fuel)
    ensures Run(GermanAdj, GermanH, GermanW, "WB", G5, fuel) == RunResult(Reached, GermanEnd)
  {
    assert UniqueBest(G5, GermanH, "WB");
    UniqueGoal(GermanAdj, GermanH, GermanW, "WB", G5, fuel);
    assert Extracted(G5, "WB") == GermanEnd;
  }

  /**
    With at least six iterations of budget the run from SB is tie-free and
    reaches WB in the sixth. WB, first reached from LH (`G3`), is re-parented
    to Frankfurt in the fourth (`G4`).
  */
  lemma GermanRun(fuel: nat)
    requires fuel >= 6
    ensures WeightedOk(GermanAdj, GermanH, GermanW) && TreeOk(GermanAdj, InitTree("SB")) && InitTree("SB").open != {}
    ensures TieFree(GermanAdj, GermanH, GermanW, "WB", InitTree("SB"), fuel)
    ensures Run(GermanAdj, GermanH, GermanW, "WB", InitTree("SB"), fuel) == RunResult(Reached, GermanEnd)
  {
    var f1, f2, f3, f4, f5 := fuel - 1, fuel - 2, fuel - 3, fuel - 4, fuel - 5;
    GermanGraphOk();
    GermanChain1(fuel, f1);
    GermanChain2(f1, f2);
    GermanChain3(f2, f3);
    GermanChain4(f3, f4);
    GermanChain5(f4, f5);
    GermanLast(f5);
  }

  /** The only tree path from SB to WB in the final tree goes through KL and Frankfurt. */
  lemma GermanPath(path: seq<string>)
    requires TreePath(GermanAdj, GermanW, GermanEnd.parent, GermanEnd.g, "SB", "WB", path)
    ensures path == ["SB", "KL", "Frankfurt", "WB"]
  {
    var n := |path|;
    assert GermanEnd.parent[path[n - 1]] == Some(path[n - 2]);
    assert path[n - 2] == "Frankfurt";
    assert GermanEnd.parent[path[n - 2]] == Some(path[n - 3]);
    assert path[n - 3] == "KL";
    assert GermanEnd.parent[path[n - 3]] == Some(path[n - 4]);
    assert path[n - 4] == "SB" == path[0];
  }

  /**
    What a search on this network returns, whatever the budget beyond six:
    it reaches WB at cost 289 along SB, KL, Frankfurt, WB.
  */
  lemma GermanAnswer(fuel: nat, stop: Stop, t: Tree, path: seq<string>)
    requires fuel >= 6
    requires EndsAs(GermanAdj, GermanH, GermanW, "WB", InitTree("SB"), fuel, stop, t)
    requires TreePath(GermanAdj, GermanW, t.parent, t.g, "SB", "WB", path)
    ensures stop == Reached && t == GermanEnd && t.iter == 6
    ensures t.g["WB"] == 289.0 && t.parent["WB"] == Some("Frankfurt")
    ensures path == ["SB", "KL", "Frankfurt", "WB"]
  {
    var t0 := InitTree("SB");
    GermanRun(fuel);
    assert TieFreeRun(GermanAdj, GermanH, GermanW, "WB", t0, fuel) == Some(RunResult(Reached, GermanEnd));
    GermanPath(path);
  }
}
