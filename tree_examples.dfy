/** Worked examples of the two dependency-tree builders on small graphs: a two-node cycle, and a
    diamond where the per-branch ancestor set (CycloneDX) and the shared visited set (SPDX) give
    different trees. */
module TreeExamples {
  import opened Wrappers
  import opened Sequences
  import opened Maps
  import opened SbomTypes
  import opened SbomParser

  function Comp(ref: string): Component {
    Component("library", ref, "1.0", None, ref, "")
  }

  function Pkg(id: string): SpdxPackage {
    SpdxPackage(id, id, "1.0", "MIT", "", None)
  }

  function Leaf(ref: string): Dependency {
    Dependency(ref, "1.0", [])
  }

  function TwoComponents(): map<string, Component> {
    map["A" := Comp("A"), "B" := Comp("B")]
  }

  function TwoPackages(): map<string, SpdxPackage> {
    map["A" := Pkg("A"), "B" := Pkg("B")]
  }

  /** A depends on B and B on A. */
  function CycleEdges(): map<string, seq<string>> {
    map["A" := ["B"], "B" := ["A"]]
  }

  function FiveComponents(): map<string, Component> {
    map["A" := Comp("A"), "B" := Comp("B"), "C" := Comp("C"), "D" := Comp("D"), "E" := Comp("E")]
  }

  function FivePackages(): map<string, SpdxPackage> {
    map["A" := Pkg("A"), "B" := Pkg("B"), "C" := Pkg("C"), "D" := Pkg("D"), "E" := Pkg("E")]
  }

  /** A depends on B and C, both depend on D, and D depends on E. */
  function DiamondEdges(): map<string, seq<string>> {
    map["A" := ["B", "C"], "B" := ["D"], "C" := ["D"], "D" := ["E"]]
  }

  /** CycloneDX, an expanded reference without `dependsOn` refs: a leaf with its name and version. */
  lemma CycloneDxNoChildren(r: string, visited: set<string>, cs: map<string, Component>, es: map<string, seq<string>>)
    requires r in cs && r !in visited && Lookup(es, r) == []
    ensures DependencyTree(r, visited, cs, es) == Dependency(cs[r].name, cs[r].version, [])
  {
    DependencyTreeCases(r, visited, cs, es);
  }

  /** CycloneDX, a reference with one `dependsOn` ref: the child is built with the reference added
      to the ancestors. */
  lemma CycloneDxOneChild(r: string, c: string, visited: set<string>, cs: map<string, Component>,
                          es: map<string, seq<string>>)
    requires r in cs && r !in visited && Lookup(es, r) == [c]
    ensures DependencyTree(r, visited, cs, es)
         == Dependency(cs[r].name, cs[r].version, [DependencyTree(c, visited + {r}, cs, es)])
  {
    DependencyTreeCases(r, visited, cs, es);
    var d := DependencyTree(r, visited, cs, es);
    assert d.children == [d.children[0]];
  }

  /** CycloneDX on the cycle: the walk stops where A comes back, as a leaf. */
  lemma CycloneDxCycle()
    ensures DependencyTree("A", {}, TwoComponents(), CycleEdges())
         == Dependency("A", "1.0", [Dependency("B", "1.0", [Leaf("A")])])
  {
    var cs, es := TwoComponents(), CycleEdges();
    DependencyTreeCases("A", {"A", "B"}, cs, es);
    assert {"A"} + {"B"} == {"A", "B"};
    CycloneDxOneChild("B", "A", {"A"}, cs, es);
    assert {} + {"A"} == {"A"};
    CycloneDxOneChild("A", "B", {}, cs, es);
  }

  lemma SpdxForestSingle(x: string, visited: set<string>, packages: map<string, SpdxPackage>,
                         adjacency: map<string, seq<string>>)
    ensures var t := SpdxTree(x, visited, packages, adjacency);
      SpdxForest([x], visited, packages, adjacency) == ([t.0], t.1)
  {
    var t := SpdxTree(x, visited, packages, adjacency);
    var none: seq<string> := [];
    SpdxForestCons(x, none, visited, packages, adjacency);
    assert [x] + none == [x];
    var tail := SpdxForest(none, t.1, packages, adjacency);
    assert tail == ([], t.1);
    assert [t.0] + tail.0 == [t.0];
  }

  /** SPDX, a package without children: a leaf, and it is now visited. */
  lemma SpdxNoChildren(id: string, visited: set<string>, ps: map<string, SpdxPackage>, es: map<string, seq<string>>)
    requires id in ps && id !in visited && Lookup(es, id) == []
    ensures SpdxTree(id, visited, ps, es) == (Dependency(ps[id].name, ps[id].versionInfo, []), visited + {id})
  {
    SpdxTreeCases(id, visited, ps, es);
    var none: seq<string> := [];
    assert Filter(none, (c: string) => c in ps) == [];
  }

  /** SPDX, a package with one known child: the child is walked with the package marked visited,
      and its walk decides the visited set afterwards. */
  lemma SpdxOneChild(id: string, c: string, visited: set<string>, ps: map<string, SpdxPackage>,
                     es: map<string, seq<string>>)
    requires id in ps && id !in visited && c in ps && Lookup(es, id) == [c]
    ensures var t := SpdxTree(c, visited + {id}, ps, es);
      SpdxTree(id, visited, ps, es) == (Dependency(ps[id].name, ps[id].versionInfo, [t.0]), t.1)
  {
    SpdxTreeCases(id, visited, ps, es);
    FilterAll([c], (c: string) => c in ps);
    SpdxForestSingle(c, visited + {id}, ps, es);
  }

  /** SPDX, a package with two known children: the second child is walked with what the first
      left visited. */
  lemma SpdxTwoChildren(id: string, x: string, y: string, visited: set<string>, ps: map<string, SpdxPackage>,
                        es: map<string, seq<string>>)
    requires id in ps && id !in visited && x in ps && y in ps && Lookup(es, id) == [x, y]
    ensures var t1 := SpdxTree(x, visited + {id}, ps, es);
      var t2 := SpdxTree(y, t1.1, ps, es);
      SpdxTree(id, visited, ps, es).0 == Dependency(ps[id].name, ps[id].versionInfo, [t1.0, t2.0])
  {
    SpdxTreeCases(id, visited, ps, es);
    FilterAll([x, y], (c: string) => c in ps);
    var t1 := SpdxTree(x, visited + {id}, ps, es);
    SpdxForestSingle(y, t1.1, ps, es);
    SpdxForestCons(x, [y], visited + {id}, ps, es);
    assert [x, y] == [x] + [y];
  }

  /** SPDX on the cycle: the same cut, A under B as a leaf. */
  lemma SpdxCycle()
    ensures SpdxTree("A", {}, TwoPackages(), CycleEdges()).0
         == Dependency("A", "1.0", [Dependency("B", "1.0", [Leaf("A")])])
  {
    var ps, es := TwoPackages(), CycleEdges();
    var both: set<string> := {"A", "B"};
    SpdxTreeCases("A", both, ps, es);
    assert {"A"} + {"B"} == both;
    SpdxOneChild("B", "A", {"A"}, ps, es);
    assert {} + {"A"} == {"A"};
    SpdxOneChild("A", "B", {}, ps, es);
  }

  /** CycloneDX, from any ancestors without E: E is a leaf. */
  lemma CycloneDxDiamondE(ancestors: set<string>)
    requires "E" !in ancestors
    ensures DependencyTree("E", ancestors, FiveComponents(), DiamondEdges()) == Leaf("E")
  {
    CycloneDxNoChildren("E", ancestors, FiveComponents(), DiamondEdges());
  }

  /** CycloneDX, from any ancestors without D and E: D is expanded with E below it. */
  lemma CycloneDxDiamondD(ancestors: set<string>)
    requires "D" !in ancestors && "E" !in ancestors
    ensures DependencyTree("D", ancestors, FiveComponents(), DiamondEdges()) == Dependency("D", "1.0", [Leaf("E")])
  {
    CycloneDxDiamondE(ancestors + {"D"});
    CycloneDxOneChild("D", "E", ancestors, FiveComponents(), DiamondEdges());
  }

  /** CycloneDX, B (or C) under A: D is expanded below it. */
  lemma CycloneDxDiamondMiddle(x: string)
    requires x == "B" || x == "C"
    ensures DependencyTree(x, {"A"}, FiveComponents(), DiamondEdges())
         == Dependency(x, "1.0", [Dependency("D", "1.0", [Leaf("E")])])
  {
    CycloneDxDiamondD({"A"} + {x});
    CycloneDxOneChild(x, "D", {"A"}, FiveComponents(), DiamondEdges());
  }

  /** CycloneDX, a root with two `dependsOn` refs: both children are built with the root as
      their only ancestor. */
  lemma CycloneDxTwoChildren(root: string, x: string, y: string, cs: map<string, Component>,
                             es: map<string, seq<string>>)
    requires root in cs && Lookup(es, root) == [x, y]
    ensures DependencyTree(root, {}, cs, es)
         == Dependency(cs[root].name, cs[root].version, [DependencyTree(x, {root}, cs, es), DependencyTree(y, {root}, cs, es)])
  {
    DependencyTreeCases(root, {}, cs, es);
    assert {} + {root} == {root};
    var d := DependencyTree(root, {}, cs, es);
    assert d.children == [d.children[0], d.children[1]];
  }

  /** CycloneDX on the diamond: D is expanded under both B and C, because each branch carries
      its own ancestors. */
  lemma CycloneDxDiamond()
    ensures var d := Dependency("D", "1.0", [Leaf("E")]);
      DependencyTree("A", {}, FiveComponents(), DiamondEdges())
        == Dependency("A", "1.0", [Dependency("B", "1.0", [d]), Dependency("C", "1.0", [d])])
  {
    CycloneDxDiamondMiddle("B");
    CycloneDxDiamondMiddle("C");
    CycloneDxTwoChildren("A", "B", "C", FiveComponents(), DiamondEdges());
  }

  lemma SpdxDiamondE()
    ensures SpdxTree("E", {"A", "B", "D"}, FivePackages(), DiamondEdges()) == (Leaf("E"), {"A", "B", "D", "E"})
  {
    SpdxNoChildren("E", {"A", "B", "D"}, FivePackages(), DiamondEdges());
    assert {"A", "B", "D"} + {"E"} == {"A", "B", "D", "E"};
  }

  lemma SpdxDiamondD()
    ensures SpdxTree("D", {"A", "B"}, FivePackages(), DiamondEdges())
         == (Dependency("D", "1.0", [Leaf("E")]), {"A", "B", "D", "E"})
  {
    SpdxDiamondE();
    assert {"A", "B"} + {"D"} == {"A", "B", "D"};
    SpdxOneChild("D", "E", {"A", "B"}, FivePackages(), DiamondEdges());
  }

  /** SPDX on the diamond, first branch: B expands D, which expands E; all four are then visited. */
  lemma SpdxDiamondFirstBranch()
    ensures SpdxTree("B", {"A"}, FivePackages(), DiamondEdges())
         == (Dependency("B", "1.0", [Dependency("D", "1.0", [Leaf("E")])]), {"A", "B", "D", "E"})
  {
    SpdxDiamondD();
    assert {"A"} + {"B"} == {"A", "B"};
    SpdxOneChild("B", "D", {"A"}, FivePackages(), DiamondEdges());
  }

  /** SPDX on the diamond, second branch: D was visited under B, so under C it is a leaf. */
  lemma SpdxDiamondSecondBranch()
    ensures SpdxTree("C", {"A", "B", "D", "E"}, FivePackages(), DiamondEdges()).0
         == Dependency("C", "1.0", [Leaf("D")])
  {
    var afterC: set<string> := {"A", "B", "C", "D", "E"};
    SpdxTreeCases("D", afterC, FivePackages(), DiamondEdges());
    assert {"A", "B", "D", "E"} + {"C"} == afterC;
    SpdxOneChild("C", "D", {"A", "B", "D", "E"}, FivePackages(), DiamondEdges());
  }

  /** SPDX on the diamond, at the root: C is walked with what B left visited. */
  lemma SpdxDiamondRoot()
    ensures var first := SpdxTree("B", {"A"}, FivePackages(), DiamondEdges());
      SpdxTree("A", {}, FivePackages(), DiamondEdges()).0
        == Dependency("A", "1.0", [first.0, SpdxTree("C", first.1, FivePackages(), DiamondEdges()).0])
  {
    assert {} + {"A"} == {"A"};
    SpdxTwoChildren("A", "B", "C", {}, FivePackages(), DiamondEdges());
  }

  /** SPDX on the diamond: D is expanded under B only and is a leaf under C, because the visited
      set is shared across siblings. */
  lemma SpdxDiamond()
    ensures SpdxTree("A", {}, FivePackages(), DiamondEdges()).0
         == Dependency("A", "1.0", [Dependency("B", "1.0", [Dependency("D", "1.0", [Leaf("E")])]),
                                    Dependency("C", "1.0", [Leaf("D")])])
  {
    SpdxDiamondRoot();
    SpdxDiamondFirstBranch();
    SpdxDiamondSecondBranch();
  }
}
