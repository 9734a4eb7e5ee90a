/** tools/stage-key.py between two builds: which changes of the Dockerfile and of
    the ARG values change what is hashed, and which do not. */
module StageChanges {
  import opened Wrappers
  import opened Text
  import opened StageText
  import opened StageKey
  import opened Release

  // ---------------------------------------------------------------------
  // Stages that are covered
  // ---------------------------------------------------------------------

  /** A reference stands for the same stage in both builds, or for none in either. */
  predicate ResolvesAlike(a: Stages, ea: Env, b: Stages, eb: Env, ref: string) {
    Resolve(ea, ref) in a || Resolve(eb, ref) in b ==>
      Resolve(ea, ref) == Resolve(eb, ref) && Resolve(ea, ref) in a && Resolve(eb, ref) in b
  }

  /** The stages the target reaches in the first build read alike in the second,
      and their references stand for the same stages. */
  ghost predicate AgreeOn(a: Stages, ea: Env, b: Stages, eb: Env, target: string) {
    target in a && target in b
    && forall x :: x in a && Reaches(a, ea, target, x) ==>
         x in b && a[x] == b[x]
         && forall i :: 0 <= i < |Refs(a[x])| ==> ResolvesAlike(a, ea, b, eb, Refs(a[x])[i])
  }

  lemma SameEdges(a: Stages, ea: Env, b: Stages, eb: Env, x: string, y: string)
    requires x in a && x in b && a[x] == b[x]
    requires forall i :: 0 <= i < |Refs(a[x])| ==> ResolvesAlike(a, ea, b, eb, Refs(a[x])[i])
    ensures Edge(a, ea, x, y) <==> Edge(b, eb, x, y)
  {
    var refs := Refs(a[x]);
    hide Refs, Resolve;
    if Edge(a, ea, x, y) {
      var i :| 0 <= i < |refs| && Resolve(ea, refs[i]) == y;
      assert ResolvesAlike(a, ea, b, eb, refs[i]);
    }
    if Edge(b, eb, x, y) {
      var i :| 0 <= i < |refs| && Resolve(eb, refs[i]) == y;
      assert ResolvesAlike(a, ea, b, eb, refs[i]);
    }
  }

  lemma {:induction false} PathsCarryOver(a: Stages, ea: Env, b: Stages, eb: Env, target: string, p: seq<string>)
    requires AgreeOn(a, ea, b, eb, target) && p != [] && p[0] == target
    ensures IsPath(a, ea, p) <==> IsPath(b, eb, p)
    decreases |p|
  {
    hide Edge;
    if |p| > 1 {
      var q := p[..|p| - 1];
      var x, y := p[|p| - 2], p[|p| - 1];
      PathsCarryOver(a, ea, b, eb, target, q);
      PathPrefix(a, ea, p);
      PathPrefix(b, eb, p);
      if IsPath(a, ea, q) {
        assert Reaches(a, ea, target, x);
        OnlyStages(a, ea, target);
        SameEdges(a, ea, b, eb, x, y);
      }
    }
  }

  lemma PathPrefix(s: Stages, env: Env, p: seq<string>)
    requires |p| > 1
    ensures IsPath(s, env, p) <==> IsPath(s, env, p[..|p| - 1]) && Edge(s, env, p[|p| - 2], p[|p| - 1])
  {
    hide Edge;
    var q := p[..|p| - 1];
    if IsPath(s, env, p) {
      forall i | 0 <= i < |q| - 1 ensures Edge(s, env, q[i], q[i + 1]) {
        assert q[i] == p[i] && q[i + 1] == p[i + 1];
      }
    }
    if IsPath(s, env, q) && Edge(s, env, p[|p| - 2], p[|p| - 1]) {
      forall i | 0 <= i < |p| - 1 ensures Edge(s, env, p[i], p[i + 1]) {
        if i < |q| - 1 { assert q[i] == p[i] && q[i + 1] == p[i + 1]; }
      }
    }
  }

  lemma SameReach(a: Stages, ea: Env, b: Stages, eb: Env, target: string)
    requires AgreeOn(a, ea, b, eb, target)
    ensures forall x :: Reaches(a, ea, target, x) <==> Reaches(b, eb, target, x)
  {
    forall x ensures Reaches(a, ea, target, x) <==> Reaches(b, eb, target, x) {
      if Reaches(a, ea, target, x) {
        var p :| IsPath(a, ea, p) && p[0] == target && p[|p| - 1] == x;
        PathsCarryOver(a, ea, b, eb, target, p);
      }
      if Reaches(b, eb, target, x) {
        var p :| IsPath(b, eb, p) && p[0] == target && p[|p| - 1] == x;
        PathsCarryOver(a, ea, b, eb, target, p);
      }
    }
  }

  /** Exactly when two sets of values make one file cover the same stages: every
      reference of a stage that both cover stands, under either, for a stage that
      the other covers, or for none. */
  lemma CoveredAlikeExactly(a: Stages, ea: Env, eb: Env, target: string)
    requires target in a
    ensures (forall x :: Reaches(a, ea, target, x) <==> Reaches(a, eb, target, x)) <==>
              Closed(a, ea, eb, target) && Closed(a, eb, ea, target)
  {
    if Closed(a, ea, eb, target) && Closed(a, eb, ea, target) {
      ReachWithin(a, ea, eb, target);
      ReachWithin(a, eb, ea, target);
    }
    if forall x :: Reaches(a, ea, target, x) <==> Reaches(a, eb, target, x) {
      StepWithin(a, ea, target);
      StepWithin(a, eb, target);
    }
  }

  /** Reference i of stage x stands for a stage. */
  predicate Names(a: Stages, e: Env, x: string, i: int)
    requires x in a
  {
    0 <= i < |Refs(a[x])| && Resolve(e, Refs(a[x])[i]) in a
  }

  /** What stages covered by both name under ea is covered under eb. */
  ghost predicate Closed(a: Stages, ea: Env, eb: Env, target: string) {
    forall x, i ::
      x in a && Reaches(a, ea, target, x) && Reaches(a, eb, target, x) && Names(a, ea, x, i) ==>
        Reaches(a, eb, target, Resolve(ea, Refs(a[x])[i]))
  }

  lemma StepWithin(a: Stages, e: Env, target: string)
    ensures forall x, i :: x in a && Reaches(a, e, target, x) && Names(a, e, x, i) ==>
              Reaches(a, e, target, Resolve(e, Refs(a[x])[i]))
  {
    forall x, i | x in a && Reaches(a, e, target, x) && Names(a, e, x, i)
      ensures Reaches(a, e, target, Resolve(e, Refs(a[x])[i]))
    {
      assert Edge(a, e, x, Resolve(e, Refs(a[x])[i]));
      ReachesFurther(a, e, target, x, Resolve(e, Refs(a[x])[i]));
    }
  }

  lemma ReachWithin(a: Stages, ea: Env, eb: Env, target: string)
    requires target in a && Closed(a, ea, eb, target)
    ensures forall x :: Reaches(a, ea, target, x) ==> Reaches(a, eb, target, x)
  {
    ReachesItself(a, ea, target);
    ReachesItself(a, eb, target);
    ghost var both := set x | x in a && Reaches(a, ea, target, x) && Reaches(a, eb, target, x);
    forall x, y | x in both && Edge(a, ea, x, y) ensures y in both {
      var i :| 0 <= i < |Refs(a[x])| && Resolve(ea, Refs(a[x])[i]) == y;
      assert Names(a, ea, x, i);
      ReachesFurther(a, ea, target, x, y);
    }
    forall x | Reaches(a, ea, target, x) ensures Reaches(a, eb, target, x) {
      var p :| IsPath(a, ea, p) && p[0] == target && p[|p| - 1] == x;
      ClosedHoldsPath(a, ea, both, p);
    }
  }

  // ---------------------------------------------------------------------
  // Changes that leave the bytes
  // ---------------------------------------------------------------------

  /** A change outside the stages the target is built from, and in values of ARGs
      that those do not name, leaves the bytes, provided that it leaves what their
      references stand for. */
  lemma OthersDoNotMatter(a: Stages, ea: Env, b: Stages, eb: Env, target: string, order: seq<string>,
                          names: seq<string>)
    requires AgreeOn(a, ea, b, eb, target) && ea.context == eb.context && BuiltFrom(a, ea, target, order)
    requires ValuesOf(ea.values, UsedArgs(a, order), names)
    requires forall k :: k in UsedArgs(a, order) ==>
               (k in ea.values <==> k in eb.values) && Value(ea.values, k) == Value(eb.values, k)
    ensures BuiltFrom(b, eb, target, order) && ValuesOf(eb.values, UsedArgs(b, order), names)
    ensures HashedStages(a, ea, order) + ArgLines(ea.values, names)
         == HashedStages(b, eb, order) + ArgLines(eb.values, names)
  {
    SameReach(a, ea, b, eb, target);
    OnlyStages(a, ea, target);
    OnlyStages(b, eb, target);
    hide Reaches;
    SameHash(a, ea, b, eb, order);
    hide StageArgs;
    assert UsedArgs(a, order) == UsedArgs(b, order);
    SameArgLines(ea.values, eb.values, names);
  }

  /** What a caller can check instead: the values agree on every variable that a
      reference of a covered stage names, and stages were neither added nor removed
      under names that such references stand for. */
  lemma NamedValuesDecide(a: Stages, ea: Env, b: Stages, eb: Env, target: string)
    requires target in a && target in b && ea.lower == eb.lower
    requires forall x :: x in a && Reaches(a, ea, target, x) ==> x in b && a[x] == b[x]
    requires forall x, i, v ::
               x in a && Reaches(a, ea, target, x) && 0 <= i < |Refs(a[x])| && v in VarsIn(Refs(a[x])[i]) ==>
                 Value(ea.values, v) == Value(eb.values, v)
    requires forall x, i :: x in a && Reaches(a, ea, target, x) && 0 <= i < |Refs(a[x])| ==>
               (Resolve(ea, Refs(a[x])[i]) in a <==> Resolve(ea, Refs(a[x])[i]) in b)
    ensures AgreeOn(a, ea, b, eb, target)
  {
    forall x, i | x in a && Reaches(a, ea, target, x) && 0 <= i < |Refs(a[x])|
      ensures ResolvesAlike(a, ea, b, eb, Refs(a[x])[i])
    {
      ExpandDependsOnNamed(Refs(a[x])[i], ea.values, eb.values);
    }
  }

  lemma {:induction false} SameHash(a: Stages, ea: Env, b: Stages, eb: Env, order: seq<string>)
    requires ea.context == eb.context
    requires forall x :: x in order ==> x in a && x in b && a[x] == b[x]
    ensures HashedStages(a, ea, order) == HashedStages(b, eb, order)
  {
    if order != [] {
      SameLines(a[order[0]].lines, ea, eb);
      SameHash(a, ea, b, eb, order[1..]);
    }
  }

  lemma {:induction false} SameLines(lines: seq<string>, ea: Env, eb: Env)
    requires ea.context == eb.context
    ensures HashedLines(lines, ea) == HashedLines(lines, eb)
  {
    if lines != [] { SameLines(lines[1..], ea, eb); }
  }

  lemma {:induction false} SameArgLines(va: map<string, string>, vb: map<string, string>, names: seq<string>)
    requires forall k :: k in names ==> k in va && k in vb && va[k] == vb[k]
    ensures ArgLines(va, names) == ArgLines(vb, names)
  {
    if names != [] { SameArgLines(va, vb, names[1..]); }
  }

  // ---------------------------------------------------------------------
  // An ARG that only a reference names
  // ---------------------------------------------------------------------

  function CopyLine(): string { "COPY " + ("--from=" + ("$FOO" + " /x /x")) }

  function FromA(): Stage { Stage("scratch", ["FROM scratch AS a"]) }

  function FromB(): Stage { Stage("scratch", ["FROM scratch AS b"]) }

  function Copies(): Stage { Stage("scratch", ["FROM scratch AS t", CopyLine()]) }

  function Dockerfile(): Stages { map["a" := FromA(), "b" := FromB(), "t" := Copies()] }

  function Foo(env: Env, v: string): Env {
    env.(values := map["FOO" := v])
  }

  lemma FooExpands(v: string)
    ensures Expand("$FOO", map["FOO" := v]) == v && VarsIn("$FOO") == ["FOO"]
  {
    VariableRead(false, "FOO", false, "", map["FOO" := v]);
    hide Identifier;
    assert Opening(false) + "FOO" + Closing(false) + "" == "$FOO";
  }

  lemma LineRefsOf(x: string, y: string)
    ensures LineRefs([x]) == FindRefs(x) && LineRefs([x, y]) == FindRefs(x) + FindRefs(y)
  {
    hide FindRefs;
    assert [y][1..] == [] && [x][1..] == [] && [x, y][1..] == [y];
    assert LineRefs([y]) == FindRefs(y) + [] && LineRefs([x]) == FindRefs(x) + [];
  }

  lemma NothingDeclared(lines: seq<string>)
    requires forall i :: 0 <= i < |lines| ==> lines[i] != "" && lines[i][0] != 'A'
    ensures DeclaredArgs(lines) == {}
  {
    forall i | 0 <= i < |lines| ensures ArgName(lines[i]) == None { NotArg(lines[i]); }
  }

  /** A stage of one line that is no ARG line and makes no reference. */
  lemma PlainStage(line: string)
    requires line != "" && line[0] != 'A' && '=' !in line
    ensures Refs(Stage("scratch", [line])) == ["scratch"] && StageArgs(Stage("scratch", [line])) == {}
  {
    NoRefs(line);
    LineRefsOf(line, line);
    NothingDeclared([line]);
    NoVariables("scratch", map[]);
    hide FindRefs, ArgName, VarsIn, LineRefs, DeclaredArgs;
  }

  lemma TwoLines(first: string, copy: string, ref: string)
    requires first != "" && first[0] != 'A' && '=' !in first
    requires copy != "" && copy[0] != 'A' && FindRefs(copy) == [ref]
    ensures Refs(Stage("scratch", [first, copy])) == ["scratch", ref]
    ensures StageArgs(Stage("scratch", [first, copy])) == {}
  {
    NoRefs(first);
    LineRefsOf(first, copy);
    NothingDeclared([first, copy]);
    NoVariables("scratch", map[]);
    hide FindRefs, ArgName, VarsIn, LineRefs, DeclaredArgs;
  }

  lemma CopyingStage()
    ensures Refs(Copies()) == ["scratch", "$FOO"] && StageArgs(Copies()) == {}
  {
    CopyFrom("COPY ", "$FOO", " /x /x");
    hide FindRefs, Refs, StageArgs;
    TwoLines("FROM scratch AS t", CopyLine(), "$FOO");
  }

  lemma StageRefs()
    ensures Refs(FromA()) == Refs(FromB()) == ["scratch"] && Refs(Copies()) == ["scratch", "$FOO"]
    ensures StageArgs(FromA()) == StageArgs(FromB()) == StageArgs(Copies()) == {}
  {
    PlainStage("FROM scratch AS a");
    PlainStage("FROM scratch AS b");
    CopyingStage();
    hide Refs, StageArgs;
  }

  lemma NotArg(line: string)
    requires line != "" && line[0] != 'A'
    ensures ArgName(line) == None
  {
  }

  /** In this file FOO is named by no base and no ARG line, so its value is hashed
      nowhere. Yet it decides which stage is covered: with FOO=a it is a and not b,
      with FOO=b it is b and not a. */
  lemma ReferenceOnlyArg(env: Env)
    requires forall s :: env.lower(s) == s
    ensures UsedArgs(Dockerfile(), ["a", "b", "t"]) == {}
    ensures forall v, x :: v in {"a", "b"} ==>
              (Reaches(Dockerfile(), Foo(env, v), "t", x) <==> x in {"t", v})
  {
    StageRefs();
    hide StageArgs, Refs;
    assert forall x :: x in ["a", "b", "t"] ==> StageArgs(Dockerfile()[x]) == {};
    FooCovers(env, "a");
    FooCovers(env, "b");
  }

  /** And so it decides the bytes. */
  lemma ReferenceOnlyArgChangesBytes(env: Env)
    requires forall s :: env.lower(s) == s
    ensures forall v :: v in {"a", "b"} ==> BuiltFrom(Dockerfile(), Foo(env, v), "t", [v, "t"])
    ensures HashedStages(Dockerfile(), Foo(env, "a"), ["a", "t"])
         != HashedStages(Dockerfile(), Foo(env, "b"), ["b", "t"])
  {
    FooCovers(env, "a");
    FooCovers(env, "b");
    FileHolds("a");
    FileHolds("b");
    FirstBytes("FROM scratch AS a", env, "a", "t");
    FirstBytes("FROM scratch AS b", env, "b", "t");
    hide Reaches, HashedStages, Dockerfile, FromA, FromB, Copies, Foo;
    assert "FROM scratch AS a"[16] == 'a' && "FROM scratch AS b"[16] == 'b';
    assert StringLess("a", "t") && StringLess("b", "t");
  }

  lemma FirstBytes(line: string, env: Env, v: string, last: string)
    requires v in Dockerfile() && last in Dockerfile() && Dockerfile()[v].lines == [line]
    ensures line <= HashedStages(Dockerfile(), Foo(env, v), [v, last])
  {
    hide Dockerfile, Foo;
  }

  lemma FooEdges(env: Env, v: string)
    requires (forall s :: env.lower(s) == s) && v in {"a", "b"}
    ensures forall x, y :: x in {"t", v} ==> (Edge(Dockerfile(), Foo(env, v), x, y) <==> x == "t" && y == v)
  {
    StageRefs();
    FooResolves(env, v);
    hide Refs, StageArgs, Resolve, Edge, Foo, Dockerfile, FromA, FromB, Copies;
    NoEdge(Foo(env, v), v);
    OneEdge(Foo(env, v), v);
  }

  lemma FooResolves(env: Env, v: string)
    requires (forall s :: env.lower(s) == s) && v in {"a", "b"}
    ensures Resolve(Foo(env, v), "$FOO") == v && Resolve(Foo(env, v), "scratch") == "scratch"
  {
    FooExpands(v);
    NoVariables("scratch", Foo(env, v).values);
    hide Expand;
  }

  lemma OneEdge(e: Env, v: string)
    requires v in {"a", "b"} && Refs(Copies()) == ["scratch", "$FOO"]
    requires Resolve(e, "$FOO") == v && Resolve(e, "scratch") == "scratch"
    ensures forall y :: Edge(Dockerfile(), e, "t", y) <==> y == v
  {
    FileHolds(v);
    hide Refs, Resolve, Dockerfile, FromA, FromB, Copies;
    var refs := Refs(Copies());
    assert |refs| == 2 && refs[0] == "scratch" && refs[1] == "$FOO";
    forall y ensures Edge(Dockerfile(), e, "t", y) <==> y == v {
      TEdges(e, refs, y);
    }
  }

  lemma TEdges(e: Env, refs: seq<string>, y: string)
    requires "t" in Dockerfile() && Dockerfile()["t"] == Copies() && Refs(Copies()) == refs && |refs| == 2
    ensures Edge(Dockerfile(), e, "t", y) <==>
              y in Dockerfile() && (Resolve(e, refs[0]) == y || Resolve(e, refs[1]) == y)
  {
    hide Refs, Resolve, Dockerfile, Copies;
  }

  lemma FileHolds(v: string)
    requires v in {"a", "b"}
    ensures Dockerfile().Keys == {"a", "b", "t"} && "scratch" !in Dockerfile()
    ensures v in Dockerfile() && "t" in Dockerfile()
    ensures Dockerfile()[v] == (if v == "a" then FromA() else FromB()) && Dockerfile()["t"] == Copies()
  {
    hide FromA, FromB, Copies;
  }

  lemma NoEdge(e: Env, v: string)
    requires v in {"a", "b"} && Refs(FromA()) == Refs(FromB()) == ["scratch"] && Resolve(e, "scratch") == "scratch"
    ensures forall y :: !Edge(Dockerfile(), e, v, y)
  {
    FileHolds(v);
    hide Resolve, Dockerfile;
    forall y ensures !Edge(Dockerfile(), e, v, y) {
      PlainEdges(Dockerfile(), e, v, y);
    }
  }

  lemma PlainEdges(stages: Stages, e: Env, x: string, y: string)
    requires x in stages && |Refs(stages[x])| == 1
    ensures Edge(stages, e, x, y) <==> y in stages && Resolve(e, Refs(stages[x])[0]) == y
  {
    hide Refs, Resolve;
  }

  lemma FooCovers(env: Env, v: string)
    requires (forall s :: env.lower(s) == s) && v in {"a", "b"}
    ensures forall x :: Reaches(Dockerfile(), Foo(env, v), "t", x) <==> x in {"t", v}
  {
    var e := Foo(env, v);
    FooEdges(env, v);
    FileHolds(v);
    hide Edge, Resolve, Dockerfile, Foo, FromA, FromB, Copies;
    ReachesItself(Dockerfile(), e, "t");
    ReachesFurther(Dockerfile(), e, "t", "t", v);
    forall x | Reaches(Dockerfile(), e, "t", x) ensures x in {"t", v} {
      var p :| IsPath(Dockerfile(), e, p) && p[0] == "t" && p[|p| - 1] == x;
      ClosedHoldsPath(Dockerfile(), e, {"t", v}, p);
    }
  }

  // ---------------------------------------------------------------------
  // Values that are hashed
  // ---------------------------------------------------------------------

  /** The bytes do not say where a value ends: these two sets of values differ. */
  lemma ValuesCollide()
    ensures var va := map["A" := "x\nB=y", "B" := ""];
            var vb := map["A" := "x", "B" := "y\nB="];
            ArgLines(va, ["A", "B"]) == ArgLines(vb, ["A", "B"]) && va["A"] != vb["A"]
  {
    assert ["A", "B"][1..] == ["B"] && ["B"][1..] == [];
  }

  lemma Cancel(p: string, x: string, y: string)
    ensures p + x == p + y <==> x == y
  {
    assert (p + x)[|p|..] == x && (p + y)[|p|..] == y;
  }

  lemma ArgLinesFirst(values: map<string, string>, names: seq<string>)
    requires names != [] && forall k :: k in names ==> k in values
    ensures var k := names[0];
            ArgLines(values, names) == (k + "=") + (values[k] + ['\n'] + ArgLines(values, names[1..]))
  {
  }

  /** When no value holds a line end, the bytes change exactly when a value does,
      whatever was hashed before. */
  lemma {:induction false} ValuesMatter(before: string, va: map<string, string>, vb: map<string, string>,
                                        names: seq<string>)
    requires forall k :: k in names ==> k in va && k in vb && '\n' !in va[k] && '\n' !in vb[k]
    ensures before + ArgLines(va, names) == before + ArgLines(vb, names) <==> forall k :: k in names ==> va[k] == vb[k]
    decreases |names|
  {
    Cancel(before, ArgLines(va, names), ArgLines(vb, names));
    assert names != [] ==> forall n :: n in names <==> n == names[0] || n in names[1..];
    if forall k :: k in names ==> va[k] == vb[k] {
      SameArgLines(va, vb, names);
    } else if ArgLines(va, names) == ArgLines(vb, names) {
      var k := names[0];
      var x, y := ArgLines(va, names[1..]), ArgLines(vb, names[1..]);
      ArgLinesFirst(va, names);
      ArgLinesFirst(vb, names);
      Cancel(k + "=", va[k] + ['\n'] + x, vb[k] + ['\n'] + y);
      CutJoin(va[k], '\n', x);
      CutJoin(vb[k], '\n', y);
      ValuesMatter("", va, vb, names[1..]);
      assert false;
    }
  }

  /** When only one value changes, the bytes change, whatever the values hold. */
  lemma {:induction false} OneValueMatters(before: string, va: map<string, string>, vb: map<string, string>,
                                           names: seq<string>, k: string)
    requires (forall n :: n in names ==> n in va && n in vb) && Distinct(names) && k in names
    requires forall n :: n in names && n != k ==> va[n] == vb[n]
    ensures before + ArgLines(va, names) == before + ArgLines(vb, names) <==> va[k] == vb[k]
    decreases |names|
  {
    var n := names[0];
    var x, y := ArgLines(va, names[1..]), ArgLines(vb, names[1..]);
    Cancel(before, ArgLines(va, names), ArgLines(vb, names));
    ArgLinesFirst(va, names);
    ArgLinesFirst(vb, names);
    Cancel(n + "=", va[n] + ['\n'] + x, vb[n] + ['\n'] + y);
    assert names == [n] + names[1..];
    if n == k {
      assert k !in names[1..];
      SameArgLines(va, vb, names[1..]);
      CancelRight(va[k], vb[k], ['\n'] + x);
      assert va[k] + ['\n'] + x == va[k] + (['\n'] + x) && vb[k] + ['\n'] + x == vb[k] + (['\n'] + x);
    } else {
      OneValueMatters("", va, vb, names[1..], k);
      Cancel(va[n] + ['\n'], x, y);
      assert "" + x == x && "" + y == y;
    }
  }

  lemma CancelRight(x: string, y: string, s: string)
    ensures x + s == y + s <==> x == y
  {
    if x + s == y + s {
      assert |x| == |y|;
      assert (x + s)[..|x|] == x && (y + s)[..|y|] == y;
    }
  }
}
