/** What a key covers, said about the text of a Dockerfile: which lines name a stage,
    which ARGs are hashed, and of what pieces the bytes are made. */
module StageCovered {
  import opened Wrappers
  import opened Arith
  import opened Text
  import opened StageText
  import opened StageKey
  import opened StageChanges
  import opened Release

  // ---------------------------------------------------------------------
  // References and ARGs
  // ---------------------------------------------------------------------

  lemma {:induction false} LineRefsExactly(lines: seq<string>, ref: string)
    ensures ref in LineRefs(lines) <==> exists i :: 0 <= i < |lines| && ref in FindRefs(lines[i])
  {
    hide FindRefs;
    if lines != [] {
      LineRefsExactly(lines[1..], ref);
      if ref in LineRefs(lines[1..]) {
        var i :| 0 <= i < |lines[1..]| && ref in FindRefs(lines[1..][i]);
        assert lines[i + 1] == lines[1..][i];
      }
      if i :| 0 <= i < |lines| && ref in FindRefs(lines[i]) {
        if i > 0 { assert lines[i] == lines[1..][i - 1]; }
      }
    }
  }

  /** A stage as written: its base, or a reference that one of its lines makes. */
  predicate Writes(s: Stage, ref: string) {
    ref == s.base || exists i :: 0 <= i < |s.lines| && ref in FindRefs(s.lines[i])
  }

  /** One stage names another when something it writes reads, with its variables put
      in and in lower case, as the name of the other. */
  lemma EdgeExactly(stages: Stages, env: Env, a: string, b: string)
    ensures Edge(stages, env, a, b) <==>
              a in stages && b in stages
              && exists ref :: Writes(stages[a], ref) && env.lower(Expand(ref, env.values)) == b
  {
    hide FindRefs, Expand, LineRefs;
    if a in stages && b in stages {
      var refs := Refs(stages[a]);
      forall ref ensures ref in refs <==> Writes(stages[a], ref) {
        LineRefsExactly(stages[a].lines, ref);
        assert refs == [stages[a].base] + LineRefs(stages[a].lines);
      }
      hide Refs, Writes;
      if ref :| Writes(stages[a], ref) && env.lower(Expand(ref, env.values)) == b {
        assert ref in refs;
        var i :| 0 <= i < |refs| && refs[i] == ref;
        assert Resolve(env, refs[i]) == b;
      }
      if i :| 0 <= i < |refs| && Resolve(env, refs[i]) == b {
        assert refs[i] in refs;
      }
    }
  }

  /** The ARGs hashed are those that a covered stage declares in a line or names in
      its base. */
  lemma UsedExactly(stages: Stages, order: seq<string>, name: string)
    requires forall x :: x in order ==> x in stages
    ensures name in UsedArgs(stages, order) <==>
              exists x :: x in order && (name in VarsIn(stages[x].base) || Declares(stages[x].lines, name))
  {
    hide VarsIn, ArgName, UsedArgs;
    forall x | x in order
      ensures name in StageArgs(stages[x]) <==> name in VarsIn(stages[x].base) || Declares(stages[x].lines, name)
    {
      DeclaredExactly(stages[x].lines, name);
      assert name in Elements(VarsIn(stages[x].base)) <==> name in VarsIn(stages[x].base);
    }
    hide StageArgs, Declares;
    UsedByOne(stages, order, name);
  }

  predicate Declares(lines: seq<string>, name: string) {
    exists i :: 0 <= i < |lines| && ArgName(lines[i]) == Some(name)
  }

  lemma DeclaredExactly(lines: seq<string>, name: string)
    ensures name in DeclaredArgs(lines) <==> Declares(lines, name)
  {
    hide ArgName;
  }

  lemma UsedByOne(stages: Stages, order: seq<string>, name: string)
    requires forall x :: x in order ==> x in stages
    ensures name in UsedArgs(stages, order) <==> exists x :: x in order && name in StageArgs(stages[x])
  {
    hide StageArgs;
  }

  /** A base ${NAME}rest covers the stage that the value of NAME selects, and the
      value of NAME is hashed. */
  lemma FromVariable(stages: Stages, env: Env, target: string, order: seq<string>, x: string, name: string,
                     rest: string)
    requires BuiltFrom(stages, env, target, order) && x in order
    requires Identifier(name) && '$' !in rest && stages[x].base == "${" + name + "}" + rest
    ensures name in UsedArgs(stages, order)
    ensures var b := env.lower((if name in env.values then env.values[name] else "") + rest);
            b in stages ==> b in order
  {
    var base := stages[x].base;
    var b := env.lower((if name in env.values then env.values[name] else "") + rest);
    VariableRead(true, name, true, rest, env.values);
    NoVariables(rest, env.values);
    hide VarsIn, Expand, Identifier;
    assert base == Opening(true) + name + Closing(true) + rest;
    UsedExactly(stages, order, name);
    hide UsedArgs, FindRefs;
    if b in stages {
      EdgeExactly(stages, env, x, b);
      assert Writes(stages[x], base);
      ReachesFurther(stages, env, target, x, b);
    }
  }

  // ---------------------------------------------------------------------
  // A base that a variable selects
  // ---------------------------------------------------------------------

  function Line(name: string): string { "FROM scratch AS " + name }

  function Base(): string { "${DESKTOP}-rootfs" }

  function BaseLine(): string { "FROM ${DESKTOP}-rootfs AS desktop-rootfs" }

  /** The stages of two desktops, and the stage t based on the one chosen. */
  function Desktops(sway: string, gnome: string, t: string): Stages {
    map[sway := Stage("scratch", [Line(sway)]), gnome := Stage("scratch", [Line(gnome)]),
        t := Stage(Base(), [BaseLine()])]
  }

  function Choose(env: Env, v: string): Env { env.(values := map["DESKTOP" := v]) }

  lemma BaseReads(v: string)
    ensures Expand(Base(), map["DESKTOP" := v]) == v + "-rootfs" && VarsIn(Base()) == ["DESKTOP"]
  {
    hide VarsIn, Expand;
    BaseText();
    hide Base, Opening, Closing, Identifier;
    VariableRead(true, "DESKTOP", true, "-rootfs", map["DESKTOP" := v]);
    NoVariables("-rootfs", map["DESKTOP" := v]);
  }

  lemma BaseText()
    ensures Base() == Opening(true) + "DESKTOP" + Closing(true) + "-rootfs"
    ensures Identifier("DESKTOP") && '$' !in "-rootfs"
  {
  }

  lemma RefsOfLine(base: string, line: string)
    requires line != "" && line[0] != 'A' && '=' !in line
    ensures Refs(Stage(base, [line])) == [base] && StageArgs(Stage(base, [line])) == Elements(VarsIn(base))
  {
    NoRefs(line);
    LineRefsOf(line, line);
    NothingDeclared([line]);
    hide FindRefs, ArgName, VarsIn, LineRefs, DeclaredArgs;
  }

  lemma DesktopStage(v: string)
    ensures Refs(Stage(Base(), [BaseLine()])) == [Base()] && StageArgs(Stage(Base(), [BaseLine()])) == {"DESKTOP"}
  {
    hide Base, Refs, StageArgs, VarsIn;
    RefsOfLine(Base(), BaseLine());
    hide BaseLine;
    BaseReads(v);
    assert Elements(["DESKTOP"]) == {"DESKTOP"};
  }

  lemma ScratchStage(name: string)
    requires '=' !in name
    ensures Refs(Stage("scratch", [Line(name)])) == ["scratch"] && StageArgs(Stage("scratch", [Line(name)])) == {}
  {
    hide Refs, StageArgs, VarsIn;
    RefsOfLine("scratch", Line(name));
    NoVariables("scratch", map[]);
    assert Elements([]) == {};
  }

  /** A stage whose one reference stands for a stage whose own stands for none. */
  lemma OneBase(stages: Stages, e: Env, t: string, picked: string)
    requires t in stages && picked in stages && |Refs(stages[t])| == 1 && |Refs(stages[picked])| == 1
    requires Resolve(e, Refs(stages[t])[0]) == picked && Resolve(e, Refs(stages[picked])[0]) !in stages
    ensures forall x :: Reaches(stages, e, t, x) <==> x in {t, picked}
  {
    hide Refs, Resolve;
    forall y ensures Edge(stages, e, t, y) <==> y == picked { PlainEdges(stages, e, t, y); }
    forall y ensures !Edge(stages, e, picked, y) { PlainEdges(stages, e, picked, y); }
    hide Edge;
    ReachesItself(stages, e, t);
    ReachesFurther(stages, e, t, t, picked);
    forall x | Reaches(stages, e, t, x) ensures x in {t, picked} {
      var p :| IsPath(stages, e, p) && p[0] == t && p[|p| - 1] == x;
      ClosedHoldsPath(stages, e, {t, picked}, p);
    }
  }

  /** With this file the key of t covers the stage of the desktop chosen and no other,
      and the choice is hashed. */
  lemma ChosenDesktopIsCovered(env: Env, sway: string, gnome: string, t: string, v: string)
    requires (forall s :: env.lower(s) == s) && '=' !in sway && '=' !in gnome
    requires sway != gnome && t !in {sway, gnome} && "scratch" !in {sway, gnome, t} && v + "-rootfs" in {sway, gnome}
    ensures var (file, e, picked) := (Desktops(sway, gnome, t), Choose(env, v), v + "-rootfs");
            && (forall x :: Reaches(file, e, t, x) <==> x in {t, picked})
            && (forall k :: k in UsedArgs(file, [t, picked]) <==> k == "DESKTOP")
            && ValuesOf(e.values, UsedArgs(file, [t, picked]), ["DESKTOP"])
            && ArgLines(e.values, ["DESKTOP"]) == "DESKTOP=" + v + "\n"
  {
    var file, e, picked := Desktops(sway, gnome, t), Choose(env, v), v + "-rootfs";
    hide *;
    ChooseHolds(env, v);
    DesktopsHold(sway, gnome, t, picked);
    BaseReads(v);
    DesktopStage(v);
    ScratchStage(picked);
    NoVariables("scratch", e.values);
    OneValue(e.values, "DESKTOP");
    Resolved(e, Base());
    Resolved(e, "scratch");
    OneBase(file, e, t, picked);
    forall k ensures k in UsedArgs(file, [t, picked]) <==> k == "DESKTOP" { UsedByOne(file, [t, picked], k); }
    OneName(e.values, UsedArgs(file, [t, picked]), "DESKTOP");
  }

  lemma ChooseHolds(env: Env, v: string)
    ensures Choose(env, v).values == map["DESKTOP" := v] && Choose(env, v).lower == env.lower
  {
  }

  lemma Resolved(env: Env, ref: string)
    ensures Resolve(env, ref) == env.lower(Expand(ref, env.values))
  {
  }

  lemma OneName(values: map<string, string>, args: set<string>, k: string)
    requires args == {k} && k in values
    ensures ValuesOf(values, args, [k])
  {
  }

  lemma DesktopsHold(sway: string, gnome: string, t: string, picked: string)
    requires sway != gnome && t !in {sway, gnome} && "scratch" !in {sway, gnome, t} && picked in {sway, gnome}
    ensures var file := Desktops(sway, gnome, t);
            && t in file && picked in file && "scratch" !in file
            && file[t] == Stage(Base(), [BaseLine()]) && file[picked] == Stage("scratch", [Line(picked)])
  {
    hide Base, BaseLine, Line;
  }

  // ---------------------------------------------------------------------
  // The bytes
  // ---------------------------------------------------------------------

  /** The bytes of stages one after the other are those of the first and of the rest;
      of one stage, those of its lines in order; of a line, the line, a line end and
      what it copies from the context. */
  lemma {:induction false} LinesAppend(a: seq<string>, b: seq<string>, env: Env)
    ensures HashedLines(a + b, env) == HashedLines(a, env) + HashedLines(b, env)
  {
    if a == [] {
      assert a + b == b;
    } else {
      LinesAppend(a[1..], b, env);
      assert (a + b)[0] == a[0] && (a + b)[1..] == a[1..] + b;
      Assoc(a[0] + "\n" + env.context(a[0]), HashedLines(a[1..], env), HashedLines(b, env));
    }
  }

  lemma OneLine(line: string, env: Env)
    ensures HashedLines([line], env) == line + "\n" + env.context(line) && HashedLines([], env) == ""
  {
    assert [line][1..] == [];
  }

  lemma {:induction false} StagesAppend(stages: Stages, env: Env, a: seq<string>, b: seq<string>)
    requires forall x :: x in a || x in b ==> x in stages
    ensures HashedStages(stages, env, a + b) == HashedStages(stages, env, a) + HashedStages(stages, env, b)
  {
    hide HashedLines;
    if a == [] {
      assert a + b == b;
    } else {
      StagesAppend(stages, env, a[1..], b);
      assert (a + b)[0] == a[0] && (a + b)[1..] == a[1..] + b;
      Assoc(HashedLines(stages[a[0]].lines, env), HashedStages(stages, env, a[1..]), HashedStages(stages, env, b));
    }
  }

  lemma OneStage(stages: Stages, env: Env, x: string)
    requires x in stages
    ensures HashedStages(stages, env, [x]) == HashedLines(stages[x].lines, env)
    ensures HashedStages(stages, env, []) == ""
  {
    hide HashedLines;
    assert [x][1..] == [];
  }

  lemma {:induction false} ValuesAppend(values: map<string, string>, a: seq<string>, b: seq<string>)
    requires forall k :: k in a || k in b ==> k in values
    ensures ArgLines(values, a + b) == ArgLines(values, a) + ArgLines(values, b)
  {
    if a == [] {
      assert a + b == b;
    } else {
      ValuesAppend(values, a[1..], b);
      assert (a + b)[0] == a[0] && (a + b)[1..] == a[1..] + b;
      Assoc(a[0] + "=" + values[a[0]] + "\n", ArgLines(values, a[1..]), ArgLines(values, b));
    }
  }

  lemma OneValue(values: map<string, string>, k: string)
    requires k in values
    ensures ArgLines(values, [k]) == k + "=" + values[k] + "\n" && ArgLines(values, []) == ""
  {
    assert [k][1..] == [];
  }
}
