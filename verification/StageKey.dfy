/** tools/stage-key.py: which stages a key covers and in which order. */
module StageKey {
  import opened Wrappers
  import opened Arith
  import opened Release
  import opened StageText

  /** A parsed stage: its base and its logical lines, the FROM line first. */
  datatype Stage = Stage(base: string, lines: seq<string>)

  /** The values of the global ARGs; str.lower; and, of every line, what is hashed
      of the context files it copies. */
  datatype Env = Env(values: map<string, string>, lower: string -> string, context: string -> string)

  /** What a reference stands for under the values. */
  function Resolve(env: Env, ref: string): string {
    env.lower(Expand(ref, env.values))
  }

  type Stages = map<string, Stage>

  /** The references of a stage as written. */
  function LineRefs(lines: seq<string>): seq<string> {
    if lines == [] then [] else FindRefs(lines[0]) + LineRefs(lines[1..])
  }

  function Refs(s: Stage): seq<string> {
    [s.base] + LineRefs(s.lines)
  }

  /** Stage a names stage b. */
  predicate Edge(stages: Stages, env: Env, a: string, b: string) {
    a in stages && b in stages
    && exists i :: 0 <= i < |Refs(stages[a])| && Resolve(env, Refs(stages[a])[i]) == b
  }

  predicate IsPath(stages: Stages, env: Env, p: seq<string>) {
    p != [] && forall i :: 0 <= i < |p| - 1 ==> Edge(stages, env, p[i], p[i + 1])
  }

  /** From a, b is reached over zero or more references. */
  ghost predicate Reaches(stages: Stages, env: Env, a: string, b: string) {
    exists p :: IsPath(stages, env, p) && p[0] == a && p[|p| - 1] == b
  }

  lemma ReachesItself(stages: Stages, env: Env, a: string)
    ensures Reaches(stages, env, a, a)
  {
    assert IsPath(stages, env, [a]);
  }

  lemma ReachesFurther(stages: Stages, env: Env, a: string, b: string, c: string)
    requires Reaches(stages, env, a, b) && Edge(stages, env, b, c)
    ensures Reaches(stages, env, a, c)
  {
    var p :| IsPath(stages, env, p) && p[0] == a && p[|p| - 1] == b;
    var q := p + [c];
    forall i | 0 <= i < |q| - 1 ensures Edge(stages, env, q[i], q[i + 1]) {
      if i < |p| - 1 { assert q[i] == p[i] && q[i + 1] == p[i + 1]; }
    }
    assert IsPath(stages, env, q);
  }

  /** A set that holds a and whatever its members name holds all a reaches. */
  lemma {:induction false} ClosedHoldsPath(stages: Stages, env: Env, s: set<string>, p: seq<string>)
    requires IsPath(stages, env, p) && p[0] in s
    requires forall x, y :: x in s && Edge(stages, env, x, y) ==> y in s
    ensures p[|p| - 1] in s
    decreases |p|
  {
    if |p| > 1 {
      var q := p[..|p| - 1];
      forall i | 0 <= i < |q| - 1 ensures Edge(stages, env, q[i], q[i + 1]) {
        assert q[i] == p[i] && q[i + 1] == p[i + 1];
      }
      ClosedHoldsPath(stages, env, s, q);
      assert Edge(stages, env, p[|p| - 2], p[|p| - 1]);
    }
  }

  predicate Distinct(s: seq<string>) {
    forall i, j :: 0 <= i < j < |s| ==> s[i] != s[j]
  }

  function Elements(s: seq<string>): set<string> {
    set x | x in s
  }

  lemma {:induction false} DistinctSize(s: seq<string>)
    requires Distinct(s)
    ensures |Elements(s)| == |s|
  {
    if s != [] {
      DistinctSize(s[1..]);
      assert Elements(s) == Elements(s[1..]) + {s[0]};
      assert s[0] !in s[1..];
    }
  }

  /** Seen so far, still to do: what the worklist keeps. */
  ghost predicate Exploring(stages: Stages, env: Env, target: string, seen: seq<string>, todo: seq<string>) {
    Distinct(seen)
    && (target in seen || target in todo)
    && (forall x :: x in seen || x in todo ==> x in stages && Reaches(stages, env, target, x))
    && (forall x, y :: x in seen && Edge(stages, env, x, y) ==> y in seen || y in todo)
  }

  /** Push what a stage names and is not seen yet. */
  method AddRefs(stages: Stages, env: Env, target: string, name: string, seen: seq<string>, todo: seq<string>)
    returns (more: seq<string>)
    requires name in stages && Reaches(stages, env, target, name)
    requires forall x :: x in todo ==> x in stages && Reaches(stages, env, target, x)
    ensures forall x :: x in more ==> x in stages && Reaches(stages, env, target, x)
    ensures forall x :: x in todo ==> x in more
    ensures forall y :: Edge(stages, env, name, y) ==> y in seen || y in more
  {
    more := todo;
    var refs := Refs(stages[name]);
    hide Reaches, LineRefs;
    for i := 0 to |refs|
      invariant forall x :: x in more ==> x in stages && Reaches(stages, env, target, x)
      invariant forall x :: x in todo ==> x in more
      invariant forall k :: 0 <= k < i && Resolve(env, refs[k]) in stages ==>
                  Resolve(env, refs[k]) in seen || Resolve(env, refs[k]) in more
    {
      var r := Resolve(env, refs[i]);
      if r in stages && r !in seen {
        assert Edge(stages, env, name, r);
        ReachesFurther(stages, env, target, name, r);
        more := more + [r];
      }
    }
  }

  /** The stages the target is built from: exactly those it reaches, each once. */
  method Closure(stages: Stages, env: Env, target: string) returns (seen: seq<string>)
    requires target in stages
    ensures Distinct(seen)
    ensures forall x :: x in seen <==> Reaches(stages, env, target, x)
  {
    seen := [];
    var todo := [target];
    ReachesItself(stages, env, target);
    while todo != []
      invariant Exploring(stages, env, target, seen, todo)
      invariant |seen| <= |stages|
      decreases |stages| - |seen|, |todo|
    {
      var name := todo[|todo| - 1];
      ghost var before := todo;
      todo := todo[..|todo| - 1];
      assert before == todo + [name];
      if name in seen { continue; }
      ghost var was := seen;
      seen := seen + [name];
      RoomToGrow(stages, seen);
      todo := AddRefs(stages, env, target, name, seen, todo);
      forall x, y | x in seen && Edge(stages, env, x, y) ensures y in seen || y in todo {
        if x != name { assert x in was && (y in was || y in before); }
      }
    }
    forall x | Reaches(stages, env, target, x) ensures x in seen {
      var p :| IsPath(stages, env, p) && p[0] == target && p[|p| - 1] == x;
      ClosedHoldsPath(stages, env, Elements(seen), p);
    }
  }

  lemma RoomToGrow(stages: Stages, seen: seq<string>)
    requires Distinct(seen) && forall x :: x in seen ==> x in stages
    ensures |seen| <= |stages|
  {
    DistinctSize(seen);
    SubsetSize(Elements(seen), stages.Keys);
  }

  // ---------------------------------------------------------------------
  // The hashed order
  // ---------------------------------------------------------------------

  predicate Ascending(s: seq<string>) {
    forall i, j :: 0 <= i < j < |s| ==> StringLess(s[i], s[j])
  }

  /** sorted(). */
  function Sorted(s: seq<string>): (r: seq<string>)
    ensures forall x :: x in r <==> x in s
    ensures |r| == |s|
  {
    if s == [] then [] else Insert(s[0], Sorted(s[1..]))
  }

  function Insert(x: string, s: seq<string>): (r: seq<string>)
    ensures forall y :: y in r <==> y == x || y in s
    ensures |r| == |s| + 1
  {
    if s == [] || StringLess(x, s[0]) then [x] + s else [s[0]] + Insert(x, s[1..])
  }

  lemma {:induction false} InsertAscends(x: string, s: seq<string>)
    requires Ascending(s) && x !in s
    ensures Ascending(Insert(x, s))
  {
    if s == [] {
    } else if StringLess(x, s[0]) {
      forall j | 0 <= j < |s| ensures StringLess(x, s[j]) {
        if j > 0 { StringLessTransitive(x, s[0], s[j]); }
      }
    } else {
      StringLessTotal(x, s[0]);
      InsertAscends(x, s[1..]);
      var t := Insert(x, s[1..]);
      forall j | 0 <= j < |t| ensures StringLess(s[0], t[j]) {
        assert t[j] in t;
        if t[j] != x { var k :| 1 <= k < |s| && s[k] == t[j]; }
      }
    }
  }

  lemma {:induction false} SortedAscends(s: seq<string>)
    requires Distinct(s)
    ensures Ascending(Sorted(s))
  {
    if s != [] {
      SortedAscends(s[1..]);
      assert s[0] !in s[1..];
      InsertAscends(s[0], Sorted(s[1..]));
    }
  }

  /** An ascending sequence is determined by its elements. */
  lemma {:induction false} AscendingUnique(a: seq<string>, b: seq<string>)
    requires Ascending(a) && Ascending(b) && forall x :: x in a <==> x in b
    ensures a == b
  {
    assert b != [] ==> b[0] in a;
    assert a != [] ==> a[0] in b;
    if a != [] {
      LeastIsFirst(b, a[0], a);
      assert a[0] == b[0];
      forall x ensures x in a[1..] <==> x in b[1..] {
        RestIsOthers(a, x);
        RestIsOthers(b, x);
      }
      AscendingUnique(a[1..], b[1..]);
    }
  }

  lemma LeastIsFirst(b: seq<string>, x: string, a: seq<string>)
    requires Ascending(a) && Ascending(b) && a != [] && a[0] == x && x in b && forall y :: y in a <==> y in b
    ensures b[0] == x
  {
    var y := b[0];
    StringLessTotal(x, y);
    var i :| 0 <= i < |b| && b[i] == x;
    assert y in a;
    var j :| 0 <= j < |a| && a[j] == y;
    assert i > 0 ==> StringLess(y, x);
    assert j > 0 ==> StringLess(x, y);
  }

  lemma RestIsOthers(a: seq<string>, x: string)
    requires Ascending(a) && a != []
    ensures x in a[1..] <==> x in a && x != a[0]
  {
    StringLessTotal(a[0], a[0]);
    assert a == [a[0]] + a[1..];
  }

  /** The order in which stages are hashed depends on the set of stages only. */
  lemma OrderOfSet(a: seq<string>, b: seq<string>)
    requires Distinct(a) && Distinct(b)
    ensures Sorted(a) == Sorted(b) <==> Elements(a) == Elements(b)
  {
    SortedAscends(a);
    SortedAscends(b);
    if Elements(a) == Elements(b) {
      forall x ensures x in Sorted(a) <==> x in Sorted(b) {
        assert x in a <==> x in Elements(a);
        assert x in b <==> x in Elements(b);
      }
      AscendingUnique(Sorted(a), Sorted(b));
    }
    if Sorted(a) == Sorted(b) {
      assert forall x :: x in a <==> x in Sorted(a);
      assert forall x :: x in b <==> x in Sorted(b);
    }
  }

  // ---------------------------------------------------------------------
  // What is hashed of the stages
  // ---------------------------------------------------------------------

  /** The bytes hashed: one update after the other, with nothing in between. */
  function HashedLines(lines: seq<string>, env: Env): string {
    if lines == [] then "" else lines[0] + "\n" + env.context(lines[0]) + HashedLines(lines[1..], env)
  }

  function HashedStages(stages: Stages, env: Env, order: seq<string>): string
    requires forall x :: x in order ==> x in stages
  {
    if order == [] then ""
    else HashedLines(stages[order[0]].lines, env) + HashedStages(stages, env, order[1..])
  }

  function DeclaredArgs(lines: seq<string>): set<string> {
    set i | 0 <= i < |lines| && ArgName(lines[i]).Some? :: ArgName(lines[i]).value
  }

  /** The ARGs a stage names: in its base, and in its ARG lines. */
  function StageArgs(s: Stage): set<string> {
    Elements(VarsIn(s.base)) + DeclaredArgs(s.lines)
  }

  function UsedArgs(stages: Stages, order: seq<string>): set<string>
    requires forall x :: x in order ==> x in stages
  {
    set x, k | x in order && k in StageArgs(stages[x]) :: k
  }

  /** k=v lines, v the value of ARG k. */
  function ArgLines(values: map<string, string>, names: seq<string>): string
    requires forall k :: k in names ==> k in values
  {
    if names == [] then "" else names[0] + "=" + values[names[0]] + "\n" + ArgLines(values, names[1..])
  }

  /** The names of args that have a value, in the order in which they are hashed. */
  ghost predicate ValuesOf(values: map<string, string>, args: set<string>, names: seq<string>) {
    Ascending(names) && forall k :: k in names <==> k in args && k in values
  }

  /** seen, in the order in which it is hashed. */
  ghost predicate BuiltFrom(stages: Stages, env: Env, target: string, order: seq<string>) {
    Ascending(order) && forall x :: x in order <==> x in stages && Reaches(stages, env, target, x)
  }

  /** There is one such order. */
  lemma BuiltFromUnique(stages: Stages, env: Env, target: string, a: seq<string>, b: seq<string>)
    requires BuiltFrom(stages, env, target, a) && BuiltFrom(stages, env, target, b)
    ensures a == b
  {
    AscendingUnique(a, b);
  }

  /** What is hashed; an unknown stage ends the program. */
  method HashInput(stages: Stages, env: Env, target: string)
    returns (input: Option<string>, ghost order: seq<string>, ghost names: seq<string>)
    ensures input.None? <==> target !in stages
    ensures input.Some? ==> BuiltFrom(stages, env, target, order)
    ensures input.Some? ==> ValuesOf(env.values, UsedArgs(stages, order), names)
    ensures input.Some? ==> input.value == HashedStages(stages, env, order) + ArgLines(env.values, names)
  {
    order, names := [], [];
    if target !in stages { return None, [], []; }
    var seen := Closure(stages, env, target);
    var stageNames := Sorted(seen);
    SortedAscends(seen);
    OnlyStages(stages, env, target);
    hide Reaches, UsedArgs, HashedStages, ArgLines;
    order := stageNames;
    var h, used := HashStages(stages, env, stageNames);
    var argNames, argLines := HashArgs(env.values, used);
    names := argNames;
    input := Some(h + argLines);
  }

  method HashArgs(resolved: map<string, string>, used: set<string>) returns (names: seq<string>, h: string)
    ensures ValuesOf(resolved, used, names) && h == ArgLines(resolved, names)
  {
    var args := ElementsOf(used * resolved.Keys);
    names := Sorted(args);
    SortedAscends(args);
    hide Ascending;
    h := "";
    for i := 0 to |names|
      invariant forall k :: k in names[i..] ==> k in resolved
      invariant h + ArgLines(resolved, names[i..]) == ArgLines(resolved, names)
    {
      assert names[i] in names && names[i..][0] == names[i] && names[i..][1..] == names[i + 1..];
      h := h + (names[i] + "=" + resolved[names[i]] + "\n");
    }
    assert names[|names|..] == [];
  }

  /** The members of a set, in some order: sorted() makes it one. */
  method ElementsOf(s: set<string>) returns (r: seq<string>)
    ensures Distinct(r) && Elements(r) == s && forall x :: x in r <==> x in s
  {
    r := [];
    var rest := s;
    while rest != {}
      invariant Distinct(r) && rest <= s && forall x :: x in r <==> x in s && x !in rest
    {
      var x :| x in rest;
      r := r + [x];
      rest := rest - {x};
    }
  }

  method HashStages(stages: Stages, env: Env, names: seq<string>) returns (h: string, used: set<string>)
    requires forall x :: x in names ==> x in stages
    ensures h == HashedStages(stages, env, names) && used == UsedArgs(stages, names)
  {
    h, used := "", {};
    for i := 0 to |names|
      invariant h + HashedStages(stages, env, names[i..]) == HashedStages(stages, env, names)
      invariant used == UsedArgs(stages, names[..i])
    {
      assert names[i] in names && names[i..][0] == names[i] && names[i..][1..] == names[i + 1..];
      var lines := stages[names[i]].lines;
      ghost var so := h;
      var declared: set<string>;
      h, declared := HashLines(lines, env, h);
      used := used + Elements(VarsIn(stages[names[i]].base)) + declared;
      UsedOnceMore(stages, names, i);
      Assoc(so, HashedLines(lines, env), HashedStages(stages, env, names[i + 1..]));
    }
    assert names[|names|..] == [] && names[..|names|] == names;
  }

  lemma UsedOnceMore(stages: Stages, names: seq<string>, i: nat)
    requires i < |names| && forall x :: x in names ==> x in stages
    ensures names[i] in stages
    ensures UsedArgs(stages, names[..i + 1]) ==
              UsedArgs(stages, names[..i]) + StageArgs(stages[names[i]])
  {
    hide StageArgs;
    assert names[..i + 1] == names[..i] + [names[i]];
  }

  method HashLines(lines: seq<string>, env: Env, so: string) returns (h: string, declared: set<string>)
    ensures h == so + HashedLines(lines, env) && declared == DeclaredArgs(lines)
  {
    h, declared := so, {};
    for k := 0 to |lines|
      invariant h + HashedLines(lines[k..], env) == so + HashedLines(lines, env)
      invariant declared == DeclaredArgs(lines[..k])
    {
      assert lines[k..][0] == lines[k] && lines[k..][1..] == lines[k + 1..];
      DeclaredOnceMore(lines, k);
      if ArgName(lines[k]).Some? { declared := declared + {ArgName(lines[k]).value}; }
      Regroup(h, lines[k] + "\n", env.context(lines[k]), HashedLines(lines[k + 1..], env));
      h := h + (lines[k] + "\n");
      h := h + env.context(lines[k]);
    }
    assert lines[|lines|..] == [] && lines[..|lines|] == lines;
  }

  lemma DeclaredOnceMore(lines: seq<string>, k: nat)
    requires k < |lines|
    ensures DeclaredArgs(lines[..k + 1])
         == DeclaredArgs(lines[..k]) + if ArgName(lines[k]).Some? then {ArgName(lines[k]).value} else {}
  {
    var a, b := lines[..k], lines[..k + 1];
    forall x | x in DeclaredArgs(b)
      ensures x in DeclaredArgs(a) || (ArgName(lines[k]).Some? && x == ArgName(lines[k]).value)
    {
      var i :| 0 <= i < |b| && ArgName(b[i]).Some? && ArgName(b[i]).value == x;
      if i < k { assert a[i] == b[i]; }
    }
    forall x | x in DeclaredArgs(a) ensures x in DeclaredArgs(b) {
      var i :| 0 <= i < |a| && ArgName(a[i]).Some? && ArgName(a[i]).value == x;
      assert a[i] == b[i];
    }
    if ArgName(lines[k]).Some? { assert b[k] == lines[k]; }
  }

  /** Whatever a stage reaches is a stage. */
  lemma OnlyStages(stages: Stages, env: Env, target: string)
    requires target in stages
    ensures forall x :: Reaches(stages, env, target, x) ==> x in stages
  {
    forall x | Reaches(stages, env, target, x) ensures x in stages {
      var p :| IsPath(stages, env, p) && p[0] == target && p[|p| - 1] == x;
      ClosedHoldsPath(stages, env, stages.Keys, p);
    }
  }
}
