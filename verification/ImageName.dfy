/** update/ref.go: the repository names that its scan accepts are those of the
    grammar: runs of lower-case letters and digits with separators between them. */
module ImageName {
  import opened ImageRef

  predicate IsRun(r: string) {
    r != "" && forall c :: c in r ==> '0' <= c <= '9' || 'a' <= c <= 'z'
  }

  predicate IsSeparator(t: string) {
    t in {"/", ".", "_", "__"} || (t != "" && forall c :: c in t ==> c == '-')
  }

  function Weave(runs: seq<string>, seps: seq<string>): string
    requires |runs| == |seps| + 1
  {
    if seps == [] then runs[0] else runs[0] + seps[0] + Weave(runs[1..], seps[1..])
  }

  predicate Grammatical(runs: seq<string>, seps: seq<string>) {
    && |runs| == |seps| + 1
    && (forall i :: 0 <= i < |runs| ==> IsRun(runs[i]))
    && (forall i :: 0 <= i < |seps| ==> IsSeparator(seps[i]))
  }

  /** A repository name is accepted exactly when it is woven of runs and separators. */
  lemma NameExactly(s: string)
    ensures IsName(s) <==> exists runs, seps :: Grammatical(runs, seps) && s == Weave(runs, seps)
  {
    if IsName(s) { var runs, seps := Unweave(s); }
    if runs, seps :| Grammatical(runs, seps) && s == Weave(runs, seps) { WovenIsName(Start, runs, seps); }
  }

  lemma {:induction false} ScanOn(q: NameScan, a: string, b: string)
    ensures NameState(q, a + b) == NameState(NameState(q, a), b)
    decreases |a|
  {
    hide NameStep;
    if a == "" {
      assert a + b == b;
    } else {
      assert (a + b)[0] == a[0] && (a + b)[1..] == a[1..] + b;
      ScanOn(NameStep(q, a[0]), a[1..], b);
    }
  }

  lemma {:induction false} ScanRun(q: NameScan, r: string)
    requires q != Reject && IsRun(r)
    ensures NameState(q, r) == Run
    decreases |r|
  {
    assert r[0] in r && NameStep(q, r[0]) == Run;
    assert forall c :: c in r[1..] ==> c in r;
    if |r| > 1 { ScanRun(Run, r[1..]); }
  }

  lemma {:induction false} ScanDashes(t: string)
    requires forall c :: c in t ==> c == '-'
    ensures NameState(Dashes, t) == Dashes
    decreases |t|
  {
    if t != "" {
      assert t[0] in t && forall c :: c in t[1..] ==> c in t;
      ScanDashes(t[1..]);
    }
  }

  lemma ScanSeparator(t: string)
    requires IsSeparator(t)
    ensures NameState(Run, t) != Reject
  {
    assert NameState(Run, t) == NameState(NameStep(Run, t[0]), t[1..]);
    if t == "__" {
      assert t[1..] == "_" && t[1..][1..] == "";
    } else if t in {"/", ".", "_"} {
      assert t[1..] == "";
    } else {
      assert t[0] in t && forall c :: c in t[1..] ==> c in t;
      ScanDashes(t[1..]);
    }
  }

  lemma {:induction false} WovenIsName(q: NameScan, runs: seq<string>, seps: seq<string>)
    requires q != Reject && Grammatical(runs, seps)
    ensures NameState(q, Weave(runs, seps)) == Run
    decreases |seps|
  {
    hide IsRun, IsSeparator, NameState;
    ScanRun(q, runs[0]);
    if seps != [] {
      var rest := Weave(runs[1..], seps[1..]);
      ScanSeparator(seps[0]);
      ScanOn(q, runs[0], seps[0] + rest);
      ScanOn(Run, seps[0], rest);
      WovenIsName(NameState(Run, seps[0]), runs[1..], seps[1..]);
      assert Weave(runs, seps) == runs[0] + (seps[0] + rest);
    }
  }

  lemma LastStep(s: string)
    requires s != ""
    ensures NameState(Start, s) == NameStep(NameState(Start, s[..|s| - 1]), s[|s| - 1])
  {
    var t, c := s[..|s| - 1], s[|s| - 1];
    hide NameStep;
    assert s == t + [c] && [c][1..] == "";
    ScanOn(Start, t, [c]);
  }

  /** Inside a separator the scan has a name behind it. */
  lemma {:induction false} NameBehind(t: string) returns (u: string, sep: string)
    requires t != "" && NameState(Start, t) !in {Run, Reject}
    ensures t == u + sep && |u| < |t| && NameState(Start, u) == Run && IsSeparator(sep)
    ensures NameState(Start, t) == Under ==> sep == "_"
    ensures NameState(Start, t) == Dashes ==> forall c :: c in sep ==> c == '-'
    decreases |t|
  {
    var front, c := t[..|t| - 1], t[|t| - 1];
    LastStep(t);
    hide NameState;
    assert t == front + [c];
    if NameState(Start, front) == Run {
      u, sep := front, [c];
      assert [c] == "/" || [c] == "." || [c] == "_" || [c] == "-";
    } else {
      assert front == "" ==> NameState(Start, front) == Start by { StartsThere(); }
      u, sep := NameBehind(front);
      assert (c == '_' && sep == "_") || (c == '-' && NameState(Start, front) == Dashes);
      sep := sep + [c];
      assert t == u + sep && (sep == "__" || c == '-');
    }
  }

  lemma StartsThere()
    ensures NameState(Start, "") == Start
  {
  }

  lemma {:induction false} Unweave(s: string) returns (runs: seq<string>, seps: seq<string>)
    requires IsName(s)
    ensures Grammatical(runs, seps) && s == Weave(runs, seps)
    decreases |s|
  {
    NameFree(s);
    LastStep(s);
    var front, c := s[..|s| - 1], s[|s| - 1];
    hide NameState;
    assert s == front + [c] && ('0' <= c <= '9' || 'a' <= c <= 'z');
    hide NameStep;
    if front == "" {
      runs, seps := [s], [];
    } else if NameState(Start, front) == Run {
      runs, seps := Unweave(front);
      LongerRun(runs, seps, c);
      runs := runs[|seps| := runs[|seps|] + [c]];
    } else {
      var u, sep := NameBehind(front);
      runs, seps := Unweave(u);
      OneMoreRun(runs, seps, sep, [c]);
      runs, seps := runs + [[c]], seps + [sep];
      assert s == u + sep + [c];
    }
  }

  lemma {:induction false} LongerRun(runs: seq<string>, seps: seq<string>, c: char)
    requires |runs| == |seps| + 1
    ensures Weave(runs[|seps| := runs[|seps|] + [c]], seps) == Weave(runs, seps) + [c]
    decreases |seps|
  {
    if seps != [] {
      var next := runs[|seps| := runs[|seps|] + [c]];
      LongerRun(runs[1..], seps[1..], c);
      assert next[1..] == runs[1..][|seps| - 1 := runs[|seps|] + [c]];
    }
  }

  lemma {:induction false} OneMoreRun(runs: seq<string>, seps: seq<string>, sep: string, r: string)
    requires |runs| == |seps| + 1
    ensures Weave(runs + [r], seps + [sep]) == Weave(runs, seps) + sep + r
    decreases |seps|
  {
    var moreRuns, moreSeps := runs + [r], seps + [sep];
    if seps == [] {
      assert moreRuns[1..] == [r] && moreSeps[1..] == [];
    } else {
      OneMoreRun(runs[1..], seps[1..], sep, r);
      assert moreRuns[1..] == runs[1..] + [r] && moreSeps[1..] == seps[1..] + [sep];
      assert moreSeps[0] == seps[0];
    }
  }
}
