/** agent/internal/files/service.go Patch: plan every file in memory, then
    replace the files one at a time with a backup of each, and roll back on the
    first error. The file system is a map from cleaned path to node; every
    operation on it may fail at any time. */
module PatchFiles {
  import opened Wrappers
  import opened Replacement

  const MAX_REPLACEMENTS := 128
  const MAX_AGGREGATE := 8 * 1024 * 1024

  /** perm holds the permission bits, special the set-id and sticky bits. */
  datatype Node = Regular(data: string, perm: nat, special: nat) | Symlink | Directory

  datatype Code = Cancelled | NotFound | Forbidden | InternalError | InvalidArgument | AlreadyExists | ResourceExhausted

  /** Names that CreateTemp hands out end in ".tmp". */
  predicate TempName(name: string) {
    |name| >= 4 && name[|name| - 4..] == ".tmp"
  }

  /** Everything f held outside except is still in g, unchanged. */
  ghost predicate Keeps(f: map<string, Node>, g: map<string, Node>, except: set<string>) {
    forall p :: p in f && p !in except ==> p in g && g[p] == f[p]
  }

  /** Whatever g holds that f did not is a temporary file or one of extra. */
  ghost predicate OnlyAdds(f: map<string, Node>, g: map<string, Node>, extra: set<string>) {
    forall p :: p in g && p !in f ==> TempName(p) || p in extra
  }

  class FileSystem {
    /** filepath.Clean: two paths name one file when they clean alike. */
    const clean: string -> string
    var files: map<string, Node>
    /** History: some operation failed for a reason of its own. */
    ghost var faulted: bool

    constructor (clean: string -> string)
      ensures this.clean == clean && files == map[] && !faulted
    {
      this.clean := clean;
      files := map[];
      faulted := false;
    }

    method Lstat(path: string) returns (r: Result<Node, Code>)
      modifies this`faulted
      ensures r.Ok? ==> clean(path) in files && r.value == files[clean(path)]
      ensures r.Err? ==> faulted || clean(path) !in files
      ensures old(faulted) ==> faulted
    {
      var fails: bool := *;
      if fails {
        faulted := true;
        return Err(Forbidden);
      }
      if clean(path) !in files { return Err(NotFound); }
      return Ok(files[clean(path)]);
    }

    method ReadFile(path: string) returns (r: Result<string, Code>)
      modifies this`faulted
      ensures r.Err? ==> faulted || clean(path) !in files || !files[clean(path)].Regular?
      ensures old(faulted) ==> faulted
      ensures r.Ok? ==> clean(path) in files && files[clean(path)].Regular? && r.value == files[clean(path)].data
    {
      var fails: bool := *;
      if fails { faulted := true; }
      if fails || clean(path) !in files || !files[clean(path)].Regular? { return Err(InternalError); }
      return Ok(files[clean(path)].data);
    }

    /** os.WriteFile of a name that does not exist yet: an error may leave the
        file there, empty or in part. */
    method WriteNew(path: string, data: string) returns (ok: bool)
      requires clean(path) !in files
      modifies this
      ensures ok ==> files == old(files)[clean(path) := Regular(data, 0x180, 0)]
      ensures !ok ==> Keeps(old(files), files, {}) && files.Keys <= old(files.Keys) + {clean(path)}
      ensures faulted == (old(faulted) || !ok)
    {
      ok := *;
      if !ok { faulted := true; }
      var made: bool, part: string := *, *;
      if ok { files := files[clean(path) := Regular(data, 0x180, 0)]; }
      else if made { files := files[clean(path) := Regular(part, 0x180, 0)]; }
    }

    method CreateTemp() returns (t: Option<string>)
      modifies this
      ensures t.None? ==> files == old(files)
      ensures faulted == (old(faulted) || t.None?)
      ensures t.Some? ==> TempName(t.value) && t.value !in old(files)
      ensures t.Some? ==> files == old(files)[t.value := Regular("", 0x180, 0)]
    {
      var name: string := *;
      if name in files || !TempName(name) {
        faulted := true;
        return None;
      }
      files := files[name := Regular("", 0x180, 0)];
      return Some(name);
    }

    method WriteTemp(t: string, data: string) returns (ok: bool)
      requires t in files && files[t].Regular?
      modifies this
      ensures t in files && files[t].Regular? && files == old(files)[t := files[t]]
      ensures ok ==> files[t] == old(files[t]).(data := data)
      ensures faulted == (old(faulted) || !ok)
    {
      ok := *;
      if !ok { faulted := true; }
      var part: string := *;
      files := files[t := files[t].(data := if ok then data else part)];
    }

    method Chmod(t: string, perm: nat) returns (ok: bool)
      requires t in files && files[t].Regular?
      modifies this
      ensures files == if ok then old(files)[t := old(files[t]).(perm := perm)] else old(files)
      ensures faulted == (old(faulted) || !ok)
    {
      ok := *;
      if !ok { faulted := true; }
      if ok { files := files[t := files[t].(perm := perm)]; }
    }

    /** fsync or close. */
    method Flush() returns (ok: bool)
      modifies this`faulted
      ensures faulted == (old(faulted) || !ok)
    {
      ok := *;
      if !ok { faulted := true; }
    }

    /** rename(2): all or nothing. */
    method Rename(t: string, path: string) returns (ok: bool)
      requires t in files
      modifies this
      ensures files == if ok then (old(files) - {t})[clean(path) := old(files[t])] else old(files)
      ensures faulted == (old(faulted) || !ok)
    {
      ok := *;
      if !ok { faulted := true; }
      if ok { files := (files - {t})[clean(path) := files[t]]; }
    }

    method Remove(name: string)
      modifies this`files
      ensures files == old(files) || files == old(files) - {name}
    {
      var ok: bool := *;
      if ok { files := files - {name}; }
    }
  }

  /** Atomic replacement through a temporary file: the path holds its old node
      or the new one, whatever fails; nothing else changes but leftover
      temporary files. */
  method ReplaceFile(fs: FileSystem, path: string, data: string, perm: nat) returns (err: bool)
    modifies fs
    ensures err ==> Keeps(old(fs.files), fs.files, {})
    ensures !err ==> Keeps(old(fs.files), fs.files, {fs.clean(path)})
    ensures !err ==> fs.clean(path) in fs.files && fs.files[fs.clean(path)] == Regular(data, perm, 0)
    ensures OnlyAdds(old(fs.files), fs.files, if err then {} else {fs.clean(path)})
    ensures fs.faulted == (old(fs.faulted) || err)
  {
    var t := fs.CreateTemp();
    if t.None? { return true; }
    var ok := fs.WriteTemp(t.value, data);
    if ok { ok := fs.Chmod(t.value, perm); }
    if ok { ok := fs.Flush(); }
    if ok { ok := fs.Flush(); }
    if ok { ok := fs.Rename(t.value, path); }
    if !ok { fs.Remove(t.value); }
    return !ok;
  }

  // ---------------------------------------------------------------------
  // Planning
  // ---------------------------------------------------------------------

  datatype PatchFile = PatchFile(path: string, edits: seq<Edit>)

  /** One file's computed replacement. */
  datatype Plan = Plan(path: string, original: string, updated: string, perm: nat)

  predicate ValidInput(input: seq<PatchFile>) {
    input != [] && forall f :: f in input ==> f.path != "" && f.edits != [] && ValidEdits(f.edits)
  }

  ghost predicate Distinct(clean: string -> string, input: seq<PatchFile>) {
    forall i, j :: 0 <= i < j < |input| ==> clean(input[i].path) != clean(input[j].path)
  }

  /** Plan p is what file f asks of the file system content. */
  ghost predicate PlanFits(clean: string -> string, files: map<string, Node>, f: PatchFile, p: Plan)
    requires ValidEdits(f.edits)
  {
    && p.path == f.path
    && clean(f.path) in files && files[clean(f.path)].Regular?
    && p.original == files[clean(f.path)].data && p.perm == files[clean(f.path)].perm
    && |p.original| <= MAX_AGGREGATE
    && Applicable(p.original, f.edits)
    && p.updated == Rewritten(p.original, f.edits)
  }

  ghost predicate PlansFit(clean: string -> string, files: map<string, Node>, input: seq<PatchFile>, plans: seq<Plan>)
    requires ValidInput(input)
  {
    |plans| == |input| && forall i :: 0 <= i < |input| ==> PlanFits(clean, files, input[i], plans[i])
  }

  function SumApplied(input: seq<PatchFile>, plans: seq<Plan>): nat
    requires |plans| == |input| && forall f :: f in input ==> ValidEdits(f.edits)
    decreases |input|
  {
    if input == [] then 0
    else
      var n := |input| - 1;
      SumApplied(input[..n], plans[..n]) + TotalApplied(plans[n].original, input[n].edits)
  }

  function SumSizes(plans: seq<Plan>): nat
    decreases |plans|
  {
    if plans == [] then 0 else SumSizes(plans[..|plans| - 1]) + |plans[|plans| - 1].updated|
  }

  /** The plans a patch may be applied with: it fits the files and stays within
      both caps. */
  ghost predicate Acceptable(clean: string -> string, files: map<string, Node>, input: seq<PatchFile>,
                             plans: seq<Plan>) {
    && ValidInput(input)
    && Distinct(clean, input)
    && PlansFit(clean, files, input, plans)
    && SumApplied(input, plans) <= MAX_REPLACEMENTS
    && SumSizes(plans) <= MAX_AGGREGATE
  }

  method FindDuplicate(fs: FileSystem, input: seq<PatchFile>) returns (dup: bool)
    ensures dup <==> !Distinct(fs.clean, input)
  {
    var seen: set<string> := {};
    for i := 0 to |input|
      invariant forall p :: p in seen <==> exists k :: 0 <= k < i && fs.clean(input[k].path) == p
      invariant forall j, k :: 0 <= j < k < i ==> fs.clean(input[j].path) != fs.clean(input[k].path)
    {
      if fs.clean(input[i].path) in seen { return true; }
      seen := seen + {fs.clean(input[i].path)};
    }
    return false;
  }

  /** Apply a file's edits to its content one by one. */
  method PlanEdits(original: string, edits: seq<Edit>, total: nat) returns (r: Result<(string, nat), Code>)
    requires ValidEdits(edits)
    ensures r.Ok? <==>
              && Applicable(original, edits)
              && (edits != [] ==> total + TotalApplied(original, edits) <= MAX_REPLACEMENTS)
    ensures r.Ok? ==> r.value == (Rewritten(original, edits), total + TotalApplied(original, edits))
  {
    hide Count, ReplaceAll, ReplaceFirst;
    var content, n := original, total;
    for i := 0 to |edits|
      invariant Applicable(original, edits) == Applicable(content, edits[i..])
      invariant Rewritten(original, edits) == Rewritten(content, edits[i..])
      invariant total + TotalApplied(original, edits) == n + TotalApplied(content, edits[i..])
      invariant i > 0 ==> n <= MAX_REPLACEMENTS
    {
      var e := edits[i];
      assert e in edits;
      assert edits[i..][1..] == edits[i + 1..];
      var count := Count(content, e.pat);
      if count == 0 { return Err(NotFound); }
      if count > 1 && !e.all { return Err(InvalidArgument); }
      var applied := 1;
      if e.all {
        content, applied := ReplaceAll(content, e.pat, e.rep), count;
      } else {
        content := ReplaceFirst(content, e.pat, e.rep);
      }
      n := n + applied;
      if n > MAX_REPLACEMENTS { return Err(ResourceExhausted); }
    }
    return Ok((content, n));
  }

  /** Read one file and plan it; nothing is written. */
  method PlanFile(fs: FileSystem, f: PatchFile, total: nat) returns (r: Result<(Plan, nat), Code>)
    requires f.path != "" && f.edits != [] && ValidEdits(f.edits)
    modifies fs`faulted
    ensures old(fs.faulted) ==> fs.faulted
    ensures r.Ok? ==>
              && PlanFits(fs.clean, fs.files, f, r.value.0)
              && r.value.1 == total + TotalApplied(r.value.0.original, f.edits) <= MAX_REPLACEMENTS
    ensures r.Err? && !fs.faulted ==>
              forall p :: PlanFits(fs.clean, fs.files, f, p) ==>
                  total + TotalApplied(p.original, f.edits) > MAX_REPLACEMENTS
  {
    var st := fs.Lstat(f.path);
    if st.Err? { return Err(st.error); }
    if st.value.Symlink? { return Err(AlreadyExists); }
    if st.value.Directory? { return Err(InvalidArgument); }
    if |st.value.data| > MAX_AGGREGATE { return Err(ResourceExhausted); }
    var original := fs.ReadFile(f.path);
    if original.Err? { return Err(original.error); }
    var planned := PlanEdits(original.value, f.edits, total);
    if planned.Err? { return Err(planned.error); }
    return Ok((Plan(f.path, original.value, planned.value.0, st.value.perm), planned.value.1));
  }

  /** The plans of the first n files, their totals and what they leave open. */
  ghost predicate PlannedUpTo(fs: FileSystem, input: seq<PatchFile>, n: nat, plans: seq<Plan>, total: nat, bytes: nat)
    requires ValidInput(input)
    reads fs`files
  {
    && |plans| == n <= |input|
    && (forall i :: 0 <= i < n ==> PlanFits(fs.clean, fs.files, input[i], plans[i]))
    && total == SumApplied(input[..n], plans)
    && bytes == SumSizes(plans)
    && (n > 0 ==> total <= MAX_REPLACEMENTS)
    && bytes <= MAX_AGGREGATE
  }

  lemma PlanIsUnique(clean: string -> string, files: map<string, Node>, f: PatchFile, p: Plan, q: Plan)
    requires ValidEdits(f.edits) && PlanFits(clean, files, f, p) && PlanFits(clean, files, f, q)
    ensures p == q
  {
  }

  lemma SumsGrow(input: seq<PatchFile>, plans: seq<Plan>, n: nat)
    requires |plans| == |input| && n <= |input| && forall f :: f in input ==> ValidEdits(f.edits)
    ensures SumApplied(input[..n], plans[..n]) <= SumApplied(input, plans)
    ensures SumSizes(plans[..n]) <= SumSizes(plans)
    decreases |input| - n
  {
    if n < |input| {
      SumsGrow(input, plans, n + 1);
      assert input[..n + 1][..n] == input[..n] && plans[..n + 1][..n] == plans[..n];
    } else {
      assert input[..n] == input && plans[..n] == plans;
    }
  }

  /** If file n cannot extend the plans, no plans are acceptable. */
  lemma NoPlansAfter(fs: FileSystem, input: seq<PatchFile>, n: nat, plans: seq<Plan>, total: nat, bytes: nat,
                     all: seq<Plan>)
    requires ValidInput(input) && n < |input| && PlannedUpTo(fs, input, n, plans, total, bytes)
    requires PlansFit(fs.clean, fs.files, input, all)
    ensures plans == all[..n]
    ensures total + TotalApplied(all[n].original, input[n].edits) <= SumApplied(input, all)
    ensures bytes + |all[n].updated| <= SumSizes(all)
  {
    hide Applicable, Rewritten, TotalApplied;
    forall i | 0 <= i < n
      ensures plans[i] == all[i]
    {
      PlanIsUnique(fs.clean, fs.files, input[i], plans[i], all[i]);
    }
    assert plans == all[..n];
    SumsGrow(input, all, n + 1);
    assert input[..n + 1][..n] == input[..n] && all[..n + 1][..n] == all[..n];
  }

  /** File n has no plan within the limit. */
  lemma NoneFits(fs: FileSystem, input: seq<PatchFile>, n: nat, plans: seq<Plan>, total: nat, bytes: nat)
    requires ValidInput(input) && n < |input| && PlannedUpTo(fs, input, n, plans, total, bytes)
    requires forall p :: PlanFits(fs.clean, fs.files, input[n], p) ==>
               input[n] in input && total + TotalApplied(p.original, input[n].edits) > MAX_REPLACEMENTS
    ensures forall all :: !Acceptable(fs.clean, fs.files, input, all)
  {
    hide PlannedUpTo, PlanFits, TotalApplied, SumSizes, Distinct;
    forall all ensures !Acceptable(fs.clean, fs.files, input, all) {
      if PlansFit(fs.clean, fs.files, input, all) { NoPlansAfter(fs, input, n, plans, total, bytes, all); }
    }
  }

  /** File n takes the plans over the cap on bytes. */
  lemma TooManyBytes(fs: FileSystem, input: seq<PatchFile>, n: nat, plans: seq<Plan>, total: nat, bytes: nat, p: Plan)
    requires ValidInput(input) && n < |input| && PlannedUpTo(fs, input, n, plans, total, bytes)
    requires PlanFits(fs.clean, fs.files, input[n], p) && bytes + |p.updated| > MAX_AGGREGATE
    ensures forall all :: !Acceptable(fs.clean, fs.files, input, all)
  {
    assert input[n] in input;
    hide PlannedUpTo, PlanFits, TotalApplied, SumApplied, Distinct;
    forall all ensures !Acceptable(fs.clean, fs.files, input, all) {
      if PlansFit(fs.clean, fs.files, input, all) {
        NoPlansAfter(fs, input, n, plans, total, bytes, all);
        PlanIsUnique(fs.clean, fs.files, input[n], p, all[n]);
      }
    }
  }

  lemma OnePlanned(fs: FileSystem, input: seq<PatchFile>, n: nat, plans: seq<Plan>, total: nat, bytes: nat, p: Plan)
    requires ValidInput(input) && n < |input| && PlannedUpTo(fs, input, n, plans, total, bytes)
    requires PlanFits(fs.clean, fs.files, input[n], p) && bytes + |p.updated| <= MAX_AGGREGATE
    requires input[n] in input && total + TotalApplied(p.original, input[n].edits) <= MAX_REPLACEMENTS
    ensures PlannedUpTo(fs, input, n + 1, plans + [p], total + TotalApplied(p.original, input[n].edits),
                        bytes + |p.updated|)
  {
    hide PlanFits, TotalApplied;
    assert input[..n + 1][..n] == input[..n] && (plans + [p])[..n] == plans;
  }

  lemma AllPlanned(fs: FileSystem, input: seq<PatchFile>, plans: seq<Plan>, total: nat, bytes: nat)
    requires ValidInput(input) && Distinct(fs.clean, input) && PlannedUpTo(fs, input, |input|, plans, total, bytes)
    ensures Acceptable(fs.clean, fs.files, input, plans) && total == SumApplied(input, plans)
  {
    hide PlanFits, TotalApplied;
    assert input[..|input|] == input;
  }

  method PlanAll(fs: FileSystem, input: seq<PatchFile>) returns (r: Result<(seq<Plan>, nat), Code>)
    requires ValidInput(input) && Distinct(fs.clean, input)
    modifies fs`faulted
    ensures old(fs.faulted) ==> fs.faulted
    ensures r.Ok? ==> Acceptable(fs.clean, fs.files, input, r.value.0) && r.value.1 == SumApplied(input, r.value.0)
    ensures r.Err? && !fs.faulted ==> forall plans :: !Acceptable(fs.clean, fs.files, input, plans)
  {
    var plans: seq<Plan> := [];
    var total: nat, bytes: nat := 0, 0;
    assert PlannedUpTo(fs, input, 0, [], 0, 0);
    hide PlanFits, TotalApplied, Distinct, PlannedUpTo, Acceptable, SumApplied;
    for n := 0 to |input|
      invariant old(fs.faulted) ==> fs.faulted
      invariant PlannedUpTo(fs, input, n, plans, total, bytes)
    {
      assert input[n] in input;
      var one := PlanFile(fs, input[n], total);
      if one.Err? {
        if !fs.faulted { NoneFits(fs, input, n, plans, total, bytes); }
        return Err(one.error);
      }
      if bytes + |one.value.0.updated| > MAX_AGGREGATE {
        TooManyBytes(fs, input, n, plans, total, bytes, one.value.0);
        return Err(ResourceExhausted);
      }
      OnePlanned(fs, input, n, plans, total, bytes, one.value.0);
      total := one.value.1;
      bytes := bytes + |one.value.0.updated|;
      plans := plans + [one.value.0];
    }
    AllPlanned(fs, input, plans, total, bytes);
    return Ok((plans, total));
  }

  // ---------------------------------------------------------------------
  // Applying
  // ---------------------------------------------------------------------

  datatype Backup = Backup(path: string, backupPath: string, perm: nat)

  /** What a call reports: the files changed and the replacements made; a
      refusal before anything was written; or an error while writing, with the
      paths whose restore failed. */
  datatype Outcome =
    | Patched(changed: seq<string>, replacements: nat)
    | Refused(code: Code)
    | RolledBack(failed: seq<string>)

  /** The key under which the backup of file i is stored. */
  function BackupKey(clean: string -> string, plans: seq<Plan>, stamps: seq<string>, i: nat): string
    requires i < |plans| && i < |stamps|
  {
    clean(plans[i].path + stamps[i])
  }

  /** The process id and time in the backup names make them new names. */
  ghost predicate FreshStamps(clean: string -> string, files: map<string, Node>, plans: seq<Plan>,
                              stamps: seq<string>) {
    && |stamps| == |plans|
    && (forall i :: 0 <= i < |plans| ==>
          BackupKey(clean, plans, stamps, i) !in files && !TempName(BackupKey(clean, plans, stamps, i)))
    && (forall i, j :: 0 <= i < j < |plans| ==>
        BackupKey(clean, plans, stamps, i) != BackupKey(clean, plans, stamps, j))
  }

  function Keys(clean: string -> string, plans: seq<Plan>): set<string> {
    set i | 0 <= i < |plans| :: clean(plans[i].path)
  }

  function BackupKeys(clean: string -> string, plans: seq<Plan>, stamps: seq<string>, n: nat): set<string>
    requires n <= |plans| && n <= |stamps|
  {
    set i | 0 <= i < n :: BackupKey(clean, plans, stamps, i)
  }

  function Replaced(p: Plan): Node { Regular(p.updated, p.perm, 0) }

  function Restored(p: Plan): Node { Regular(p.original, p.perm, 0) }

  /** Where an apply loop stands after n files, against the content start it
      began with: the first n files are replaced and backed up, the others as
      they were, and nothing else is touched. */
  ghost predicate AppliedUpTo(clean: string -> string, start: map<string, Node>, now: map<string, Node>,
                              plans: seq<Plan>, stamps: seq<string>, n: nat)
    requires n <= |plans| == |stamps|
  {
    && (forall i :: 0 <= i < n ==> clean(plans[i].path) in now && now[clean(plans[i].path)] == Replaced(plans[i]))
    && (forall i :: 0 <= i < n ==>
          var b := BackupKey(clean, plans, stamps, i); b in now && now[b] == Regular(plans[i].original, 0x180, 0))
    && Keeps(start, now, Keys(clean, plans[..n]))
  }

  /** The plans name distinct files that exist. */
  ghost predicate PlansOn(clean: string -> string, start: map<string, Node>, plans: seq<Plan>) {
    && (forall i, j :: 0 <= i < j < |plans| ==> clean(plans[i].path) != clean(plans[j].path))
    && (forall i :: 0 <= i < |plans| ==>
          && clean(plans[i].path) in start && start[clean(plans[i].path)].Regular?
          && start[clean(plans[i].path)].data == plans[i].original
          && start[clean(plans[i].path)].perm == plans[i].perm)
  }

  function BackupsOf(plans: seq<Plan>, stamps: seq<string>, n: nat): seq<Backup>
    requires n <= |plans| && n <= |stamps|
  {
    seq(n, i requires 0 <= i < n => Backup(plans[i].path, plans[i].path + stamps[i], plans[i].perm))
  }

  /** After restoring the first m of n replaced files. */
  ghost predicate RestoredUpTo(clean: string -> string, start: map<string, Node>, now: map<string, Node>,
                               plans: seq<Plan>, stamps: seq<string>, n: nat, m: nat, failed: seq<string>)
    requires m <= n <= |plans| == |stamps|
  {
    && (forall i :: 0 <= i < n ==>
          clean(plans[i].path) in now
          && now[clean(plans[i].path)] == if i < m && plans[i].path !in failed then Restored(plans[i])
              else Replaced(plans[i]))
    && (forall i :: 0 <= i < n ==>
          var b := BackupKey(clean, plans, stamps, i); b in now && now[b] == Regular(plans[i].original, 0x180, 0))
    && (forall p :: p in failed ==> exists i :: 0 <= i < m && plans[i].path == p)
    && Keeps(start, now, Keys(clean, plans[..n]))
  }

  lemma KeepsMore(f: map<string, Node>, g: map<string, Node>, h: map<string, Node>, a: set<string>, b: set<string>)
    requires Keeps(f, g, a) && Keeps(g, h, b)
    ensures Keeps(f, h, a + b)
  {
  }

  /** A restore that failed changed nothing. */
  lemma RestoreFailed(clean: string -> string, start: map<string, Node>, f: map<string, Node>, g: map<string, Node>,
                      plans: seq<Plan>, stamps: seq<string>, n: nat, m: nat, failed: seq<string>)
    requires m < n <= |plans| == |stamps| && Keeps(f, g, {})
    requires RestoredUpTo(clean, start, f, plans, stamps, n, m, failed) && PlansOn(clean, start, plans)
    ensures RestoredUpTo(clean, start, g, plans, stamps, n, m + 1, failed + [plans[m].path])
  {
    hide Keys;
  }

  /** A restore that succeeded put file m back and left the others and the
      backups alone. */
  lemma RestoreDone(clean: string -> string, start: map<string, Node>, f: map<string, Node>, g: map<string, Node>,
                    plans: seq<Plan>, stamps: seq<string>, n: nat, m: nat, failed: seq<string>)
    requires m < n <= |plans| == |stamps| && PlansOn(clean, start, plans) && FreshStamps(clean, start, plans, stamps)
    requires RestoredUpTo(clean, start, f, plans, stamps, n, m, failed)
    requires Keeps(f, g, {clean(plans[m].path)}) && clean(plans[m].path) in g
    requires g[clean(plans[m].path)] == Restored(plans[m])
    ensures RestoredUpTo(clean, start, g, plans, stamps, n, m + 1, failed)
  {
    var key := clean(plans[m].path);
    assert key in Keys(clean, plans[..n]) by { assert plans[..n][m] == plans[m]; }
    KeepsMore(start, f, g, Keys(clean, plans[..n]), {key});
    assert Keys(clean, plans[..n]) + {key} == Keys(clean, plans[..n]);
    BackupsElsewhere(clean, start, plans, stamps, m, n);
    hide Keys, TempName, FreshStamps, BackupKey;
    OthersKept(clean, start, f, g, plans, n, m);
    FailedBefore(clean, start, plans, m, failed);
    hide PlansOn;
  }

  lemma OthersKept(clean: string -> string, start: map<string, Node>, f: map<string, Node>, g: map<string, Node>,
                   plans: seq<Plan>, n: nat, m: nat)
    requires m < n <= |plans| && PlansOn(clean, start, plans) && Keeps(f, g, {clean(plans[m].path)})
    ensures forall i :: 0 <= i < n && i != m && clean(plans[i].path) in f ==>
              clean(plans[i].path) in g && g[clean(plans[i].path)] == f[clean(plans[i].path)]
  {
    hide TempName;
  }

  lemma FailedBefore(clean: string -> string, start: map<string, Node>, plans: seq<Plan>, m: nat, failed: seq<string>)
    requires m < |plans| && PlansOn(clean, start, plans)
    requires forall p :: p in failed ==> exists i :: 0 <= i < m && plans[i].path == p
    ensures plans[m].path !in failed
  {
    hide TempName;
  }

  /** rollbackPatch: restore every backup, go on after an error, and report
      exactly the paths whose restore failed. */
  method RollbackPatch(fs: FileSystem, backups: seq<Backup>, ghost start: map<string, Node>, ghost plans: seq<Plan>,
                       ghost stamps: seq<string>) returns (failed: seq<string>)
    requires |backups| <= |plans| == |stamps| && backups == BackupsOf(plans, stamps, |backups|)
    requires PlansOn(fs.clean, start, plans) && FreshStamps(fs.clean, start, plans, stamps)
    requires AppliedUpTo(fs.clean, start, fs.files, plans, stamps, |backups|)
    modifies fs
    ensures RestoredUpTo(fs.clean, start, fs.files, plans, stamps, |backups|, |backups|, failed)
    ensures OnlyAdds(old(fs.files), fs.files, {})
    ensures old(fs.faulted) ==> fs.faulted
  {
    failed := [];
    var n := |backups|;
    ghost var before := fs.files;
    assert RestoredUpTo(fs.clean, start, fs.files, plans, stamps, n, 0, []);
    hide AppliedUpTo, PlansOn, FreshStamps, TempName, Keys;
    for m := 0 to n
      invariant RestoredUpTo(fs.clean, start, fs.files, plans, stamps, n, m, failed)
      invariant OnlyAdds(before, fs.files, {})
      invariant old(fs.faulted) ==> fs.faulted
      invariant forall i :: 0 <= i < n ==> fs.clean(plans[i].path) in before
    {
      var b := backups[m];
      ghost var f := fs.files;
      var data := fs.ReadFile(b.backupPath);
      if data.Err? {
        RestoreFailed(fs.clean, start, f, f, plans, stamps, n, m, failed);
        failed := failed + [b.path];
        continue;
      }
      assert data.value == plans[m].original by {
        assert BackupKey(fs.clean, plans, stamps, m) == fs.clean(b.backupPath);
      }
      var err := ReplaceFile(fs, b.path, data.value, b.perm);
      if err {
        RestoreFailed(fs.clean, start, f, fs.files, plans, stamps, n, m, failed);
        failed := failed + [b.path];
      } else {
        RestoreDone(fs.clean, start, f, fs.files, plans, stamps, n, m, failed);
      }
    }
  }

  method CleanupBackups(fs: FileSystem, backups: seq<Backup>)
    modifies fs`files
    ensures forall p :: p in fs.files ==> p in old(fs.files) && fs.files[p] == old(fs.files)[p]
    ensures forall p :: p in old(fs.files) && (forall b :: b in backups ==> fs.clean(b.backupPath) != p) ==>
              p in fs.files
  {
    for i := 0 to |backups|
      invariant forall p :: p in fs.files ==> p in old(fs.files) && fs.files[p] == old(fs.files)[p]
      invariant forall p :: p in old(fs.files) && (forall b :: b in backups ==> fs.clean(b.backupPath) != p) ==>
                p in fs.files
    {
      fs.Remove(fs.clean(backups[i].backupPath));
    }
  }

  // ---------------------------------------------------------------------
  // Patch
  // ---------------------------------------------------------------------

  /** The names the backups of a call would get are new names. */
  ghost predicate FreshNames(clean: string -> string, files: map<string, Node>, input: seq<PatchFile>,
                             stamps: seq<string>) {
    && |stamps| == |input|
    && (forall i :: 0 <= i < |input| ==>
          clean(input[i].path + stamps[i]) !in files && !TempName(clean(input[i].path + stamps[i])))
    && (forall i, j :: 0 <= i < j < |input| ==> clean(input[i].path + stamps[i]) != clean(input[j].path + stamps[j]))
  }

  lemma PlansAreOn(clean: string -> string, files: map<string, Node>, input: seq<PatchFile>, plans: seq<Plan>,
                   stamps: seq<string>)
    requires Acceptable(clean, files, input, plans) && FreshNames(clean, files, input, stamps)
    ensures PlansOn(clean, files, plans) && FreshStamps(clean, files, plans, stamps) && |stamps| == |plans|
  {
    hide Applicable, Rewritten, TotalApplied, SumApplied, SumSizes, TempName;
    assert forall i :: 0 <= i < |plans| ==> PlanFits(clean, files, input[i], plans[i]);
  }

  /** Every file holds its planned bytes, or after a rollback its original
      bytes, but for exactly the paths named as failed restores. */
  ghost predicate Holds(clean: string -> string, now: map<string, Node>, p: Plan, patched: bool) {
    && clean(p.path) in now && now[clean(p.path)].Regular?
    && now[clean(p.path)].data == (if patched then p.updated else p.original)
    && now[clean(p.path)].perm == p.perm
  }

  /** A file that was rewritten, also by a restore, has lost its set-id and sticky
      bits; any other has kept them. */
  ghost predicate SpecialIs(clean: string -> string, start: map<string, Node>, now: map<string, Node>, p: Plan,
                            rewritten: bool) {
    var key := clean(p.path);
    && key in start && start[key].Regular? && key in now && now[key].Regular?
    && now[key].special == if rewritten then 0 else start[key].special
  }

  /** So these bits survive exactly on files that had none or were not rewritten. */
  lemma SpecialSurvives(clean: string -> string, start: map<string, Node>, now: map<string, Node>, p: Plan,
                        rewritten: bool)
    requires SpecialIs(clean, start, now, p, rewritten)
    ensures var key := clean(p.path);
            now[key].special == start[key].special <==> start[key].special == 0 || !rewritten
  {
  }

  lemma AppliedKept(clean: string -> string, start: map<string, Node>, f: map<string, Node>, g: map<string, Node>,
                    plans: seq<Plan>, stamps: seq<string>, n: nat)
    requires n <= |plans| == |stamps| && AppliedUpTo(clean, start, f, plans, stamps, n) && Keeps(f, g, {})
    ensures AppliedUpTo(clean, start, g, plans, stamps, n)
  {
  }

  lemma KeysOfNext(clean: string -> string, plans: seq<Plan>, n: nat)
    requires n < |plans|
    ensures Keys(clean, plans[..n + 1]) == Keys(clean, plans[..n]) + {clean(plans[n].path)}
  {
    assert forall i :: 0 <= i < n ==> plans[..n + 1][i] == plans[..n][i];
    assert plans[..n + 1][n] == plans[n];
  }

  lemma AppliedNext(clean: string -> string, start: map<string, Node>, f: map<string, Node>, g: map<string, Node>,
                    plans: seq<Plan>, stamps: seq<string>, n: nat)
    requires n < |plans| == |stamps| && PlansOn(clean, start, plans) && FreshStamps(clean, start, plans, stamps)
    requires AppliedUpTo(clean, start, f, plans, stamps, n)
    requires BackupKey(clean, plans, stamps, n) in f
    requires f[BackupKey(clean, plans, stamps, n)] == Regular(plans[n].original, 0x180, 0)
    requires Keeps(f, g, {clean(plans[n].path)})
    requires clean(plans[n].path) in g && g[clean(plans[n].path)] == Replaced(plans[n])
    ensures AppliedUpTo(clean, start, g, plans, stamps, n + 1)
  {
    var key := clean(plans[n].path);
    KeepsMore(start, f, g, Keys(clean, plans[..n]), {key});
    KeysOfNext(clean, plans, n);
    BackupsElsewhere(clean, start, plans, stamps, n, n + 1);
    BackupsKept(clean, f, g, plans, stamps, n + 1, key);
    OthersKept(clean, start, f, g, plans, n + 1, n);
    hide TempName, Keys, FreshStamps, BackupKey, Keeps, PlansOn;
  }

  lemma BackupsKept(clean: string -> string, f: map<string, Node>, g: map<string, Node>, plans: seq<Plan>,
                    stamps: seq<string>, n: nat, key: string)
    requires n <= |plans| == |stamps| && Keeps(f, g, {key})
    ensures forall i :: 0 <= i < n && BackupKey(clean, plans, stamps, i) != key ==>
              var b := BackupKey(clean, plans, stamps, i); b in f ==> b in g && g[b] == f[b]
  {
    hide BackupKey;
  }

  /** No backup has the name of a file to be replaced. */
  lemma BackupsElsewhere(clean: string -> string, start: map<string, Node>, plans: seq<Plan>, stamps: seq<string>,
                         m: nat, n: nat)
    requires m < |plans| == |stamps| && n <= |plans|
    requires PlansOn(clean, start, plans) && FreshStamps(clean, start, plans, stamps)
    ensures forall i :: 0 <= i < n ==> BackupKey(clean, plans, stamps, i) != clean(plans[m].path)
  {
    hide TempName;
    assert clean(plans[m].path) in start;
  }

  lemma OnlyAddsMore(f: map<string, Node>, g: map<string, Node>, h: map<string, Node>, extra: set<string>,
                     more: set<string>)
    requires OnlyAdds(f, g, extra) && OnlyAdds(g, h, more)
    ensures OnlyAdds(f, h, extra + more)
  {
    hide TempName;
  }

  datatype Step = Done | NoBackup | NotReplaced

  /** Back up and replace one file. */
  method ReplaceOne(fs: FileSystem, plans: seq<Plan>, stamps: seq<string>, n: nat, ghost start: map<string, Node>)
    returns (step: Step)
    requires PlansOn(fs.clean, start, plans) && FreshStamps(fs.clean, start, plans, stamps) && n < |plans|
    requires AppliedUpTo(fs.clean, start, fs.files, plans, stamps, n)
    requires OnlyAdds(start, fs.files, BackupKeys(fs.clean, plans, stamps, n))
    modifies fs
    ensures AppliedUpTo(fs.clean, start, fs.files, plans, stamps, if step.Done? then n + 1 else n)
    ensures OnlyAdds(start, fs.files, BackupKeys(fs.clean, plans, stamps, n + 1))
    ensures fs.faulted == (old(fs.faulted) || !step.Done?)
  {
    hide AppliedUpTo, TempName;
    var p := plans[n];
    ghost var clean, f0 := fs.clean, fs.files;
    ghost var key, b := clean(p.path), BackupKey(clean, plans, stamps, n);
    assert b !in BackupKeys(clean, plans, stamps, n);
    assert BackupKeys(clean, plans, stamps, n + 1) == BackupKeys(clean, plans, stamps, n) + {b};
    var ok := fs.WriteNew(p.path + stamps[n], p.original);
    ghost var f1 := fs.files;
    AppliedKept(clean, start, f0, f1, plans, stamps, n);
    OnlyAddsMore(start, f0, f1, BackupKeys(clean, plans, stamps, n), {b});
    if !ok { return NoBackup; }
    var err := ReplaceFile(fs, p.path, p.updated, p.perm);
    OnlyAddsMore(start, f1, fs.files, BackupKeys(clean, plans, stamps, n + 1), if err then {} else {key});
    if err {
      AppliedKept(clean, start, f1, fs.files, plans, stamps, n);
      return NotReplaced;
    }
    AppliedNext(clean, start, f1, fs.files, plans, stamps, n);
    return Done;
  }

  lemma KeysOfPrefix(clean: string -> string, start: map<string, Node>, plans: seq<Plan>, n: nat, i: nat)
    requires PlansOn(clean, start, plans) && n <= i < |plans|
    ensures clean(plans[i].path) !in Keys(clean, plans[..n])
    ensures Keys(clean, plans[..n]) <= Keys(clean, plans)
  {
    assert forall j :: 0 <= j < n ==> plans[..n][j] == plans[j];
  }

  /** The files of start are in now as they are in restored. */
  ghost predicate CleanedOf(start: map<string, Node>, restored: map<string, Node>, now: map<string, Node>) {
    && (forall p :: p in now ==> p in restored && now[p] == restored[p])
    && (forall p :: p in start && p in restored ==> p in now)
  }

  lemma RolledBackHolds(clean: string -> string, start: map<string, Node>, restored: map<string, Node>,
                        now: map<string, Node>, plans: seq<Plan>, stamps: seq<string>, n: nat, failed: seq<string>,
                        i: nat)
    requires n < |plans| == |stamps| && i < |plans| && PlansOn(clean, start, plans)
    requires RestoredUpTo(clean, start, restored, plans, stamps, n, n, failed) && CleanedOf(start, restored, now)
    ensures Holds(clean, now, plans[i], plans[i].path in failed)
    ensures SpecialIs(clean, start, now, plans[i], i < n)
  {
    KeysOfPrefix(clean, start, plans, n, if i < n then n else i);
    assert clean(plans[i].path) in restored;
  }

  lemma BackupsFresh(clean: string -> string, start: map<string, Node>, plans: seq<Plan>, stamps: seq<string>, n: nat)
    requires FreshStamps(clean, start, plans, stamps) && n <= |plans|
    ensures forall b :: b in BackupsOf(plans, stamps, n) ==> clean(b.backupPath) !in start
  {
    hide TempName;
    forall b | b in BackupsOf(plans, stamps, n)
      ensures clean(b.backupPath) !in start
    {
      var i :| 0 <= i < n && b == BackupsOf(plans, stamps, n)[i];
      assert clean(b.backupPath) == BackupKey(clean, plans, stamps, i);
    }
  }

  /** Roll the first n files back and clean up. */
  method Undo(fs: FileSystem, plans: seq<Plan>, stamps: seq<string>, n: nat, made: nat, ghost start: map<string, Node>)
    returns (failed: seq<string>)
    requires PlansOn(fs.clean, start, plans) && FreshStamps(fs.clean, start, plans, stamps)
    requires n <= made <= n + 1 <= |plans|
    requires AppliedUpTo(fs.clean, start, fs.files, plans, stamps, n)
    requires OnlyAdds(start, fs.files, BackupKeys(fs.clean, plans, stamps, n + 1))
    modifies fs
    ensures forall i :: 0 <= i < |plans| ==> Holds(fs.clean, fs.files, plans[i], plans[i].path in failed)
    ensures forall i :: 0 <= i < |plans| ==> SpecialIs(fs.clean, start, fs.files, plans[i], i < n)
    ensures forall p :: p in failed ==> exists i :: 0 <= i < |plans| && plans[i].path == p
    ensures Keeps(start, fs.files, Keys(fs.clean, plans))
    ensures OnlyAdds(start, fs.files, BackupKeys(fs.clean, plans, stamps, n + 1))
    ensures old(fs.faulted) ==> fs.faulted
  {
    hide TempName, AppliedUpTo, Holds, PlansOn, SpecialIs;
    ghost var before := fs.files;
    failed := RollbackPatch(fs, BackupsOf(plans, stamps, n), start, plans, stamps);
    ghost var restored := fs.files;
    OnlyAddsMore(start, before, restored, BackupKeys(fs.clean, plans, stamps, n + 1), {});
    CleanupBackups(fs, BackupsOf(plans, stamps, made));
    BackupsFresh(fs.clean, start, plans, stamps, made);
    KeysOfPrefix(fs.clean, start, plans, n, n);
    assert CleanedOf(start, restored, fs.files);
    forall i | 0 <= i < |plans|
      ensures Holds(fs.clean, fs.files, plans[i], plans[i].path in failed)
      ensures SpecialIs(fs.clean, start, fs.files, plans[i], i < n)
    {
      RolledBackHolds(fs.clean, start, restored, fs.files, plans, stamps, n, failed, i);
    }
  }

  lemma OnlyAddsWider(f: map<string, Node>, g: map<string, Node>, clean: string -> string, plans: seq<Plan>,
                      stamps: seq<string>, n: nat)
    requires n <= |plans| == |stamps| && OnlyAdds(f, g, BackupKeys(clean, plans, stamps, n))
    ensures OnlyAdds(f, g, BackupKeys(clean, plans, stamps, |plans|))
  {
    hide TempName, BackupKey;
  }

  lemma NothingApplied(clean: string -> string, start: map<string, Node>, plans: seq<Plan>, stamps: seq<string>)
    requires FreshStamps(clean, start, plans, stamps)
    ensures |stamps| == |plans| && AppliedUpTo(clean, start, start, plans, stamps, 0)
    ensures OnlyAdds(start, start, BackupKeys(clean, plans, stamps, 0))
  {
    hide TempName, BackupKey;
  }

  method ApplyPlans(fs: FileSystem, plans: seq<Plan>, stamps: seq<string>, replacements: nat)
    returns (out: Outcome, ghost rewritten: nat)
    requires PlansOn(fs.clean, fs.files, plans) && FreshStamps(fs.clean, fs.files, plans, stamps)
    modifies fs
    ensures !out.Refused? && (out.Patched? ==> rewritten == |plans|)
    ensures forall i :: 0 <= i < |plans| ==> SpecialIs(fs.clean, old(fs.files), fs.files, plans[i], i < rewritten)
    ensures out.Patched? ==>
              && |out.changed| == |plans| && (forall i :: 0 <= i < |plans| ==> out.changed[i] == plans[i].path)
              && out.replacements == replacements
              && fs.faulted == old(fs.faulted)
              && forall i :: 0 <= i < |plans| ==> Holds(fs.clean, fs.files, plans[i], true)
    ensures out.RolledBack? ==>
              && fs.faulted
              && (forall i :: 0 <= i < |plans| ==> Holds(fs.clean, fs.files, plans[i], plans[i].path in out.failed))
              && forall p :: p in out.failed ==> exists i :: 0 <= i < |plans| && plans[i].path == p
    ensures Keeps(old(fs.files), fs.files, Keys(fs.clean, plans))
    ensures OnlyAdds(old(fs.files), fs.files, BackupKeys(fs.clean, plans, stamps, |plans|))
  {
    hide Holds, SpecialIs, TempName, BackupsOf, Keys, AppliedUpTo, PlansOn, FreshStamps, Keeps, OnlyAdds, BackupKeys,
         BackupKey;
    ghost var start := fs.files;
    NothingApplied(fs.clean, start, plans, stamps);
    var changed: seq<string> := [];
    for n := 0 to |plans|
      invariant |changed| == n && forall i :: 0 <= i < n ==> changed[i] == plans[i].path
      invariant AppliedUpTo(fs.clean, start, fs.files, plans, stamps, n)
      invariant OnlyAdds(start, fs.files, BackupKeys(fs.clean, plans, stamps, n))
      invariant fs.faulted == old(fs.faulted)
    {
      var step := ReplaceOne(fs, plans, stamps, n, start);
      if !step.Done? {
        var failed := Undo(fs, plans, stamps, n, if step.NoBackup? then n else n + 1, start);
        OnlyAddsWider(start, fs.files, fs.clean, plans, stamps, n + 1);
        return RolledBack(failed), n;
      }
      changed := changed + [plans[n].path];
    }
    Finish(fs, plans, stamps, start);
    return Patched(changed, replacements), |plans|;
  }

  /** Every file is replaced: only the backups remain to be removed. */
  method Finish(fs: FileSystem, plans: seq<Plan>, stamps: seq<string>, ghost start: map<string, Node>)
    requires PlansOn(fs.clean, start, plans) && FreshStamps(fs.clean, start, plans, stamps)
    requires AppliedUpTo(fs.clean, start, fs.files, plans, stamps, |plans|)
    requires OnlyAdds(start, fs.files, BackupKeys(fs.clean, plans, stamps, |plans|))
    modifies fs`files
    ensures forall i :: 0 <= i < |plans| ==> Holds(fs.clean, fs.files, plans[i], true)
    ensures forall i :: 0 <= i < |plans| ==> SpecialIs(fs.clean, start, fs.files, plans[i], true)
    ensures Keeps(start, fs.files, Keys(fs.clean, plans))
    ensures OnlyAdds(start, fs.files, BackupKeys(fs.clean, plans, stamps, |plans|))
  {
    assert plans[..|plans|] == plans;
    BackupsFresh(fs.clean, start, plans, stamps, |plans|);
    CleanupBackups(fs, BackupsOf(plans, stamps, |plans|));
  }

  /** Patch. It is all or nothing for every pattern of failures: a refused call
      has written nothing; a successful one leaves every file with its planned
      bytes; one that failed while writing leaves every file with its original
      bytes except exactly the paths it names as failed restores. Without an
      input or output error it succeeds exactly when some plans are acceptable.
      The first files, as many as were rewritten, have lost their set-id and sticky
      bits. */
  method Patch(fs: FileSystem, cancelled: bool, input: seq<PatchFile>, stamps: seq<string>)
    returns (out: Outcome, ghost plans: seq<Plan>, ghost rewritten: nat)
    requires FreshNames(fs.clean, fs.files, input, stamps)
    modifies fs
    ensures out.Refused? ==> fs.files == old(fs.files)
    ensures !out.Refused? ==> Acceptable(fs.clean, old(fs.files), input, plans)
    ensures !out.Refused? ==>
              forall i :: 0 <= i < |plans| ==> SpecialIs(fs.clean, old(fs.files), fs.files, plans[i], i < rewritten)
    ensures out.Patched? ==> rewritten == |plans|
    ensures out.Patched? ==>
              && |out.changed| == |input| && (forall i :: 0 <= i < |input| ==> out.changed[i] == input[i].path)
              && out.replacements == SumApplied(input, plans)
              && forall i :: 0 <= i < |plans| ==> Holds(fs.clean, fs.files, plans[i], true)
    ensures out.RolledBack? ==>
              && fs.faulted
              && (forall i :: 0 <= i < |plans| ==> Holds(fs.clean, fs.files, plans[i], plans[i].path in out.failed))
              && forall p :: p in out.failed ==> exists i :: 0 <= i < |plans| && plans[i].path == p
    ensures !out.Refused? ==>
              && Keeps(old(fs.files), fs.files, Keys(fs.clean, plans))
              && |stamps| == |plans|
              && OnlyAdds(old(fs.files), fs.files, BackupKeys(fs.clean, plans, stamps, |plans|))
    ensures !fs.faulted && !cancelled ==>
              (out.Patched? <==> exists ps :: Acceptable(fs.clean, old(fs.files), input, ps))
  {
    hide Holds, SpecialIs, TempName, SumApplied, SumSizes, Applicable, Rewritten, TotalApplied, Keeps, OnlyAdds, Keys,
         BackupKeys, FreshNames, FreshStamps, PlansOn;
    plans, rewritten := [], 0;
    if cancelled { return Refused(Cancelled), [], 0; }
    if !ValidInput(input) { return Refused(InvalidArgument), [], 0; }
    var dup := FindDuplicate(fs, input);
    if dup { return Refused(InvalidArgument), [], 0; }
    var planned := PlanAll(fs, input);
    if planned.Err? { return Refused(planned.error), [], 0; }
    plans := planned.value.0;
    PlansAreOn(fs.clean, fs.files, input, plans, stamps);
    assert forall i :: 0 <= i < |plans| ==> PlanFits(fs.clean, fs.files, input[i], plans[i]);
    out, rewritten := ApplyPlans(fs, planned.value.0, stamps, planned.value.1);
  }
}
