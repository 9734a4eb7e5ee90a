/** Files that are replaced through temporary ones, as update/daemon.go and
    agent/internal/provision/state.go do it. Every operation may fail. */
module AtomicFiles {
  import opened Wrappers

  /** Which operations fail while one file is written, and what a failed write
      leaves in the temporary file. remove is the removal of that file. */
  datatype Trouble<V> = Trouble(
    mkdir: bool, create: bool, write: bool, chmod: bool, chown: bool, sync: bool, close: bool, rename: bool,
    syncDir: bool, remove: bool, garbage: V)

  lemma FreshName<V>(temps: map<nat, V>)
    ensures exists t: nat :: t !in temps
  {
    var t := Above(temps.Keys);
    assert t !in temps;
  }

  lemma Above(names: set<nat>) returns (t: nat)
    ensures forall n :: n in names ==> n < t
  {
    t := 0;
    if names != {} {
      var n :| n in names;
      var u := Above(names - {n});
      t := if u <= n then n + 1 else u;
      assert forall m :: m in names ==> m == n || m in names - {n};
    }
  }

  /** files are the named files; temps, under names of their own, the temporary
      ones. */
  class Disk<K(==), V> {
    var files: map<K, V>
    var temps: map<nat, V>

    constructor ()
      ensures files == map[] && temps == map[]
    {
      files, temps := map[], map[];
    }

    method CreateTemp(empty: V, fails: bool) returns (t: Option<nat>)
      modifies this`temps
      ensures t.None? <==> fails
      ensures fails ==> temps == old(temps)
      ensures !fails ==> t.value !in old(temps) && temps == old(temps)[t.value := empty]
    {
      if fails { return None; }
      FreshName(temps);
      var n: nat :| n !in temps;
      temps := temps[n := empty];
      return Some(n);
    }

    method WriteTemp(t: nat, data: V, garbage: V, fails: bool)
      requires t in temps
      modifies this`temps
      ensures temps == old(temps)[t := if fails then garbage else data]
    {
      temps := temps[t := if fails then garbage else data];
    }

    /** rename(2): all or nothing. */
    method Rename(t: nat, name: K, fails: bool)
      requires t in temps
      modifies this
      ensures fails ==> files == old(files) && temps == old(temps)
      ensures !fails ==> files == old(files)[name := old(temps)[t]] && temps == old(temps) - {t}
    {
      if !fails {
        files := files[name := temps[t]];
        temps := temps - {t};
      }
    }

    method RemoveTemp(t: nat, fails: bool)
      modifies this`temps
      ensures temps == if fails then old(temps) else old(temps) - {t}
    {
      if !fails { temps := temps - {t}; }
    }

    method Remove(name: K)
      modifies this`files
      ensures files == old(files) - {name}
    {
      files := files - {name};
    }
  }
}
