/** A directory whose changes become durable only when synchronised, and what a crash can leave of it. */
module FileSystem {
  import opened Wrappers

  /**
   dir is what programs see. past holds, for each name changed since the last directory sync, the
   values it had before; a crash may leave any of them or the current one, each name on its own.
   Only synced files keep their contents through a crash.
   */
  datatype Fs<C> = Fs(dir: map<string, nat>, past: map<string, set<Option<nat>>>, data: map<nat, C>, synced: set<nat>,
      next: nat)

  function Cur<C>(fs: Fs<C>, name: string): Option<nat> {
    if name in fs.dir then Some(fs.dir[name]) else None
  }

  /** What a name can stand for after a crash. */
  function Possible<C>(fs: Fs<C>, name: string): set<Option<nat>> {
    {Cur(fs, name)} + (if name in fs.past then fs.past[name] else {})
  }

  ghost predicate Settled<C>(fs: Fs<C>, name: string) {
    Possible(fs, name) == {Cur(fs, name)}
  }

  /** Every file is known, and files not created yet are not. */
  ghost predicate Sound<C>(fs: Fs<C>) {
    && (forall i: nat {:trigger i in fs.data} :: i in fs.data ==> i < fs.next)
    && (forall i: nat {:trigger i in fs.synced} :: i in fs.synced ==> i in fs.data)
    && (forall n {:trigger fs.dir[n]} :: n in fs.dir ==> fs.dir[n] in fs.data)
  }

  function Bound<C>(fs: Fs<C>, name: string, value: Option<nat>): Fs<C> {
    fs.(dir := if value.Some? then fs.dir[name := value.value] else fs.dir - {name},
        past := fs.past[name := Possible(fs, name)])
  }

  function Removed<C>(fs: Fs<C>, name: string): Fs<C> {
    Bound(fs, name, None)
  }

  function Created<C>(fs: Fs<C>, name: string, content: C): Fs<C> {
    Bound(fs, name, Some(fs.next)).(data := fs.data[fs.next := content], next := fs.next + 1)
  }

  function Filled<C>(fs: Fs<C>, file: nat, content: C): Fs<C> {
    fs.(data := fs.data[file := content], synced := fs.synced - {file})
  }

  function FileSynced<C>(fs: Fs<C>, file: nat): Fs<C> {
    fs.(synced := fs.synced + {file})
  }

  function Renamed<C>(fs: Fs<C>, from: string, to: string): Fs<C> {
    Removed(Bound(fs, to, Cur(fs, from)), from)
  }

  function DirSynced<C>(fs: Fs<C>): Fs<C> {
    fs.(past := map[])
  }

  /** g is what a reboot can find. */
  ghost predicate CrashesTo<C>(fs: Fs<C>, g: Fs<C>) {
    && (forall n {:trigger Cur(g, n)} :: Cur(g, n) in Possible(fs, n))
    && (forall i: nat {:trigger i in fs.synced} :: i in fs.synced && i in fs.data ==>
          i in g.data && g.data[i] == fs.data[i] && i in g.synced)
    && g.past == map[]
  }

  /** Between two states, only the named entries changed and no synced file did. */
  ghost predicate OnlyTouches<C>(s: Fs<C>, t: Fs<C>, names: set<string>) {
    && (forall n {:trigger Possible(t, n)} {:trigger Cur(t, n)} :: n !in names ==>
      Cur(t, n) == Cur(s, n) && Possible(t, n) <= Possible(s, n))
    && (forall i: nat {:trigger i in t.synced} {:trigger i in s.synced} :: i in s.synced && i in s.data ==>
          i in t.synced && i in t.data && t.data[i] == s.data[i])
  }

  // ---------------------------------------------------------------- the operating system's side

  /**
   The volume as programs drive it; trace records every state between two operations, and faults counts
   the operations that failed where they need not have.
   */
  class Disk<C(0)> {
    var fs: Fs<C>
    ghost var trace: seq<Fs<C>>
    ghost var faults: nat

    constructor (fs: Fs<C>)
      ensures this.fs == fs && trace == [fs] && faults == 0
    {
      this.fs, trace, faults := fs, [fs], 0;
    }

    /** Each operation either takes effect as a whole or reports an error; a failed write leaves anything. */
    method Remove(name: string) returns (ok: bool)
      requires Sound(fs)
      modifies this
      ensures Sound(fs) && trace == old(trace) + [fs]
      ensures fs == old(fs) || fs == Removed(old(fs), name)
      ensures ok ==> Cur(fs, name).None?
      ensures faults == old(faults) + Fault(!ok)
    {
      ok := *;
      if ok && name in fs.dir {
        fs := Removed(fs, name);
      }
      if name !in fs.dir {
        ok := true;
      }
      faults := faults + Fault(!ok);
      trace := trace + [fs];
    }

    method CreateExclusive(name: string, blank: C) returns (file: Option<nat>)
      requires Sound(fs)
      modifies this
      ensures Sound(fs) && trace == old(trace) + [fs]
      ensures file.None? ==> fs == old(fs)
      ensures file.Some? ==>
        old(Cur(fs, name)).None? && file.value == old(fs).next && fs == Created(old(fs), name, blank)
      ensures faults == old(faults) + Fault(file.None? && old(Cur(fs, name)).None?)
    {
      var ok: bool := *;
      faults := faults + Fault(!ok && name !in fs.dir);
      if name in fs.dir || !ok {
        file := None;
      } else {
        file := Some(fs.next);
        fs := Created(fs, name, blank);
      }
      trace := trace + [fs];
    }

    method Write(file: nat, content: C) returns (ok: bool, ghost left: C)
      requires Sound(fs) && file in fs.data
      modifies this
      ensures Sound(fs) && trace == old(trace) + [fs]
      ensures fs == Filled(old(fs), file, left) && (ok ==> left == content)
      ensures faults == old(faults) + Fault(!ok)
    {
      ok := *;
      faults := faults + Fault(!ok);
      var torn: C := *;
      var c := if ok then content else torn;
      fs, left := Filled(fs, file, c), c;
      trace := trace + [fs];
    }

    method SyncFile(file: nat) returns (ok: bool)
      requires Sound(fs) && file in fs.data
      modifies this
      ensures Sound(fs) && trace == old(trace) + [fs]
      ensures fs == if ok then FileSynced(old(fs), file) else old(fs)
      ensures faults == old(faults) + Fault(!ok)
    {
      ok := *;
      faults := faults + Fault(!ok);
      if ok {
        fs := FileSynced(fs, file);
      }
      trace := trace + [fs];
    }

    method Rename(from: string, to: string) returns (ok: bool)
      requires Sound(fs) && from != to
      modifies this
      ensures Sound(fs) && trace == old(trace) + [fs]
      ensures ok ==> Cur(old(fs), from).Some?
      ensures fs == if ok then Renamed(old(fs), from, to) else old(fs)
      ensures faults == old(faults) + Fault(!ok && old(Cur(fs, from)).Some?)
    {
      ok := *;
      ok := ok && from in fs.dir;
      faults := faults + Fault(!ok && from in fs.dir);
      if ok {
        fs := Renamed(fs, from, to);
      }
      trace := trace + [fs];
    }

    method SyncDirectory() returns (ok: bool)
      requires Sound(fs)
      modifies this
      ensures Sound(fs) && trace == old(trace) + [fs]
      ensures fs == if ok then DirSynced(old(fs)) else old(fs)
      ensures faults == old(faults) + Fault(!ok)
    {
      ok := *;
      faults := faults + Fault(!ok);
      if ok {
        fs := DirSynced(fs);
      }
      trace := trace + [fs];
    }

    /** Reads or closes a file; neither changes the volume. */
    method Look() returns (ok: bool)
      modifies this`faults
      ensures faults == old(faults) + Fault(!ok)
    {
      ok := *;
      faults := faults + Fault(!ok);
    }
  }

  function Fault(failed: bool): nat {
    if failed then 1 else 0
  }
}
