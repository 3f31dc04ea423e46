/** Installing a wake model as a sequence of file-system steps, any of which may fail or be the last before a crash. */
module ModelStore {
  import opened Wrappers
  import opened Pcm
  import opened FileSystem

  /** One installed model: its identifier, the digest and size of its artifact, and the two file names. */
  datatype Entry = Entry(id: string, sha: string, size: nat, artifact: string, metadata: string)

  /** What a file holds: raw bytes, a model's metadata, or the index. */
  datatype Content = Raw(bytes: seq<Byte>) | Metadata(id: string, sha: string, size: nat) | Index(models: seq<Entry>)

  type Files = Fs<Content>

  const INDEX: string := "index.json"

  function SizeOf(c: Content): nat {
    if c.Raw? then |c.bytes| else 0
  }

  /** An uninterpreted digest of a file's contents. */
  type Digest = Content -> string

  function ArtifactName(id: string, sha: string): string {
    id + "." + sha + ".tflite"
  }

  function MetadataName(id: string, sha: string): string {
    id + "." + sha + ".json"
  }

  predicate IsPart(name: string) {
    name != "" && name[|name| - 1] == 't'
  }

  lemma Names(id: string, sha: string)
    requires |sha| == 64
    ensures !IsPart(ArtifactName(id, sha)) && !IsPart(MetadataName(id, sha)) && !IsPart(INDEX)
    ensures ArtifactName(id, sha) != INDEX && MetadataName(id, sha) != INDEX
    ensures IsPart(id + ".tflite.part") && IsPart(id + ".json.part") && IsPart(INDEX + ".part")
  {
    var a, m := ArtifactName(id, sha), MetadataName(id, sha);
    assert a[|a| - 1] == 'e' && m[|m| - 1] == 'n' && INDEX[|INDEX| - 1] == 'n';
    assert |m| > |INDEX|;
    assert (id + ".tflite.part")[|id| + 11] == 't' && (id + ".json.part")[|id| + 9] == 't';
  }

  // ---------------------------------------------------------------- what must survive

  /** The name is durably bound to a file whose contents are durable. */
  ghost predicate Durable(fs: Files, name: string) {
    && Settled(fs, name) && Cur(fs, name).Some?
    && Cur(fs, name).value in fs.synced && Cur(fs, name).value in fs.data
  }

  function Held(fs: Files, name: string): Content
    requires name in fs.dir && fs.dir[name] in fs.data
  {
    fs.data[fs.dir[name]]
  }

  /** The artifact is complete and has the recorded digest and size, after any crash; so is its metadata. */
  ghost predicate EntryGood(fs: Files, e: Entry, digest: Digest) {
    && !IsPart(e.artifact) && !IsPart(e.metadata) && e.artifact != INDEX && e.metadata != INDEX
    && Durable(fs, e.artifact) && digest(Held(fs, e.artifact)) == e.sha && SizeOf(Held(fs, e.artifact)) == e.size
    && Durable(fs, e.metadata)
  }

  ghost predicate EntriesGood(fs: Files, models: seq<Entry>, digest: Digest) {
    forall i {:trigger models[i]} :: 0 <= i < |models| ==> EntryGood(fs, models[i], digest)
  }

  /** A value the index name can have: nothing, or a durable index whose every entry is good. */
  ghost predicate OutcomeGood(fs: Files, v: Option<nat>, digest: Digest) {
    v.Some? ==>
      && v.value in fs.synced && v.value in fs.data && fs.data[v.value].Index?
      && EntriesGood(fs, fs.data[v.value].models, digest)
  }

  /** Whatever a crash leaves of the index is good. */
  ghost predicate Good(fs: Files, digest: Digest) {
    Sound(fs) && forall v {:trigger v in Possible(fs, INDEX)} :: v in Possible(fs, INDEX) ==> OutcomeGood(fs, v, digest)
  }

  /** The index is one that could be there before, or holds exactly the new models. */
  ghost predicate OldOrNew(fs: Files, before: set<Option<nat>>, models: seq<Entry>) {
    forall v {:trigger v in Possible(fs, INDEX)} :: v in Possible(fs, INDEX) ==>
      v in before || (v.Some? && v.value in fs.data && fs.data[v.value] == Index(models))
  }

  /** Everything durable apart from the index and staging files is as it was. */
  ghost predicate Keeps(start: Files, fs: Files) {
    && (forall n {:trigger Durable(start, n)} :: Durable(start, n) && !IsPart(n) && n != INDEX ==>
          Durable(fs, n) && Cur(fs, n) == Cur(start, n) && Held(fs, n) == Held(start, n))
    && (forall i: nat {:trigger i in start.synced} :: i in start.synced && i in start.data ==>
          i in fs.synced && i in fs.data && fs.data[i] == start.data[i])
    && start.next <= fs.next
  }

  /** A state in which a crash is harmless. */
  ghost predicate Safe(start: Files, fs: Files, models: seq<Entry>, digest: Digest) {
    Good(fs, digest) && OldOrNew(fs, Possible(start, INDEX), models) && Keeps(start, fs)
  }

  /** Files the step may write are not yet durable and no index refers to them. */
  lemma TouchKeepsSafe(start: Files, s: Files, t: Files, names: set<string>, models: seq<Entry>, digest: Digest)
    requires Safe(start, s, models, digest) && Sound(t) && OnlyTouches(s, t, names) && s.next <= t.next
    requires forall n :: n in names ==> n != INDEX && (IsPart(n) || !Durable(s, n))
    ensures Safe(start, t, models, digest)
  {
    forall n | Durable(s, n) && !IsPart(n) && n != INDEX
      ensures Durable(t, n) && Cur(t, n) == Cur(s, n) && Held(t, n) == Held(s, n)
    {
      assert n !in names;
      SettledKept(s, t, names, n);
    }
    forall v | v in Possible(t, INDEX) ensures v in Possible(s, INDEX) && OutcomeGood(t, v, digest) {
      assert INDEX !in names;
      if v.Some? {
        EntriesKept(s, t, s.data[v.value].models, digest);
      }
    }
  }

  lemma SettledKept(s: Files, t: Files, names: set<string>, n: string)
    requires OnlyTouches(s, t, names) && n !in names && Settled(s, n)
    ensures Settled(t, n) && Cur(t, n) == Cur(s, n)
  {
    assert Possible(t, n) <= Possible(s, n);
  }

  lemma EntriesKept(s: Files, t: Files, models: seq<Entry>, digest: Digest)
    requires EntriesGood(s, models, digest)
    requires forall n {:trigger Durable(s, n)} :: Durable(s, n) && !IsPart(n) && n != INDEX ==>
      Durable(t, n) && Cur(t, n) == Cur(s, n) && Held(t, n) == Held(s, n)
    ensures EntriesGood(t, models, digest)
  {
    forall i | 0 <= i < |models| ensures EntryGood(t, models[i], digest) {
      assert EntryGood(s, models[i], digest);
    }
  }

  /** Renaming a durable index of good entries over the old one is safe. */
  lemma IndexRenameSafe(start: Files, s: Files, part: string, models: seq<Entry>, digest: Digest)
    requires Safe(start, s, models, digest) && IsPart(part) && part in s.dir && s.dir[part] in s.synced
    requires Held(s, part) == Index(models) && EntriesGood(s, models, digest)
    ensures Safe(start, Renamed(s, part, INDEX), models, digest)
  {
    var t := Renamed(s, part, INDEX);
    assert !IsPart(INDEX) by { assert INDEX[9] == 'n'; }
    forall n | Durable(s, n) && !IsPart(n) && n != INDEX
      ensures Durable(t, n) && Cur(t, n) == Cur(s, n) && Held(t, n) == Held(s, n)
    {
      assert Possible(t, n) == Possible(s, n);
    }
    forall v | v in Possible(t, INDEX)
      ensures OutcomeGood(t, v, digest) && (v in Possible(s, INDEX) || v == Cur(s, part))
    {
      if v in Possible(s, INDEX) {
        if v.Some? {
          EntriesKept(s, t, s.data[v.value].models, digest);
        }
      } else {
        EntriesKept(s, t, models, digest);
      }
    }
  }

  // ---------------------------------------------------------------- single operations

  lemma TouchTrans(r: Files, s: Files, t: Files, names: set<string>)
    requires OnlyTouches(r, s, names) && OnlyTouches(s, t, names)
    ensures OnlyTouches(r, t, names)
  {
    forall n | n !in names ensures Cur(t, n) == Cur(r, n) && Possible(t, n) <= Possible(r, n) {
      assert Cur(s, n) == Cur(r, n) && Possible(s, n) <= Possible(r, n);
    }
  }

  lemma RemoveTouches(s: Files, name: string)
    ensures OnlyTouches(s, Removed(s, name), {name})
  {
  }

  lemma CreateTouches(s: Files, name: string, c: Content)
    requires Sound(s)
    ensures OnlyTouches(s, Created(s, name, c), {name})
  {
  }

  lemma FillTouches(s: Files, file: nat, c: Content, names: set<string>)
    requires file !in s.synced
    ensures OnlyTouches(s, Filled(s, file, c), names)
  {
  }

  lemma SyncTouches(s: Files, file: nat, names: set<string>)
    ensures OnlyTouches(s, FileSynced(s, file), names)
  {
  }

  lemma RenameTouches(s: Files, from: string, to: string)
    ensures OnlyTouches(s, Renamed(s, from, to), {from, to})
  {
  }

  lemma DirSyncTouches(s: Files, names: set<string>)
    ensures OnlyTouches(s, DirSynced(s), names)
  {
  }

  lemma IndexRenameSyncSafe(start: Files, s: Files, part: string, models: seq<Entry>, digest: Digest)
    requires Safe(start, s, models, digest) && IsPart(part) && part in s.dir && s.dir[part] in s.synced
    requires Held(s, part) == Index(models) && EntriesGood(s, models, digest)
    ensures var r := Renamed(s, part, INDEX);
            Safe(start, r, models, digest) && Safe(start, DirSynced(r), models, digest)
  {
    var r := Renamed(s, part, INDEX);
    IndexRenameSafe(start, s, part, models, digest);
    DirSyncTouches(r, {});
    TouchKeepsSafe(start, r, DirSynced(r), {}, models, digest);
  }

  // ---------------------------------------------------------------- the store

  /** The models after an installation: the entry replaces those of its identifier, or is added. */
  function Updated(models: seq<Entry>, e: Entry): seq<Entry> {
    if exists i :: 0 <= i < |models| && models[i].id == e.id then Replaced(models, e) else models + [e]
  }

  lemma UpdatedHas(models: seq<Entry>, e: Entry)
    ensures e in Updated(models, e)
  {
    if i :| 0 <= i < |models| && models[i].id == e.id {
      assert Replaced(models, e)[i] == e;
    }
  }

  /** The new entry is listed, no other with its identifier is, and the others stay where they were. */
  lemma UpdatedIs(models: seq<Entry>, e: Entry)
    ensures var new' := Updated(models, e);
            && e in new' && (forall m :: m in new' && m.id == e.id ==> m == e)
            && (forall i {:trigger models[i]} :: 0 <= i < |models| && models[i].id != e.id ==>
                  i < |new'| && new'[i] == models[i])
            && |new'| == (if exists i :: 0 <= i < |models| && models[i].id == e.id then |models| else |models| + 1)
            && (forall m :: m in new' ==> m == e || m in models)
  {
    UpdatedHas(models, e);
  }

  function Replaced(models: seq<Entry>, e: Entry): (r: seq<Entry>)
    ensures |r| == |models|
  {
    seq(|models|, i requires 0 <= i < |models| => if models[i].id == e.id then e else models[i])
  }

  lemma UpdatedGood(fs: Files, models: seq<Entry>, e: Entry, digest: Digest)
    requires EntriesGood(fs, models, digest) && EntryGood(fs, e, digest)
    ensures EntriesGood(fs, Updated(models, e), digest)
  {
    var replaced := Replaced(models, e);
    forall i | 0 <= i < |replaced| ensures EntryGood(fs, replaced[i], digest) {
      assert EntryGood(fs, models[i], digest);
    }
  }

  /** Every state added to the trace is one in which a crash is harmless. */
  ghost predicate SafeSince(before: seq<Files>, after: seq<Files>, start: Files, models: seq<Entry>, digest: Digest) {
    && before <= after
    && forall k {:trigger after[k]} :: |before| <= k < |after| ==> Safe(start, after[k], models, digest)
  }

  /** Programs see the new index. */
  ghost predicate Shows(fs: Files, models: seq<Entry>) {
    INDEX in fs.dir && fs.dir[INDEX] in fs.data && Held(fs, INDEX) == Index(models)
  }

  /** Every state added to the trace is harmless, or one in which the new index is already in place. */
  ghost predicate SafeUntilShown(before: seq<Files>, after: seq<Files>, start: Files, models: seq<Entry>,
      digest: Digest) {
    && before <= after
    && forall k {:trigger after[k]} :: |before| <= k < |after| ==>
      Safe(start, after[k], models, digest) || Shows(after[k], models)
  }

  /** Every name but those of staging files is settled. */
  ghost predicate AllSettled(fs: Files) {
    forall n {:trigger Settled(fs, n)} :: !IsPart(n) ==> Settled(fs, n)
  }

  lemma SettledAfterTouch(s: Files, t: Files, part: string)
    requires AllSettled(s) && OnlyTouches(s, t, {part}) && IsPart(part)
    ensures AllSettled(t)
  {
    forall n | !IsPart(n) ensures Settled(t, n) {
      SettledKept(s, t, {part}, n);
    }
  }

  /** No file that exists is written to. */
  ghost predicate Unwritten(s: Files, t: Files) {
    forall i: nat {:trigger i in t.data} {:trigger i in s.data} :: i in s.data ==> i in t.data && t.data[i] == s.data[i]
  }

  class Store {
    const disk: Disk<Content>
    const digest: Digest

    constructor (disk: Disk<Content>, digest: Digest)
      ensures this.disk == disk && this.digest == digest
    {
      this.disk, this.digest := disk, digest;
    }

    /** Writes a staging file and makes its contents durable. */
    method Stage(part: string, content: Content, ghost start: Files, ghost models: seq<Entry>)
        returns (file: Option<nat>)
      requires Safe(start, disk.fs, models, digest) && IsPart(part)
      modifies disk
      ensures SafeSince(old(disk.trace), disk.trace, start, models, digest) && Safe(start, disk.fs, models, digest)
      ensures OnlyTouches(old(disk.fs), disk.fs, {part})
      ensures file.Some? ==>
        Cur(disk.fs, part) == file && file.value in disk.fs.synced && Held(disk.fs, part) == content
      ensures Unwritten(old(disk.fs), disk.fs) && disk.faults >= old(disk.faults)
      ensures disk.faults == old(disk.faults) ==> file.Some?
    {
      assert part != INDEX by { assert INDEX[9] == 'n'; }
      ghost var s := disk.fs;
      var ok := disk.Remove(part);
      ghost var r := disk.fs;
      RemoveTouches(s, part);
      TouchKeepsSafe(start, s, r, {part}, models, digest);
      if !ok {
        return None;
      }
      file := Fill(part, content, start, models);
      TouchTrans(s, r, disk.fs, {part});
      if file.None? {
        ghost var t := disk.fs;
        Clean(part);
        TouchKeepsSafe(start, t, disk.fs, {part}, models, digest);
        TouchTrans(s, t, disk.fs, {part});
      }
    }

    /** Creates, writes, synchronises and closes the staging file. */
    method Fill(part: string, content: Content, ghost start: Files, ghost models: seq<Entry>)
        returns (file: Option<nat>)
      requires Safe(start, disk.fs, models, digest) && IsPart(part)
      modifies disk
      ensures SafeSince(old(disk.trace), disk.trace, start, models, digest) && Safe(start, disk.fs, models, digest)
      ensures OnlyTouches(old(disk.fs), disk.fs, {part})
      ensures file.Some? ==>
        Cur(disk.fs, part) == file && file.value in disk.fs.synced && Held(disk.fs, part) == content
      ensures Unwritten(old(disk.fs), disk.fs) && disk.faults >= old(disk.faults)
      ensures disk.faults == old(disk.faults) ==> (file.Some? <==> old(Cur(disk.fs, part)).None?)
    {
      assert part != INDEX by { assert INDEX[9] == 'n'; }
      ghost var s := disk.fs;
      var created := disk.CreateExclusive(part, Raw([]));
      if created.None? {
        return None;
      }
      ghost var c := disk.fs;
      CreateTouches(s, part, Raw([]));
      TouchKeepsSafe(start, s, c, {part}, models, digest);
      var ok := WriteAndSync(part, created.value, content, start, models);
      TouchTrans(s, c, disk.fs, {part});
      return if ok then created else None;
    }

    method WriteAndSync(part: string, file: nat, content: Content, ghost start: Files, ghost models: seq<Entry>)
        returns (ok: bool)
      requires Safe(start, disk.fs, models, digest) && IsPart(part) && part != INDEX
      requires Cur(disk.fs, part) == Some(file) && file !in disk.fs.synced && file in disk.fs.data
      modifies disk
      ensures SafeSince(old(disk.trace), disk.trace, start, models, digest) && Safe(start, disk.fs, models, digest)
      ensures OnlyTouches(old(disk.fs), disk.fs, {part})
      ensures ok ==> Cur(disk.fs, part) == Some(file) && file in disk.fs.synced && Held(disk.fs, part) == content
      ensures disk.faults >= old(disk.faults) && (disk.faults == old(disk.faults) ==> ok)
      ensures forall i: nat {:trigger i in disk.fs.data} :: i in old(disk.fs.data) && i != file ==>
                i in disk.fs.data && disk.fs.data[i] == old(disk.fs).data[i]
    {
      ghost var c := disk.fs;
      ghost var left: Content;
      ok, left := disk.Write(file, content);
      ghost var f := disk.fs;
      FillTouches(c, file, left, {part});
      TouchKeepsSafe(start, c, f, {part}, models, digest);
      if !ok {
        return;
      }
      ok := disk.SyncFile(file);
      if ok {
        SyncTouches(f, file, {part});
        TouchKeepsSafe(start, f, disk.fs, {part}, models, digest);
        TouchTrans(c, f, disk.fs, {part});
      }
      var closed := disk.Look();
      ok := ok && closed;
    }

    /** Makes a staged file the durable value of a new name. */
    method Promote(part: string, to: string, ghost content: Content, ghost start: Files, ghost models: seq<Entry>)
        returns (ok: bool)
      requires Safe(start, disk.fs, models, digest) && IsPart(part) && !IsPart(to) && to != INDEX
      requires part in disk.fs.dir && disk.fs.dir[part] in disk.fs.synced && Held(disk.fs, part) == content
      requires Cur(disk.fs, to).None?
      modifies disk
      ensures SafeSince(old(disk.trace), disk.trace, start, models, digest) && Safe(start, disk.fs, models, digest)
      ensures OnlyTouches(old(disk.fs), disk.fs, {part, to})
      ensures ok ==> Durable(disk.fs, to) && Held(disk.fs, to) == content && AllSettled(disk.fs)
      ensures Unwritten(old(disk.fs), disk.fs)
      ensures disk.faults >= old(disk.faults) && (disk.faults == old(disk.faults) ==> ok)
    {
      assert part != INDEX by { assert INDEX[9] == 'n'; }
      ghost var s := disk.fs;
      ok := disk.Rename(part, to);
      ghost var r := disk.fs;
      if !ok {
        return;
      }
      RenameTouches(s, part, to);
      TouchKeepsSafe(start, s, r, {part, to}, models, digest);
      ok := disk.SyncDirectory();
      DirSyncTouches(r, {part, to});
      if ok {
        TouchKeepsSafe(start, r, disk.fs, {}, models, digest) by { DirSyncTouches(r, {}); }
        TouchTrans(s, r, disk.fs, {part, to});
      }
    }

    /** The same with the index: from here on programs see the new one, and so may what a crash leaves. */
    method PromoteIndex(part: string, ghost start: Files, ghost models: seq<Entry>) returns (ok: bool)
      requires Safe(start, disk.fs, models, digest) && IsPart(part)
      requires part in disk.fs.dir && disk.fs.dir[part] in disk.fs.synced && Held(disk.fs, part) == Index(models)
      modifies disk
      ensures SafeUntilShown(old(disk.trace), disk.trace, start, models, digest) && Sound(disk.fs)
      ensures Safe(start, disk.fs, models, digest) || (Shows(disk.fs, models) && disk.fs.dir[INDEX] in disk.fs.synced)
      ensures EntriesGood(old(disk.fs), models, digest) ==>
        SafeSince(old(disk.trace), disk.trace, start, models, digest) && Safe(start, disk.fs, models, digest)
      ensures ok ==> Durable(disk.fs, INDEX) && Held(disk.fs, INDEX) == Index(models)
      ensures disk.faults >= old(disk.faults) && (disk.faults == old(disk.faults) ==> ok)
    {
      assert part != INDEX by { assert INDEX[9] == 'n'; }
      ghost var s := disk.fs;
      ok := disk.Rename(part, INDEX);
      ghost var r := disk.fs;
      if !ok {
        return;
      }
      if EntriesGood(s, models, digest) {
        IndexRenameSyncSafe(start, s, part, models, digest);
      }
      ok := disk.SyncDirectory();
    }

    /** Removes what may be left of a staging file; errors are ignored. */
    method Clean(part: string)
      requires Sound(disk.fs)
      modifies disk
      ensures Sound(disk.fs) && disk.trace == old(disk.trace) + [disk.fs] && disk.fs.next == old(disk.fs.next)
      ensures OnlyTouches(old(disk.fs), disk.fs, {part})
      ensures Unwritten(old(disk.fs), disk.fs) && disk.faults >= old(disk.faults)
    {
      ghost var s := disk.fs;
      var ignored := disk.Remove(part);
      RemoveTouches(s, part);
    }

    /** Publishes an asset under a name that carries its digest; one that is already there must be the same. */
    method PublishImmutable(part: string, to: string, content: Content, ghost start: Files, ghost models: seq<Entry>)
        returns (ok: bool)
      requires Safe(start, disk.fs, models, digest) && IsPart(part) && !IsPart(to) && to != INDEX
      modifies disk
      ensures SafeSince(old(disk.trace), disk.trace, start, models, digest) && Safe(start, disk.fs, models, digest)
      ensures OnlyTouches(old(disk.fs), disk.fs, {part, to})
      ensures ok ==> Cur(disk.fs, to).Some? && Held(disk.fs, to) == content
      ensures ok && old(Cur(disk.fs, to)).None? ==> Durable(disk.fs, to) && AllSettled(disk.fs)
      ensures old(Cur(disk.fs, to)).Some? ==> disk.fs == old(disk.fs)
      ensures Unwritten(old(disk.fs), disk.fs) && disk.faults >= old(disk.faults)
      ensures ok ==> old(Fits(disk.fs, to, content))
      ensures disk.faults == old(disk.faults) ==> (ok <==> old(Fits(disk.fs, to, content)))
    {
      if to in disk.fs.dir {
        var readable := disk.Look();
        return readable && Held(disk.fs, to) == content;
      }
      ghost var s := disk.fs;
      var file := Stage(part, content, start, models);
      ghost var t := disk.fs;
      TouchMore(s, t, {part}, {part, to});
      assert Cur(t, to) == Cur(s, to);
      if file.None? {
        return false;
      }
      ok := Promote(part, to, content, start, models);
      TouchTrans(s, t, disk.fs, {part, to});
      ghost var p := disk.fs;
      Clean(part);
      TouchKeepsSafe(start, p, disk.fs, {part}, models, digest);
      TouchMore(p, disk.fs, {part}, {part, to});
      TouchTrans(s, p, disk.fs, {part, to});
      if ok {
        DurableKept(p, disk.fs, {part}, to);
        SettledAfterTouch(p, disk.fs, part);
      }
    }

    /** Replaces the index by one that lists the new entry. */
    method UpdateIndex(models: seq<Entry>, ghost start: Files) returns (ok: bool)
      requires Safe(start, disk.fs, models, digest)
      modifies disk
      ensures SafeUntilShown(old(disk.trace), disk.trace, start, models, digest)
      ensures EntriesGood(old(disk.fs), models, digest) ==>
        SafeSince(old(disk.trace), disk.trace, start, models, digest) && Safe(start, disk.fs, models, digest)
      ensures ok ==> Durable(disk.fs, INDEX) && Held(disk.fs, INDEX) == Index(models)
      ensures disk.faults >= old(disk.faults) && (disk.faults == old(disk.faults) ==> ok)
    {
      var part := INDEX + ".part";
      assert part[14] == 't' && INDEX[9] == 'n';
      ghost var s := disk.fs;
      var file := Stage(part, Index(models), start, models);
      if file.None? {
        return false;
      }
      if EntriesGood(s, models, digest) {
        GoodEntriesKept(s, disk.fs, {part}, models, digest);
      }
      ok := PromoteIndex(part, start, models);
      CleanIndex(part, start, models);
    }

    /** Removes what may be left of the index's staging file. */
    method CleanIndex(part: string, ghost start: Files, ghost models: seq<Entry>)
      requires IsPart(part) && part != INDEX && Sound(disk.fs)
      requires Safe(start, disk.fs, models, digest) || (Shows(disk.fs, models) && disk.fs.dir[INDEX] in disk.fs.synced)
      modifies disk
      ensures disk.trace == old(disk.trace) + [disk.fs] && disk.faults >= old(disk.faults)
      ensures Safe(start, disk.fs, models, digest) || Shows(disk.fs, models)
      ensures old(Safe(start, disk.fs, models, digest)) ==> Safe(start, disk.fs, models, digest)
      ensures old(Durable(disk.fs, INDEX)) ==>
        Durable(disk.fs, INDEX) && Held(disk.fs, INDEX) == old(Held(disk.fs, INDEX))
    {
      ghost var p := disk.fs;
      Clean(part);
      if Safe(start, p, models, digest) {
        TouchKeepsSafe(start, p, disk.fs, {part}, models, digest);
      } else {
        assert Cur(disk.fs, INDEX) == Cur(p, INDEX);
      }
      if Durable(p, INDEX) {
        DurableKept(p, disk.fs, {part}, INDEX);
      }
    }

    /** The models the index lists now; None when there is an index that cannot be read. */
    method ReadIndex() returns (models: Option<seq<Entry>>)
      requires Sound(disk.fs)
      modifies disk`faults
      ensures models.Some? ==> WellIndexed(disk.fs) && models.value == ListedModels(disk.fs)
      ensures disk.faults >= old(disk.faults)
      ensures disk.faults == old(disk.faults) ==> (models.Some? <==> WellIndexed(disk.fs))
    {
      var readable := disk.Look();
      if !readable {
        return None;
      }
      if INDEX !in disk.fs.dir {
        return Some([]);
      }
      var content := Held(disk.fs, INDEX);
      return if content.Index? then Some(content.models) else None;
    }

    /**
     Installs a validated model. Whatever step fails, and wherever a crash happens before the new
     index is in place, the index left is the old one and each of its entries names a complete artifact with
     the recorded digest. If the assets found in place were settled, so it is afterwards, with the
     old index or the new one.
     */
    method Install(id: string, raw: seq<Byte>, overwrite: bool) returns (ok: bool, ghost models: seq<Entry>)
      requires Good(disk.fs, digest) && |digest(Raw(raw))| == 64
      modifies disk
      ensures SafeUntilShown(old(disk.trace), disk.trace, old(disk.fs), models, digest)
      ensures old(AssetsSettled(disk.fs, id, digest(Raw(raw)))) ==>
        SafeSince(old(disk.trace), disk.trace, old(disk.fs), models, digest)
            && Safe(old(disk.fs), disk.fs, models, digest)
      ensures ok ==> Durable(disk.fs, INDEX) && Held(disk.fs, INDEX) == Index(models)
      ensures ok ==> NewEntry(id, digest(Raw(raw)), |raw|) in models
      ensures ok && !overwrite ==> forall e :: e in old(ListedModels(disk.fs)) ==> e.id != id && e in models
      ensures ok ==> forall e: Entry :: e.id != id ==> (e in models <==> e in old(ListedModels(disk.fs)))
      ensures ok ==> forall e :: e in models && e.id == id ==> e == NewEntry(id, digest(Raw(raw)), |raw|)
      ensures disk.faults >= old(disk.faults) && (ok ==> old(Installable(disk.fs, id, raw, overwrite, digest)))
      ensures disk.faults == old(disk.faults) ==> (ok <==> old(Installable(disk.fs, id, raw, overwrite, digest)))
    {
      ghost var start := disk.fs;
      var sha := digest(Raw(raw));
      var entry := NewEntry(id, sha, |raw|);
      models := Updated(ListedModels(start), entry);
      SafeStart(start, models, digest);
      var index := ReadIndex();
      if index.None? {
        return false, models;
      }
      if !overwrite && exists i :: 0 <= i < |index.value| && index.value[i].id == id {
        return false, models;
      }
      ok := PublishAssets(id, raw, entry, start, models);
      if !ok {
        return;
      }
      if AssetsSettled(start, id, sha) {
        NewEntriesGood(start, disk.fs, ListedModels(start), entry, digest);
      }
      UpdatedKeepsOthers(ListedModels(start), entry);
      UpdatedIs(ListedModels(start), entry);
      ok := UpdateIndex(Updated(index.value, entry), start);
    }

    method PublishAssets(id: string, raw: seq<Byte>, entry: Entry, ghost start: Files, ghost models: seq<Entry>)
        returns (ok: bool)
      requires |digest(Raw(raw))| == 64 && entry == NewEntry(id, digest(Raw(raw)), |raw|)
      requires Safe(start, disk.fs, models, digest)
      modifies disk
      ensures SafeSince(old(disk.trace), disk.trace, start, models, digest) && Safe(start, disk.fs, models, digest)
      ensures ok && old(AssetsSettled(disk.fs, id, entry.sha)) ==> EntryGood(disk.fs, entry, digest)
      ensures disk.faults >= old(disk.faults) && (ok ==> old(AssetsFit(disk.fs, id, raw, digest)))
      ensures disk.faults == old(disk.faults) ==> (ok <==> old(AssetsFit(disk.fs, id, raw, digest)))
    {
      Names(id, entry.sha);
      DifferentNames(id, entry.sha);
      ghost var s := disk.fs;
      ok := PublishImmutable(id + ".tflite.part", entry.artifact, Raw(raw), start, models);
      ghost var a := disk.fs;
      if !ok {
        return;
      }
      assert Cur(a, entry.metadata) == Cur(s, entry.metadata);
      ok := PublishImmutable(id + ".json.part", entry.metadata, Metadata(id, entry.sha, |raw|), start, models);
      if ok && AssetsSettled(s, id, entry.sha) {
        AssetsGood(s, a, disk.fs, id, raw, digest);
      }
    }
  }

  /** What publishing the two assets leaves, whichever of them was in place. */
  lemma AssetsGood(s: Files, a: Files, t: Files, id: string, raw: seq<Byte>, digest: Digest)
    requires |digest(Raw(raw))| == 64 && Sound(s) && Sound(a) && Sound(t)
    requires var e := NewEntry(id, digest(Raw(raw)), |raw|);
             && AssetsSettled(s, id, e.sha)
             && OnlyTouches(s, a, {id + ".tflite.part", e.artifact})
               && OnlyTouches(a, t, {id + ".json.part", e.metadata})
             && Cur(a, e.artifact).Some? && Held(a, e.artifact) == Raw(raw) && Cur(t, e.metadata).Some?
             && (if Cur(s, e.artifact).None? then Durable(a, e.artifact) && AllSettled(a) else a == s)
             && (if Cur(a, e.metadata).None? then Durable(t, e.metadata) && AllSettled(t) else t == a)
    ensures EntryGood(t, NewEntry(id, digest(Raw(raw)), |raw|), digest)
  {
    var e := NewEntry(id, digest(Raw(raw)), |raw|);
    Names(id, e.sha);
    DifferentNames(id, e.sha);
    assert Cur(t, e.artifact) == Cur(a, e.artifact);
    assert Cur(a, e.metadata) == Cur(s, e.metadata);
    assert a.dir[e.artifact] in a.synced;
    assert Settled(t, e.artifact) by {
      if Cur(a, e.metadata).Some? && Cur(s, e.artifact).None? {
        assert Settled(a, e.artifact);
      }
    }
    assert Settled(t, e.metadata) by {
      if Cur(a, e.metadata).Some? && Cur(s, e.artifact).None? {
        assert Settled(a, e.metadata);
      }
    }
  }

  /** Nothing is in place under the name, or exactly these contents. */
  ghost predicate Fits(fs: Files, name: string, content: Content) {
    name in fs.dir ==> fs.dir[name] in fs.data && Held(fs, name) == content
  }

  ghost predicate AssetsFit(fs: Files, id: string, raw: seq<Byte>, digest: Digest) {
    var e := NewEntry(id, digest(Raw(raw)), |raw|);
    Fits(fs, e.artifact, Raw(raw)) && Fits(fs, e.metadata, Metadata(id, e.sha, |raw|))
  }

  /** There is no index, or a readable one. */
  ghost predicate WellIndexed(fs: Files) {
    INDEX in fs.dir ==> fs.dir[INDEX] in fs.data && Held(fs, INDEX).Index?
  }

  /**
   What the store itself must be like for an installation to succeed: a readable index or none, an identifier
   that is new unless overwriting is allowed, and no other contents under the names of the assets.
   */
  ghost predicate Installable(fs: Files, id: string, raw: seq<Byte>, overwrite: bool, digest: Digest) {
    && WellIndexed(fs)
    && (overwrite || forall e :: e in ListedModels(fs) ==> e.id != id)
    && AssetsFit(fs, id, raw, digest)
  }

  function NewEntry(id: string, sha: string, size: nat): Entry {
    Entry(id, sha, size, ArtifactName(id, sha), MetadataName(id, sha))
  }

  /** The models listed by the index programs see now. */
  function ListedModels(fs: Files): seq<Entry> {
    if INDEX in fs.dir && fs.dir[INDEX] in fs.data && Held(fs, INDEX).Index? then Held(fs, INDEX).models else []
  }

  /**
   Assets in place have their contents synchronised, and if both are, their names too: publishing
   one asset synchronises the directory and with it the name of the other.
   */
  ghost predicate AssetsSettled(fs: Files, id: string, sha: string) {
    var a, m := ArtifactName(id, sha), MetadataName(id, sha);
    && (a in fs.dir ==> fs.dir[a] in fs.synced)
    && (m in fs.dir ==> fs.dir[m] in fs.synced)
    && (a in fs.dir && m in fs.dir ==> Settled(fs, a) && Settled(fs, m))
  }

  lemma TouchMore(s: Files, t: Files, names: set<string>, more: set<string>)
    requires OnlyTouches(s, t, names) && names <= more
    ensures OnlyTouches(s, t, more)
  {
  }

  lemma DurableKept(s: Files, t: Files, names: set<string>, n: string)
    requires OnlyTouches(s, t, names) && Durable(s, n) && n !in names
    ensures Durable(t, n) && Cur(t, n) == Cur(s, n) && Held(t, n) == Held(s, n)
  {
    SettledKept(s, t, names, n);
  }

  lemma GoodEntriesKept(s: Files, t: Files, names: set<string>, models: seq<Entry>, digest: Digest)
    requires OnlyTouches(s, t, names) && EntriesGood(s, models, digest) && forall n :: n in names ==> IsPart(n)
    ensures EntriesGood(t, models, digest)
  {
    forall n | Durable(s, n) && !IsPart(n) && n != INDEX
      ensures Durable(t, n) && Cur(t, n) == Cur(s, n) && Held(t, n) == Held(s, n)
    {
      DurableKept(s, t, names, n);
    }
    EntriesKept(s, t, models, digest);
  }

  lemma SafeStart(start: Files, models: seq<Entry>, digest: Digest)
    requires Good(start, digest)
    ensures Safe(start, start, models, digest)
    ensures EntriesGood(start, ListedModels(start), digest)
  {
    assert Cur(start, INDEX) in Possible(start, INDEX);
  }

  lemma DifferentNames(id: string, sha: string)
    ensures ArtifactName(id, sha) != MetadataName(id, sha)
  {
    var a, m := ArtifactName(id, sha), MetadataName(id, sha);
    assert a[|a| - 1] == 'e' && m[|m| - 1] == 'n';
  }

  lemma NewEntriesGood(start: Files, fs: Files, models: seq<Entry>, e: Entry, digest: Digest)
    requires Keeps(start, fs) && EntriesGood(start, models, digest) && EntryGood(fs, e, digest)
    ensures EntriesGood(fs, Updated(models, e), digest)
  {
    EntriesKept(start, fs, models, digest);
    UpdatedGood(fs, models, e, digest);
  }

  lemma UpdatedKeepsOthers(models: seq<Entry>, e: Entry)
    ensures forall m :: m in models && m.id != e.id ==> m in Updated(models, e)
  {
    forall m | m in models && m.id != e.id ensures m in Updated(models, e) {
      var i :| 0 <= i < |models| && models[i] == m;
      assert Replaced(models, e)[i] == m;
    }
  }

  // ---------------------------------------------------------------- reading the store

  predicate Verified(fs: Files, e: Entry, digest: Digest) {
    && e.artifact in fs.dir && fs.dir[e.artifact] in fs.data
    && digest(Held(fs, e.artifact)) == e.sha && SizeOf(Held(fs, e.artifact)) == e.size
  }

  /** Every listed model is verified against the file it names; one that is not fails the whole listing. */
  method List(fs: Files, digest: Digest) returns (r: Option<seq<Entry>>)
    ensures r.Some? <==> forall e :: e in ListedModels(fs) ==> Verified(fs, e, digest)
    ensures r.Some? ==> r.value == ListedModels(fs)
  {
    var models := ListedModels(fs);
    for i := 0 to |models|
      invariant forall k :: 0 <= k < i ==> Verified(fs, models[k], digest)
    {
      if !Verified(fs, models[i], digest) {
        return None;
      }
    }
    return Some(models);
  }

  /**
   After a crash in a safe state the store lists a set of models: the old one or the new one, every
   artifact intact.
   */
  lemma CrashIsHarmless(start: Files, s: Files, models: seq<Entry>, digest: Digest, g: Files)
    requires Safe(start, s, models, digest) && CrashesTo(s, g)
    ensures forall e :: e in ListedModels(g) ==> Verified(g, e, digest)
    ensures Sound(g) ==> Good(g, digest)
    ensures Cur(g, INDEX) in Possible(start, INDEX) || (Cur(g, INDEX).Some? && ListedModels(g) == models)
    ensures forall n :: Durable(start, n) && !IsPart(n) && n != INDEX ==>
      n in g.dir && g.dir[n] in g.data && Held(g, n) == Held(start, n)
  {
    assert Cur(g, INDEX) in Possible(s, INDEX);
    assert OutcomeGood(s, Cur(g, INDEX), digest);
    forall e | e in ListedModels(g) ensures Verified(g, e, digest) {
      EntrySurvives(s, g, e, digest);
    }
    forall n | Durable(start, n) && !IsPart(n) && n != INDEX ensures n in g.dir && g.dir[n] in g.data
        && Held(g, n) == Held(start, n) {
      assert Durable(s, n);
      DurableSurvives(s, g, n);
    }
    GoodAfterCrash(s, g, digest);
  }

  lemma GoodAfterCrash(s: Files, g: Files, digest: Digest)
    requires CrashesTo(s, g) && OutcomeGood(s, Cur(g, INDEX), digest)
    ensures Sound(g) ==> Good(g, digest)
  {
    if Cur(g, INDEX).Some? {
      var models := s.data[Cur(g, INDEX).value].models;
      forall i | 0 <= i < |models| ensures EntryGood(g, models[i], digest) {
        assert EntryGood(s, models[i], digest);
        DurableSurvives(s, g, models[i].artifact);
        DurableSurvives(s, g, models[i].metadata);
      }
    }
  }

  lemma DurableSurvives(s: Files, g: Files, n: string)
    requires CrashesTo(s, g) && Durable(s, n)
    ensures Cur(g, n) == Cur(s, n) && n in g.dir && g.dir[n] in g.data && Held(g, n) == Held(s, n) && Durable(g, n)
  {
    assert Cur(g, n) in Possible(s, n);
  }

  lemma EntrySurvives(s: Files, g: Files, e: Entry, digest: Digest)
    requires CrashesTo(s, g) && e in ListedModels(g) && OutcomeGood(s, Cur(g, INDEX), digest)
    ensures Verified(g, e, digest)
  {
    var models := ListedModels(g);
    var i :| 0 <= i < |models| && models[i] == e;
    assert EntryGood(s, models[i], digest);
    DurableSurvives(s, g, e.artifact);
  }

  // ---------------------------------------------------------------- exactly when renaming the index is harmless

  /** A value of an artifact's name after which its entry verifies, whatever the crash does to other files. */
  predicate Kept(fs: Files, v: Option<nat>, e: Entry, digest: Digest) {
    v.Some? && v.value in fs.synced && v.value in fs.data && digest(fs.data[v.value]) == e.sha
        && SizeOf(fs.data[v.value]) == e.size
  }

  /** A new index has been staged and synchronised and is about to be renamed into place. */
  ghost predicate Ready(s: Files, part: string, models: seq<Entry>) {
    && Sound(s) && IsPart(part) && part in s.dir && s.dir[part] in s.synced && Held(s, part) == Index(models)
    && forall e {:trigger e.artifact} :: e in models ==> e.artifact != INDEX && !IsPart(e.artifact)
  }

  /** The new index survived the crash. */
  ghost predicate NewIndexLeft(s: Files, part: string, g: Files) {
    CrashesTo(Renamed(s, part, INDEX), g) && Cur(g, INDEX) == Cur(s, part)
  }

  /**
   The crash that leaves one name at a value of its past, everything else as programs saw it, and no
   unsynchronised file.
   */
  function Worst(t: Files, name: string, v: Option<nat>): Files {
    Fs(if v.Some? then t.dir[name := v.value] else t.dir - {name}, map[],
       map i | i in t.data && i in t.synced :: t.data[i], t.synced, t.next)
  }

  lemma WorstIsPossible(t: Files, name: string, v: Option<nat>)
    requires v in Possible(t, name)
    ensures CrashesTo(t, Worst(t, name, v)) && Cur(Worst(t, name, v), name) == v
    ensures forall n :: n != name ==> Cur(Worst(t, name, v), n) == Cur(t, n)
  {
    var g := Worst(t, name, v);
    forall n ensures Cur(g, n) in Possible(t, n) {
      assert n != name ==> Cur(g, n) == Cur(t, n);
    }
  }

  ghost predicate ListsVerified(s: Files, part: string, models: seq<Entry>, digest: Digest) {
    forall g, e {:trigger NewIndexLeft(s, part, g), Verified(g, e, digest)} ::
      NewIndexLeft(s, part, g) && e in models ==>
      e in ListedModels(g) && Verified(g, e, digest)
  }

  ghost predicate AllKept(s: Files, models: seq<Entry>, digest: Digest) {
    forall e, v {:trigger Kept(s, v, e, digest)} :: e in models && v in Possible(s, e.artifact) ==>
        Kept(s, v, e, digest)
  }

  lemma ArtifactUnmoved(s: Files, part: string, models: seq<Entry>, e: Entry)
    requires Ready(s, part, models) && e in models
    ensures Possible(Renamed(s, part, INDEX), e.artifact) == Possible(s, e.artifact)
    ensures Cur(Renamed(s, part, INDEX), INDEX) == Cur(s, part)
  {
    assert INDEX[9] == 'n';
    assert e.artifact != INDEX && e.artifact != part;
  }

  lemma UnkeptBreaks(s: Files, part: string, models: seq<Entry>, digest: Digest, e: Entry, v: Option<nat>)
    requires Ready(s, part, models) && e in models && v in Possible(s, e.artifact) && !Kept(s, v, e, digest)
    ensures !ListsVerified(s, part, models, digest)
  {
    var t := Renamed(s, part, INDEX);
    var g := Worst(t, e.artifact, v);
    ArtifactUnmoved(s, part, models, e);
    WorstIsPossible(t, e.artifact, v);
    assert NewIndexLeft(s, part, g) && !Verified(g, e, digest);
  }

  lemma KeptVerifies(s: Files, part: string, models: seq<Entry>, digest: Digest, g: Files, e: Entry)
    requires Ready(s, part, models) && NewIndexLeft(s, part, g) && e in models && AllKept(s, models, digest)
    ensures e in ListedModels(g) && Verified(g, e, digest)
  {
    ArtifactUnmoved(s, part, models, e);
    assert Cur(g, e.artifact) in Possible(s, e.artifact);
    assert Kept(s, Cur(g, e.artifact), e, digest);
  }

  /**
   Every crash that leaves the new index lists only verified models if and only if each value the
   name of a listed artifact can take is a synchronised file with the recorded digest and size.
   */
  lemma IndexRenameSafeIff(s: Files, part: string, models: seq<Entry>, digest: Digest)
    requires Ready(s, part, models)
    ensures ListsVerified(s, part, models, digest) <==> AllKept(s, models, digest)
  {
    if !AllKept(s, models, digest) {
      var e, v :| e in models && v in Possible(s, e.artifact) && !Kept(s, v, e, digest);
      UnkeptBreaks(s, part, models, digest, e, v);
    } else {
      forall g, e | NewIndexLeft(s, part, g) && e in models ensures e in ListedModels(g) && Verified(g, e, digest) {
        KeptVerifies(s, part, models, digest, g, e);
      }
    }
  }

  // ---------------------------------------------------------------- installations whose syncs fail

  /** A staging file that has been created, written and synchronised. */
  function Staged(s: Files, part: string, c: Content): Files {
    FileSynced(Filled(Created(s, part, Raw([])), s.next, c), s.next)
  }

  /** A publication whose directory sync fails: the file is in place and its name not yet durable. */
  function Unsynced(s: Files, part: string, to: string, c: Content): Files {
    Renamed(Staged(s, part, c), part, to)
  }

  /** Apart from two names, what is in place stays there with its contents, and no past is lost. */
  ghost predicate Extends(s: Files, t: Files, part: string, to: string) {
    && (forall n {:trigger Cur(t, n)} {:trigger Possible(t, n)} :: n != part && n != to ==>
      Cur(t, n) == Cur(s, n) && Possible(t, n) == Possible(s, n))
    && (forall i: nat {:trigger i in t.data} {:trigger i in s.data} :: i in s.data ==>
          i in t.data && t.data[i] == s.data[i] && (i in s.synced ==> i in t.synced))
  }

  lemma StagedLeaves(s: Files, part: string, c: Content)
    requires Sound(s)
    ensures var t := Staged(s, part, c);
            Sound(t) && Extends(s, t, part, part) && Cur(t, part) == Some(s.next) && s.next in t.synced
                && Held(t, part) == c
  {
  }

  lemma UnsyncedLeaves(s: Files, part: string, to: string, c: Content)
    requires Sound(s) && part != to
    ensures var t := Unsynced(s, part, to, c);
            && Sound(t) && to in t.dir && t.dir[to] in t.synced && Held(t, to) == c && Cur(t, part).None?
            && Possible(s, to) <= Possible(t, to) && Extends(s, t, part, to)
  {
    var m := Staged(s, part, c);
    StagedLeaves(s, part, c);
    RenamedLeaves(m, part, to);
    assert Possible(m, to) == Possible(s, to);
    ExtendsTrans(s, m, Renamed(m, part, to), part, to);
  }

  lemma RenamedLeaves(m: Files, part: string, to: string)
    requires Sound(m) && part != to && part in m.dir
    ensures var t := Renamed(m, part, to);
            && Sound(t) && Cur(t, to) == Cur(m, part) && t.data == m.data && t.synced == m.synced && Cur(t, part).None?
            && Possible(m, to) <= Possible(t, to) && Extends(m, t, part, to)
  {
  }

  lemma ExtendsTrans(s: Files, m: Files, t: Files, part: string, to: string)
    requires Extends(s, m, part, part) && Extends(m, t, part, to)
    ensures Extends(s, t, part, to)
  {
    forall n | n != part && n != to ensures Cur(t, n) == Cur(s, n) && Possible(t, n) == Possible(s, n) {
      assert Cur(t, n) == Cur(m, n) && Possible(t, n) == Possible(m, n);
    }
  }

  /**
   One installation whose artifact's sync fails leaves a name a crash can undo, but the next
   installation settles it.
   */
  lemma InterruptedOnce(s: Files, id: string, raw: seq<Byte>, digest: Digest)
    requires Sound(s) && |digest(Raw(raw))| == 64
    requires var sha := digest(Raw(raw)); Cur(s, ArtifactName(id, sha)).None? && Cur(s, MetadataName(id, sha)).None?
    ensures var sha := digest(Raw(raw));
            var t := Unsynced(s, id + ".tflite.part", ArtifactName(id, sha), Raw(raw));
            Cur(t, ArtifactName(id, sha)).Some? && None in Possible(t, ArtifactName(id, sha))
                && AssetsSettled(t, id, sha)
  {
    var sha := digest(Raw(raw));
    Names(id, sha);
    DifferentNames(id, sha);
    UnsyncedLeaves(s, id + ".tflite.part", ArtifactName(id, sha), Raw(raw));
  }

  /**
   A second one finds the artifact in place and fails at the sync of its metadata: now a crash can
   undo both names.
   */
  lemma InterruptedTwice(s: Files, id: string, raw: seq<Byte>, digest: Digest)
    requires Sound(s) && |digest(Raw(raw))| == 64
    requires var sha := digest(Raw(raw)); Cur(s, ArtifactName(id, sha)).None? && Cur(s, MetadataName(id, sha)).None?
    ensures var e := NewEntry(id, digest(Raw(raw)), |raw|);
            var t := Unsynced(s, id + ".tflite.part", e.artifact, Raw(raw));
            var u := Unsynced(t, id + ".json.part", e.metadata, Metadata(id, e.sha, |raw|));
            && Sound(u) && Cur(u, e.artifact).Some? && Held(u, e.artifact) == Raw(raw) && Cur(u, e.metadata).Some?
            && None in Possible(u, e.artifact) && !AssetsSettled(u, id, e.sha)
  {
    var e := NewEntry(id, digest(Raw(raw)), |raw|);
    Names(id, e.sha);
    DifferentNames(id, e.sha);
    var t := Unsynced(s, id + ".tflite.part", e.artifact, Raw(raw));
    UnsyncedLeaves(s, id + ".tflite.part", e.artifact, Raw(raw));
    assert None in Possible(t, e.artifact);
    var u := Unsynced(t, id + ".json.part", e.metadata, Metadata(id, e.sha, |raw|));
    UnsyncedLeaves(t, id + ".json.part", e.metadata, Metadata(id, e.sha, |raw|));
    assert Cur(u, e.artifact) == Cur(t, e.artifact) && Possible(u, e.artifact) == Possible(t, e.artifact);
    assert !Settled(u, e.artifact);
  }

  /**
   A third finds both in place, so nothing synchronises the directory before its index is renamed:
   a crash can then leave an index that names a missing artifact.
   */
  lemma ArtifactCanVanish(u: Files, e: Entry, digest: Digest) returns (g: Files)
    requires Sound(u) && None in Possible(u, e.artifact) && !IsPart(e.artifact) && e.artifact != INDEX
    ensures var w := Unsynced(u, INDEX + ".part", INDEX, Index(Updated(ListedModels(u), e)));
            CrashesTo(w, g) && e in ListedModels(g) && !Verified(g, e, digest)
  {
    var part, models := INDEX + ".part", Updated(ListedModels(u), e);
    assert part[14] == 't' && INDEX[9] == 'n';
    UpdatedHas(ListedModels(u), e);
    var w := Unsynced(u, part, INDEX, Index(models));
    UnsyncedLeaves(u, part, INDEX, Index(models));
    assert Possible(w, e.artifact) == Possible(u, e.artifact);
    g := Worst(w, e.artifact, None);
    WorstIsPossible(w, e.artifact, None);
    assert Cur(g, INDEX) == Cur(w, INDEX);
  }
}
