/**
  The store of src/cache.cpp and a restart from it. A file holds the descriptor
  and the metadata of an entry as they were when it was last written, which is
  at its capture or by `persist_all`; `invalidate` writes nothing. Recovery
  rebuilds each key from the stored descriptor and takes the live file that is
  listed last for the current one.
 */
module CacheStore {
  import opened Bytes
  import opened Descriptors
  import opened StoredCodec
  import opened CacheRegistry
  import opened CacheRecovery
  import opened GraphCache
  import Recovery

  /** The files among these that load. */
  function Loadable(disk: seq<seq<byte>>): seq<seq<byte>> {
    if disk == [] then []
    else Loadable(disk[..|disk| - 1]) + if Recovery.LoadEntry(disk[|disk| - 1]).Some? then [disk[|disk| - 1]] else []
  }

  /** Whatever else is in the store, and wherever it is listed, does not matter. */
  lemma {:induction false} JunkIsSkipped(disk: seq<seq<byte>>)
    ensures LoadAll(Loadable(disk)) == LoadAll(disk)
  {
    hide Recovery.LoadEntry, EntryOf;
    if disk != [] {
      var last := |disk| - 1;
      JunkIsSkipped(disk[..last]);
      var before := Loadable(disk[..last]);
      if Recovery.LoadEntry(disk[last]).Some? {
        LoadAllSnoc(before, disk[last]);
        LoadAllSnoc(disk[..last], disk[last]);
        assert disk[..last] + [disk[last]] == disk;
      } else {
        assert Loadable(disk) == before;
      }
    }
  }

  lemma LoadAllSnoc(files: seq<seq<byte>>, file: seq<byte>)
    requires Recovery.LoadEntry(file).Some?
    ensures var x := Recovery.LoadEntry(file).value; LoadAll(files + [file]) == LoadAll(files) + [EntryOf(x.0, x.1)]
  {
    hide Recovery.LoadEntry, EntryOf;
    assert (files + [file])[..|files|] == files;
  }

  lemma SameLoadable(disk: seq<seq<byte>>, other: seq<seq<byte>>)
    requires Loadable(disk) == Loadable(other)
    ensures LoadAll(disk) == LoadAll(other)
  {
    hide Loadable, LoadAll;
    JunkIsSkipped(disk);
    JunkIsSkipped(other);
  }

  /** What was last written for an artifact: for which entry, and with what. */
  datatype File = File(n: nat, d: Descriptor, m: Metadata)

  function BytesOf(f: File): seq<byte> {
    Recovery.Stored(f.d, f.m)
  }

  function Disk(fs: seq<File>): (bs: seq<seq<byte>>)
    ensures |bs| == |fs| && forall i | 0 <= i < |fs| :: bs[i] == BytesOf(fs[i])
  {
    seq(|fs|, i requires 0 <= i < |fs| => BytesOf(fs[i]))
  }

  predicate Loads(f: File) {
    Recovery.LoadEntry(BytesOf(f)).Some?
  }

  /** The entry a file loads as, with a key of its own. */
  function EntryIn(f: File): Entry
    requires Loads(f)
  {
    EntryOf(Recovery.LoadEntry(BytesOf(f)).value.0, Recovery.LoadEntry(BytesOf(f)).value.1)
  }

  /** The files that load, in the order they are listed. */
  function Kept(fs: seq<File>): seq<File> {
    if fs == [] then [] else Kept(fs[..|fs| - 1]) + if Loads(fs[|fs| - 1]) then [fs[|fs| - 1]] else []
  }

  lemma {:induction false} KeptLoads(fs: seq<File>)
    ensures |LoadAll(Disk(fs))| == |Kept(fs)|
    ensures forall i | 0 <= i < |Kept(fs)| :: Kept(fs)[i] in fs && Loads(Kept(fs)[i]) && LoadAll(Disk(fs))[i] == EntryIn(Kept(fs)[i])
  {
    hide BytesOf, Recovery.LoadEntry, EntryOf;
    if fs != [] {
      var last := |fs| - 1;
      KeptLoads(fs[..last]);
      assert Disk(fs)[..last] == Disk(fs[..last]);
    }
  }

  /** The entries a restart loads, one for each file that loads. */
  ghost function Reloaded(fs: seq<File>): (es: seq<Entry>)
    ensures |es| == |Kept(fs)|
  {
    KeptLoads(fs);
    LoadAll(Disk(fs))
  }

  lemma EntryInFile(f: File)
    requires Loads(f)
    ensures Loaded(EntryIn(f)) && EntryIn(f).generation == f.m.generation && EntryIn(f).invalidated == f.m.invalidated
    ensures EntryIn(f).artifact == f.m.artifact && EntryIn(f).cacheGeneration == f.m.cacheGeneration
    ensures EntryIn(f).dependencyGeneration == f.m.dependencyGeneration && EntryIn(f).facts.workload == f.m.workload
  {
    hide Recovery.LoadEntry, KeyOf, GraphIdOf;
    Recovery.MetadataSurvives(f.d, f.m);
  }

  function Numbers(ks: seq<File>): (ns: seq<nat>)
    ensures |ns| == |ks| && forall i | 0 <= i < |ns| :: ns[i] == ks[i].n
  {
    seq(|ks|, i requires 0 <= i < |ks| => ks[i].n)
  }

  /** The entries whose files load. */
  function Owners(fs: seq<File>): seq<nat> {
    Numbers(Kept(fs))
  }

  predicate Differ(f: File, g: File) {
    f.m.generation != g.m.generation && f.m.artifact != g.m.artifact
  }

  predicate FilesApart(fs: seq<File>) {
    forall i, j | 0 <= i < j < |fs| :: Differ(fs[i], fs[j])
  }

  /** The file is of a published entry, which may have been invalidated since. */
  ghost predicate IsFileOf(r: Registry, f: File) {
    && Published(r, f.n) && f.m.generation == r.entries[f.n].generation
    && (f.m.invalidated ==> r.entries[f.n].invalidated)
  }

  ghost predicate Reflects(r: Registry, fs: seq<File>) {
    FilesApart(fs) && forall f | f in fs :: IsFileOf(r, f)
  }

  lemma ApartSnoc(fs: seq<File>, f: File)
    requires FilesApart(fs) && forall g | g in fs :: Differ(g, f)
    ensures FilesApart(fs + [f])
  {
    var gs := fs + [f];
    forall i, j | 0 <= i < j < |gs|
      ensures Differ(gs[i], gs[j])
    {
      assert gs[i] == fs[i] && gs[i] in fs;
      assert j < |fs| ==> gs[j] == fs[j];
    }
  }

  lemma {:induction false} KeptApart(fs: seq<File>)
    requires FilesApart(fs)
    ensures FilesApart(Kept(fs)) && forall g | g in Kept(fs) :: g in fs
  {
    hide Loads;
    if fs != [] {
      var last := |fs| - 1;
      var before := fs[..last];
      KeptApart(before);
      assert forall g | g in before :: Differ(g, fs[last]);
      hide FilesApart;
      if Loads(fs[last]) {
        ApartSnoc(Kept(before), fs[last]);
      }
    }
  }

  lemma ReloadedAt(fs: seq<File>, i: nat)
    requires i < |Kept(fs)|
    ensures Loaded(Reloaded(fs)[i]) && Reloaded(fs)[i].generation == Kept(fs)[i].m.generation
    ensures Reloaded(fs)[i].invalidated == Kept(fs)[i].m.invalidated && Reloaded(fs)[i].artifact == Kept(fs)[i].m.artifact && Kept(fs)[i] in fs
    ensures Loads(Kept(fs)[i]) && Reloaded(fs)[i] == EntryIn(Kept(fs)[i])
  {
    hide Loads, EntryIn, LoadAll, Loaded, Disk;
    KeptLoads(fs);
    EntryInFile(Kept(fs)[i]);
  }

  lemma ReloadedMirrors(r: Registry, fs: seq<File>)
    requires Reflects(r, fs)
    ensures Mirrors(r, Owners(fs), Reloaded(fs)) && OnePerArtifact(Reloaded(fs))
  {
    hide Loads, EntryIn, Loaded, Reloaded, Kept, IsFileOf;
    var ks, es := Kept(fs), Reloaded(fs);
    KeptApart(fs);
    forall i: nat | i < |ks|
      ensures Loaded(es[i]) && es[i].generation == ks[i].m.generation && es[i].invalidated == ks[i].m.invalidated
      ensures es[i].artifact == ks[i].m.artifact && IsFileOf(r, ks[i])
    {
      ReloadedAt(fs, i);
    }
    forall i: nat | i < |ks|
      ensures Published(r, ks[i].n) && es[i].generation == r.entries[ks[i].n].generation
      ensures es[i].invalidated ==> r.entries[ks[i].n].invalidated
    {
      FileOfEntry(r, ks[i]);
    }
  }

  lemma FileOfEntry(r: Registry, f: File)
    requires IsFileOf(r, f)
    ensures Published(r, f.n) && f.m.generation == r.entries[f.n].generation && (f.m.invalidated ==> r.entries[f.n].invalidated)
  {
  }

  /** From the bytes on disk: a restart changes nothing that searches can select exactly when the files are up to date. */
  lemma RestartFromDisk(r: Registry, fs: seq<File>)
    requires Reflects(r, fs)
    ensures |Owners(fs)| == |LoadAll(Disk(fs))| && Apart(LoadAll(Disk(fs))) && OnePerArtifact(LoadAll(Disk(fs)))
    ensures forall i | 0 <= i < |LoadAll(Disk(fs))| :: Loaded(LoadAll(Disk(fs))[i])
    ensures RestartKeeps(r, Owners(fs), LoadAll(Disk(fs))) <==> UpToDate(r, Owners(fs), LoadAll(Disk(fs)))
  {
    hide RestartKeeps, UpToDate, Reflects, LoadAll, Kept, Loaded, Apart;
    KeptLoads(fs);
    ReloadedMirrors(r, fs);
    RestartExactly(r, Owners(fs), LoadAll(Disk(fs)));
  }

  // ----- one file, two files -----

  lemma KeepsBoth(f: File, g: File)
    requires Loads(f) && Loads(g)
    ensures Kept([f]) == [f] && Kept([f, g]) == [f, g]
  {
    hide Loads;
    assert [f, g][..1] == [f] && [f][..0] == [];
    assert Kept([f]) == Kept([]) + [f];
  }

  /** A live file on its own is selected, whatever has become of its entry. */
  lemma OneFileIsSelected(f: File)
    requires Loads(f) && !f.m.invalidated
    ensures Kept([f]) == [f] && Selects(LoadAll(Disk([f])), 0)
  {
    hide Selects, Loads, EntryIn, LoadAll, Loaded, Kept;
    KeepsBoth(f, f);
    ReloadedAt([f], 0);
    AloneIsSelected(Reloaded([f]));
  }

  /** Of two live files under one rebuilt key the one listed last is selected, and the other is lost. */
  lemma LastFileIsSelected(f: File, g: File)
    requires Loads(f) && Loads(g) && !f.m.invalidated && !g.m.invalidated
    requires EntryIn(f).key == EntryIn(g).key && f.m.generation != g.m.generation
    ensures Kept([f, g]) == [f, g] && Selects(LoadAll(Disk([f, g])), 1) && !Selects(LoadAll(Disk([f, g])), 0)
  {
    hide Selects, Loads, EntryIn, LoadAll, Loaded, Kept;
    KeepsBoth(f, g);
    ReloadedAt([f, g], 0);
    ReloadedAt([f, g], 1);
    LastIsSelected(Reloaded([f, g]));
  }
}
