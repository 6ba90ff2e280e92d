/** The hub's store of ciphertext blobs: an index in memory and the files it stands for. */
module BlobStore {
  type Id = string
  type Member = string
  type Data = seq<int>

  datatype Meta = Meta(blobId: Id, from: Member, to: Member, transferId: string, cipherSize: nat, createdAt: int,
                       complete: bool)

  /** `<id>`, `<id>.part` and `<id>.meta.json`; every name in the directory is one of the three. */
  datatype FileName = Blob(id: Id) | Part(id: Id) | Sidecar(id: Id)
  datatype Content = Stored(data: Data) | Description(meta: Meta) | Corrupt

  type Disk = map<FileName, Content>
  type Index = map<Id, Meta>

  predicate Describes(d: Disk, f: FileName) {
    f in d && f.Sidecar? && d[f].Description?
  }

  /** Every readable sidecar describes the blob it is named after. */
  ghost predicate Consistent(d: Disk) {
    forall id :: Describes(d, Sidecar(id)) ==> d[Sidecar(id)].meta.blobId == id
  }

  /** The index a restart rebuilds from the sidecars. */
  ghost function Rebuild(d: Disk): Index {
    map f | f in d && Describes(d, f) :: f.id := d[f].meta
  }

  /** The index has one entry for each readable sidecar, and it is the sidecar's. */
  ghost predicate Mirrors(ix: Index, d: Disk) {
    && (forall id :: id in ix <==> Describes(d, Sidecar(id)))
    && (forall id :: id in ix ==> ix[id] == d[Sidecar(id)].meta && ix[id].blobId == id)
  }

  lemma MirrorsIffRebuilt(ix: Index, d: Disk)
    ensures Mirrors(ix, d) <==> Consistent(d) && ix == Rebuild(d)
  {
    var r := Rebuild(d);
    forall id ensures id in r <==> Describes(d, Sidecar(id)) {
      if Describes(d, Sidecar(id)) { assert Sidecar(id) in d; }
    }
    assert forall id :: id in r ==> r[id] == d[Sidecar(id)].meta;
    if Mirrors(ix, d) { assert ix == r; }
  }

  lemma MirrorsSet(ix: Index, d: Disk, id: Id, m: Meta)
    requires Mirrors(ix, d) && m.blobId == id
    ensures Mirrors(ix[id := m], d[Sidecar(id) := Description(m)])
  {
  }

  /** Only sidecars matter to the index. */
  lemma MirrorsFiles(ix: Index, d: Disk, e: Disk)
    requires Mirrors(ix, d) && forall id :: Sidecar(id) in d <==> Sidecar(id) in e
    requires forall id :: Sidecar(id) in d ==> d[Sidecar(id)] == e[Sidecar(id)]
    ensures Mirrors(ix, e)
  {
  }

  lemma MirrorsDrop(ix: Index, d: Disk, id: Id)
    requires Mirrors(ix, d)
    ensures Mirrors(ix - {id}, d - {Blob(id), Part(id), Sidecar(id)})
  {
  }

  lemma MirrorsOrphan(ix: Index, d: Disk, f: FileName)
    requires Mirrors(ix, d) && f.id !in ix
    ensures Mirrors(ix, d - {f})
  {
  }

  /** At most one blob per sender and transfer. */
  ghost predicate OnePerTransfer(ix: Index) {
    forall i, j :: i in ix && j in ix && ix[i].from == ix[j].from && ix[i].transferId == ix[j].transferId ==> i == j
  }

  ghost predicate CompleteHaveFiles(ix: Index, d: Disk) {
    forall i :: i in ix && ix[i].complete ==> Blob(i) in d
  }

  // ----- quota accounting -----

  function Charge(m: Meta, from: Member, to: Member): nat {
    if m.from == from && m.to == to then m.cipherSize else 0
  }

  ghost function UsageOf(ids: set<Id>, ix: Index, from: Member, to: Member): nat
    requires ids <= ix.Keys
  {
    if ids == {} then 0 else var i :| i in ids; Charge(ix[i], from, to) + UsageOf(ids - {i}, ix, from, to)
  }

  /** Stored bytes of one pair. */
  ghost function Usage(ix: Index, from: Member, to: Member): nat { UsageOf(ix.Keys, ix, from, to) }

  lemma {:induction false} UsageTake(ids: set<Id>, ix: Index, from: Member, to: Member, j: Id)
    requires ids <= ix.Keys && j in ids
    ensures UsageOf(ids, ix, from, to) == Charge(ix[j], from, to) + UsageOf(ids - {j}, ix, from, to)
  {
    var i :| i in ids && UsageOf(ids, ix, from, to) == Charge(ix[i], from, to) + UsageOf(ids - {i}, ix, from, to);
    if i != j {
      UsageTake(ids - {i}, ix, from, to, j);
      UsageTake(ids - {j}, ix, from, to, i);
      assert ids - {i} - {j} == ids - {j} - {i};
    }
  }

  lemma {:induction false} UsageAgrees(ids: set<Id>, ix: Index, iy: Index, from: Member, to: Member)
    requires ids <= ix.Keys && ids <= iy.Keys && forall i :: i in ids ==> ix[i] == iy[i]
    ensures UsageOf(ids, ix, from, to) == UsageOf(ids, iy, from, to)
  {
    if ids != {} {
      var i :| i in ids;
      UsageTake(ids, ix, from, to, i);
      UsageTake(ids, iy, from, to, i);
      UsageAgrees(ids - {i}, ix, iy, from, to);
    }
  }

  /** Setting one entry charges its own pair for the new one, and the pair of the old one no longer for that. */
  lemma UsageSet(ix: Index, id: Id, m: Meta, from: Member, to: Member)
    ensures
      var before := if id in ix && ix[id].from == from && ix[id].to == to then ix[id].cipherSize else 0;
      var after := if m.from == from && m.to == to then m.cipherSize else 0;
      Usage(ix[id := m], from, to) + before == Usage(ix, from, to) + after
  {
    var iy := ix[id := m];
    assert id !in ix ==> ix.Keys - {id} == ix.Keys;
    UsageTake(iy.Keys, iy, from, to, id);
    if id in ix { UsageTake(ix.Keys, ix, from, to, id); }
    assert iy.Keys - {id} == ix.Keys - {id};
    UsageAgrees(ix.Keys - {id}, ix, iy, from, to);
  }

  /** A retry that takes a blob to a new size leaves its pair within the quota exactly when the growth fits. */
  lemma RetryWithinQuota(ix: Index, id: Id, size: nat, now: int, quota: nat)
    requires id in ix
    ensures var m := ix[id].(complete := false, cipherSize := size, createdAt := now);
      Usage(ix[id := m], m.from, m.to) <= quota <==> Usage(ix, m.from, m.to) + size <= quota + ix[id].cipherSize
  {
    hide Usage;
    var m := ix[id].(complete := false, cipherSize := size, createdAt := now);
    UsageSet(ix, id, m, m.from, m.to);
  }

  /** A blob of another pair does not count, whichever of the two members is another one. */
  lemma UsageOfOthers(ix: Index, id: Id, m: Meta, from: Member, to: Member)
    requires id !in ix && (m.from != from || m.to != to)
    ensures Usage(ix[id := m], from, to) == Usage(ix, from, to)
  {
    UsageSet(ix, id, m, from, to);
  }

  /** The usage of a single blob. */
  lemma UsageOfOne(id: Id, m: Meta)
    ensures Usage(map[], m.from, m.to) == 0 && Usage(map[id := m], m.from, m.to) == m.cipherSize
  {
    var none: Index := map[];
    UsageSet(none, id, m, m.from, m.to);
    assert none[id := m] == map[id := m];
  }

  // ----- what each operation keeps -----

  /** The index, transfers and files are as a valid store has them. */
  ghost predicate Sound(ix: Index, d: Disk) {
    Mirrors(ix, d) && OnePerTransfer(ix) && CompleteHaveFiles(ix, d)
  }

  lemma OneHolder(ix: Index)
    requires OnePerTransfer(ix)
    ensures forall i, j ::
      i in ix && j in ix && ix[i].from == ix[j].from && ix[i].transferId == ix[j].transferId ==> i == j
  {
  }

  lemma RetryKeeps(ix: Index, d: Disk, id: Id, m: Meta)
    requires Sound(ix, d) && id in ix
    requires m == ix[id].(complete := false, cipherSize := m.cipherSize, createdAt := m.createdAt)
    ensures Sound(ix[id := m], (d - {Part(id), Blob(id)})[Sidecar(id) := Description(m)])
  {
    MirrorsFiles(ix, d, d - {Part(id), Blob(id)});
    MirrorsSet(ix, d - {Part(id), Blob(id)}, id, m);
    hide Mirrors;
  }

  lemma FirstKeeps(ix: Index, d: Disk, m: Meta)
    requires Sound(ix, d) && m.blobId !in ix && !m.complete
    requires forall i :: i in ix ==> !(ix[i].from == m.from && ix[i].transferId == m.transferId)
    ensures Sound(ix[m.blobId := m], d[Sidecar(m.blobId) := Description(m)])
  {
    MirrorsSet(ix, d, m.blobId, m);
    hide Mirrors;
  }

  lemma CompleteKeeps(ix: Index, d: Disk, id: Id, m: Meta)
    requires Sound(ix, d) && id in ix && m == ix[id].(complete := true) && Part(id) in d
    ensures Sound(ix[id := m], (d - {Part(id)})[Blob(id) := d[Part(id)]][Sidecar(id) := Description(m)])
  {
    var e := (d - {Part(id)})[Blob(id) := d[Part(id)]];
    MirrorsFiles(ix, d, e);
    MirrorsSet(ix, e, id, m);
    hide Mirrors;
  }

  lemma DeleteKeeps(ix: Index, d: Disk, id: Id)
    requires Sound(ix, d)
    ensures Sound(ix - {id}, d - {Blob(id), Part(id), Sidecar(id)})
  {
    MirrorsDrop(ix, d, id);
    hide Mirrors;
  }

  lemma OrphanKeeps(ix: Index, d: Disk, f: FileName)
    requires Sound(ix, d) && f.id !in ix
    ensures Sound(ix, d - {f})
  {
    MirrorsOrphan(ix, d, f);
    hide Mirrors;
  }

  datatype Created = Created(blobId: Id) | TooLarge | OverQuota

  class RelayBlobStore {
    const quotaBytes: nat
    const ttlMs: nat
    const maxBlobBytes: nat
    var metas: Index
    var disk: Disk

    /** The index is what a restart would rebuild, transfers have one blob each, and complete blobs have their file. */
    ghost predicate Valid()
      reads this
    {
      Sound(metas, disk)
    }

    /** A restart at any point between operations finds the index as it is. */
    lemma RestartFindsTheIndex()
      requires Valid()
      ensures Consistent(disk) && metas == Rebuild(disk)
    {
      MirrorsIffRebuilt(metas, disk);
    }

    /** Start on the directory a store left behind. */
    constructor (disk: Disk, quotaBytes: nat, ttlMs: nat, maxBlobBytes: nat)
      requires Consistent(disk) && OnePerTransfer(Rebuild(disk)) && CompleteHaveFiles(Rebuild(disk), disk)
      ensures Valid() && this.disk == disk && metas == Rebuild(disk)
      ensures this.quotaBytes == quotaBytes && this.ttlMs == ttlMs && this.maxBlobBytes == maxBlobBytes
    {
      this.disk, this.quotaBytes, this.ttlMs, this.maxBlobBytes := disk, quotaBytes, ttlMs, maxBlobBytes;
      metas := map[];
      new;
      hide Rebuild, Mirrors, OnePerTransfer, CompleteHaveFiles, Consistent;
      LoadExisting();
      MirrorsIffRebuilt(metas, this.disk);
    }

    /** `loadExisting`: unreadable sidecars are skipped. */
    method LoadExisting()
      requires metas == map[] && Consistent(disk)
      modifies this`metas
      ensures Mirrors(metas, disk)
    {
      var todo := disk.Keys;
      while todo != {}
        invariant todo <= disk.Keys
        invariant forall id :: id in metas <==> Describes(disk, Sidecar(id)) && Sidecar(id) !in todo
        invariant forall id :: id in metas ==> metas[id] == disk[Sidecar(id)].meta
        decreases todo
      {
        var f :| f in todo;
        if Describes(disk, f) { metas := metas[disk[f].meta.blobId := disk[f].meta]; }
        todo := todo - {f};
      }
    }

    /** `pairUsage`. */
    method PairUsage(from: Member, to: Member) returns (total: nat)
      ensures total == Usage(metas, from, to)
    {
      total := 0;
      var todo := metas.Keys;
      while todo != {}
        invariant todo <= metas.Keys && total + UsageOf(todo, metas, from, to) == Usage(metas, from, to)
        decreases todo
      {
        var i :| i in todo;
        UsageTake(todo, metas, from, to, i);
        total := total + Charge(metas[i], from, to);
        todo := todo - {i};
      }
    }

    /** The blob of a transfer, if there is one. */
    predicate Holds(id: Id, from: Member, transferId: string)
      reads this
    {
      id in metas && metas[id].from == from && metas[id].transferId == transferId
    }

    /** The blob starts over, empty, with its new size and age. */
    twostate predicate Retried(id: Id, cipherSize: nat, now: int)
      requires id in old(metas)
      reads this
    {
      var m := old(metas)[id].(complete := false, cipherSize := cipherSize, createdAt := now);
      && metas == old(metas)[id := m]
      && disk == (old(disk) - {Part(id), Blob(id)})[Sidecar(id) := Description(m)]
    }

    /** A new blob exactly when the pair stays within its quota with it; nothing changes otherwise. */
    twostate predicate Allocated(r: Created, m: Meta)
      reads this
    {
      var fits := Usage(old(metas), m.from, m.to) + m.cipherSize <= quotaBytes;
      && (!fits ==> r == OverQuota && metas == old(metas) && disk == old(disk))
      && (fits ==> r == Created(m.blobId) && Usage(metas, m.from, m.to) <= quotaBytes)
      && (fits ==> metas == old(metas)[m.blobId := m] && disk == old(disk)[Sidecar(m.blobId) := Description(m)])
    }

    /**
     * `create`: a retry reuses its blob, empties it and takes its new size without a quota check; a first
     * request gets a fresh id if the pair stays within its quota.
     */
    method Create(from: Member, to: Member, transferId: string, cipherSize: nat, now: int,
                  newId: Id) returns (r: Created)
      requires Valid() && newId !in metas
      modifies this
      ensures Valid()
      ensures cipherSize > maxBlobBytes ==> r == TooLarge && metas == old(metas) && disk == old(disk)
      ensures cipherSize <= maxBlobBytes ==>
        forall id :: old(Holds(id, from, transferId)) ==> r == Created(id) && Retried(id, cipherSize, now)
      ensures cipherSize <= maxBlobBytes && (forall id :: !old(Holds(id, from, transferId))) ==>
        Allocated(r, Meta(newId, from, to, transferId, cipherSize, now, false))
    {
      hide Mirrors, OnePerTransfer, CompleteHaveFiles, Usage;
      OneHolder(metas);
      if cipherSize > maxBlobBytes {
        return TooLarge;
      }
      if id :| id in metas && Holds(id, from, transferId) {
        var m := metas[id].(complete := false, cipherSize := cipherSize, createdAt := now);
        RetryKeeps(metas, disk, id, m);
        disk := disk - {Part(id), Blob(id)};
        metas := metas[id := m];
        disk := disk[Sidecar(id) := Description(m)];
        return Created(id);
      }
      var used := PairUsage(from, to);
      if used + cipherSize > quotaBytes {
        return OverQuota;
      }
      var m := Meta(newId, from, to, transferId, cipherSize, now, false);
      UsageSet(metas, newId, m, from, to);
      FirstKeeps(metas, disk, m);
      metas := metas[newId := m];
      disk := disk[Sidecar(newId) := Description(m)];
      return Created(newId);
    }

    /** An upload stream writes, at any time; only the partial file changes. */
    method UploadWrites(id: Id, data: Data)
      requires Valid()
      modifies this`disk
      ensures Valid() && disk == old(disk)[Part(id) := Stored(data)]
    {
      MirrorsFiles(metas, disk, disk[Part(id) := Stored(data)]);
      hide Mirrors, OnePerTransfer;
      disk := disk[Part(id) := Stored(data)];
    }

    /** `complete`: the partial file becomes the blob. */
    method Complete(id: Id) returns (ok: bool)
      requires Valid()
      modifies this
      ensures Valid()
      ensures ok <==> id in old(metas) && Part(id) in old(disk)
      ensures ok ==> metas == old(metas)[id := old(metas)[id].(complete := true)]
      ensures ok ==>
        disk == (old(disk) - {Part(id)})[Blob(id) := old(disk)[Part(id)]][Sidecar(id) := Description(metas[id])]
      ensures !ok ==> metas == old(metas) && disk == old(disk)
    {
      if id !in metas || Part(id) !in disk {
        return false;
      }
      var m := metas[id].(complete := true);
      CompleteKeeps(metas, disk, id, m);
      hide Mirrors, OnePerTransfer, CompleteHaveFiles;
      disk := (disk - {Part(id)})[Blob(id) := disk[Part(id)]];
      metas := metas[id := m];
      disk := disk[Sidecar(id) := Description(m)];
      return true;
    }

    /** `storedPath`: only a complete blob has one, and then the file is there. */
    method StoredPath(id: Id) returns (present: bool)
      requires Valid()
      ensures present <==> id in metas && metas[id].complete
      ensures present ==> Blob(id) in disk
    {
      present := id in metas && metas[id].complete;
    }

    method Delete(id: Id)
      requires Valid()
      modifies this
      ensures Valid()
      ensures metas == old(metas) - {id} && disk == old(disk) - {Blob(id), Part(id), Sidecar(id)}
    {
      DeleteKeeps(metas, disk, id);
      hide Mirrors, OnePerTransfer, CompleteHaveFiles;
      metas := metas - {id};
      disk := disk - {Blob(id), Part(id), Sidecar(id)};
    }

    /** `sweep`: expired blobs go with all their files, then every file that no blob accounts for. */
    method Sweep(now: int)
      requires Valid()
      modifies this
      ensures Valid()
      ensures metas == map id | id in old(metas) && now - old(metas)[id].createdAt <= ttlMs :: old(metas)[id]
      ensures disk == map f | f in old(disk) && f.id in metas :: old(disk)[f]
    {
      hide Mirrors, OnePerTransfer, CompleteHaveFiles;
      var todo := metas.Keys;
      while todo != {}
        invariant Valid() && todo <= metas.Keys <= old(metas).Keys
        invariant forall id :: id in metas ==> metas[id] == old(metas)[id]
        invariant forall id :: id in old(metas) && id !in todo ==>
          (id in metas <==> now - old(metas)[id].createdAt <= ttlMs)
        invariant forall f :: f in disk <==> f in old(disk) && !(f.id in old(metas) && f.id !in metas)
        invariant forall f :: f in disk ==> disk[f] == old(disk)[f]
        decreases todo
      {
        var id :| id in todo;
        if now - metas[id].createdAt > ttlMs { Delete(id); }
        todo := todo - {id};
      }
      SweepOrphans();
    }

    method SweepOrphans()
      requires Valid()
      modifies this`disk
      ensures Valid() && disk == map f | f in old(disk) && f.id in metas :: old(disk)[f]
    {
      hide Mirrors, OnePerTransfer, CompleteHaveFiles;
      var todo := disk.Keys;
      while todo != {}
        invariant Valid() && todo <= disk.Keys <= old(disk).Keys
        invariant forall f :: f in disk ==> disk[f] == old(disk)[f]
        invariant forall f :: f in old(disk) && f !in todo ==> (f in disk <==> f.id in metas)
        decreases todo
      {
        var f :| f in todo;
        if f.id !in metas {
          OrphanKeeps(metas, disk, f);
          disk := disk - {f};
        }
        todo := todo - {f};
      }
    }
  }

  lemma NothingStored()
    ensures Consistent(map[]) && Rebuild(map[]) == map[] && OnePerTransfer(map[]) && CompleteHaveFiles(map[], map[])
  {
  }

  /** A pair whose first file fills its quota exceeds it by creating the same transfer again, one byte larger. */
  method RetryExceedsQuota(from: Member, to: Member, transferId: string, quotaBytes: nat, ttlMs: nat, maxBlobBytes: nat,
                           now: int, firstId: Id, secondId: Id) returns (store: RelayBlobStore, r: Created)
    requires quotaBytes < maxBlobBytes && firstId != secondId
    ensures store.Valid() && store.quotaBytes == quotaBytes && r == Created(firstId)
    ensures Usage(store.metas, from, to) == quotaBytes + 1
  {
    hide Usage, Consistent, Rebuild, OnePerTransfer, CompleteHaveFiles, Mirrors;
    NothingStored();
    store := new RelayBlobStore(map[], quotaBytes, ttlMs, maxBlobBytes);
    UsageOfOne(firstId, Meta(firstId, from, to, transferId, quotaBytes, now, false));
    r := store.Create(from, to, transferId, quotaBytes, now, firstId);
    assert store.Holds(firstId, from, transferId);
    r := store.Create(from, to, transferId, quotaBytes + 1, now, secondId);
    var m := Meta(firstId, from, to, transferId, quotaBytes + 1, now, false);
    assert store.metas == map[firstId := m];
    UsageOfOne(firstId, m);
  }
}
