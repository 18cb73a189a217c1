/** store_prefetch_block of the Python middle cache: backups, two replaces and one transaction, all or nothing. */
module PyMiddleBlocks {
  import opened Intervals
  import opened RangeText
  import opened OriginBody
  import opened Tables
  import opened StateStore
  import opened DiskFiles

  /** The step that raises, if any. */
  datatype Fault =
    | NoFault
    | WriteTmp(partial: seq<Byte>)
    | WriteSidecarTmp(text: string)
    | BackupBin(leftover: Option<Content>)
    | BackupSidecar(leftover: Option<Content>)
    | BeginImmediate
    | ReplaceBin
    | ReplaceSidecar
    | Upsert
    | UpdateTask
    | Commit

  datatype StoreResult = Stored | NotCurrent | Raised

  /** The part of a fault that strikes inside the transaction, after the files are in place. */
  function AsTxFault(fault: Fault): TxFault {
    match fault
    case Upsert => UpsertFails
    case UpdateTask => UpdateFails
    case Commit => CommitFails
    case _ => TxRuns
  }

  /** os.replace */
  function Replace(files: Files, from: Path, to: Path): Files
    requires from in files
  {
    files[to := files[from]] - {from}
  }

  /** Backup names that are hard links, each with the name it shares a file with. */
  type Links = map<Path, Path>

  predicate SameFile(links: Links, a: Path, b: Path) { a in links && links[a] == b }

  /** The links left when another file has been renamed over a name. */
  function Parted(links: Links, name: Path): Links { map b | b in links && links[b] != name :: links[b] }

  /** os.replace under POSIX: between two links of one file it does nothing, and both names stay. */
  function ReplaceLinked(files: Files, from: Path, to: Path, links: Links): Files
    requires from in files
  {
    if SameFile(links, from, to) then files else Replace(files, from, to)
  }

  /** _restore_published */
  function Restore(files: Files, path: Path, backup: Option<Path>, links: Links): Files
    requires backup.Some? ==> backup.value in files
  {
    match backup
    case None => files - {path}
    case Some(b) => ReplaceLinked(files, b, path, links)
  }

  /** _cleanup_backup */
  function Cleanup(files: Files, backup: Option<Path>): Files {
    match backup
    case None => files
    case Some(b) => files - {b}
  }

  /** What other processes can see: everything but temporary and backup names. */
  function Public(files: Files): Files {
    map p | p in files && !p.Scratch? :: files[p]
  }

  lemma SamePublic(a: Files, b: Files)
    requires forall p: Path :: !p.Scratch? ==> (p in a <==> p in b)
    requires forall p: Path :: !p.Scratch? && p in a && p in b ==> a[p] == b[p]
    ensures Public(a) == Public(b)
  {
    assert forall p :: p in Public(a) <==> p in Public(b);
  }

  /** Private names do not matter to the file invariant. */
  lemma PublicDecides(a: Files, b: Files, origins: Origins)
    requires Public(a) == Public(b) && FilesOk(b, origins)
    ensures FilesOk(a, origins)
  {
    forall p | p in a
      ensures PathOk(p, a[p], origins)
    {
      if !p.Scratch? { assert p in Public(a) && p in Public(b) && Public(a)[p] == Public(b)[p]; }
    }
  }

  /** The directory just before the transaction: two temporaries, and a backup of whatever stood at the two names. */
  function Prepared(files: Files, id: BlockId, scratch: nat, data: seq<Byte>, text: string): Files {
    var staged := files[Scratch(scratch) := Data(data)][Scratch(scratch + 1) := Text(text)];
    var one := if MiddleBin(id) in files then staged[Scratch(scratch + 2) := files[MiddleBin(id)]] else staged;
    if MiddleSidecar(id) in files then one[Scratch(scratch + 3) := files[MiddleSidecar(id)]] else one
  }

  predicate FreshNames(files: Files, scratch: nat) {
    && Scratch(scratch) !in files && Scratch(scratch + 1) !in files
    && Scratch(scratch + 2) !in files && Scratch(scratch + 3) !in files
  }

  function BackupOf(files: Files, path: Path, backup: Path): Option<Path> {
    if path in files then Some(backup) else None
  }

  /** The directory after n of the two replaces. */
  function Replaced(files: Files, id: BlockId, scratch: nat, data: seq<Byte>, text: string, n: nat): Files {
    var ready := Prepared(files, id, scratch, data, text);
    if n == 0 then ready
    else if n == 1 then Replace(ready, Scratch(scratch), MiddleBin(id))
    else Replace(Replace(ready, Scratch(scratch), MiddleBin(id)), Scratch(scratch + 1), MiddleSidecar(id))
  }

  /** Which of the two backups are hard links rather than copies. */
  datatype Linked = Linked(bin: bool, sidecar: bool)

  /** The links among the backups, after n of the two replaces. */
  function LinksOf(files: Files, id: BlockId, scratch: nat, linked: Linked, n: nat): Links {
    var one: Links := if linked.bin && MiddleBin(id) in files && n < 1 then map[Scratch(scratch + 2) := MiddleBin(id)] else map[];
    if linked.sidecar && MiddleSidecar(id) in files && n < 2 then one[Scratch(scratch + 3) := MiddleSidecar(id)] else one
  }

  /** What the exception handler leaves: the old directory, and the backup name of every linked file that was not yet replaced. */
  function RolledBack(files: Files, id: BlockId, scratch: nat, linked: Linked, n: nat): Files {
    var links := LinksOf(files, id, scratch, linked, n);
    var one := if Scratch(scratch + 2) in links then files[Scratch(scratch + 2) := files[MiddleBin(id)]] else files;
    if Scratch(scratch + 3) in links then one[Scratch(scratch + 3) := files[MiddleSidecar(id)]] else one
  }

  /** The exception handler undoes any number of replaces, byte for byte. */
  lemma RollbackRestores(files: Files, id: BlockId, scratch: nat, data: seq<Byte>, text: string, linked: Linked, n: nat)
    requires FreshNames(files, scratch)
    ensures var bin, side := BackupOf(files, MiddleBin(id), Scratch(scratch + 2)), BackupOf(files, MiddleSidecar(id), Scratch(scratch + 3));
      var torn, links := Replaced(files, id, scratch, data, text, n), LinksOf(files, id, scratch, linked, n);
      && (bin.Some? ==> bin.value in torn)
      && (side.Some? ==> side.value in Restore(torn, MiddleBin(id), bin, links))
      && Restore(Restore(torn, MiddleBin(id), bin, links), MiddleSidecar(id), side, links) - {Scratch(scratch)} - {Scratch(scratch + 1)}
         == RolledBack(files, id, scratch, linked, n)
  {
  }

  /** Other names than backups are always as before; a backup name stays exactly when a linked file was not yet replaced. */
  lemma RollbackIsComplete(files: Files, id: BlockId, scratch: nat, linked: Linked, n: nat)
    requires FreshNames(files, scratch)
    ensures Public(RolledBack(files, id, scratch, linked, n)) == Public(files)
    ensures RolledBack(files, id, scratch, linked, n) == files <==>
      !(linked.bin && MiddleBin(id) in files && n < 1) && !(linked.sidecar && MiddleSidecar(id) in files && n < 2)
  {
    var after := RolledBack(files, id, scratch, linked, n);
    SamePublic(after, files);
    assert Scratch(scratch + 2) in after <==> linked.bin && MiddleBin(id) in files && n < 1;
    assert Scratch(scratch + 3) in after <==> linked.sidecar && MiddleSidecar(id) in files && n < 2;
  }

  /** A block stored before, both of its files linked aside, and a database that is locked: both backup names stay behind. */
  lemma LockedDatabaseLeavesBackups()
    ensures var id := BlockId(0, 0, 0);
      var files := map[MiddleBin(id) := Data([7]), MiddleSidecar(id) := Text("0-0\n")];
      var after := RolledBack(files, id, 0, Linked(true, true), Replaces(BeginImmediate));
      FreshNames(files, 0) && Scratch(2) in after && Scratch(3) in after && after != files
  {
    var id := BlockId(0, 0, 0);
    RollbackIsComplete(map[MiddleBin(id) := Data([7]), MiddleSidecar(id) := Text("0-0\n")], id, 0, Linked(true, true), 0);
  }

  /** How many of the two replaces precede the fault. */
  function Replaces(fault: Fault): nat {
    match fault
    case ReplaceSidecar => 1
    case Upsert => 2
    case UpdateTask => 2
    case Commit => 2
    case _ => 0
  }

  lemma CommitInstalls(files: Files, id: BlockId, scratch: nat, data: seq<Byte>, text: string)
    requires FreshNames(files, scratch)
    ensures var bin, side := BackupOf(files, MiddleBin(id), Scratch(scratch + 2)), BackupOf(files, MiddleSidecar(id), Scratch(scratch + 3));
      Cleanup(Cleanup(Replaced(files, id, scratch, data, text, 2) - {Scratch(scratch)} - {Scratch(scratch + 1)}, bin), side)
      == files[MiddleBin(id) := Data(data)][MiddleSidecar(id) := Text(text)]
  {
  }

  lemma RefusalCleansUp(files: Files, id: BlockId, scratch: nat, data: seq<Byte>, text: string)
    requires FreshNames(files, scratch)
    ensures var bin, side := BackupOf(files, MiddleBin(id), Scratch(scratch + 2)), BackupOf(files, MiddleSidecar(id), Scratch(scratch + 3));
      Cleanup(Cleanup(Prepared(files, id, scratch, data, text), bin), side) - {Scratch(scratch)} - {Scratch(scratch + 1)} == files
  {
  }

  class PyMiddleCache {
    const store: Store
    const disk: Disk
    const ttlSeconds: int

    constructor (store: Store, disk: Disk, ttlSeconds: int)
      ensures this.store == store && this.disk == disk && this.ttlSeconds == ttlSeconds
    {
      this.store, this.disk, this.ttlSeconds := store, disk, ttlSeconds;
    }

    /** _backup_existing: link the file aside, or else copy it; a failed copy may leave its leftover. */
    method BackupExisting(path: Path, backup: Path, fails: bool, leftover: Option<Content>)
      returns (made: Option<Path>, raised: bool)
      requires backup !in disk.files && backup.Scratch?
      modifies disk
      ensures raised <==> path in old(disk.files) && fails
      ensures !raised ==> (made.Some? <==> path in old(disk.files)) && (made.Some? ==> made.value == backup)
      ensures !raised ==> disk.files == if made.Some? then old(disk.files)[backup := old(disk.files)[path]] else old(disk.files)
      ensures raised ==> made.None? && Public(disk.files) == old(Public(disk.files))
    {
      if path !in disk.files { return None, false; }
      if fails {
        if leftover.Some? { disk.files := disk.files[backup := leftover.value]; }
        SamePublic(disk.files, old(disk.files));
        return None, true;
      }
      disk.files := disk.files[backup := disk.files[path]];
      return Some(backup), false;
    }

    /** os.replace, which parts the name it overwrites from its links. */
    method ReplaceFile(from: Path, to: Path, links: Links) returns (left: Links)
      requires from in disk.files
      modifies disk
      ensures disk.files == ReplaceLinked(old(disk.files), from, to, links)
      ensures left == if SameFile(links, from, to) then links else Parted(links, to)
    {
      if SameFile(links, from, to) { return links; }
      disk.files := Replace(disk.files, from, to);
      left := Parted(links, to);
    }

    /**
     * publish_middle_block_and_complete_prefetch_task: BEGIN IMMEDIATE keeps every other writer out, so the
     * row selected as current is still current when it is updated, and an exception rolls the rows back.
     */
    method PublishTransaction(token: Token, b: Block, now: Instant, tmp: Path, sidecarTmp: Path, links: Links, fault: Fault)
      returns (result: StoreResult, published: bool, left: Links)
      requires tmp in disk.files && sidecarTmp in disk.files && tmp.Scratch? && sidecarTmp.Scratch? && tmp != sidecarTmp
      requires tmp !in links && sidecarTmp !in links
      modifies store, disk
      ensures result == Stored ==>
        published && old(Current(store.AsDb(), token)) && store.AsDb() == PublishBlock(old(store.AsDb()), token, b, now)
      ensures result != Stored ==> store.AsDb() == old(store.AsDb())
      ensures result == NotCurrent ==> !published && !old(Current(store.AsDb(), token)) && disk.files == old(disk.files)
      ensures published ==>
        && disk.files == Replace(Replace(old(disk.files), tmp, MiddleBin(b.id)), sidecarTmp, MiddleSidecar(b.id))
        && left == Parted(Parted(links, MiddleBin(b.id)), MiddleSidecar(b.id))
      ensures result == Raised ==> fault != NoFault && (published <==> Replaces(fault) == 2)
      ensures result == Raised && Replaces(fault) == 1 ==>
        disk.files == Replace(old(disk.files), tmp, MiddleBin(b.id)) && left == Parted(links, MiddleBin(b.id))
      ensures result == Raised && Replaces(fault) == 0 ==> disk.files == old(disk.files) && left == links
    {
      published, left := false, links;
      if fault == BeginImmediate { return Raised, published, left; }
      var current := store.BeginPublish(token);
      if !current { return NotCurrent, published, left; }
      if fault == ReplaceBin { return Raised, published, left; }
      left := ReplaceFile(tmp, MiddleBin(b.id), left);
      if fault == ReplaceSidecar { return Raised, published, left; }
      left := ReplaceFile(sidecarTmp, MiddleSidecar(b.id), left);
      published := true;
      var committed := store.CommitPublish(token, b, now, AsTxFault(fault));
      result := match committed case TxCommitted => Stored case TxRefused => NotCurrent case TxRaised => Raised;
    }

    /**
     * store_prefetch_block after its opening evict_expired. Whatever step raises, the file, the sidecar, the
     * block row and the task row are what they were; on success all four are new. Beyond that a raise inside the
     * transaction may leave backup names, exactly those RolledBack says.
     */
    method StoreStaged(token: Token, key: Key, r: ByteRange, data: seq<Byte>, now: Instant, scratch: nat, linked: Linked, fault: Fault)
      returns (result: StoreResult)
      requires 0 <= r.start <= r.end && |data| == r.Length()
      requires FreshNames(disk.files, scratch)
      modifies store, disk
      ensures var id := BlockId(key, r.start, r.end);
        if result == Stored then
          && old(Current(store.AsDb(), token))
          && store.AsDb() == PublishBlock(old(store.AsDb()), token, NewBlock(id, now, ttlSeconds), now)
          && disk.files == old(disk.files)[MiddleBin(id) := Data(data)][MiddleSidecar(id) := Text(PrintSidecar(r))]
        else
          store.AsDb() == old(store.AsDb()) && Public(disk.files) == Public(old(disk.files))
      ensures result == NotCurrent || (result == Raised && (fault.WriteTmp? || fault.WriteSidecarTmp?)) ==> disk.files == old(disk.files)
      ensures result == Raised && !fault.WriteTmp? && !fault.WriteSidecarTmp? && !fault.BackupBin? && !fault.BackupSidecar? ==>
        disk.files == RolledBack(old(disk.files), BlockId(key, r.start, r.end), scratch, linked, Replaces(fault))
      ensures old(disk.Ok()) && r.end < |disk.origins(key)| && data == Slice(disk.origins(key), r) ==> disk.Ok()
      ensures result == Raised ==> fault != NoFault
      ensures fault == NoFault ==> (result == Stored <==> old(Current(store.AsDb(), token)))
    {
      var id := BlockId(key, r.start, r.end);
      var tmp, sidecarTmp := Scratch(scratch), Scratch(scratch + 1);
      ghost var before := disk.files;
      if fault.WriteTmp? {
        disk.files := disk.files[tmp := Data(fault.partial)];
        disk.files := disk.files - {tmp};
        return Raised;
      }
      disk.files := disk.files[tmp := Data(data)];
      if fault.WriteSidecarTmp? {
        disk.files := disk.files[sidecarTmp := Text(fault.text)];
        disk.files := disk.files - {tmp} - {sidecarTmp};
        return Raised;
      }
      disk.files := disk.files[sidecarTmp := Text(PrintSidecar(r))];
      var raised, links := MakeBackups(id, scratch, linked, fault, data, PrintSidecar(r), before);
      if raised {
        if FilesOk(before, disk.origins) { PublicDecides(disk.files, before, disk.origins); }
        return Raised;
      }
      result := PublishPrepared(token, id, data, PrintSidecar(r), now, scratch, linked, links, fault, before);
      if result == Raised {
        RollbackIsComplete(before, id, scratch, linked, Replaces(fault));
        if FilesOk(before, disk.origins) { PublicDecides(disk.files, before, disk.origins); }
      }
    }

    /** Back up what stands at the two names; when one backup fails, take back the other and the temporaries. */
    method MakeBackups(id: BlockId, scratch: nat, linked: Linked, fault: Fault, data: seq<Byte>, text: string, ghost before: Files)
      returns (raised: bool, links: Links)
      requires FreshNames(before, scratch) && disk.files == before[Scratch(scratch) := Data(data)][Scratch(scratch + 1) := Text(text)]
      modifies disk
      ensures !raised ==> disk.files == Prepared(before, id, scratch, data, text) && links == LinksOf(before, id, scratch, linked, 0)
      ensures raised ==> Public(disk.files) == Public(before) && (fault.BackupBin? || fault.BackupSidecar?)
    {
      var tmp, sidecarTmp := Scratch(scratch), Scratch(scratch + 1);
      SamePublic(disk.files, before);
      var pathBackup: Option<Path>, sidecarBackup: Option<Path>;
      links := map[];
      var leftover := if fault.BackupBin? || fault.BackupSidecar? then fault.leftover else None;
      pathBackup, raised := BackupExisting(MiddleBin(id), Scratch(scratch + 2), fault.BackupBin?, leftover);
      if raised {
        SamePublic(disk.files - {tmp} - {sidecarTmp}, disk.files);
        disk.files := disk.files - {tmp} - {sidecarTmp};
        return;
      }
      if pathBackup.Some? && linked.bin { links := links[pathBackup.value := MiddleBin(id)]; }
      SamePublic(disk.files, before);
      sidecarBackup, raised := BackupExisting(MiddleSidecar(id), Scratch(scratch + 3), fault.BackupSidecar?, leftover);
      if raised {
        SamePublic(Cleanup(disk.files, pathBackup) - {tmp} - {sidecarTmp}, disk.files);
        disk.files := Cleanup(disk.files, pathBackup) - {tmp} - {sidecarTmp};
        return;
      }
      if sidecarBackup.Some? && linked.sidecar { links := links[sidecarBackup.value := MiddleSidecar(id)]; }
    }

    /** The transaction and the three ways out of it. */
    method PublishPrepared(token: Token, id: BlockId, data: seq<Byte>, text: string, now: Instant, scratch: nat,
                           linked: Linked, links: Links, fault: Fault, ghost before: Files)
      returns (result: StoreResult)
      requires FreshNames(before, scratch) && disk.files == Prepared(before, id, scratch, data, text)
      requires links == LinksOf(before, id, scratch, linked, 0)
      modifies store, disk
      ensures if result == Stored then
          && old(Current(store.AsDb(), token))
          && store.AsDb() == PublishBlock(old(store.AsDb()), token, NewBlock(id, now, ttlSeconds), now)
          && disk.files == before[MiddleBin(id) := Data(data)][MiddleSidecar(id) := Text(text)]
        else store.AsDb() == old(store.AsDb())
      ensures result == NotCurrent ==> disk.files == before && !old(Current(store.AsDb(), token))
      ensures result == Raised ==> fault != NoFault && disk.files == RolledBack(before, id, scratch, linked, Replaces(fault))
    {
      var path, sidecar := MiddleBin(id), MiddleSidecar(id);
      var tmp, sidecarTmp := Scratch(scratch), Scratch(scratch + 1);
      var pathBackup := if Scratch(scratch + 2) in disk.files then Some(Scratch(scratch + 2)) else None;
      var sidecarBackup := if Scratch(scratch + 3) in disk.files then Some(Scratch(scratch + 3)) else None;
      assert pathBackup == BackupOf(before, path, Scratch(scratch + 2));
      assert sidecarBackup == BackupOf(before, sidecar, Scratch(scratch + 3));
      var published: bool, left: Links;
      result, published, left := PublishTransaction(token, NewBlock(id, now, ttlSeconds), now, tmp, sidecarTmp, links, fault);
      match result
      case Stored =>
        CommitInstalls(before, id, scratch, data, text);
        disk.files := Cleanup(Cleanup(disk.files - {tmp} - {sidecarTmp}, pathBackup), sidecarBackup);
      case NotCurrent =>
        // The branch "published but not committed" would restore here; it is never taken.
        assert !published;
        RefusalCleansUp(before, id, scratch, data, text);
        disk.files := Cleanup(Cleanup(disk.files, pathBackup), sidecarBackup) - {tmp} - {sidecarTmp};
      case Raised =>
        LinksParted(before, id, scratch, linked);
        RollBack(id, scratch, left, linked, Replaces(fault), data, text, before);
    }

    /** The exception handler. */
    method RollBack(id: BlockId, scratch: nat, links: Links, ghost linked: Linked, ghost n: nat, ghost data: seq<Byte>, ghost text: string,
                    ghost before: Files)
      requires FreshNames(before, scratch) && disk.files == Replaced(before, id, scratch, data, text, n)
      requires links == LinksOf(before, id, scratch, linked, n)
      modifies disk
      ensures disk.files == RolledBack(before, id, scratch, linked, n)
    {
      RollbackRestores(before, id, scratch, data, text, linked, n);
      var pathBackup := if Scratch(scratch + 2) in disk.files then Some(Scratch(scratch + 2)) else None;
      var sidecarBackup := if Scratch(scratch + 3) in disk.files then Some(Scratch(scratch + 3)) else None;
      assert pathBackup == BackupOf(before, MiddleBin(id), Scratch(scratch + 2));
      assert sidecarBackup == BackupOf(before, MiddleSidecar(id), Scratch(scratch + 3));
      disk.files := Restore(Restore(disk.files, MiddleBin(id), pathBackup, links), MiddleSidecar(id), sidecarBackup, links)
        - {Scratch(scratch)} - {Scratch(scratch + 1)};
    }
  }

  /** Each replace parts its name from its backup. */
  lemma LinksParted(files: Files, id: BlockId, scratch: nat, linked: Linked)
    ensures var links := LinksOf(files, id, scratch, linked, 0);
      && Parted(links, MiddleBin(id)) == LinksOf(files, id, scratch, linked, 1)
      && Parted(Parted(links, MiddleBin(id)), MiddleSidecar(id)) == LinksOf(files, id, scratch, linked, 2)
  {
  }
}
