/** The cache directory: a map from path to contents, changed one rename or removal at a time. */
module DiskFiles {
  import opened Intervals
  import opened RangeText
  import opened Tables
  import opened Playback
  import opened OriginBody

  datatype Path =
    | MiddleBin(block: BlockId)
    | MiddleSidecar(block: BlockId)
    | EdgeBin(key: Key, name: BlockName)
    | EdgeSidecar(key: Key, name: BlockName)
    | Scratch(n: nat)

  datatype Content = Data(bytes: seq<Byte>) | Text(text: string)

  type Files = map<Path, Content>

  /** The fixed file behind each cache key. */
  type Origins = Key -> seq<Byte>

  /** A middle file holds its own slice of the origin, or a prefix of it. */
  ghost predicate MiddleOk(id: BlockId, c: Content, origins: Origins) {
    && c.Data? && 0 <= id.start <= id.end < |origins(id.key)|
    && c.bytes <= Slice(origins(id.key), id.Range())
  }

  /** A head file is a prefix of the origin, a tail file a suffix. */
  ghost predicate EdgeOk(key: Key, name: BlockName, c: Content, origins: Origins) {
    && c.Data? && |c.bytes| <= |origins(key)|
    && c.bytes == (if name.Head? then origins(key)[..|c.bytes|] else origins(key)[|origins(key)| - |c.bytes|..])
  }

  /** A head sidecar names a range from 0, a tail sidecar a range to the last byte. */
  ghost predicate EdgeSidecarOk(key: Key, name: BlockName, c: Content, origins: Origins) {
    && c.Text?
    && var r := ReadStoredRange(c.text);
       r.Some? ==>
         && 0 <= r.value.start <= r.value.end < |origins(key)|
         && (if name.Head? then r.value.start == 0 else r.value.end == |origins(key)| - 1)
  }

  /** What may stand at a path. */
  ghost predicate PathOk(p: Path, c: Content, origins: Origins) {
    match p
    case MiddleBin(id) => MiddleOk(id, c, origins)
    case MiddleSidecar(_) => c.Text?
    case EdgeBin(key, name) => EdgeOk(key, name, c, origins)
    case EdgeSidecar(key, name) => EdgeSidecarOk(key, name, c, origins)
    case Scratch(_) => true
  }

  ghost predicate FilesOk(files: Files, origins: Origins) {
    forall p :: p in files ==> PathOk(p, files[p], origins)
  }

  /** A block range a head or tail entry may have: heads start at 0, tails end at the last byte. */
  predicate EdgeRange(name: BlockName, r: ByteRange, size: int) {
    0 <= r.start <= r.end < size && (if name.Head? then r.start == 0 else r.end == size - 1)
  }

  /** One atomic change of the directory made by some commit, publication, eviction or clean-up. */
  datatype FileStep =
    | InstallEdge(key: Key, name: BlockName, range: ByteRange)
    | InstallEdgeSidecar(key: Key, name: BlockName, range: ByteRange)
    | InstallMiddle(block: BlockId)
    | InstallMiddleSidecar(block: BlockId)
    | Drop(path: Path)

  predicate StepEnabled(step: FileStep, origins: Origins) {
    match step
    case InstallEdge(key, name, r) => EdgeRange(name, r, |origins(key)|)
    case InstallEdgeSidecar(key, name, r) => EdgeRange(name, r, |origins(key)|) && |origins(key)| <= MAX_INT64
    case InstallMiddle(id) => 0 <= id.start <= id.end < |origins(id.key)|
    case InstallMiddleSidecar(id) => 0 <= id.start <= id.end
    case Drop(_) => true
  }

  function TakeStep(files: Files, step: FileStep, origins: Origins): Files {
    if !StepEnabled(step, origins) then files else
      match step
      case InstallEdge(key, name, r) => files[EdgeBin(key, name) := Data(Slice(origins(key), r))]
      case InstallEdgeSidecar(key, name, r) => files[EdgeSidecar(key, name) := Text(PrintSidecar(r))]
      case InstallMiddle(id) => files[MiddleBin(id) := Data(Slice(origins(id.key), id.Range()))]
      case InstallMiddleSidecar(id) => files[MiddleSidecar(id) := Text(PrintSidecar(id.Range()))]
      case Drop(path) => files - {path}
  }

  function TakeSteps(files: Files, steps: seq<FileStep>, origins: Origins): Files
    decreases |steps|
  {
    if steps == [] then files else TakeSteps(TakeStep(files, steps[0], origins), steps[1..], origins)
  }

  lemma EdgeSidecarIsOk(key: Key, name: BlockName, r: ByteRange, origins: Origins)
    requires EdgeRange(name, r, |origins(key)|) && |origins(key)| <= MAX_INT64
    ensures EdgeSidecarOk(key, name, Text(PrintSidecar(r)), origins)
  {
    SidecarRoundTrip(r);
  }

  lemma StepKeepsFilesOk(files: Files, step: FileStep, origins: Origins)
    requires FilesOk(files, origins)
    ensures FilesOk(TakeStep(files, step, origins), origins)
  {
    if step.InstallEdgeSidecar? && StepEnabled(step, origins) {
      EdgeSidecarIsOk(step.key, step.name, step.range, origins);
    }
  }

  /** The directory stays sound at every point of every interleaving, wherever a commit or eviction is cut off. */
  lemma {:induction false} StepsKeepFilesOk(files: Files, steps: seq<FileStep>, origins: Origins)
    requires FilesOk(files, origins)
    ensures FilesOk(TakeSteps(files, steps, origins), origins)
    decreases |steps|
  {
    if steps != [] {
      StepKeepsFilesOk(files, steps[0], origins);
      StepsKeepFilesOk(TakeStep(files, steps[0], origins), steps[1..], origins);
    }
  }

  class Disk {
    const origins: Origins
    /** No disk operation fails. */
    const reliable: bool
    /** Nobody else changes the directory meanwhile. */
    const calm: bool
    var files: Files

    constructor (origins: Origins, reliable: bool, calm: bool)
      ensures this.origins == origins && this.reliable == reliable && this.calm == calm && files == map[]
    {
      this.origins, this.reliable, this.calm := origins, reliable, calm;
      files := map[];
    }

    ghost predicate Ok()
      reads this
    {
      FilesOk(files, origins)
    }

    /** Whether the next disk operation works. */
    method Works() returns (ok: bool)
      ensures reliable ==> ok
    {
      ok := *;
      ok := ok || reliable;
    }

    /** A finished private file is renamed over the path, or the rename fails and nothing changes. */
    method Rename(p: Path, c: Content) returns (ok: bool)
      requires Ok() && PathOk(p, c, origins)
      modifies this
      ensures Ok() && files == if ok then old(files)[p := c] else old(files)
      ensures reliable ==> ok
    {
      ok := Works();
      if ok { files := files[p := c]; }
    }

    /** os.Remove, whose failure every caller ignores. */
    method Remove(p: Path)
      requires Ok()
      modifies this
      ensures Ok() && (files == old(files) - {p} || files == old(files))
      ensures reliable ==> files == old(files) - {p}
    {
      var ok := Works();
      if ok { files := files - {p}; }
    }

    /** Any number of steps of other requests, workers, evictions and crashed commits, in any order. */
    method OthersAct()
      requires Ok()
      modifies this
      ensures Ok() && (calm ==> files == old(files))
    {
      if !calm {
        var steps: seq<FileStep> := *;
        StepsKeepFilesOk(files, steps, origins);
        files := TakeSteps(files, steps, origins);
      }
    }
  }
}
