/**
 * internal/journal: task directories and archives. The generator's names meet the limits of the file
 * system, which decides whether a file is handled at all.
 */
module Archive {
  import opened Options
  import opened RetryStrategy
  import opened Text
  import opened Calendar
  import opened UniqueNames
  import opened Moves
  import Files = HandlerTask

  /** The paths of names in a directory. */
  function PathsIn(dir: Path, names: seq<string>): (paths: seq<Path>)
    ensures |paths| == |names| && forall i | 0 <= i < |names| :: paths[i] == dir + names[i]
  {
    if names == [] then [] else [dir + names[0]] + PathsIn(dir, names[1..])
  }

  /** The candidates made at time t for a file called original: the name itself, then others. */
  function Named(original: string, t: Time, zone: Offset, later: seq<string>): seq<string>
    requires InRange(t, zone)
  {
    [Stamp(t, zone) + " " + original] + later
  }

  /** The journal of a handler, with the directories of its configuration. */
  class Journal {
    const fs: FileSystem
    const journalDir: Path
    const successDir: Path
    const failureDir: Path

    constructor (fs: FileSystem, journalDir: Path, successDir: Path, failureDir: Path)
      ensures this.fs == fs && this.journalDir == journalDir
      ensures this.successDir == successDir && this.failureDir == failureDir
    {
      this.fs, this.journalDir, this.successDir, this.failureDir := fs, journalDir, successDir, failureDir;
    }

    /** CreateTaskDir; `later` are the names that the generator would give after the first. */
    method CreateTaskDir(hint: string, now: Time, zone: Offset, later: seq<string>, made: Entry, faults: set<Path>)
      returns (r: Outcome)
      requires InRange(now, zone)
      modifies fs
      ensures hint == "" ==> r == Refused(NoName)
      ensures hint != "" ==> r == Pick(old(fs.nodes), None, PathsIn(journalDir, Named(hint, now, zone, later)), faults)
      ensures fs.nodes == if r.Taken? then old(fs.nodes)[r.path := made] else old(fs.nodes)
      ensures r.Taken? ==> r.path !in old(fs.nodes)
    {
      if hint == "" {
        return Refused(NoName);
      }
      var g := new Candidates(PathsIn(journalDir, Named(hint, now, zone, later)));
      PickedIsFree(fs.nodes, None, g.rest, faults);
      r := fs.MakeAvailableDir(g, made, faults);
    }

    /** MoveToArchive for a file whose name is base. */
    method MoveToArchive(path: Path, base: string, success: bool, now: Time, zone: Offset, later: seq<string>,
                         faults: set<Path>)
      returns (r: Outcome)
      requires InRange(now, zone)
      modifies fs
      ensures base == "" ==> r == Refused(NoName)
      ensures base != "" ==>
        var dir := if success then successDir else failureDir;
        r == Pick(old(fs.nodes), Some(path), PathsIn(dir, Named(base, now, zone, later)), faults)
      ensures r.Taken? ==>
        path in old(fs.nodes) && r.path !in old(fs.nodes) && fs.nodes == Renamed(old(fs.nodes), path, r.path)
      ensures !r.Taken? ==> fs.nodes == old(fs.nodes)
      ensures SameContents(old(fs.nodes), fs.nodes)
    {
      SameContentsRefl(fs.nodes);
      if base == "" {
        return Refused(NoName);
      }
      var destDir := failureDir;
      if success {
        destDir := successDir;
      }
      var g := new Candidates(PathsIn(destDir, Named(base, now, zone, later)));
      PickedIsFree(fs.nodes, Some(path), g.rest, faults);
      r := fs.RenameToAvailableName(path, g, faults);
      if r.Taken? {
        RenamedSameContents(old(fs.nodes), path, r.path);
      }
    }
  }

  // ---------- Long names ----------

  /** The file system refuses just the names that are too long, and has none. */
  ghost predicate RefusesLongNames(nodes: Nodes, faults: set<Path>, dir: Path, names: seq<string>) {
    forall i | 0 <= i < |names| ::
      && (dir + names[i] in faults <==> NAME_MAX < Bytes(names[i]))
      && (dir + names[i] in nodes ==> Bytes(names[i]) <= NAME_MAX)
  }

  /** The k-th candidate is the first that is free, and only the length of names is a reason to refuse them. */
  ghost predicate Offers(nodes: Nodes, faults: set<Path>, dir: Path, original: string, t: Time, zone: Offset,
                         later: seq<string>, k: nat)
  {
    && InRange(t, zone) && (forall i | 0 <= i < |later| :: Bytes(later[i]) <= NAME_MAX)
    && RefusesLongNames(nodes, faults, dir, Named(original, t, zone, later))
    && FirstFree(nodes, PathsIn(dir, Named(original, t, zone, later)), k)
  }

  /**
   * Making a task directory, or moving to an archive, with a candidate left to use: it succeeds exactly
   * for names of up to 237 bytes. For a longer one the first candidate is refused, and the shorter ones
   * behind it are not tried.
   */
  lemma PlacedIff(nodes: Nodes, faults: set<Path>, source: Option<Path>, dir: Path, original: string, t: Time,
                  zone: Offset, later: seq<string>, k: nat)
    requires Offers(nodes, faults, dir, original, t, zone, later, k) && (source.Some? ==> source.value in nodes)
    ensures var paths := PathsIn(dir, Named(original, t, zone, later));
      Pick(nodes, source, paths, faults) == if Bytes(original) <= 237 then Taken(paths[k]) else Refused(Other)
  {
    var names := Named(original, t, zone, later);
    FirstFitsIff(t, zone, original);
    PickFirstFree(nodes, source, PathsIn(dir, names), faults, k);
    assert 0 < k ==> PathsIn(dir, names)[0] in nodes;
    assert 0 < k ==> names[k] == later[k - 1];
  }

  /** The first run of a task, in which the journal directory is made with the outcome r. */
  function FirstRun(cfg: Config, d: Files.Disk, e: Files.Env, r: Outcome): Files.RunResult {
    Files.RunTask(cfg, Files.Progress(0, false, None), d, e.(journalFails := !r.Taken?))
  }

  /**
   * A file is handled only if its name has at most 237 bytes. For a longer one no task directory can be
   * made: its only run ends for good before it looks at the file, which stays where it is.
   */
  lemma HandledIff(cfg: Config, d: Files.Disk, e: Files.Env, nodes: Nodes, faults: set<Path>, dir: Path,
                   original: string, t: Time, zone: Offset, later: seq<string>, k: nat)
    requires Offers(nodes, faults, dir, original, t, zone, later, k)
    ensures var picked := Pick(nodes, None, PathsIn(dir, Named(original, t, zone, later)), faults);
      var r := FirstRun(cfg, d, e, picked);
      && (r.progress.journal <==> Bytes(original) <= 237)
      && (!r.progress.journal ==> Files.Done(r) && r.err == Some(Files.Plain) && !r.locked && r.disk == d)
  {
    PlacedIff(nodes, faults, None, dir, original, t, zone, later, k);
  }

  /** What has got a task directory is never too long for an archive. */
  lemma ArchivedIfHandled(
      nodes: Nodes, faults: set<Path>, dir: Path, t: Time, later: seq<string>, k: nat,
      nodes': Nodes, faults': set<Path>, dir': Path, t': Time, later': seq<string>, k': nat,
      source: Path, original: string, zone: Offset)
    requires Offers(nodes, faults, dir, original, t, zone, later, k)
    requires Offers(nodes', faults', dir', original, t', zone, later', k') && source in nodes'
    requires Pick(nodes, None, PathsIn(dir, Named(original, t, zone, later)), faults).Taken?
    ensures Pick(nodes', Some(source), PathsIn(dir', Named(original, t', zone, later')), faults').Taken?
  {
    PlacedIff(nodes, faults, None, dir, original, t, zone, later, k);
    PlacedIff(nodes', faults', Some(source), dir', original, t', zone, later', k');
  }

  function LongName(): (name: string)
    ensures |name| == 238 && Ascii(name)
  {
    seq(238, i => 'a')
  }

  /** A name of 238 bytes in an empty directory: its first candidate alone is too long. */
  lemma LongNameIsNeverHandled(cfg: Config, d: Files.Disk, e: Files.Env, t: Time, zone: Offset)
    requires InRange(t, zone)
    ensures var names := Named(LongName(), t, zone, ["f"]);
      var faults := {"journal/" + names[0]};
      var r := FirstRun(cfg, d, e, Pick(map[], None, PathsIn("journal/", names), faults));
      && Offers(map[], faults, "journal/", LongName(), t, zone, ["f"], 0) && Bytes(LongName()) == 238
      && Files.Done(r) && r.err == Some(Files.Plain) && !r.locked && r.disk == d
  {
    var names := Named(LongName(), t, zone, ["f"]);
    AsciiBytes(LongName());
    AsciiBytes("f");
    FirstFitsIff(t, zone, LongName());
    StampBytes(t, zone);
    assert |"journal/" + names[1]| < |"journal/" + names[0]|;
    HandledIff(cfg, d, e, map[], {"journal/" + names[0]}, "journal/", LongName(), t, zone, ["f"], 0);
  }
}
