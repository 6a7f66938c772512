/**
 * Moves that never overwrite: RenameToAvailableName and MakeAvailableDir of internal/waryio and the
 * move-into command. Candidate names are a finite sequence, which the iterator hands out one by one.
 */
module Moves {
  import opened Options

  type Path = string

  /** What is at a path: a file or a directory with all that is in it. */
  type Entry = nat

  type Nodes = map<Path, Entry>

  datatype Error = NotExist | Exist | Other | RenameNotSupported | NoName

  datatype Outcome = Taken(path: Path) | Refused(err: Error) | Exhausted

  /**
   * What comes of putting something at path: it must not be there yet, and what is moved, if anything,
   * must exist. Paths in faults are refused for other reasons.
   */
  function Try(nodes: Nodes, source: Option<Path>, path: Path, faults: set<Path>): Option<Error> {
    if source.Some? && source.value !in nodes then Some(NotExist)
    else if path in nodes then Some(Exist)
    else if path in faults then Some(Other)
    else None
  }

  /** The loop of both functions: the error of a taken name is passed over while there is another candidate. */
  function Pick(nodes: Nodes, source: Option<Path>, candidates: seq<Path>, faults: set<Path>): Outcome {
    if candidates == [] then Exhausted
    else
      var err := Try(nodes, source, candidates[0], faults);
      if err.None? then Taken(candidates[0])
      else if err.value.Exist? && 1 < |candidates| then Pick(nodes, source, candidates[1..], faults)
      else Refused(err.value)
  }

  function Renamed(nodes: Nodes, source: Path, target: Path): Nodes
    requires source in nodes
  {
    (nodes - {source})[target := nodes[source]]
  }

  // ---------- The objects ----------

  /** A StringIter over candidates. */
  class Candidates {
    var rest: seq<Path>

    constructor (rest: seq<Path>)
      ensures this.rest == rest
    {
      this.rest := rest;
    }

    method Next() returns (path: Path, ok: bool)
      modifies this
      ensures ok == (old(rest) != [])
      ensures ok ==> path == old(rest)[0] && rest == old(rest)[1..]
      ensures !ok ==> rest == []
    {
      ok := rest != [];
      if ok {
        path, rest := rest[0], rest[1..];
      } else {
        path := "";
      }
    }
  }

  class FileSystem {
    var nodes: Nodes

    constructor (nodes: Nodes)
      ensures this.nodes == nodes
    {
      this.nodes := nodes;
    }

    /** renameat2 with RENAME_NOREPLACE */
    method RenameWithoutReplace(source: Path, target: Path, faults: set<Path>) returns (err: Option<Error>)
      modifies this
      ensures err == Try(old(nodes), Some(source), target, faults)
      ensures nodes == if err.None? then Renamed(old(nodes), source, target) else old(nodes)
    {
      err := Try(nodes, Some(source), target, faults);
      if err.None? {
        nodes := (nodes - {source})[target := nodes[source]];
      }
    }

    method Mkdir(path: Path, made: Entry, faults: set<Path>) returns (err: Option<Error>)
      modifies this
      ensures err == Try(old(nodes), None, path, faults)
      ensures nodes == if err.None? then old(nodes)[path := made] else old(nodes)
    {
      err := Try(nodes, None, path, faults);
      if err.None? {
        nodes := nodes[path := made];
      }
    }

    /** RenameToAvailableName */
    method RenameToAvailableName(source: Path, g: Candidates, faults: set<Path>) returns (r: Outcome)
      modifies this, g
      ensures r == Pick(old(nodes), Some(source), old(g.rest), faults)
      ensures r.Taken? ==> source in old(nodes) && nodes == Renamed(old(nodes), source, r.path)
      ensures !r.Taken? ==> nodes == old(nodes)
    {
      var path, ok := g.Next();
      while ok
        invariant nodes == old(nodes)
        invariant ok ==>
          Pick(nodes, Some(source), [path] + g.rest, faults) == Pick(nodes, Some(source), old(g.rest), faults)
        invariant !ok ==> old(g.rest) == []
        decreases |g.rest|, ok
      {
        var err := RenameWithoutReplace(source, path, faults);
        if err.None? {
          return Taken(path);
        }
        ghost var tried := [path] + g.rest;
        path, ok := g.Next();
        if !(ok && err.value.Exist?) {
          return Refused(err.value);
        }
        assert tried[1..] == [path] + g.rest;
      }
      return Exhausted;
    }

    /** MakeAvailableDir; `made` stands for the new directory. */
    method MakeAvailableDir(g: Candidates, made: Entry, faults: set<Path>) returns (r: Outcome)
      modifies this, g
      ensures r == Pick(old(nodes), None, old(g.rest), faults)
      ensures nodes == if r.Taken? then old(nodes)[r.path := made] else old(nodes)
    {
      var path, ok := g.Next();
      while ok
        invariant nodes == old(nodes)
        invariant ok ==> Pick(nodes, None, [path] + g.rest, faults) == Pick(nodes, None, old(g.rest), faults)
        invariant !ok ==> old(g.rest) == []
        decreases |g.rest|, ok
      {
        var err := Mkdir(path, made, faults);
        if err.None? {
          return Taken(path);
        }
        ghost var tried := [path] + g.rest;
        path, ok := g.Next();
        if !(ok && err.value.Exist?) {
          return Refused(err.value);
        }
        assert tried[1..] == [path] + g.rest;
      }
      return Exhausted;
    }

    /**
     * IntoCommand.execute; `names` gives the candidates made for the i-th source and a preferred name, or
     * None if uniquename.New refuses it, and `base` is filepath.Base.
     */
    method MoveInto(sources: seq<Path>, rename: string, base: Path -> string,
                    names: (nat, string) -> Option<seq<Path>>, faults: set<Path>)
      returns (err: Option<Outcome>)
      modifies this
      ensures SameContents(old(nodes), nodes)
      ensures forall p | p in old(nodes) && p !in sources :: p in nodes && nodes[p] == old(nodes)[p]
      ensures rename != "" && 1 < |sources| ==> nodes == old(nodes) && err == Some(Refused(RenameNotSupported))
      ensures exists states :: MovesInTurn(old(nodes), sources, rename, base, names, faults, states, nodes, err)
      ensures err == MovedInto(old(nodes), sources, 0, rename, base, names, faults).0
      ensures nodes == MovedInto(old(nodes), sources, 0, rename, base, names, faults).1
    {
      var i := 0;
      ghost var states := MovedIntoInTurn(nodes, sources, rename, base, names, faults);
      hide MovesInTurn, SameContents;
      SameContentsRefl(nodes);
      while i < |sources|
        invariant i <= |sources| && (0 < i && rename != "" ==> |sources| == 1)
        invariant SameContents(old(nodes), nodes)
        invariant forall p | p in old(nodes) && p !in sources :: p in nodes && nodes[p] == old(nodes)[p]
        invariant MovedInto(old(nodes), sources, 0, rename, base, names, faults)
               == MovedInto(nodes, sources, i, rename, base, names, faults)
      {
        var newname := base(sources[i]);
        if rename != "" {
          if |sources| > 1 {
            return Some(Refused(RenameNotSupported));
          }
          newname := rename;
        }
        var candidates := names(i, newname);
        if candidates.None? {
          return Some(Refused(NoName));
        }
        var g := new Candidates(candidates.value);
        ghost var before := nodes;
        var r := RenameToAvailableName(sources[i], g, faults);
        if !r.Taken? {
          return Some(r);
        }
        PickedIsFree(before, Some(sources[i]), candidates.value, faults);
        RenamedSameContents(before, sources[i], r.path);
        SameContentsTrans(old(nodes), before, nodes);
        i := i + 1;
      }
      return None;
    }
  }

  /** What moving the sources from the i-th on comes to. */
  function MovedInto(nodes: Nodes, sources: seq<Path>, i: nat, rename: string, base: Path -> string,
                     names: (nat, string) -> Option<seq<Path>>, faults: set<Path>): (Option<Outcome>, Nodes)
    requires i <= |sources|
    decreases |sources| - i
  {
    if i == |sources| then (None, nodes)
    else if rename != "" && 1 < |sources| then (Some(Refused(RenameNotSupported)), nodes)
    else
      var candidates := names(i, if rename != "" then rename else base(sources[i]));
      if candidates.None? then (Some(Refused(NoName)), nodes)
      else
        var r := Pick(nodes, Some(sources[i]), candidates.value, faults);
        PickedIsFree(nodes, Some(sources[i]), candidates.value, faults);
        if !r.Taken? then (Some(r), nodes)
        else MovedInto(Renamed(nodes, sources[i], r.path), sources, i + 1, rename, base, names, faults)
  }

  // ---------- Sources in turn ----------

  /** The candidates for the i-th source are made for the preferred name if there is one, else for its own. */
  ghost predicate MadeFor(candidates: Option<seq<Path>>, sources: seq<Path>, i: nat, rename: string,
                          base: Path -> string, names: (nat, string) -> Option<seq<Path>>)
    requires i < |sources|
  {
    && (rename != "" ==> candidates == names(i, rename))
    && (rename == "" ==> candidates == names(i, base(sources[i])))
  }

  /** The source goes to the first free candidate. */
  ghost predicate Moved(before: Nodes, source: Path, candidates: Option<seq<Path>>, faults: set<Path>, after: Nodes) {
    && source in before && candidates.Some?
    && exists k: nat :: FirstFree(before, candidates.value, k) && candidates.value[k] !in faults
         && after == Renamed(before, source, candidates.value[k])
  }

  /** Why the source cannot be moved. */
  ghost predicate NotMoved(nodes: Nodes, source: Path, candidates: Option<seq<Path>>, faults: set<Path>, err: Outcome) {
    if candidates.None? then err == Refused(NoName)
    else if candidates.value == [] then err == Exhausted
    else if source !in nodes then err == Refused(NotExist)
    else if forall j | 0 <= j < |candidates.value| :: candidates.value[j] in nodes then err == Refused(Exist)
    else
      && err == Refused(Other)
      && exists k: nat :: FirstFree(nodes, candidates.value, k) && candidates.value[k] in faults
  }

  ghost predicate MovedAt(sources: seq<Path>, i: nat, rename: string, base: Path -> string,
                          names: (nat, string) -> Option<seq<Path>>, faults: set<Path>, before: Nodes, after: Nodes)
    requires i < |sources|
  {
    exists candidates ::
      MadeFor(candidates, sources, i, rename, base, names) && Moved(before, sources[i], candidates, faults, after)
  }

  ghost predicate FailedAt(sources: seq<Path>, i: nat, rename: string, base: Path -> string,
                           names: (nat, string) -> Option<seq<Path>>, faults: set<Path>, nodes: Nodes, err: Outcome)
    requires i < |sources|
  {
    exists candidates ::
      MadeFor(candidates, sources, i, rename, base, names) && NotMoved(nodes, sources[i], candidates, faults, err)
  }

  /**
   * The states lead from `first` to `last` through the moves of the first sources, one by one. Without an
   * error these are all sources; otherwise the next source is the one that cannot be moved, for the reason
   * given, or a preferred name was given for several sources, none of which is moved.
   */
  ghost predicate MovesInTurn(first: Nodes, sources: seq<Path>, rename: string, base: Path -> string,
                              names: (nat, string) -> Option<seq<Path>>, faults: set<Path>, states: seq<Nodes>,
                              last: Nodes, err: Option<Outcome>)
  {
    var n := |states| - 1;
    && 0 <= n <= |sources| && states[0] == first && states[n] == last
    && (forall i | 0 <= i < n :: MovedAt(sources, i, rename, base, names, faults, states[i], states[i + 1]))
    && (if rename != "" && 1 < |sources| then n == 0 && err == Some(Refused(RenameNotSupported))
        else if err.None? then n == |sources|
        else n < |sources| && FailedAt(sources, n, rename, base, names, faults, last, err.value))
  }

  /** What Pick comes to for a source that is moved, or not. */
  lemma PickedMoves(nodes: Nodes, source: Path, candidates: seq<Path>, faults: set<Path>)
    ensures var r := Pick(nodes, Some(source), candidates, faults);
      && (r.Taken? ==>
            source in nodes && Moved(nodes, source, Some(candidates), faults, Renamed(nodes, source, r.path)))
      && (!r.Taken? ==> NotMoved(nodes, source, Some(candidates), faults, r))
  {
    if j :| 0 <= j < |candidates| && candidates[j] !in nodes {
      var k := SomeFirstFree(nodes, candidates, j);
      PickFirstFree(nodes, Some(source), candidates, faults, k);
    } else {
      PickNoneFree(nodes, Some(source), candidates, faults);
    }
  }

  lemma {:induction false} SomeFirstFree(nodes: Nodes, candidates: seq<Path>, j: nat) returns (k: nat)
    requires j < |candidates| && candidates[j] !in nodes
    ensures FirstFree(nodes, candidates, k)
  {
    if i :| 0 <= i < j && candidates[i] !in nodes {
      k := SomeFirstFree(nodes, candidates, i);
    } else {
      k := j;
    }
  }

  lemma MovedNow(nodes: Nodes, sources: seq<Path>, i: nat, rename: string, base: Path -> string,
                 names: (nat, string) -> Option<seq<Path>>, faults: set<Path>, next: Nodes)
    requires i < |sources|
    requires var candidates := names(i, if rename != "" then rename else base(sources[i]));
      Moved(nodes, sources[i], candidates, faults, next)
    ensures MovedAt(sources, i, rename, base, names, faults, nodes, next)
  {
    var candidates := names(i, if rename != "" then rename else base(sources[i]));
    assert MadeFor(candidates, sources, i, rename, base, names);
  }

  lemma FailedNow(nodes: Nodes, sources: seq<Path>, i: nat, rename: string, base: Path -> string,
                  names: (nat, string) -> Option<seq<Path>>, faults: set<Path>, err: Outcome)
    requires i < |sources|
    requires var candidates := names(i, if rename != "" then rename else base(sources[i]));
      if candidates.None? then err == Refused(NoName) else NotMoved(nodes, sources[i], candidates, faults, err)
    ensures FailedAt(sources, i, rename, base, names, faults, nodes, err)
  {
    var candidates := names(i, if rename != "" then rename else base(sources[i]));
    assert MadeFor(candidates, sources, i, rename, base, names);
    assert NotMoved(nodes, sources[i], candidates, faults, err);
  }

  /** The states from the i-th source on. */
  lemma {:induction false} MovedFrom(nodes: Nodes, sources: seq<Path>, i: nat, rename: string, base: Path -> string,
                                     names: (nat, string) -> Option<seq<Path>>, faults: set<Path>)
    returns (states: seq<Nodes>)
    requires i <= |sources| && (rename != "" ==> |sources| == 1)
    ensures var (err, last) := MovedInto(nodes, sources, i, rename, base, names, faults);
      var n := i + |states| - 1;
      && states != [] && n <= |sources| && states[0] == nodes && states[|states| - 1] == last
      && (forall k | 0 <= k < |states| - 1 ::
            MovedAt(sources, i + k, rename, base, names, faults, states[k], states[k + 1]))
      && (if err.None? then n == |sources|
          else n < |sources| && FailedAt(sources, n, rename, base, names, faults, last, err.value))
    decreases |sources| - i
  {
    states := [nodes];
    if i < |sources| {
      var candidates := names(i, if rename != "" then rename else base(sources[i]));
      hide MadeFor, MovedAt, Moved, NotMoved;
      if candidates.Some? {
        var r := Pick(nodes, Some(sources[i]), candidates.value, faults);
        PickedMoves(nodes, sources[i], candidates.value, faults);
        if !r.Taken? {
          FailedNow(nodes, sources, i, rename, base, names, faults, r);
        } else {
          var next := Renamed(nodes, sources[i], r.path);
          MovedNow(nodes, sources, i, rename, base, names, faults, next);
          var rest := MovedFrom(next, sources, i + 1, rename, base, names, faults);
          states := [nodes] + rest;
          forall k | 0 <= k < |states| - 1
            ensures MovedAt(sources, i + k, rename, base, names, faults, states[k], states[k + 1])
          {
            assert 0 < k ==> i + k == i + 1 + (k - 1) && states[k] == rest[k - 1];
          }
        }
      } else {
        FailedNow(nodes, sources, i, rename, base, names, faults, Refused(NoName));
      }
    }
  }

  /** What the move comes to: every source in turn goes to the first free of its candidates, up to an error. */
  lemma MovedIntoInTurn(nodes: Nodes, sources: seq<Path>, rename: string, base: Path -> string,
                        names: (nat, string) -> Option<seq<Path>>, faults: set<Path>)
    returns (states: seq<Nodes>)
    ensures var r := MovedInto(nodes, sources, 0, rename, base, names, faults);
      MovesInTurn(nodes, sources, rename, base, names, faults, states, r.1, r.0)
  {
    hide MovedAt, FailedAt;
    if sources == [] || (rename != "" && 1 < |sources|) {
      states := [nodes];
    } else {
      states := MovedFrom(nodes, sources, 0, rename, base, names, faults);
      assert forall k | 0 <= k < |states| - 1 ::
        MovedAt(sources, 0 + k, rename, base, names, faults, states[k], states[k + 1]);
    }
  }

  // ---------- The first free candidate ----------

  /** The k-th candidate is the first that is not taken. */
  ghost predicate FirstFree(nodes: Nodes, candidates: seq<Path>, k: nat) {
    k < |candidates| && candidates[k] !in nodes && forall j | 0 <= j < k :: candidates[j] in nodes
  }

  /**
   * The first free candidate is used if what is to be moved exists and nothing else is wrong with it.
   * Names past it are never tried.
   */
  lemma {:induction false} PickFirstFree(nodes: Nodes, source: Option<Path>, candidates: seq<Path>, faults: set<Path>,
                                         k: nat)
    requires FirstFree(nodes, candidates, k)
    ensures Pick(nodes, source, candidates, faults) ==
      if source.Some? && source.value !in nodes then Refused(NotExist)
      else if candidates[k] in faults then Refused(Other) else Taken(candidates[k])
  {
    if 0 < k {
      PickFirstFree(nodes, source, candidates[1..], faults, k - 1);
    }
  }

  /** Without a free candidate the result is the error for the last one; without any candidate there is none. */
  lemma {:induction false} PickNoneFree(nodes: Nodes, source: Option<Path>, candidates: seq<Path>, faults: set<Path>)
    requires forall j | 0 <= j < |candidates| :: candidates[j] in nodes
    ensures Pick(nodes, source, candidates, faults) ==
      if candidates == [] then Exhausted
      else if source.Some? && source.value !in nodes then Refused(NotExist)
      else Refused(Exist)
  {
    if 1 < |candidates| {
      PickNoneFree(nodes, source, candidates[1..], faults);
    }
  }

  /** A name that is taken was free, and no earlier candidate was. */
  lemma {:induction false} PickedIsFree(nodes: Nodes, source: Option<Path>, candidates: seq<Path>, faults: set<Path>)
    ensures var r := Pick(nodes, source, candidates, faults);
      r.Taken? ==>
        && r.path !in nodes && (source.Some? ==> source.value in nodes)
        && exists k: nat :: FirstFree(nodes, candidates, k) && candidates[k] == r.path
  {
    var r := Pick(nodes, source, candidates, faults);
    if r.Taken? {
      if Try(nodes, source, candidates[0], faults).None? {
        assert FirstFree(nodes, candidates, 0);
      } else {
        PickedIsFree(nodes, source, candidates[1..], faults);
        var k: nat :| FirstFree(nodes, candidates[1..], k) && candidates[1..][k] == r.path;
        assert FirstFree(nodes, candidates, k + 1);
      }
    }
  }

  // ---------- Conservation ----------

  ghost function Holders(nodes: Nodes, e: Entry): set<Path> {
    set p | p in nodes && nodes[p] == e
  }

  /** Every entry is there as many times. */
  ghost predicate SameContents(a: Nodes, b: Nodes) {
    forall e {:trigger Holders(b, e)} :: |Holders(a, e)| == |Holders(b, e)|
  }

  lemma SameContentsRefl(a: Nodes)
    ensures SameContents(a, a)
  {
  }

  lemma SameContentsTrans(a: Nodes, b: Nodes, c: Nodes)
    requires SameContents(a, b) && SameContents(b, c)
    ensures SameContents(a, c)
  {
    forall e
      ensures |Holders(a, e)| == |Holders(c, e)|
    {
      assert |Holders(a, e)| == |Holders(b, e)|;
    }
  }

  /** A rename to a free name loses and duplicates nothing. */
  lemma RenamedSameContents(nodes: Nodes, source: Path, target: Path)
    requires source in nodes && target !in nodes
    ensures SameContents(nodes, Renamed(nodes, source, target))
  {
    forall e
      ensures |Holders(nodes, e)| == |Holders(Renamed(nodes, source, target), e)|
    {
      HoldersOfRenamed(nodes, source, target, e);
    }
  }

  lemma HoldersOfRenamed(nodes: Nodes, source: Path, target: Path, e: Entry)
    requires source in nodes && target !in nodes
    ensures Holders(Renamed(nodes, source, target), e)
         == if nodes[source] == e then Holders(nodes, e) - {source} + {target} else Holders(nodes, e)
  {
  }

  // ---------- Task directories ----------

  /**
   * The entries before and after a number of calls of MakeAvailableDir, of which some found a name. In
   * between, other entries may appear and disappear, for instance by pruning.
   */
  ghost predicate Making(before: seq<Nodes>, calls: seq<seq<Path>>, faults: set<Path>, after: seq<Nodes>) {
    && |before| == |calls| == |after|
    && forall i | 0 <= i < |calls| :: Made(before[i], calls[i], faults, after[i])
  }

  ghost predicate Made(before: Nodes, call: seq<Path>, faults: set<Path>, after: Nodes) {
    var r := Pick(before, None, call, faults);
    if r.Taken? then r.path in after && after - {r.path} == before - {r.path} else after == before
  }

  /** The entry at path is there from the end of call i until call j. */
  ghost predicate Stays(before: seq<Nodes>, after: seq<Nodes>, i: nat, j: nat, path: Path)
    requires |before| == |after| && i < j < |before|
  {
    path in after[i] && forall k | i < k <= j :: path in before[k]
  }

  /**
   * A task never gets a directory that is there, in particular none that another task still has: if two
   * calls give out the same directory, the first was removed before the second was made.
   */
  lemma DirectoriesAreDistinct(before: seq<Nodes>, calls: seq<seq<Path>>, faults: set<Path>, after: seq<Nodes>,
                               i: nat, j: nat)
    requires Making(before, calls, faults, after) && i < j < |calls|
    requires Pick(before[i], None, calls[i], faults).Taken? && Pick(before[j], None, calls[j], faults).Taken?
    ensures var first := Pick(before[i], None, calls[i], faults).path;
      var second := Pick(before[j], None, calls[j], faults).path;
      && first !in before[i] && second !in before[j] && first in after[i] && second in after[j]
      && (Stays(before, after, i, j, first) ==> first != second)
  {
    assert Made(before[i], calls[i], faults, after[i]) && Made(before[j], calls[j], faults, after[j]);
    PickedIsFree(before[i], None, calls[i], faults);
    PickedIsFree(before[j], None, calls[j], faults);
  }
}
