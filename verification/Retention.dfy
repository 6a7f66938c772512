/** internal/prune and the pruning of internal/journal: which entries are old enough to be removed. */
module Retention {
  import opened Options
  import opened Calendar
  import opened UniqueNames

  /** MakeAgeFilter */
  predicate Accepts(deadline: Time, zone: Offset, name: string, modified: Time) {
    if deadline < modified then false
    else
      match ExtractTime(name, zone)
      case Some(t) => t != ZERO_TIME && t < deadline
      case None => true
  }

  /** The deadline of Journal.Prune. */
  function Deadline(now: Time, retention: int): Time {
    (now - retention) / MINUTE * MINUTE
  }

  /**
   * An entry is accepted exactly if its modification time is not after the deadline and its name either
   * tells no time or one before the deadline, which is not Go's zero time.
   */
  lemma AcceptsIff(deadline: Time, zone: Offset, name: string, modified: Time)
    ensures Accepts(deadline, zone, name, modified) <==>
      && modified <= deadline
      && (TellsTime(FirstWord(name)) ==>
            ExtractTime(name, zone).Some? && ZERO_TIME != ExtractTime(name, zone).value < deadline)
  {
    ExtractIff(name, zone);
    hide ExtractTime, TellsTime, FirstWord;
  }

  lemma SecondsBeforeMinute(t: Time, d: Time)
    requires d % MINUTE == 0
    ensures FloorSecond(t) < d <==> t < d
  {
    assert d == d / MINUTE * 60 * SECOND;
  }

  lemma AcceptsByTime(created: Time, zone: Offset, name: string, modified: Time, now: Time, retention: int)
    requires ExtractTime(name, zone) == Some(FloorSecond(created))
    ensures var deadline := Deadline(now, retention);
      Accepts(deadline, zone, name, modified) <==>
        modified <= deadline && created < deadline && FloorSecond(created) != ZERO_TIME
  {
    WholeMinutes(now - retention);
    SecondsBeforeMinute(created, Deadline(now, retention));
    hide ExtractTime, FloorSecond, Deadline;
  }

  lemma WholeMinutes(n: int)
    ensures (n / MINUTE * MINUTE) % MINUTE == 0
  {
  }

  /** The deadline is the last full minute, in nanoseconds, before which the retention time has passed. */
  lemma DeadlineIsMinute(now: Time, retention: int, d: Time)
    ensures var minute := 60_000_000_000;
      d == Deadline(now, retention) <==> d % minute == 0 && d <= now - retention < d + minute
  {
    WholeMinutes(now - retention);
    if d % MINUTE == 0 && d <= now - retention < d + MINUTE {
      assert d == d / MINUTE * MINUTE;
    }
  }

  /** Exactly when a generated name is up for removal. */
  lemma GeneratedAcceptedIff(g: string -> seq<string>, created: Time, zone: Offset, parts: Parts, original: string,
                             name: string, modified: Time, now: Time, retention: int)
    requires MadeAt(g, created, zone, parts, original, name)
    ensures var deadline := Deadline(now, retention);
      Accepts(deadline, zone, name, modified) <==>
        modified <= deadline && created < deadline && FloorSecond(created) != ZERO_TIME
  {
    MadeAtIsRead(g, created, zone, parts, original, name);
    AcceptsByTime(created, zone, name, modified, now, retention);
  }

  /**
   * Retention: no name made with a time prefix is accepted before the retention time has passed since it
   * was made, however old the entry's modification time.
   */
  lemma RetentionKept(g: string -> seq<string>, created: Time, zone: Offset, parts: Parts, original: string,
                      name: string, modified: Time, now: Time, retention: int)
    requires MadeAt(g, created, zone, parts, original, name) && now <= created + retention
    ensures !Accepts(Deadline(now, retention), zone, name, modified)
  {
    GeneratedAcceptedIff(g, created, zone, parts, original, name, modified, now, retention);
    DeadlineIsPast(now, retention);
  }

  lemma DeadlineIsPast(now: Time, retention: int)
    ensures now - retention - MINUTE < Deadline(now, retention) <= now - retention
  {
  }

  // ---------- Removal ----------

  const LOCK_NAME: string := ".prune.lock"

  datatype FileInfo = FileInfo(name: string, modified: Time)

  datatype Removal = Removed | NotFound | Failed

  /** A directory, by the names in it. */
  class Directory {
    var names: set<string>

    constructor (names: set<string>)
      ensures this.names == names
    {
      this.names := names;
    }

    /** RemoveAll. Somebody else may have removed the entry already. */
    method RemoveAll(name: string, outcome: Removal)
      modifies this
      ensures names == if outcome.Failed? then old(names) else old(names) - {name}
    {
      if !outcome.Failed? {
        names := names - {name};
      }
    }

    /**
     * runLocked: entries is what reading the directory gave, cancelled tells for each entry whether the
     * context was found done before it, outcomes what removing it comes to.
     */
    method RunLocked(entries: seq<FileInfo>, deadline: Time, zone: Offset, cancelled: seq<bool>, outcomes: seq<Removal>)
      returns (errors: nat)
      requires |cancelled| == |outcomes| == |entries|
      modifies this
      ensures names == old(names) - Gone(entries, deadline, zone, outcomes, Stopped(cancelled))
      ensures errors == 0 <==>
        Stopped(cancelled) == |entries| && forall i | 0 <= i < |entries| && Due(entries[i], deadline, zone) ::
          !outcomes[i].Failed?
    {
      errors := 0;
      var i := 0;
      while i < |entries|
        invariant i <= |entries| && forall k | 0 <= k < i :: !cancelled[k]
        invariant names == old(names) - Gone(entries, deadline, zone, outcomes, i)
        invariant errors == 0 <==> forall k | 0 <= k < i && Due(entries[k], deadline, zone) :: !outcomes[k].Failed?
      {
        if cancelled[i] {
          errors := errors + 1;
          break;
        }
        if entries[i].name != LOCK_NAME && Accepts(deadline, zone, entries[i].name, entries[i].modified) {
          RemoveAll(entries[i].name, outcomes[i]);
          if outcomes[i].Failed? {
            errors := errors + 1;
          }
        }
        i := i + 1;
      }
      StoppedAt(cancelled, i);
    }
  }

  /** The entry is to be removed. */
  predicate Due(e: FileInfo, deadline: Time, zone: Offset) {
    e.name != LOCK_NAME && Accepts(deadline, zone, e.name, e.modified)
  }

  /** How many entries are looked at. */
  function Stopped(cancelled: seq<bool>): (n: nat)
    ensures n <= |cancelled| && (forall i | 0 <= i < n :: !cancelled[i]) && (n < |cancelled| ==> cancelled[n])
  {
    if cancelled == [] || cancelled[0] then 0 else 1 + Stopped(cancelled[1..])
  }

  lemma StoppedAt(cancelled: seq<bool>, i: nat)
    requires i <= |cancelled| && (forall k | 0 <= k < i :: !cancelled[k]) && (i < |cancelled| ==> cancelled[i])
    ensures Stopped(cancelled) == i
  {
  }

  /** The names removed from the first n entries. */
  ghost function Gone(entries: seq<FileInfo>, deadline: Time, zone: Offset, outcomes: seq<Removal>, n: nat): set<string>
    requires n <= |entries| == |outcomes|
  {
    set i | 0 <= i < n && Due(entries[i], deadline, zone) && !outcomes[i].Failed? :: entries[i].name
  }

  /**
   * A directory's pruning removes no entry that is too young by its modification time or by its name,
   * and never the lock.
   */
  lemma OnlyOldGo(entries: seq<FileInfo>, now: Time, retention: int, zone: Offset, outcomes: seq<Removal>, n: nat,
                  name: string)
    requires n <= |entries| == |outcomes| && name in Gone(entries, Deadline(now, retention), zone, outcomes, n)
    ensures name != LOCK_NAME
    ensures exists e :: e in entries && e.name == name && e.modified + retention <= now
    ensures ExtractTime(name, zone).Some? ==> ExtractTime(name, zone).value + retention < now
  {
    DeadlineIsPast(now, retention);
    var i :| 0 <= i < n && Due(entries[i], Deadline(now, retention), zone) && !outcomes[i].Failed?
      && entries[i].name == name;
    assert entries[i] in entries;
  }

  /**
   * What is removed from the entries looked at: exactly those, other than the lock, that could be removed,
   * were not modified after the deadline, and whose names tell no time or one before it.
   */
  lemma GoneIff(entries: seq<FileInfo>, deadline: Time, zone: Offset, outcomes: seq<Removal>, n: nat, name: string)
    requires n <= |entries| == |outcomes|
    ensures name in Gone(entries, deadline, zone, outcomes, n) <==>
      && name != ".prune.lock"
      && (TellsTime(FirstWord(name)) ==>
            ExtractTime(name, zone).Some? && ZERO_TIME != ExtractTime(name, zone).value < deadline)
      && exists i ::
           0 <= i < n && entries[i].name == name && entries[i].modified <= deadline && !outcomes[i].Failed?
  {
    hide ExtractTime, TellsTime, FirstWord, Accepts;
    forall i | 0 <= i < n && entries[i].name == name
      ensures Accepts(deadline, zone, name, entries[i].modified) <==>
        && entries[i].modified <= deadline
        && (TellsTime(FirstWord(name)) ==>
              ExtractTime(name, zone).Some? && ZERO_TIME != ExtractTime(name, zone).value < deadline)
    {
      AcceptsIff(deadline, zone, name, entries[i].modified);
    }
  }

  /** An entry named by a generator is safe from pruning until the retention time has passed. */
  lemma YoungStays(g: string -> seq<string>, created: Time, parts: Parts, original: string, name: string,
                   entries: seq<FileInfo>, now: Time, retention: int, zone: Offset, outcomes: seq<Removal>, n: nat)
    requires n <= |entries| == |outcomes|
    requires MadeAt(g, created, zone, parts, original, name) && now <= created + retention
    ensures name !in Gone(entries, Deadline(now, retention), zone, outcomes, n)
  {
    forall i | 0 <= i < n && entries[i].name == name
      ensures !Due(entries[i], Deadline(now, retention), zone)
    {
      RetentionKept(g, created, zone, parts, original, name, entries[i].modified, now, retention);
    }
  }
}
