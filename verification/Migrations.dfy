/** internal/store/migrate.go: pending files are applied in filename order, each in a
    transaction of its own, under a lock that keeps migrators one at a time. */
module Migrations {
  import opened Outcomes
  import opened Text

  // The digest stands for the contents it was taken from.
  datatype Checksum = Checksum(body: string)

  type Files = map<string, string>

  type Recorded = map<string, Checksum>

  // What goes wrong with a file on one run. A lost commit took effect unseen.
  datatype Fault = NoFault | ReadFails | BeginFails | StatementFails | RecordFails | CommitFails | CommitLost

  type Faults = string -> Fault

  datatype Error =
    | Unreadable(name: string)
    | Modified(name: string)
    | NotStarted(name: string)
    | NotApplied(name: string)
    | NotRecorded(name: string)
    | NotCommitted(name: string)

  // The rows afterwards, the files committed in order, and what stopped the run.
  datatype Outcome = Outcome(recorded: Recorded, applied: seq<string>, error: Option<Error>)

  // ---------------------------------------------------------------------------
  // The run as a function
  // ---------------------------------------------------------------------------

  predicate Listed(entries: seq<string>, files: Files) {
    (forall i | 0 <= i < |entries| :: entries[i] in files) && (forall i, j | 0 <= i < j < |entries| :: entries[i] != entries[j])
  }

  function Walk(entries: seq<string>, files: Files, recorded: Recorded, faults: Faults): Outcome
    requires Listed(entries, files)
  {
    if entries == [] then Outcome(recorded, [], None)
    else
      var name := entries[0];
      var row := Checksum(files[name]);
      if faults(name) == ReadFails then Outcome(recorded, [], Some(Unreadable(name)))
      else if name in recorded then
        if recorded[name] != row then Outcome(recorded, [], Some(Modified(name)))
        else Walk(entries[1..], files, recorded, faults)
      else if faults(name) == NoFault then
        var rest := Walk(entries[1..], files, recorded[name := row], faults);
        rest.(applied := [name] + rest.applied)
      else
        Outcome(if faults(name) == CommitLost then recorded[name := row] else recorded, [], Some(Failure(faults(name), name)))
  }

  function Failure(fault: Fault, name: string): Error
    requires fault != NoFault
  {
    match fault
    case ReadFails => Unreadable(name)
    case BeginFails => NotStarted(name)
    case StatementFails => NotApplied(name)
    case RecordFails => NotRecorded(name)
    case CommitFails => NotCommitted(name)
    case CommitLost => NotCommitted(name)
  }

  /** Some errors report what was applied before them; others report nothing. */
  function Reported(o: Outcome): seq<string> {
    if o.error.Some? && (o.error.value.Unreadable? || o.error.value.Modified? || o.error.value.NotStarted?) then [] else o.applied
  }

  function MigrateSpec(files: Files, recorded: Recorded, faults: Faults): Outcome {
    AscendingIsListed(Sorted(files.Keys), files);
    Walk(Sorted(files.Keys), files, recorded, faults)
  }

  lemma AscendingIsListed(entries: seq<string>, files: Files)
    requires Ascending(entries) && Elements(entries) == files.Keys
    ensures Listed(entries, files)
  {
    forall i | 0 <= i < |entries| ensures entries[i] in files {
      assert entries[i] in Elements(entries);
    }
    forall i, j | 0 <= i < j < |entries| ensures entries[i] != entries[j] {
      BeforeIsTotal(entries[i], entries[j]);
    }
  }

  class Database {
    var recorded: Recorded

    constructor (recorded: Recorded)
      ensures this.recorded == recorded
    {
      this.recorded := recorded;
    }

    /** One pending file, in a transaction of its own. */
    method Apply(name: string, row: Checksum, fault: Fault) returns (error: Option<Error>)
      requires fault != ReadFails
      modifies this
      ensures recorded == if fault == NoFault || fault == CommitLost then old(recorded)[name := row] else old(recorded)
      ensures error == if fault == NoFault then None else Some(Failure(fault, name))
    {
      if fault == BeginFails {
        return Some(NotStarted(name));
      }
      if fault == StatementFails {
        return Some(NotApplied(name));
      }
      if fault == RecordFails {
        return Some(NotRecorded(name));
      }
      if fault == CommitFails {
        return Some(NotCommitted(name));
      }
      recorded := recorded[name := row];
      error := if fault == CommitLost then Some(NotCommitted(name)) else None;
    }

    /** The loop of Migrate, over whatever order the listing came in. */
    method Migrate(files: Files, names: seq<string>, faults: Faults) returns (applied: seq<string>, error: Option<Error>)
      requires Listed(names, files) && Elements(names) == files.Keys
      modifies this
      ensures var o := MigrateSpec(files, old(recorded), faults);
        recorded == o.recorded && error == o.error && applied == Reported(o)
    {
      hide Walk, Ascending, Elements, Sorted, Agree;
      var entries := SortStrings(names);
      AscendingIsUnique(entries, Sorted(files.Keys));
      AscendingIsListed(entries, files);
      hide Listed;
      ghost var whole := Walk(entries, files, recorded, faults);
      assert entries[0..] == entries;
      NothingBefore(whole);
      var known := recorded;
      AgreesWithItself(known, entries);
      applied := [];
      for i := 0 to |entries|
        invariant Listed(entries[i..], files)
        invariant Agree(recorded, known, entries[i..])
        invariant whole == Joined(applied, Walk(entries[i..], files, recorded, faults))
      {
        var name := entries[i];
        assert entries[i..][1..] == entries[i + 1..] && entries[i..][0] == name;
        HeadAndTail(recorded, known, entries[i..], files);
        WalkUnfolds(entries[i..], files, recorded, faults, applied);
        if faults(name) == ReadFails {
          return [], Some(Unreadable(name));
        }
        var row := Checksum(files[name]);
        if name in known {
          if known[name] != row {
            return [], Some(Modified(name));
          }
        } else {
          error := Apply(name, row, faults(name));
          if error.Some? {
            return if error.value.NotStarted? then [] else applied, error;
          }
          applied := applied + [name];
        }
      }
      WalkEnds(entries[|entries|..], files, recorded, faults, applied);
      error := None;
    }
  }

  /** The rows read at the start still stand for the files not yet visited. */
  predicate Agree(recorded: Recorded, known: Recorded, entries: seq<string>) {
    forall i | 0 <= i < |entries| ::
      && (entries[i] in recorded <==> entries[i] in known)
      && (entries[i] in known ==> recorded[entries[i]] == known[entries[i]])
  }

  lemma HeadAndTail(recorded: Recorded, known: Recorded, entries: seq<string>, files: Files)
    requires Listed(entries, files) && entries != [] && Agree(recorded, known, entries)
    ensures entries[0] in files && Listed(entries[1..], files)
    ensures entries[0] in recorded <==> entries[0] in known
    ensures entries[0] in known ==> recorded[entries[0]] == known[entries[0]]
    ensures Agree(recorded, known, entries[1..])
    ensures Agree(recorded[entries[0] := Checksum(files[entries[0]])], known, entries[1..])
  {
    forall i | 0 <= i < |entries[1..]| ensures entries[1..][i] != entries[0] {
      assert entries[1..][i] == entries[i + 1];
    }
  }

  lemma AgreesWithItself(recorded: Recorded, entries: seq<string>)
    ensures Agree(recorded, recorded, entries)
  {
  }

  function Joined(applied: seq<string>, o: Outcome): Outcome {
    o.(applied := applied + o.applied)
  }

  lemma NothingBefore(o: Outcome)
    ensures Joined([], o) == o
  {
  }

  lemma WalkEnds(entries: seq<string>, files: Files, recorded: Recorded, faults: Faults, applied: seq<string>)
    requires entries == []
    ensures Joined(applied, Walk(entries, files, recorded, faults)) == Outcome(recorded, applied, None)
  {
  }

  lemma WalkUnfolds(entries: seq<string>, files: Files, recorded: Recorded, faults: Faults, applied: seq<string>)
    requires Listed(entries, files) && entries != []
    ensures var name, fault := entries[0], faults(entries[0]);
      var row := Checksum(files[name]);
      Joined(applied, Walk(entries, files, recorded, faults)) ==
        if fault == ReadFails then Outcome(recorded, applied, Some(Unreadable(name)))
        else if name in recorded then
          if recorded[name] != row then Outcome(recorded, applied, Some(Modified(name)))
          else Joined(applied, Walk(entries[1..], files, recorded, faults))
        else if fault == NoFault then Joined(applied + [name], Walk(entries[1..], files, recorded[name := row], faults))
        else Outcome(if fault == CommitLost then recorded[name := row] else recorded, applied, Some(Failure(fault, name)))
  {
    var rest := Walk(entries[1..], files, recorded[entries[0] := Checksum(files[entries[0]])], faults);
    assert applied + ([entries[0]] + rest.applied) == (applied + [entries[0]]) + rest.applied;
  }

  // ---------------------------------------------------------------------------
  // What a run leaves behind
  // ---------------------------------------------------------------------------

  function PendingIn(entries: seq<string>, recorded: Recorded): (pending: seq<string>)
    ensures |pending| <= |entries|
    ensures forall n :: n in pending <==> n in entries && n !in recorded
  {
    if entries == [] then []
    else if entries[0] in recorded then PendingIn(entries[1..], recorded)
    else [entries[0]] + PendingIn(entries[1..], recorded)
  }

  function WithRows(recorded: Recorded, files: Files, names: seq<string>): (after: Recorded)
    requires AllFiles(names, files)
    ensures after.Keys == recorded.Keys + Elements(names)
    decreases |names|
  {
    if names == [] then recorded
    else WithRows(recorded[names[0] := Checksum(files[names[0]])], files, names[1..])
  }

  predicate Unedited(entries: seq<string>, files: Files, recorded: Recorded)
    requires Listed(entries, files)
  {
    forall i | 0 <= i < |entries| && entries[i] in recorded :: recorded[entries[i]] == Checksum(files[entries[i]])
  }

  /** Recording a file changes nothing about the ones after it. */
  lemma {:induction false} PendingAfterRecording(entries: seq<string>, recorded: Recorded, name: string, row: Checksum)
    requires name !in entries
    ensures PendingIn(entries, recorded[name := row]) == PendingIn(entries, recorded)
  {
    if entries != [] {
      PendingAfterRecording(entries[1..], recorded, name, row);
    }
  }

  predicate AllFiles(names: seq<string>, files: Files) {
    forall i | 0 <= i < |names| :: names[i] in files
  }

  lemma {:induction false} PendingAreFiles(entries: seq<string>, files: Files, recorded: Recorded)
    requires Listed(entries, files)
    ensures AllFiles(PendingIn(entries, recorded), files)
  {
    if entries != [] {
      PendingAreFiles(entries[1..], files, recorded);
    }
  }

  /** The first k pending files are recorded, and all but perhaps a lost one reported. */
  ghost predicate RecordsFirst(pending: seq<string>, files: Files, recorded: Recorded, o: Outcome, k: nat)
    requires AllFiles(pending, files) && k <= |pending|
  {
    && o.recorded == WithRows(recorded, files, pending[..k])
    && (o.applied == pending[..k] || (k > 0 && o.applied == pending[..k - 1] && o.error.Some? && o.error.value.NotCommitted?))
    && (o.error.None? ==> k == |pending| && o.applied == pending)
  }

  /** However a run ends, it has recorded a prefix of the pending files, in order; one
      that ends well has recorded them all. */
  lemma {:induction false} WalkRecordsAPrefix(entries: seq<string>, files: Files, recorded: Recorded, faults: Faults) returns (k: nat)
    requires Listed(entries, files)
    ensures var pending := PendingIn(entries, recorded);
      AllFiles(pending, files) && k <= |pending| && RecordsFirst(pending, files, recorded, Walk(entries, files, recorded, faults), k)
  {
    hide RecordsFirst, WithRows, Failure;
    PendingAreFiles(entries, files, recorded);
    if entries == [] {
      k := 0;
      NoneRecorded([], files, recorded, Outcome(recorded, [], None));
    } else {
      var name, rest := entries[0], entries[1..];
      var row := Checksum(files[name]);
      assert name !in rest;
      if faults(name) == ReadFails || (name in recorded && recorded[name] != row) {
        k := 0;
        NoneRecorded(PendingIn(entries, recorded), files, recorded, Walk(entries, files, recorded, faults));
      } else if name in recorded {
        k := WalkRecordsAPrefix(rest, files, recorded, faults);
      } else if faults(name) == NoFault {
        var j := WalkRecordsAPrefix(rest, files, recorded[name := row], faults);
        PendingAfterRecording(rest, recorded, name, row);
        OneMoreRecorded(name, PendingIn(rest, recorded), files, recorded, Walk(rest, files, recorded[name := row], faults), j);
        k := j + 1;
      } else {
        k := if faults(name) == CommitLost then 1 else 0;
        FailureRecords(PendingIn(entries, recorded), files, recorded, faults(name));
      }
    }
  }

  lemma NoneRecorded(pending: seq<string>, files: Files, recorded: Recorded, o: Outcome)
    requires AllFiles(pending, files) && o.recorded == recorded && o.applied == [] && (o.error.None? ==> pending == [])
    ensures RecordsFirst(pending, files, recorded, o, 0)
  {
  }

  lemma FailureRecords(pending: seq<string>, files: Files, recorded: Recorded, fault: Fault)
    requires AllFiles(pending, files) && pending != [] && fault != NoFault
    ensures RecordsFirst(pending, files, recorded,
      Outcome(if fault == CommitLost then recorded[pending[0] := Checksum(files[pending[0]])] else recorded, [],
              Some(Failure(fault, pending[0]))), if fault == CommitLost then 1 else 0)
  {
    OneRow(pending, files, recorded);
  }

  lemma OneRow(pending: seq<string>, files: Files, recorded: Recorded)
    requires AllFiles(pending, files) && pending != []
    ensures WithRows(recorded, files, pending[..1]) == recorded[pending[0] := Checksum(files[pending[0]])]
    ensures WithRows(recorded, files, pending[..0]) == recorded
  {
    assert pending[..1][1..] == [];
  }

  lemma OneMoreRecorded(name: string, tail: seq<string>, files: Files, recorded: Recorded, rest: Outcome, j: nat)
    requires name in files && AllFiles(tail, files) && j <= |tail|
    requires RecordsFirst(tail, files, recorded[name := Checksum(files[name])], rest, j)
    ensures RecordsFirst([name] + tail, files, recorded, rest.(applied := [name] + rest.applied), j + 1)
  {
    var pending := [name] + tail;
    assert pending[..j + 1] == [name] + tail[..j];
    assert pending[..j + 1][1..] == tail[..j];
    if j > 0 {
      assert pending[..j] == [name] + tail[..j - 1];
    }
  }

  lemma FilesAreListed(files: Files)
    ensures Listed(Sorted(files.Keys), files)
  {
    AscendingIsListed(Sorted(files.Keys), files);
  }

  function Pending(files: Files, recorded: Recorded): (pending: seq<string>)
    ensures AllFiles(pending, files)
  {
    FilesAreListed(files);
    PendingAreFiles(Sorted(files.Keys), files, recorded);
    PendingIn(Sorted(files.Keys), recorded)
  }

  /** A failure at any file leaves the recorded set equal to the old one plus a prefix
      of the pending files in sorted order. */
  lemma FailureLeavesAPrefix(files: Files, recorded: Recorded, faults: Faults) returns (k: nat)
    ensures k <= |Pending(files, recorded)|
    ensures MigrateSpec(files, recorded, faults).recorded == WithRows(recorded, files, Pending(files, recorded)[..k])
    ensures MigrateSpec(files, recorded, faults).error.None? ==> k == |Pending(files, recorded)|
  {
    FilesAreListed(files);
    k := WalkRecordsAPrefix(Sorted(files.Keys), files, recorded, faults);
  }

  // ---------------------------------------------------------------------------
  // Resuming
  // ---------------------------------------------------------------------------

  /** The rows once every file has been applied. */
  function Complete(files: Files, recorded: Recorded): Recorded {
    map n | n in recorded.Keys + files.Keys :: if n in recorded then recorded[n] else Checksum(files[n])
  }

  /** `later` has some of the missing rows, and each is the file's own. */
  predicate Between(files: Files, recorded: Recorded, later: Recorded) {
    && recorded.Keys <= later.Keys <= recorded.Keys + files.Keys
    && forall n | n in later :: later[n] == Complete(files, recorded)[n]
  }

  predicate Distinct(names: seq<string>) {
    forall i, j | 0 <= i < j < |names| :: names[i] != names[j]
  }

  predicate OwnRows(files: Files, recorded: Recorded, after: Recorded) {
    forall n | n in after :: if n in recorded then after[n] == recorded[n] else n in files && after[n] == Checksum(files[n])
  }

  lemma {:induction false} RowsAreTheFilesOwn(recorded: Recorded, files: Files, names: seq<string>)
    requires AllFiles(names, files) && Distinct(names)
    requires forall i | 0 <= i < |names| :: names[i] !in recorded
    ensures OwnRows(files, recorded, WithRows(recorded, files, names))
    decreases |names|
  {
    if names != [] {
      RowsAreTheFilesOwn(recorded[names[0] := Checksum(files[names[0]])], files, names[1..]);
    }
  }

  lemma {:induction false} PendingAreDistinct(entries: seq<string>, files: Files, recorded: Recorded)
    requires Listed(entries, files)
    ensures Distinct(PendingIn(entries, recorded))
  {
    if entries != [] {
      PendingAreDistinct(entries[1..], files, recorded);
      assert entries[0] !in entries[1..];
    }
  }

  lemma OwnRowsAreBetween(files: Files, recorded: Recorded, after: Recorded)
    requires recorded.Keys <= after.Keys && OwnRows(files, recorded, after)
    ensures Between(files, recorded, after)
    ensures (forall n | n in files :: n in after) ==> after == Complete(files, recorded)
  {
  }

  /** Any run, however it ends, stays between where it started and completion. */
  lemma RunStaysBetween(files: Files, recorded: Recorded, faults: Faults)
    ensures Between(files, recorded, MigrateSpec(files, recorded, faults).recorded)
    ensures MigrateSpec(files, recorded, faults).error.None? ==>
      MigrateSpec(files, recorded, faults).recorded == Complete(files, recorded)
  {
    hide MigrateSpec, Between, Complete, OwnRows, WithRows;
    var k := FailureLeavesAPrefix(files, recorded, faults);
    var pending := Pending(files, recorded);
    PendingFacts(files, recorded);
    RowsAreTheFilesOwn(recorded, files, pending[..k]);
    var after := MigrateSpec(files, recorded, faults).recorded;
    OwnRowsAreBetween(files, recorded, after);
    if MigrateSpec(files, recorded, faults).error.None? {
      assert pending[..k] == pending;
    }
  }

  lemma PendingFacts(files: Files, recorded: Recorded)
    ensures var pending := Pending(files, recorded);
      && Distinct(pending)
      && (forall i | 0 <= i < |pending| :: pending[i] !in recorded)
      && (forall n | n in files :: n in recorded || n in Elements(pending))
  {
    FilesAreListed(files);
    var entries := Sorted(files.Keys);
    PendingAreDistinct(entries, files, recorded);
    var pending := Pending(files, recorded);
    forall i | 0 <= i < |pending| ensures pending[i] !in recorded {
      assert pending[i] in pending;
    }
    forall n | n in files ensures n in recorded || n in Elements(pending) {
      assert n in Elements(entries);
    }
  }

  /** The rows after a series of runs, each failing in its own way or not at all. */
  function After(files: Files, recorded: Recorded, runs: seq<Faults>): Recorded
    decreases |runs|
  {
    if runs == [] then recorded else After(files, MigrateSpec(files, recorded, runs[0]).recorded, runs[1..])
  }

  lemma BetweenComposes(files: Files, a: Recorded, b: Recorded, c: Recorded)
    requires Between(files, a, b) && Between(files, b, c)
    ensures Between(files, a, c) && Complete(files, b) == Complete(files, a)
  {
  }

  lemma {:induction false} RunsStayBetween(files: Files, recorded: Recorded, runs: seq<Faults>)
    ensures Between(files, recorded, After(files, recorded, runs))
    ensures Complete(files, After(files, recorded, runs)) == Complete(files, recorded)
    decreases |runs|
  {
    if runs != [] {
      var next := MigrateSpec(files, recorded, runs[0]).recorded;
      RunStaysBetween(files, recorded, runs[0]);
      RunsStayBetween(files, next, runs[1..]);
      BetweenComposes(files, recorded, next, After(files, recorded, runs));
    }
  }

  /** Any series of runs followed by one that succeeds reaches the state one clean run
      reaches. */
  lemma ResumingReachesTheSameState(files: Files, recorded: Recorded, runs: seq<Faults>, last: Faults, clean: Faults)
    requires MigrateSpec(files, After(files, recorded, runs), last).error.None?
    requires MigrateSpec(files, recorded, clean).error.None?
    ensures MigrateSpec(files, After(files, recorded, runs), last).recorded == MigrateSpec(files, recorded, clean).recorded
  {
    RunsStayBetween(files, recorded, runs);
    RunStaysBetween(files, After(files, recorded, runs), last);
    RunStaysBetween(files, recorded, clean);
  }

  lemma {:induction false} NothingPending(entries: seq<string>, recorded: Recorded)
    requires forall n | n in entries :: n in recorded
    ensures PendingIn(entries, recorded) == []
  {
    if entries != [] {
      NothingPending(entries[1..], recorded);
    }
  }

  /** A run after a success applies nothing and records nothing, whatever goes wrong. */
  lemma SuccessLeavesNothingToDo(files: Files, recorded: Recorded, faults: Faults, next: Faults)
    requires MigrateSpec(files, recorded, faults).error.None?
    ensures var after := MigrateSpec(files, recorded, faults).recorded;
      MigrateSpec(files, after, next).recorded == after && MigrateSpec(files, after, next).applied == []
  {
    var after := MigrateSpec(files, recorded, faults).recorded;
    RunStaysBetween(files, recorded, faults);
    FilesAreListed(files);
    var entries := Sorted(files.Keys);
    forall n | n in entries ensures n in after {
      assert n in Elements(entries);
    }
    NothingPending(entries, after);
    var k := WalkRecordsAPrefix(entries, files, after, next);
  }

  /** A run succeeds exactly when no recorded file was edited, every file can be read,
      and nothing goes wrong with a pending one. */
  lemma {:induction false} WalkSucceedsExactlyWhen(entries: seq<string>, files: Files, recorded: Recorded, faults: Faults)
    requires Listed(entries, files)
    ensures Walk(entries, files, recorded, faults).error.None? <==>
      && Unedited(entries, files, recorded)
      && forall i | 0 <= i < |entries| :: faults(entries[i]) != ReadFails && (entries[i] !in recorded ==> faults(entries[i]) == NoFault)
  {
    if entries != [] {
      var name, rest := entries[0], entries[1..];
      var row := Checksum(files[name]);
      assert name !in rest;
      assert entries == [name] + rest;
      WalkSucceedsExactlyWhen(rest, files, if name in recorded then recorded else recorded[name := row], faults);
    }
  }

  /** An edited file stops the run before any file after it: whatever is recorded was
      recorded before, or precedes it in order. */
  lemma {:induction false} EditedFileStopsTheRun(entries: seq<string>, files: Files, recorded: Recorded, faults: Faults, i: nat)
    requires Listed(entries, files) && i < |entries|
    requires entries[i] in recorded && recorded[entries[i]] != Checksum(files[entries[i]])
    ensures var o := Walk(entries, files, recorded, faults);
      && o.error.Some?
      && (forall n | n in o.recorded :: n in recorded || n in entries[..i])
    decreases |entries|
  {
    var name, rest := entries[0], entries[1..];
    var row := Checksum(files[name]);
    if i > 0 {
      assert rest[i - 1] == entries[i] && entries[..i] == [name] + rest[..i - 1];
      if name in recorded {
        EditedFileStopsTheRun(rest, files, recorded, faults, i - 1);
      } else {
        EditedFileStopsTheRun(rest, files, recorded[name := row], faults, i - 1);
      }
    }
  }

  // ---------------------------------------------------------------------------
  // Order, and what stops a run
  // ---------------------------------------------------------------------------

  /** By bytes: y has x as a proper prefix, or the larger byte where they first differ. */
  predicate ComesFirst(x: string, y: string) {
    exists n: nat :: n <= |x| && n < |y| && x[..n] == y[..n] && (n == |x| || x[n] < y[n])
  }

  lemma {:induction false} PendingAscend(entries: seq<string>, recorded: Recorded)
    requires Ascending(entries)
    ensures Ascending(PendingIn(entries, recorded))
  {
    if entries != [] {
      PendingAscend(entries[1..], recorded);
      assert forall n | n in entries[1..] :: Before(entries[0], n);
    }
  }

  lemma RowsAreNamed(recorded: Recorded, files: Files, names: seq<string>, k: nat)
    requires AllFiles(names, files) && k <= |names|
    ensures forall n :: n in WithRows(recorded, files, names[..k]) <==> n in recorded || n in names[..k]
  {
    assert forall n :: n in Elements(names[..k]) <==> n in names[..k];
  }

  lemma PositionsDecide(names: seq<string>, i: nat, j: nat)
    requires Ascending(names) && i < |names| && j < |names|
    ensures ComesFirst(names[i], names[j]) <==> i < j
  {
    BeforeByPositions(names[i], names[j]);
    if i < j {
      assert Before(names[i], names[j]);
    } else if j < i {
      BeforeIsTotal(names[i], names[j]);
    } else {
      BeforeIsTotal(names[i], names[i]);
    }
  }

  lemma FirstInOrder(pending: seq<string>, files: Files, recorded: Recorded, o: Outcome, k: nat)
    requires Ascending(pending) && AllFiles(pending, files) && k <= |pending| && RecordsFirst(pending, files, recorded, o, k)
    ensures forall i, j | 0 <= i < j < |o.applied| :: ComesFirst(o.applied[i], o.applied[j])
    ensures forall x, y | x in pending && y in o.recorded && y !in recorded && ComesFirst(x, y) :: x in o.recorded
  {
    hide ComesFirst, Ascending, WithRows;
    RowsAreNamed(recorded, files, pending, k);
    forall i, j | 0 <= i < j < |o.applied| ensures ComesFirst(o.applied[i], o.applied[j]) {
      PositionsDecide(pending, i, j);
    }
    forall x, y | x in pending && y in o.recorded && y !in recorded && ComesFirst(x, y) ensures x in o.recorded {
      var i :| 0 <= i < |pending| && pending[i] == x;
      var j :| 0 <= j < k && pending[j] == y;
      PositionsDecide(pending, i, j);
      assert pending[..k][i] == x;
    }
  }

  /** Files are applied in the order of their names: each is reported before those that come
      after it, and none is recorded by a run that has not recorded every pending file that
      comes before it. */
  lemma AppliedInOrder(files: Files, recorded: Recorded, faults: Faults)
    ensures var o := MigrateSpec(files, recorded, faults);
      && (forall i, j | 0 <= i < j < |o.applied| :: ComesFirst(o.applied[i], o.applied[j]))
      && (forall x, y | x in files && y in o.recorded && y !in recorded && ComesFirst(x, y) :: x in o.recorded)
  {
    hide Walk, WithRows, Sorted, RecordsFirst, ComesFirst, Ascending;
    FilesAreListed(files);
    var entries := Sorted(files.Keys);
    var k := WalkRecordsAPrefix(entries, files, recorded, faults);
    PendingAscend(entries, recorded);
    var o := MigrateSpec(files, recorded, faults);
    FirstInOrder(PendingIn(entries, recorded), files, recorded, o, k);
    KeepsRows(entries, files, recorded, o, k);
    assert forall x | x in files :: x in Elements(entries);
  }

  lemma KeepsRows(entries: seq<string>, files: Files, recorded: Recorded, o: Outcome, k: nat)
    requires AllFiles(PendingIn(entries, recorded), files) && k <= |PendingIn(entries, recorded)|
    requires RecordsFirst(PendingIn(entries, recorded), files, recorded, o, k)
    ensures forall n | n in recorded :: n in o.recorded
  {
    hide WithRows;
  }

  /** What stands behind an error that names a file. */
  ghost predicate Explains(e: Error, files: Files, recorded: Recorded, faults: Faults) {
    && e.name in files
    && match e
       case Unreadable(n) => faults(n) == ReadFails
       case Modified(n) => n in recorded && recorded[n] != Checksum(files[n])
       case NotStarted(n) => n !in recorded && faults(n) == BeginFails
       case NotApplied(n) => n !in recorded && faults(n) == StatementFails
       case NotRecorded(n) => n !in recorded && faults(n) == RecordFails
       case NotCommitted(n) => n !in recorded && (faults(n) == CommitFails || faults(n) == CommitLost)
  }

  lemma {:induction false} WalkIsExplained(entries: seq<string>, files: Files, recorded: Recorded, faults: Faults)
    requires Listed(entries, files) && Walk(entries, files, recorded, faults).error.Some?
    ensures Walk(entries, files, recorded, faults).error.value.name in entries
    ensures Explains(Walk(entries, files, recorded, faults).error.value, files, recorded, faults)
  {
    var name, rest := entries[0], entries[1..];
    var row := Checksum(files[name]);
    assert name !in rest;
    if faults(name) == ReadFails || (name in recorded && recorded[name] != row) {
    } else if name in recorded {
      WalkIsExplained(rest, files, recorded, faults);
    } else if faults(name) == NoFault {
      WalkIsExplained(rest, files, recorded[name := row], faults);
    }
  }

  /** The error of a run names a file that is there and what went wrong with it; and a file
      whose transaction failed is not reported as applied, nor is anything where reading the
      file, its checksum or the start of its transaction stopped the run. */
  lemma ErrorsAreExplained(files: Files, recorded: Recorded, faults: Faults)
    ensures var o := MigrateSpec(files, recorded, faults);
      && (o.error.Some? ==> Explains(o.error.value, files, recorded, faults))
      && (Reported(o) == if o.error.Some? && (o.error.value.Unreadable? || o.error.value.Modified? || o.error.value.NotStarted?)
                         then [] else o.applied)
      && (forall n | n in o.applied :: n in files && n !in recorded && faults(n) == NoFault)
  {
    FilesAreListed(files);
    var entries := Sorted(files.Keys);
    if Walk(entries, files, recorded, faults).error.Some? {
      WalkIsExplained(entries, files, recorded, faults);
    }
    AppliedHadNoFault(entries, files, recorded, faults);
  }

  lemma {:induction false} AppliedHadNoFault(entries: seq<string>, files: Files, recorded: Recorded, faults: Faults)
    requires Listed(entries, files)
    ensures forall n | n in Walk(entries, files, recorded, faults).applied :: n in entries && n in files && n !in recorded && faults(n) == NoFault
  {
    if entries != [] {
      var name, rest := entries[0], entries[1..];
      var row := Checksum(files[name]);
      assert name !in rest;
      AppliedHadNoFault(rest, files, recorded, faults);
      AppliedHadNoFault(rest, files, recorded[name := row], faults);
    }
  }
}
