/** The append-only log of reconfiguration events: its rows, the constraints of its table, the
    three repository operations, and the safety of every log they can build. */
module EventLog {
  import opened Results
  import opened Canonical
  import opened Authority

  datatype Payload = Payload(candidateRef: Id, sha256: string, modelRef: string, hypothesisRefs: seq<string>,
                             validationRef: string, costRef: string, responsibleRef: string, rollbackPlanRef: string)

  /** The approval as it is copied into the event. */
  datatype Stamp = Stamp(reference: string, version: int, scope: seq<string>, jurisdiction: Option<string>,
                         boundKind: BoundKind, boundRef: Id)

  datatype EventKind = Promote | Rollback

  datatype Event = Event(id: Id, subject: string, kind: EventKind, fromVersion: int, toVersion: int,
                         payload: Payload, stamp: Stamp, rollbackOf: Option<Id>, recordedAt: Instant)

  datatype Decision = Promoted | Replayed | LostConcurrentRace | NotApplicable | RejectedApproval | RejectedValidation

  datatype LogError = ConstraintViolation | IdentityMismatch

  datatype Appended = Appended(decision: Decision, event: Option<Event>)

  // ----- the constraints of the table

  predicate CanonicalColumn(texts: seq<string>) {
    && BindTuple(texts).Ok? && texts != []
    && (forall item | item in texts :: !SqlBlank(item)) && StrictlyIncreasing(texts)
  }

  /** Every CHECK of one row, and the codec that binds its two text tuples. */
  predicate RowAccepted(e: Event) {
    && e.fromVersion >= 0 && e.toVersion >= 1 && e.toVersion == e.fromVersion + 1
    && (e.kind == Promote <==> e.rollbackOf.None?)
    && Sha256(e.subject) && Sha256(e.payload.sha256)
    && e.stamp.version >= 1 && e.stamp.boundKind == PromotionCandidate
    && !SqlBlank(e.payload.modelRef) && !SqlBlank(e.payload.validationRef) && !SqlBlank(e.payload.costRef)
    && !SqlBlank(e.payload.responsibleRef) && !SqlBlank(e.payload.rollbackPlanRef)
    && CanonicalColumn(e.payload.hypothesisRefs) && CanonicalColumn(e.stamp.scope)
  }

  predicate SameVersion(a: Event, b: Event) { a.subject == b.subject && a.toVersion == b.toVersion }

  predicate VersionTaken(log: seq<Event>, e: Event) { exists x | x in log :: SameVersion(x, e) }

  // ----- reading

  function Find(log: seq<Event>, id: Id): (r: Option<Event>)
    ensures r.Some? ==> r.value in log && r.value.id == id
  {
    if log == [] then None
    else if log[|log| - 1].id == id then Some(log[|log| - 1])
    else Find(log[..|log| - 1], id)
  }

  /** The event with the highest version of a subject. */
  function Latest(log: seq<Event>, subject: string): (r: Option<Event>)
    ensures r.Some? ==> r.value in log && r.value.subject == subject
  {
    if log == [] then None else
    var earlier, last := Latest(log[..|log| - 1], subject), log[|log| - 1];
    if last.subject == subject && (earlier.None? || earlier.value.toVersion < last.toVersion)
    then Some(last)
    else earlier
  }

  function CurrentVersion(log: seq<Event>, subject: string): int {
    if Latest(log, subject).None? then 0 else Latest(log, subject).value.toVersion
  }

  /** How many events a subject has. */
  function Versions(log: seq<Event>, subject: string): nat {
    if log == [] then 0 else
    Versions(log[..|log| - 1], subject) + if log[|log| - 1].subject == subject then 1 else 0
  }

  // ----- appending

  function AppendResult(log: seq<Event>, e: Event): Result<Appended, LogError> {
    match Find(log, e.id)
    case Some(existing) => if existing == e then Ok(Appended(Replayed, Some(existing))) else Err(IdentityMismatch)
    case None =>
      if !RowAccepted(e) then Err(ConstraintViolation)
      else if VersionTaken(log, e) then Ok(Appended(LostConcurrentRace, Latest(log, e.subject)))
      else if e.rollbackOf.Some? && Find(log, e.rollbackOf.value).None? && e.rollbackOf.value != e.id then
        Err(ConstraintViolation)
      else Ok(Appended(Promoted, Some(e)))
  }

  function LogAfter(log: seq<Event>, e: Event): seq<Event> {
    if AppendResult(log, e).Ok? && AppendResult(log, e).value.decision == Promoted then log + [e] else log
  }

  class Repository {
    var log: seq<Event>

    constructor ()
      ensures log == []
    {
      log := [];
    }

    /** Some exactly when an event of that id is in the log; on a safe log it is the only one. */
    method Get(id: Id) returns (r: Option<Event>)
      ensures r == Find(log, id)
      ensures r.Some? <==> exists e :: e in log && e.id == id
      ensures Safe(log) ==> forall e | e in log && e.id == id :: r == Some(e)
    {
      hide Safe;
      r := Find(log, id);
      FindSome(log, id);
      if Safe(log) {
        forall e | e in log && e.id == id ensures r == Some(e) { FindExact(log, e); }
      }
    }

    /** Scans for the greatest version, as the descending query does. */
    method Current(subject: string) returns (r: Option<Event>)
      ensures r == Latest(log, subject)
    {
      r := None;
      for k := 0 to |log|
        invariant r == Latest(log[..k], subject)
      {
        var e := log[k];
        assert log[..k + 1][..k] == log[..k];
        if e.subject == subject && (r.None? || r.value.toVersion < e.toVersion) { r := Some(e); }
      }
      assert log[..|log|] == log;
    }

    method Append(e: Event) returns (r: Result<Appended, LogError>)
      modifies this
      ensures r == AppendResult(old(log), e)
      ensures log == LogAfter(old(log), e)
    {
      var existing := Get(e.id);
      if existing.Some? {
        return if existing.value == e then Ok(Appended(Replayed, existing)) else Err(IdentityMismatch);
      }
      if !RowAccepted(e) { return Err(ConstraintViolation); }
      if VersionTaken(log, e) {
        var current := Current(e.subject);
        return Ok(Appended(LostConcurrentRace, current));
      }
      if e.rollbackOf.Some? && e.rollbackOf.value != e.id {
        var target := Get(e.rollbackOf.value);
        if target.None? { return Err(ConstraintViolation); }
      }
      log := log + [e];
      return Ok(Appended(Promoted, Some(e)));
    }
  }

  /** Comparing by code point, the canonical columns of an accepted row are exactly what the database
      function accepts; under another collation it accepts exactly those that ascend there too. */
  lemma AcceptedColumns(texts: seq<string>, atMost: Collation)
    requires BindTuple(texts).Ok?
    ensures CanonicalColumn(texts) <==> CanonicalTexts(Some(Texts(texts)), true, CODE_POINT)
    ensures CanonicalTexts(Some(Texts(texts)), true, atMost) <==> CanonicalColumn(texts) && Ascending(texts, atMost)
  {
    BindThenLoad(texts, true, CODE_POINT);
    BindThenLoad(texts, true, atMost);
    IncreasingIffSortedSet(texts);
    forall item | item in texts ensures !SqlBlank(item) { assert !Blank(item); }
  }

  // ----- safe logs

  /** What a gate guarantees about the event it builds, whatever the log. */
  predicate WellBound(e: Event) {
    && RowAccepted(e)
    && e.stamp.version == e.toVersion && e.stamp.boundRef == e.payload.candidateRef
  }

  /** A rollback reactivates, under the same subject, the payload of an event in the log. */
  predicate Reactivates(log: seq<Event>, e: Event) {
    e.rollbackOf.Some? ==>
      && Find(log, e.rollbackOf.value).Some?
      && Find(log, e.rollbackOf.value).value.subject == e.subject
      && Find(log, e.rollbackOf.value).value.payload == e.payload
  }

  ghost predicate Extends(log: seq<Event>, e: Event) {
    && WellBound(e) && Reactivates(log, e)
    && Find(log, e.id).None?
    && e.toVersion == Versions(log, e.subject) + 1
  }

  /** Every event extends the log before it. */
  ghost predicate Safe(log: seq<Event>) {
    log == [] || (Safe(log[..|log| - 1]) && Extends(log[..|log| - 1], log[|log| - 1]))
  }

  lemma SafeSnoc(log: seq<Event>, e: Event)
    requires Safe(log) && Extends(log, e)
    ensures Safe(log + [e])
  {
    assert (log + [e])[..|log|] == log;
  }

  lemma {:induction false} SafePrefix(log: seq<Event>, k: nat)
    requires Safe(log) && k <= |log|
    ensures Safe(log[..k])
    decreases |log|
  {
    if k == |log| {
      assert log[..k] == log;
    } else {
      SafePrefix(log[..|log| - 1], k);
      assert log[..|log| - 1][..k] == log[..k];
    }
  }

  lemma SafeAt(log: seq<Event>, k: nat)
    requires Safe(log) && k < |log|
    ensures Safe(log[..k]) && Extends(log[..k], log[k])
  {
    hide Extends;
    SafePrefix(log, k + 1);
    assert log[..k + 1][..k] == log[..k];
  }

  lemma {:induction false} FindSome(log: seq<Event>, id: Id)
    ensures Find(log, id).Some? <==> exists e :: e in log && e.id == id
  {
    if log != [] {
      FindSome(log[..|log| - 1], id);
      assert log == log[..|log| - 1] + [log[|log| - 1]];
    }
  }

  /** The current version of a subject is the number of its events. */
  lemma {:induction false} CurrentIsCount(log: seq<Event>, subject: string)
    requires Safe(log)
    ensures CurrentVersion(log, subject) == Versions(log, subject)
    ensures Latest(log, subject).None? <==> Versions(log, subject) == 0
  {
    if log != [] { CurrentIsCount(log[..|log| - 1], subject); }
  }

  /** The versions of a subject are exactly 1..n, each taken once. */
  lemma {:induction false} VersionsAreOneToN(log: seq<Event>, subject: string, v: int)
    requires Safe(log)
    ensures (exists e :: e in log && e.subject == subject && e.toVersion == v) <==> 1 <= v <= Versions(log, subject)
  {
    if log != [] {
      var init, last := log[..|log| - 1], log[|log| - 1];
      VersionsAreOneToN(init, subject, v);
      assert log == init + [last];
      if 1 <= v <= Versions(log, subject) && v > Versions(init, subject) {
        assert last in log && last.subject == subject && last.toVersion == v;
      }
    }
  }

  lemma VersionsGrow(log: seq<Event>, subject: string, i: nat, j: nat)
    requires i <= j <= |log|
    ensures Versions(log[..i], subject) <= Versions(log[..j], subject)
    decreases j
  {
    if i < j {
      VersionsGrow(log, subject, i, j - 1);
      assert log[..j][..j - 1] == log[..j - 1];
    }
  }

  /** Within a subject, later events carry strictly greater versions; ids never repeat. */
  lemma LaterIsGreater(log: seq<Event>, i: nat, j: nat)
    requires Safe(log) && i < j < |log|
    ensures log[i].id != log[j].id
    ensures log[i].subject == log[j].subject ==> log[i].toVersion < log[j].toVersion
  {
    hide Safe, WellBound, Reactivates;
    SafeAt(log, i);
    SafeAt(log, j);
    FindSome(log[..j], log[j].id);
    assert log[..j][i] == log[i];
    assert log[..i + 1][..i] == log[..i];
    VersionsGrow(log, log[j].subject, i + 1, j);
  }

  lemma FindExact(log: seq<Event>, e: Event)
    requires Safe(log) && e in log
    ensures Find(log, e.id) == Some(e)
  {
    FindSome(log, e.id);
    var found := Find(log, e.id).value;
    var i :| 0 <= i < |log| && log[i] == e;
    var j :| 0 <= j < |log| && log[j] == found;
    if i < j { LaterIsGreater(log, i, j); }
    if j < i { LaterIsGreater(log, j, i); }
  }

  /** No approval version is spent twice on a subject: two events of one subject under the same
      approval version are the same event. */
  lemma ApprovalSpentOnce(log: seq<Event>, a: Event, b: Event)
    requires Safe(log) && a in log && b in log
    requires a.subject == b.subject && a.stamp.version == b.stamp.version
    ensures a == b
  {
    var i :| 0 <= i < |log| && log[i] == a;
    var j :| 0 <= j < |log| && log[j] == b;
    SafeAt(log, i);
    SafeAt(log, j);
    if i < j { LaterIsGreater(log, i, j); }
    if j < i { LaterIsGreater(log, j, i); }
  }

  // ----- rollback ancestry

  /** The place of the event a rollback names. */
  lemma TargetBefore(log: seq<Event>, k: nat) returns (t: nat)
    requires Safe(log) && k < |log| && log[k].rollbackOf.Some?
    ensures t < k && log[t].id == log[k].rollbackOf.value
    ensures log[t].subject == log[k].subject && log[t].payload == log[k].payload
    ensures log[t].toVersion < log[k].toVersion
  {
    SafeAt(log, k);
    var target := Find(log[..k], log[k].rollbackOf.value).value;
    t :| 0 <= t < k && log[..k][t] == target;
    LaterIsGreater(log, t, k);
  }

  /** A chain of positions, each event rolling back to the next one of a strictly lower
      version, all under the subject and the payload of e, ending at a promotion. */
  ghost predicate Ancestry(log: seq<Event>, chain: seq<nat>, e: Event) {
    && chain != [] && chain[0] < |log|
    && var x := log[chain[0]];
       && x.subject == e.subject && x.payload == e.payload
       && if |chain| == 1 then x.kind == Promote
          else && chain[1] < |log|
               && x.rollbackOf == Some(log[chain[1]].id) && log[chain[1]].toVersion < x.toVersion
               && Ancestry(log, chain[1..], e)
  }

  /** Following rollbacks from any event strictly decreases the version, stays within the
      subject and the payload, and ends at a promotion of that very payload. */
  lemma {:induction false} AncestryOf(log: seq<Event>, k: nat, e: Event) returns (chain: seq<nat>)
    requires Safe(log) && k < |log|
    requires log[k].subject == e.subject && log[k].payload == e.payload
    ensures chain != [] && chain[0] == k && Ancestry(log, chain, e)
    decreases k
  {
    SafeAt(log, k);
    if log[k].rollbackOf.None? {
      chain := [k];
    } else {
      var t := TargetBefore(log, k);
      var rest := AncestryOf(log, t, e);
      chain := [k] + rest;
      assert chain[1..] == rest;
    }
  }

  // ----- appending keeps the log safe

  /** What is known of an event between the gate's read and its append: it was the next version
      of some earlier log. */
  ghost predicate Proposed(log: seq<Event>, e: Event) {
    WellBound(e) && Reactivates(log, e) && e.toVersion <= Versions(log, e.subject) + 1
  }

  /** Appending a proposed event keeps the log safe and never violates a constraint; it is
      committed exactly when its id is new and its version is still the next one. */
  lemma AppendIsSafe(log: seq<Event>, e: Event)
    requires Safe(log) && Proposed(log, e)
    ensures Safe(LogAfter(log, e))
    ensures AppendResult(log, e) != Err(ConstraintViolation)
    ensures LogAfter(log, e) != log <==> Find(log, e.id).None? && e.toVersion == Versions(log, e.subject) + 1
    ensures LogAfter(log, e) != log ==> LogAfter(log, e) == log + [e]
  {
    hide Safe;
    VersionsAreOneToN(log, e.subject, e.toVersion);
    if Find(log, e.id).None? {
      if e.toVersion == Versions(log, e.subject) + 1 {
        assert !VersionTaken(log, e);
        SafeSnoc(log, e);
        assert |log + [e]| == |log| + 1;
      } else {
        var x :| x in log && x.subject == e.subject && x.toVersion == e.toVersion;
        assert SameVersion(x, e);
      }
    }
  }

  /** A lost race names the event now current. */
  lemma LostNamesCurrent(log: seq<Event>, e: Event)
    requires Safe(log)
    requires AppendResult(log, e).Ok? && AppendResult(log, e).value.decision == LostConcurrentRace
    ensures AppendResult(log, e).value.event.Some?
    ensures var x := AppendResult(log, e).value.event.value;
            x in log && x.subject == e.subject && x.toVersion == Versions(log, e.subject)
  {
    hide Safe, RowAccepted;
    CurrentIsCount(log, e.subject);
    var x :| x in log && SameVersion(x, e);
    VersionsAreOneToN(log, e.subject, e.toVersion);
  }

  /** What every append is answered, on any log: the id is looked at first, then the row, then the
      version, then the event a rollback names, which may be the row itself. */
  lemma AppendIff(log: seq<Event>, e: Event)
    ensures var r, found := AppendResult(log, e), Find(log, e.id);
            var taken := exists x :: x in log && x.subject == e.subject && x.toVersion == e.toVersion;
            var dangling := e.rollbackOf.Some? && e.rollbackOf.value != e.id
                            && forall x | x in log :: x.id != e.rollbackOf.value;
            && (r == Err(IdentityMismatch) <==> found.Some? && found.value != e)
            && (r == Ok(Appended(Replayed, Some(e))) <==> found == Some(e))
            && (r == Err(ConstraintViolation) <==> found.None? && (!RowAccepted(e) || (!taken && dangling)))
            && (r == Ok(Appended(LostConcurrentRace, Latest(log, e.subject))) <==>
                  found.None? && RowAccepted(e) && taken)
            && (r == Ok(Appended(Promoted, Some(e))) <==> found.None? && RowAccepted(e) && !taken && !dangling)
            && LogAfter(log, e) == (if r == Ok(Appended(Promoted, Some(e))) then log + [e] else log)
  {
    hide RowAccepted;
    if e.rollbackOf.Some? { FindSome(log, e.rollbackOf.value); }
    assert VersionTaken(log, e) <==> exists x :: x in log && x.subject == e.subject && x.toVersion == e.toVersion by {
      if x :| x in log && x.subject == e.subject && x.toVersion == e.toVersion { assert SameVersion(x, e); }
    }
  }

  /** Appending is idempotent: the same event appended again is a replay of the stored one and
      leaves the log alone, and so does any other event under its id, which is refused. */
  lemma AppendTwice(log: seq<Event>, e: Event, other: Event)
    requires LogAfter(log, e) != log && other.id == e.id && other != e
    ensures AppendResult(LogAfter(log, e), e) == Ok(Appended(Replayed, Some(e)))
    ensures LogAfter(LogAfter(log, e), e) == LogAfter(log, e)
    ensures AppendResult(LogAfter(log, e), other) == Err(IdentityMismatch)
    ensures LogAfter(LogAfter(log, e), other) == LogAfter(log, e)
  {
  }
}
