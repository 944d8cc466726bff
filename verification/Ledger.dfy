/** The hash-chained system log: verifying it, committing to it and rolling back on it. The
    hash of a record is an uninterpreted function. */
module Ledger {
  import opened Sequences
  import opened WhiteSpace

  /** The link a record carries: none at all, null or another value that is not a text, or a
      text. */
  datatype Prev = Absent | NotText | Text(text: string)

  /** A record: the fields the ledger commands look at, absent ones as `None`, and the rest. */
  datatype Record = Record(
    id: Option<string>, prev: Prev, recordType: Option<string>, commitmentType: Option<string>,
    subject: Option<string>, references: seq<string>, rest: string)

  const GENESIS := "genesis"
  const COMMITMENT := "CommitmentRecord"
  const ACTIVATION := "model_pack_activation"
  const ROLLBACK := "model_pack_rollback"

  type Hash = Record -> string

  /** What is assumed of the hash: different records have different hashes, none of them the
      word that marks the first record. */
  ghost predicate Collisionless(hash: Hash) {
    && (forall a, b :: hash(a) == hash(b) ==> a == b)
    && (forall a :: hash(a) != GENESIS)
  }

  // ---------------------------------------------------------- verification

  /** The text a record is compared by: an absent link counts as the empty text, and a link
      that is not a text equals none. */
  function PrevLink(r: Record): Option<string> {
    match r.prev
    case Absent => Some("")
    case NotText => None
    case Text(s) => Some(s)
  }

  /** The value that links a record to the ledger before it. */
  function Link(before: seq<Record>, hash: Hash): string {
    if before == [] then GENESIS else hash(before[|before| - 1])
  }

  predicate Linked(records: seq<Record>, i: nat, hash: Hash)
    requires i < |records|
  {
    PrevLink(records[i]) == Some(Link(records[..i], hash))
  }

  predicate Intact(records: seq<Record>, hash: Hash) {
    forall i: nat :: i < |records| ==> Linked(records, i, hash)
  }

  predicate BrokenAt(records: seq<Record>, i: nat, hash: Hash) {
    i < |records| && !Linked(records, i, hash) && Intact(records[..i], hash)
  }

  /** The verdict: intact, or else the first broken record. */
  datatype Report = Whole(checked: nat) | Broken(index: nat, id: Option<string>, checked: nat)

  predicate IsReport(r: Report, records: seq<Record>, hash: Hash) {
    match r
    case Whole(checked) => Intact(records, hash) && checked == |records|
    case Broken(i, id, checked) => BrokenAt(records, i, hash) && id == records[i].id && checked == i + 1
  }

  lemma LinkedInPrefix(records: seq<Record>, n: nat, i: nat, hash: Hash)
    requires i < n <= |records|
    ensures Linked(records[..n], i, hash) <==> Linked(records, i, hash)
  {
    assert records[..n][..i] == records[..i];
  }

  lemma IntactPrefix(records: seq<Record>, n: nat, hash: Hash)
    requires n <= |records|
    ensures Intact(records[..n], hash) <==> forall i: nat :: i < n ==> Linked(records, i, hash)
  {
    forall i: nat | i < n
      ensures Linked(records[..n], i, hash) <==> Linked(records, i, hash)
    {
      LinkedInPrefix(records, n, i, hash);
    }
  }

  /** Follows the chain to the first record that does not carry the hash of the one before. */
  method VerifyChain(records: seq<Record>, hash: Hash) returns (r: Report)
    ensures IsReport(r, records, hash)
  {
    if records == [] { return Whole(0); }
    var first := records[0];
    assert records[..0] == [];
    if first.prev != Text(GENESIS) { return Broken(0, first.id, 1); }
    for i := 1 to |records|
      invariant forall j: nat :: j < i ==> Linked(records, j, hash)
    {
      if PrevLink(records[i]) != Some(hash(records[i - 1])) {
        IntactPrefix(records, i, hash);
        return Broken(i, records[i].id, i + 1);
      }
    }
    r := Whole(|records|);
  }

  /** There is one right report. */
  lemma ReportIsUnique(r: Report, s: Report, records: seq<Record>, hash: Hash)
    requires IsReport(r, records, hash) && IsReport(s, records, hash)
    ensures r == s
  {
    if r.Broken? { IntactPrefix(records, r.index, hash); }
    if s.Broken? { IntactPrefix(records, s.index, hash); }
  }

  // ------------------------------------------------------------ commitment

  /** A record that two intact ledgers share stands at the same place in both, after the same
      history. */
  lemma {:induction false} SharedRecordSharesHistory(a: seq<Record>, b: seq<Record>, i: nat, j: nat, hash: Hash)
    requires Collisionless(hash) && Intact(a, hash) && Intact(b, hash)
    requires i < |a| && j < |b| && a[i] == b[j]
    ensures i == j && a[..i + 1] == b[..j + 1]
  {
    assert Linked(a, i, hash) && Linked(b, j, hash);
    if i > 0 && j > 0 {
      SharedRecordSharesHistory(a, b, i - 1, j - 1, hash);
    }
    if i == j {
      assert a[..i + 1] == a[..i] + [a[i]] && b[..j + 1] == b[..j] + [b[j]];
    }
  }

  /** The last record commits to the whole ledger. */
  lemma LastRecordCommits(a: seq<Record>, b: seq<Record>, hash: Hash)
    requires Collisionless(hash) && Intact(a, hash) && Intact(b, hash)
    requires a != [] && b != [] && a[|a| - 1] == b[|b| - 1]
    ensures a == b
  {
    SharedRecordSharesHistory(a, b, |a| - 1, |b| - 1, hash);
    assert a[..|a|] == a && b[..|b|] == b;
  }

  lemma NoRecordTwice(records: seq<Record>, hash: Hash)
    requires Collisionless(hash) && Intact(records, hash)
    ensures NoDup(records)
  {
    forall i, j | 0 <= i < j < |records|
      ensures records[i] != records[j]
    {
      if records[i] == records[j] { SharedRecordSharesHistory(records, records, i, j, hash); }
    }
  }

  // -------------------------------------------------------------- tampering

  /** The records after `i` that are the same in both ledgers are judged alike from the one
      after the next. */
  lemma SameBefore(a: seq<Record>, b: seq<Record>, n: nat, hash: Hash)
    requires n <= |a| && n <= |b| && a[..n] == b[..n]
    ensures Intact(a, hash) ==> Intact(b[..n], hash)
    ensures Intact(a, hash) && n < |b| && !Linked(b, n, hash) ==> BrokenAt(b, n, hash)
  {
    IntactPrefix(a, n, hash);
  }

  /** Replacing one record of an intact ledger is reported at that record when its link
      changed, at the next one when there is a next one, and otherwise not at all. */
  lemma ReplacementReported(records: seq<Record>, i: nat, x: Record, hash: Hash)
    requires Collisionless(hash) && Intact(records, hash) && i < |records| && x != records[i]
    ensures PrevLink(x) != PrevLink(records[i]) ==> BrokenAt(records[i := x], i, hash)
    ensures PrevLink(x) == PrevLink(records[i]) && i + 1 < |records| ==> BrokenAt(records[i := x], i + 1, hash)
    ensures PrevLink(x) == PrevLink(records[i]) && i + 1 == |records| ==> Intact(records[i := x], hash)
  {
    var t := records[i := x];
    assert t[..i] == records[..i];
    assert Linked(records, i, hash);
    SameBefore(records, t, i, hash);
    if PrevLink(x) == PrevLink(records[i]) {
      assert Linked(t, i, hash);
      OneMoreIntact(t, i, hash);
      if i + 1 < |records| {
        assert Linked(records, i + 1, hash);
        assert records[..i + 1][i] == records[i] && t[..i + 1][i] == x;
      } else {
        assert t[..i + 1] == t;
      }
    }
  }

  lemma OneMoreIntact(records: seq<Record>, n: nat, hash: Hash)
    requires n < |records| && Intact(records[..n], hash) && Linked(records, n, hash)
    ensures Intact(records[..n + 1], hash)
  {
    IntactPrefix(records, n, hash);
    IntactPrefix(records, n + 1, hash);
  }

  /** Removing a record that is not the last is reported at its place; removing the last one
      is not noticed. */
  lemma RemovalReported(records: seq<Record>, i: nat, hash: Hash)
    requires Collisionless(hash) && Intact(records, hash) && i < |records|
    ensures var t := records[..i] + records[i + 1..];
      if i + 1 < |records| then BrokenAt(t, i, hash) else Intact(t, hash)
  {
    var t := records[..i] + records[i + 1..];
    assert t[..i] == records[..i];
    SameBefore(records, t, i, hash);
    if i + 1 < |records| {
      assert t[i] == records[i + 1] && Linked(records, i + 1, hash);
      assert records[..i + 1][i] == records[i];
      NoRecordTwice(records, hash);
    } else {
      assert t == records[..i];
    }
  }

  /** Inserting a record anywhere but at the end is reported there or at the next record. */
  lemma InsertionReported(records: seq<Record>, i: nat, x: Record, hash: Hash)
    requires Collisionless(hash) && Intact(records, hash) && i < |records|
    ensures var t := records[..i] + [x] + records[i..];
      if PrevLink(x) == PrevLink(records[i]) then BrokenAt(t, i + 1, hash) else BrokenAt(t, i, hash)
  {
    var t := records[..i] + [x] + records[i..];
    assert t[..i] == records[..i] && t[i] == x && t[i + 1] == records[i];
    assert Linked(records, i, hash);
    SameBefore(records, t, i, hash);
    if PrevLink(x) == PrevLink(records[i]) {
      OneMoreIntact(t, i, hash);
      assert t[..i + 1][i] == x;
      if i > 0 { LinksDiffer(records, i - 1, i, hash); }
    }
  }

  lemma LinksDiffer(records: seq<Record>, i: nat, j: nat, hash: Hash)
    requires Collisionless(hash) && Intact(records, hash) && i < j < |records|
    ensures PrevLink(records[i]) != PrevLink(records[j])
  {
    assert Linked(records, i, hash) && Linked(records, j, hash);
    NoRecordTwice(records, hash);
    if i > 0 { assert records[..i][i - 1] == records[i - 1]; }
    assert records[..j][j - 1] == records[j - 1];
  }

  // -------------------------------------------------------------- appending

  /** Appending a record that carries the link of the ledger never changes the verdict. */
  lemma AppendKeepsVerdict(records: seq<Record>, x: Record, hash: Hash)
    requires x.prev == Text(Link(records, hash))
    ensures Intact(records + [x], hash) <==> Intact(records, hash)
    ensures forall i: nat :: BrokenAt(records + [x], i, hash) <==> BrokenAt(records, i, hash)
  {
    var t, n := records + [x], |records|;
    assert t[..n] == records && t[..n + 1] == t;
    assert Linked(t, n, hash);
    IntactPrefix(t, n, hash);
    IntactPrefix(t, n + 1, hash);
    forall i: nat
      ensures BrokenAt(t, i, hash) <==> BrokenAt(records, i, hash)
    {
      if i < n {
        LinkedInPrefix(t, n, i, hash);
        assert t[..i] == records[..i];
      }
    }
  }

  // --------------------------------------------------------------- commands

  /** What the commands take from the artifact file and the command line: the subject, the
      new record's identifier, the rest of the record, and the commitment type if given. */
  datatype Request = Request(subject: string, id: string, rest: string, commitmentType: Option<string>)

  /** A command on the ledger; `None` for an artifact file that does not exist. */
  datatype Command = Commit(what: Option<Request>) | Rollback(what: Option<Request>, confirmation: string)

  /** How a command ends: with exit code 0 or 1, or by an exception. */
  datatype Exit = Done | Refused | Failed

  predicate Activates(r: Record, subject: string) {
    r.recordType == Some(COMMITMENT) && r.commitmentType == Some(ACTIVATION) && r.subject == Some(subject)
  }

  /** The latest activation of a subject. */
  function PriorActivation(records: seq<Record>, subject: string): (r: Option<Record>)
    ensures r.None? <==> forall x :: x in records ==> !Activates(x, subject)
    ensures r.Some? ==> exists i :: 0 <= i < |records| && records[i] == r.value && Activates(records[i], subject)
                                    && forall j :: i < j < |records| ==> !Activates(records[j], subject)
  {
    if records == [] then None
    else if Activates(records[|records| - 1], subject) then
      assert records[|records| - 1] in records;
      Some(records[|records| - 1])
    else
      assert forall x :: x in records ==> x in records[..|records| - 1] || x == records[|records| - 1];
      PriorActivation(records[..|records| - 1], subject)
  }

  function TypeOrDefault(t: Option<string>): string {
    if t.None? || t.value == "" then ACTIVATION else t.value
  }

  function CommitmentRecord(req: Request, kind: string, references: seq<string>, prev: string): Record {
    Record(Some(req.id), Text(prev), Some(COMMITMENT), Some(kind), Some(req.subject), references, req.rest)
  }

  function RollbackRecord(records: seq<Record>, req: Request, hash: Hash): Record {
    var prior := PriorActivation(records, req.subject);
    var references := if prior.Some? && prior.value.id.Some? then [prior.value.id.value] else [];
    CommitmentRecord(req, ROLLBACK, references, Link(records, hash))
  }

  /** The ledger and the exit after a command. */
  function After(records: seq<Record>, c: Command, hash: Hash): (seq<Record>, Exit) {
    if c.what.None? then (records, Refused)
    else
      var req := c.what.value;
      match c
      case Commit(_) =>
        (records + [CommitmentRecord(req, TypeOrDefault(req.commitmentType), [], Link(records, hash))], Done)
      case Rollback(_, confirmation) =>
        var prior := PriorActivation(records, req.subject);
        if prior.Some? && prior.value.id.None? then (records, Failed)
        else if Trim(confirmation) != "ROLLBACK" then (records, Refused)
        else (records + [RollbackRecord(records, req, hash)], Done)
  }

  function AfterAll(records: seq<Record>, cs: seq<Command>, hash: Hash): seq<Record>
    decreases |cs|
  {
    if cs == [] then records else AfterAll(After(records, cs[0], hash).0, cs[1..], hash)
  }

  /** A ledger file. */
  class LedgerFile {
    var records: seq<Record>

    constructor ()
      ensures records == []
    {
      records := [];
    }

    method Append(r: Record)
      modifies this
      ensures records == old(records) + [r]
    {
      records := records + [r];
    }

    method PrevHash(hash: Hash) returns (prev: string)
      ensures prev == Link(records, hash)
    {
      prev := if records != [] then hash(records[|records| - 1]) else GENESIS;
    }

    /** The search from the end for the latest activation. */
    method FindPriorActivation(subject: string) returns (r: Option<Record>)
      ensures r == PriorActivation(records, subject)
    {
      var n := |records|;
      assert records[..n] == records;
      while n > 0
        invariant n <= |records| && PriorActivation(records[..n], subject) == PriorActivation(records, subject)
      {
        assert records[..n][..n - 1] == records[..n - 1];
        n := n - 1;
        if Activates(records[n], subject) { return Some(records[n]); }
      }
      r := None;
    }

    method CommitArtifact(what: Option<Request>, hash: Hash) returns (exit: Exit)
      modifies this
      ensures (records, exit) == After(old(records), Commit(what), hash)
    {
      if what.None? { return Refused; }
      var prev := PrevHash(hash);
      Append(CommitmentRecord(what.value, TypeOrDefault(what.value.commitmentType), [], prev));
      exit := Done;
    }

    /** Rolls back after a confirmation; showing a prior record without an identifier raises. */
    method RollbackArtifact(what: Option<Request>, confirmation: string, hash: Hash) returns (exit: Exit)
      modifies this
      ensures (records, exit) == After(old(records), Rollback(what, confirmation), hash)
    {
      if what.None? { return Refused; }
      var prior := FindPriorActivation(what.value.subject);
      if prior.Some? && prior.value.id.None? { return Failed; }
      if Trim(confirmation) != "ROLLBACK" { return Refused; }
      var prev := PrevHash(hash);
      var references := if prior.Some? then [prior.value.id.value] else [];
      Append(CommitmentRecord(what.value, ROLLBACK, references, prev));
      exit := Done;
    }
  }

  // ------------------------------------------------- what a command does

  /** The record an exit of `Done` adds for a request, field by field. */
  predicate IsAdded(x: Record, records: seq<Record>, req: Request, hash: Hash) {
    && x.id == Some(req.id) && x.recordType == Some("CommitmentRecord") && x.subject == Some(req.subject)
    && x.rest == req.rest
    && x.prev == Text(if records == [] then "genesis" else hash(records[|records| - 1]))
  }

  /** A command adds one record or leaves the ledger alone: it does so for a missing file, and
      a rollback also does without the exact confirmation. */
  lemma CommandEffect(records: seq<Record>, c: Command, hash: Hash)
    ensures var (t, exit) := After(records, c, hash);
      && (exit != Done ==> t == records)
      && (exit == Done ==> c.what.Some? && |t| == |records| + 1 && t[..|records|] == records
                           && IsAdded(t[|records|], records, c.what.value, hash))
      && (c.what.None? ==> exit == Refused)
      && (c.Commit? && c.what.Some? ==> exit == Done)
      && (c.Rollback? && c.what.Some? ==>
            var prior := PriorActivation(records, c.what.value.subject);
            exit == Done <==> Trim(c.confirmation) == "ROLLBACK" && (prior.Some? ==> prior.value.id.Some?))
  {
    if After(records, c, hash).1 == Done {
      assert After(records, c, hash).0[..|records|] == records;
    }
  }

  /** The type of the record added: as given and by default an activation, or a rollback. */
  lemma AddedType(records: seq<Record>, c: Command, hash: Hash)
    requires After(records, c, hash).1 == Done
    ensures var x, given := After(records, c, hash).0[|records|], c.what.value.commitmentType;
      && (c.Rollback? ==> x.commitmentType == Some("model_pack_rollback"))
      && (c.Commit? ==> x.references == [])
      && (c.Commit? && given in {None, Some("")} ==> x.commitmentType == Some("model_pack_activation"))
      && (c.Commit? && given !in {None, Some("")} ==> x.commitmentType == given)
  {
  }

  /** The prior activation is the last record that is a commitment to activate the subject. */
  lemma PriorIsLatest(records: seq<Record>, subject: string, i: nat)
    requires i < |records|
    requires records[i].recordType == Some("CommitmentRecord") && records[i].subject == Some(subject)
    requires records[i].commitmentType == Some("model_pack_activation")
    requires forall j :: i < j < |records| ==> var r := records[j];
      r.recordType != Some("CommitmentRecord") || r.subject != Some(subject)
      || r.commitmentType != Some("model_pack_activation")
    ensures PriorActivation(records, subject) == Some(records[i])
  {
    assert Activates(records[i], subject);
  }

  /** A record is linked when it carries the hash of the record before it, or the word that
      marks the first; a record without a link passes only for an empty hash. */
  lemma LinkedIff(records: seq<Record>, i: nat, hash: Hash)
    requires i < |records|
    ensures var link := if i == 0 then "genesis" else hash(records[i - 1]);
      Linked(records, i, hash) <==> records[i].prev == Text(link) || (records[i].prev == Absent && link == "")
  {
    if i > 0 { assert records[..i][i - 1] == records[i - 1]; }
  }

  /** No sequence of commands changes the verdict on a ledger, its first broken record, or any
      record already there. */
  lemma {:induction false} CommandsKeepVerdict(records: seq<Record>, cs: seq<Command>, hash: Hash)
    ensures var t := AfterAll(records, cs, hash);
      && records <= t
      && (Intact(t, hash) <==> Intact(records, hash))
      && (forall i: nat :: BrokenAt(t, i, hash) <==> BrokenAt(records, i, hash))
    decreases |cs|
  {
    if cs != [] {
      var next := After(records, cs[0], hash).0;
      if next != records { AppendKeepsVerdict(records, next[|records|], hash); }
      CommandsKeepVerdict(next, cs[1..], hash);
    }
  }

  /** A ledger built by commands from nothing is intact. */
  lemma BuiltIsIntact(cs: seq<Command>, hash: Hash)
    ensures Intact(AfterAll([], cs, hash), hash)
  {
    CommandsKeepVerdict([], cs, hash);
  }

  predicate Touches(c: Command, subject: string) {
    && c.Commit? && c.what.Some? && c.what.value.subject == subject
    && TypeOrDefault(c.what.value.commitmentType) == ACTIVATION
  }

  lemma PriorSnoc(records: seq<Record>, x: Record, subject: string)
    ensures PriorActivation(records + [x], subject) ==
            if Activates(x, subject) then Some(x) else PriorActivation(records, subject)
  {
    assert (records + [x])[..|records|] == records;
  }

  lemma OtherKeepsPrior(records: seq<Record>, c: Command, subject: string, hash: Hash)
    requires !Touches(c, subject)
    ensures PriorActivation(After(records, c, hash).0, subject) == PriorActivation(records, subject)
  {
    var next := After(records, c, hash).0;
    if next != records {
      var x := next[|records|];
      assert next == records + [x];
      NotActivating(records, c, subject, hash);
      PriorSnoc(records, x, subject);
    }
  }

  lemma NotActivating(records: seq<Record>, c: Command, subject: string, hash: Hash)
    requires !Touches(c, subject) && After(records, c, hash).1 == Done
    ensures !Activates(After(records, c, hash).0[|records|], subject)
  {
    assert ROLLBACK[11] != ACTIVATION[11];
  }

  lemma {:induction false} OthersKeepPrior(records: seq<Record>, cs: seq<Command>, subject: string, hash: Hash)
    requires forall c :: c in cs ==> !Touches(c, subject)
    ensures PriorActivation(AfterAll(records, cs, hash), subject) == PriorActivation(records, subject)
    decreases |cs|
  {
    if cs != [] {
      OtherKeepsPrior(records, cs[0], subject, hash);
      OthersKeepPrior(After(records, cs[0], hash).0, cs[1..], subject, hash);
    }
  }

  /** A confirmed rollback refers to the latest activation committed for its subject, however
      many other commands came between. */
  lemma RollbackNamesLastCommit(records: seq<Record>, commit: Command, cs: seq<Command>,
                                                   back: Request, confirmation: string, hash: Hash)
    requires Touches(commit, back.subject) && forall c :: c in cs ==> !Touches(c, back.subject)
    requires Trim(confirmation) == "ROLLBACK"
    ensures var before := AfterAll(After(records, commit, hash).0, cs, hash);
      After(before, Rollback(Some(back), confirmation), hash)
      == (before + [CommitmentRecord(back, ROLLBACK, [commit.what.value.id], Link(before, hash))], Done)
  {
    var committed := After(records, commit, hash).0;
    PriorSnoc(records, committed[|records|], back.subject);
    OthersKeepPrior(committed, cs, back.subject, hash);
  }
}
