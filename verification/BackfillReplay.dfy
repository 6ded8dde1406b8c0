/** What the backfill's two passes insert, in the columns of the tables alone: which audit rows are
    replayed and when that fails, what the rows it writes hold, and every link after a run. */
module BackfillReplay {
  import opened Js
  import opened Backfill

  /** The audit row records that the finding concerns something, and no test wrote it. */
  predicate Records(c: Change) {
    c.targetKind == "claim" && c.after.relation == Some("about") && c.after.entityId != None && c.changedBy != "test"
  }

  /** It records that the finding concerns the entity, in the role. */
  ghost predicate RecordsLink(text: Text, c: Change, l: Link) {
    && Records(c)
    && c.after.entityId.value.Some? && text.parse(c.after.entityId.value.value) == Some(l.entity)
    && text.parse(c.targetId) == Some(l.finding)
    && l.role == (if c.after.role.Some? then c.after.role.value else "about")
  }

  /** Row i is the first that records the link. */
  ghost predicate FirstRecord(text: Text, log: seq<Change>, l: Link, i: nat) {
    i < |log| && RecordsLink(text, log[i], l) && forall j :: 0 <= j < i ==> !RecordsLink(text, log[j], l)
  }

  ghost predicate RecordedIn(text: Text, log: seq<Change>, n: nat, l: Link)
    requires n <= |log|
  {
    exists i :: 0 <= i < n && RecordsLink(text, log[i], l)
  }

  lemma CandidateRecords(text: Text, c: Change)
    ensures Candidate(c) <==> Records(c)
    ensures forall l :: Candidate(c) && LinkOf(text, c) == Some(l) <==> RecordsLink(text, c, l)
  {
  }

  // ---- pass 1 --------------------------------------------------------------

  /** A replay that goes through leaves exactly the links that were there and those recorded. */
  lemma {:induction false} ReplayedExactly(text: Text, t: Tables, n: nat, l: Link)
    requires n <= |t.log| && Replayed(text, t, n).Some?
    ensures l in Replayed(text, t, n).value <==> l in t.links || RecordedIn(text, t.log, n, l)
  {
    if n > 0 {
      ReplayedExactly(text, t, n - 1, l);
      CandidateRecords(text, t.log[n - 1]);
      hide LinkOf, Candidate, RecordsLink;
      assert RecordedIn(text, t.log, n, l) <==> RecordedIn(text, t.log, n - 1, l) || RecordsLink(text, t.log[n - 1], l);
    }
  }

  /** A replayed link is written with full confidence, under the name of the first who recorded it;
      a link that was there keeps its row. */
  lemma {:induction false} ReplayedRows(text: Text, t: Tables, n: nat, l: Link, i: nat)
    requires n <= |t.log| && Replayed(text, t, n).Some?
    ensures l in t.links ==> l in Replayed(text, t, n).value && Replayed(text, t, n).value[l] == t.links[l]
    ensures l !in t.links && i < n && FirstRecord(text, t.log, l, i) ==>
      l in Replayed(text, t, n).value && Replayed(text, t, n).value[l] == Row(1.0, t.log[i].changedBy)
  {
    if n > 0 {
      ReplayedRows(text, t, n - 1, l, i);
      ReplayedExactly(text, t, n - 1, l);
      CandidateRecords(text, t.log[n - 1]);
      hide LinkOf, Candidate, RecordsLink;
      if i == n - 1 && FirstRecord(text, t.log, l, i) {
        assert !RecordedIn(text, t.log, n - 1, l);
      }
    }
  }

  /** The row cannot be replayed: a null entity, a text that is no key, or a key that is not there
      for a link that is new. */
  ghost predicate Breaks(text: Text, t: Tables, c: Change) {
    Records(c) && !exists l :: RecordsLink(text, c, l) && (l in t.links || (l.finding in t.findings && l.entity in t.entities))
  }

  lemma {:induction false} ReplayedKeys(text: Text, t: Tables, n: nat, l: Link)
    requires n <= |t.log| && Replayed(text, t, n).Some? && l in Replayed(text, t, n).value
    ensures l in t.links || (l.finding in t.findings && l.entity in t.entities)
  {
    if n > 0 {
      if l in Replayed(text, t, n - 1).value {
        ReplayedKeys(text, t, n - 1, l);
      }
      hide LinkOf, Candidate;
    }
  }

  /** The replay fails as a whole if and only if some row of the log breaks it. */
  lemma {:induction false} ReplayFailsExactly(text: Text, t: Tables, n: nat)
    requires n <= |t.log|
    ensures Replayed(text, t, n).None? <==> exists i :: 0 <= i < n && Breaks(text, t, t.log[i])
  {
    if n > 0 {
      ReplayFailsExactly(text, t, n - 1);
      var c, before := t.log[n - 1], Replayed(text, t, n - 1);
      ReplayStays(text, t, n);
      if before.Some? {
        StepFails(text, t, n);
      }
      hide Replayed, Breaks;
      assert (exists i :: 0 <= i < n && Breaks(text, t, t.log[i])) <==>
        (exists i :: 0 <= i < n - 1 && Breaks(text, t, t.log[i])) || Breaks(text, t, c);
    }
  }

  lemma ReplayStays(text: Text, t: Tables, n: nat)
    requires 0 < n <= |t.log|
    ensures Replayed(text, t, n - 1).None? ==> Replayed(text, t, n).None?
  {
  }

  lemma StepFails(text: Text, t: Tables, n: nat)
    requires 0 < n <= |t.log| && Replayed(text, t, n - 1).Some?
    ensures Replayed(text, t, n).None? <==> Breaks(text, t, t.log[n - 1])
  {
    var c, links := t.log[n - 1], Replayed(text, t, n - 1).value;
    CandidateRecords(text, c);
    var l := LinkOf(text, c);
    if l.Some? {
      assert forall k :: RecordsLink(text, c, k) ==> k == l.value;
      ReplayedRows(text, t, n - 1, l.value, 0);
      if l.value in links {
        ReplayedKeys(text, t, n - 1, l.value);
      }
    }
    hide LinkOf, RecordsLink, Records;
  }

  // ---- pass 2 --------------------------------------------------------------

  /** Two different evidence rows of one finding. */
  ghost predicate TwoRows(t: Tables, e: Evidence, e': Evidence) {
    e in t.evidence && e' in t.evidence && e != e' && e.finding == e'.finding
  }

  lemma AtLeastTwo(s: set<Evidence>)
    ensures |s| >= 2 <==> exists e, e' :: e in s && e' in s && e != e'
  {
    if e, e' :| e in s && e' in s && e != e' {
      assert {e, e'} <= s;
      CardinalityMono({e, e'}, s);
    }
    if |s| >= 2 {
      var e :| e in s;
      var rest := s - {e};
      assert |rest| >= 1;
      var e' :| e' in rest;
      assert e' in s && e != e';
    }
  }

  lemma CardinalityMono(a: set<Evidence>, b: set<Evidence>)
    requires a <= b
    ensures |a| <= |b|
  {
    assert b == a + (b - a);
  }

  /** The second pass runs if and only if some finding has no link at all and some finding, be it
      another one, has two different evidence rows. */
  lemma GateExactly(t: Tables)
    ensures GateOpen(t) <==>
      && (exists f :: f in t.findings && forall l :: l in t.links ==> l.finding != f)
      && (exists e, e' :: TwoRows(t, e, e'))
  {
    if e, e' :| TwoRows(t, e, e') {
      AtLeastTwo(EvidenceRows(t, e.finding));
      assert e in EvidenceRows(t, e.finding) && e' in EvidenceRows(t, e.finding);
    }
    if e :| e in t.evidence && |EvidenceRows(t, e.finding)| >= 2 {
      AtLeastTwo(EvidenceRows(t, e.finding));
      var x, y :| x in EvidenceRows(t, e.finding) && y in EvidenceRows(t, e.finding) && x != y;
      assert TwoRows(t, x, y);
    }
    if f :| f in t.findings && !Covered(t, f) {
      assert forall l :: l in t.links ==> l.finding != f;
    }
    if f :| f in t.findings && forall l :: l in t.links ==> l.finding != f {
      assert !Covered(t, f);
    }
  }

  // ---- a whole run ---------------------------------------------------------

  /** Every link after a complete run: it was there, an audit row recorded it, or the second pass
      ran and at least half of two or more evidence rows' worth of documents observe the entity. */
  lemma EveryLink(text: Text, t: Tables, t': Tables, l: Link)
    requires Runs(text, true, t, t', Done)
    ensures Replayed(text, t, |t.log|).Some?
    ensures var mid := t.(links := Replayed(text, t, |t.log|).value);
      l in t'.links <==>
        || l in t.links
        || RecordedIn(text, t.log, |t.log|, l)
        || (GateOpen(mid) && l.role == "about" && Recoverable(t, l.finding, Some(l.entity)))
  {
    var mid := t.(links := Replayed(text, t, |t.log|).value);
    ReplayedExactly(text, t, |t.log|, l);
    RecoverySame(t, mid);
    RecoveredIs(t, l.finding, l.entity);
    RecoveredRole(t, l);
    hide Replayed, GateOpen, RecoversNull, Recoverable, RecoveredLinks;
  }

  lemma RecoveredRole(t: Tables, l: Link)
    ensures l in RecoveredLinks(t) ==> l.role == "about"
  {
  }

  /** Whoever wrote a link's row: a row that was there is kept, a replayed one has confidence 1.0 and
      the name in the log, a recovered one confidence 0.6 and the backfill's own name. */
  lemma EveryRow(text: Text, t: Tables, t': Tables, l: Link, i: nat)
    requires Runs(text, true, t, t', Done) && l in t'.links
    ensures l in t.links ==> t'.links[l] == t.links[l]
    ensures l !in t.links && FirstRecord(text, t.log, l, i) ==> t'.links[l] == Row(1.0, t.log[i].changedBy)
    ensures l !in t.links && !RecordedIn(text, t.log, |t.log|, l) ==> t'.links[l] == Row(0.6, "heuristic-backfill")
  {
    ReplayedExactly(text, t, |t.log|, l);
    ReplayedRows(text, t, |t.log|, l, i);
    hide Replayed, GateOpen, RecoversNull, NewLinks, AuditsExactly;
  }

  /** The audit rows of a complete run are inserts by the backfill, each recording a link that
      neither was there nor was recorded before. */
  lemma EveryAudit(text: Text, t: Tables, t': Tables, i: nat)
    requires Faithful(text) && Consistent(t) && Runs(text, true, t, t', Done) && |t.log| <= i < |t'.log|
    ensures t'.log[i].op == "insert" && t'.log[i].changedBy == "heuristic-backfill"
    ensures exists l :: RecordsLink(text, t'.log[i], l) && l in t'.links && l !in t.links && !RecordedIn(text, t.log, |t.log|, l)
  {
    AuditPerInsert(text, t, t');
    var added, c := t'.log[|t.log|..], t'.log[i];
    assert added[i - |t.log|] == c && c in added;
    CandidateRecords(text, c);
    var l := LinkOf(text, c).value;
    assert RecordsLink(text, c, l);
    ReplayedExactly(text, t, |t.log|, l);
    AuditColumns(text, t, t', c);
    hide Replayed, RecordsLink;
  }

  lemma AuditColumns(text: Text, t: Tables, t': Tables, c: Change)
    requires Runs(text, true, t, t', Done) && |t'.log| >= |t.log| && c in t'.log[|t.log|..]
    ensures c.op == "insert" && c.changedBy == "heuristic-backfill"
  {
    hide Replayed, GateOpen, RecoversNull, NewLinks;
    var mid := t.(links := Replayed(text, t, |t.log|).value);
    if GateOpen(mid) {
      var order :| AuditsExactly(text, t'.log[|t.log|..], NewLinks(mid), order);
    }
  }
}
