/** The finding-entity backfill (backfill-finding-entities.py): replay of the audit log, then
    recovery from evidence coverage, over the tables of migrations 0001, 0008 and 0013. */
module Backfill {
  import opened Js

  /** Primary keys. How they are written as text is a parameter of everything that reads text. */
  type Uuid = nat

  datatype Text = Text(parse: string -> Option<Uuid>, render: Uuid -> string)

  /** Every key reads back from the text it is written as. */
  ghost predicate Faithful(text: Text) {
    forall u: Uuid :: text.parse(text.render(u)) == Some(u)
  }

  /** The `after` document: `entityId` tells a missing key from a null and from a text. */
  datatype After = After(entityId: Option<Option<string>>, relation: Option<string>, role: Option<string>)

  datatype Change = Change(op: string, targetKind: string, targetId: string, after: After, changedBy: string)

  datatype Link = Link(finding: Uuid, entity: Uuid, role: string)
  datatype Row = Row(confidence: real, createdBy: string)
  datatype Evidence = Evidence(finding: Uuid, document: Uuid, relation: string)
  datatype Observation = Observation(id: Uuid, entity: Option<Uuid>, document: Option<Uuid>)

  datatype Tables = Tables(
    findings: set<Uuid>, entities: set<Uuid>, evidence: set<Evidence>, observations: set<Observation>,
    links: map<Link, Row>, log: seq<Change>)

  /** The foreign keys the database enforces. */
  predicate Consistent(t: Tables) {
    && (forall e <- t.evidence :: e.finding in t.findings)
    && (forall o <- t.observations :: o.entity.Some? ==> o.entity.value in t.entities)
    && (forall l <- t.links :: l.finding in t.findings && l.entity in t.entities)
  }

  // ---- pass 1: replay ------------------------------------------------------

  predicate Candidate(c: Change) {
    c.targetKind == "claim" && c.after.entityId.Some? && c.after.relation == Some("about") && c.changedBy != "test"
  }

  /** The link a candidate stands for, or None where a cast or a NOT NULL fails. */
  function LinkOf(text: Text, c: Change): Option<Link> {
    if c.after.entityId.None? || c.after.entityId.value.None? then None else
    var finding, entity := text.parse(c.targetId), text.parse(c.after.entityId.value.value);
    if finding.None? || entity.None? then None
    else Some(Link(finding.value, entity.value, c.after.role.GetOr("about")))
  }

  /** `ON CONFLICT DO NOTHING`: an existing row stays; a new one must satisfy its foreign keys. */
  function Insert(t: Tables, links: map<Link, Row>, l: Link, row: Row): Option<map<Link, Row>> {
    if l in links then Some(links)
    else if l.finding in t.findings && l.entity in t.entities then Some(links[l := row])
    else None
  }

  /** The links after the first n log rows were replayed; None when the statement fails. */
  function Replayed(text: Text, t: Tables, n: nat): Option<map<Link, Row>>
    requires n <= |t.log|
  {
    if n == 0 then Some(t.links) else
    var before := Replayed(text, t, n - 1);
    var c := t.log[n - 1];
    if before.None? || !Candidate(c) then before
    else match LinkOf(text, c)
      case None => None
      case Some(l) => Insert(t, before.value, l, Row(1.0, c.changedBy))
  }

  // ---- pass 2: coverage ----------------------------------------------------

  function EvidenceRows(t: Tables, finding: Uuid): set<Evidence> {
    set e <- t.evidence | e.finding == finding
  }

  function EvidenceDocs(t: Tables, finding: Uuid): set<Uuid> {
    set e <- t.evidence | e.finding == finding :: e.document
  }

  predicate Observes(t: Tables, document: Uuid, entity: Option<Uuid>) {
    exists o <- t.observations :: o.entity == entity && o.document == Some(document)
  }

  /** The finding's evidence documents that observe the entity. */
  function HitDocs(t: Tables, finding: Uuid, entity: Option<Uuid>): set<Uuid> {
    set e <- t.evidence | e.finding == finding && Observes(t, e.document, entity) :: e.document
  }

  /** At least two evidence rows, and hits over rows at least one half. */
  predicate Recoverable(t: Tables, finding: Uuid, entity: Option<Uuid>) {
    var rows, hits := |EvidenceRows(t, finding)|, |HitDocs(t, finding, entity)|;
    hits > 0 && rows >= 2 && 2 * hits >= rows
  }

  /** The groups the join makes: a finding and an entity, null included, that one of its evidence
      documents observes. */
  function Groups(t: Tables): set<(Uuid, Option<Uuid>)> {
    set e <- t.evidence, o <- t.observations | o.document == Some(e.document) :: (e.finding, o.entity)
  }

  function RecoveredGroups(t: Tables): set<(Uuid, Option<Uuid>)> {
    set g <- Groups(t) | Recoverable(t, g.0, g.1)
  }

  /** The statement's own NOT NULL failure: a null entity is recovered. */
  predicate RecoversNull(t: Tables) {
    exists g <- RecoveredGroups(t) :: g.1.None?
  }

  function RecoveredLinks(t: Tables): set<Link> {
    set g <- RecoveredGroups(t) | g.1.Some? :: Link(g.0, g.1.value, "about")
  }

  function NewLinks(t: Tables): set<Link> {
    RecoveredLinks(t) - t.links.Keys
  }

  function HeuristicRow(): Row {
    Row(0.6, "heuristic-backfill")
  }

  function AuditOf(text: Text, l: Link): Change {
    Change("insert", "claim", text.render(l.finding),
           After(Some(Some(text.render(l.entity))), Some("about"), None), "heuristic-backfill")
  }

  predicate Covered(t: Tables, finding: Uuid) {
    exists l <- t.links :: l.finding == finding
  }

  /** Some finding has no link, and some finding has two evidence rows. */
  predicate GateOpen(t: Tables) {
    && (exists f <- t.findings :: !Covered(t, f))
    && (exists e <- t.evidence :: |EvidenceRows(t, e.finding)| >= 2)
  }

  // ---- the whole run -------------------------------------------------------

  datatype Outcome = TableMissing | ReplayFailed | RecoveryFailed | Done

  /** The audit rows of some links, each once, in whatever order the database emits them. */
  predicate AuditsExactly(text: Text, added: seq<Change>, links: set<Link>, order: seq<Link>) {
    && |order| == |added|
    && (forall i :: 0 <= i < |order| ==> order[i] in links && added[i] == AuditOf(text, order[i]))
    && (forall i, j :: 0 <= i < j < |order| ==> order[i] != order[j])
    && (forall l <- links :: l in order)
  }

  function AddAll(links: map<Link, Row>, more: set<Link>): map<Link, Row> {
    map l | l in links.Keys + more :: if l in links then links[l] else HeuristicRow()
  }

  /** What one run may do to the tables: only the links and the log change. */
  ghost predicate Runs(text: Text, migrated: bool, t: Tables, t': Tables, outcome: Outcome) {
    if !migrated then outcome == TableMissing && t' == t else
    var replayed := Replayed(text, t, |t.log|);
    if replayed.None? then outcome == ReplayFailed && t' == t else
    var mid := t.(links := replayed.value);
    if !GateOpen(mid) then outcome == Done && t' == mid
    else if RecoversNull(mid) then outcome == RecoveryFailed && t' == mid
    else
      && outcome == Done
      && |t'.log| >= |t.log|
      && t' == mid.(links := AddAll(mid.links, NewLinks(mid)), log := t.log + t'.log[|t.log|..])
      && exists order :: AuditsExactly(text, t'.log[|t.log|..], NewLinks(mid), order)
  }

  // ---- replay facts --------------------------------------------------------

  /** Rows are only added, never changed; the foreign keys stay satisfied. */
  lemma {:induction false} ReplayAdds(text: Text, t: Tables, n: nat)
    requires Consistent(t) && n <= |t.log| && Replayed(text, t, n).Some?
    ensures var links := Replayed(text, t, n).value;
      && (forall l <- t.links :: l in links && links[l] == t.links[l])
      && (forall l <- links :: l.finding in t.findings && l.entity in t.entities)
      && (forall l <- links :: l in t.links || (links[l].confidence == 1.0 && links[l].createdBy != "test"))
    ensures forall i :: 0 <= i < n && Candidate(t.log[i]) ==>
      LinkOf(text, t.log[i]).Some? && LinkOf(text, t.log[i]).value in Replayed(text, t, n).value
  {
    if n > 0 {
      ReplayAdds(text, t, n - 1);
    }
  }

  /** When every candidate's link is already there, replaying changes nothing. */
  lemma {:induction false} ReplayNoop(text: Text, t: Tables, n: nat)
    requires n <= |t.log|
    requires forall i :: 0 <= i < n && Candidate(t.log[i]) ==> LinkOf(text, t.log[i]).Some? && LinkOf(text, t.log[i]).value in t.links
    ensures Replayed(text, t, n) == Some(t.links)
  {
    if n > 0 {
      ReplayNoop(text, t, n - 1);
    }
  }

  /** Replaying depends on the links, the log, and the keys, not on what else the tables hold. */
  lemma AuditReplays(text: Text, l: Link)
    requires Faithful(text) && l.role == "about"
    ensures Candidate(AuditOf(text, l)) && LinkOf(text, AuditOf(text, l)) == Some(l)
  {
    assert text.parse(text.render(l.finding)) == Some(l.finding) && text.parse(text.render(l.entity)) == Some(l.entity);
  }

  // ---- coverage facts ------------------------------------------------------

  lemma ImageNoLarger(rows: set<Evidence>, docs: set<Uuid>)
    requires docs == set e <- rows :: e.document
    ensures |docs| <= |rows|
    decreases rows
  {
    if rows != {} {
      var e :| e in rows;
      var rest := rows - {e};
      var restDocs := set r <- rest :: r.document;
      ImageNoLarger(rest, restDocs);
      assert docs == restDocs + {e.document};
    }
  }

  lemma SubsetSmaller(a: set<Uuid>, b: set<Uuid>)
    requires a <= b
    ensures |a| <= |b|
  {
    var rest := b - a;
    assert b == a + rest;
  }

  /** Coverage never exceeds one: the hits are documents, the divisor counts evidence rows, and
      no finding has more documents than rows. */
  lemma CoverageAtMostOne(t: Tables, finding: Uuid, entity: Option<Uuid>)
    ensures |HitDocs(t, finding, entity)| <= |EvidenceDocs(t, finding)| <= |EvidenceRows(t, finding)|
  {
    SubsetSmaller(HitDocs(t, finding, entity), EvidenceDocs(t, finding));
    assert EvidenceDocs(t, finding) == set e <- EvidenceRows(t, finding) :: e.document;
    ImageNoLarger(EvidenceRows(t, finding), EvidenceDocs(t, finding));
  }

  lemma HitMeansGroup(t: Tables, finding: Uuid, entity: Option<Uuid>)
    ensures (finding, entity) in Groups(t) <==> HitDocs(t, finding, entity) != {}
  {
    if HitDocs(t, finding, entity) != {} {
      var d :| d in HitDocs(t, finding, entity);
    }
    if (finding, entity) in Groups(t) {
      var e, o :| e in t.evidence && o in t.observations && o.document == Some(e.document) && (e.finding, o.entity) == (finding, entity);
      assert e.document in HitDocs(t, finding, entity);
    }
  }

  /** What the documentation asks for: two evidence documents, at least half of them observing. */
  predicate MeetsDocumentedThreshold(t: Tables, finding: Uuid, entity: Option<Uuid>) {
    var docs, hits := |EvidenceDocs(t, finding)|, |HitDocs(t, finding, entity)|;
    hits > 0 && docs >= 2 && 2 * hits >= docs
  }

  /** The code counts a document once for every relation it stands in. It differs from the
      documented threshold exactly for a single document cited in two relations, and where half
      of the documents observe the entity but these are fewer than half of the rows. */
  lemma ThresholdDiffersExactly(t: Tables, finding: Uuid, entity: Option<Uuid>)
    ensures var rows, docs, hits := |EvidenceRows(t, finding)|, |EvidenceDocs(t, finding)|, |HitDocs(t, finding, entity)|;
      Recoverable(t, finding, entity) != MeetsDocumentedThreshold(t, finding, entity) <==>
        (docs == 1 && hits == 1 && rows == 2) || (docs >= 2 && hits > 0 && docs <= 2 * hits < rows)
  {
    CoverageAtMostOne(t, finding, entity);
  }

  // ---- running twice -------------------------------------------------------

  /** What is recovered depends on the evidence and the observations only. */
  lemma RecoverySame(t: Tables, t': Tables)
    requires t.evidence == t'.evidence && t.observations == t'.observations
    ensures RecoveredLinks(t) == RecoveredLinks(t') && RecoversNull(t) == RecoversNull(t')
  {
    forall f: Uuid, e: Option<Uuid>
      ensures Recoverable(t, f, e) == Recoverable(t', f, e)
    {
      assert EvidenceRows(t, f) == EvidenceRows(t', f);
      assert forall d: Uuid :: Observes(t, d, e) == Observes(t', d, e);
      assert HitDocs(t, f, e) == HitDocs(t', f, e);
    }
    assert Groups(t) == Groups(t');
    assert RecoveredGroups(t) == RecoveredGroups(t');
  }

  lemma {:induction false} DistinctCount(order: seq<Link>, links: set<Link>)
    requires forall i :: 0 <= i < |order| ==> order[i] in links
    requires forall i, j :: 0 <= i < j < |order| ==> order[i] != order[j]
    requires forall l <- links :: l in order
    ensures |order| == |links|
  {
    if order == [] {
      assert links == {};
    } else {
      var n := |order| - 1;
      assert forall l <- links - {order[n]} :: l in order[..n];
      DistinctCount(order[..n], links - {order[n]});
    }
  }

  /** As many audit rows as links inserted. */
  lemma AuditCount(text: Text, added: seq<Change>, links: set<Link>)
    requires exists order :: AuditsExactly(text, added, links, order)
    ensures |added| == |links|
  {
    var order :| AuditsExactly(text, added, links, order);
    DistinctCount(order, links);
  }

  lemma AuditsAreLinks(text: Text, added: seq<Change>, links: set<Link>, order: seq<Link>)
    requires Faithful(text) && AuditsExactly(text, added, links, order) && forall l <- links :: l.role == "about"
    ensures forall i :: 0 <= i < |added| ==> Candidate(added[i]) && LinkOf(text, added[i]) == Some(order[i]) && order[i] in links
  {
    forall i | 0 <= i < |added|
      ensures Candidate(added[i]) && LinkOf(text, added[i]) == Some(order[i])
    {
      AuditReplays(text, order[i]);
    }
  }

  /** After a run, pass 1 finds every link there, its own audit rows included. */
  lemma ReplayAfterRun(text: Text, t: Tables, t': Tables, outcome: Outcome)
    requires Faithful(text) && Consistent(t) && Runs(text, true, t, t', outcome) && Replayed(text, t, |t.log|).Some?
    ensures Replayed(text, t', |t'.log|) == Some(t'.links)
  {
    ReplayAdds(text, t, |t.log|);
    var mid := t.(links := Replayed(text, t, |t.log|).value);
    var added := t'.log[|t.log|..];
    if GateOpen(mid) && !RecoversNull(mid) {
      var order :| AuditsExactly(text, added, NewLinks(mid), order);
      AuditsAreLinks(text, added, NewLinks(mid), order);
      hide Replayed, LinkOf, Candidate, NewLinks, GateOpen, RecoversNull, AuditsExactly;
      forall i | 0 <= i < |t'.log| && Candidate(t'.log[i])
        ensures LinkOf(text, t'.log[i]).Some? && LinkOf(text, t'.log[i]).value in t'.links
      {
        if i < |t.log| {
          assert t'.log[i] == t.log[i];
        } else {
          assert t'.log[i] == added[i - |t.log|];
        }
      }
    }
    ReplayNoop(text, t', |t'.log|);
  }

  /** A run whose replay finds everything there either leaves the tables alone or recovers. */
  lemma RunAfterReplay(text: Text, t: Tables, t': Tables, outcome: Outcome)
    requires Runs(text, true, t, t', outcome) && Replayed(text, t, |t.log|) == Some(t.links)
    ensures GateOpen(t) && RecoversNull(t) ==> outcome == RecoveryFailed
    ensures !(GateOpen(t) && RecoversNull(t)) ==> outcome == Done
    ensures !GateOpen(t) || RecoversNull(t) || NewLinks(t) == {} ==> t' == t
  {
    assert t.(links := t.links) == t;
    hide Replayed, GateOpen, RecoversNull, NewLinks;
    if GateOpen(t) && !RecoversNull(t) && NewLinks(t) == {} {
      AuditCount(text, t'.log[|t.log|..], NewLinks(t));
      assert AddAll(t.links, {}) == t.links;
      assert t'.log == t.log + [];
    }
  }

  lemma RunLeavesNothing(text: Text, t: Tables, t': Tables, outcome: Outcome)
    requires Runs(text, true, t, t', outcome) && Replayed(text, t, |t.log|).Some?
    ensures var mid := t.(links := Replayed(text, t, |t.log|).value);
      && t'.evidence == t.evidence && t'.observations == t.observations
      && (outcome == Done && GateOpen(mid) ==> !RecoversNull(t') && NewLinks(t') == {})
      && (outcome == Done && !GateOpen(mid) ==> t' == mid)
      && (outcome == RecoveryFailed ==> t' == mid && GateOpen(mid) && RecoversNull(mid))
      && (outcome == Done || outcome == RecoveryFailed)
  {
    RecoverySame(t.(links := Replayed(text, t, |t.log|).value), t');
    hide Replayed, GateOpen, RecoversNull, RecoveredLinks;
  }

  /** Running the backfill twice is running it once, on the links and on the log, whatever the
      first run did: complete, skip the second pass, or fail in either. */
  lemma SecondRunChangesNothing(text: Text, migrated: bool, t: Tables, t1: Tables, t2: Tables, first: Outcome, second: Outcome)
    requires Faithful(text) && Consistent(t)
    requires Runs(text, migrated, t, t1, first) && Runs(text, migrated, t1, t2, second)
    ensures t2 == t1 && second == first
  {
    if migrated && Replayed(text, t, |t.log|).Some? {
      ReplayAfterRun(text, t, t1, first);
      RunLeavesNothing(text, t, t1, first);
      RunAfterReplay(text, t1, t2, second);
      hide Replayed, GateOpen, RecoversNull, NewLinks, Runs;
    }
  }

  lemma RunKeepsConsistent(text: Text, migrated: bool, t: Tables, t': Tables, outcome: Outcome)
    requires Consistent(t) && Runs(text, migrated, t, t', outcome)
    ensures Consistent(t')
    ensures forall l <- t.links :: l in t'.links && t'.links[l] == t.links[l]
    ensures forall l <- t'.links :: l in t.links || t'.links[l] == HeuristicRow() || t'.links[l].confidence == 1.0
  {
    if migrated && Replayed(text, t, |t.log|).Some? {
      ReplayAdds(text, t, |t.log|);
      var mid := t.(links := Replayed(text, t, |t.log|).value);
      RecoveredKnown(mid);
      hide Replayed, GateOpen, RecoversNull, AuditsExactly, RecoveredLinks;
    }
  }

  lemma RecoveredKnown(t: Tables)
    requires Consistent(t)
    ensures forall l <- RecoveredLinks(t) :: l.finding in t.findings && l.entity in t.entities && l.role == "about"
  {
    forall l | l in RecoveredLinks(t)
      ensures l.finding in t.findings && l.entity in t.entities && l.role == "about"
    {
      var g :| g in RecoveredGroups(t) && g.1.Some? && l == Link(g.0, g.1.value, "about");
      var e, o :| e in t.evidence && o in t.observations && (e.finding, o.entity) == g;
    }
  }

  /** Each audit row the run emits reads back as one link it newly inserted, and every link it
      newly inserted by coverage has exactly one. */
  lemma AuditPerInsert(text: Text, t: Tables, t': Tables)
    requires Faithful(text) && Consistent(t) && Runs(text, true, t, t', Done)
    ensures Replayed(text, t, |t.log|).Some? && |t'.log| >= |t.log| && t'.log[..|t.log|] == t.log
    ensures var mid, added := Replayed(text, t, |t.log|).value, t'.log[|t.log|..];
      && (forall c <- added :: Candidate(c) && LinkOf(text, c).Some? && LinkOf(text, c).value in t'.links && LinkOf(text, c).value !in mid)
      && (forall l <- t'.links :: l !in mid ==> AuditOf(text, l) in added)
      && (forall i, j :: 0 <= i < j < |added| ==> LinkOf(text, added[i]) != LinkOf(text, added[j]))
  {
    var mid := t.(links := Replayed(text, t, |t.log|).value);
    var added := t'.log[|t.log|..];
    RecoveredKnown(mid) by {
      ReplayAdds(text, t, |t.log|);
    }
    if GateOpen(mid) {
      var order :| AuditsExactly(text, added, NewLinks(mid), order);
      AuditsAreLinks(text, added, NewLinks(mid), order);
      forall l | l in t'.links && l !in mid.links
        ensures AuditOf(text, l) in added
      {
        assert l in order;
        var i :| 0 <= i < |order| && order[i] == l;
        assert added[i] == AuditOf(text, l);
      }
    }
  }

  /** Which links a complete run leaves. With the gate open, an entity is linked to a finding when
      it already was or when half of the finding's rows hit it; whether the finding had links
      before makes no difference. */
  lemma RunLinks(text: Text, t: Tables, t': Tables, finding: Uuid, entity: Uuid)
    requires Runs(text, true, t, t', Done)
    ensures Replayed(text, t, |t.log|).Some?
    ensures var mid := t.(links := Replayed(text, t, |t.log|).value);
      Link(finding, entity, "about") in t'.links <==>
        || Link(finding, entity, "about") in mid.links
        || (GateOpen(mid) && Recoverable(mid, finding, Some(entity)))
  {
    var mid := t.(links := Replayed(text, t, |t.log|).value);
    HitMeansGroup(mid, finding, Some(entity));
    hide Replayed, GateOpen, RecoversNull, Recoverable;
    RecoveredIs(mid, finding, entity);
  }

  lemma RecoveredIs(t: Tables, finding: Uuid, entity: Uuid)
    ensures Link(finding, entity, "about") in RecoveredLinks(t) <==> Recoverable(t, finding, Some(entity))
  {
    HitMeansGroup(t, finding, Some(entity));
    if Recoverable(t, finding, Some(entity)) {
      assert (finding, Some(entity)) in RecoveredGroups(t);
    }
  }

  /** A finding that already has a link, beside one that has none: two documents observe entity 7. */
  function Mixed(): Tables {
    Tables({1, 2}, {7}, {Evidence(1, 3, "supports"), Evidence(1, 4, "supports")},
           {Observation(5, Some(7), Some(3)), Observation(6, Some(7), Some(4))},
           map[Link(1, 7, "mentions") := Row(1.0, "agent")], [])
  }

  /** Pass 2 is said to serve findings that still have no link, but it gives the linked finding
      another one whenever any other finding has none. */
  lemma LinkedFindingGainsLink()
    ensures Consistent(Mixed()) && Covered(Mixed(), 1) && GateOpen(Mixed())
    ensures Link(1, 7, "about") in NewLinks(Mixed())
  {
    var t := Mixed();
    assert Link(1, 7, "mentions") in t.links;
    assert !Covered(t, 2);
    assert EvidenceRows(t, 1) == {Evidence(1, 3, "supports"), Evidence(1, 4, "supports")};
    assert |EvidenceRows(t, 1)| == 2;
    assert Evidence(1, 3, "supports") in t.evidence && Evidence(1, 4, "supports") in t.evidence;
    assert Observation(5, Some(7), Some(3)) in t.observations && Observation(6, Some(7), Some(4)) in t.observations;
    assert Observes(t, 3, Some(7)) && Observes(t, 4, Some(7));
    assert HitDocs(t, 1, Some(7)) == {3, 4};
    assert |HitDocs(t, 1, Some(7))| == 2;
    RecoveredIs(t, 1, 7);
  }

  /** A single document, cited by a finding in two relations and observing one entity. */
  function CitedTwice(): Tables {
    Tables({1}, {7}, {Evidence(1, 3, "supports"), Evidence(1, 3, "contradicts")}, {Observation(5, Some(7), Some(3))}, map[], [])
  }

  /** It is recovered, although two documents are asked for. */
  lemma OneDocumentRecovers()
    ensures Consistent(CitedTwice()) && GateOpen(CitedTwice())
    ensures Recoverable(CitedTwice(), 1, Some(7)) && !MeetsDocumentedThreshold(CitedTwice(), 1, Some(7))
    ensures Link(1, 7, "about") in NewLinks(CitedTwice())
  {
    var t := CitedTwice();
    assert !Covered(t, 1);
    assert EvidenceRows(t, 1) == {Evidence(1, 3, "supports"), Evidence(1, 3, "contradicts")};
    assert "supports"[0] != "contradicts"[0];
    assert |EvidenceRows(t, 1)| == 2;
    assert Evidence(1, 3, "supports") in t.evidence && Observation(5, Some(7), Some(3)) in t.observations;
    assert EvidenceDocs(t, 1) == {3};
    assert HitDocs(t, 1, Some(7)) == {3};
    RecoveredIs(t, 1, 7);
  }

  // ---- the program ---------------------------------------------------------

  class Database {
    const findings: set<Uuid>
    const entities: set<Uuid>
    const evidence: set<Evidence>
    const observations: set<Observation>
    var links: map<Link, Row>
    var log: seq<Change>

    ghost function State(): Tables
      reads this
    {
      Tables(findings, entities, evidence, observations, links, log)
    }

    /** One INSERT ... SELECT: all of its rows or none. */
    method ReplayAudit(text: Text) returns (ok: bool)
      modifies `links
      ensures ok <==> Replayed(text, old(State()), |log|).Some?
      ensures links == if ok then Replayed(text, old(State()), |log|).value else old(links)
    {
      ghost var t := State();
      var rows := links;
      for i := 0 to |log|
        invariant links == t.links
        invariant Replayed(text, t, i) == Some(rows)
      {
        var c := log[i];
        if Candidate(c) {
          var l := LinkOf(text, c);
          if l.None? {
            ReplayFailsLater(text, t, i + 1, |log|);
            return false;
          }
          if l.value !in rows {
            if l.value.finding !in findings || l.value.entity !in entities {
              ReplayFailsLater(text, t, i + 1, |log|);
              return false;
            }
            rows := rows[l.value := Row(1.0, c.changedBy)];
          }
        }
      }
      links := rows;
      ok := true;
    }

    /** The findings without links and those with two evidence rows, as the gate counts them. */
    method CountGate() returns (uncovered: nat, multiDoc: nat)
      ensures uncovered > 0 && multiDoc > 0 <==> GateOpen(State())
    {
      var t := Tables(findings, entities, evidence, observations, links, log);
      var bare := set f <- findings | !Covered(t, f);
      var multi := set e <- evidence | |EvidenceRows(t, e.finding)| >= 2 :: e.finding;
      uncovered, multiDoc := |bare|, |multi|;
      assert uncovered > 0 ==> exists f :: f in bare by {
        if bare == {} { assert |bare| == 0; } else { var f :| f in bare; }
      }
      assert multiDoc > 0 ==> exists f :: f in multi by {
        if multi == {} { assert |multi| == 0; } else { var f :| f in multi; }
      }
      assert (exists e <- evidence :: |EvidenceRows(t, e.finding)| >= 2) ==> multi != {} by {
        if e :| e in evidence && |EvidenceRows(t, e.finding)| >= 2 { assert e.finding in multi; }
      }
      assert (exists f <- findings :: !Covered(t, f)) ==> bare != {} by {
        if f :| f in findings && !Covered(t, f) { assert f in bare; }
      }
    }

    /** Inserts new links one by one, in whatever order, with one audit row for each. */
    method InsertAudited(text: Text, missing: set<Link>)
      requires missing !! links.Keys
      modifies `links, `log
      ensures links == AddAll(old(links), missing)
      ensures old(log) <= log && exists order :: AuditsExactly(text, log[|old(log)|..], missing, order)
    {
      ghost var before := links;
      var pending, added := missing, [];
      ghost var order: seq<Link> := [];
      while pending != {}
        invariant pending <= missing && log == old(log)
        invariant links == AddAll(before, missing - pending)
        invariant AuditsExactly(text, added, missing - pending, order)
        decreases pending
      {
        var l :| l in pending;
        links := links[l := HeuristicRow()];
        AuditMore(text, added, missing - pending, order, l);
        assert missing - (pending - {l}) == missing - pending + {l};
        added := added + [AuditOf(text, l)];
        order := order + [l];
        pending := pending - {l};
      }
      assert missing - {} == missing;
      log := log + added;
      assert log[|old(log)|..] == added;
    }

    /** The coverage statement: the links it recovers and inserts, and one audit row for each. A
        recovered null entity fails the whole statement. */
    method RecoverByCoverage(text: Text) returns (ok: bool)
      modifies `links, `log
      ensures ok <==> !RecoversNull(old(State()))
      ensures !ok ==> State() == old(State())
      ensures ok ==> links == AddAll(old(links), NewLinks(old(State())))
      ensures ok ==> old(log) <= log && exists order :: AuditsExactly(text, log[|old(log)|..], NewLinks(old(State())), order)
    {
      var t := Tables(findings, entities, evidence, observations, links, log);
      hide RecoveredLinks, AddAll, AuditsExactly;
      if exists g <- RecoveredGroups(t) :: g.1.None? {
        return false;
      }
      InsertAudited(text, NewLinks(t));
      ok := true;
    }

    /** `main`: exit code 2 without the table; a failing statement ends the run where it stands. */
    method Backfill(text: Text, migrated: bool) returns (outcome: Outcome)
      requires Consistent(State())
      modifies `links, `log
      ensures Runs(text, migrated, old(State()), State(), outcome)
      ensures Consistent(State())
    {
      outcome := RunPasses(text, migrated);
      hide Runs, Consistent;
      RunKeepsConsistent(text, migrated, old(State()), State(), outcome);
    }

    method RunPasses(text: Text, migrated: bool) returns (outcome: Outcome)
      modifies `links, `log
      ensures Runs(text, migrated, old(State()), State(), outcome)
    {
      hide Replayed, GateOpen, RecoversNull, NewLinks, AuditsExactly;
      if !migrated {
        return TableMissing;
      }
      var ok := ReplayAudit(text);
      if !ok {
        return ReplayFailed;
      }
      var uncovered, multiDoc := CountGate();
      if uncovered == 0 || multiDoc == 0 {
        return Done;
      }
      ok := RecoverByCoverage(text);
      outcome := if ok then Done else RecoveryFailed;
    }
  }

  lemma AuditMore(text: Text, added: seq<Change>, links: set<Link>, order: seq<Link>, l: Link)
    requires AuditsExactly(text, added, links, order) && l !in links
    ensures AuditsExactly(text, added + [AuditOf(text, l)], links + {l}, order + [l])
  {
  }

  lemma {:induction false} ReplayFailsLater(text: Text, t: Tables, i: nat, n: nat)
    requires i <= n <= |t.log| && Replayed(text, t, i).None?
    ensures Replayed(text, t, n).None?
  {
    if i < n {
      ReplayFailsLater(text, t, i, n - 1);
    }
  }
}
