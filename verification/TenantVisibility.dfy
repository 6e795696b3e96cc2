/**
 * The thirty policies spelled out table by table, down to owner columns: what a tenant may see and store,
 * when a statement takes effect, and how columns react to the deletion of what they name.
 */
module TenantVisibility {
  import opened Common
  import opened TenantPolicies
  import opened TenantWrites

  // ---- What a tenant may see, in terms of owner columns -----------------------------------------

  /** A row with an owner column that names the tenant, and `n` followed columns. */
  predicate Mine(u: UserId, row: Row, n: nat) {
    row.owner == Some(u) && |row.refs| == n
  }

  /** A row without an owner column, hanging on one parent. */
  predicate Hanging(row: Row) {
    row.owner == None && |row.refs| == 1 && row.refs[0].Some?
  }

  /** A row of the eleven direct tables. */
  predicate MyRecord(db: Database, u: UserId, table: Table, id: RowId) {
    Key(table, id) in db && Mine(u, db[Key(table, id)], 0)
  }

  predicate ApplicationRow(db: Database, u: UserId, row: Row) {
    Mine(u, row, 1) && (row.refs[0].Some? ==> MyRecord(db, u, SavedOpportunities, row.refs[0].value))
  }

  predicate MyApplication(db: Database, u: UserId, id: RowId) {
    Key(Applications, id) in db && ApplicationRow(db, u, db[Key(Applications, id)])
  }

  /** Tasks, reminders, events and documents of an application. */
  predicate ApplicationPart(db: Database, u: UserId, row: Row) {
    Hanging(row) && MyApplication(db, u, row.refs[0].value)
  }

  predicate AnswerRow(db: Database, u: UserId, row: Row) {
    && Mine(u, row, 2) && row.refs[0].Some? && row.refs[1].Some?
    && MyRecord(db, u, AssistantConversations, row.refs[0].value)
    && MyRecord(db, u, EvidencePackets, row.refs[1].value)
  }

  predicate MyAnswer(db: Database, u: UserId, id: RowId) {
    Key(AssistantAnswers, id) in db && AnswerRow(db, u, db[Key(AssistantAnswers, id)])
  }

  predicate VersionRow(db: Database, u: UserId, row: Row) {
    Mine(u, row, 1) && row.refs[0].Some? && MyRecord(db, u, DocumentAssets, row.refs[0].value)
  }

  predicate MyVersion(db: Database, u: UserId, id: RowId) {
    Key(DocumentVersions, id) in db && VersionRow(db, u, db[Key(DocumentVersions, id)])
  }

  /** Extractions and consents of a document version. */
  predicate VersionPart(db: Database, u: UserId, row: Row) {
    Mine(u, row, 1) && row.refs[0].Some? && MyVersion(db, u, row.refs[0].value)
  }

  predicate AnalysisRow(db: Database, u: UserId, row: Row) {
    && Mine(u, row, 2) && row.refs[0].Some? && row.refs[1].Some?
    && MyVersion(db, u, row.refs[0].value)
    && Key(DocumentConsents, row.refs[1].value) in db
    && VersionPart(db, u, db[Key(DocumentConsents, row.refs[1].value)])
  }

  predicate MyAnalysis(db: Database, u: UserId, id: RowId) {
    Key(DocumentAnalyses, id) in db && AnalysisRow(db, u, db[Key(DocumentAnalyses, id)])
  }

  predicate EvaluationRow(db: Database, u: UserId, row: Row) {
    Mine(u, row, 1) && (row.refs[0].Some? ==> MyRecord(db, u, StudentProfiles, row.refs[0].value))
  }

  predicate MyEvaluation(db: Database, u: UserId, id: RowId) {
    Key(MatchEvaluations, id) in db && EvaluationRow(db, u, db[Key(MatchEvaluations, id)])
  }

  predicate ResultRow(db: Database, u: UserId, row: Row) {
    Hanging(row) && MyEvaluation(db, u, row.refs[0].value)
  }

  /** What the policy of a table demands of a row, with every subquery written out. */
  predicate Demanded(db: Database, u: UserId, table: Table, row: Row) {
    match table
    case Applications => ApplicationRow(db, u, row)
    case ApplicationTasks | ApplicationReminders | ApplicationEvents | ApplicationDocuments =>
      ApplicationPart(db, u, row)
    case AssistantMessages => Hanging(row) && MyRecord(db, u, AssistantConversations, row.refs[0].value)
    case AssistantAnswers => AnswerRow(db, u, row)
    case AssistantCitations => Hanging(row) && MyAnswer(db, u, row.refs[0].value)
    case AssistantFeedback => Mine(u, row, 1) && row.refs[0].Some? && MyAnswer(db, u, row.refs[0].value)
    case DocumentVersions => VersionRow(db, u, row)
    case DocumentExtractions | DocumentConsents => VersionPart(db, u, row)
    case DocumentAnalyses => AnalysisRow(db, u, row)
    case DocumentFeedbackItems => Hanging(row) && MyAnalysis(db, u, row.refs[0].value)
    case DocumentAnalysisJobs =>
      && Mine(u, row, 2) && row.refs[0].Some? && MyVersion(db, u, row.refs[0].value)
      && (row.refs[1].Some? ==> MyAnalysis(db, u, row.refs[1].value))
    case ApplicationDocumentLinks =>
      && Mine(u, row, 2) && row.refs[0].Some? && row.refs[1].Some?
      && Key(ApplicationDocuments, row.refs[0].value) in db
      && ApplicationPart(db, u, db[Key(ApplicationDocuments, row.refs[0].value)])
      && MyVersion(db, u, row.refs[1].value)
    case MatchEvaluations => EvaluationRow(db, u, row)
    case MatchEvaluationResults => ResultRow(db, u, row)
    case MatchRuleOutcomes =>
      && Hanging(row) && Key(MatchEvaluationResults, row.refs[0].value) in db
      && ResultRow(db, u, db[Key(MatchEvaluationResults, row.refs[0].value)])
    case _ => Mine(u, row, 0)
  }

  predicate Named(db: Database, u: UserId, table: Table, id: RowId) {
    Key(table, id) in db && Demanded(db, u, table, db[Key(table, id)])
  }

  /** One followed column: filled or nullable, and what it names meets the demands of its own table. */
  predicate Column(db: Database, u: UserId, ref: Reference, value: Option<RowId>) {
    if value.None? then ref.nullable else Named(db, u, ref.parent, value.value)
  }

  /** The demands in terms of a policy: an owner column or none, and at most two followed columns. */
  predicate Meets(db: Database, u: UserId, p: Policy, row: Row) {
    && row.owner == (if p.owned then Some(u) else None) && |row.refs| == |p.refs| <= 2
    && (|p.refs| > 0 ==> Column(db, u, p.refs[0], row.refs[0]))
    && (|p.refs| > 1 ==> Column(db, u, p.refs[1], row.refs[1]))
  }

  // The predicates above are the demands of the tables they name.

  lemma ApplicationNames(db: Database, u: UserId, id: RowId)
    ensures MyRecord(db, u, SavedOpportunities, id) == Named(db, u, SavedOpportunities, id)
    ensures MyApplication(db, u, id) == Named(db, u, Applications, id)
  {
    hide Mine, ApplicationRow, ApplicationPart, AnswerRow, VersionRow, VersionPart, AnalysisRow, EvaluationRow,
         ResultRow;
  }

  lemma AnswerNames(db: Database, u: UserId, id: RowId)
    ensures MyRecord(db, u, AssistantConversations, id) == Named(db, u, AssistantConversations, id)
    ensures MyRecord(db, u, EvidencePackets, id) == Named(db, u, EvidencePackets, id)
    ensures MyAnswer(db, u, id) == Named(db, u, AssistantAnswers, id)
  {
    hide Mine, ApplicationRow, ApplicationPart, AnswerRow, VersionRow, VersionPart, AnalysisRow, EvaluationRow,
         ResultRow;
  }

  lemma DocumentNames(db: Database, u: UserId, id: RowId)
    ensures MyRecord(db, u, DocumentAssets, id) == Named(db, u, DocumentAssets, id)
    ensures MyVersion(db, u, id) == Named(db, u, DocumentVersions, id)
  {
    hide Mine, ApplicationRow, ApplicationPart, AnswerRow, VersionRow, VersionPart, AnalysisRow, EvaluationRow,
         ResultRow;
  }

  lemma AnalysisNames(db: Database, u: UserId, id: RowId)
    ensures MyVersion(db, u, id) == Named(db, u, DocumentVersions, id)
    ensures MyAnalysis(db, u, id) == Named(db, u, DocumentAnalyses, id)
    ensures Named(db, u, DocumentConsents, id)
      <==> Key(DocumentConsents, id) in db && VersionPart(db, u, db[Key(DocumentConsents, id)])
  {
    hide Mine, ApplicationRow, ApplicationPart, AnswerRow, VersionRow, VersionPart, AnalysisRow, EvaluationRow,
         ResultRow;
  }

  lemma LinkNames(db: Database, u: UserId, id: RowId)
    ensures MyVersion(db, u, id) == Named(db, u, DocumentVersions, id)
    ensures MyAnalysis(db, u, id) == Named(db, u, DocumentAnalyses, id)
    ensures Named(db, u, ApplicationDocuments, id)
      <==> Key(ApplicationDocuments, id) in db && ApplicationPart(db, u, db[Key(ApplicationDocuments, id)])
  {
    hide Mine, ApplicationRow, ApplicationPart, AnswerRow, VersionRow, VersionPart, AnalysisRow, EvaluationRow,
         ResultRow;
  }

  lemma MatchNames(db: Database, u: UserId, id: RowId)
    ensures MyRecord(db, u, StudentProfiles, id) == Named(db, u, StudentProfiles, id)
    ensures MyEvaluation(db, u, id) == Named(db, u, MatchEvaluations, id)
    ensures Named(db, u, MatchEvaluationResults, id)
      <==> Key(MatchEvaluationResults, id) in db && ResultRow(db, u, db[Key(MatchEvaluationResults, id)])
  {
    hide Mine, ApplicationRow, ApplicationPart, AnswerRow, VersionRow, VersionPart, AnalysisRow, EvaluationRow,
         ResultRow;
  }

  predicate OfApplications(table: Table) {
    table in {Applications, ApplicationTasks, ApplicationReminders, ApplicationEvents, ApplicationDocuments}
  }

  predicate OfAnswers(table: Table) {
    table in {AssistantMessages, AssistantAnswers, AssistantCitations, AssistantFeedback}
  }

  predicate OfDocuments(table: Table) {
    table in {DocumentVersions, DocumentExtractions, DocumentConsents}
  }

  predicate OfAnalyses(table: Table) {
    table in {DocumentAnalyses, DocumentFeedbackItems}
  }

  predicate OfLinks(table: Table) {
    table in {DocumentAnalysisJobs, ApplicationDocumentLinks}
  }

  predicate OfMatches(table: Table) {
    table in {MatchEvaluations, MatchEvaluationResults, MatchRuleOutcomes}
  }

  lemma ApplicationColumns(db: Database, u: UserId, table: Table, row: Row)
    requires OfApplications(table)
    ensures Demanded(db, u, table, row) <==> Meets(db, u, PolicyOf(table), row)
  {
    hide Named, MyRecord, MyApplication, MyAnswer, MyVersion, MyAnalysis, MyEvaluation;
    if |row.refs| > 0 && row.refs[0].Some? {
      ApplicationNames(db, u, row.refs[0].value);
    }
  }

  lemma AnswerColumns(db: Database, u: UserId, table: Table, row: Row)
    requires OfAnswers(table)
    ensures Demanded(db, u, table, row) <==> Meets(db, u, PolicyOf(table), row)
  {
    hide Named, MyRecord, MyApplication, MyAnswer, MyVersion, MyAnalysis, MyEvaluation;
    if |row.refs| > 0 && row.refs[0].Some? {
      AnswerNames(db, u, row.refs[0].value);
    }
    if |row.refs| > 1 && row.refs[1].Some? {
      AnswerNames(db, u, row.refs[1].value);
    }
  }

  lemma DocumentColumns(db: Database, u: UserId, table: Table, row: Row)
    requires OfDocuments(table)
    ensures Demanded(db, u, table, row) <==> Meets(db, u, PolicyOf(table), row)
  {
    hide Named, MyRecord, MyApplication, MyAnswer, MyVersion, MyAnalysis, MyEvaluation;
    if |row.refs| > 0 && row.refs[0].Some? {
      DocumentNames(db, u, row.refs[0].value);
    }
  }

  lemma AnalysisColumns(db: Database, u: UserId, table: Table, row: Row)
    requires OfAnalyses(table)
    ensures Demanded(db, u, table, row) <==> Meets(db, u, PolicyOf(table), row)
  {
    hide Named, MyRecord, MyApplication, MyAnswer, MyVersion, MyAnalysis, MyEvaluation;
    if |row.refs| > 0 && row.refs[0].Some? {
      AnalysisNames(db, u, row.refs[0].value);
    }
    if |row.refs| > 1 && row.refs[1].Some? {
      AnalysisNames(db, u, row.refs[1].value);
    }
  }

  lemma LinkColumns(db: Database, u: UserId, table: Table, row: Row)
    requires OfLinks(table)
    ensures Demanded(db, u, table, row) <==> Meets(db, u, PolicyOf(table), row)
  {
    hide Named, MyRecord, MyApplication, MyAnswer, MyVersion, MyAnalysis, MyEvaluation;
    if |row.refs| > 0 && row.refs[0].Some? {
      LinkNames(db, u, row.refs[0].value);
    }
    if |row.refs| > 1 && row.refs[1].Some? {
      LinkNames(db, u, row.refs[1].value);
    }
  }

  lemma MatchColumns(db: Database, u: UserId, table: Table, row: Row)
    requires OfMatches(table)
    ensures Demanded(db, u, table, row) <==> Meets(db, u, PolicyOf(table), row)
  {
    hide Named, MyRecord, MyApplication, MyAnswer, MyVersion, MyAnalysis, MyEvaluation;
    if |row.refs| > 0 && row.refs[0].Some? {
      MatchNames(db, u, row.refs[0].value);
    }
  }

  lemma NoColumns(db: Database, u: UserId, table: Table, row: Row)
    requires !OfApplications(table) && !OfAnswers(table) && !OfDocuments(table)
    requires !OfAnalyses(table) && !OfLinks(table) && !OfMatches(table)
    ensures Demanded(db, u, table, row) <==> Meets(db, u, PolicyOf(table), row)
  {
  }

  lemma ColumnsSpelledOut(db: Database, u: UserId, table: Table, row: Row)
    ensures Demanded(db, u, table, row) <==> Meets(db, u, PolicyOf(table), row)
  {
    hide *;
    if OfApplications(table) {
      ApplicationColumns(db, u, table, row);
    } else if OfAnswers(table) {
      AnswerColumns(db, u, table, row);
    } else if OfDocuments(table) {
      DocumentColumns(db, u, table, row);
    } else if OfAnalyses(table) {
      AnalysisColumns(db, u, table, row);
    } else if OfLinks(table) {
      LinkColumns(db, u, table, row);
    } else if OfMatches(table) {
      MatchColumns(db, u, table, row);
    } else {
      NoColumns(db, u, table, row);
    }
  }

  lemma TwoColumns(table: Table)
    ensures |PolicyOf(table).refs| <= 2
  {
  }

  /** What a filled column names is visible exactly when it meets the demands of its table. */
  ghost predicate ColumnsSeen(db: Database, u: UserId, table: Table, row: Row) {
    forall i :: 0 <= i < |row.refs| == |PolicyOf(table).refs| && row.refs[i].Some? ==>
      ColumnSeen(db, u, PolicyOf(table).refs[i], row.refs[i].value)
  }

  ghost predicate ColumnSeen(db: Database, u: UserId, ref: Reference, id: RowId) {
    Visible(db, Some(u), Key(ref.parent, id)) == Named(db, u, ref.parent, id)
  }

  ghost predicate AllColumns(db: Database, u: UserId, p: Policy, row: Row) {
    && row.owner == (if p.owned then Some(u) else None) && |row.refs| == |p.refs|
    && forall i :: 0 <= i < |p.refs| ==> Column(db, u, p.refs[i], row.refs[i])
  }

  /** A policy is evaluated column by column. */
  lemma PassesByColumns(db: Database, u: UserId, table: Table, row: Row)
    requires ColumnsSeen(db, u, table, row)
    requires Shaped(table, row) && Passes(db, Some(u), table, row)
    ensures AllColumns(db, u, PolicyOf(table), row)
  {
    hide PolicyOf, Rank, Named, Visible;
    var p := PolicyOf(table);
    forall i | 0 <= i < |p.refs|
      ensures Column(db, u, p.refs[i], row.refs[i])
    {
      if row.refs[i].Some? {
        assert ColumnSeen(db, u, p.refs[i], row.refs[i].value);
        assert Visible(db, Some(u), Parent(table, row, i));
      }
    }
  }

  lemma ColumnsPass(db: Database, u: UserId, table: Table, row: Row)
    requires ColumnsSeen(db, u, table, row) && AllColumns(db, u, PolicyOf(table), row)
    ensures Shaped(table, row) && Passes(db, Some(u), table, row)
  {
    hide PolicyOf, Rank, Named, Visible;
    var p := PolicyOf(table);
    assert Shaped(table, row) by {
      forall i | 0 <= i < |p.refs|
        ensures p.refs[i].nullable || row.refs[i].Some?
      {
        assert Column(db, u, p.refs[i], row.refs[i]);
      }
    }
    forall i | 0 <= i < |row.refs| && row.refs[i].Some?
      ensures Visible(db, Some(u), Parent(table, row, i))
    {
      assert Column(db, u, p.refs[i], row.refs[i]) && ColumnSeen(db, u, p.refs[i], row.refs[i].value);
    }
  }

  lemma MeetsByColumns(db: Database, u: UserId, p: Policy, row: Row)
    requires |p.refs| <= 2
    ensures Meets(db, u, p, row) <==> AllColumns(db, u, p, row)
  {
    hide Column;
  }

  /** The policies demand exactly this, of rows stored and of rows seen. */
  lemma {:induction false} PolicySpelledOut(db: Database, u: UserId, table: Table, row: Row)
    ensures Shaped(table, row) && Passes(db, Some(u), table, row) <==> Demanded(db, u, table, row)
    decreases Rank(table), 0
  {
    hide PolicyOf, Rank, Demanded, Named, Visible, Passes, Shaped, Meets, AllColumns;
    PoliciesWellFounded(table);
    TwoColumns(table);
    var p := PolicyOf(table);
    forall i | 0 <= i < |row.refs| == |p.refs| && row.refs[i].Some?
      ensures ColumnSeen(db, u, p.refs[i], row.refs[i].value)
    {
      VisibleSpelledOut(db, u, Key(p.refs[i].parent, row.refs[i].value));
    }
    MeetsByColumns(db, u, p, row);
    ColumnsSpelledOut(db, u, table, row);
    if Shaped(table, row) && Passes(db, Some(u), table, row) {
      PassesByColumns(db, u, table, row);
    }
    if AllColumns(db, u, p, row) {
      ColumnsPass(db, u, table, row);
    }
  }

  lemma {:induction false} VisibleSpelledOut(db: Database, u: UserId, key: Key)
    ensures Visible(db, Some(u), key) <==> Named(db, u, key.table, key.id)
    ensures Visible(db, Some(u), key) <==> key in db && Demanded(db, u, key.table, db[key])
    decreases Rank(key.table), 1
  {
    hide PolicyOf, Rank, Demanded, Passes;
    if key in db {
      PolicySpelledOut(db, u, key.table, db[key]);
    }
  }

  /** What a session selects: every row under the bypass, a tenant's rows when bound, nothing when unbound. */
  lemma SelectionSpelledOut(db: Database, ctx: Context)
    ensures ctx.Bypass? ==> Selected(db, ctx) == db
    ensures ctx == Bound(None) ==> Selected(db, ctx) == map[]
    ensures forall u, key :: ctx == Bound(Some(u)) ==>
              (key in Selected(db, ctx) <==> key in db && Demanded(db, u, key.table, db[key]))
              && (key in Selected(db, ctx) ==> Selected(db, ctx)[key] == db[key])
  {
    hide Demanded;
    if ctx.Bound? {
      UnboundSeesNothing(db);
      forall u, key | ctx == Bound(Some(u))
        ensures key in Selected(db, ctx) <==> key in db && Demanded(db, u, key.table, db[key])
      {
        VisibleSpelledOut(db, u, key);
      }
    }
  }

  // ---- What a tenant may write, and what it does ------------------------------------------------

  /** The row would belong to the tenant, and so does everything it names. */
  ghost predicate WouldBeOwned(db: Database, u: UserId, table: Table, row: Row)
    requires Shaped(table, row)
  {
    && (row.owner.Some? ==> row.owner == Some(u))
    && forall i :: 0 <= i < |row.refs| && row.refs[i].Some? ==>
         Parent(table, row, i) in db && OwnerOf(db, Parent(table, row, i)) == Some(u)
  }

  lemma PassesMeansOwnership(db: Database, u: UserId, table: Table, row: Row)
    requires Good(db) && Shaped(table, row)
    ensures Passes(db, Some(u), table, row) <==> WouldBeOwned(db, u, table, row)
  {
    forall i | 0 <= i < |row.refs| && row.refs[i].Some?
      ensures Visible(db, Some(u), Parent(table, row, i))
         <==> Parent(table, row, i) in db && OwnerOf(db, Parent(table, row, i)) == Some(u)
    {
      if Parent(table, row, i) in db {
        PoliciesMeanOwnership(db, Some(u), Parent(table, row, i));
      }
    }
  }

  /**
   * A tenant stores rows that would be its own, over its own rows or at unused keys, and deletes its own
   * rows unless a surviving row still needs what would go.
   */
  ghost predicate MayWrite(db: Database, u: UserId, w: Write) {
    match w
    case Insert(key, row) => key !in db && Shaped(key.table, row) && WouldBeOwned(db, u, key.table, row)
    case Update(key, row) =>
      && key in db && OwnerOf(db, key) == Some(u)
      && Shaped(key.table, row) && WouldBeOwned(db, u, key.table, row)
    case Delete(key) => key in db && OwnerOf(db, key) == Some(u) && !Held(db, key)
  }

  /** Exactly those statements take effect. */
  lemma MayWriteExactly(db: Database, u: UserId, w: Write)
    requires Good(db)
    ensures Permitted(db, u, w) <==> MayWrite(db, u, w)
  {
    hide Held, WouldBeOwned;
    if w.key in db {
      PoliciesMeanOwnership(db, Some(u), w.key);
    }
    if !w.Delete? && Shaped(w.key.table, w.row) {
      PassesMeansOwnership(db, u, w.key.table, w.row);
    }
  }

  /** A refused statement changes nothing; a stored row is there, a deleted one gone, and no other row appears. */
  lemma StatementTakesEffect(db: Database, u: UserId, w: Write)
    requires Good(db)
    ensures !Permitted(db, u, w) ==> Apply(db, u, w) == db
    ensures Permitted(db, u, w) && !w.Delete? ==> Apply(db, u, w) == db[w.key := w.row]
    ensures Permitted(db, u, w) && w.Delete? ==>
              && w.key !in Apply(db, u, w)
              && (forall key :: key in Apply(db, u, w) <==> key in db && !Doomed(db, w.key, key))
              && forall key :: key in Apply(db, u, w) ==>
                   && Apply(db, u, w)[key].owner == db[key].owner && Apply(db, u, w)[key].data == db[key].data
                   && |Apply(db, u, w)[key].refs| == |db[key].refs|
  {
    hide Held, Doomed, Cleared;
    if Permitted(db, u, w) && w.Delete? {
      forall key | key in db
        ensures Shaped(key.table, db[key])
        ensures var row := Cleared(db, w.key, key);
                row.owner == db[key].owner && row.data == db[key].data && |row.refs| == |db[key].refs|
      {
        assert RowGood(db, key.table, db[key]);
        ClearedKeepsShape(db, w.key, key);
      }
      RootIsDoomed(db, w.key);
    }
  }

  lemma RootIsDoomed(db: Database, root: Key)
    requires Good(db) && root in db
    ensures Doomed(db, root, root)
  {
    assert RowGood(db, root.table, db[root]);
  }

  // ---- How columns react to a deletion ----------------------------------------------------------

  /** Two columns are cleared, two refuse, all others take their row along. */
  lemma ReactionsSpelledOut(db: Database, key: Key, i: nat)
    requires key in db && Shaped(key.table, db[key]) && i < |db[key].refs| && db[key].refs[i].Some?
    ensures Follows(db, key, i, SetNull) <==> key.table in {Applications, MatchEvaluations}
    ensures Follows(db, key, i, Restrict) <==> i == 1 && key.table in {AssistantAnswers, DocumentAnalyses}
    ensures Follows(db, key, i, Cascade) <==> !Follows(db, key, i, SetNull) && !Follows(db, key, i, Restrict)
  {
  }

  /** Deleting a tracked opportunity deletes no other row; applications that named it no longer do. */
  lemma TrackedOpportunityGoes(db: Database, id: RowId, key: Key)
    requires Good(db) && Key(SavedOpportunities, id) in db && key in db && key != Key(SavedOpportunities, id)
    ensures !Held(db, Key(SavedOpportunities, id)) && key in Removed(db, Key(SavedOpportunities, id))
    ensures Removed(db, Key(SavedOpportunities, id))[key] ==
            if key.table == Applications && db[key].refs == [Some(id)] then db[key].(refs := [None]) else db[key]
  {
    var root := Key(SavedOpportunities, id);
    forall k
      ensures Doomed(db, root, k) <==> k == root
    {
      OnlyItself(db, root, k);
    }
    assert RowGood(db, key.table, db[key]);
    ClearedKeepsShape(db, root, key);
    forall k, i: nat | k in db && Shaped(k.table, db[k]) && Follows(db, k, i, Restrict)
      ensures Parent(k.table, db[k], i) != root
    {
      ReactionsSpelledOut(db, k, i);
    }
    forall i: nat | i < |db[key].refs|
      ensures Cleared(db, root, key).refs[i] ==
              if key.table == Applications && db[key].refs == [Some(id)] then None else db[key].refs[i]
    {
      if db[key].refs[i].Some? {
        ReactionsSpelledOut(db, key, i);
      }
    }
  }

  /** A row that cascading columns do not name goes alone. */
  lemma {:induction false} OnlyItself(db: Database, root: Key, key: Key)
    requires Good(db) && root in db && root.table == SavedOpportunities
    ensures Doomed(db, root, key) <==> key == root
    decreases Rank(key.table)
  {
    hide PolicyOf, Rank;
    PoliciesWellFounded(key.table);
    assert RowGood(db, root.table, db[root]);
    if key != root && Doomed(db, root, key) {
      var i: nat :| Follows(db, key, i, Cascade) && Doomed(db, root, Parent(key.table, db[key], i));
      OnlyItself(db, root, Parent(key.table, db[key], i));
      CascadesSpareTracked(db, key, i);
    }
  }

  lemma CascadesSpareTracked(db: Database, key: Key, i: nat)
    requires key in db && Shaped(key.table, db[key]) && Follows(db, key, i, Cascade)
    ensures Parent(key.table, db[key], i).table != SavedOpportunities
  {
  }
}
