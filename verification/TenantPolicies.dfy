/** The row-level policies of the thirty protected tables, and what they amount to. */
module TenantPolicies {
  import opened Common

  type UserId = nat
  type RowId = nat

  datatype Table =
    // direct policies
    | StudentProfiles | SavedOpportunities | NotificationPreferences | AssistantConversations | EvidencePackets
    | PrivacyPreferences | DocumentAssets
    | CommunityPreferences | CommunityBookmarks | CommunityBlocks | CommunityReports
    // relational policies
    | Applications | ApplicationTasks | ApplicationReminders | ApplicationEvents | ApplicationDocuments
    | AssistantMessages | AssistantAnswers | AssistantCitations | AssistantFeedback
    | DocumentVersions | DocumentExtractions | DocumentConsents | DocumentAnalyses | DocumentFeedbackItems
    | DocumentAnalysisJobs | ApplicationDocumentLinks
    | MatchEvaluations | MatchEvaluationResults | MatchRuleOutcomes

  datatype OnDelete = Cascade | SetNull | Restrict

  /** A column a policy follows: EXISTS over the parent, or IS NULL OR EXISTS when nullable. */
  datatype Reference = Reference(parent: Table, nullable: bool, onDelete: OnDelete)

  /** `owned`: the predicate compares the owner column with the current tenant. */
  datatype Policy = Policy(owned: bool, refs: seq<Reference>)

  function Must(parent: Table): Reference {
    Reference(parent, false, Cascade)
  }

  function PolicyOf(table: Table): Policy {
    match table
    case Applications => Policy(true, [Reference(SavedOpportunities, true, SetNull)])
    case ApplicationTasks => Policy(false, [Must(Applications)])
    case ApplicationReminders => Policy(false, [Must(Applications)])
    case ApplicationEvents => Policy(false, [Must(Applications)])
    case ApplicationDocuments => Policy(false, [Must(Applications)])
    case AssistantMessages => Policy(false, [Must(AssistantConversations)])
    case AssistantAnswers => Policy(true, [Must(AssistantConversations), Reference(EvidencePackets, false, Restrict)])
    case AssistantCitations => Policy(false, [Must(AssistantAnswers)])
    case AssistantFeedback => Policy(true, [Must(AssistantAnswers)])
    case DocumentVersions => Policy(true, [Must(DocumentAssets)])
    case DocumentExtractions => Policy(true, [Must(DocumentVersions)])
    case DocumentConsents => Policy(true, [Must(DocumentVersions)])
    case DocumentAnalyses => Policy(true, [Must(DocumentVersions), Reference(DocumentConsents, false, Restrict)])
    case DocumentFeedbackItems => Policy(false, [Must(DocumentAnalyses)])
    case DocumentAnalysisJobs => Policy(true, [Must(DocumentVersions), Reference(DocumentAnalyses, true, Cascade)])
    case ApplicationDocumentLinks => Policy(true, [Must(ApplicationDocuments), Must(DocumentVersions)])
    case MatchEvaluations => Policy(true, [Reference(StudentProfiles, true, SetNull)])
    case MatchEvaluationResults => Policy(false, [Must(MatchEvaluations)])
    case MatchRuleOutcomes => Policy(false, [Must(MatchEvaluationResults)])
    case _ => Policy(true, [])
  }

  /** Why the recursion through policies ends: every policy only asks about tables of lower rank. */
  function Rank(table: Table): nat {
    match table
    case Applications => 1
    case ApplicationTasks => 2
    case ApplicationReminders => 2
    case ApplicationEvents => 2
    case ApplicationDocuments => 2
    case AssistantMessages => 1
    case AssistantAnswers => 1
    case AssistantCitations => 2
    case AssistantFeedback => 2
    case DocumentVersions => 1
    case DocumentExtractions => 2
    case DocumentConsents => 2
    case DocumentAnalyses => 3
    case DocumentFeedbackItems => 4
    case DocumentAnalysisJobs => 4
    case ApplicationDocumentLinks => 3
    case MatchEvaluations => 1
    case MatchEvaluationResults => 2
    case MatchRuleOutcomes => 3
    case _ => 0
  }

  /** The policies are acyclic, a table without an owner column has a mandatory parent, and deletion fits. */
  lemma PoliciesWellFounded(table: Table)
    ensures var p := PolicyOf(table);
            && (forall i :: 0 <= i < |p.refs| ==> Rank(p.refs[i].parent) < Rank(table))
            && (!p.owned ==> |p.refs| == 1 && p.refs[0] == Must(p.refs[0].parent))
            && (forall i :: 0 <= i < |p.refs| && p.refs[i].onDelete == SetNull ==> p.owned && p.refs[i].nullable)
  {
  }

  // ---- Rows -------------------------------------------------------------------------------------

  datatype Key = Key(table: Table, id: RowId)

  /** The owner column where the policy reads one, the followed columns in policy order, and the rest. */
  datatype Row = Row(owner: Option<UserId>, refs: seq<Option<RowId>>, data: nat)

  type Database = map<Key, Row>

  /** NOT NULL columns are filled. */
  predicate Shaped(table: Table, row: Row) {
    var p := PolicyOf(table);
    && (p.owned <==> row.owner.Some?)
    && |row.refs| == |p.refs|
    && forall i :: 0 <= i < |p.refs| ==> p.refs[i].nullable || row.refs[i].Some?
  }

  /** The parent that a filled column names. */
  function Parent(table: Table, row: Row, i: nat): Key
    requires Shaped(table, row) && i < |row.refs| && row.refs[i].Some?
  {
    Key(PolicyOf(table).refs[i].parent, row.refs[i].value)
  }

  // ---- The policies, as the database evaluates them ---------------------------------------------

  /** The policy predicate on a row; its subqueries see only rows their own policies let through. */
  ghost predicate Passes(db: Database, tenant: Option<UserId>, table: Table, row: Row)
    requires Shaped(table, row)
    decreases Rank(table), 0
  {
    PoliciesWellFounded(table);
    && (PolicyOf(table).owned ==> tenant.Some? && row.owner == tenant)
    && forall i :: 0 <= i < |row.refs| && row.refs[i].Some? ==> Visible(db, tenant, Parent(table, row, i))
  }

  ghost predicate Visible(db: Database, tenant: Option<UserId>, key: Key)
    decreases Rank(key.table), 1
  {
    key in db && Shaped(key.table, db[key]) && Passes(db, tenant, key.table, db[key])
  }

  /** What a session selects: everything under the bypass, otherwise what its tenant may see. */
  datatype Context = Bypass | Bound(tenant: Option<UserId>)

  ghost function Selected(db: Database, ctx: Context): Database {
    match ctx
    case Bypass => db
    case Bound(tenant) => View(db, tenant)
  }

  ghost function View(db: Database, tenant: Option<UserId>): Database {
    map key | key in db && Visible(db, tenant, key) :: db[key]
  }

  // ---- Ownership --------------------------------------------------------------------------------

  /** The owner at the root: the row's own, or that of the parent it hangs on. */
  ghost function RowOwner(db: Database, table: Table, row: Row): Option<UserId>
    requires Shaped(table, row)
    decreases Rank(table), 0
  {
    PoliciesWellFounded(table);
    if PolicyOf(table).owned then row.owner else OwnerOf(db, Parent(table, row, 0))
  }

  ghost function OwnerOf(db: Database, key: Key): Option<UserId>
    decreases Rank(key.table), 1
  {
    if key in db && Shaped(key.table, db[key]) then RowOwner(db, key.table, db[key]) else None
  }

  /** Columns are filled and foreign keys resolve. */
  ghost predicate Intact(db: Database) {
    forall key :: key in db ==> RowIntact(db, key.table, db[key])
  }

  predicate RowIntact(db: Database, table: Table, row: Row) {
    Shaped(table, row) && forall i :: 0 <= i < |row.refs| && row.refs[i].Some? ==> Parent(table, row, i) in db
  }

  /** Every row has the owner its parents have. */
  ghost predicate Good(db: Database) {
    forall key :: key in db ==> RowGood(db, key.table, db[key])
  }

  ghost predicate RowGood(db: Database, table: Table, row: Row) {
    && RowIntact(db, table, row)
    && forall i :: 0 <= i < |row.refs| && row.refs[i].Some? ==>
         OwnerOf(db, Parent(table, row, i)) == RowOwner(db, table, row)
  }

  // ---- What the policies amount to --------------------------------------------------------------

  /** On any database at all: a visible row has the tenant at its root. */
  lemma {:induction false} VisibleMeansOwned(db: Database, tenant: Option<UserId>, key: Key)
    requires Visible(db, tenant, key)
    ensures tenant.Some? && OwnerOf(db, key) == tenant
    decreases Rank(key.table)
  {
    PoliciesWellFounded(key.table);
    if !PolicyOf(key.table).owned {
      VisibleMeansOwned(db, tenant, Parent(key.table, db[key], 0));
    }
  }

  lemma PassingMeansOwned(db: Database, tenant: Option<UserId>, table: Table, row: Row)
    requires Shaped(table, row) && Passes(db, tenant, table, row)
    ensures tenant.Some? && RowOwner(db, table, row) == tenant
    ensures forall i :: 0 <= i < |row.refs| && row.refs[i].Some? ==>
              Parent(table, row, i) in db && OwnerOf(db, Parent(table, row, i)) == tenant
  {
    PoliciesWellFounded(table);
    forall i | 0 <= i < |row.refs| && row.refs[i].Some?
      ensures Parent(table, row, i) in db && OwnerOf(db, Parent(table, row, i)) == tenant
    {
      VisibleMeansOwned(db, tenant, Parent(table, row, i));
    }
    if !PolicyOf(table).owned {
      VisibleMeansOwned(db, tenant, Parent(table, row, 0));
    }
  }

  /** An unbound session sees no row and may write none. */
  lemma UnboundSeesNothing(db: Database)
    ensures View(db, None) == map[]
    ensures forall table, row :: Shaped(table, row) ==> !Passes(db, None, table, row)
  {
    forall key
      ensures !Visible(db, None, key)
    {
      if Visible(db, None, key) {
        VisibleMeansOwned(db, None, key);
      }
    }
    forall table, row | Shaped(table, row)
      ensures !Passes(db, None, table, row)
    {
      if Passes(db, None, table, row) {
        PassingMeansOwned(db, None, table, row);
      }
    }
  }

  lemma {:induction false} OwnerKnown(db: Database, key: Key)
    requires Good(db) && key in db
    ensures OwnerOf(db, key).Some?
    decreases Rank(key.table)
  {
    PoliciesWellFounded(key.table);
    assert RowGood(db, key.table, db[key]);
    if !PolicyOf(key.table).owned {
      OwnerKnown(db, Parent(key.table, db[key], 0));
    }
  }

  /** The recursive policies collapse to one comparison: the tenant sees exactly the rows it owns at the root. */
  lemma {:induction false} PoliciesMeanOwnership(db: Database, tenant: Option<UserId>, key: Key)
    requires Good(db) && key in db
    ensures Visible(db, tenant, key) <==> tenant.Some? && OwnerOf(db, key) == tenant
    decreases Rank(key.table)
  {
    var row := db[key];
    PoliciesWellFounded(key.table);
    assert RowGood(db, key.table, row);
    if Visible(db, tenant, key) {
      VisibleMeansOwned(db, tenant, key);
    } else if tenant.Some? && OwnerOf(db, key) == tenant {
      forall i | 0 <= i < |row.refs| && row.refs[i].Some?
        ensures Visible(db, tenant, Parent(key.table, row, i))
      {
        PoliciesMeanOwnership(db, tenant, Parent(key.table, row, i));
      }
    }
  }

  /** Agreement of owners is not just enough but needed: it holds exactly when no row is hidden from its owner. */
  lemma GoodIffOwnersSeeTheirRows(db: Database)
    requires Intact(db)
    ensures Good(db) <==> forall key :: key in db ==> Visible(db, OwnerOf(db, key), key)
  {
    if Good(db) {
      forall key | key in db
        ensures Visible(db, OwnerOf(db, key), key)
      {
        OwnerKnown(db, key);
        PoliciesMeanOwnership(db, OwnerOf(db, key), key);
      }
    }
    if forall key :: key in db ==> Visible(db, OwnerOf(db, key), key) {
      forall key | key in db
        ensures RowGood(db, key.table, db[key])
      {
        assert RowIntact(db, key.table, db[key]);
        PassingMeansOwned(db, OwnerOf(db, key), key.table, db[key]);
      }
    }
  }
}
