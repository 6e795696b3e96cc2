/** From retrieved evidence to an answer whose every statement cites a stored citation. */
module AssistantCitations {
  import opened Common

  type OpportunityId = nat
  type SourceId = nat

  /** Ids drawn while composing are placeholders; ids of stored rows are what may remain. */
  datatype CitationId = Placeholder(n: nat) | Stored(n: nat)

  datatype AnswerType = DeadlineStatus | FundingCoverage | RequirementsChecklist | OtherQuestion

  datatype ClaimKey =
    | DegreeCountry | ApplicationDeadline | TuitionCoverage
    | FieldEligibility | NationalityEligibility | EnglishRequirement | RequiredDocuments

  datatype Excerpt = Excerpt(id: nat, capturedAt: nat)

  /** A retrieved opportunity with its source, and the sentences its record would be quoted by. */
  datatype Listing = Listing(
    opportunity: OpportunityId,
    source: SourceId,
    excerpts: seq<Excerpt>,
    degreeClaim: string,
    /** Present when a deadline is recorded and its window is open or upcoming. */
    deadlineClaim: Option<string>,
    fundingClaim: Option<string>,
    fieldClaim: Option<string>,
    nationalityClaim: Option<string>,
    englishClaim: Option<string>,
    documentsClaim: Option<string>
  )

  datatype Spec = Spec(opportunity: OpportunityId, source: SourceId, excerpts: seq<Excerpt>, claim: string,
                       key: ClaimKey)

  datatype Citation = Citation(
    id: CitationId, opportunity: OpportunityId, source: SourceId, excerpt: Option<nat>, claim: string, key: ClaimKey
  )

  /** A fact or a requirement, and a possible match. */
  datatype Statement = Statement(text: string, citations: seq<CitationId>)
  datatype Match = Match(opportunity: OpportunityId, citations: seq<CitationId>)

  datatype Draft = Draft(specs: seq<Spec>, facts: seq<Statement>, matches: seq<Match>, requirements: seq<Statement>)

  datatype Answer = Answer(facts: seq<Statement>, matches: seq<Match>, requirements: seq<Statement>,
                           citations: seq<Citation>)

  // ---- What is quoted ---------------------------------------------------------------------------

  function Quote(l: Listing, claim: Option<string>, key: ClaimKey): seq<Spec> {
    if claim.Some? then [Spec(l.opportunity, l.source, l.excerpts, claim.value, key)] else []
  }

  /** The claims quoted as facts, in order. */
  function FactQuotes(l: Listing, kind: AnswerType): seq<Spec> {
    Quote(l, Some(l.degreeClaim), DegreeCountry)
    + (if kind == DeadlineStatus then Quote(l, l.deadlineClaim, ApplicationDeadline) else [])
    + (if kind == FundingCoverage then Quote(l, l.fundingClaim, TuitionCoverage) else [])
    + (if kind == RequirementsChecklist
       then Quote(l, l.fieldClaim, FieldEligibility) + Quote(l, l.nationalityClaim, NationalityEligibility)
            + Quote(l, l.englishClaim, EnglishRequirement)
       else [])
  }

  function Quotes(l: Listing, kind: AnswerType): seq<Spec> {
    FactQuotes(l, kind) + Quote(l, l.documentsClaim, RequiredDocuments)
  }

  function AllQuotes(ls: seq<Listing>, kind: AnswerType): seq<Spec> {
    if ls == [] then [] else AllQuotes(ls[..|ls| - 1], kind) + Quotes(ls[|ls| - 1], kind)
  }

  /** The quotes stated as facts are all but the document lists, which are stated as requirements. */
  function Facts(specs: seq<Spec>): seq<Spec> {
    if specs == [] then []
    else
      var n := |specs| - 1;
      Facts(specs[..n]) + (if specs[n].key == RequiredDocuments then [] else [specs[n]])
  }

  function Documents(specs: seq<Spec>): seq<Spec> {
    if specs == [] then []
    else
      var n := |specs| - 1;
      Documents(specs[..n]) + (if specs[n].key == RequiredDocuments then [specs[n]] else [])
  }

  lemma FilterOneMore(specs: seq<Spec>, s: Spec)
    ensures Facts(specs + [s]) == Facts(specs) + (if s.key == RequiredDocuments then [] else [s])
    ensures Documents(specs + [s]) == Documents(specs) + (if s.key == RequiredDocuments then [s] else [])
  {
    assert (specs + [s])[..|specs|] == specs;
  }

  /** What a listing says under a claim key in an answer of this kind, if it says anything. */
  function Says(l: Listing, kind: AnswerType, key: ClaimKey): Option<string> {
    match key
    case DegreeCountry => Some(l.degreeClaim)
    case ApplicationDeadline => if kind == DeadlineStatus then l.deadlineClaim else None
    case TuitionCoverage => if kind == FundingCoverage then l.fundingClaim else None
    case FieldEligibility => if kind == RequirementsChecklist then l.fieldClaim else None
    case NationalityEligibility => if kind == RequirementsChecklist then l.nationalityClaim else None
    case EnglishRequirement => if kind == RequirementsChecklist then l.englishClaim else None
    case RequiredDocuments => l.documentsClaim
  }

  /** The order in which claims are quoted. */
  const CLAIM_ORDER: seq<ClaimKey> := [
    DegreeCountry, ApplicationDeadline, TuitionCoverage, FieldEligibility, NationalityEligibility, EnglishRequirement,
    RequiredDocuments
  ]

  function ClaimRank(key: ClaimKey): (n: nat)
    ensures n < |CLAIM_ORDER| && CLAIM_ORDER[n] == key
  {
    match key
    case DegreeCountry => 0
    case ApplicationDeadline => 1
    case TuitionCoverage => 2
    case FieldEligibility => 3
    case NationalityEligibility => 4
    case EnglishRequirement => 5
    case RequiredDocuments => 6
  }

  /** What a listing says under the first `n` keys, one quote for each. */
  function Said(l: Listing, kind: AnswerType, n: nat): seq<Spec>
    requires n <= |CLAIM_ORDER|
  {
    if n == 0 then []
    else
      var key := CLAIM_ORDER[n - 1];
      var said := Says(l, kind, key);
      Said(l, kind, n - 1)
      + if said.Some? then [Spec(l.opportunity, l.source, l.excerpts, said.value, key)] else []
  }

  lemma {:induction false} SaidInOrder(l: Listing, kind: AnswerType, n: nat)
    requires n <= |CLAIM_ORDER|
    ensures forall s :: s in Said(l, kind, n) <==>
              && ClaimRank(s.key) < n && Says(l, kind, s.key) == Some(s.claim)
              && s == Spec(l.opportunity, l.source, l.excerpts, s.claim, s.key)
    ensures forall i, j :: 0 <= i < j < |Said(l, kind, n)| ==>
              ClaimRank(Said(l, kind, n)[i].key) < ClaimRank(Said(l, kind, n)[j].key)
  {
    hide Says, ClaimRank;
    if n > 0 {
      SaidInOrder(l, kind, n - 1);
      RankOf(n - 1);
      var before := Said(l, kind, n - 1);
      assert forall i :: 0 <= i < |before| ==> before[i] in before;
      assert forall key: ClaimKey :: ClaimRank(key) < n <==> ClaimRank(key) < n - 1 || key == CLAIM_ORDER[n - 1];
    }
  }

  lemma RankOf(n: nat)
    requires n < |CLAIM_ORDER|
    ensures ClaimRank(CLAIM_ORDER[n]) == n
  {
  }

  lemma QuotesAreSaid(l: Listing, kind: AnswerType)
    ensures Quotes(l, kind) == Said(l, kind, 7)
  {
    hide Said;
    SaidNext(l, kind, 1);
    SaidNext(l, kind, 2);
    SaidNext(l, kind, 3);
    SaidNext(l, kind, 4);
    SaidNext(l, kind, 5);
    SaidNext(l, kind, 6);
    SaidNext(l, kind, 7);
    NothingSaid(l, kind);
  }

  lemma SaidNext(l: Listing, kind: AnswerType, n: nat)
    requires 0 < n <= |CLAIM_ORDER|
    ensures Said(l, kind, n) == Said(l, kind, n - 1) + Quote(l, Says(l, kind, CLAIM_ORDER[n - 1]), CLAIM_ORDER[n - 1])
  {
  }

  lemma NothingSaid(l: Listing, kind: AnswerType)
    ensures Said(l, kind, 0) == []
  {
  }

  /** A listing is quoted for exactly what it says, with its own source and excerpts, in the order of the keys. */
  lemma QuotesAreWhatIsSaid(l: Listing, kind: AnswerType)
    ensures forall s :: s in Quotes(l, kind) <==>
              && Says(l, kind, s.key) == Some(s.claim)
              && s == Spec(l.opportunity, l.source, l.excerpts, s.claim, s.key)
    ensures forall i, j :: 0 <= i < j < |Quotes(l, kind)| ==>
              ClaimRank(Quotes(l, kind)[i].key) < ClaimRank(Quotes(l, kind)[j].key)
  {
    hide Says, Quotes, Said, ClaimRank;
    QuotesAreSaid(l, kind);
    SaidInOrder(l, kind, 7);
  }

  lemma {:induction false} FilterMembers(specs: seq<Spec>, s: Spec)
    ensures s in Facts(specs) <==> s in specs && s.key != RequiredDocuments
    ensures s in Documents(specs) <==> s in specs && s.key == RequiredDocuments
  {
    if specs != [] {
      FilterMembers(specs[..|specs| - 1], s);
      assert specs == specs[..|specs| - 1] + [specs[|specs| - 1]];
    }
  }

  /** Statements say the claims of their quotes and carry one placeholder each. */
  ghost predicate States(statements: seq<Statement>, quotes: seq<Spec>) {
    |statements| == |quotes| && forall i :: 0 <= i < |quotes| ==> Drafted(statements[i], quotes[i])
  }

  predicate Drafted(s: Statement, q: Spec) {
    s.text == q.claim && |s.citations| == 1 && s.citations[0].Placeholder?
  }

  ghost predicate Proposes(matches: seq<Match>, ls: seq<Listing>) {
    |matches| == |ls|
    && forall i :: 0 <= i < |ls| ==>
         && matches[i].opportunity == ls[i].opportunity
         && |matches[i].citations| == 1 && matches[i].citations[0].Placeholder?
  }

  ghost predicate Composed(d: Draft, ls: seq<Listing>, kind: AnswerType) {
    && d.specs == AllQuotes(ls, kind)
    && States(d.facts, Facts(d.specs)) && States(d.requirements, Documents(d.specs))
    && Proposes(d.matches, ls)
  }

  // ---- Composing --------------------------------------------------------------------------------

  lemma QuotesOneMore(ls: seq<Listing>, l: Listing, kind: AnswerType)
    ensures AllQuotes(ls + [l], kind) == AllQuotes(ls, kind) + Quotes(l, kind)
  {
    assert (ls + [l])[..|ls|] == ls;
  }

  lemma ProposesOneMore(matches: seq<Match>, ls: seq<Listing>, m: Match, l: Listing)
    requires Proposes(matches, ls) && m.opportunity == l.opportunity && |m.citations| == 1
    requires m.citations[0].Placeholder?
    ensures Proposes(matches + [m], ls + [l])
  {
  }

  lemma DegreeQuote(l: Listing)
    ensures Quote(l, Some(l.degreeClaim), DegreeCountry) == [DegreeSpec(l)]
  {
  }

  /** A draft under construction, appended to in place. */
  class Composer {
    var specs: seq<Spec>
    var facts: seq<Statement>
    var matches: seq<Match>
    var requirements: seq<Statement>
    var drawn: nat

    ghost predicate Valid()
      reads this
    {
      States(facts, Facts(specs)) && States(requirements, Documents(specs))
    }

    constructor ()
      ensures Valid() && specs == [] && matches == []
    {
      specs, facts, matches, requirements, drawn := [], [], [], [], 0;
    }

    /** One more claim, stated as a fact unless it lists documents, under the given placeholder. */
    method Cite(l: Listing, claim: string, key: ClaimKey, ref: CitationId)
      requires Valid() && ref.Placeholder?
      modifies this`specs, this`facts, this`requirements
      ensures Valid() && specs == old(specs) + [Spec(l.opportunity, l.source, l.excerpts, claim, key)]
    {
      var spec := Spec(l.opportunity, l.source, l.excerpts, claim, key);
      FilterOneMore(specs, spec);
      specs := specs + [spec];
      if key == RequiredDocuments {
        requirements := requirements + [Statement(claim, [ref])];
      } else {
        facts := facts + [Statement(claim, [ref])];
      }
    }

    method CiteIfAny(l: Listing, claim: Option<string>, key: ClaimKey)
      requires Valid()
      modifies this`specs, this`facts, this`requirements, this`drawn
      ensures Valid() && specs == old(specs) + Quote(l, claim, key)
    {
      if claim.Some? {
        Cite(l, claim.value, key, Placeholder(drawn));
        drawn := drawn + 1;
      }
    }

    /** `done`: the listings already quoted and proposed. */
    method AddListing(ghost done: seq<Listing>, l: Listing, kind: AnswerType)
      requires Valid() && specs == AllQuotes(done, kind) && Proposes(matches, done)
      modifies this
      ensures Valid() && specs == AllQuotes(done + [l], kind) && Proposes(matches, done + [l])
    {
      hide Quote, States, Facts, Documents, AllQuotes, Proposes;
      QuotesOneMore(done, l, kind);
      ProposesOneMore(matches, done, Match(l.opportunity, [Placeholder(drawn)]), l);
      ghost var start := specs;
      DegreeQuote(l);
      var ref := Placeholder(drawn);
      drawn := drawn + 1;
      Cite(l, l.degreeClaim, DegreeCountry, ref);
      if kind == DeadlineStatus {
        CiteIfAny(l, l.deadlineClaim, ApplicationDeadline);
      }
      if kind == FundingCoverage {
        CiteIfAny(l, l.fundingClaim, TuitionCoverage);
      }
      if kind == RequirementsChecklist {
        CiteIfAny(l, l.fieldClaim, FieldEligibility);
        CiteIfAny(l, l.nationalityClaim, NationalityEligibility);
        CiteIfAny(l, l.englishClaim, EnglishRequirement);
      }
      assert specs == start + FactQuotes(l, kind);
      matches := matches + [Match(l.opportunity, [ref])];
      CiteIfAny(l, l.documentsClaim, RequiredDocuments);
    }
  }

  function FirstThree(ls: seq<Listing>): seq<Listing> {
    if |ls| <= 3 then ls else ls[..3]
  }

  /** At most the first three retrieved listings are used. */
  lemma FirstThreeAreUsed(ls: seq<Listing>)
    ensures FirstThree(ls) <= ls && |FirstThree(ls)| == if |ls| > 3 then 3 else |ls|
  {
  }

  method ComposeResponse(ls: seq<Listing>, kind: AnswerType) returns (d: Draft)
    ensures Composed(d, FirstThree(ls), kind)
  {
    NothingComposed(kind);
    var chosen := FirstThree(ls);
    assert chosen[..0] == [];
    var c := new Composer();
    hide States, Facts, Documents, Quotes, AllQuotes, Proposes, FirstThree;
    for i := 0 to |chosen|
      invariant c.Valid() && fresh(c)
      invariant c.specs == AllQuotes(chosen[..i], kind) && Proposes(c.matches, chosen[..i])
    {
      c.AddListing(chosen[..i], chosen[i], kind);
      assert chosen[..i + 1] == chosen[..i] + [chosen[i]];
    }
    assert chosen[..|chosen|] == chosen;
    d := Draft(c.specs, c.facts, c.matches, c.requirements);
  }

  lemma NothingComposed(kind: AnswerType)
    ensures AllQuotes([], kind) == [] && Proposes([], [])
  {
  }

  // ---- Storing ----------------------------------------------------------------------------------

  /** The most recently captured excerpt; the first of several captured together. */
  function Latest(excerpts: seq<Excerpt>): Option<nat> {
    var i := LatestIndex(excerpts);
    if i.Some? then Some(excerpts[i.value].id) else None
  }

  function LatestIndex(excerpts: seq<Excerpt>): (r: Option<nat>)
    ensures r.Some? <==> excerpts != []
    ensures r.Some? ==> r.value < |excerpts|
    ensures r.Some? ==> forall j :: 0 <= j < |excerpts| ==> excerpts[j].capturedAt <= excerpts[r.value].capturedAt
    ensures r.Some? ==> forall j :: 0 <= j < r.value ==> excerpts[j].capturedAt < excerpts[r.value].capturedAt
  {
    if excerpts == [] then None
    else
      var front := LatestIndex(excerpts[..|excerpts| - 1]);
      if front.Some? && excerpts[|excerpts| - 1].capturedAt <= excerpts[front.value].capturedAt then front
      else Some(|excerpts| - 1)
  }

  /** The row stored for a quote. */
  function Row(s: Spec, id: CitationId): Citation {
    Citation(id, s.opportunity, s.source, Latest(s.excerpts), s.claim, s.key)
  }

  ghost predicate StoredAs(cs: seq<Citation>, specs: seq<Spec>) {
    && |cs| == |specs|
    && (forall i :: 0 <= i < |cs| ==> cs[i].id.Stored? && cs[i] == Row(specs[i], cs[i].id))
    && forall i, j :: 0 <= i < j < |cs| ==> cs[i].id != cs[j].id
  }

  /** The excerpt was captured last, and before the others captured with it. */
  predicate Newest(excerpts: seq<Excerpt>, k: nat) {
    && k < |excerpts|
    && forall j :: 0 <= j < |excerpts| && j != k ==>
         excerpts[j].capturedAt < excerpts[k].capturedAt || (excerpts[j].capturedAt == excerpts[k].capturedAt && k < j)
  }

  /** A stored citation repeats its quote and names the newest excerpt of the source, if there is one. */
  lemma StoredRepeatsQuote(cs: seq<Citation>, specs: seq<Spec>, i: nat)
    requires StoredAs(cs, specs) && i < |specs|
    ensures var (c, s) := (cs[i], specs[i]);
            && c.id.Stored? && c.opportunity == s.opportunity && c.source == s.source
            && c.claim == s.claim && c.key == s.key
            && (s.excerpts == [] ==> c.excerpt == None)
            && (s.excerpts != [] ==>
                  exists k: nat :: Newest(s.excerpts, k) && c.excerpt == Some(s.excerpts[k].id))
  {
    var s := specs[i];
    assert cs[i] == Row(s, cs[i].id);
    if s.excerpts != [] {
      assert Newest(s.excerpts, LatestIndex(s.excerpts).value);
    }
  }

  /** `next` is the first unused id; the rows take the ids from there on. */
  method StoreCitations(specs: seq<Spec>, next: nat) returns (cs: seq<Citation>)
    ensures StoredAs(cs, specs)
    ensures forall i :: 0 <= i < |cs| ==> cs[i].id == Stored(next + i)
  {
    cs := [];
    for i := 0 to |specs|
      invariant |cs| == i
      invariant forall j :: 0 <= j < i ==> cs[j] == Row(specs[j], Stored(next + j))
    {
      cs := cs + [Row(specs[i], Stored(next + i))];
    }
  }

  // ---- Attaching --------------------------------------------------------------------------------

  /** The first stored citation that makes this claim. */
  function FirstClaiming(cs: seq<Citation>, text: string): (r: Option<nat>)
    ensures match r
            case Some(i) => i < |cs| && cs[i].claim == text && forall j :: 0 <= j < i ==> cs[j].claim != text
            case None => forall j :: 0 <= j < |cs| ==> cs[j].claim != text
  {
    if cs == [] then None
    else
      var front := FirstClaiming(cs[..|cs| - 1], text);
      if front.Some? then front else if cs[|cs| - 1].claim == text then Some(|cs| - 1) else None
  }

  predicate IsDegree(c: Citation, opportunity: OpportunityId) {
    c.key == DegreeCountry && c.opportunity == opportunity
  }

  predicate IsDocuments(c: Citation, text: string) {
    c.key == RequiredDocuments && c.claim == text
  }

  /** A fact cites the first citation with its text, a match its opportunity's last degree citation. */
  predicate FactAttached(before: Statement, after: Statement, cs: seq<Citation>) {
    && after.text == before.text
    && after.citations == (var i := FirstClaiming(cs, before.text);
                           if i.Some? then [cs[i.value].id] else before.citations)
  }

  ghost predicate MatchAttached(before: Match, after: Match, cs: seq<Citation>) {
    && after.opportunity == before.opportunity
    && if exists i :: 0 <= i < |cs| && IsDegree(cs[i], before.opportunity)
       then exists i :: 0 <= i < |cs| && IsDegree(cs[i], before.opportunity) && after.citations == [cs[i].id]
                        && forall j :: i < j < |cs| ==> !IsDegree(cs[j], before.opportunity)
       else after.citations == before.citations
  }

  /** A requirement cites the last document citation with its text. */
  ghost predicate RequirementAttached(before: Statement, after: Statement, cs: seq<Citation>) {
    && after.text == before.text
    && if exists i :: 0 <= i < |cs| && IsDocuments(cs[i], before.text)
       then exists i :: 0 <= i < |cs| && IsDocuments(cs[i], before.text) && after.citations == [cs[i].id]
                        && forall j :: i < j < |cs| ==> !IsDocuments(cs[j], before.text)
       else after.citations == before.citations
  }

  method AttachFact(fact: Statement, cs: seq<Citation>) returns (r: Statement)
    ensures FactAttached(fact, r, cs)
  {
    for i := 0 to |cs|
      invariant forall j :: 0 <= j < i ==> cs[j].claim != fact.text
    {
      if cs[i].claim == fact.text {
        return fact.(citations := [cs[i].id]);
      }
    }
    return fact;
  }

  method AttachRequirement(requirement: Statement, cs: seq<Citation>) returns (r: Statement)
    ensures RequirementAttached(requirement, r, cs)
  {
    r := requirement;
    ghost var last := -1;
    for i := 0 to |cs|
      invariant -1 <= last < i
      invariant forall j :: last < j < i ==> !IsDocuments(cs[j], requirement.text)
      invariant if last == -1 then r == requirement
                else IsDocuments(cs[last], requirement.text) && r == requirement.(citations := [cs[last].id])
    {
      if cs[i].key == RequiredDocuments && cs[i].claim == requirement.text {
        r := r.(citations := [cs[i].id]);
        last := i;
      }
    }
  }

  /** Degree citations by opportunity, later ones replacing earlier ones. */
  ghost predicate Indexed(byOpportunity: map<OpportunityId, CitationId>, cs: seq<Citation>) {
    forall o :: if exists i :: 0 <= i < |cs| && IsDegree(cs[i], o)
                then o in byOpportunity && LastDegree(cs, o, byOpportunity[o])
                else o !in byOpportunity
  }

  ghost predicate LastDegree(cs: seq<Citation>, o: OpportunityId, id: CitationId) {
    exists i :: 0 <= i < |cs| && IsDegree(cs[i], o) && id == cs[i].id
                && forall j :: i < j < |cs| ==> !IsDegree(cs[j], o)
  }

  method IndexByOpportunity(cs: seq<Citation>) returns (byOpportunity: map<OpportunityId, CitationId>)
    ensures Indexed(byOpportunity, cs)
  {
    byOpportunity := map[];
    for i := 0 to |cs|
      invariant Indexed(byOpportunity, cs[..i])
    {
      IndexOneMore(byOpportunity, cs[..i], cs[i]);
      assert cs[..i + 1] == cs[..i] + [cs[i]];
      if cs[i].key == DegreeCountry {
        byOpportunity := byOpportunity[cs[i].opportunity := cs[i].id];
      }
    }
    assert cs[..|cs|] == cs;
  }

  lemma IndexOneMore(m: map<OpportunityId, CitationId>, cs: seq<Citation>, c: Citation)
    requires Indexed(m, cs)
    ensures Indexed(if c.key == DegreeCountry then m[c.opportunity := c.id] else m, cs + [c])
  {
    var n := if c.key == DegreeCountry then m[c.opportunity := c.id] else m;
    var t := cs + [c];
    forall o
      ensures if exists i :: 0 <= i < |t| && IsDegree(t[i], o) then o in n && LastDegree(t, o, n[o]) else o !in n
    {
      if IsDegree(c, o) {
        assert IsDegree(t[|cs|], o);
        assert LastDegree(t, o, n[o]);
      } else if exists i :: 0 <= i < |cs| && IsDegree(cs[i], o) {
        var i :| 0 <= i < |cs| && IsDegree(cs[i], o) && m[o] == cs[i].id
                 && forall j :: i < j < |cs| ==> !IsDegree(cs[j], o);
        assert IsDegree(t[i], o);
        assert LastDegree(t, o, n[o]);
      }
    }
  }

  ghost predicate Attached(d: Draft, cs: seq<Citation>, a: Answer) {
    && a.citations == cs
    && |a.facts| == |d.facts| && (forall i :: 0 <= i < |d.facts| ==> FactAttached(d.facts[i], a.facts[i], cs))
    && |a.matches| == |d.matches|
    && (forall i :: 0 <= i < |d.matches| ==> MatchAttached(d.matches[i], a.matches[i], cs))
    && |a.requirements| == |d.requirements|
    && (forall i :: 0 <= i < |d.requirements| ==> RequirementAttached(d.requirements[i], a.requirements[i], cs))
  }

  method AttachCitations(d: Draft, cs: seq<Citation>) returns (a: Answer)
    ensures Attached(d, cs, a)
  {
    var byOpportunity := IndexByOpportunity(cs);
    var facts, matches, requirements := d.facts, d.matches, d.requirements;
    for i := 0 to |facts|
      invariant |facts| == |d.facts|
      invariant forall j :: 0 <= j < |facts| ==>
        if j < i then FactAttached(d.facts[j], facts[j], cs) else facts[j] == d.facts[j]
    {
      var fact := AttachFact(facts[i], cs);
      facts := facts[i := fact];
    }
    for i := 0 to |matches|
      invariant |matches| == |d.matches|
      invariant forall j :: 0 <= j < |matches| ==>
        if j < i then MatchAttached(d.matches[j], matches[j], cs) else matches[j] == d.matches[j]
    {
      if matches[i].opportunity in byOpportunity {
        matches := matches[i := matches[i].(citations := [byOpportunity[matches[i].opportunity]])];
      }
    }
    for i := 0 to |requirements|
      invariant |requirements| == |d.requirements|
      invariant forall j :: 0 <= j < |requirements| ==>
        if j < i then RequirementAttached(d.requirements[j], requirements[j], cs)
        else requirements[j] == d.requirements[j]
    {
      var requirement := AttachRequirement(requirements[i], cs);
      requirements := requirements[i := requirement];
    }
    a := Answer(facts, matches, requirements, cs);
  }

  // ---- No statement dangles ---------------------------------------------------------------------

  predicate Cites(ids: seq<CitationId>, c: Citation) {
    ids == [c.id]
  }

  ghost predicate FactGrounded(fact: Statement, cs: seq<Citation>) {
    exists c :: c in cs && Cites(fact.citations, c) && c.claim == fact.text
  }

  ghost predicate MatchGrounded(m: Match, cs: seq<Citation>) {
    exists c :: c in cs && Cites(m.citations, c) && c.key == DegreeCountry && c.opportunity == m.opportunity
  }

  ghost predicate RequirementGrounded(requirement: Statement, cs: seq<Citation>) {
    exists c :: c in cs && Cites(requirement.citations, c) && c.key == RequiredDocuments && c.claim == requirement.text
  }

  ghost predicate Grounded(a: Answer) {
    && (forall i :: 0 <= i < |a.facts| ==> FactGrounded(a.facts[i], a.citations))
    && (forall i :: 0 <= i < |a.matches| ==> MatchGrounded(a.matches[i], a.citations))
    && (forall i :: 0 <= i < |a.requirements| ==> RequirementGrounded(a.requirements[i], a.citations))
    && (forall c :: c in a.citations ==> c.id.Stored?)
  }

  lemma QuoteIsStored(cs: seq<Citation>, specs: seq<Spec>, s: Spec) returns (i: nat)
    requires StoredAs(cs, specs) && s in specs
    ensures i < |cs| && cs[i].claim == s.claim && cs[i].key == s.key && cs[i].opportunity == s.opportunity
  {
    i :| i < |specs| && specs[i] == s;
  }

  function DegreeSpec(l: Listing): Spec {
    Spec(l.opportunity, l.source, l.excerpts, l.degreeClaim, DegreeCountry)
  }

  lemma QuotesBegin(l: Listing, kind: AnswerType)
    ensures Quotes(l, kind) != [] && Quotes(l, kind)[0] == DegreeSpec(l)
    ensures forall s :: s in Quotes(l, kind) ==> s.opportunity == l.opportunity
  {
  }

  /** The quotes of a listing begin with its degree claim, right after the quotes of the listings before it. */
  lemma {:induction false} DegreeQuoteAt(ls: seq<Listing>, kind: AnswerType, q: nat)
    requires q < |ls|
    ensures var n := |AllQuotes(ls[..q], kind)|;
            && n < |AllQuotes(ls, kind)| && AllQuotes(ls, kind)[..n] == AllQuotes(ls[..q], kind)
            && AllQuotes(ls, kind)[n] == DegreeSpec(ls[q])
  {
    hide Quotes;
    var m := |ls| - 1;
    QuotesBegin(ls[m], kind);
    if q < m {
      DegreeQuoteAt(ls[..m], kind, q);
      assert ls[..m][..q] == ls[..q];
    }
  }

  lemma DegreeIsQuoted(ls: seq<Listing>, kind: AnswerType, i: nat)
    requires i < |ls|
    ensures DegreeSpec(ls[i]) in AllQuotes(ls, kind)
  {
    hide AllQuotes;
    DegreeQuoteAt(ls, kind, i);
  }

  /** With the provider that returns the draft unchanged, every statement of the answer is grounded. */
  lemma AnswersAreGrounded(ls: seq<Listing>, kind: AnswerType, d: Draft, cs: seq<Citation>, a: Answer)
    requires Composed(d, ls, kind) && StoredAs(cs, d.specs) && Attached(d, cs, a)
    ensures Grounded(a)
  {
    hide Composed, Facts, Documents, Attached, StoredAs;
    KeptSizes(d, cs, a);
    forall i | 0 <= i < |a.facts|
      ensures FactGrounded(a.facts[i], a.citations)
    {
      FactIsGrounded(ls, kind, d, cs, a, i);
      assert cs[FirstClaiming(cs, a.facts[i].text).value] in a.citations;
    }
    forall i | 0 <= i < |a.matches|
      ensures MatchGrounded(a.matches[i], a.citations)
    {
      MatchIsGrounded(ls, kind, d, cs, a, i);
    }
    forall i | 0 <= i < |a.requirements|
      ensures RequirementGrounded(a.requirements[i], a.citations)
    {
      RequirementIsGrounded(ls, kind, d, cs, a, i);
    }
    AllStored(cs, d.specs);
  }

  lemma KeptSizes(d: Draft, cs: seq<Citation>, a: Answer)
    requires Attached(d, cs, a)
    ensures |a.facts| == |d.facts| && |a.matches| == |d.matches| && |a.requirements| == |d.requirements|
    ensures a.citations == cs
  {
  }

  lemma AllStored(cs: seq<Citation>, specs: seq<Spec>)
    requires StoredAs(cs, specs)
    ensures forall c :: c in cs ==> c.id.Stored?
  {
  }

  lemma MatchIsGrounded(ls: seq<Listing>, kind: AnswerType, d: Draft, cs: seq<Citation>, a: Answer, i: nat)
    requires Composed(d, ls, kind) && StoredAs(cs, d.specs) && Attached(d, cs, a) && i < |a.matches|
    ensures MatchGrounded(a.matches[i], a.citations)
  {
    hide States, Facts, Documents;
    DegreeIsQuoted(ls, kind, i);
    var k := QuoteIsStored(cs, d.specs, DegreeSpec(ls[i]));
    assert IsDegree(cs[k], d.matches[i].opportunity);
    assert MatchAttached(d.matches[i], a.matches[i], cs);
    var j :| 0 <= j < |cs| && IsDegree(cs[j], d.matches[i].opportunity) && a.matches[i].citations == [cs[j].id];
    assert Cites(a.matches[i].citations, cs[j]);
  }

  lemma RequirementIsGrounded(ls: seq<Listing>, kind: AnswerType, d: Draft, cs: seq<Citation>, a: Answer, i: nat)
    requires Composed(d, ls, kind) && StoredAs(cs, d.specs) && Attached(d, cs, a) && i < |a.requirements|
    ensures RequirementGrounded(a.requirements[i], a.citations)
  {
    hide Facts, Documents, Proposes;
    var s := Documents(d.specs)[i];
    FilterMembers(d.specs, s);
    var k := QuoteIsStored(cs, d.specs, s);
    assert Drafted(d.requirements[i], s);
    assert IsDocuments(cs[k], d.requirements[i].text);
    assert RequirementAttached(d.requirements[i], a.requirements[i], cs);
    var j :| 0 <= j < |cs| && IsDocuments(cs[j], d.requirements[i].text) && a.requirements[i].citations == [cs[j].id];
    assert Cites(a.requirements[i].citations, cs[j]);
  }

  lemma FactIsGrounded(ls: seq<Listing>, kind: AnswerType, d: Draft, cs: seq<Citation>, a: Answer, i: nat)
    requires Composed(d, ls, kind) && StoredAs(cs, d.specs) && Attached(d, cs, a) && i < |a.facts|
    ensures FirstClaiming(cs, a.facts[i].text).Some?
    ensures Cites(a.facts[i].citations, cs[FirstClaiming(cs, a.facts[i].text).value])
    ensures a.facts[i].text == Facts(d.specs)[i].claim
  {
    var s := Facts(d.specs)[i];
    FilterMembers(d.specs, s);
    var k := QuoteIsStored(cs, d.specs, s);
    assert Drafted(d.facts[i], s);
    assert FactAttached(d.facts[i], a.facts[i], cs);
  }

  /** The first citation with a text is the one stored for the first quote with it. */
  lemma FirstIsStored(cs: seq<Citation>, specs: seq<Spec>, text: string, k: nat)
    requires StoredAs(cs, specs) && k < |specs| && specs[k].claim == text
    requires forall j :: 0 <= j < k ==> specs[j].claim != text
    ensures k < |cs| && FirstClaiming(cs, text) == Some(k) && cs[k].opportunity == specs[k].opportunity
  {
  }

  /** A statement that cites one stored record cites no other. */
  lemma OnlyOneCited(cs: seq<Citation>, specs: seq<Spec>, ids: seq<CitationId>, k: nat)
    requires StoredAs(cs, specs) && k < |cs| && Cites(ids, cs[k])
    ensures forall c :: c in cs && Cites(ids, c) ==> c == cs[k]
  {
  }

  /**
   * A fact cites its own opportunity's record exactly when the first quote with its very text is that
   * opportunity's: listings quoted in the same words share the first one's citation.
   */
  lemma FactCitesOwnRecord(ls: seq<Listing>, kind: AnswerType, d: Draft, cs: seq<Citation>, a: Answer, i: nat, k: nat)
    requires Composed(d, ls, kind) && StoredAs(cs, d.specs) && Attached(d, cs, a) && i < |a.facts|
    requires k < |d.specs| && d.specs[k].claim == a.facts[i].text
    requires forall j :: 0 <= j < k ==> d.specs[j].claim != a.facts[i].text
    ensures (exists c ::
               c in a.citations && Cites(a.facts[i].citations, c) && c.opportunity == Facts(d.specs)[i].opportunity)
            <==> d.specs[k].opportunity == Facts(d.specs)[i].opportunity
  {
    FactIsGrounded(ls, kind, d, cs, a, i);
    KeptSizes(d, cs, a);
    hide Composed, Facts, Attached, StoredAs, AllQuotes;
    FirstIsStored(cs, d.specs, a.facts[i].text, k);
    OnlyOneCited(cs, d.specs, a.facts[i].citations, k);
  }

  /** Compose, store and attach, with the evidence-template provider in between. */
  method AnswerFromEvidence(ls: seq<Listing>, kind: AnswerType, next: nat) returns (a: Answer)
    ensures Grounded(a)
    ensures StoredAs(a.citations, AllQuotes(FirstThree(ls), kind))
    ensures |a.matches| == |FirstThree(ls)| && forall i :: 0 <= i < |a.matches| ==>
      a.matches[i].opportunity == ls[i].opportunity
  {
    var d := ComposeResponse(ls, kind);
    var cs := StoreCitations(d.specs, next);
    a := AttachCitations(d, cs);
    AnswersAreGrounded(FirstThree(ls), kind, d, cs, a);
    forall i | 0 <= i < |a.matches|
      ensures a.matches[i].opportunity == ls[i].opportunity
    {
      assert MatchAttached(d.matches[i], a.matches[i], cs);
    }
  }

  // ---- Listings in the same words ---------------------------------------------------------------

  /** Every quote is of a listing. */
  lemma {:induction false} QuotesAreOwned(ls: seq<Listing>, kind: AnswerType, n: nat)
    requires n < |AllQuotes(ls, kind)|
    ensures exists p :: 0 <= p < |ls| && AllQuotes(ls, kind)[n].opportunity == ls[p].opportunity
  {
    hide Quotes;
    var m := |ls| - 1;
    QuotesBegin(ls[m], kind);
    if n < |AllQuotes(ls[..m], kind)| {
      QuotesAreOwned(ls[..m], kind, n);
      var p :| 0 <= p < m && AllQuotes(ls[..m], kind)[n].opportunity == ls[..m][p].opportunity;
      assert AllQuotes(ls, kind)[n].opportunity == ls[p].opportunity;
    } else {
      assert AllQuotes(ls, kind)[n] in Quotes(ls[m], kind);
      assert AllQuotes(ls, kind)[n].opportunity == ls[m].opportunity;
    }
  }

  /** A quote stated as a fact is the fact right after those of the quotes before it. */
  lemma {:induction false} FactAt(specs: seq<Spec>, n: nat)
    requires n < |specs| && specs[n].key != RequiredDocuments
    ensures var i := |Facts(specs[..n])|;
            i < |Facts(specs)| && Facts(specs)[i] == specs[n]
    decreases |specs|
  {
    var m := |specs| - 1;
    if n < m {
      FactAt(specs[..m], n);
      assert specs[..m][..n] == specs[..n];
    }
  }

  /** The first quote with the words of the quote at `n`. */
  lemma FirstQuoteWith(specs: seq<Spec>, claim: string, n: nat) returns (k: nat)
    requires n < |specs| && specs[n].claim == claim
    ensures k <= n && specs[k].claim == claim && forall j :: 0 <= j < k ==> specs[j].claim != claim
  {
    k := 0;
    while specs[k].claim != claim
      invariant k <= n && forall j :: 0 <= j < k ==> specs[j].claim != claim
      decreases n - k
    {
      k := k + 1;
    }
  }

  /** Of the quotes in the words of a later listing, the first is of another opportunity. */
  lemma EarlierTwin(ls: seq<Listing>, kind: AnswerType, p: nat, q: nat) returns (k: nat)
    requires p < q < |ls| && ls[p].degreeClaim == ls[q].degreeClaim
    requires forall j :: 0 <= j < q ==> ls[j].opportunity != ls[q].opportunity
    ensures k < |AllQuotes(ls, kind)| && AllQuotes(ls, kind)[k].claim == ls[q].degreeClaim
    ensures forall j :: 0 <= j < k ==> AllQuotes(ls, kind)[j].claim != ls[q].degreeClaim
    ensures AllQuotes(ls, kind)[k].opportunity != ls[q].opportunity
  {
    hide AllQuotes;
    var (specs, n) := (AllQuotes(ls, kind), |AllQuotes(ls[..q], kind)|);
    DegreeQuoteAt(ls, kind, q);
    DegreeQuoteAt(ls[..q], kind, p);
    k := FirstQuoteWith(specs, ls[q].degreeClaim, |AllQuotes(ls[..q][..p], kind)|);
    QuotesAreOwned(ls[..q], kind, k);
    assert specs[k] == specs[..n][k];
  }

  /**
   * Opportunities listed in the same words: if the degree claim of an earlier listing reads the same, the
   * fact that states a listing's claim cites no record of its own opportunity.
   */
  lemma TwinsShareACitation(ls: seq<Listing>, kind: AnswerType, a: Answer, d: Draft, cs: seq<Citation>, p: nat, q: nat)
    requires Composed(d, ls, kind) && StoredAs(cs, d.specs) && Attached(d, cs, a)
    requires p < q < |ls| && ls[p].degreeClaim == ls[q].degreeClaim
    requires forall j :: 0 <= j < q ==> ls[j].opportunity != ls[q].opportunity
    ensures var i := |Facts(AllQuotes(ls[..q], kind))|;
            && i < |a.facts| && Facts(d.specs)[i] == DegreeSpec(ls[q])
            && !exists c :: c in a.citations && Cites(a.facts[i].citations, c) && c.opportunity == ls[q].opportunity
  {
    var n := |AllQuotes(ls[..q], kind)|;
    DegreeQuoteAt(ls, kind, q);
    FactAt(d.specs, n);
    var i := |Facts(d.specs[..n])|;
    hide Facts, Documents, AllQuotes, Proposes, StoredAs, Attached;
    FactIsGrounded(ls, kind, d, cs, a, i);
    var k := EarlierTwin(ls, kind, p, q);
    FactCitesOwnRecord(ls, kind, d, cs, a, i, k);
  }
}
