/** The competitor opportunity migration, its downgrade, and what both keep. */
module OpportunityWorkflow {
  import opened Options
  import opened OpportunityScore
  import opened OpportunityTables

  // ----- What the upgrade leaves ---------------------------------------------------

  /** A ranking lost its details and points to the one opportunity with its run and keyword. */
  predicate IsMoved(opportunities: Opportunities, before: Ranking, after: Ranking)
    requires before.details.Some?
  {
    && after == before.(details := None, opportunity := after.opportunity)
    && after.opportunity.Some? && after.opportunity.value in opportunities
    && PairOf(opportunities[after.opportunity.value]) == Pair(before)
  }

  /** One opportunity for every run and keyword. */
  predicate UniquePair(opportunities: Opportunities) {
    forall o, p | o in opportunities && p in opportunities ::
      PairOf(opportunities[o]) == PairOf(opportunities[p]) ==> o == p
  }

  /** The opportunity carries the owner, the details and the creation time of this ranking. */
  predicate IsOfRow(o: Opportunity, r: Ranking) {
    && o.organization == r.organization && o.project == r.project && o.run == r.run
    && Some(o.details) == r.details && o.createdAt == r.createdAt
  }

  /** It is that of a first ranking of its group. */
  predicate HasRepresentative(before: Rankings, o: Opportunity)
    requires HasDetails(before)
  {
    exists i | i in before :: IsRepresentative(before, PairOf(o), i) && IsOfRow(o, before[i])
  }

  /** Its rollups are those of the rankings that point to it, of which there is at least one. */
  predicate HasRollups(ln: Logarithm, rankings: Rankings, id: Id, o: Opportunity) {
    && Group(rankings, id) != {}
    && IsBestRank(rankings, Group(rankings, id), o.bestRank)
    && o.competitorCount == |Group(rankings, id)|
    && o.score == Some(ScoreOf(ln, o.details, o.bestRank, o.competitorCount))
  }

  predicate AllMoved(opportunities: Opportunities, before: Rankings, rankings: Rankings)
    requires HasDetails(before)
  {
    && rankings.Keys == before.Keys
    && forall i {:trigger IsMoved(opportunities, before[i], rankings[i])} | i in before ::
         IsMoved(opportunities, before[i], rankings[i])
  }

  predicate AllRepresented(before: Rankings, opportunities: Opportunities)
    requires HasDetails(before)
  {
    forall o {:trigger HasRepresentative(before, opportunities[o])} | o in opportunities ::
      HasRepresentative(before, opportunities[o])
  }

  predicate AllRolledUp(ln: Logarithm, rankings: Rankings, opportunities: Opportunities) {
    forall o {:trigger HasRollups(ln, rankings, o, opportunities[o])} | o in opportunities ::
      HasRollups(ln, rankings, o, opportunities[o])
  }

  predicate IsUpgraded(ln: Logarithm, before: Rankings, rankings: Rankings, opportunities: Opportunities)
    requires HasDetails(before)
  {
    && AllMoved(opportunities, before, rankings) && UniquePair(opportunities)
    && AllRepresented(before, opportunities) && AllRolledUp(ln, rankings, opportunities)
  }

  /** `upgrade`, from the insert on. It fails, and is rolled back, exactly when two groups of
      rankings would get the same opportunity id. */
  method Upgrade(t: Tables) returns (ok: bool)
    requires HasDetails(t.rankings) && UniqueKeyword(t.rankings) && t.opportunities == map[]
    modifies t
    ensures ok <==> IdsAreDistinct(t.md5, Pairs(old(t.rankings)))
    ensures ok ==> IsUpgraded(t.ln, old(t.rankings), t.rankings, t.opportunities)
    ensures ok ==> UniqueOpportunity(t.rankings) && AreNamed(t.md5, t.opportunities)
  {
    ghost var before := t.rankings;
    ok := t.InsertOpportunities();
    if !ok { return; }
    InsertedPairs(t.md5, before, t.opportunities);
    ghost var inserted := t.opportunities;
    t.LinkRankings();
    ghost var linked := t.rankings;
    t.DropDetails();
    MovedFromLinked(before, linked, t.rankings, inserted);
    t.RefreshOpportunityRollups();
    EveryGroupIsRolledUp(t.ln, before, t.rankings, inserted, t.opportunities);
    RollupsKeepKeys(before, t.rankings, inserted, t.opportunities);
    PairIsUnique(before, t.rankings, t.opportunities);
  }

  /** Ids are made of the digest of run and keyword with a colon in between. */
  predicate AreNamed(md5: string -> string, opportunities: Opportunities) {
    forall o | o in opportunities ::
      o == "opportunity-" + md5(opportunities[o].run + ":" + opportunities[o].details.normalizedKeyword)
  }

  /** Every group of rankings has an opportunity. */
  predicate Covers(opportunities: Opportunities, before: Rankings)
    requires HasDetails(before)
  {
    forall i | i in before :: exists o | o in opportunities :: PairOf(opportunities[o]) == Pair(before[i])
  }

  lemma InsertedOne(md5: string -> string, before: Rankings, inserted: Opportunities, o: Id)
    requires HasDetails(before) && AreInserted(md5, before, inserted, Pairs(before)) && o in inserted
    ensures HasRepresentative(before, inserted[o]) && PairOf(inserted[o]) in Pairs(before)
    ensures o == OpportunityId(md5, PairOf(inserted[o]))
  {
    var pair :| pair in Pairs(before) && o == OpportunityId(md5, pair);
    assert IsInserted(before, inserted[o], pair);
  }

  lemma InsertedPairs(md5: string -> string, before: Rankings, inserted: Opportunities)
    requires HasDetails(before) && AreInserted(md5, before, inserted, Pairs(before))
    ensures Covers(inserted, before) && UniquePair(inserted) && AllRepresented(before, inserted)
    ensures AreNamed(md5, inserted) && forall o | o in inserted :: PairOf(inserted[o]) in Pairs(before)
  {
    forall i | i in before ensures exists o | o in inserted :: PairOf(inserted[o]) == Pair(before[i]) {
      var pair := Pair(before[i]);
      assert pair in Pairs(before);
      assert IsInserted(before, inserted[OpportunityId(md5, pair)], pair);
    }
    forall o | o in inserted
      ensures HasRepresentative(before, inserted[o]) && PairOf(inserted[o]) in Pairs(before)
      ensures o == OpportunityId(md5, PairOf(inserted[o]))
    {
      InsertedOne(md5, before, inserted, o);
    }
  }

  lemma MovedFromLinked(before: Rankings, linked: Rankings, moved: Rankings, inserted: Opportunities)
    requires HasDetails(before) && linked.Keys == before.Keys && Covers(inserted, before)
    requires forall i | i in linked :: IsLinked(inserted, before[i], linked[i])
    requires moved == map i | i in linked :: linked[i].(details := None)
    ensures AllMoved(inserted, before, moved)
  {
    forall i | i in before ensures IsMoved(inserted, before[i], moved[i]) {
      assert IsLinked(inserted, before[i], linked[i]);
    }
  }

  /** The rollups touch neither keys nor details. */
  predicate SameButRollups(inserted: Opportunities, after: Opportunities) {
    && after.Keys == inserted.Keys
    && forall o | o in after ::
         after[o] == inserted[o].(bestRank := after[o].bestRank, competitorCount := after[o].competitorCount,
                                  score := after[o].score)
  }

  lemma RollupsKeepKeys(before: Rankings, moved: Rankings, inserted: Opportunities, after: Opportunities)
    requires HasDetails(before) && SameButRollups(inserted, after)
    requires AllMoved(inserted, before, moved) && UniquePair(inserted) && AllRepresented(before, inserted)
    ensures AllMoved(after, before, moved) && UniquePair(after) && AllRepresented(before, after)
  {
    forall i | i in before ensures IsMoved(after, before[i], moved[i]) {
      assert IsMoved(inserted, before[i], moved[i]);
    }
    forall o | o in after ensures HasRepresentative(before, after[o]) {
      assert HasRepresentative(before, inserted[o]);
      RepresentativeStays(before, inserted[o], after[o]);
    }
  }

  lemma RepresentativeStays(before: Rankings, o: Opportunity, p: Opportunity)
    requires HasDetails(before) && HasRepresentative(before, o)
    requires p == o.(bestRank := p.bestRank, competitorCount := p.competitorCount, score := p.score)
    ensures HasRepresentative(before, p)
  {
    var i :| i in before && IsRepresentative(before, PairOf(o), i) && IsOfRow(o, before[i]);
  }

  lemma EveryGroupIsRolledUp(ln: Logarithm, before: Rankings, moved: Rankings, inserted: Opportunities,
                             after: Opportunities)
    requires HasDetails(before) && AllMoved(inserted, before, moved) && UniquePair(inserted)
    requires forall o | o in inserted :: PairOf(inserted[o]) in Pairs(before)
    requires after.Keys == inserted.Keys
    requires forall o | o in after :: IsRolledUp(ln, moved, o, inserted[o], after[o])
    ensures AllRolledUp(ln, moved, after) && SameButRollups(inserted, after)
  {
    forall o | o in after ensures HasRollups(ln, moved, o, after[o]) {
      var i :| i in before && Pair(before[i]) == PairOf(inserted[o]);
      assert IsMoved(inserted, before[i], moved[i]);
      assert i in Group(moved, o);
      assert IsRolledUp(ln, moved, o, inserted[o], after[o]);
    }
  }

  lemma PairIsUnique(before: Rankings, rankings: Rankings, opportunities: Opportunities)
    requires HasDetails(before) && UniqueKeyword(before) && AllMoved(opportunities, before, rankings)
    ensures UniqueOpportunity(rankings)
  {
    forall i, j | i in rankings && j in rankings && i != j
      ensures !(rankings[i].competitor == rankings[j].competitor && rankings[i].opportunity.Some?
                && rankings[i].opportunity == rankings[j].opportunity)
    {
      assert IsMoved(opportunities, before[i], rankings[i]) && IsMoved(opportunities, before[j], rankings[j]);
    }
  }

  // ----- Conservation --------------------------------------------------------------

  ghost function CountedCompetitors(opportunities: Opportunities, ids: set<Id>): nat
    requires ids <= opportunities.Keys
  {
    if ids == {} then 0
    else
      var o :| o in ids;
      opportunities[o].competitorCount + CountedCompetitors(opportunities, ids - {o})
  }

  function Pointing(rankings: Rankings, ids: set<Id>): set<Id> {
    set i | i in rankings && rankings[i].opportunity.Some? && rankings[i].opportunity.value in ids
  }

  lemma {:induction false} CountsAddUp(rankings: Rankings, opportunities: Opportunities, ids: set<Id>)
    requires ids <= opportunities.Keys
    requires forall o | o in ids :: opportunities[o].competitorCount == |Group(rankings, o)|
    ensures CountedCompetitors(opportunities, ids) == |Pointing(rankings, ids)|
  {
    if ids == {} {
      assert Pointing(rankings, ids) == {};
    } else {
      var o :| o in ids && CountedCompetitors(opportunities, ids) ==
                           opportunities[o].competitorCount + CountedCompetitors(opportunities, ids - {o});
      CountsAddUp(rankings, opportunities, ids - {o});
      assert Pointing(rankings, ids) == Group(rankings, o) + Pointing(rankings, ids - {o});
      assert Group(rankings, o) !! Pointing(rankings, ids - {o});
    }
  }

  /** No ranking is lost or counted twice: the competitor counts of all opportunities add up to
      the number of rankings. */
  lemma CountsAddUpToRankings(ln: Logarithm, before: Rankings, rankings: Rankings, opportunities: Opportunities)
    requires HasDetails(before)
    requires AllMoved(opportunities, before, rankings) && AllRolledUp(ln, rankings, opportunities)
    ensures CountedCompetitors(opportunities, opportunities.Keys) == |before|
  {
    CountsAreGroups(ln, rankings, opportunities);
    CountsAddUp(rankings, opportunities, opportunities.Keys);
    EveryRankingPoints(opportunities, before, rankings);
    assert |before.Keys| == |before|;
  }

  lemma CountsAreGroups(ln: Logarithm, rankings: Rankings, opportunities: Opportunities)
    requires AllRolledUp(ln, rankings, opportunities)
    ensures forall o | o in opportunities :: opportunities[o].competitorCount == |Group(rankings, o)|
  {
    forall o | o in opportunities ensures opportunities[o].competitorCount == |Group(rankings, o)| {
      assert HasRollups(ln, rankings, o, opportunities[o]);
    }
  }

  lemma EveryRankingPoints(opportunities: Opportunities, before: Rankings, rankings: Rankings)
    requires HasDetails(before) && AllMoved(opportunities, before, rankings)
    ensures Pointing(rankings, opportunities.Keys) == before.Keys
  {
    forall i | i in before ensures i in Pointing(rankings, opportunities.Keys) {
      assert IsMoved(opportunities, before[i], rankings[i]);
    }
  }

  /** The rankings of one run and keyword, and only they, share one opportunity. */
  lemma OneOpportunityForEveryPair(ln: Logarithm, before: Rankings, rankings: Rankings,
                                   opportunities: Opportunities, i: Id, j: Id)
    requires HasDetails(before) && IsUpgraded(ln, before, rankings, opportunities)
    requires i in before && j in before
    ensures rankings[i].opportunity == rankings[j].opportunity <==> Pair(before[i]) == Pair(before[j])
  {
    assert IsMoved(opportunities, before[i], rankings[i]) && IsMoved(opportunities, before[j], rankings[j]);
  }

  // ----- Downgrade -----------------------------------------------------------------

  predicate RestoresOne(opportunities: Opportunities, moved: Ranking, after: Ranking) {
    && moved.opportunity.Some? && moved.opportunity.value in opportunities
    && after == moved.(details := Some(opportunities[moved.opportunity.value].details), opportunity := None)
  }

  /** Every ranking carries the details of the opportunity it pointed to. */
  predicate Restores(opportunities: Opportunities, moved: Rankings, after: Rankings) {
    after.Keys == moved.Keys && forall i | i in moved :: RestoresOne(opportunities, moved[i], after[i])
  }

  /** No two rankings of a competitor point to opportunities with one keyword. */
  predicate KeywordsApart(opportunities: Opportunities, rankings: Rankings)
    requires AllPoint(opportunities, rankings)
  {
    forall i, j | i in rankings && j in rankings && i != j && rankings[i].competitor == rankings[j].competitor ::
      KeywordOf(opportunities, rankings[i]) != KeywordOf(opportunities, rankings[j])
  }

  function KeywordOf(opportunities: Opportunities, r: Ranking): string
    requires Points(opportunities, r)
  {
    opportunities[r.opportunity.value].details.normalizedKeyword
  }

  predicate Points(opportunities: Opportunities, r: Ranking) {
    r.opportunity.Some? && r.opportunity.value in opportunities
  }

  /** The foreign key, which is never null. */
  predicate AllPoint(opportunities: Opportunities, rankings: Rankings) {
    forall i | i in rankings :: Points(opportunities, rankings[i])
  }

  /** `downgrade`, up to the old unique constraint, which cannot be created when two rankings of
      a competitor point to opportunities with the same keyword. */
  method Downgrade(t: Tables) returns (ok: bool)
    requires AllPoint(t.opportunities, t.rankings)
    modifies t
    ensures t.opportunities == map[]
    ensures Restores(old(t.opportunities), old(t.rankings), t.rankings)
    ensures ok <==> KeywordsApart(old(t.opportunities), old(t.rankings))
    ensures ok ==> UniqueKeyword(t.rankings)
  {
    ghost var opportunities, rankings := t.opportunities, t.rankings;
    t.RestoreDetails();
    ghost var joined := t.rankings;
    t.DropOpportunities();
    JoinedRestores(opportunities, rankings, joined, t.rankings);
    RestoredKeywords(opportunities, rankings, t.rankings);
    ok := UniqueKeyword(t.rankings);
  }

  lemma JoinedRestores(opportunities: Opportunities, moved: Rankings, joined: Rankings, after: Rankings)
    requires AllPoint(opportunities, moved) && joined.Keys == moved.Keys
    requires forall i | i in joined :: IsJoined(opportunities, moved[i], joined[i])
    requires after == map i | i in joined :: joined[i].(opportunity := None)
    ensures Restores(opportunities, moved, after)
  {
    forall i | i in moved ensures RestoresOne(opportunities, moved[i], after[i]) {
      assert Points(opportunities, moved[i]) && IsJoined(opportunities, moved[i], joined[i]);
    }
  }

  /** The old unique constraint holds of the result exactly when keywords are apart before. */
  lemma RestoredKeywords(opportunities: Opportunities, moved: Rankings, after: Rankings)
    requires AllPoint(opportunities, moved) && Restores(opportunities, moved, after)
    ensures UniqueKeyword(after) <==> KeywordsApart(opportunities, moved)
  {
    forall i | i in moved
      ensures Points(opportunities, moved[i]) && after[i].competitor == moved[i].competitor
      ensures after[i].details.Some?
      ensures after[i].details.value.normalizedKeyword == KeywordOf(opportunities, moved[i])
    {
      assert RestoresOne(opportunities, moved[i], after[i]);
    }
  }

  /** A ranking is of the run of its opportunity, and a competitor belongs to one run. */
  predicate OwnRuns(opportunities: Opportunities, rankings: Rankings)
    requires AllPoint(opportunities, rankings)
  {
    && (forall i | i in rankings ::
          Points(opportunities, rankings[i]) && opportunities[rankings[i].opportunity.value].run == rankings[i].run)
    && OneRunPerCompetitor(rankings)
  }

  predicate OneRunPerCompetitor(rankings: Rankings) {
    forall i, j | i in rankings && j in rankings && rankings[i].competitor == rankings[j].competitor ::
      rankings[i].run == rankings[j].run
  }

  /** The new constraints are enough for the downgrade, also long after the upgrade: whatever rows
      were written since, it goes through as long as the two unique constraints hold and every
      ranking stays within its run. */
  lemma ConstraintsKeepKeywordsApart(opportunities: Opportunities, rankings: Rankings)
    requires AllPoint(opportunities, rankings) && OwnRuns(opportunities, rankings)
    requires UniquePair(opportunities) && UniqueOpportunity(rankings)
    ensures KeywordsApart(opportunities, rankings)
  {
    forall i, j | i in rankings && j in rankings && i != j && rankings[i].competitor == rankings[j].competitor
      ensures KeywordOf(opportunities, rankings[i]) != KeywordOf(opportunities, rankings[j])
    {
      assert Points(opportunities, rankings[i]) && Points(opportunities, rankings[j]);
      var o, p := rankings[i].opportunity.value, rankings[j].opportunity.value;
      assert o != p ==> PairOf(opportunities[o]) != PairOf(opportunities[p]);
    }
  }

  /** The upgrade leaves such a state, when competitors had one run each before. */
  lemma UpgradeKeepsOwnRuns(before: Rankings, rankings: Rankings, opportunities: Opportunities)
    requires HasDetails(before) && OneRunPerCompetitor(before) && AllMoved(opportunities, before, rankings)
    ensures AllPoint(opportunities, rankings) && OwnRuns(opportunities, rankings)
  {
    forall i | i in rankings
      ensures Points(opportunities, rankings[i])
      ensures opportunities[rankings[i].opportunity.value].run == rankings[i].run == before[i].run
      ensures rankings[i].competitor == before[i].competitor
    {
      assert IsMoved(opportunities, before[i], rankings[i]);
    }
  }

  /** What comes back of one ranking: everything but the details, of which the keyword is as it
      was. */
  predicate IsRestored(before: Ranking, after: Ranking)
    requires before.details.Some?
  {
    && after == before.(details := after.details, opportunity := None)
    && after.details.Some? && Pair(after) == Pair(before)
  }

  predicate AllRestored(before: Rankings, after: Rankings)
    requires HasDetails(before)
  {
    after.Keys == before.Keys && forall i | i in before :: IsRestored(before[i], after[i])
  }

  /** The details are those of a representative of the group. */
  predicate HasGroupDetails(before: Rankings, pair: (Id, string), details: Option<Details>)
    requires HasDetails(before)
  {
    exists j | j in before :: IsRepresentative(before, pair, j) && details == before[j].details
  }

  predicate AllHaveGroupDetails(before: Rankings, after: Rankings)
    requires HasDetails(before)
  {
    after.Keys == before.Keys && forall i | i in before :: HasGroupDetails(before, Pair(before[i]), after[i].details)
  }

  method UpgradeThenDowngrade(t: Tables) returns (ok: bool)
    requires HasDetails(t.rankings) && UniqueKeyword(t.rankings) && t.opportunities == map[]
    modifies t
    ensures ok <==> IdsAreDistinct(t.md5, Pairs(old(t.rankings)))
    ensures ok ==> AllRestored(old(t.rankings), t.rankings) && UniqueKeyword(t.rankings) && t.opportunities == map[]
    ensures ok ==> AllHaveGroupDetails(old(t.rankings), t.rankings)
  {
    ghost var before := t.rankings;
    ok := Upgrade(t);
    if !ok { return; }
    ghost var moved, opportunities := t.rankings, t.opportunities;
    AllPointSomewhere(opportunities, before, moved);
    ok := Downgrade(t);
    DowngradeUndoes(before, moved, opportunities, t.rankings);
    RestoredKeywords(opportunities, moved, t.rankings);
  }

  lemma DowngradeUndoes(before: Rankings, moved: Rankings, opportunities: Opportunities, after: Rankings)
    requires HasDetails(before) && UniqueKeyword(before)
    requires AllMoved(opportunities, before, moved) && AllRepresented(before, opportunities)
    requires Restores(opportunities, moved, after)
    ensures AllRestored(before, after) && UniqueKeyword(after) && AllHaveGroupDetails(before, after)
  {
    DetailsComeBack(before, moved, opportunities, after);
    KeywordsAreUniqueAgain(before, after);
    DetailsAreTheGroups(before, moved, opportunities, after);
  }

  lemma AllPointSomewhere(opportunities: Opportunities, before: Rankings, rankings: Rankings)
    requires HasDetails(before) && AllMoved(opportunities, before, rankings)
    ensures AllPoint(opportunities, rankings)
  {
    forall i | i in rankings ensures Points(opportunities, rankings[i]) {
      assert IsMoved(opportunities, before[i], rankings[i]);
    }
  }

  lemma DetailsComeBack(before: Rankings, moved: Rankings, opportunities: Opportunities, after: Rankings)
    requires HasDetails(before) && AllMoved(opportunities, before, moved) && Restores(opportunities, moved, after)
    ensures AllRestored(before, after)
  {
    forall i | i in before ensures IsRestored(before[i], after[i]) {
      assert IsMoved(opportunities, before[i], moved[i]);
      assert RestoresOne(opportunities, moved[i], after[i]);
    }
  }

  lemma DetailsAreTheGroups(before: Rankings, moved: Rankings, opportunities: Opportunities, after: Rankings)
    requires HasDetails(before) && AllMoved(opportunities, before, moved) && AllRepresented(before, opportunities)
    requires Restores(opportunities, moved, after)
    ensures AllHaveGroupDetails(before, after)
  {
    forall i | i in before ensures HasGroupDetails(before, Pair(before[i]), after[i].details) {
      assert IsMoved(opportunities, before[i], moved[i]) && RestoresOne(opportunities, moved[i], after[i]);
      var o := opportunities[moved[i].opportunity.value];
      assert HasRepresentative(before, o);
      GroupDetails(before, o);
    }
  }

  lemma GroupDetails(before: Rankings, o: Opportunity)
    requires HasDetails(before) && HasRepresentative(before, o)
    ensures HasGroupDetails(before, PairOf(o), Some(o.details))
  {
    var j :| j in before && IsRepresentative(before, PairOf(o), j) && IsOfRow(o, before[j]);
  }

  lemma KeywordsAreUniqueAgain(before: Rankings, after: Rankings)
    requires HasDetails(before) && UniqueKeyword(before) && AllRestored(before, after)
    ensures UniqueKeyword(after)
  {
    forall i, j | i in after && j in after && i != j
      ensures !(after[i].competitor == after[j].competitor
                && after[i].details.Some? && after[j].details.Some?
                && after[i].details.value.normalizedKeyword == after[j].details.value.normalizedKeyword)
    {
      assert IsRestored(before[i], after[i]) && IsRestored(before[j], after[j]);
    }
  }

  // ----- When the ids are distinct -------------------------------------------------

  function Joined(pair: (Id, string)): string {
    pair.0 + ":" + pair.1
  }

  lemma {:induction false} JoinedIsInjective(p: (Id, string), q: (Id, string))
    requires ':' !in p.0 && ':' !in q.0 && Joined(p) == Joined(q)
    ensures p == q
  {
    var text := Joined(p);
    assert text[|p.0|] == ':' && Joined(q)[|q.0|] == ':';
    assert forall k | 0 <= k < |p.0| :: text[k] == p.0[k] && p.0[k] in p.0;
    assert forall k | 0 <= k < |q.0| :: Joined(q)[k] == q.0[k] && q.0[k] in q.0;
    assert |p.0| == |q.0|;
    assert p.0 == text[..|p.0|] && q.0 == Joined(q)[..|q.0|];
    assert p.1 == text[|p.0| + 1..] && q.1 == Joined(q)[|q.0| + 1..];
  }

  predicate NoCollision(md5: string -> string, pairs: set<(Id, string)>) {
    forall p, q | p in pairs && q in pairs && md5(Joined(p)) == md5(Joined(q)) :: Joined(p) == Joined(q)
  }

  /** When run ids have no colon, as UUIDs have none, the ids are distinct exactly when the digest
      does not collide on the joined texts at hand. */
  lemma IdsWithoutColonsAreDistinct(md5: string -> string, pairs: set<(Id, string)>)
    requires forall p | p in pairs :: ':' !in p.0
    ensures IdsAreDistinct(md5, pairs) <==> NoCollision(md5, pairs)
  {
    forall p, q | p in pairs && q in pairs
      ensures OpportunityId(md5, p) == OpportunityId(md5, q) <==> md5(Joined(p)) == md5(Joined(q))
      ensures Joined(p) == Joined(q) <==> p == q
    {
      assert OpportunityId(md5, p)[|"opportunity-"|..] == md5(Joined(p));
      assert OpportunityId(md5, q)[|"opportunity-"|..] == md5(Joined(q));
      if Joined(p) == Joined(q) { JoinedIsInjective(p, q); }
    }
  }

  /** What the colons are for: two pairs that differ in where one colon belongs get one id under
      every digest. The application makes no such run ids. */
  lemma ColonMakesIdsCollide(md5: string -> string, run: Id, middle: string, keyword: string)
    ensures !IdsAreDistinct(md5, {(run, middle + ":" + keyword), (run + ":" + middle, keyword)})
  {
    var p, q := (run, middle + ":" + keyword), (run + ":" + middle, keyword);
    assert Joined(p) == Joined(q);
    assert |p.0| != |q.0|;
    assert OpportunityId(md5, p) == OpportunityId(md5, q);
    assert p in {p, q} && q in {p, q} && p != q;
  }

  // ----- Column by column ----------------------------------------------------------

  /** A first row of a group has its run and keyword, and no row of these has a larger volume, where
      any volume is larger than none, or the same volume and an earlier creation. */
  lemma FirstByColumns(before: Rankings, run: Id, keyword: string, i: Id)
    requires HasDetails(before) && IsRepresentative(before, (run, keyword), i)
    ensures i in before && before[i].run == run && before[i].details.value.normalizedKeyword == keyword
    ensures forall j | j in before && before[j].run == run
                       && before[j].details.value.normalizedKeyword == keyword ::
              var volume, most := before[j].details.value.searchVolume, before[i].details.value.searchVolume;
              && (volume.Some? ==> most.Some? && volume.value <= most.value)
              && (volume == most ==> before[i].createdAt <= before[j].createdAt)
  {
    forall j | j in before && before[j].run == run && before[j].details.value.normalizedKeyword == keyword
      ensures !Ahead(before[j], before[i])
    {
      assert Pair(before[j]) == (run, keyword);
    }
  }

  /** The row that an opportunity was made of is a first row of its run and keyword. */
  lemma RepresentativeByColumns(before: Rankings, o: Opportunity) returns (i: Id)
    requires HasDetails(before) && HasRepresentative(before, o)
    ensures IsRepresentative(before, (o.run, o.details.normalizedKeyword), i)
    ensures before[i].details == Some(o.details) && before[i].createdAt == o.createdAt
    ensures (before[i].run, before[i].organization, before[i].project) == (o.run, o.organization, o.project)
  {
    i :| i in before && IsRepresentative(before, PairOf(o), i) && IsOfRow(o, before[i]);
  }

  /** The rollups of an opportunity: the lowest rank of its rankings that have one, how many rankings
      there are, and the score of these numbers. */
  lemma RollupsByColumns(ln: Logarithm, before: Rankings, rankings: Rankings, opportunities: Opportunities, o: Id)
    requires HasDetails(before) && IsUpgraded(ln, before, rankings, opportunities) && o in opportunities
    ensures opportunities[o].competitorCount == |set i | i in rankings && rankings[i].opportunity == Some(o)| > 0
    ensures forall i | i in rankings && rankings[i].opportunity == Some(o) && rankings[i].competitorRank.Some? ::
              opportunities[o].bestRank.Some? && opportunities[o].bestRank.value <= rankings[i].competitorRank.value
    ensures opportunities[o].bestRank.Some? ==>
              exists i | i in rankings ::
                rankings[i].opportunity == Some(o) && rankings[i].competitorRank == opportunities[o].bestRank
    ensures opportunities[o].score ==
            Some(Score(ln, opportunities[o].details.searchVolume, opportunities[o].details.keywordDifficulty,
                       opportunities[o].bestRank, opportunities[o].competitorCount))
  {
    assert HasRollups(ln, rankings, o, opportunities[o]);
    assert Group(rankings, o) == set i | i in rankings && rankings[i].opportunity == Some(o);
  }

  /** What upgrade and downgrade give back of a ranking, column by column: all but the details as it
      was, and of the details the keyword. */
  lemma RestoredByColumns(before: Rankings, after: Rankings, i: Id)
    requires HasDetails(before) && AllRestored(before, after) && i in before
    ensures i in after && after[i].details.Some? && after[i].opportunity == None
    ensures (after[i].organization, after[i].project, after[i].run, after[i].competitor) ==
            (before[i].organization, before[i].project, before[i].run, before[i].competitor)
    ensures (after[i].competitorRank, after[i].createdAt, after[i].rest) ==
            (before[i].competitorRank, before[i].createdAt, before[i].rest)
    ensures after[i].details.value.normalizedKeyword == before[i].details.value.normalizedKeyword
  {
    assert IsRestored(before[i], after[i]);
  }

  /** The details that upgrade and downgrade give a ranking are those of a first row of its run and
      keyword. */
  lemma DetailsByColumns(before: Rankings, after: Rankings, i: Id, run: Id, keyword: string) returns (first: Id)
    requires HasDetails(before) && AllHaveGroupDetails(before, after)
    requires i in before && before[i].run == run && before[i].details.value.normalizedKeyword == keyword
    ensures IsRepresentative(before, (run, keyword), first)
    ensures i in after && after[i].details == before[first].details
  {
    first := GroupDetailsByColumns(before, run, keyword, after[i].details);
  }

  lemma GroupDetailsByColumns(before: Rankings, run: Id, keyword: string, details: Option<Details>)
      returns (first: Id)
    requires HasDetails(before) && HasGroupDetails(before, (run, keyword), details)
    ensures IsRepresentative(before, (run, keyword), first) && details == before[first].details
  {
    first :| first in before && IsRepresentative(before, (run, keyword), first) && details == before[first].details;
  }

  /** The constraints of the two schemas, on the columns. */
  lemma ConstraintsByColumns(rankings: Rankings, opportunities: Opportunities)
    ensures UniqueKeyword(rankings) <==>
            forall i, j | && i in rankings && j in rankings && i != j
                          && rankings[i].competitor == rankings[j].competitor
                          && rankings[i].details.Some? && rankings[j].details.Some? ::
              rankings[i].details.value.normalizedKeyword != rankings[j].details.value.normalizedKeyword
    ensures UniqueOpportunity(rankings) <==>
            forall i, j | && i in rankings && j in rankings && i != j
                          && rankings[i].competitor == rankings[j].competitor
                          && rankings[i].opportunity.Some? && rankings[j].opportunity.Some? ::
              rankings[i].opportunity.value != rankings[j].opportunity.value
    ensures UniquePair(opportunities) <==>
            forall o, p | o in opportunities && p in opportunities && o != p ::
              opportunities[o].run != opportunities[p].run
              || opportunities[o].details.normalizedKeyword != opportunities[p].details.normalizedKeyword
  {
  }

  /** What the application keeps, on the columns: a ranking is of the run of its opportunity, and two
      rankings of a competitor are of one run. */
  lemma OwnRunsByColumns(opportunities: Opportunities, rankings: Rankings)
    requires AllPoint(opportunities, rankings)
    ensures OwnRuns(opportunities, rankings) <==>
            && (forall i, o | i in rankings && rankings[i].opportunity == Some(o) ::
                  o in opportunities && opportunities[o].run == rankings[i].run)
            && (forall i, j | i in rankings && j in rankings && rankings[i].competitor == rankings[j].competitor ::
                  rankings[i].run == rankings[j].run)
  {
    assert forall i | i in rankings :: Points(opportunities, rankings[i]);
  }
}
