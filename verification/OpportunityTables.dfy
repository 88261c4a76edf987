/** The tables of the competitor opportunity workflow, and the statements that rewrite them.
    A column that a migration adds or drops is an `Option`. */
module OpportunityTables {
  import opened OpportunityScore
  import opened Options

  type Id = string

  /** The columns that move from the rankings to the opportunities. */
  datatype Details = Details(keyword: string, normalizedKeyword: string, searchVolume: Option<int>,
                             keywordDifficulty: Option<int>, metrics: string)

  datatype Ranking = Ranking(
    organization: Id, project: Id, run: Id, competitor: Id, competitorRank: Option<int>, createdAt: int,
    rest: string, details: Option<Details>, opportunity: Option<Id>)

  datatype Opportunity = Opportunity(
    organization: Id, project: Id, run: Id, details: Details, createdAt: int,
    bestRank: Option<int>, competitorCount: nat, score: Option<real>)

  type Rankings = map<Id, Ranking>
  type Opportunities = map<Id, Opportunity>

  // ----- Keys ----------------------------------------------------------------------

  predicate HasDetails(rankings: Rankings) {
    forall i | i in rankings :: rankings[i].details.Some?
  }

  /** `(analysis_run_id, normalized_keyword)`. */
  function Pair(r: Ranking): (Id, string)
    requires r.details.Some?
  {
    (r.run, r.details.value.normalizedKeyword)
  }

  function Pairs(rankings: Rankings): set<(Id, string)>
    requires HasDetails(rankings)
  {
    set i | i in rankings :: Pair(rankings[i])
  }

  /** Unique on competitor and normalized keyword. */
  predicate UniqueKeyword(rankings: Rankings) {
    forall i, j | i in rankings && j in rankings && i != j ::
      !(rankings[i].competitor == rankings[j].competitor
        && rankings[i].details.Some? && rankings[j].details.Some?
        && rankings[i].details.value.normalizedKeyword == rankings[j].details.value.normalizedKeyword)
  }

  /** Unique on competitor and opportunity. */
  predicate UniqueOpportunity(rankings: Rankings) {
    forall i, j | i in rankings && j in rankings && i != j ::
      !(rankings[i].competitor == rankings[j].competitor && rankings[i].opportunity.Some?
        && rankings[i].opportunity == rankings[j].opportunity)
  }

  /** `'opportunity-' || md5(run || ':' || keyword)`. */
  function OpportunityId(md5: string -> string, pair: (Id, string)): Id {
    "opportunity-" + md5(pair.0 + ":" + pair.1)
  }

  predicate IdsAreDistinct(md5: string -> string, pairs: set<(Id, string)>) {
    forall p, q | p in pairs && q in pairs && OpportunityId(md5, p) == OpportunityId(md5, q) :: p == q
  }

  // ----- DISTINCT ON ---------------------------------------------------------------

  /** `ORDER BY search_volume DESC NULLS LAST, created_at`. */
  predicate Ahead(a: Ranking, b: Ranking)
    requires a.details.Some? && b.details.Some?
  {
    var v, w := a.details.value.searchVolume, b.details.value.searchVolume;
    || (v.Some? && (w.None? || v.value > w.value))
    || (v == w && a.createdAt < b.createdAt)
  }

  /** A first row of its group; rows that tie are as good as each other. */
  predicate IsRepresentative(rankings: Rankings, pair: (Id, string), i: Id)
    requires HasDetails(rankings)
  {
    && i in rankings && Pair(rankings[i]) == pair
    && forall j | j in rankings && Pair(rankings[j]) == pair :: !Ahead(rankings[j], rankings[i])
  }

  predicate IsInserted(rankings: Rankings, o: Opportunity, pair: (Id, string))
    requires HasDetails(rankings)
  {
    exists i | i in rankings ::
      IsRepresentative(rankings, pair, i) &&
      o == Opportunity(rankings[i].organization, rankings[i].project, rankings[i].run, rankings[i].details.value,
                       rankings[i].createdAt, None, 0, None)
  }

  /** The opportunities table right after the insert. */
  predicate AreInserted(md5: string -> string, rankings: Rankings, opportunities: Opportunities,
                        pairs: set<(Id, string)>)
    requires HasDetails(rankings)
  {
    && opportunities.Keys == (set p | p in pairs :: OpportunityId(md5, p))
    && forall p | p in pairs ::
         OpportunityId(md5, p) in opportunities && IsInserted(rankings, opportunities[OpportunityId(md5, p)], p)
  }

  function PairOf(o: Opportunity): (Id, string) {
    (o.run, o.details.normalizedKeyword)
  }

  /** What the update with a join does to one ranking. */
  predicate IsLinked(opportunities: Opportunities, before: Ranking, after: Ranking)
    requires before.details.Some?
  {
    if exists o | o in opportunities :: PairOf(opportunities[o]) == Pair(before) then
      && after == before.(opportunity := after.opportunity)
      && after.opportunity.Some? && after.opportunity.value in opportunities
      && PairOf(opportunities[after.opportunity.value]) == Pair(before)
    else after == before
  }

  /** What the update that restores the details does to one ranking. */
  predicate IsJoined(opportunities: Opportunities, before: Ranking, after: Ranking) {
    && after == before.(details := after.details)
    && after.details == if before.opportunity.Some? && before.opportunity.value in opportunities
                        then Some(opportunities[before.opportunity.value].details)
                        else before.details
  }

  // ----- Rollups -------------------------------------------------------------------

  function Group(rankings: Rankings, o: Id): set<Id> {
    set i | i in rankings && rankings[i].opportunity == Some(o)
  }

  /** The minimum of the non-null ranks of a group. */
  predicate IsBestRank(rankings: Rankings, group: set<Id>, best: Option<int>)
    requires group <= rankings.Keys
  {
    && (best.None? ==> forall i | i in group :: rankings[i].competitorRank.None?)
    && (best.Some? ==>
          && (exists i | i in group :: rankings[i].competitorRank == best)
          && forall i | i in group && rankings[i].competitorRank.Some? ::
               best.value <= rankings[i].competitorRank.value)
  }

  function ScoreOf(ln: Logarithm, details: Details, bestRank: Option<int>, count: nat): real {
    Score(ln, details.searchVolume, details.keywordDifficulty, bestRank, count)
  }

  predicate IsRolledUp(ln: Logarithm, rankings: Rankings, o: Id, before: Opportunity, after: Opportunity) {
    if Group(rankings, o) == {} then after == before
    else
      && IsBestRank(rankings, Group(rankings, o), after.bestRank)
      && after.competitorCount == |Group(rankings, o)|
      && after == before.(bestRank := after.bestRank, competitorCount := after.competitorCount,
                          score := Some(ScoreOf(ln, before.details, after.bestRank, after.competitorCount)))
  }

  // ----- The statements ------------------------------------------------------------

  class Tables {
    const md5: string -> string
    const ln: Logarithm
    var rankings: Rankings
    var opportunities: Opportunities

    constructor (md5: string -> string, ln: Logarithm, rankings: Rankings)
      ensures this.md5 == md5 && this.ln == ln && this.rankings == rankings && opportunities == map[]
    {
      this.md5, this.ln, this.rankings, opportunities := md5, ln, rankings, map[];
    }

    /** One row of `DISTINCT ON`. */
    method Representative(pair: (Id, string)) returns (i: Id)
      requires HasDetails(rankings) && pair in Pairs(rankings)
      ensures IsRepresentative(rankings, pair, i)
    {
      i :| i in rankings && Pair(rankings[i]) == pair;
      var todo := rankings.Keys;
      while exists j :: j in todo
        invariant todo <= rankings.Keys && i in rankings && Pair(rankings[i]) == pair
        invariant forall j | j in rankings && j !in todo && Pair(rankings[j]) == pair ::
                    !Ahead(rankings[j], rankings[i])
        decreases todo
      {
        var j :| j in todo;
        todo := todo - {j};
        if Pair(rankings[j]) == pair && Ahead(rankings[j], rankings[i]) {
          i := j;
        }
      }
      assert forall j :: j !in todo;
    }

    /** The insert fails when two groups get the same id. */
    method InsertOpportunities() returns (ok: bool)
      requires HasDetails(rankings) && opportunities == map[]
      modifies this`opportunities
      ensures ok <==> IdsAreDistinct(md5, Pairs(rankings))
      ensures ok ==> AreInserted(md5, rankings, opportunities, Pairs(rankings))
    {
      var todo := Pairs(rankings);
      ghost var all, done: set<(Id, string)> := todo, {};
      while exists p :: p in todo
        invariant done + todo == all && done !! todo && all == Pairs(rankings)
        invariant IdsAreDistinct(md5, done)
        invariant AreInserted(md5, rankings, opportunities, done)
        decreases todo
      {
        var pair :| pair in todo;
        var id := OpportunityId(md5, pair);
        if id in opportunities {
          ghost var q :| q in done && OpportunityId(md5, q) == id;
          assert q in all && pair in all && q != pair;
          return false;
        }
        var i := Representative(pair);
        var r := rankings[i];
        var o := Opportunity(r.organization, r.project, r.run, r.details.value, r.createdAt, None, 0, None);
        assert IsInserted(rankings, o, pair);
        opportunities := opportunities[id := o];
        todo := todo - {pair};
        done := done + {pair};
      }
      assert done == all;
      ok := true;
    }

    /** Every ranking gets the id of an opportunity with its run and keyword, if there is one. */
    method LinkRankings()
      requires HasDetails(rankings)
      modifies this`rankings
      ensures rankings.Keys == old(rankings).Keys
      ensures forall i | i in rankings :: IsLinked(opportunities, old(rankings)[i], rankings[i])
    {
      ghost var before := rankings;
      var todo := rankings.Keys;
      while exists i :: i in todo
        invariant todo <= rankings.Keys == before.Keys
        invariant forall i | i in todo :: rankings[i] == before[i]
        invariant forall i | i in rankings && i !in todo :: IsLinked(opportunities, before[i], rankings[i])
        decreases todo
      {
        var i :| i in todo;
        var pair := Pair(rankings[i]);
        if exists o | o in opportunities :: PairOf(opportunities[o]) == pair {
          var o :| o in opportunities && PairOf(opportunities[o]) == pair;
          rankings := rankings[i := rankings[i].(opportunity := Some(o))];
        }
        todo := todo - {i};
      }
      assert forall i :: i !in todo;
    }

    method DropDetails()
      modifies this`rankings
      ensures rankings == map i | i in old(rankings) :: old(rankings)[i].(details := None)
    {
      rankings := map i | i in rankings :: rankings[i].(details := None);
    }

    /** One row of the rollup query. */
    method Rollup(group: set<Id>) returns (best: Option<int>, count: nat)
      requires group <= rankings.Keys
      ensures IsBestRank(rankings, group, best) && count == |group|
    {
      best, count := None, 0;
      var todo := group;
      ghost var done: set<Id> := {};
      while exists i :: i in todo
        invariant done + todo == group && done !! todo && count == |done|
        invariant IsBestRank(rankings, done, best)
        decreases todo
      {
        var i :| i in todo;
        todo := todo - {i};
        var rank := rankings[i].competitorRank;
        if rank.Some? && (best.None? || rank.value < best.value) {
          best := rank;
        }
        count := count + 1;
        done := done + {i};
      }
      assert done == group;
    }

    method RefreshOpportunityRollups()
      modifies this`opportunities
      ensures opportunities.Keys == old(opportunities).Keys
      ensures forall o | o in opportunities ::
                IsRolledUp(ln, rankings, o, old(opportunities)[o], opportunities[o])
    {
      ghost var before := opportunities;
      var todo := opportunities.Keys;
      while exists o :: o in todo
        invariant todo <= opportunities.Keys == before.Keys
        invariant forall o | o in todo :: opportunities[o] == before[o]
        invariant forall o | o in opportunities && o !in todo ::
                    IsRolledUp(ln, rankings, o, before[o], opportunities[o])
        decreases todo
      {
        var o :| o in todo;
        var group := Group(rankings, o);
        if group != {} {
          var best, count := Rollup(group);
          opportunities := opportunities[o := opportunities[o].(
            bestRank := best, competitorCount := count,
            score := Some(ScoreOf(ln, opportunities[o].details, best, count)))];
        }
        todo := todo - {o};
      }
      assert forall o :: o !in todo;
    }

    /** Every ranking with an opportunity gets its details; the others are not joined and stay. */
    method RestoreDetails()
      modifies this`rankings
      ensures rankings.Keys == old(rankings).Keys
      ensures forall i | i in rankings :: IsJoined(opportunities, old(rankings)[i], rankings[i])
    {
      ghost var before := rankings;
      var todo := rankings.Keys;
      while exists i :: i in todo
        invariant todo <= rankings.Keys == before.Keys
        invariant forall i | i in todo :: rankings[i] == before[i]
        invariant forall i | i in rankings && i !in todo :: IsJoined(opportunities, before[i], rankings[i])
        decreases todo
      {
        var i :| i in todo;
        if exists o | o in opportunities :: rankings[i].opportunity == Some(o) {
          var o :| o in opportunities && rankings[i].opportunity == Some(o);
          rankings := rankings[i := rankings[i].(details := Some(opportunities[o].details))];
        }
        todo := todo - {i};
      }
      assert forall i :: i !in todo;
    }

    method DropOpportunities()
      modifies this
      ensures rankings == map i | i in old(rankings) :: old(rankings)[i].(opportunity := None)
      ensures opportunities == map[]
    {
      rankings := map i | i in rankings :: rankings[i].(opportunity := None);
      opportunities := map[];
    }
  }

  // ----- Scores by column ----------------------------------------------------------

  /** Which columns the score is computed from. */
  lemma ScoreUsesColumns(ln: Logarithm, details: Details, bestRank: Option<int>, count: nat)
    requires IsIncreasing(ln)
    ensures var tenths := Tenths(details.keywordDifficulty, bestRank, count);
            && (details.searchVolume.None? && tenths <= 1000 ==>
                  ScoreOf(ln, details, bestRank, count) == tenths as real / 10.0)
            && (details.searchVolume == Some(100_000) && 450 + tenths <= 1000 ==>
                  ScoreOf(ln, details, bestRank, count) == (450 + tenths) as real / 10.0)
  {
    if details.searchVolume.None? {
      ScoreWithoutVolume(ln, None, details.keywordDifficulty, bestRank, count);
    } else if details.searchVolume == Some(100_000) {
      ScoreWithFullVolume(ln, 100_000, details.keywordDifficulty, bestRank, count);
    }
  }
}
