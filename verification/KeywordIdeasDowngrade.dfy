/** The downgrade of the keyword-ideas modes: broad and close ideas become plain ideas again,
    under a unique key on run, source, keyword and seed. */
module KeywordIdeasDowngrade {

  datatype Idea = Idea(
    buildRunId: string, source: string, normalizedKeyword: string, sourceSeedKey: string, rest: string)

  type Table = map<int, Idea>

  const LEGACY := "keyword_ideas"
  const BROAD := "keyword_ideas_broad"
  const CLOSE := "keyword_ideas_close"

  const OLD_SOURCES: set<string> := {
    "site_seed", "seed", "google_ads", "google_suggest", "ai", "labs_site", "google_ads_site", LEGACY
  }
  const SOURCES: set<string> := OLD_SOURCES + {BROAD, CLOSE}

  predicate IsVariant(idea: Idea) {
    idea.source == BROAD || idea.source == CLOSE
  }

  predicate IsFamily(idea: Idea) {
    idea.source == LEGACY || IsVariant(idea)
  }

  predicate SameKey(a: Idea, b: Idea) {
    a.buildRunId == b.buildRunId && a.normalizedKeyword == b.normalizedKeyword && a.sourceSeedKey == b.sourceSeedKey
  }

  /** `uq_keyword_ideas_run_source_keyword_seed`. */
  predicate UniqueKey(rows: Table) {
    forall i, j | i in rows && j in rows && i != j :: !(SameKey(rows[i], rows[j]) && rows[i].source == rows[j].source)
  }

  predicate SourcesIn(rows: Table, sources: set<string>) {
    forall i | i in rows :: rows[i].source in sources
  }

  /** Some plain idea has the same key. */
  predicate IsShadowed(rows: Table, i: int)
    requires i in rows
  {
    exists j | j in rows :: rows[j].source == LEGACY && SameKey(rows[j], rows[i])
  }

  /** Some variant of the same key has a lower id. */
  predicate HasLower(rows: Table, i: int)
    requires i in rows
  {
    exists j | j in rows :: IsVariant(rows[j]) && SameKey(rows[j], rows[i]) && j < i
  }

  /** The variants that outlive both deletes. */
  predicate IsKept(rows: Table, i: int)
    requires i in rows
  {
    IsVariant(rows[i]) ==> !IsShadowed(rows, i) && !HasLower(rows, i)
  }

  predicate HasFamilyRow(rows: Table, key: Idea) {
    exists k | k in rows :: IsFamily(rows[k]) && SameKey(rows[k], key)
  }

  /** Every key with an idea of the family still has one. */
  predicate KeepsFamilyKeys(before: Table, after: Table) {
    forall i | i in before && IsFamily(before[i]) :: HasFamilyRow(after, before[i])
  }

  function Relabelled(idea: Idea): Idea {
    if IsVariant(idea) then idea.(source := LEGACY) else idea
  }

  /** What the downgrade leaves, on values. */
  predicate IsDowngraded(before: Table, after: Table) {
    && after.Keys == (set i | i in before && IsKept(before, i))
    && forall i | i in after :: after[i] == Relabelled(before[i])
  }

  /** The rows in `todo` still wait for their relabel. */
  predicate HalfRelabelled(before: Table, rows: Table, todo: set<int>) {
    && rows.Keys == before.Keys && todo <= rows.Keys
    && (forall i | i in todo :: rows[i] == before[i] && IsVariant(before[i]))
    && forall i | i in rows && i !in todo :: rows[i] == Relabelled(before[i])
  }

  class KeywordIdeas {
    var rows: Table

    constructor (rows: Table)
      ensures this.rows == rows
    {
      this.rows := rows;
    }

    /** No variant is left beside a plain idea of its key, and no key of the family is lost. */
    method DeleteShadowedVariants()
      modifies this
      ensures forall i | i in rows && IsVariant(rows[i]) :: !IsShadowed(rows, i)
      ensures KeepsFamilyKeys(old(rows), rows)
      ensures rows.Keys == set i | i in old(rows) && (IsVariant(old(rows)[i]) ==> !IsShadowed(old(rows), i))
      ensures forall i | i in rows :: rows[i] == old(rows)[i]
    {
      ghost var before := rows;
      rows := map i | i in rows && !(IsVariant(rows[i]) && IsShadowed(rows, i)) :: rows[i];
      UnshadowedKeepKeys(before, rows);
    }

    /** Every key has at most one variant left, and no key of the family is lost. */
    method DeleteDuplicateVariants()
      modifies this
      ensures forall i, j | i in rows && j in rows && IsVariant(rows[i]) && IsVariant(rows[j]) ::
                SameKey(rows[i], rows[j]) ==> i == j
      ensures KeepsFamilyKeys(old(rows), rows)
      ensures rows.Keys == set i | i in old(rows) && (IsVariant(old(rows)[i]) ==> !HasLower(old(rows), i))
      ensures forall i | i in rows :: rows[i] == old(rows)[i]
    {
      ghost var before := rows;
      rows := map i | i in rows && !(IsVariant(rows[i]) && HasLower(rows, i)) :: rows[i];
      LowestKeepKeys(before, rows);
    }

    /** The update goes row by row, in any order, and the unique key is checked after each row:
        it holds at every turn. */
    method RelabelVariants()
      requires UniqueKey(rows)
      requires forall i | i in rows :: IsKept(rows, i)
      modifies this
      ensures rows == map i | i in old(rows) :: Relabelled(old(rows)[i])
      ensures UniqueKey(rows)
    {
      var todo: set<int> := set i | i in rows && IsVariant(rows[i]);
      ghost var before := rows;
      while exists i :: i in todo
        invariant HalfRelabelled(before, rows, todo)
        invariant UniqueKey(rows)
        decreases todo
      {
        var i :| i in todo;
        RelabelKeepsUniqueKey(before, rows, todo, i);
        rows := rows[i := rows[i].(source := LEGACY)];
        todo := todo - {i};
      }
      assert forall i | i in rows :: rows[i] == Relabelled(before[i]);
      assert rows == map i | i in before :: Relabelled(before[i]);
    }

    method Downgrade()
      requires UniqueKey(rows) && SourcesIn(rows, SOURCES)
      modifies this
      ensures IsDowngraded(old(rows), rows)
      ensures UniqueKey(rows) && SourcesIn(rows, OLD_SOURCES)
    {
      ghost var before := rows;
      DeleteShadowedVariants();
      ghost var middle := rows;
      DeleteDuplicateVariants();
      DeletesKeepKept(before, middle, rows);
      RelabelVariants();
    }
  }

  /** Relabelling one more variant cannot collide: not with a plain idea, not with a variant
      relabelled before. */
  lemma RelabelKeepsUniqueKey(before: Table, rows: Table, todo: set<int>, i: int)
    requires UniqueKey(before) && forall j | j in before :: IsKept(before, j)
    requires i in todo && HalfRelabelled(before, rows, todo) && UniqueKey(rows)
    ensures UniqueKey(rows[i := rows[i].(source := LEGACY)])
    ensures HalfRelabelled(before, rows[i := rows[i].(source := LEGACY)], todo - {i})
  {
    forall j | j in rows && j != i
      ensures !(SameKey(rows[j], rows[i]) && rows[j].source == LEGACY)
    {
      assert IsKept(before, i) && IsKept(before, j);
      if SameKey(before[j], before[i]) {
        assert before[j].source != LEGACY;
        assert IsVariant(before[j]) ==> !(j < i) && !(i < j);
      }
    }
  }

  lemma DeletesKeepKept(before: Table, middle: Table, after: Table)
    requires UniqueKey(before)
    requires middle.Keys == set i | i in before && (IsVariant(before[i]) ==> !IsShadowed(before, i))
    requires forall i | i in middle :: middle[i] == before[i]
    requires after.Keys == set i | i in middle && (IsVariant(middle[i]) ==> !HasLower(middle, i))
    requires forall i | i in after :: after[i] == middle[i]
    ensures after.Keys == set i | i in before && IsKept(before, i)
    ensures UniqueKey(after) && forall i | i in after :: IsKept(after, i)
  {
    forall i | i in middle && IsVariant(before[i])
      ensures HasLower(middle, i) <==> HasLower(before, i)
    {
      if HasLower(before, i) {
        var j :| j in before && IsVariant(before[j]) && SameKey(before[j], before[i]) && j < i;
        assert !IsShadowed(before, j);
        assert j in middle;
      }
    }
  }

  // ----- No key is lost ------------------------------------------------------------

  lemma UnshadowedKeepKeys(before: Table, after: Table)
    requires after.Keys == set i | i in before && (IsVariant(before[i]) ==> !IsShadowed(before, i))
    requires forall i | i in after :: after[i] == before[i]
    ensures KeepsFamilyKeys(before, after)
  {
    forall i | i in before && IsFamily(before[i]) ensures HasFamilyRow(after, before[i]) {
      if i !in after {
        var j :| j in before && before[j].source == LEGACY && SameKey(before[j], before[i]);
        assert j in after && IsFamily(after[j]) && SameKey(after[j], before[i]);
      }
    }
  }

  lemma LowestKeepKeys(before: Table, after: Table)
    requires after.Keys == set i | i in before && (IsVariant(before[i]) ==> !HasLower(before, i))
    requires forall i | i in after :: after[i] == before[i]
    ensures KeepsFamilyKeys(before, after)
  {
    forall i | i in before && IsFamily(before[i]) ensures HasFamilyRow(after, before[i]) {
      if i !in after {
        var low := LowestVariant(before, i);
        assert low in after && IsFamily(after[low]) && SameKey(after[low], before[i]);
      }
    }
  }

  // ----- One row for every key -----------------------------------------------------

  lemma {:induction false} LowestVariant(rows: Table, i: int) returns (low: int)
    requires i in rows && IsVariant(rows[i])
    ensures low in rows && IsVariant(rows[low]) && SameKey(rows[low], rows[i]) && !HasLower(rows, low)
    decreases set j | j in rows && j < i
  {
    if HasLower(rows, i) {
      var j :| j in rows && IsVariant(rows[j]) && SameKey(rows[j], rows[i]) && j < i;
      var below, lower := set k | k in rows && k < i, set k | k in rows && k < j;
      assert j in below && j !in lower && lower <= below;
      low := LowestVariant(rows, j);
    } else {
      low := i;
    }
  }

  /** Every key that had an idea of the family before has exactly one after, and only such keys
      do; a plain idea is kept as it was. */
  lemma OneIdeaForEveryKey(before: Table, after: Table, i: int)
    requires UniqueKey(before) && IsDowngraded(before, after) && UniqueKey(after)
    requires i in before && IsFamily(before[i])
    ensures exists k :: k in after && IsFamily(after[k]) && SameKey(after[k], before[i])
    ensures forall k, l | k in after && l in after && IsFamily(after[k]) && IsFamily(after[l])
                          && SameKey(after[k], before[i]) && SameKey(after[l], before[i]) :: k == l
    ensures before[i].source == LEGACY ==> i in after && after[i] == before[i]
  {
    if before[i].source == LEGACY {
      assert IsKept(before, i);
    } else if IsShadowed(before, i) {
      var j :| j in before && before[j].source == LEGACY && SameKey(before[j], before[i]);
      assert IsKept(before, j);
      assert j in after && IsFamily(after[j]) && SameKey(after[j], before[i]);
    } else {
      var low := LowestVariant(before, i);
      assert !IsShadowed(before, low);
      assert low in after && IsFamily(after[low]) && SameKey(after[low], before[i]);
    }
  }

  /** Rows outside the family are untouched, none appears, and a variant survives exactly when
      no plain idea has its key and it is the lowest id among the variants of its key. */
  lemma WhoSurvives(before: Table, after: Table, i: int)
    requires IsDowngraded(before, after)
    ensures i in after ==> i in before && after[i] == before[i].(source := after[i].source)
    ensures i in before && !IsFamily(before[i]) ==> i in after && after[i] == before[i]
    ensures i in before && IsVariant(before[i]) ==>
              (i in after <==>
                 (forall j | j in before && SameKey(before[j], before[i]) :: before[j].source != LEGACY) &&
                 (forall j | j in before && SameKey(before[j], before[i]) && IsVariant(before[j]) :: i <= j))
  {
    if i in before && !IsFamily(before[i]) { assert IsKept(before, i); }
  }

  // ----- Column by column ----------------------------------------------------------

  predicate SameColumns(a: Idea, b: Idea) {
    a.buildRunId == b.buildRunId && a.normalizedKeyword == b.normalizedKeyword && a.sourceSeedKey == b.sourceSeedKey
  }

  /** Which broad and close ideas are left, in terms of run, keyword, seed and id, and that they are
      plain ideas then. */
  lemma SurvivorsByColumns(before: Table, after: Table, i: int)
    requires IsDowngraded(before, after) && i in before
    requires before[i].source in {"keyword_ideas_broad", "keyword_ideas_close"}
    ensures i in after <==>
            forall j | j in before && j != i && SameColumns(before[j], before[i]) ::
              && before[j].source != "keyword_ideas"
              && (before[j].source in {"keyword_ideas_broad", "keyword_ideas_close"} ==> i < j)
    ensures i in after ==> after[i] == before[i].(source := "keyword_ideas")
  {
    WhoSurvives(before, after, i);
  }

  /** Every other idea stays as it was. */
  lemma OthersStay(before: Table, after: Table, i: int)
    requires IsDowngraded(before, after) && i in before
    requires before[i].source !in {"keyword_ideas_broad", "keyword_ideas_close"}
    ensures i in after && after[i] == before[i]
  {
    assert IsKept(before, i);
  }

  /** The unique constraint, by column. */
  lemma UniqueByColumns(rows: Table)
    ensures UniqueKey(rows) <==>
            forall i, j | i in rows && j in rows && i != j ::
              !(SameColumns(rows[i], rows[j]) && rows[i].source == rows[j].source)
  {
  }

  /** The two source checks. */
  lemma SourceChecks(rows: Table)
    ensures SourcesIn(rows, OLD_SOURCES) <==>
            forall i | i in rows ::
              rows[i].source in {"site_seed", "seed", "google_ads", "google_suggest", "ai", "labs_site",
                                 "google_ads_site", "keyword_ideas"}
    ensures SourcesIn(rows, SOURCES) <==>
            forall i | i in rows ::
              || rows[i].source in {"site_seed", "seed", "google_ads", "google_suggest", "ai", "labs_site",
                                    "google_ads_site", "keyword_ideas"}
              || rows[i].source in {"keyword_ideas_broad", "keyword_ideas_close"}
  {
  }
}
