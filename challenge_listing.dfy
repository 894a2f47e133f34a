/**
 * The listing query of `challenges_index` in challenges_blueprint.py: the SQL
 * text and the placeholder values built from the request's `difficulty`,
 * `data_structure_type` and `sort_by` arguments.  A request argument is
 * `None` when the request does not carry it.
 */
module ChallengeListing {
  import opened Common
  import opened Text

  /** `ALLOWED_SORT_FIELDS`. */
  const AllowedSortFields: set<string> := {"difficulty", "created_at"}

  /** The sort field used when `sort_by` is absent or not allowed. */
  const DefaultSort := "created_at"

  /** The fixed SELECT ... INNER JOIN text every listing query starts with, whitespace included. */
  const BaseQuery: string :=
    "SELECT c.id,\n"
    + "                        c.author AS author_id,\n"
    + "                        c.title,\n"
    + "                        c.description,\n"
    + "                        c.difficulty,\n"
    + "                        c.data_structure_type,\n"
    + "                        c.created_at,\n"
    + "                        c.updated_at,\n"
    + "                        u.username AS author_username\n"
    + "                    FROM coding_challenges c\n"
    + "                    INNER JOIN users u ON c.author = u.id\n"
    + "                "

  const DifficultyCondition := "c.difficulty = %s"
  const DataStructureCondition := "c.data_structure_type = %s"

  /** The two ORDER BY clauses: easy, medium, hard in that order, or newest first. */
  const OrderBy := " ORDER BY "
  const OrderByDifficulty := OrderBy + "CASE c.difficulty WHEN 'easy' THEN 1 WHEN 'medium' THEN 2 WHEN 'hard' THEN 3 END"
  const OrderByNewest := OrderBy + "c.created_at DESC"

  /** Python truthiness of a request argument: present and not the empty string. */
  predicate Truthy(arg: Option<string>) {
    arg.Some? && arg.value != ""
  }

  /** The sort field after `request.args.get("sort_by", "created_at")` and the whitelist check. */
  function SortField(sortBy: Option<string>): (field: string)
    ensures field in AllowedSortFields
    ensures (sortBy.Some? && sortBy.value in AllowedSortFields) <==> (sortBy.Some? && field == sortBy.value)
    ensures field != DefaultSort ==> sortBy == Some(field)
  {
    var requested := sortBy.GetOr(DefaultSort);
    if requested in AllowedSortFields then requested else DefaultSort
  }

  /** The filter conditions, in the order the handler appends them. */
  function Conditions(difficulty: Option<string>, dataStructure: Option<string>): seq<string> {
    (if Truthy(difficulty) then [DifficultyCondition] else [])
    + (if Truthy(dataStructure) then [DataStructureCondition] else [])
  }

  /** The placeholder values, in the order the handler appends them. */
  function Params(difficulty: Option<string>, dataStructure: Option<string>): seq<string> {
    (if Truthy(difficulty) then [difficulty.value] else [])
    + (if Truthy(dataStructure) then [dataStructure.value] else [])
  }

  /** The WHERE clause for a list of conditions: nothing when there is none. */
  function WhereClause(conditions: seq<string>): string {
    if |conditions| > 0 then " WHERE " + Join(" AND ", conditions) else ""
  }

  /** The ORDER BY clause for an allowed sort field. */
  function OrderClause(field: string): string {
    if field == "difficulty" then OrderByDifficulty else OrderByNewest
  }

  /** The query text `challenges_index` hands to `cursor.execute`. */
  function ListingQuery(difficulty: Option<string>, dataStructure: Option<string>, sortBy: Option<string>): string {
    BaseQuery + WhereClause(Conditions(difficulty, dataStructure)) + OrderClause(SortField(sortBy))
  }

  /** `challenges_index` up to `cursor.execute`: the query and the parameter tuple, built step by step. */
  method BuildListingQuery(difficultyFilter: Option<string>, dataStructureFilter: Option<string>, sortByArg: Option<string>)
    returns (query: string, params: seq<string>)
    ensures query == ListingQuery(difficultyFilter, dataStructureFilter, sortByArg)
    ensures params == Params(difficultyFilter, dataStructureFilter)
  {
    var sortBy := sortByArg.GetOr(DefaultSort);
    if sortBy !in AllowedSortFields {
      sortBy := DefaultSort;
    }
    var baseQuery := BaseQuery;
    params := [];
    var conditions: seq<string> := [];
    if Truthy(difficultyFilter) {
      conditions := conditions + [DifficultyCondition];
      params := params + [difficultyFilter.value];
    }
    if Truthy(dataStructureFilter) {
      conditions := conditions + [DataStructureCondition];
      params := params + [dataStructureFilter.value];
    }
    assert conditions == Conditions(difficultyFilter, dataStructureFilter);
    if |conditions| > 0 {
      baseQuery := baseQuery + (" WHERE " + Join(" AND ", conditions));
    }
    if |conditions| == 0 {
      Concat(BaseQuery, "");
    }
    assert baseQuery == BaseQuery + WhereClause(conditions);
    if sortBy == "difficulty" {
      baseQuery := baseQuery + OrderByDifficulty;
    } else {
      baseQuery := baseQuery + OrderByNewest;
    }
    query := baseQuery;
  }

  // ---------------------------------------------------------------------------
  // What the query means

  /**
   * One placeholder value per condition, value `i` for condition `i`: the
   * difficulty condition is present exactly when the difficulty filter is
   * truthy and binds its value, the data-structure condition likewise, and
   * it always comes second.
   */
  lemma ConditionsBindParams(difficulty: Option<string>, dataStructure: Option<string>)
    ensures var cs := Conditions(difficulty, dataStructure);
      var ps := Params(difficulty, dataStructure);
      && |cs| == |ps|
      && (DifficultyCondition in cs <==> Truthy(difficulty))
      && (DataStructureCondition in cs <==> Truthy(dataStructure))
      && (forall i :: 0 <= i < |cs| && cs[i] == DifficultyCondition ==> ps[i] == difficulty.value)
      && (forall i :: 0 <= i < |cs| && cs[i] == DataStructureCondition ==> ps[i] == dataStructure.value)
      && (forall i :: 0 <= i < |cs| && cs[i] == DataStructureCondition ==> i == |cs| - 1)
  {
    assert DifficultyCondition != DataStructureCondition by {
      assert DifficultyCondition[3] != DataStructureCondition[3];
    }
  }

  /** The query is the base text, then the WHERE clause, then exactly one of the two ORDER BY clauses. */
  lemma QueryShape(difficulty: Option<string>, dataStructure: Option<string>, sortBy: Option<string>)
    ensures var q := ListingQuery(difficulty, dataStructure, sortBy);
      var w := WhereClause(Conditions(difficulty, dataStructure));
      && |BaseQuery| + |w| <= |q|
      && q[..|BaseQuery|] == BaseQuery
      && q[|BaseQuery|..|BaseQuery| + |w|] == w
      && (q[|BaseQuery| + |w|..] == OrderByDifficulty <==> SortField(sortBy) == "difficulty")
      && (q[|BaseQuery| + |w|..] == OrderByNewest <==> SortField(sortBy) == "created_at")
  {
    var w := WhereClause(Conditions(difficulty, dataStructure));
    var o := OrderClause(SortField(sortBy));
    var q := BaseQuery + w + o;
    Concat3(BaseQuery, w, o);
    assert OrderByDifficulty != OrderByNewest by {
      assert |OrderByDifficulty| != |OrderByNewest|;
    }
  }

  /**
   * A WHERE clause follows the base text exactly when some filter is truthy;
   * with both filters it is " WHERE ", the difficulty condition, " AND " and
   * the data-structure condition.
   */
  lemma WhereIffFiltered(difficulty: Option<string>, dataStructure: Option<string>, sortBy: Option<string>)
    ensures var q := ListingQuery(difficulty, dataStructure, sortBy);
      var rest := q[|BaseQuery|..];
      && (|rest| >= 7 && rest[..7] == " WHERE " <==> Truthy(difficulty) || Truthy(dataStructure))
      && (Truthy(difficulty) && Truthy(dataStructure) ==>
            rest == " WHERE " + DifficultyCondition + " AND " + DataStructureCondition + OrderClause(SortField(sortBy)))
  {
    var w := WhereClause(Conditions(difficulty, dataStructure));
    var o := OrderClause(SortField(sortBy));
    Concat3(BaseQuery, w, o);
    OrderStart(SortField(sortBy));
    WhereStart(Conditions(difficulty, dataStructure), o);
    if Truthy(difficulty) && Truthy(dataStructure) {
      BothConditions(difficulty, dataStructure);
    }
  }

  /** Both ORDER BY clauses start with " ORDER BY ". */
  lemma OrderStart(field: string)
    ensures |OrderClause(field)| >= |OrderBy| && OrderClause(field)[..|OrderBy|] == OrderBy
  {
    if field == "difficulty" {
      Concat(OrderBy, "CASE c.difficulty WHEN 'easy' THEN 1 WHEN 'medium' THEN 2 WHEN 'hard' THEN 3 END");
    } else {
      Concat(OrderBy, "c.created_at DESC");
    }
  }

  /** Text made of a WHERE clause and an ORDER BY clause starts with " WHERE " exactly when there are conditions. */
  lemma WhereStart(conditions: seq<string>, o: string)
    requires |o| >= |OrderBy| && o[..|OrderBy|] == OrderBy
    ensures var r := WhereClause(conditions) + o;
      |r| >= 7 && r[..7] == " WHERE " <==> |conditions| > 0
  {
    var w := WhereClause(conditions);
    if w == "" {
      assert o[1] == OrderBy[1];
      assert (w + o)[1] == o[1];
    } else {
      assert (w + o)[..7] == w[..7];
    }
  }

  /** With both filters the WHERE clause joins the two conditions. */
  lemma BothConditions(difficulty: Option<string>, dataStructure: Option<string>)
    requires Truthy(difficulty) && Truthy(dataStructure)
    ensures WhereClause(Conditions(difficulty, dataStructure)) == " WHERE " + DifficultyCondition + " AND " + DataStructureCondition
  {
    assert Conditions(difficulty, dataStructure) == [DifficultyCondition, DataStructureCondition];
    assert Join(" AND ", [DifficultyCondition, DataStructureCondition])
      == DifficultyCondition + " AND " + DataStructureCondition;
  }

  /** Without filters the query is the base text followed by the chosen ORDER BY clause. */
  lemma UnfilteredQuery(difficulty: Option<string>, dataStructure: Option<string>, sortBy: Option<string>)
    requires !Truthy(difficulty) && !Truthy(dataStructure)
    ensures ListingQuery(difficulty, dataStructure, sortBy) == BaseQuery + OrderClause(SortField(sortBy))
    ensures Params(difficulty, dataStructure) == []
  {
    assert WhereClause(Conditions(difficulty, dataStructure)) == "";
    Concat(BaseQuery, "");
  }

  /** The pieces of a concatenation are found at their places; appending nothing changes nothing. */
  lemma Concat(a: string, b: string)
    ensures (a + b)[..|a|] == a && (a + b)[|a|..] == b
    ensures b == "" ==> a + b == a
  {
  }

  /** The same for three pieces. */
  lemma Concat3(a: string, b: string, c: string)
    ensures |a| + |b| <= |a + b + c|
    ensures (a + b + c)[..|a|] == a
    ensures (a + b + c)[|a|..] == b + c
    ensures (a + b + c)[|a|..|a| + |b|] == b
    ensures (a + b + c)[|a| + |b|..] == c
  {
    assert a + b + c == a + (b + c);
  }
}
