/** The meal service's recipe repository: the filtered-search query builder
    and the exception translation around persisting a recipe. Running the
    query belongs to the ORM and the database; only the generated query text
    and its named parameters are modelled here. */
module RecipeRepository {
  import opened Optional

  // ---------------------------------------------------------------------
  // Filter criteria (RecipeRequirementsDTO and the DTOs it holds)
  // ---------------------------------------------------------------------

  datatype AllergenDto = AllergenDto(name: string)
  datatype DietDto = DietDto(name: string)
  datatype NutrientDto = NutrientDto(id: int)

  /** Each criterion is a nullable Java reference: None stands for null. */
  datatype RecipeRequirements = RecipeRequirements(
    allergensToAvoid: Option<seq<AllergenDto>>,
    suitableForTheseDiets: Option<seq<DietDto>>,
    nutrients: Option<seq<NutrientDto>>,
    difficulty: Option<string>)

  /** The values the builder puts into its parameter map. */
  datatype Param = Names(names: seq<string>) | Ids(ids: seq<int>) | Text(text: string)

  /** The four optional filters, in the order the builder tests them. */
  datatype Criterion = Allergens | Diets | Nutrients | Difficulty

  // ---------------------------------------------------------------------
  // Fixed query text
  // ---------------------------------------------------------------------

  /** The base query without its trailing `WHERE 1=1`. */
  const JoinedRecipes: string :=
    "SELECT DISTINCT r FROM RecipeEntity r " +
    "LEFT JOIN FETCH r.macroIngredients m " +
    "LEFT JOIN FETCH m.microIngredients mi " +
    "LEFT JOIN FETCH mi.nutrients n " +
    "LEFT JOIN FETCH r.dietarySuitability dts " +
    "LEFT JOIN FETCH mi.allergens a "

  const BaseQuery: string := JoinedRecipes + "WHERE 1=1"

  // Each clause is kept in the pieces it is made of (keyword, test,
  // placeholder, trailing space) so that the pieces can be read by the verifier.
  const AllergenClause: string := "AND " + "COALESCE(a.name, '') NOT IN " + "(:allergens)" + " "
  const DietClause: string := "AND " + "COALESCE(dts.name, '') IN " + "(:diets)" + " "
  const NutrientClause: string := "AND " + "n.id IN " + "(:nutrientIds)" + " "
  const DifficultyClause: string := "AND " + "r.difficulty.name = " + ":difficulty" + " "

  function Clause(c: Criterion): (r: string)
    ensures |r| > 4 && r[..4] == "AND "
  {
    match c
    case Allergens => AllergenClause
    case Diets => DietClause
    case Nutrients => NutrientClause
    case Difficulty => DifficultyClause
  }

  /** The parameter-map key each clause's placeholder refers to. */
  function Key(c: Criterion): string {
    match c
    case Allergens => "allergens"
    case Diets => "diets"
    case Nutrients => "nutrientIds"
    case Difficulty => "difficulty"
  }

  const AllKeys: set<string> := {"allergens", "diets", "nutrientIds", "difficulty"}

  /** Position of a criterion in the order the builder tests it. */
  function Rank(c: Criterion): nat {
    match c
    case Allergens => 0
    case Diets => 1
    case Nutrients => 2
    case Difficulty => 3
  }

  // ---------------------------------------------------------------------
  // Which criteria are active, and what parameter each contributes
  // ---------------------------------------------------------------------

  /** `x != null && !x.isEmpty()` for a list or a string. */
  predicate Given<T>(o: Option<seq<T>>) {
    o.Some? && |o.value| > 0
  }

  predicate Active(req: RecipeRequirements, c: Criterion) {
    match c
    case Allergens => Given(req.allergensToAvoid)
    case Diets => Given(req.suitableForTheseDiets)
    case Nutrients => Given(req.nutrients)
    case Difficulty => Given(req.difficulty)
  }

  /** `list.stream().map(f).toList()`. */
  function Project<T, U>(xs: seq<T>, f: T -> U): (r: seq<U>)
    ensures |r| == |xs|
    ensures forall i :: 0 <= i < |xs| ==> r[i] == f(xs[i])
  {
    if xs == [] then [] else [f(xs[0])] + Project(xs[1..], f)
  }

  function AllergenNames(xs: seq<AllergenDto>): seq<string> {
    Project(xs, (a: AllergenDto) => a.name)
  }

  function DietNames(xs: seq<DietDto>): seq<string> {
    Project(xs, (d: DietDto) => d.name)
  }

  function NutrientIds(xs: seq<NutrientDto>): seq<int> {
    Project(xs, (n: NutrientDto) => n.id)
  }

  /** The value an active criterion puts under its key: each list parameter
      lists the names (ids) of its input list, element by element; the
      difficulty parameter is the input string unchanged. */
  function ParamValue(req: RecipeRequirements, c: Criterion): (p: Param)
    requires Active(req, c)
    ensures c == Allergens ==>
      var xs := req.allergensToAvoid.value;
      p.Names? && |p.names| == |xs| && forall i :: 0 <= i < |xs| ==> p.names[i] == xs[i].name
    ensures c == Diets ==>
      var xs := req.suitableForTheseDiets.value;
      p.Names? && |p.names| == |xs| && forall i :: 0 <= i < |xs| ==> p.names[i] == xs[i].name
    ensures c == Nutrients ==>
      var xs := req.nutrients.value;
      p.Ids? && |p.ids| == |xs| && forall i :: 0 <= i < |xs| ==> p.ids[i] == xs[i].id
    ensures c == Difficulty ==> p == Text(req.difficulty.value)
  {
    match c
    case Allergens => Names(AllergenNames(req.allergensToAvoid.value))
    case Diets => Names(DietNames(req.suitableForTheseDiets.value))
    case Nutrients => Ids(NutrientIds(req.nutrients.value))
    case Difficulty => Text(req.difficulty.value)
  }

  /** `cs` followed by `c` when `c` is active. */
  function Include(req: RecipeRequirements, cs: seq<Criterion>, c: Criterion): seq<Criterion> {
    if Active(req, c) then cs + [c] else cs
  }

  /** The active criteria, in the builder's fixed order. */
  function ActiveClauses(req: RecipeRequirements): (r: seq<Criterion>)
    ensures forall c :: c in r <==> Active(req, c)
    ensures forall i, j :: 0 <= i < j < |r| ==> Rank(r[i]) < Rank(r[j])
  {
    Include(req, Include(req, Include(req, Include(req, [], Allergens), Diets), Nutrients), Difficulty)
  }

  /** The clauses of `cs`, appended one after another with nothing between. */
  function Render(cs: seq<Criterion>): string {
    if cs == [] then "" else Render(cs[..|cs| - 1]) + Clause(cs[|cs| - 1])
  }

  /** The map that successive `params.put(Key(c), ParamValue(c))` calls build. */
  function ParamMap(req: RecipeRequirements, cs: seq<Criterion>): map<string, Param>
    requires forall i :: 0 <= i < |cs| ==> Active(req, cs[i])
  {
    if cs == [] then map[]
    else ParamMap(req, cs[..|cs| - 1])[Key(cs[|cs| - 1]) := ParamValue(req, cs[|cs| - 1])]
  }

  /** The query text the builder produces for `req`. */
  function Query(req: RecipeRequirements): string {
    BaseQuery + Render(ActiveClauses(req))
  }

  /** The parameter map the builder produces for `req`. */
  function Params(req: RecipeRequirements): map<string, Param> {
    ParamMap(req, ActiveClauses(req))
  }

  // ---------------------------------------------------------------------
  // The builder (findRecipesByRequirements without the final `find`)
  // ---------------------------------------------------------------------

  method FindRecipesByRequirements(req: RecipeRequirements) returns (query: string, params: map<string, Param>)
    ensures query == Query(req)
    ensures params == Params(req)
  {
    query := BaseQuery;
    params := map[];
    // The criteria whose clause has been appended so far, and the state
    // before the current step.
    ghost var applied: seq<Criterion> := [];
    ghost var q0, p0 := query, params;

    if req.allergensToAvoid.Some? && |req.allergensToAvoid.value| > 0 {
      query := query + AllergenClause;
      params := params["allergens" := Names(AllergenNames(req.allergensToAvoid.value))];
    }
    Step(req, applied, Allergens, q0, p0, query, params);
    applied, q0, p0 := Include(req, applied, Allergens), query, params;

    if req.suitableForTheseDiets.Some? && |req.suitableForTheseDiets.value| > 0 {
      query := query + DietClause;
      params := params["diets" := Names(DietNames(req.suitableForTheseDiets.value))];
    }
    Step(req, applied, Diets, q0, p0, query, params);
    applied, q0, p0 := Include(req, applied, Diets), query, params;

    if req.nutrients.Some? && |req.nutrients.value| > 0 {
      query := query + NutrientClause;
      params := params["nutrientIds" := Ids(NutrientIds(req.nutrients.value))];
    }
    Step(req, applied, Nutrients, q0, p0, query, params);
    applied, q0, p0 := Include(req, applied, Nutrients), query, params;

    if req.difficulty.Some? && |req.difficulty.value| > 0 {
      query := query + DifficultyClause;
      params := params["difficulty" := Text(req.difficulty.value)];
    }
    Step(req, applied, Difficulty, q0, p0, query, params);
  }

  /** One conditional step of the builder: when `c` is active it appends the
      clause of `c` and puts its parameter, otherwise it changes nothing. */
  lemma Step(req: RecipeRequirements, cs: seq<Criterion>, c: Criterion,
             query: string, params: map<string, Param>,
             query': string, params': map<string, Param>)
    requires forall i :: 0 <= i < |cs| ==> Active(req, cs[i])
    requires query == BaseQuery + Render(cs) && params == ParamMap(req, cs)
    requires Active(req, c) ==> query' == query + Clause(c) && params' == params[Key(c) := ParamValue(req, c)]
    requires !Active(req, c) ==> query' == query && params' == params
    ensures forall i :: 0 <= i < |Include(req, cs, c)| ==> Active(req, Include(req, cs, c)[i])
    ensures query' == BaseQuery + Render(Include(req, cs, c))
    ensures params' == ParamMap(req, Include(req, cs, c))
  {
    if Active(req, c) {
      assert (cs + [c])[..|cs|] == cs;
      assert Render(cs + [c]) == Render(cs) + Clause(c);
      AppendAssoc(BaseQuery, Render(cs), Clause(c));
    }
  }

  lemma AppendAssoc(a: string, b: string, c: string)
    ensures (a + b) + c == a + (b + c)
  {
  }

  // ---------------------------------------------------------------------
  // Properties of the generated query and parameters
  // ---------------------------------------------------------------------

  /** With no criterion given, the query is the bare base query and no parameter is bound. */
  lemma NoCriteria(req: RecipeRequirements)
    requires !Given(req.allergensToAvoid) && !Given(req.suitableForTheseDiets)
    requires !Given(req.nutrients) && !Given(req.difficulty)
    ensures Query(req) == BaseQuery
    ensures Query(req)[|Query(req)| - 9..] == "WHERE 1=1"
    ensures Params(req) == map[]
  {
  }

  lemma PrefixOfAppend(a: string, b: string, k: nat)
    requires k <= |a|
    ensures (a + b)[..k] == a[..k]
  {
  }

  lemma {:induction false} RenderStartsWith(cs: seq<Criterion>)
    requires cs != []
    ensures |Clause(cs[0])| <= |Render(cs)| && Render(cs)[..|Clause(cs[0])|] == Clause(cs[0])
  {
    var init, last := cs[..|cs| - 1], cs[|cs| - 1];
    var k := |Clause(cs[0])|;
    if init == [] {
      assert Render(cs) == Render(init) + Clause(last) == Clause(cs[0]);
    } else {
      assert init[0] == cs[0];
      RenderStartsWith(init);
      PrefixOfAppend(Render(init), Clause(last), k);
    }
  }

  /** Whatever starts with `AND ` and is appended to the base query is glued to `1=1`. */
  lemma GluedToBase(r: string)
    requires |r| >= 4 && r[..4] == "AND "
    ensures (BaseQuery + r)[|BaseQuery| - 3..|BaseQuery| + 4] == "1=1AND "
  {
  }

  /** The builder inserts no separator: the first active clause is glued to `1=1`. */
  lemma NoSeparatorAfterBase(req: RecipeRequirements)
    requires ActiveClauses(req) != []
    ensures |BaseQuery| + 4 <= |Query(req)|
    ensures Query(req)[|BaseQuery| - 3..|BaseQuery| + 4] == "1=1AND "
  {
    var cs := ActiveClauses(req);
    RenderStartsWith(cs);
    assert Render(cs)[..4] == "AND ";
    GluedToBase(Render(cs));
  }

  lemma {:induction false} ParamMapKeys(req: RecipeRequirements, cs: seq<Criterion>)
    requires forall i :: 0 <= i < |cs| ==> Active(req, cs[i])
    ensures forall k :: k in ParamMap(req, cs) <==> exists c :: c in cs && Key(c) == k
  {
    if cs != [] {
      var init := cs[..|cs| - 1];
      ParamMapKeys(req, init);
      assert forall c :: c in cs <==> c in init || c == cs[|cs| - 1];
    }
  }

  lemma {:induction false} ParamMapSize(req: RecipeRequirements, cs: seq<Criterion>)
    requires forall i :: 0 <= i < |cs| ==> Active(req, cs[i])
    requires forall i, j :: 0 <= i < j < |cs| ==> cs[i] != cs[j]
    ensures |ParamMap(req, cs).Keys| == |cs|
  {
    if cs != [] {
      var init, last := cs[..|cs| - 1], cs[|cs| - 1];
      ParamMapSize(req, init);
      ParamMapKeys(req, init);
    }
  }

  lemma {:induction false} ParamMapAt(req: RecipeRequirements, cs: seq<Criterion>, c: Criterion)
    requires forall i :: 0 <= i < |cs| ==> Active(req, cs[i])
    requires c in cs
    ensures Active(req, c) && Key(c) in ParamMap(req, cs)
    ensures ParamMap(req, cs)[Key(c)] == ParamValue(req, c)
  {
    var init := cs[..|cs| - 1];
    if c != cs[|cs| - 1] {
      assert c in init;
      ParamMapAt(req, init, c);
    }
  }

  /** Different criteria use different keys. */
  lemma KeysDiffer(c: Criterion, d: Criterion)
    requires c != d
    ensures Key(c) != Key(d)
  {
  }

  /** A key is bound exactly when its criterion is active, and only the four known keys occur. */
  lemma KeyPresentIffActive(req: RecipeRequirements)
    ensures forall c :: Key(c) in Params(req) <==> Active(req, c)
    ensures Params(req).Keys <= AllKeys
  {
    var cs := ActiveClauses(req);
    ParamMapKeys(req, cs);
    forall c ensures Key(c) in Params(req) <==> Active(req, c) {
      if Key(c) in Params(req) {
        var d :| d in cs && Key(d) == Key(c);
        if d != c { KeysDiffer(c, d); }
      }
    }
    forall k | k in Params(req) ensures k in AllKeys {
      var d :| d in cs && Key(d) == k;
    }
  }

  /** There are exactly as many parameters as active clauses. */
  lemma ParamCountMatchesClauses(req: RecipeRequirements)
    ensures |Params(req).Keys| == |ActiveClauses(req)|
    ensures |ActiveClauses(req)| <= 4
  {
    ParamMapSize(req, ActiveClauses(req));
  }

  /** Every active criterion's key is bound to that criterion's value. */
  lemma ParamsFollowInput(req: RecipeRequirements)
    ensures forall c :: Active(req, c) ==> Key(c) in Params(req) && Params(req)[Key(c)] == ParamValue(req, c)
  {
    forall c | Active(req, c) ensures Key(c) in Params(req) && Params(req)[Key(c)] == ParamValue(req, c) {
      ParamMapAt(req, ActiveClauses(req), c);
    }
  }

  // ---------------------------------------------------------------------
  // Reading the clauses back: the query text names exactly the active criteria
  // ---------------------------------------------------------------------

  predicate EndsWith(s: string, t: string) {
    |t| <= |s| && s[|s| - |t|..] == t
  }

  /** The clause `s` ends with, tried in the builder's order. */
  function Ending(s: string): (r: Option<Criterion>)
    ensures r.Some? ==> EndsWith(s, Clause(r.value))
  {
    if EndsWith(s, AllergenClause) then Some(Allergens)
    else if EndsWith(s, DietClause) then Some(Diets)
    else if EndsWith(s, NutrientClause) then Some(Nutrients)
    else if EndsWith(s, DifficultyClause) then Some(Difficulty)
    else None
  }

  /** Splits a string of appended clauses back into criteria. */
  function ParseClauses(s: string): Option<seq<Criterion>>
    decreases |s|
  {
    if s == "" then Some([])
    else match Ending(s)
      case None => None
      case Some(c) =>
        match ParseClauses(s[..|s| - |Clause(c)|])
        case None => None
        case Some(cs) => Some(cs + [c])
  }

  /** Reads the active criteria back from a generated query. */
  function ParseQuery(q: string): Option<seq<Criterion>> {
    if |BaseQuery| <= |q| && q[..|BaseQuery|] == BaseQuery then ParseClauses(q[|BaseQuery|..]) else None
  }

  /** No clause text ends with another one. */
  lemma ClausesEndApart(s: string, c: Criterion, d: Criterion)
    requires c != d
    ensures !EndsWith(s + Clause(c), Clause(d))
  {
    var t := s + Clause(c);
    var k := if c == Difficulty || d == Difficulty then 1 else 3;
    assert t[|t| - 1 - k] == Clause(c)[|Clause(c)| - 1 - k];
  }

  /** The clause a string of clauses ends with is recognised as its last one. */
  lemma EndingOfClause(s: string, c: Criterion)
    ensures Ending(s + Clause(c)) == Some(c)
  {
    var t := s + Clause(c);
    assert t[|t| - |Clause(c)|..] == Clause(c);
    if c != Allergens { ClausesEndApart(s, c, Allergens); }
    if c != Diets { ClausesEndApart(s, c, Diets); }
    if c != Nutrients { ClausesEndApart(s, c, Nutrients); }
  }

  lemma {:induction false} ParseRender(cs: seq<Criterion>)
    ensures ParseClauses(Render(cs)) == Some(cs)
  {
    if cs != [] {
      var init, last := cs[..|cs| - 1], cs[|cs| - 1];
      assert init + [last] == cs;
      var s := Render(cs);
      EndingOfClause(Render(init), last);
      assert s[..|s| - |Clause(last)|] == Render(init);
      ParseRender(init);
    }
  }

  /** The query text determines the active criteria: reading it back gives
      exactly the active clauses, in the builder's order. */
  lemma QueryNamesActiveClauses(req: RecipeRequirements)
    ensures ParseQuery(Query(req)) == Some(ActiveClauses(req))
    ensures forall c :: c in ParseQuery(Query(req)).value <==> Active(req, c)
  {
    var q := Query(req);
    assert q[..|BaseQuery|] == BaseQuery;
    assert q[|BaseQuery|..] == Render(ActiveClauses(req));
    ParseRender(ActiveClauses(req));
  }

  // ---------------------------------------------------------------------
  // persistRecipeEntity: exception translation
  // ---------------------------------------------------------------------

  datatype Violation = Violation(propertyPath: string, message: string)
  datatype SqlException = SqlException(sqlState: string, errorCode: int)

  /** What persistAndFlush can throw. Messages may be null (None). */
  datatype PersistFailure =
    | ValidationFailure(message: Option<string>, violations: set<Violation>)
    | DatabaseConstraintFailure(message: Option<string>, sqlException: SqlException, constraintName: Option<string>)
    | OtherFailure(exception: string)

  datatype PersistOutcome = Persisted | Failed(failure: PersistFailure)

  const ValidationPrefix: string :=
    "Could not persist user entity in database due to validation error: "
  const ConstraintPrefix: string :=
    "Could not persist user entity in database due to database constraint violation: "

  /** Java string concatenation with a possibly null string. */
  function Concat(prefix: string, m: Option<string>): string {
    prefix + (match m case None => "null" case Some(s) => s)
  }

  predicate SameKind(f: PersistFailure, g: PersistFailure) {
    (f.ValidationFailure? && g.ValidationFailure?) ||
    (f.DatabaseConstraintFailure? && g.DatabaseConstraintFailure?) ||
    (f.OtherFailure? && g.OtherFailure?)
  }

  /** `persistRecipeEntity` given the outcome of `persistAndFlush`: the two
      constraint-violation kinds are rethrown as the same kind with a prefixed
      message and their details; anything else passes through. */
  function PersistRecipeEntity(flush: PersistOutcome): (r: PersistOutcome)
    ensures r.Persisted? <==> flush.Persisted?
    ensures flush.Failed? ==> SameKind(r.failure, flush.failure)
    ensures flush.Failed? && flush.failure.ValidationFailure? ==>
      r.failure.violations == flush.failure.violations &&
      r.failure.message.Some? &&
      r.failure.message.value == Concat(ValidationPrefix, flush.failure.message)
    ensures flush.Failed? && flush.failure.DatabaseConstraintFailure? ==>
      r.failure.sqlException == flush.failure.sqlException &&
      r.failure.constraintName == flush.failure.constraintName &&
      r.failure.message.Some? &&
      r.failure.message.value == Concat(ConstraintPrefix, flush.failure.message)
    ensures flush.Failed? && flush.failure.OtherFailure? ==> r == flush
  {
    match flush
    case Persisted => Persisted
    case Failed(ValidationFailure(m, vs)) =>
      Failed(ValidationFailure(Some(Concat(ValidationPrefix, m)), vs))
    case Failed(DatabaseConstraintFailure(m, sql, name)) =>
      Failed(DatabaseConstraintFailure(Some(Concat(ConstraintPrefix, m)), sql, name))
    case Failed(OtherFailure(e)) => flush
  }

  /** The original message can be read back from the rethrown one (a null
      message reads back as "null"). */
  lemma RethrownMessageKeepsOriginal(flush: PersistOutcome)
    requires flush.Failed? && !flush.failure.OtherFailure?
    ensures var r := PersistRecipeEntity(flush);
      var prefix := if flush.failure.ValidationFailure? then ValidationPrefix else ConstraintPrefix;
      r.failure.message.Some? &&
      |prefix| <= |r.failure.message.value| &&
      r.failure.message.value[..|prefix|] == prefix &&
      r.failure.message.value[|prefix|..] == Concat("", flush.failure.message)
  {
  }
}
