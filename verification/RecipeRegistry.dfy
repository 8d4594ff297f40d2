/** The community recipe registry: submission, review, publication, and withdrawal. */
module RecipeRegistry {
  import opened Wrappers

  type RecipeId = string

  datatype RecipeState = Draft | Proposed | UnderReview | Published | Flagged | Deprecated | Revoked

  datatype Verdict = Approve | Reject | RequestChanges

  /** The recipe fields that the registry reads or writes; `payload` stands for the others. */
  datatype Recipe = Recipe(id: RecipeId, name: string, publishedAt: Option<int>, trustClass: string, payload: string)

  datatype Review = Review(reviewId: string, recipeId: RecipeId, reviewer: string, verdict: Verdict,
                           feedback: string, reviewedAt: int)

  datatype VerificationStatus =
    | NotVerified | VerificationInProgress | VerifiedByCommunity | VerifiedByAios | VerificationFailed

  datatype TrustBadge = TrustBadge(trustClass: string, status: VerificationStatus, communityVotes: nat)

  datatype Error =
    | EmptyName
    | NotFound(id: RecipeId)
    | InvalidTransition(from: RecipeState)
    | NoApproval

  /** The registry's three tables. */
  datatype Registry = Registry(
    recipes: map<RecipeId, Recipe>,
    states: map<RecipeId, RecipeState>,
    reviews: map<RecipeId, seq<Review>>)

  const EMPTY := Registry(map[], map[], map[])

  datatype Op =
    | Submit(recipe: Recipe)
    | Assess(id: RecipeId, review: Review)
    | Endorse(id: RecipeId, review: Review)
    | Publish(id: RecipeId, now: int)
    | Flag(id: RecipeId)
    | Deprecate(id: RecipeId)
    | Revoke(id: RecipeId)

  // ---------------------------------------------------------------------------
  // The operations on values
  // ---------------------------------------------------------------------------

  function ReviewsOf(r: Registry, id: RecipeId): seq<Review> {
    if id in r.reviews then r.reviews[id] else []
  }

  predicate HasApproval(reviews: seq<Review>) {
    exists i :: 0 <= i < |reviews| && reviews[i].verdict.Approve?
  }

  predicate InState(r: Registry, id: RecipeId, s: RecipeState) {
    id in r.states && r.states[id] == s
  }

  /** Is the operation accepted? */
  predicate Accepts(r: Registry, op: Op) {
    match op
    case Submit(recipe) => recipe.name != ""
    case Assess(id, _) => InState(r, id, Proposed) || InState(r, id, UnderReview)
    case Endorse(id, _) => InState(r, id, UnderReview)
    case Publish(id, _) => InState(r, id, UnderReview) && HasApproval(ReviewsOf(r, id)) && id in r.recipes
    case Flag(id) => id in r.recipes
    case Deprecate(id) => InState(r, id, Published)
    case Revoke(id) => id in r.recipes
  }

  /** The stored review: its recipe is the one it is filed under, and an endorsement approves. */
  function Filed(op: Op): Review
    requires op.Assess? || op.Endorse?
  {
    if op.Endorse? then op.review.(recipeId := op.id, verdict := Approve) else op.review.(recipeId := op.id)
  }

  function WithReview(r: Registry, id: RecipeId, review: Review): Registry {
    r.(reviews := r.reviews[id := ReviewsOf(r, id) + [review]])
  }

  function Moved(r: Registry, id: RecipeId, s: RecipeState): Registry {
    r.(states := r.states[id := s])
  }

  function Apply(r: Registry, op: Op): Registry {
    if !Accepts(r, op) then r
    else
      match op
      case Submit(recipe) => Moved(r, recipe.id, Proposed).(recipes := r.recipes[recipe.id := recipe])
      case Assess(id, _) => Moved(WithReview(r, id, Filed(op)), id, UnderReview)
      case Endorse(id, _) => WithReview(r, id, Filed(op))
      case Publish(id, now) =>
        Moved(r, id, Published).(recipes := r.recipes[id := r.recipes[id].(publishedAt := Some(now))])
      case Flag(id) => Moved(r, id, Flagged)
      case Deprecate(id) => Moved(r, id, Deprecated)
      case Revoke(id) => Moved(r, id, Revoked)
  }

  function StatusOf(s: RecipeState, votes: nat): VerificationStatus {
    match s
    case Published => if votes >= 3 then VerifiedByCommunity else NotVerified
    case UnderReview => VerificationInProgress
    case Flagged => VerificationFailed
    case Revoked => VerificationFailed
    case _ => NotVerified
  }

  function Badge(r: Registry, id: RecipeId): Option<TrustBadge> {
    if id !in r.recipes then None
    else
      var votes := |ReviewsOf(r, id)|;
      Some(TrustBadge(r.recipes[id].trustClass,
                      if id in r.states then StatusOf(r.states[id], votes) else NotVerified,
                      votes))
  }

  // ---------------------------------------------------------------------------
  // Counting reviews
  // ---------------------------------------------------------------------------

  /** Every stored review, as the recipe it is filed under and its place there. */
  ghost function StoredReviews(reviews: map<RecipeId, seq<Review>>): set<(RecipeId, int)> {
    set id, i | id in reviews && 0 <= i < |reviews[id]| :: (id, i)
  }

  ghost function ReviewsAmong(reviews: map<RecipeId, seq<Review>>, ids: set<RecipeId>): set<(RecipeId, int)> {
    set id, i | id in reviews && id in ids && 0 <= i < |reviews[id]| :: (id, i)
  }

  ghost function PlacesOf(id: RecipeId, n: nat): set<(RecipeId, int)> {
    set i | 0 <= i < n :: (id, i)
  }

  lemma {:induction false} PlacesCount(id: RecipeId, n: nat)
    ensures |PlacesOf(id, n)| == n
  {
    if n > 0 {
      PlacesCount(id, n - 1);
      assert PlacesOf(id, n) == PlacesOf(id, n - 1) + {(id, n - 1)};
    } else {
      assert PlacesOf(id, n) == {};
    }
  }

  lemma ReviewsOfOne(reviews: map<RecipeId, seq<Review>>, ids: set<RecipeId>, id: RecipeId)
    requires id in ids && id in reviews
    ensures |ReviewsAmong(reviews, ids)| == |ReviewsAmong(reviews, ids - {id})| + |reviews[id]|
  {
    PlacesCount(id, |reviews[id]|);
    assert ReviewsAmong(reviews, ids) == ReviewsAmong(reviews, ids - {id}) + PlacesOf(id, |reviews[id]|);
  }

  // ---------------------------------------------------------------------------
  // The registry
  // ---------------------------------------------------------------------------

  class RecipeRegistry {
    var recipes: map<RecipeId, Recipe>
    var recipeState: map<RecipeId, RecipeState>
    var reviews: map<RecipeId, seq<Review>>

    ghost function View(): Registry
      reads this
    {
      Registry(recipes, recipeState, reviews)
    }

    constructor ()
      ensures View() == EMPTY
    {
      recipes, recipeState, reviews := map[], map[], map[];
    }

    method SubmitRecipe(recipe: Recipe) returns (r: Result<RecipeId, Error>)
      modifies this
      ensures View() == Apply(old(View()), Submit(recipe))
      ensures r == if recipe.name == "" then Err(EmptyName) else Ok(recipe.id)
      ensures View() == if recipe.name == "" then old(View())
                        else Registry(old(recipes)[recipe.id := recipe], old(recipeState)[recipe.id := Proposed],
                                      old(reviews))
    {
      if recipe.name == "" {
        return Err(EmptyName);
      }
      recipeState := recipeState[recipe.id := Proposed];
      recipes := recipes[recipe.id := recipe];
      r := Ok(recipe.id);
    }

    method AppendReview(id: RecipeId, review: Review)
      modifies this`reviews
      ensures View() == WithReview(old(View()), id, review)
    {
      var existing := if id in reviews then reviews[id] else [];
      reviews := reviews[id := existing + [review]];
    }

    /** `reviewId` and `now` are the minted id and the clock reading. */
    method ReviewRecipe(id: RecipeId, reviewer: string, verdict: Verdict, feedback: string, reviewId: string, now: int)
      returns (r: Result<Review, Error>)
      modifies this
      ensures View() == Apply(old(View()), Assess(id, Review(reviewId, id, reviewer, verdict, feedback, now)))
      ensures r.Ok? <==> id in old(recipeState) && old(recipeState)[id] in {Proposed, UnderReview}
      ensures r.Ok? ==> r.value == Review(reviewId, id, reviewer, verdict, feedback, now)
      ensures View() == if r.Err? then old(View())
                        else Registry(old(recipes), old(recipeState)[id := UnderReview],
                                      old(reviews)[id := ReviewsOf(old(View()), id) + [r.value]])
      ensures r.Err? ==> r.error == if id in recipeState then InvalidTransition(recipeState[id]) else NotFound(id)
    {
      if id !in recipeState {
        return Err(NotFound(id));
      }
      var current := recipeState[id];
      if current != Proposed && current != UnderReview {
        return Err(InvalidTransition(current));
      }
      var review := Review(reviewId, id, reviewer, verdict, feedback, now);
      AppendReview(id, review);
      recipeState := recipeState[id := UnderReview];
      r := Ok(review);
    }

    method ApproveRecipe(id: RecipeId, reviewer: string, feedback: string, reviewId: string, now: int)
      returns (r: Result<Review, Error>)
      modifies this
      ensures View() == Apply(old(View()), Endorse(id, Review(reviewId, id, reviewer, Approve, feedback, now)))
      ensures r.Ok? <==> id in old(recipeState) && old(recipeState)[id] == UnderReview
      ensures r.Ok? ==> r.value == Review(reviewId, id, reviewer, Approve, feedback, now)
      ensures View() == if r.Err? then old(View())
                        else Registry(old(recipes), old(recipeState),
                                      old(reviews)[id := ReviewsOf(old(View()), id) + [r.value]])
      ensures r.Err? ==> r.error == if id in recipeState then InvalidTransition(recipeState[id]) else NotFound(id)
    {
      if id !in recipeState {
        return Err(NotFound(id));
      }
      var current := recipeState[id];
      if current != UnderReview {
        return Err(InvalidTransition(current));
      }
      var review := Review(reviewId, id, reviewer, Approve, feedback, now);
      AppendReview(id, review);
      r := Ok(review);
    }

    method PublishRecipe(id: RecipeId, now: int) returns (r: Result<(), Error>)
      modifies this
      ensures View() == Apply(old(View()), Publish(id, now))
      ensures r.Ok? <==> && id in old(recipeState) && old(recipeState)[id] == UnderReview && id in old(recipes)
                         && exists i :: 0 <= i < |ReviewsOf(old(View()), id)| &&
                                        ReviewsOf(old(View()), id)[i].verdict == Approve
      ensures View() == if r.Err? then old(View())
                        else Registry(old(recipes)[id := old(recipes)[id].(publishedAt := Some(now))],
                                      old(recipeState)[id := Published], old(reviews))
      ensures r.Err? ==> r.error == if id !in recipeState then NotFound(id)
                                    else if recipeState[id] != UnderReview then InvalidTransition(recipeState[id])
                                    else if forall i :: 0 <= i < |ReviewsOf(View(), id)| ==>
                                                          ReviewsOf(View(), id)[i].verdict != Approve
                                    then NoApproval
                                    else NotFound(id)
    {
      if id !in recipeState {
        return Err(NotFound(id));
      }
      var current := recipeState[id];
      if current != UnderReview {
        return Err(InvalidTransition(current));
      }
      var approved := id in reviews && HasApproval(reviews[id]);
      if !approved {
        return Err(NoApproval);
      }
      if id !in recipes {
        return Err(NotFound(id));
      }
      recipes := recipes[id := recipes[id].(publishedAt := Some(now))];
      recipeState := recipeState[id := Published];
      r := Ok(());
    }

    method FlagRecipe(id: RecipeId) returns (r: Result<(), Error>)
      modifies this
      ensures View() == Apply(old(View()), Flag(id))
      ensures r == if id in old(recipes) then Ok(()) else Err(NotFound(id))
      ensures View() == if r.Err? then old(View())
                        else Registry(old(recipes), old(recipeState)[id := Flagged], old(reviews))
    {
      if id !in recipes {
        return Err(NotFound(id));
      }
      recipeState := recipeState[id := Flagged];
      r := Ok(());
    }

    method DeprecateRecipe(id: RecipeId) returns (r: Result<(), Error>)
      modifies this
      ensures View() == Apply(old(View()), Deprecate(id))
      ensures r.Ok? <==> id in old(recipeState) && old(recipeState)[id] == Published
      ensures View() == if r.Err? then old(View())
                        else Registry(old(recipes), old(recipeState)[id := Deprecated], old(reviews))
      ensures r.Err? ==> r.error == if id in recipeState then InvalidTransition(recipeState[id]) else NotFound(id)
    {
      if id !in recipeState {
        return Err(NotFound(id));
      }
      var current := recipeState[id];
      if current != Published {
        return Err(InvalidTransition(current));
      }
      recipeState := recipeState[id := Deprecated];
      r := Ok(());
    }

    method RevokeRecipe(id: RecipeId) returns (r: Result<(), Error>)
      modifies this
      ensures View() == Apply(old(View()), Revoke(id))
      ensures r == if id in old(recipes) then Ok(()) else Err(NotFound(id))
      ensures View() == if r.Err? then old(View())
                        else Registry(old(recipes), old(recipeState)[id := Revoked], old(reviews))
    {
      if id !in recipes {
        return Err(NotFound(id));
      }
      recipeState := recipeState[id := Revoked];
      r := Ok(());
    }

    /** The number of stored reviews, summed recipe by recipe. */
    method ReviewCount() returns (n: nat)
      ensures n == |StoredReviews(reviews)|
    {
      n := 0;
      var left := reviews.Keys;
      assert ReviewsAmong(reviews, left) == StoredReviews(reviews);
      while left != {}
        invariant left <= reviews.Keys
        invariant n + |ReviewsAmong(reviews, left)| == |StoredReviews(reviews)|
        decreases left
      {
        var id :| id in left;
        ReviewsOfOne(reviews, left, id);
        n := n + |reviews[id]|;
        left := left - {id};
      }
      assert ReviewsAmong(reviews, left) == {};
    }

    method BuildTrustBadge(id: RecipeId) returns (badge: Option<TrustBadge>)
      ensures badge == Badge(View(), id)
      ensures badge.Some? <==> id in recipes
      ensures badge.Some? ==>
                && badge.value.trustClass == recipes[id].trustClass
                && badge.value.communityVotes == |ReviewsOf(View(), id)|
                && var status := badge.value.status;
                   && (status == VerifiedByCommunity <==>
                       InState(View(), id, Published) && |ReviewsOf(View(), id)| >= 3)
                   && (status == VerificationInProgress <==> InState(View(), id, UnderReview))
                   && (status == VerificationFailed <==> InState(View(), id, Flagged) || InState(View(), id, Revoked))
                   && status != VerifiedByAios
    {
      if id !in recipes {
        return None;
      }
      var votes := if id in reviews then |reviews[id]| else 0;
      var status := NotVerified;
      if id in recipeState {
        match recipeState[id] {
          case Published => status := if votes >= 3 then VerifiedByCommunity else NotVerified;
          case UnderReview => status := VerificationInProgress;
          case Flagged => status := VerificationFailed;
          case Revoked => status := VerificationFailed;
          case _ =>
        }
      }
      badge := Some(TrustBadge(recipes[id].trustClass, status, votes));
    }
  }

  // ---------------------------------------------------------------------------
  // Runs
  // ---------------------------------------------------------------------------

  function Run(r: Registry, ops: seq<Op>): Registry
    decreases |ops|
  {
    if ops == [] then r else Run(Apply(r, ops[0]), ops[1..])
  }

  /** How many review and approve calls of the run were accepted. */
  function AcceptedReviews(r: Registry, ops: seq<Op>): nat
    decreases |ops|
  {
    if ops == [] then 0
    else
      (if (ops[0].Assess? || ops[0].Endorse?) && Accepts(r, ops[0]) then 1 else 0)
      + AcceptedReviews(Apply(r, ops[0]), ops[1..])
  }

  /** How many of them were for the recipe. */
  function AcceptedReviewsOf(r: Registry, ops: seq<Op>, id: RecipeId): nat
    decreases |ops|
  {
    if ops == [] then 0
    else
      (if (ops[0].Assess? || ops[0].Endorse?) && ops[0].id == id && Accepts(r, ops[0]) then 1 else 0)
      + AcceptedReviewsOf(Apply(r, ops[0]), ops[1..], id)
  }

  lemma AddedReview(r: Registry, id: RecipeId, review: Review)
    ensures |StoredReviews(WithReview(r, id, review).reviews)| == |StoredReviews(r.reviews)| + 1
  {
    var n := |ReviewsOf(r, id)|;
    assert StoredReviews(WithReview(r, id, review).reviews) == StoredReviews(r.reviews) + {(id, n)};
    assert (id, n) !in StoredReviews(r.reviews);
  }

  lemma {:induction false} ReviewCountRun(r: Registry, ops: seq<Op>)
    ensures |StoredReviews(Run(r, ops).reviews)| == |StoredReviews(r.reviews)| + AcceptedReviews(r, ops)
    decreases |ops|
  {
    if ops != [] {
      if (ops[0].Assess? || ops[0].Endorse?) && Accepts(r, ops[0]) {
        AddedReview(r, ops[0].id, Filed(ops[0]));
      }
      ReviewCountRun(Apply(r, ops[0]), ops[1..]);
    }
  }

  lemma ReviewsOfStep(r: Registry, op: Op, id: RecipeId)
    ensures |ReviewsOf(Apply(r, op), id)| == |ReviewsOf(r, id)| +
            if (op.Assess? || op.Endorse?) && op.id == id && Accepts(r, op) then 1 else 0
  {
  }

  lemma {:induction false} ReviewsOfRun(r: Registry, ops: seq<Op>, id: RecipeId)
    ensures |ReviewsOf(Run(r, ops), id)| == |ReviewsOf(r, id)| + AcceptedReviewsOf(r, ops, id)
    decreases |ops|
  {
    if ops != [] {
      ReviewsOfStep(r, ops[0], id);
      ReviewsOfRun(Apply(r, ops[0]), ops[1..], id);
    }
  }

  /** The review count of a run is the number of its accepted review and approve calls. */
  lemma ReviewCountIsAcceptedReviews(ops: seq<Op>)
    ensures |StoredReviews(Run(EMPTY, ops).reviews)| == AcceptedReviews(EMPTY, ops)
  {
    ReviewCountRun(EMPTY, ops);
    assert StoredReviews(EMPTY.reviews) == {};
  }

  /** A badge says verified by the community exactly when the recipe is published and the run
      accepted three reviews or approvals of it. */
  lemma CommunityBadge(ops: seq<Op>, id: RecipeId)
    ensures var r := Run(EMPTY, ops);
            (Badge(r, id).Some? && Badge(r, id).value.status.VerifiedByCommunity?) <==>
            InState(r, id, Published) && AcceptedReviewsOf(EMPTY, ops, id) >= 3
    ensures Badge(Run(EMPTY, ops), id).Some? ==>
              Badge(Run(EMPTY, ops), id).value.communityVotes == AcceptedReviewsOf(EMPTY, ops, id)
  {
    ReviewsOfRun(EMPTY, ops, id);
    RunKeeps(EMPTY, ops);
    assert FiledById(Run(EMPTY, ops), id);
  }

  /** A published or deprecated recipe has an approving review and a publication time. */
  ghost predicate Backed(r: Registry, id: RecipeId) {
    InState(r, id, Published) || InState(r, id, Deprecated) ==>
      HasApproval(ReviewsOf(r, id)) && id in r.recipes && r.recipes[id].publishedAt.Some?
  }

  /** Everything about a recipe is filed under its id. */
  ghost predicate FiledById(r: Registry, id: RecipeId) {
    && (id in r.recipes <==> id in r.states)
    && (id in r.states ==> !r.states[id].Draft?)
    && (id in r.recipes ==> r.recipes[id].id == id && r.recipes[id].name != "")
    && forall i :: 0 <= i < |ReviewsOf(r, id)| ==> ReviewsOf(r, id)[i].recipeId == id
  }

  ghost predicate Sound(r: Registry) {
    forall id :: Backed(r, id) && FiledById(r, id)
  }

  lemma ApprovalStays(reviews: seq<Review>, review: Review)
    requires HasApproval(reviews)
    ensures HasApproval(reviews + [review])
  {
    var i :| 0 <= i < |reviews| && reviews[i].verdict.Approve?;
    assert (reviews + [review])[i] == reviews[i];
  }

  lemma BackedStep(r: Registry, op: Op, id: RecipeId)
    requires Backed(r, id) && FiledById(r, id)
    ensures Backed(Apply(r, op), id)
  {
    if Accepts(r, op) && (op.Assess? || op.Endorse?) && op.id == id && HasApproval(ReviewsOf(r, id)) {
      ApprovalStays(ReviewsOf(r, id), Filed(op));
    }
  }

  lemma FiledStep(r: Registry, op: Op, id: RecipeId)
    requires FiledById(r, id)
    ensures FiledById(Apply(r, op), id)
  {
    var r' := Apply(r, op);
    forall i | 0 <= i < |ReviewsOf(r', id)|
      ensures ReviewsOf(r', id)[i].recipeId == id
    {
      if i < |ReviewsOf(r, id)| {
        assert ReviewsOf(r', id)[i] == ReviewsOf(r, id)[i];
      }
    }
  }

  lemma SoundStep(r: Registry, op: Op)
    requires Sound(r)
    ensures Sound(Apply(r, op))
  {
    forall id
      ensures Backed(Apply(r, op), id) && FiledById(Apply(r, op), id)
    {
      assert Backed(r, id) && FiledById(r, id);
      BackedStep(r, op, id);
      FiledStep(r, op, id);
    }
  }

  lemma {:induction false} RunKeeps(r: Registry, ops: seq<Op>)
    requires Sound(r)
    ensures Sound(Run(r, ops))
    decreases |ops|
  {
    if ops != [] {
      SoundStep(r, ops[0]);
      RunKeeps(Apply(r, ops[0]), ops[1..]);
    }
  }

  /** In every registry that a run can lead to, recipes and states have the same keys, and a published
      or deprecated recipe has an approving review and a publication time. */
  lemma ReachableIsSound(ops: seq<Op>)
    ensures var r := Run(EMPTY, ops);
            && r.recipes.Keys == r.states.Keys
            && forall id :: Backed(r, id) && FiledById(r, id)
  {
    RunKeeps(EMPTY, ops);
    var r := Run(EMPTY, ops);
    forall id
      ensures id in r.recipes <==> id in r.states
    {
      assert FiledById(r, id);
    }
  }

  // ---------------------------------------------------------------------------
  // Withdrawal
  // ---------------------------------------------------------------------------

  predicate Resubmits(op: Op, id: RecipeId) {
    op.Submit? && op.recipe.id == id && op.recipe.name != ""
  }

  ghost predicate NeverResubmits(ops: seq<Op>, id: RecipeId) {
    forall i :: 0 <= i < |ops| ==> !Resubmits(ops[i], id)
  }

  ghost predicate Withdrawn(r: Registry, id: RecipeId) {
    InState(r, id, Flagged) || InState(r, id, Deprecated) || InState(r, id, Revoked)
  }

  /** Until the id is submitted again, a flagged, deprecated or revoked recipe stays one of the
      three: it is never proposed, reviewed or published again. */
  lemma {:induction false} WithdrawalLasts(r: Registry, ops: seq<Op>, id: RecipeId)
    requires Withdrawn(r, id) && NeverResubmits(ops, id)
    ensures Withdrawn(Run(r, ops), id)
    decreases |ops|
  {
    if ops != [] {
      assert !Resubmits(ops[0], id);
      WithdrawalLasts(Apply(r, ops[0]), ops[1..], id);
    }
  }

  lemma {:induction false} RunAppend(r: Registry, ops: seq<Op>, op: Op)
    ensures Run(r, ops + [op]) == Apply(Run(r, ops), op)
    decreases |ops|
  {
    if ops == [] {
      assert ops + [op] == [op];
    } else {
      RunAppend(Apply(r, ops[0]), ops[1..], op);
      assert (ops + [op])[1..] == ops[1..] + [op];
    }
  }

  /** The run submits the id, under some name. */
  ghost predicate Submitted(ops: seq<Op>, id: RecipeId) {
    exists i :: 0 <= i < |ops| && Resubmits(ops[i], id)
  }

  /** The registry knows exactly the ids that were submitted. */
  lemma {:induction false} KnownExactly(ops: seq<Op>, id: RecipeId)
    ensures id in Run(EMPTY, ops).recipes <==> Submitted(ops, id)
    decreases |ops|
  {
    if ops != [] {
      var front, op := ops[..|ops| - 1], ops[|ops| - 1];
      assert ops == front + [op];
      RunAppend(EMPTY, front, op);
      KnownExactly(front, id);
      if i :| 0 <= i < |front| && Resubmits(front[i], id) {
        assert ops[i] == front[i];
      }
    }
  }

  /** The `k`-th call revokes an id submitted before it, and no later call flags the id or submits
      it again. */
  ghost predicate RevokedAt(ops: seq<Op>, id: RecipeId, k: nat)
    requires k < |ops|
  {
    && ops[k] == Revoke(id) && Submitted(ops[..k], id)
    && forall i :: k < i < |ops| ==> !Resubmits(ops[i], id) && ops[i] != Flag(id)
  }

  ghost predicate RevocationInForce(ops: seq<Op>, id: RecipeId) {
    exists k :: 0 <= k < |ops| && RevokedAt(ops, id, k)
  }

  /** What one more call does to it. */
  lemma InForceStep(front: seq<Op>, op: Op, id: RecipeId)
    ensures RevocationInForce(front + [op], id) <==>
            if op == Revoke(id) && Submitted(front, id) then true
            else RevocationInForce(front, id) && !Resubmits(op, id) && op != Flag(id)
  {
    var ops, n := front + [op], |front|;
    assert ops[n] == op && ops[..n] == front;
    assert op == Revoke(id) && Submitted(front, id) ==> RevokedAt(ops, id, n);
    forall k | 0 <= k < n
      ensures RevokedAt(ops, id, k) <==> RevokedAt(front, id, k) && !Resubmits(op, id) && op != Flag(id)
    {
      assert ops[..k] == front[..k] && ops[k] == front[k];
      assert forall i :: k < i < n ==> ops[i] == front[i];
    }
  }

  lemma RevokedStep(r: Registry, op: Op, id: RecipeId)
    requires FiledById(r, id)
    ensures InState(Apply(r, op), id, Revoked) <==>
            if op == Revoke(id) && id in r.recipes then true
            else InState(r, id, Revoked) && !Resubmits(op, id) && op != Flag(id)
  {
  }

  /** Revocation is not permanent: flagging or submitting the recipe again lifts it. It is in force
      after a run exactly when the run revoked a submitted recipe and did neither afterwards. */
  lemma {:induction false} RevokedExactly(ops: seq<Op>, id: RecipeId)
    ensures InState(Run(EMPTY, ops), id, Revoked) <==> RevocationInForce(ops, id)
    decreases |ops|
  {
    if ops != [] {
      var front, op := ops[..|ops| - 1], ops[|ops| - 1];
      assert ops == front + [op];
      RunAppend(EMPTY, front, op);
      RevokedExactly(front, id);
      KnownExactly(front, id);
      ReachableIsSound(front);
      assert FiledById(Run(EMPTY, front), id);
      RevokedStep(Run(EMPTY, front), op, id);
      InForceStep(front, op, id);
    }
  }

  /** A revoked recipe that is flagged is no longer revoked. */
  lemma FlagLiftsRevocation(r: Registry, id: RecipeId)
    requires Sound(r) && InState(r, id, Revoked)
    ensures InState(Run(r, [Flag(id)]), id, Flagged)
  {
    assert FiledById(r, id);
    assert Run(r, [Flag(id)]) == Run(Apply(r, Flag(id)), []);
  }

  // ---------------------------------------------------------------------------
  // Approvals older than the submission
  // ---------------------------------------------------------------------------

  /** The reviews of a recipe are append-only over any run, new submissions included. */
  lemma {:induction false} ReviewsAreAppendOnly(r: Registry, ops: seq<Op>, id: RecipeId)
    ensures ReviewsOf(r, id) <= ReviewsOf(Run(r, ops), id)
    decreases |ops|
  {
    if ops != [] {
      ReviewsAreAppendOnly(Apply(r, ops[0]), ops[1..], id);
    }
  }

  ghost predicate ApprovedSince(r: Registry, id: RecipeId, from: nat) {
    exists i :: from <= i < |ReviewsOf(r, id)| && ReviewsOf(r, id)[i].verdict.Approve?
  }

  /** After `r` the recipe is submitted; however the run goes on without another submission of the
      id, if it ends published then an approval was filed after this submission. */
  ghost predicate PublishedOnlyIfApprovedAnew(r: Registry, recipe: Recipe) {
    forall ops :: NeverResubmits(ops, recipe.id) ==>
      var r' := Run(Apply(r, Submit(recipe)), ops);
      InState(r', recipe.id, Published) ==> ApprovedSince(r', recipe.id, |ReviewsOf(r, recipe.id)|)
  }

  /** An approval of an earlier submission publishes the new one, even after a rejection. */
  lemma StaleApproval(r: Registry, recipe: Recipe, review: Review, now: int)
    requires recipe.name != "" && HasApproval(ReviewsOf(r, recipe.id)) && !review.verdict.Approve?
    ensures var r' := Run(Apply(r, Submit(recipe)), [Assess(recipe.id, review), Publish(recipe.id, now)]);
            && InState(r', recipe.id, Published)
            && recipe.id in r'.recipes && r'.recipes[recipe.id] == recipe.(publishedAt := Some(now))
            && !ApprovedSince(r', recipe.id, |ReviewsOf(r, recipe.id)|)
  {
    var r1 := Apply(r, Submit(recipe));
    var ops := [Assess(recipe.id, review), Publish(recipe.id, now)];
    var r2 := Apply(r1, ops[0]);
    ApprovalStays(ReviewsOf(r, recipe.id), Filed(ops[0]));
    assert ops[1..] == [ops[1]] && Run(r2, [ops[1]]) == Run(Apply(r2, ops[1]), []);
  }

  /** Publication promises an approval of what was submitted exactly when no approval was on file
      at the submission. */
  lemma ApprovedAnewExactly(before: seq<Op>, recipe: Recipe)
    requires recipe.name != ""
    ensures var r := Run(EMPTY, before);
            PublishedOnlyIfApprovedAnew(r, recipe) <==> !HasApproval(ReviewsOf(r, recipe.id))
  {
    var r, id := Run(EMPTY, before), recipe.id;
    if HasApproval(ReviewsOf(r, id)) {
      StaleApproval(r, recipe, Review("", id, "", Reject, "", 0), 0);
      assert NeverResubmits([Assess(id, Review("", id, "", Reject, "", 0)), Publish(id, 0)], id);
    } else {
      RunKeeps(EMPTY, before);
      SoundStep(r, Submit(recipe));
      forall ops | NeverResubmits(ops, id) && InState(Run(Apply(r, Submit(recipe)), ops), id, Published)
        ensures ApprovedSince(Run(Apply(r, Submit(recipe)), ops), id, |ReviewsOf(r, id)|)
      {
        var r' := Run(Apply(r, Submit(recipe)), ops);
        RunKeeps(Apply(r, Submit(recipe)), ops);
        assert Backed(r', id);
        ReviewsAreAppendOnly(Apply(r, Submit(recipe)), ops, id);
        var i :| 0 <= i < |ReviewsOf(r', id)| && ReviewsOf(r', id)[i].verdict.Approve?;
        assert i >= |ReviewsOf(r, id)|;
      }
    }
  }
}
