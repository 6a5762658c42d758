/** Reviews, attempts and their recorded outcomes, as the subscription page keeps them. */
module SubscriptionSafety {
  import opened Common
  import opened Delivery
  import opened OptionalModules
  import C = Calendar

  /** Plan ids are decimal numbers, so never empty; the empty text means no plan is selected. */
  type PlanId = s: string | s != "" witness "1"

  /** `terms` stands for everything else a plan version shows: price, limits, version. */
  datatype Plan = Plan(id: PlanId, terms: string, modules: seq<Module>)

  /** The JSON text of company, plan, sorted option ids and version, as a value: equal texts are equal
      values, because option ids come from a Set and are sorted. */
  datatype Fingerprint = Fingerprint(companyId: string, plan: Plan, optionalIds: set<string>, version: nat)

  datatype Review = Review(companyId: string, plan: Plan, optionalIds: set<string>, version: nat, fingerprint: Fingerprint)

  predicate ValidCompanyId(id: string) {
    id != "" && '1' <= id[0] <= '9' && forall i | 0 <= i < |id| :: '0' <= id[i] <= '9'
  }

  /** The digits of a number from 1 on, as JavaScript writes it. */
  lemma CompanyIdsAreNumbers(id: string)
    ensures ValidCompanyId(id) <==> exists n: nat :: n > 0 && id == C.Decimal(n)
  {
    if ValidCompanyId(id) {
      var n := NumberOf(id);
    }
    if n: nat :| n > 0 && id == C.Decimal(n) {
      DecimalIsValid(n);
    }
  }

  lemma {:induction false} NumberOf(id: string) returns (n: nat)
    requires ValidCompanyId(id)
    ensures n > 0 && C.Decimal(n) == id
  {
    var last := C.DigitValue(id[|id| - 1]);
    if |id| == 1 {
      n := last;
    } else {
      var front := NumberOf(id[..|id| - 1]);
      n := front * 10 + last;
      assert id == id[..|id| - 1] + [id[|id| - 1]];
    }
  }

  lemma {:induction false} DecimalIsValid(n: nat)
    requires n > 0
    ensures ValidCompanyId(C.Decimal(n))
  {
    if n >= 10 {
      DecimalIsValid(n / 10);
    }
  }

  /** Throws, that is gives nothing, for a company id that proves no identity. */
  function CreateReview(companyId: string, plan: Plan, optionalIds: set<string>, version: nat): Option<Review> {
    if ValidCompanyId(companyId)
    then Some(Review(companyId, plan, optionalIds, version, Fingerprint(companyId, plan, optionalIds, version)))
    else None
  }

  /** The request body, kept as sent. */
  datatype Body = Body(expectedCompanyId: string, targetPlanVersionId: string, optionalIds: set<string>, version: nat)
  datatype Attempt = Attempt(companyId: string, key: Key, body: Body, review: Review)

  function CreateAttempt(review: Review, key: Key): Attempt {
    Attempt(review.companyId, key, Body(review.companyId, review.plan.id, review.optionalIds, review.version), review)
  }

  predicate MatchesCompany(attempt: Attempt, companyId: string) {
    && ValidCompanyId(companyId)
    && attempt.companyId == companyId && attempt.review.companyId == companyId
    && attempt.body.expectedCompanyId == companyId
  }

  // ---- Outcomes ----

  datatype Cause = Transport | Api(status: int, code: string, reason: string)
  datatype Status = Sending | Succeeded | Uncertain | Conflict | Rejected
  datatype Record = Record(attempt: Attempt, status: Status)

  predicate IsContextMismatch(cause: Cause) {
    cause.Api? && (cause.code == "SUBSCRIPTION_CONTEXT_MISMATCH" || cause.reason == "SUBSCRIPTION_CONTEXT_MISMATCH")
  }

  function Outcome(cause: Cause): Status {
    if IsContextMismatch(cause) || cause.Transport? || cause.status >= 500
       || cause.code == "IDEMPOTENCY_IN_PROGRESS" || cause.code == "IDEMPOTENCY_MISMATCH" then Uncertain
    else if cause.status == 409 then Conflict
    else Rejected
  }

  /** What can be thrown whatever became of the request: no answer of the API at all, a failing server, a key that
      is in progress or known for another body, and an answer given in another company's context. Every other
      answer of the API comes only from a server that refused the request. */
  predicate Inconclusive(cause: Cause) {
    || cause.Transport? || cause.status > 499
    || cause.code == "IDEMPOTENCY_IN_PROGRESS" || cause.code == "IDEMPOTENCY_MISMATCH"
    || cause.code == "SUBSCRIPTION_CONTEXT_MISMATCH" || cause.reason == "SUBSCRIPTION_CONTEXT_MISMATCH"
  }

  predicate Definite(status: Status) {
    status.Succeeded? || status.Conflict? || status.Rejected?
  }

  datatype Failure = Failure(record: Record, requiresContextRead: bool)

  /** A failed retry never settles the attempt it retried. */
  function FailureOf(attempt: Attempt, cause: Cause, previous: Option<Record>): Failure {
    var unresolved := previous.Some? && previous.value.status.Uncertain?;
    Failure(
      if unresolved then previous.value else Record(attempt, Outcome(cause)),
      IsContextMismatch(cause) || (unresolved && cause.Api? && 400 <= cause.status < 500))
  }

  // ---- Choosing a plan ----

  function FindPlan(plans: seq<Plan>, id: string): Option<Plan> {
    if plans == [] then None
    else if plans[0].id == id then Some(plans[0])
    else FindPlan(plans[1..], id)
  }

  lemma {:induction false} FindPlanById(plans: seq<Plan>, id: string)
    ensures FindPlan(plans, id).Some? ==> FindPlan(plans, id).value.id == id
    ensures FindPlan(plans, "").None?
  {
    if plans != [] {
      FindPlanById(plans[1..], id);
    }
  }

  /** The first plan of the id, if there is one. */
  lemma {:induction false} FindPlanIsFirst(plans: seq<Plan>, id: string)
    ensures FindPlan(plans, id).None? <==> forall k | 0 <= k < |plans| :: plans[k].id != id
    ensures FindPlan(plans, id).Some? ==>
      exists k :: 0 <= k < |plans| && FindPlan(plans, id) == Some(plans[k]) && plans[k].id == id
                  && forall j | 0 <= j < k :: plans[j].id != id
  {
    if plans != [] {
      var rest := plans[1..];
      FindPlanIsFirst(rest, id);
      assert forall j | 0 < j < |plans| :: plans[j] == rest[j - 1];
      if plans[0].id == id {
        assert FindPlan(plans, id) == Some(plans[0]);
      } else if FindPlan(plans, id).Some? {
        var k :| 0 <= k < |rest| && FindPlan(rest, id) == Some(rest[k]) && rest[k].id == id && forall j | 0 <= j < k :: rest[j].id != id;
        assert plans[k + 1] == rest[k];
      }
    }
  }

  datatype Selection = Selection(selectedId: string, missing: bool)

  function ResolveSelection(plans: seq<Plan>, candidate: string): Selection {
    if candidate == "" then Selection("", false)
    else if FindPlan(plans, candidate).Some? then Selection(candidate, false)
    else Selection("", true)
  }
}
