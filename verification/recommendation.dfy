/**
  The recommendation engine `get_recommendation` (app.py:90-108) and the risk colour of
  the results panel (app.py:132-134). The probability is a `real` supplied by the model;
  the action texts are an enumeration.
 */
module Recommendation {

  /** The inputs the rules read. */
  const InpatientKey: string := "number_inpatient"
  const MedicationsKey: string := "num_medications"

  /** Probability cut-offs; both comparisons are strict. */
  const WatchAbove: real := 0.3
  const UrgentAbove: real := 0.6

  /** The three risk tiers, exactly one of which applies to a probability. */
  datatype Tier = Standard | Watch | Urgent

  /** The action texts of app.py:94-106, in the order the source can emit them. */
  datatype Action =
    | SocialWorkerConsult         // URGENT: social worker consult before discharge
    | FollowUpWithin7Days         // URGENT: follow-up appointment within 7 days
    | MedicationAdherenceReview   // WATCH: medication adherence education
    | PhoneFollowUpWithin14Days   // WATCH: phone follow-up within 14 days
    | StandardDischarge           // STANDARD: standard discharge instructions
    | ChronicCareEnrolment        // History: frequent flyer, chronic care management
    | PharmacistReconciliation    // Polypharmacy: clinical pharmacist reconciliation

  /** The position an action takes in any list the engine returns. */
  function Rank(a: Action): nat {
    match a
    case SocialWorkerConsult => 0
    case FollowUpWithin7Days => 1
    case MedicationAdherenceReview => 2
    case PhoneFollowUpWithin14Days => 3
    case StandardDischarge => 4
    case ChronicCareEnrolment => 5
    case PharmacistReconciliation => 6
  }

  /** The tier an action belongs to, if it is a tier action. */
  predicate InTier(a: Action, t: Tier) {
    match t
    case Urgent => a == SocialWorkerConsult || a == FollowUpWithin7Days
    case Watch => a == MedicationAdherenceReview || a == PhoneFollowUpWithin14Days
    case Standard => a == StandardDischarge
  }

  /** The if/elif/else of app.py:93-100: three disjoint probability bands, with both
      cut-offs belonging to the lower band. */
  function TierOf(p: real): (t: Tier)
    ensures t == Urgent <==> p > 0.6
    ensures t == Watch <==> 0.3 < p <= 0.6
    ensures t == Standard <==> p <= 0.3
  {
    if p > UrgentAbove then Urgent
    else if p > WatchAbove then Watch
    else Standard
  }

  /** The actions of one tier, in emission order. */
  function TierActions(t: Tier): seq<Action> {
    match t
    case Urgent => [SocialWorkerConsult, FollowUpWithin7Days]
    case Watch => [MedicationAdherenceReview, PhoneFollowUpWithin14Days]
    case Standard => [StandardDischarge]
  }

  /** The rules of `get_recommendation` once both counts are known. The list opens with
      the actions of exactly one tier, then the frequent-flyer action if and only if there
      were more than one inpatient visit, then the polypharmacy action if and only if
      there are more than 20 medications; nothing is repeated and the order is fixed. */
  function Recommend(p: real, inpatient: int, medications: int): (r: seq<Action>)
    ensures 1 <= |r| <= 4
    ensures p > 0.6 ==> 2 <= |r| && r[0] == SocialWorkerConsult && r[1] == FollowUpWithin7Days
    ensures 0.3 < p <= 0.6 ==> 2 <= |r| && r[0] == MedicationAdherenceReview && r[1] == PhoneFollowUpWithin14Days
    ensures p <= 0.3 ==> r[0] == StandardDischarge
    ensures forall i :: 0 <= i < |r| && Rank(r[i]) < 5 ==> InTier(r[i], TierOf(p))
    ensures ChronicCareEnrolment in r <==> inpatient > 1
    ensures PharmacistReconciliation in r <==> medications > 20
    ensures forall i, j :: 0 <= i < j < |r| ==> Rank(r[i]) < Rank(r[j])
    ensures |r| == |TierActions(TierOf(p))| + (if inpatient > 1 then 1 else 0)
                   + (if medications > 20 then 1 else 0)
  {
    TierActions(TierOf(p))
    + (if inpatient > 1 then [ChronicCareEnrolment] else [])
    + (if medications > 20 then [PharmacistReconciliation] else [])
  }

  /** What `get_recommendation(p, input_data)` yields: the actions, or the `KeyError` that
      indexing a missing count raises (the inpatient count is read first). */
  datatype Outcome = Actions(list: seq<Action>) | KeyError(key: string)

  function RecommendFor(p: real, inputs: map<string, int>): (r: Outcome)
    ensures r.Actions? <==> InpatientKey in inputs && MedicationsKey in inputs
    ensures InpatientKey !in inputs ==> r == KeyError(InpatientKey)
    ensures InpatientKey in inputs && MedicationsKey !in inputs ==> r == KeyError(MedicationsKey)
    ensures r.Actions? ==> r.list == Recommend(p, inputs[InpatientKey], inputs[MedicationsKey])
  {
    if InpatientKey !in inputs then KeyError(InpatientKey)
    else if MedicationsKey !in inputs then KeyError(MedicationsKey)
    else Actions(Recommend(p, inputs[InpatientKey], inputs[MedicationsKey]))
  }

  /** Tier boundaries: 0.3 is still standard, 0.6 is still watch. */
  lemma TierBoundaries()
    ensures TierOf(0.3) == Standard
    ensures TierOf(0.30001) == Watch
    ensures TierOf(0.6) == Watch
    ensures TierOf(0.60001) == Urgent
  {
  }

  /** How severe a tier is, for comparing tiers. */
  function Severity(t: Tier): nat {
    match t
    case Standard => 0
    case Watch => 1
    case Urgent => 2
  }

  /** The tier never goes down as the probability goes up. */
  lemma TierMonotone(p: real, q: real)
    requires p <= q
    ensures Severity(TierOf(p)) <= Severity(TierOf(q))
  {
  }

  /** The worked example: high risk, two prior stays and 25 medications. */
  lemma HighRiskExample()
    ensures Recommend(0.75, 2, 25)
         == [SocialWorkerConsult, FollowUpWithin7Days, ChronicCareEnrolment, PharmacistReconciliation]
  {
  }

  /** The colours of the probability display. */
  datatype Colour = Green | Orange | Red

  /** The colour as the source picks it: green, overwritten by orange above 0.3 and then
      by red above 0.6. It agrees with the tier of the recommendation list. */
  function DisplayColour(p: real): (c: Colour)
    ensures c == Green <==> TierOf(p) == Standard
    ensures c == Orange <==> TierOf(p) == Watch
    ensures c == Red <==> TierOf(p) == Urgent
  {
    var initial := Green;
    var afterWatch := if p > WatchAbove then Orange else initial;
    if p > UrgentAbove then Red else afterWatch
  }

  /** The colour bands in plain terms: green up to 0.3, orange in (0.3, 0.6], red above. */
  lemma ColourBands(p: real)
    ensures p <= 0.3 ==> DisplayColour(p) == Green
    ensures 0.3 < p <= 0.6 ==> DisplayColour(p) == Orange
    ensures p > 0.6 ==> DisplayColour(p) == Red
  {
  }
}
