/** The daily challenge of backend/app.py: `random.choice` over a fixed catalog of
    three challenges. No date is stored and nothing is cached between calls. The
    random pick is a parameter: the index that `random.choice` draws. */
module Challenges {

  /** `{"title": ..., "description": ..., "carbon_value": ...}`. */
  datatype Challenge = Challenge(title: string, description: string, carbonValue: real)

  /** The `challenges` list, in its order. */
  const Catalog: seq<Challenge> := [
    Challenge("Use public transport", "Take bus/train instead of car today", 2.5),
    Challenge("Plant a tree", "Plant a tree in your area", 5.0),
    Challenge("Recycle waste", "Separate recyclables from trash", 1.5)
  ]

  /** `daily_challenge()`, given the index that `random.choice` draws: always an
      entry of the catalog. */
  function DailyChallenge(draw: nat): (c: Challenge)
    requires draw < |Catalog|
    ensures c in Catalog
  {
    Catalog[draw]
  }

  /** Every entry of the catalog is some draw's answer. */
  lemma EveryChallengeCanBeDrawn(c: Challenge)
    requires c in Catalog
    ensures exists draw: nat :: draw < |Catalog| && DailyChallenge(draw) == c
  {
    var draw :| 0 <= draw < |Catalog| && Catalog[draw] == c;
    assert DailyChallenge(draw) == c;
  }
}
