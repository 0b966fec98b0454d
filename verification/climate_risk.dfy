/**
 * The three-tier risk classification of a country (app/Services/ClimateRisk.php).
 * The PHP properties are public and mutable, and `riskProfile` reads whatever
 * they hold when it is called. The model therefore takes their values at that
 * call as a datatype value; `riskProfile` itself changes nothing.
 */
module Services {
  datatype ClimateRisk = ClimateRisk(country: string, gmi: real, climate: real)

  /** The mean of the two scores. */
  function Average(r: ClimateRisk): real {
    (r.gmi + r.climate) / 2.0
  }

  /** `riskProfile`: "hoch" above 75, "mittel" above 50, "niedrig" otherwise. */
  function RiskProfile(r: ClimateRisk): (tier: string)
    ensures tier == "hoch" <==> Average(r) > 75.0
    ensures tier == "mittel" <==> 50.0 < Average(r) <= 75.0
    ensures tier == "niedrig" <==> Average(r) <= 50.0
  {
    var score := (r.gmi + r.climate) / 2.0;
    if score > 75.0 then "hoch"
    else if score > 50.0 then "mittel"
    else "niedrig"
  }

  /** The rank of a tier, lowest first. */
  function Rank(tier: string): nat {
    if tier == "hoch" then 2 else if tier == "mittel" then 1 else 0
  }

  /** Raising either score never moves a country to a lower tier. */
  lemma RiskMonotone(r1: ClimateRisk, r2: ClimateRisk)
    requires r1.gmi <= r2.gmi && r1.climate <= r2.climate
    ensures Rank(RiskProfile(r1)) <= Rank(RiskProfile(r2))
  {
    assert Average(r1) <= Average(r2);
  }
}
