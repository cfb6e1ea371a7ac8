/** The landslide page's risk colour, applied only to the card labelled `Risk Level`. */
module LandslidePage {
  import opened Wrappers
  import opened InfoCard

  datatype RiskLevel = High | Moderate | Low

  /** `riskColor`: High → destructive, Moderate → accent, Low or absent → primary. */
  function RiskTone(riskLevel: Option<RiskLevel>): (t: Tone)
    ensures t == Destructive <==> riskLevel == Some(High)
    ensures t == Accent <==> riskLevel == Some(Moderate)
    ensures t == Primary <==> riskLevel == Some(Low) || riskLevel.None?
  {
    match riskLevel
    case Some(High) => Destructive
    case Some(Moderate) => Accent
    case _ => Primary
  }

  /** Higher risk never gets a calmer colour: each level's colour is its own. */
  lemma RiskTonesDistinct(a: RiskLevel, b: RiskLevel)
    requires a != b
    ensures RiskTone(Some(a)) != RiskTone(Some(b))
  {
  }

  /** The page's five cards: only the one labelled `Risk Level` is coloured. */
  lemma PageCardStyles(level: RiskLevel, other: string)
    requires other in ["Location", "Primary Trigger", "Assessment Time", "Potential Impact"]
    ensures CardStyle("Risk Level", "Risk Level", RiskTone(Some(level))) == Style(RiskTone(Some(level)), Some(RiskTone(Some(level))))
    ensures CardStyle(other, "Risk Level", RiskTone(None)) == Style(Primary, None)
  {
  }
}
