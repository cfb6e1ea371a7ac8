/**
 * The volcano page's status colour: Awas, then Siaga, then Waspada, on the
 * optional status text, applied only to the card labelled `Status`.
 */
module VolcanoPage {
  import opened Wrappers
  import opened Strings
  import opened Classifiers
  import opened InfoCard

  /** The four alert levels the volcano data can carry. */
  datatype VolcanoStatus = Level4 | Level3 | Level2 | Level1

  function StatusText(s: VolcanoStatus): string {
    match s
    case Level4 => "Level IV (Awas)"
    case Level3 => "Level III (Siaga)"
    case Level2 => "Level II (Waspada)"
    case Level1 => "Level I (Normal)"
  }

  /**
   * The component's chained conditional. An absent status matches nothing;
   * a present one takes the colour of the first rule of `Rules` it
   * mentions, so a text naming several levels gets the earliest checked.
   */
  function StatusTone(status: Option<string>): (t: Tone)
    ensures status.None? ==> t == Primary
    ensures status.Some? ==> t == Classify(Rules, status.value, Primary)
  {
    match status
    case None => Primary
    case Some(s) =>
      SingleMatches(s, "Awas");
      SingleMatches(s, "Siaga");
      SingleMatches(s, "Waspada");
      if Contains(s, "Awas") then ClassifyAt(Rules, s, Primary, 0); Destructive
      else if Contains(s, "Siaga") then ClassifyAt(Rules, s, Primary, 1); Orange
      else if Contains(s, "Waspada") then ClassifyAt(Rules, s, Primary, 2); Yellow
      else ClassifyDefault(Rules, s, Primary); Primary
  }

  const Rules: seq<Rule<Tone>> := [
    Rule(["Awas"], Destructive),
    Rule(["Siaga"], Orange),
    Rule(["Waspada"], Yellow)
  ]

  lemma Level4Tone()
    ensures StatusTone(Some("Level IV (Awas)")) == Destructive
  {
    MatchContains("Level IV (Awas)", "Awas", 10);
  }

  lemma Level3Tone()
    ensures StatusTone(Some("Level III (Siaga)")) == Orange
  {
    MissingCharNotContains("Level III (Siaga)", "Awas", 'A');
    MatchContains("Level III (Siaga)", "Siaga", 11);
  }

  lemma Level2Tone()
    ensures StatusTone(Some("Level II (Waspada)")) == Yellow
  {
    MissingCharNotContains("Level II (Waspada)", "Awas", 'A');
    MissingCharNotContains("Level II (Waspada)", "Siaga", 'S');
    MatchContains("Level II (Waspada)", "Waspada", 10);
  }

  lemma Level1Tone()
    ensures StatusTone(Some("Level I (Normal)")) == Primary
  {
    MissingCharNotContains("Level I (Normal)", "Awas", 'A');
    MissingCharNotContains("Level I (Normal)", "Siaga", 'S');
    MissingCharNotContains("Level I (Normal)", "Waspada", 'W');
  }

  /** Each level gets its own colour, from destructive at level IV down to primary at level I. */
  lemma UnionTones(s: VolcanoStatus)
    ensures StatusTone(Some(StatusText(s))) == match s
              case Level4 => Destructive
              case Level3 => Orange
              case Level2 => Yellow
              case Level1 => Primary
  {
    match s
    case Level4 => Level4Tone();
    case Level3 => Level3Tone();
    case Level2 => Level2Tone();
    case Level1 => Level1Tone();
  }

  /** Distinct levels, distinct colours. */
  lemma UnionTonesDistinct(a: VolcanoStatus, b: VolcanoStatus)
    requires a != b
    ensures StatusTone(Some(StatusText(a))) != StatusTone(Some(StatusText(b)))
  {
    UnionTones(a);
    UnionTones(b);
  }

  /** The page's cards are labelled `Status`, `Volcano` and `Last Activity`; only the first is coloured. */
  lemma PageCardStyles(s: VolcanoStatus)
    ensures var tone := StatusTone(Some(StatusText(s)));
            CardStyle("Status", "Status", tone) == Style(tone, Some(tone))
    ensures CardStyle("Volcano", "Status", StatusTone(None)) == Style(Primary, None)
    ensures CardStyle("Last Activity", "Status", StatusTone(None)) == Style(Primary, None)
  {
  }
}
