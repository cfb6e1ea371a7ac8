/**
 * The flood page's status colour: an ordered substring check on the
 * optional status text, applied only to the card labelled `Status`.
 */
module FloodPage {
  import opened Wrappers
  import opened Strings
  import opened Classifiers
  import opened InfoCard

  /** The four alert levels the flood data can carry. */
  datatype FloodStatus = Siaga1 | Siaga2 | Siaga3 | Siaga4

  function StatusText(s: FloodStatus): string {
    match s
    case Siaga1 => "Siaga 1 (Awas)"
    case Siaga2 => "Siaga 2 (Siaga)"
    case Siaga3 => "Siaga 3 (Waspada)"
    case Siaga4 => "Siaga 4 (Normal)"
  }

  /**
   * The component's chained conditional. An absent status matches nothing;
   * a present one takes the colour of the first rule of `Rules` with a
   * keyword it mentions, `Primary` when there is none.
   */
  function StatusTone(status: Option<string>): (t: Tone)
    ensures status.None? ==> t == Primary
    ensures status.Some? ==> t == Classify(Rules, status.value, Primary)
  {
    match status
    case None => Primary
    case Some(s) =>
      PairMatches(s, "Awas", "Siaga 1");
      PairMatches(s, "Siaga", "Siaga 2");
      PairMatches(s, "Waspada", "Siaga 3");
      if Contains(s, "Awas") || Contains(s, "Siaga 1") then ClassifyAt(Rules, s, Primary, 0); Destructive
      else if Contains(s, "Siaga") || Contains(s, "Siaga 2") then ClassifyAt(Rules, s, Primary, 1); Orange
      else if Contains(s, "Waspada") || Contains(s, "Siaga 3") then ClassifyAt(Rules, s, Primary, 2); Yellow
      else ClassifyDefault(Rules, s, Primary); Primary
  }

  const Rules: seq<Rule<Tone>> := [
    Rule(["Awas", "Siaga 1"], Destructive),
    Rule(["Siaga", "Siaga 2"], Orange),
    Rule(["Waspada", "Siaga 3"], Yellow)
  ]

  lemma SiagaPrefixes()
    ensures Contains("Siaga 2", "Siaga") && Contains("Siaga 3", "Siaga")
  {
    MatchContains("Siaga 2", "Siaga", 0);
    MatchContains("Siaga 3", "Siaga", 0);
  }

  /**
   * The `"Siaga 2"` and `"Siaga 3"` checks never decide anything: both
   * texts contain `"Siaga"`, which is checked first. So the colour is
   * Awas/Siaga 1 → destructive, any other Siaga → orange, Waspada → yellow.
   */
  lemma RedundantChecks(status: Option<string>)
    ensures StatusTone(status) ==
              if status.None? then Primary
              else if Contains(status.value, "Awas") || Contains(status.value, "Siaga 1") then Destructive
              else if Contains(status.value, "Siaga") then Orange
              else if Contains(status.value, "Waspada") then Yellow
              else Primary
  {
    if status.Some? {
      SiagaPrefixes();
      if Contains(status.value, "Siaga 2") {
        ContainsTransitive(status.value, "Siaga 2", "Siaga");
      }
      if Contains(status.value, "Siaga 3") {
        ContainsTransitive(status.value, "Siaga 3", "Siaga");
      }
    }
  }

  /** Any status text that mentions `"Siaga"` is never yellow. */
  lemma SiagaNeverYellow(status: string)
    requires Contains(status, "Siaga")
    ensures StatusTone(Some(status)) != Yellow
  {
  }

  lemma Siaga1Tone()
    ensures StatusTone(Some("Siaga 1 (Awas)")) == Destructive
  {
    MatchContains("Siaga 1 (Awas)", "Awas", 9);
  }

  lemma Siaga2Tone()
    ensures StatusTone(Some("Siaga 2 (Siaga)")) == Orange
  {
    MissingCharNotContains("Siaga 2 (Siaga)", "Awas", 'A');
    MissingCharNotContains("Siaga 2 (Siaga)", "Siaga 1", '1');
    MatchContains("Siaga 2 (Siaga)", "Siaga", 0);
  }

  lemma Siaga3Tone()
    ensures StatusTone(Some("Siaga 3 (Waspada)")) == Orange
  {
    MissingCharNotContains("Siaga 3 (Waspada)", "Awas", 'A');
    MissingCharNotContains("Siaga 3 (Waspada)", "Siaga 1", '1');
    MatchContains("Siaga 3 (Waspada)", "Siaga", 0);
  }

  lemma Siaga4Tone()
    ensures StatusTone(Some("Siaga 4 (Normal)")) == Orange
  {
    MissingCharNotContains("Siaga 4 (Normal)", "Awas", 'A');
    MissingCharNotContains("Siaga 4 (Normal)", "Siaga 1", '1');
    MatchContains("Siaga 4 (Normal)", "Siaga", 0);
  }

  /**
   * Over the four levels the data can carry: level 1 is destructive and
   * levels 2, 3 and 4 are all orange; the normal level is not primary and
   * the yellow branch is never taken.
   */
  lemma UnionTones(s: FloodStatus)
    ensures StatusTone(Some(StatusText(s))) == if s == Siaga1 then Destructive else Orange
    ensures StatusTone(Some(StatusText(s))) != Yellow
  {
    match s
    case Siaga1 => Siaga1Tone();
    case Siaga2 => Siaga2Tone();
    case Siaga3 => Siaga3Tone();
    case Siaga4 => Siaga4Tone();
  }

  /** The yellow branch is live only for texts outside the union, such as a bare `"Waspada"`. */
  lemma YellowOnlyOutsideUnion()
    ensures StatusTone(Some("Waspada")) == Yellow
  {
    MissingCharNotContains("Waspada", "Awas", 'A');
    MissingCharNotContains("Waspada", "Siaga 1", 'S');
    MissingCharNotContains("Waspada", "Siaga", 'S');
    MissingCharNotContains("Waspada", "Siaga 2", 'S');
    MatchContains("Waspada", "Waspada", 0);
  }

  /** The page's four cards: only the one labelled `Status` (after translation) is coloured. */
  function StatusCardStyle(cardLabel: string, status: FloodStatus): (s: Style)
    ensures cardLabel == "Status" ==> s == Style(StatusTone(Some(StatusText(status))), Some(StatusTone(Some(StatusText(status)))))
    ensures cardLabel != "Status" ==> s == Style(Primary, None)
  {
    CardStyle(cardLabel, "Status", StatusTone(Some(StatusText(status))))
  }

  /** A card without a status: primary when labelled `Status`, otherwise a primary icon and an uncoloured value. */
  lemma PlainCardStyle(cardLabel: string)
    ensures cardLabel == "Status" ==> CardStyle(cardLabel, "Status", StatusTone(None)) == Style(Primary, Some(Primary))
    ensures cardLabel != "Status" ==> CardStyle(cardLabel, "Status", StatusTone(None)) == Style(Primary, None)
  {
  }
}
