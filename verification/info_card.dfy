/**
 * What the hazard pages' `InfoCard`s share: the colour classes a card can
 * take, and the rule that only the card whose label names the status gets
 * the status colour.
 */
module InfoCard {
  import opened Wrappers

  /** `text-destructive`, `text-orange-500`, `text-yellow-500`, `text-accent`, `text-primary`. */
  datatype Tone = Destructive | Orange | Yellow | Accent | Primary

  /** The icon's colour and the value's colour; `None` is the empty class. */
  datatype Style = Style(icon: Tone, value: Option<Tone>)

  /**
   * The card's classes: with the status label, icon and value take the
   * status colour; with any other label the icon is primary and the value
   * uncoloured.
   */
  function CardStyle(cardLabel: string, statusLabel: string, statusTone: Tone): (s: Style)
    ensures cardLabel == statusLabel ==> s.icon == statusTone && s.value == Some(statusTone)
    ensures cardLabel != statusLabel ==> s.icon == Primary && s.value.None?
  {
    if cardLabel == statusLabel then Style(statusTone, Some(statusTone)) else Style(Primary, None)
  }
}
