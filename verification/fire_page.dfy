/** The fire page's status colour, applied only to the card labelled `Status`. */
module FirePage {
  import opened Wrappers
  import opened InfoCard

  datatype FireStatus = Contained | Active | UnderControl

  /** `statusColor`: Active → destructive, Under Control → accent, Contained or absent → primary. */
  function StatusTone(status: Option<FireStatus>): (t: Tone)
    ensures t == Destructive <==> status == Some(Active)
    ensures t == Accent <==> status == Some(UnderControl)
    ensures t == Primary <==> status == Some(Contained) || status.None?
  {
    match status
    case Some(Active) => Destructive
    case Some(UnderControl) => Accent
    case _ => Primary
  }

  /** The page's five cards: only the one labelled `Status` is coloured. */
  lemma PageCardStyles(status: FireStatus, other: string)
    requires other in ["Location", "Type", "Report Time", "Suspected Cause"]
    ensures CardStyle("Status", "Status", StatusTone(Some(status))) == Style(StatusTone(Some(status)), Some(StatusTone(Some(status))))
    ensures CardStyle(other, "Status", StatusTone(None)) == Style(Primary, None)
  {
  }
}
