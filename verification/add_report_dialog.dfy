/**
 * The add-report dialog: what the submit handler lets through, when the
 * submit button is enabled, the reset on close, and what a submission's
 * result does. Camera, geolocation and canvas capture arrive as events
 * carrying their outcome.
 */
module AddReportDialog {
  import opened Wrappers
  import opened Strings
  import opened Geo
  import CommunityReports

  /** The dialog's state; `open` mirrors the parent's flag, `pending` the submit transition. */
  datatype Dialog = Dialog(
    open: bool,
    description: string,
    photo: Option<string>,
    location: Option<Coordinates>,
    locationError: Option<string>,
    cameraPermission: Option<bool>,
    pending: bool)

  /** The values every field starts from (and returns to on close). */
  const Initial: Dialog := Dialog(false, "", None, None, None, None, false)

  /** What is sent to the submit action. */
  datatype ReportInput = ReportInput(photoDataUri: string, description: string, location: Coordinates)

  /** What pressing submit does: a "photo required" toast, or a submit call. */
  datatype SubmitEffect = Rejected | Sent(input: ReportInput)

  /** What a settled submission does: an error toast, or the report handed to the page. */
  datatype SettleEffect = ErrorToast | Submitted(report: CommunityReports.UserReport)

  // ----- gates -----

  /** The check at the top of `handleSubmit`: photo, any non-empty description, location. */
  predicate SubmitGuard(d: Dialog) {
    Truthy(d.photo) && d.description != "" && d.location.Some?
  }

  /** `isSubmittable`: the submit button is enabled. */
  predicate IsSubmittable(d: Dialog) {
    Truthy(d.photo) && |d.description| >= 10 && d.location.Some? && !d.pending
  }

  /** An enabled button always passes the handler's own check. */
  lemma SubmittableImpliesGuard(d: Dialog)
    requires IsSubmittable(d)
    ensures SubmitGuard(d)
  {
  }

  /** The handler's check is weaker: it lets a one-character description through. */
  lemma GuardAllowsShortDescription(photo: string, at: Coordinates)
    requires photo != ""
    ensures var d := Initial.(open := true, photo := Some(photo), description := "x", location := Some(at));
            SubmitGuard(d) && !IsSubmittable(d)
  {
  }

  // ----- transitions -----

  /**
   * `handleClose(isOpen)`: closing resets the five form fields; opening
   * leaves them; either way the open flag follows.
   */
  function HandleClose(d: Dialog, isOpen: bool): (r: Dialog)
    ensures r.open == isOpen && r.pending == d.pending
    ensures !isOpen ==> r == Initial.(pending := d.pending)
    ensures isOpen ==> r == d.(open := true)
  {
    if !isOpen then
      d.(open := false, photo := None, description := "", location := None, locationError := None, cameraPermission := None)
    else
      d.(open := true)
  }

  /** A closed dialog can neither submit nor enable its button until the form is filled again. */
  lemma ClosedCannotSubmit(d: Dialog)
    ensures !SubmitGuard(HandleClose(d, false)) && !IsSubmittable(HandleClose(d, false))
  {
  }

  /** The geolocation callback: a position clears the error; a failure sets it and keeps any position. */
  function LocationResult(d: Dialog, result: Result<Coordinates, string>): (r: Dialog)
    ensures result.Success? ==> r.location == Some(result.value) && r.locationError.None?
    ensures result.Failure? ==> r.location == d.location && r.locationError == Some(result.error)
    ensures r.photo == d.photo && r.description == d.description && r.cameraPermission == d.cameraPermission
  {
    match result
    case Success(at) => d.(location := Some(at), locationError := None)
    case Failure(message) => d.(locationError := Some(message))
  }

  /** The camera request settled: granted or denied. */
  function CameraResult(d: Dialog, granted: bool): (r: Dialog)
    ensures r.cameraPermission == Some(granted)
    ensures r == d.(cameraPermission := Some(granted))
  {
    d.(cameraPermission := Some(granted))
  }

  /** The capture button is enabled only with camera permission, and shown only without a photo. */
  predicate CanCapture(d: Dialog) {
    !Truthy(d.photo) && d.cameraPermission == Some(true)
  }

  /** `handleCapture`: a frame grabbed from the video becomes the photo; without one nothing changes. */
  function Capture(d: Dialog, frame: Option<string>): (r: Dialog)
    ensures frame.None? ==> r == d
    ensures frame.Some? ==> r == d.(photo := frame)
  {
    if frame.Some? then d.(photo := frame) else d
  }

  /** The retake button: only the photo is dropped. */
  function Retake(d: Dialog): (r: Dialog)
    ensures r.photo.None? && !Truthy(r.photo)
    ensures r.(photo := d.photo) == d
  {
    d.(photo := None)
  }

  /**
   * The photo controls cycle: a captured frame hides the capture button
   * (the retake button shows instead), and retaking brings it back, the
   * camera permission being unchanged.
   */
  lemma CaptureRetakeCycle(d: Dialog, frame: Option<string>)
    requires CanCapture(d) && Truthy(frame)
    ensures !CanCapture(Capture(d, frame))
    ensures CanCapture(Retake(Capture(d, frame)))
  {
  }

  /** Typing into the description; the field is disabled while a submission is pending. */
  function DescriptionChanged(d: Dialog, text: string): (r: Dialog)
    ensures d.pending ==> r == d
    ensures !d.pending ==> r == d.(description := text)
  {
    if d.pending then d else d.(description := text)
  }

  /**
   * `handleSubmit`: without photo, description or location nothing is
   * sent and the state stays; otherwise the form is sent and the
   * transition is pending.
   */
  function HandleSubmit(d: Dialog): (r: (Dialog, SubmitEffect))
    ensures r.1.Sent? <==> SubmitGuard(d)
    ensures r.1.Rejected? ==> r.0 == d
    ensures r.1.Sent? ==> r.0 == d.(pending := true)
                          && r.1.input == ReportInput(d.photo.value, d.description, d.location.value)
  {
    if !SubmitGuard(d) then (d, Rejected)
    else (d.(pending := true), Sent(ReportInput(d.photo.value, d.description, d.location.value)))
  }

  /**
   * The submit action settled: an error keeps the form for another try;
   * a report is handed to the page and the dialog closes and resets.
   */
  function SubmitSettled(d: Dialog, result: Result<CommunityReports.UserReport, string>): (r: (Dialog, SettleEffect))
    ensures result.Failure? ==> r.0 == d.(pending := false) && r.1 == ErrorToast
    ensures result.Success? ==> r.0 == Initial && r.1 == Submitted(result.value)
  {
    match result
    case Failure(_) => (d.(pending := false), ErrorToast)
    case Success(report) => (HandleClose(d.(pending := false), false), Submitted(report))
  }

  /**
   * A successful submission from the page's dialog: the report is on top of
   * the list, the other reports follow in their order, and the dialog is closed.
   */
  lemma SuccessReachesPage(page: CommunityReports.Page, d: Dialog, report: CommunityReports.UserReport)
    ensures var (d', effect) := SubmitSettled(d, Success(report));
            var page' := CommunityReports.ReportSubmitted(page, effect.report).(dialogOpen := d'.open);
            && page'.reports[0] == report && page'.reports[1..] == page.reports
            && !page'.dialogOpen && !d'.pending
  {
  }
}
