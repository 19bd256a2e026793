/**
  The `ErrorNotification` overlay. It shows only the head of the store's queue (the
  oldest entry), arms a 3000 ms timer that removes the head's id whenever the queue
  is non-empty (the timer is cancelled and re-armed each time the queue changes, so
  the timer that can fire is always the one for the current head), and maps the
  head's severity to a background colour and an icon name.
 */
module ErrorNotification {
  import opened Wrappers
  import opened ErrorStore

  /** How long the overlay shows the head before removing it, in milliseconds. */
  const DisplayDuration: nat := 3000

  /** The entry on screen: the head of the queue, or nothing when it is empty. */
  function Displayed(errors: seq<AppError>): Option<AppError>
  {
    if |errors| == 0 then None else Some(errors[0])
  }

  /** The timer the effect arms for the current queue. */
  function ArmedTimer(errors: seq<AppError>): Option<Expiry>
  {
    if |errors| > 0 then Some(Expiry(errors[0].id, DisplayDuration)) else None
  }

  /** The queue after the overlay's timer has fired for the current head. */
  function ExpireHead(errors: seq<AppError>): (r: seq<AppError>)
    requires errors != []
    ensures |r| < |errors|
    ensures errors[0] !in r
  {
    Without(errors, errors[0].id)
  }

  /** The queue after the overlay's timer has fired `n` times with nothing else happening. */
  function ExpireHeadTimes(errors: seq<AppError>, n: nat): seq<AppError>
    decreases n
  {
    if n == 0 || errors == [] then errors else ExpireHeadTimes(ExpireHead(errors), n - 1)
  }

  /**
    The overlay's timer callback. Only the timer armed for the current queue can
    fire; it removes every entry that carries the head's id.
   */
  method FireDisplayTimer(store: Store, timer: Expiry)
    requires store.Valid()
    requires ArmedTimer(store.errors) == Some(timer)
    modifies store
    ensures store.Valid()
    ensures store.errors == ExpireHead(old(store.errors))
  {
    store.RemoveError(timer.id);
  }

  /** Nothing is rendered exactly when the queue is empty; otherwise the oldest entry is. */
  lemma DisplayedIsHead(errors: seq<AppError>)
    ensures Displayed(errors).None? <==> errors == []
    ensures Displayed(errors).Some? ==> Displayed(errors).value == errors[0]
    ensures ArmedTimer(errors).Some? <==> Displayed(errors).Some?
  {
  }

  /** Entries appended later queue behind the one on screen and do not replace it. */
  lemma AppendKeepsDisplayed(errors: seq<AppError>, later: seq<AppError>)
    requires errors != []
    ensures Displayed(errors + later) == Displayed(errors)
    ensures ArmedTimer(errors + later) == ArmedTimer(errors)
  {
    assert (errors + later)[0] == errors[0];
  }

  /**
    The overlay shows the oldest entry while `getLatestError` reports the newest: as
    soon as two different entries are queued they disagree.
   */
  lemma DisplayedIsNotLatest(errors: seq<AppError>)
    requires |errors| >= 2 && errors[0] != errors[|errors| - 1]
    ensures Displayed(errors) != Some(errors[|errors| - 1])
  {
  }

  /** The index of the first entry whose id is not `id`, or `|errors|` when there is none. */
  function FirstOther(errors: seq<AppError>, id: string): (k: nat)
    ensures k <= |errors|
    ensures forall j :: 0 <= j < k ==> errors[j].id == id
    ensures k < |errors| ==> errors[k].id != id
    decreases |errors|
  {
    if errors == [] then 0
    else if errors[0].id == id then 1 + FirstOther(errors[1..], id)
    else 0
  }

  /**
    After the entries with `id` leave, the overlay shows the first entry whose id
    differs: entries become visible in insertion order, and entries that collided
    with the old head's id are skipped because they left with it.
   */
  lemma {:induction false} NextDisplayed(errors: seq<AppError>, id: string)
    ensures Displayed(Without(errors, id)) ==
      if FirstOther(errors, id) < |errors| then Some(errors[FirstOther(errors, id)]) else None
    decreases |errors|
  {
    if errors != [] && errors[0].id == id {
      NextDisplayed(errors[1..], id);
    }
  }

  /** The overlay's timer ignores `autoHide`: an entry added with `autoHide` false is still removed once it is the head. */
  lemma NoAutoHideStillExpires(errors: seq<AppError>)
    requires errors != [] && !errors[0].autoHide
    ensures ArmedTimer(errors) == Some(Expiry(errors[0].id, DisplayDuration))
    ensures errors[0] !in ExpireHead(errors)
  {
  }

  /**
    The store's timer for the head and the overlay's timer remove the same id, so
    whichever fires second changes nothing.
   */
  lemma BothTimersAnyOrder(errors: seq<AppError>)
    requires errors != []
    ensures Without(ExpireHead(errors), errors[0].id) == ExpireHead(errors)
  {
    WithoutIdempotent(errors, errors[0].id);
  }

  /** With nothing added, the queue is empty after at most as many expiries as it has entries. */
  lemma {:induction false} DrainsCompletely(errors: seq<AppError>, n: nat)
    requires n >= |errors|
    ensures ExpireHeadTimes(errors, n) == []
    decreases n
  {
    if n > 0 && errors != [] {
      DrainsCompletely(ExpireHead(errors), n - 1);
    }
  }

  // Colours of the light palette for each severity.
  const ErrorColor := "#dc3545"
  const WarningColor := "#ffc107"
  const InfoColor := "#17a2b8"
  const SuccessColor := "#28a745"

  /** The background colour for a `type` value; anything unrecognised gets the error colour. */
  function BackgroundColor(tag: string): string
  {
    if tag == "error" then ErrorColor
    else if tag == "warning" then WarningColor
    else if tag == "info" then InfoColor
    else if tag == "success" then SuccessColor
    else ErrorColor
  }

  /** The icon name for a `type` value; anything unrecognised gets the error icon. */
  function Icon(tag: string): string
  {
    if tag == "error" then "close-circle"
    else if tag == "warning" then "warning"
    else if tag == "info" then "information-circle"
    else if tag == "success" then "checkmark-circle"
    else "close-circle"
  }

  /** Reads the severity back from a background colour. */
  function SeverityOfColor(color: string): Option<Severity>
  {
    if color == ErrorColor then Some(Error)
    else if color == WarningColor then Some(Warning)
    else if color == InfoColor then Some(Info)
    else if color == SuccessColor then Some(Success)
    else None
  }

  /** Reads the severity back from an icon name. */
  function SeverityOfIcon(icon: string): Option<Severity>
  {
    if icon == "close-circle" then Some(Error)
    else if icon == "warning" then Some(Warning)
    else if icon == "information-circle" then Some(Info)
    else if icon == "checkmark-circle" then Some(Success)
    else None
  }

  /** Each severity gets its own colour and its own icon: both mappings can be read back. */
  lemma MappingsDistinguishSeverities(s: Severity)
    ensures SeverityOfColor(BackgroundColor(SeverityTag(s))) == Some(s)
    ensures SeverityOfIcon(Icon(SeverityTag(s))) == Some(s)
  {
  }

  /** What the overlay draws: the head's message on its severity's colour, with its icon. */
  datatype Notice = Notice(message: string, color: string, icon: string)

  function View(errors: seq<AppError>): Option<Notice>
  {
    if |errors| == 0 then None
    else
      var tag := SeverityTag(errors[0].kind);
      Some(Notice(errors[0].message, BackgroundColor(tag), Icon(tag)))
  }

  /**
    An entry added to an empty queue is drawn at once with its message, and the colour
    and icon of its severity (of "error" when the caller gave none).
   */
  lemma FreshEntryShown(message: string, kind: Option<Severity>, autoHide: Option<bool>,
                        idClock: nat, timeClock: nat)
    ensures
      var v := View([NewError(message, kind, autoHide, idClock, timeClock)]);
      var s := if kind.Some? then kind.value else Error;
      && v.Some? && v.value.message == message
      && SeverityOfColor(v.value.color) == Some(s)
      && SeverityOfIcon(v.value.icon) == Some(s)
  {
    var s := if kind.Some? then kind.value else Error;
    MappingsDistinguishSeverities(s);
  }

  /** An unrecognised `type` is shown exactly as an error is. */
  lemma UnknownTagFallsBack(tag: string)
    requires forall s: Severity :: tag != SeverityTag(s)
    ensures BackgroundColor(tag) == BackgroundColor(SeverityTag(Error))
    ensures Icon(tag) == Icon(SeverityTag(Error))
  {
    assert tag != SeverityTag(Error) && tag != SeverityTag(Warning);
    assert tag != SeverityTag(Info) && tag != SeverityTag(Success);
  }
}
