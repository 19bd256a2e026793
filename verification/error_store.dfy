/**
  The global notification queue (`useErrorStore`): an ordered list of `AppError`
  records. Producers append with `AddError`; entries leave through `RemoveError`
  (a filter on the id), `ClearErrors`, or the expiry of a timer that `AddError`
  schedules. Ids are the decimal rendering of a millisecond clock, so two entries
  added within the same millisecond share an id and are removed together.
 */
module ErrorStore {
  import opened Wrappers
  import Decimal

  /** The four values of the `type` field. */
  datatype Severity = Error | Warning | Info | Success

  /** The literal the source writes for each severity. */
  function SeverityTag(s: Severity): (tag: string)
  {
    match s
    case Error => "error"
    case Warning => "warning"
    case Info => "info"
    case Success => "success"
  }

  datatype AppError = AppError(
    id: string,
    message: string,
    kind: Severity,
    timestamp: nat,
    autoHide: bool,
    duration: Option<nat>)

  /** How long an auto-hiding entry stays in the store, in milliseconds. */
  const AutoHideDuration: nat := 5000

  /** A pending `setTimeout` callback: after `delay` ms it removes every entry with `id`. */
  datatype Expiry = Expiry(id: string, delay: nat)

  /** Every entry the store creates carries a duration exactly when it auto-hides. */
  predicate WellFormed(e: AppError)
  {
    && (e.autoHide <==> e.duration.Some?)
    && (e.duration.Some? ==> e.duration.value == AutoHideDuration)
  }

  /**
    The record `addError` builds. `kind` and `autoHide` are `None` when the caller
    omits them; `idClock` and `timeClock` are the two separate readings of `Date.now()`.
   */
  function NewError(message: string, kind: Option<Severity>, autoHide: Option<bool>,
                    idClock: nat, timeClock: nat): (e: AppError)
    ensures WellFormed(e)
    ensures e.id == Decimal.NatToString(idClock)
    ensures e.message == message && e.timestamp == timeClock
    ensures kind.None? ==> e.kind == Error
    ensures kind.Some? ==> e.kind == kind.value
    ensures autoHide.None? ==> e.autoHide
    ensures autoHide.Some? ==> e.autoHide == autoHide.value
  {
    var severity := if kind.Some? then kind.value else Error;
    var hides := if autoHide.Some? then autoHide.value else true;
    var duration := if hides then Some(AutoHideDuration) else None;
    AppError(Decimal.NatToString(idClock), message, severity, timeClock, hides, duration)
  }

  /** `errors.filter((error) => error.id !== id)`. */
  function Without(errors: seq<AppError>, id: string): (r: seq<AppError>)
    ensures |r| <= |errors|
    ensures forall e :: e in r <==> e in errors && e.id != id
  {
    if errors == [] then []
    else if errors[0].id == id then Without(errors[1..], id)
    else [errors[0]] + Without(errors[1..], id)
  }

  /** The filter works piecewise: entries that stay keep their relative order. */
  lemma {:induction false} WithoutAppend(a: seq<AppError>, b: seq<AppError>, id: string)
    ensures Without(a + b, id) == Without(a, id) + Without(b, id)
    decreases |a|
  {
    if a == [] {
      assert a + b == b;
    } else {
      assert (a + b)[0] == a[0] && (a + b)[1..] == a[1..] + b;
      WithoutAppend(a[1..], b, id);
    }
  }

  /** Removing an id nobody carries changes nothing. */
  lemma {:induction false} WithoutAbsent(errors: seq<AppError>, id: string)
    requires forall e :: e in errors ==> e.id != id
    ensures Without(errors, id) == errors
    decreases |errors|
  {
    if errors != [] {
      assert errors[0] in errors;
      assert forall e :: e in errors[1..] ==> e in errors;
      WithoutAbsent(errors[1..], id);
    }
  }

  /** Removing the same id twice is the same as removing it once. */
  lemma WithoutIdempotent(errors: seq<AppError>, id: string)
    ensures Without(Without(errors, id), id) == Without(errors, id)
  {
    WithoutAbsent(Without(errors, id), id);
  }

  /** Removals of two ids give the same queue in either order (timers may fire in any order). */
  lemma {:induction false} WithoutCommutes(errors: seq<AppError>, a: string, b: string)
    ensures Without(Without(errors, a), b) == Without(Without(errors, b), a)
    decreases |errors|
  {
    if errors != [] {
      WithoutCommutes(errors[1..], a, b);
    }
  }

  /**
    Two `addError` calls that read the same millisecond for their ids produce entries
    with one id; one `removeError` of that id deletes both.
   */
  lemma SameClockCollides(errors: seq<AppError>, m1: string, m2: string,
                          k1: Option<Severity>, k2: Option<Severity>,
                          h1: Option<bool>, h2: Option<bool>,
                          clock: nat, t1: nat, t2: nat)
    requires forall e :: e in errors ==> e.id != Decimal.NatToString(clock)
    ensures
      var e1 := NewError(m1, k1, h1, clock, t1);
      var e2 := NewError(m2, k2, h2, clock, t2);
      e1.id == e2.id && Without(errors + [e1] + [e2], e1.id) == errors
  {
    var e1 := NewError(m1, k1, h1, clock, t1);
    var e2 := NewError(m2, k2, h2, clock, t2);
    WithoutAppend(errors + [e1], [e2], e1.id);
    WithoutAppend(errors, [e1], e1.id);
    WithoutAbsent(errors, e1.id);
  }

  /** Entries made at different clock readings never share an id. */
  lemma DistinctClocksDistinctIds(m1: string, m2: string,
                                  k1: Option<Severity>, k2: Option<Severity>,
                                  h1: Option<bool>, h2: Option<bool>,
                                  c1: nat, c2: nat, t1: nat, t2: nat)
    requires c1 != c2
    ensures NewError(m1, k1, h1, c1, t1).id != NewError(m2, k2, h2, c2, t2).id
  {
    Decimal.NatToStringInjective(c1, c2);
  }

  class Store {
    var errors: seq<AppError>

    predicate Valid()
      reads this
    {
      forall e :: e in errors ==> WellFormed(e)
    }

    /** The store starts with an empty queue. */
    constructor ()
      ensures Valid() && errors == []
    {
      errors := [];
    }

    /**
      Appends one new entry at the tail and, when it auto-hides, returns the expiry
      event scheduled for its id after `AutoHideDuration` ms.
     */
    method AddError(message: string, kind: Option<Severity>, autoHide: Option<bool>,
                    idClock: nat, timeClock: nat) returns (timer: Option<Expiry>)
      requires Valid()
      modifies this
      ensures Valid()
      ensures errors == old(errors) + [NewError(message, kind, autoHide, idClock, timeClock)]
      ensures timer.Some? <==> errors[|errors| - 1].autoHide
      ensures timer.Some? ==> timer.value == Expiry(errors[|errors| - 1].id, AutoHideDuration)
    {
      var e := NewError(message, kind, autoHide, idClock, timeClock);
      errors := errors + [e];
      if e.autoHide && e.duration.Some? {
        timer := Some(Expiry(e.id, e.duration.value));
      } else {
        timer := None;
      }
    }

    /** Deletes every entry whose id is `id`, keeping the rest in order. */
    method RemoveError(id: string)
      requires Valid()
      modifies this
      ensures Valid()
      ensures errors == Without(old(errors), id)
    {
      errors := Without(errors, id);
    }

    /** The callback of a timer scheduled by `AddError`: it removes the entry's id. */
    method FireExpiry(timer: Expiry)
      requires Valid()
      modifies this
      ensures Valid()
      ensures errors == Without(old(errors), timer.id)
    {
      RemoveError(timer.id);
    }

    /** Empties the queue whatever it held. */
    method ClearErrors()
      requires Valid()
      modifies this
      ensures Valid() && errors == []
    {
      errors := [];
    }

    /**
      The most recently appended entry, or `None` exactly when the queue is empty. In a
      valid store it auto-hides exactly when it carries a duration, and that duration
      is `AutoHideDuration`.
     */
    method GetLatestError() returns (latest: Option<AppError>)
      ensures latest.None? <==> errors == []
      ensures latest.Some? ==> errors != [] && latest.value == errors[|errors| - 1]
      ensures Valid() && latest.Some? ==>
        (latest.value.autoHide <==> latest.value.duration == Some(AutoHideDuration))
    {
      latest := if |errors| > 0 then Some(errors[|errors| - 1]) else None;
      if latest.Some? {
        assert latest.value in errors;
      }
    }
  }
}
