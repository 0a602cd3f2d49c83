/**
 * The status of the booking form on a bar's detail page. It starts empty (no message),
 * switches to "loading" as soon as the form is submitted and ends in "ok" or "err" once
 * the request has been answered.
 */
module Booking {

  /** `status`: `null`, `'loading'`, `'ok'` or `'err'`. */
  datatype Status = Idle | Loading | Ok | Err

  /**
   * What the awaited calls of one submission produced: either `fetch` itself rejected, or
   * a response arrived with its `ok` flag, and its body did or did not parse as JSON.
   */
  datatype FetchOutcome = NetworkFailure | Response(ok: bool, bodyIsJson: bool)

  /** The status a submission settles in: "ok" needs a parsed body and a success status. */
  function Settled(o: FetchOutcome): (s: Status)
    ensures s == Ok <==> o.Response? && o.bodyIsJson && o.ok
    ensures s != Ok ==> s == Err
  {
    match o
    case NetworkFailure => Err
    case Response(ok, bodyIsJson) =>
      if !bodyIsJson then Err    // `await res.json()` throws
      else if !ok then Err       // `throw new Error(json.error || 'Erreur')`
      else Ok
  }

  /** What can happen to the form: a click on the submit button, or a submission settling. */
  datatype Event = Press | Arrive(outcome: FetchOutcome)

  /** One transition of the status. The previous status plays no part in it. */
  function Step(s: Status, e: Event): (t: Status)
    ensures t != Idle
    ensures e == Press ==> t == Loading
    ensures e.Arrive? ==> (t == Ok <==> e.outcome.Response? && e.outcome.bodyIsJson && e.outcome.ok)
    ensures e.Arrive? ==> t == Ok || t == Err
  {
    match e
    case Press => Loading
    case Arrive(o) => Settled(o)
  }

  /**
   * The status after a sequence of events, oldest first: the starting status while
   * nothing has happened, afterwards whatever the last event alone leads to.
   */
  function Run(s: Status, events: seq<Event>): (r: Status)
    ensures events == [] ==> r == s
    ensures events != [] ==> r != Idle && r == Step(s, events[|events| - 1])
    decreases |events|
  {
    if events == [] then s else Step(Run(s, events[..|events| - 1]), events[|events| - 1])
  }

  /** Once anything has happened the status is never empty again. */
  lemma {:induction false} NeverBackToIdle(s: Status, events: seq<Event>)
    ensures forall k :: 1 <= k <= |events| ==> Run(s, events[..k]) != Idle
  {
    forall k | 1 <= k <= |events| ensures Run(s, events[..k]) != Idle {
      assert events[..k] != [];
    }
  }

  /**
   * With submissions overlapping, the status shows the outcome of whichever settled last,
   * whatever was pressed or settled before it.
   */
  lemma LastSettlementWins(s: Status, events: seq<Event>, o: FetchOutcome)
    ensures Run(s, events + [Arrive(o)]) == Settled(o)
  {
    assert (events + [Arrive(o)])[..|events|] == events;
  }

  /** A submission that settles before the next one starts: "loading", then its outcome. */
  lemma SubmitFromAnyStatus(s: Status, o: FetchOutcome)
    ensures Run(s, [Press]) == Loading
    ensures Run(s, [Press, Arrive(o)]) == Settled(o)
  {
    assert [Press, Arrive(o)][..1] == [Press];
  }

  /** `BookingForm`: the four fields of the form and the status of its submissions. */
  class BookingForm {
    const barId: string
    var name: string
    var date: string
    var time: string
    var people: int
    var status: Status

    /** Every value `status` has held, oldest first. */
    ghost var History: seq<Status>
    /** Submissions whose awaited calls have not yet settled. */
    ghost var InFlight: nat

    /** The status starts empty, never becomes empty again, and first turns to "loading". */
    ghost predicate Valid()
      reads this
    {
      && |History| >= 1
      && History[0] == Idle
      && History[|History| - 1] == status
      && (forall i :: 1 <= i < |History| ==> History[i] != Idle)
      && (|History| > 1 ==> History[1] == Loading)
      && (InFlight > 0 ==> |History| > 1)
    }

    /** The form as it is first shown: empty fields, two people, no status. */
    constructor (barId: string)
      ensures Valid()
      ensures this.barId == barId && name == "" && date == "" && time == "" && people == 2
      ensures status == Idle && History == [Idle] && InFlight == 0
    {
      this.barId := barId;
      name, date, time, people := "", "", "", 2;
      status := Idle;
      History := [Idle];
      InFlight := 0;
    }

    /** The synchronous start of `submit`: `setStatus('loading')`, from whatever status. */
    method Begin()
      requires Valid()
      modifies this`status, this`History, this`InFlight
      ensures Valid()
      ensures status == Step(old(status), Press) == Loading
      ensures History == old(History) + [Loading] && InFlight == old(InFlight) + 1
      ensures name == old(name) && date == old(date) && time == old(time) && people == old(people)
    {
      status := Loading;
      History := History + [Loading];
      InFlight := InFlight + 1;
    }

    /** The end of `submit` once its awaited calls have settled: `'ok'` or `'err'`. */
    method Finish(o: FetchOutcome)
      requires Valid() && InFlight > 0
      modifies this`status, this`History, this`InFlight
      ensures Valid()
      ensures status == Step(old(status), Arrive(o)) == Settled(o)
      ensures History == old(History) + [Settled(o)] && InFlight == old(InFlight) - 1
      ensures name == old(name) && date == old(date) && time == old(time) && people == old(people)
    {
      status := Settled(o);
      History := History + [status];
      InFlight := InFlight - 1;
    }

    /** A whole `submit` whose calls settle before anything else happens to the form. */
    method Submit(o: FetchOutcome)
      requires Valid()
      modifies this`status, this`History, this`InFlight
      ensures Valid()
      ensures status == Settled(o)
      ensures History == old(History) + [Loading, Settled(o)] && InFlight == old(InFlight)
      ensures name == old(name) && date == old(date) && time == old(time) && people == old(people)
    {
      Begin();
      Finish(o);
    }
  }
}
