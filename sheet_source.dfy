/**
 * The `{data, loading, error}` state cells of `useGoogleSheets` and the steps of
 * `fetchData` that update them. The network is not modelled: how a request ended is
 * an input (`Outcome`). Requests are not tagged, so completions apply in whatever
 * order they arrive.
 */
module SheetSource {
  import opened Wrappers
  import Csv

  /** What a `catch` clause can receive: an `Error` with its message, or any other thrown value. */
  datatype Thrown = ErrorObject(message: string) | OtherValue

  /** How one request for the CSV export ended. */
  datatype Outcome =
    | Body(text: string)   // `response.ok`, and `response.text()` gave this body
    | NotOk                // the response arrived with a non-2xx status
    | Threw(thrown: Thrown) // `fetch` or `response.text()` threw

  const FETCH_FAILED := "Failed to fetch data"
  const GENERIC_ERROR := "An error occurred"

  /** `err instanceof Error ? err.message : 'An error occurred'`. */
  function CaughtMessage(t: Thrown): string {
    match t
    case ErrorObject(m) => m
    case OtherValue => GENERIC_ERROR
  }

  /**
   * The message a failed request leaves in `error`: a non-ok response is turned
   * into `new Error('Failed to fetch data')` before it reaches the `catch`.
   */
  function FailureMessage(o: Outcome): (m: string)
    requires !o.Body?
    ensures o.NotOk? ==> m == FETCH_FAILED
    ensures o.Threw? && o.thrown.ErrorObject? ==> m == o.thrown.message
    ensures o.Threw? && o.thrown.OtherValue? ==> m == GENERIC_ERROR
  {
    if o.NotOk? then CaughtMessage(ErrorObject(FETCH_FAILED)) else CaughtMessage(o.thrown)
  }

  class Source {
    var data: seq<Csv.Row>
    var loading: bool
    var error: Option<string>

    /** The initial `useState` values: no rows, loading, no error. */
    constructor ()
      ensures data == [] && loading && error == None
    {
      data := [];
      loading := true;
      error := None;
    }

    /** Lines 18-19: a fetch starts; the rows on display stay as they are. */
    method Begin()
      modifies this
      ensures loading && error == None
      ensures data == old(data)
    {
      loading := true;
      error := None;
    }

    /** Lines 34-47 then 52: the body is parsed and replaces the rows; `finally` clears `loading`. */
    method CompleteOk(text: string)
      modifies this
      ensures data == Csv.Parse(text)
      ensures !loading && error == old(error)
    {
      var rows := Csv.ParseText(text);
      data := rows;
      loading := false;
    }

    /** Lines 48-49 then 52: the caught message goes to `error`; the old rows are kept. */
    method CompleteErr(message: string)
      modifies this
      ensures error == Some(message)
      ensures !loading && data == old(data)
    {
      error := Some(message);
      loading := false;
    }

    /** The second half of `fetchData`, from the awaited response to `finally`. */
    method Complete(o: Outcome)
      modifies this
      ensures !loading
      ensures o.Body? ==> data == Csv.Parse(o.text) && error == old(error)
      ensures !o.Body? ==> data == old(data) && error == Some(FailureMessage(o))
    {
      match o
      case Body(text) => CompleteOk(text);
      case NotOk => CompleteErr(CaughtMessage(ErrorObject(FETCH_FAILED)));
      case Threw(t) => CompleteErr(CaughtMessage(t));
    }

    /**
     * One whole `fetchData` (also what `refresh` and each timer tick run), when no
     * other request overlaps it: success shows exactly the parsed body and no error;
     * failure keeps the last rows and shows the message.
     */
    method FetchData(o: Outcome)
      modifies this
      ensures !loading
      ensures o.Body? ==> data == Csv.Parse(o.text) && error == None
      ensures !o.Body? ==> data == old(data) && error == Some(FailureMessage(o))
    {
      Begin();
      Complete(o);
    }
  }

  /**
   * Two overlapping requests, where the one issued first answers last: its rows
   * overwrite the newer ones, since nothing records which request is the latest.
   */
  method StaleResponseWins(s: Source, older: string, newer: string)
    modifies s
    ensures s.data == Csv.Parse(older) && !s.loading && s.error == None
  {
    s.Begin();
    s.Begin();
    s.CompleteOk(newer);
    s.CompleteOk(older);
  }
}
