/**
 * The client's data session (hooks/useEnergy.tsx): EnergyProvider holds the last fetched
 * readings, a loading flag, an error message and the selected timezone, and re-fetches
 * GET /data when the timezone changes or a refresh is asked for. The network is a parameter:
 * a function from the requested URL to what `fetch` and `response.json()` produced.
 */
module EnergySession {
  import opened Wrappers
  import opened Readings

  /** The JSON body fetchData reads: `success`, and `data` or `message`, either of which may be missing. */
  datatype Reply = Reply(success: bool, data: Option<seq<EnergyReading>>, message: Option<string>)

  /** What `await fetch(url)` and `await response.json()` produced: a body, or a thrown error. */
  datatype FetchOutcome = Replied(reply: Reply) | Threw

  /** The URL prefix fetchData requests; the timezone is appended as it is, without encoding. */
  const DataUrlPrefix := "https://expoprep.onrender.com/data?timezone="

  const FallbackError := "Failed to fetch data"
  const ThrownError := "Failed to fetch data. Please try again."
  const MissingProviderError := "useEnergy must be used within an EnergyProvider"

  /** The URL fetched for a timezone: the fixed prefix followed by the timezone, character for character. */
  function DataUrl(timezone: string): (url: string)
    ensures |url| == |DataUrlPrefix| + |timezone|
    ensures url[..|DataUrlPrefix|] == DataUrlPrefix
    ensures url[|DataUrlPrefix|..] == timezone
  {
    DataUrlPrefix + timezone
  }

  /** The part of the session a completed fetch decides. */
  datatype Settled = Settled(data: Option<seq<EnergyReading>>, error: Option<string>)

  /**
   * What a fetch leaves behind, given the readings held before it (the error having been
   * cleared when the fetch began). A successful body replaces the readings and leaves no error;
   * an unsuccessful body or a thrown error keeps the old readings and sets a non-empty error.
   */
  function Settle(data: Option<seq<EnergyReading>>, outcome: FetchOutcome): (s: Settled)
    ensures outcome.Replied? && outcome.reply.success ==> s == Settled(outcome.reply.data, None)
    ensures !(outcome.Replied? && outcome.reply.success) ==> s.data == data && s.error.Some? && s.error.value != ""
    ensures outcome.Threw? ==> s.error == Some(ThrownError)
    ensures outcome.Replied? && !outcome.reply.success && outcome.reply.message.Some? && outcome.reply.message.value != "" ==>
      s.error == outcome.reply.message
    ensures outcome.Replied? && !outcome.reply.success && (outcome.reply.message.None? || outcome.reply.message.value == "") ==>
      s.error == Some(FallbackError)
  {
    match outcome
    case Threw => Settled(data, Some(ThrownError))
    case Replied(reply) =>
      if reply.success then Settled(reply.data, None)
      else if reply.message.Some? && reply.message.value != "" then Settled(data, reply.message)
      else Settled(data, Some(FallbackError))
  }

  /** A failed fetch after a successful one leaves the successful fetch's readings in place. */
  lemma FailureKeepsLastReadings(data: Option<seq<EnergyReading>>, good: Reply, bad: FetchOutcome)
    requires good.success
    requires !(bad.Replied? && bad.reply.success)
    ensures Settle(Settle(data, Replied(good)).data, bad).data == good.data
    ensures Settle(Settle(data, Replied(good)).data, bad).error.Some?
  {
  }

  /** The state of EnergyProvider: the four values its useState hooks hold. */
  class EnergyProvider {
    var data: Option<seq<EnergyReading>>
    var loading: bool
    var error: Option<string>
    var selectedTimezone: string

    /** The initial state: no readings, not loading, no error, and the device's timezone. */
    constructor (deviceTimezone: string)
      ensures data.None? && !loading && error.None? && selectedTimezone == deviceTimezone
    {
      data := None;
      loading := false;
      error := None;
      selectedTimezone := deviceTimezone;
    }

    /** The first two setters of fetchData: loading is raised and the error is cleared. */
    method BeginFetch()
      modifies this`loading, this`error
      ensures loading && error.None?
      ensures data == old(data) && selectedTimezone == old(selectedTimezone)
    {
      loading := true;
      error := None;
    }

    /**
     * fetchData(timezone): begins the fetch, requests the data URL for `timezone`, records the
     * outcome, and lowers loading on every path. The selected timezone is not touched.
     */
    method FetchData(timezone: string, network: string -> FetchOutcome)
      modifies this`data, this`loading, this`error
      ensures !loading && (error.Some? ==> error.value != "")
      ensures Settled(data, error) == Settle(old(data), network(DataUrl(timezone)))
      ensures selectedTimezone == old(selectedTimezone)
    {
      BeginFetch();
      var outcome := network(DataUrl(timezone));
      match outcome {
        case Threw =>
          error := Some(ThrownError);
        case Replied(reply) =>
          if reply.success {
            data := reply.data;
          } else {
            error := Some(if reply.message.Some? && reply.message.value != "" then reply.message.value else FallbackError);
          }
      }
      loading := false;
    }

    /** updateTimezone(tz): selects `tz`, then fetches with that same `tz`. */
    method UpdateTimezone(newTimezone: string, network: string -> FetchOutcome)
      modifies this
      ensures !loading && (error.Some? ==> error.value != "")
      ensures selectedTimezone == newTimezone
      ensures Settled(data, error) == Settle(old(data), network(DataUrl(newTimezone)))
    {
      selectedTimezone := newTimezone;
      FetchData(newTimezone, network);
    }

    /** refreshData(): fetches again with the selected timezone, which stays as it is. */
    method RefreshData(network: string -> FetchOutcome)
      modifies this`data, this`loading, this`error
      ensures !loading && (error.Some? ==> error.value != "")
      ensures selectedTimezone == old(selectedTimezone)
      ensures Settled(data, error) == Settle(old(data), network(DataUrl(old(selectedTimezone))))
    {
      FetchData(selectedTimezone, network);
    }
  }

  /** useEnergy(): the enclosing provider's session, or the error it throws outside any provider. */
  function UseEnergy(context: Option<EnergyProvider>): (r: Result<EnergyProvider, string>)
    ensures r.Failure? <==> context.None?
    ensures r.Failure? ==> r.error == MissingProviderError
    ensures r.Success? ==> r.value == context.value
  {
    match context
    case None => Failure(MissingProviderError)
    case Some(provider) => Success(provider)
  }
}
