/** The filter screen's state and the events that change it: the run
    button, the reply or the exception of a run, the end of a run and a
    header click. The saved-preferences store is the two fields
    `savedCoins` and `lastUpdateTime`. */
module Screen {
  import opened Wrappers
  import opened FilterCoins
  import opened Table

  const IdleText := "Run Filter Coins"

  /** What the JSON library reports when a reply has no `message`. */
  const MissingMessageText := "No value for message"

  function RunningText(time: string): string { "Running at " + time }
  function LastRunText(time: string): string { "Last run: " + time }

  /** "Error: ${e.message}", where a missing message prints as null. */
  function ErrorText(message: Option<string>): string { "Error: " + message.GetOr("null") }

  class FilterCoinScreen {
    var isLoading: bool
    var coinData: seq<CoinData>
    var errorMessage: Option<string>
    var buttonText: string
    var currentSort: Option<ColumnSort>
    /** The time the running request was started at. */
    var runTime: string
    /** "saved_coins": the last reply that carried rows. */
    var savedCoins: Option<Envelope>
    /** "last_update_time": the time of that reply's run. */
    var lastUpdateTime: Option<string>
    const fmt: Formatter
    const parsers: Parsers

    /** A fresh screen, after restoring the saved rows and time. */
    constructor (savedCoins: Option<Envelope>, lastUpdateTime: Option<string>, fmt: Formatter, parsers: Parsers)
      ensures !isLoading && errorMessage.None? && currentSort.None?
      ensures this.savedCoins == savedCoins && this.lastUpdateTime == lastUpdateTime
      ensures this.fmt == fmt && this.parsers == parsers
      ensures coinData == (if savedCoins.Some? then RowsOf(savedCoins.value, fmt) else [])
      ensures buttonText == if savedCoins.Some? && lastUpdateTime.Some? then LastRunText(lastUpdateTime.value) else IdleText
    {
      this.fmt := fmt;
      this.parsers := parsers;
      this.savedCoins := savedCoins;
      this.lastUpdateTime := lastUpdateTime;
      isLoading := false;
      coinData := [];
      errorMessage := None;
      buttonText := IdleText;
      currentSort := None;
      runTime := "";
      new;
      if savedCoins.Some? {
        coinData := ParseJsonResult(savedCoins.value, fmt);
        if lastUpdateTime.Some? {
          buttonText := LastRunText(lastUpdateTime.value);
        }
      }
    }

    /** The rows as the table shows them. */
    function Displayed(): (r: seq<CoinData>)
      reads this
      ensures multiset(r) == multiset(coinData)
    {
      SortedCoinData(coinData, currentSort, parsers)
    }

    /** The run button: ignored while a run is in progress; otherwise it
        starts one, clearing the error and showing the start time. */
    method Click(now: string) returns (launched: bool)
      modifies this
      ensures launched == !old(isLoading)
      ensures !launched ==> unchanged(this)
      ensures launched ==> isLoading && errorMessage.None? && buttonText == RunningText(now) && runTime == now
      ensures launched ==> coinData == old(coinData) && currentSort == old(currentSort)
      ensures savedCoins == old(savedCoins) && lastUpdateTime == old(lastUpdateTime)
    {
      if isLoading {
        return false;
      }
      isLoading := true;
      errorMessage := None;
      runTime := now;
      buttonText := RunningText(now);
      launched := true;
    }

    /** The reply of a run. A success with a message only shows the
        message; a success without one replaces the rows and saves the reply
        and the run's time; an error shows its message and resets the
        button. */
    method ReceiveReply(doc: Envelope)
      modifies this
      ensures isLoading == old(isLoading) && currentSort == old(currentSort) && runTime == old(runTime)
      ensures doc.status == "success" && doc.message.Some? ==>
        && errorMessage == doc.message
        && coinData == old(coinData) && buttonText == old(buttonText)
        && savedCoins == old(savedCoins) && lastUpdateTime == old(lastUpdateTime)
      ensures doc.status == "success" && doc.message.None? ==>
        && coinData == RowsOf(doc, fmt) && errorMessage == old(errorMessage)
        && savedCoins == Some(doc) && lastUpdateTime == Some(old(runTime))
        && buttonText == LastRunText(old(runTime))
      ensures doc.status == "error" ==>
        && errorMessage == Some(if doc.message.Some? then doc.message.value else ErrorText(Some(MissingMessageText)))
        && buttonText == IdleText
        && coinData == old(coinData) && savedCoins == old(savedCoins) && lastUpdateTime == old(lastUpdateTime)
      ensures doc.status != "success" && doc.status != "error" ==> unchanged(this)
    {
      if doc.status == "success" {
        if doc.message.Some? {
          errorMessage := doc.message;
        } else {
          coinData := ParseJsonResult(doc, fmt);
          savedCoins := Some(doc);
          lastUpdateTime := Some(runTime);
          buttonText := LastRunText(runTime);
        }
      } else if doc.status == "error" {
        if doc.message.Some? {
          errorMessage := doc.message;
          buttonText := IdleText;
        } else {
          ReceiveException(Some(MissingMessageText));
        }
      }
    }

    /** A run that raised: show the exception's text and reset the button. */
    method ReceiveException(message: Option<string>)
      modifies this
      ensures errorMessage == Some(ErrorText(message)) && buttonText == IdleText
      ensures isLoading == old(isLoading) && coinData == old(coinData) && currentSort == old(currentSort)
      ensures runTime == old(runTime) && savedCoins == old(savedCoins) && lastUpdateTime == old(lastUpdateTime)
    {
      errorMessage := Some(ErrorText(message));
      buttonText := IdleText;
    }

    /** The end of every run, whatever its outcome. */
    method Complete()
      modifies this
      ensures !isLoading
      ensures coinData == old(coinData) && errorMessage == old(errorMessage) && buttonText == old(buttonText)
      ensures currentSort == old(currentSort) && runTime == old(runTime)
      ensures savedCoins == old(savedCoins) && lastUpdateTime == old(lastUpdateTime)
    {
      isLoading := false;
    }

    /** A click on a column header. */
    method ClickHeader(column: string)
      modifies this
      ensures currentSort == NextSort(old(currentSort), column)
      ensures isLoading == old(isLoading) && coinData == old(coinData) && errorMessage == old(errorMessage)
      ensures buttonText == old(buttonText) && runTime == old(runTime)
      ensures savedCoins == old(savedCoins) && lastUpdateTime == old(lastUpdateTime)
    {
      currentSort := NextSort(currentSort, column);
    }

    /** A button press followed, when it starts a run, by that run's reply
        (or the text of its exception) and its completion. */
    method Run(now: string, outcome: Result<Envelope, Option<string>>)
      modifies this
      ensures old(isLoading) ==> unchanged(this)
      ensures !old(isLoading) ==> !isLoading && currentSort == old(currentSort)
      ensures !old(isLoading) && outcome.Success? && outcome.value.status == "success" && outcome.value.message.None? ==>
        && coinData == RowsOf(outcome.value, fmt) && errorMessage.None?
        && savedCoins == Some(outcome.value) && lastUpdateTime == Some(now) && buttonText == LastRunText(now)
      ensures !old(isLoading) && outcome.Success? && outcome.value.status == "success" && outcome.value.message.Some? ==>
        && errorMessage == outcome.value.message && coinData == old(coinData) && buttonText == RunningText(now)
        && savedCoins == old(savedCoins) && lastUpdateTime == old(lastUpdateTime)
      ensures !old(isLoading) && outcome.Success? && outcome.value.status == "error" ==>
        && errorMessage == Some(if outcome.value.message.Some? then outcome.value.message.value
                                else ErrorText(Some(MissingMessageText)))
        && buttonText == IdleText
        && coinData == old(coinData) && savedCoins == old(savedCoins) && lastUpdateTime == old(lastUpdateTime)
      ensures !old(isLoading) && outcome.Success? && outcome.value.status != "success" && outcome.value.status != "error" ==>
        && errorMessage.None? && buttonText == RunningText(now)
        && coinData == old(coinData) && savedCoins == old(savedCoins) && lastUpdateTime == old(lastUpdateTime)
      ensures !old(isLoading) && outcome.Failure? ==>
        && errorMessage == Some(ErrorText(outcome.error)) && buttonText == IdleText
        && coinData == old(coinData) && savedCoins == old(savedCoins) && lastUpdateTime == old(lastUpdateTime)
      ensures !old(isLoading) ==> runTime == now
    {
      var launched := Click(now);
      if !launched {
        return;
      }
      match outcome {
        case Success(doc) => ReceiveReply(doc);
        case Failure(message) => ReceiveException(message);
      }
      Complete();
    }
  }
}
