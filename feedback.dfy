/**
 * The feedback form: a submission that is blank after stripping whitespace is
 * refused and changes nothing; any other text is appended, with its timestamp, to
 * the feedback log, which is created by the first accepted submission.
 */
module Feedback {
  import opened Wrappers
  import opened Text

  datatype Entry = Entry(timestamp: string, feedback: string)

  class FeedbackLog {
    /** The log file's rows; `None` while no log file exists. */
    var stored: Option<seq<Entry>>

    /** The entries recorded so far; a missing log has none. */
    function Entries(): seq<Entry>
      reads this
    {
      stored.GetOr([])
    }

    /** A log that is not there yet. */
    constructor ()
      ensures stored == None && Entries() == []
    {
      stored := None;
    }

    /** A log file that already holds `entries`. */
    constructor Existing(entries: seq<Entry>)
      ensures stored == Some(entries) && Entries() == entries
    {
      stored := Some(entries);
    }

    /**
     * Pressing "Submit Feedback" with `text` at time `timestamp`. Returns whether
     * the text was saved.
     */
    method Submit(text: string, timestamp: string) returns (saved: bool)
      modifies this
      ensures saved <==> !IsBlank(text)
      ensures saved ==> stored.Some? && Entries() == old(Entries()) + [Entry(timestamp, text)]
      ensures !saved ==> stored == old(stored)
    {
      if IsBlank(text) {
        saved := false;
        return;
      }
      var row := Entry(timestamp, text);
      var updated: seq<Entry>;
      if stored.Some? {
        updated := stored.value + [row];
      } else {
        updated := [row];
      }
      stored := Some(updated);
      saved := true;
    }
  }
}
