/**
 The dictionary `RequestHandler.get_values` returns (speedport_Time.py:59-60)
 and `TimeMain._update_time` reads (speedport_Time.py:186-198).
 */
module ScrapedValues {

  /**
   A dictionary value: the time-limit flag, a text, or one access window's
   three-element list `[displayed, from, to]`.
   */
  datatype Field = Flag(b: bool) | Str(s: string) | FromTo(displayed: bool, from: string, to: string)

  type Values = map<string, Field>

  const TimelimitKey := "Timelimit"
  const TimestampKey := "timestamp"
  const RemainingTimeKey := "remaining_time"
  const FromTo1Key := "from_to_1"
  const FromTo2Key := "from_to_2"
  const FromTo3Key := "from_to_3"

  /** The window keys, in the order the windows are read and rendered. */
  const FromToKeys := [FromTo1Key, FromTo2Key, FromTo3Key]

  /** The six keys of a complete reading. */
  const AllKeys := {TimelimitKey, TimestampKey, RemainingTimeKey, FromTo1Key, FromTo2Key, FromTo3Key}

  /**
   Every key `_update_time` indexes is present and holds the kind of value
   it is used as.
   */
  predicate Populated(values: Values) {
    && TimelimitKey in values && values[TimelimitKey].Flag?
    && TimestampKey in values && values[TimestampKey].Str?
    && RemainingTimeKey in values && values[RemainingTimeKey].Str?
    && FromTo1Key in values && values[FromTo1Key].FromTo?
    && FromTo2Key in values && values[FromTo2Key].FromTo?
    && FromTo3Key in values && values[FromTo3Key].FromTo?
  }

  /** The three windows of a populated reading, in order. */
  function Windows(values: Values): (ws: seq<Field>)
    requires Populated(values)
    ensures |ws| == |FromToKeys|
    ensures forall i :: 0 <= i < |ws| ==> ws[i] == values[FromToKeys[i]] && ws[i].FromTo?
  {
    [values[FromTo1Key], values[FromTo2Key], values[FromTo3Key]]
  }
}
