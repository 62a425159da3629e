/** A channel between two ends: it may lose or repeat what it carries, or let one overtake another. */
module Channels {

  /** The channel after its first message is delivered, or delivered and kept for once more. */
  function Rest<T>(channel: seq<T>, repeated: bool): seq<T>
    requires channel != []
  {
    if repeated then channel else channel[1..]
  }

  /** The channel without one message. */
  function Without<T>(channel: seq<T>, i: nat): seq<T>
    requires i < |channel|
  {
    channel[..i] + channel[i + 1..]
  }

  /** The channel with two neighbours in each other's place. */
  function Swapped<T>(channel: seq<T>, i: nat): seq<T>
    requires i + 1 < |channel|
  {
    channel[i := channel[i + 1]][i + 1 := channel[i]]
  }
}
