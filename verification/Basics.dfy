/** Small types and functions that several modules share. */
module Basics {

  datatype Option<T> = None | Some(value: T)

  /** What is known of a peer's presence, as both trackers see it. */
  datatype PresenceState = Unknown | Online | Offline

  function Min(a: nat, b: nat): nat { if a < b then a else b }

  function Max(a: nat, b: nat): nat { if a < b then b else a }
}
