/**
 * What the notify codec takes from the rest of the Stratum implementation
 * and from the boostpow library. None of that code is part of this model,
 * so each collaborator is a field of `Collaborators`, passed to every
 * operation; what a property needs of a collaborator is a `requires` of the
 * lemma that states it.
 */
module Stratum {
  import opened Wrappers
  import opened JsonValues
  import opened Boost

  /** A notification as `Notification.read` returns it: an id (null), a method name, positional params. */
  datatype Notification = Notification(id: Json, methodName: string, params: seq<Json>)

  /** A typed notification object seen as the JSON value it is at run time. */
  function ToJson(n: Notification): (j: Json)
  {
    JObject([("id", n.id), ("method", JString(n.methodName)), ("params", JArray(n.params))])
  }

  datatype Collaborators = Collaborators(
    /** `Notification.read`: the generic envelope reader. */
    notificationRead: Json -> Option<Notification>,
    /** `SessionID.valid`, applied to whatever the params array holds (undefined included). */
    sessionIdValid: Option<Json> -> bool,
    /** `Digest32.fromHex` and the getter `Digest32.hex`. */
    digestFromHex: string -> Digest32,
    digestHex: Digest32 -> string,
    /** Node's `Buffer.from(s, 'hex')`, lenient on malformed input. */
    bufferFromHex: string -> seq<byte>,
    /** The getter `Bytes.hex`. */
    bytesHex: Bytes -> string,
    /** `Int32Little.fromHex` (applied to the raw array element) and `Int32Little.hex`. */
    int32FromHex: Json -> Int32Little,
    int32Hex: Int32Little -> string,
    /** `UInt32Little.fromHex` (applied to the raw array element) and `UInt32Little.hex`. */
    uint32FromHex: Json -> UInt32Little,
    uint32Hex: UInt32Little -> string,
    /** `Difficulty.fromBits` and `Difficulty.hex`. */
    difficultyFromBits: uint32 -> Difficulty,
    difficultyHex: Difficulty -> string)
}
