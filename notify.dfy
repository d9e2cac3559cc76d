/**
 * `Notify`: the `mining.notify` notification around a parameter array, with
 * the strict check `valid`, the defensive parser `read` and the constructor
 * `make`.
 */
module Notify {
  import opened Wrappers
  import opened JsonValues
  import opened Boost
  import opened Stratum
  import NotifyParams

  const MiningNotify := "mining.notify"

  /**
   * `Notify.valid`: the envelope reader accepts the message, its method is
   * "mining.notify" and its params pass `NotifyParams.valid`. The message is
   * handed to the reader as it is, so it is any JSON value here.
   */
  function Valid(lib: Collaborators, message: Json): (ok: bool)
    ensures ok <==>
      && lib.notificationRead(message).Some?
      && lib.notificationRead(message).value.methodName == MiningNotify
      && NotifyParams.WellFormed(lib, lib.notificationRead(message).value.params)
  {
    match lib.notificationRead(message)
    case None => false
    case Some(n) =>
      NotifyParams.IsValidIffWellFormed(lib, n.params);
      n.methodName == MiningNotify && NotifyParams.IsValid(lib, n.params)
  }

  /** The `typeof` checks `read` makes before it looks at the merkle branch. */
  predicate HasNotifyShape(params: seq<Json>)
  {
    && |params| == 9
    && params[0].JString? && params[1].JString? && params[2].JString? && params[3].JString?
    && params[4].JArray?
    && params[5].JString? && params[6].JString? && params[7].JString?
    && params[8].JBool?
  }

  /**
   * When `read` returns a message: the envelope reader accepts it, the
   * method is "mining.notify", there are exactly nine params, 0 and 5 to 7
   * are strings, and the params are well formed (which makes 1 to 3 and the
   * elements of 4 strings and 8 a boolean).
   */
  predicate ReadDefined(lib: Collaborators, message: Json)
  {
    match lib.notificationRead(message)
    case None => false
    case Some(n) =>
      && n.methodName == MiningNotify
      && |n.params| == 9
      && n.params[0].JString? && n.params[5].JString? && n.params[6].JString? && n.params[7].JString?
      && NotifyParams.WellFormed(lib, n.params)
  }

  /** `Notify.read`: never throws; undefined on any mismatch. */
  method Read(lib: Collaborators, message: Json) returns (r: Option<Notification>)
    ensures r.Some? <==> ReadDefined(lib, message)
    ensures r.Some? ==> r == lib.notificationRead(message)
  {
    var read := lib.notificationRead(message);
    if read.None? {
      return None;
    }
    var n := read.value;
    if !(n.methodName == MiningNotify && HasNotifyShape(n.params)) {
      return None;
    }
    var branch := n.params[4].elems;
    for k := 0 to |branch| {
      if !branch[k].JString? {
        return None;
      }
    }
    var ok := NotifyParams.Valid(lib, n.params);
    if ok {
      return Some(n);
    }
    return None;
  }

  /** Whenever `read` returns a message, `valid` holds of the same message. */
  lemma ReadImpliesValid(lib: Collaborators, message: Json)
    ensures ReadDefined(lib, message) ==> Valid(lib, message)
  {
  }

  /**
   * The notification `read` returns, as a message of its own, passes
   * `valid` too, provided the envelope reader accepts it as it is.
   */
  lemma ReadResultValid(lib: Collaborators, message: Json)
    requires ReadDefined(lib, message)
    requires var n := lib.notificationRead(message).value; lib.notificationRead(ToJson(n)) == Some(n)
    ensures Valid(lib, ToJson(lib.notificationRead(message).value))
  {
    ReadImpliesValid(lib, message);
  }

  /**
   * For an envelope with method "mining.notify", nine params, and string
   * elements where `SessionID.valid` needs them, `read` is defined exactly
   * when the params pass `NotifyParams.valid`.
   */
  lemma ReadIffParamsValid(lib: Collaborators, message: Json, n: Notification)
    requires lib.notificationRead(message) == Some(n)
    requires n.methodName == MiningNotify && |n.params| == 9 && n.params[0].JString?
    requires forall k | 5 <= k <= 7 :: lib.sessionIdValid(Some(n.params[k])) ==> n.params[k].JString?
    ensures ReadDefined(lib, message) <==> NotifyParams.IsValid(lib, n.params)
  {
    NotifyParams.IsValidIffWellFormed(lib, n.params);
    if NotifyParams.WellFormed(lib, n.params) {
      assert lib.sessionIdValid(Some(n.params[5]));
      assert lib.sessionIdValid(Some(n.params[6]));
      assert lib.sessionIdValid(Some(n.params[7]));
    }
  }

  /**
   * The converse of `ReadImpliesValid` fails: with a tenth element the
   * message passes `valid`, but `read` refuses it.
   */
  lemma ValidDoesNotImplyRead(lib: Collaborators, message: Json, n: Notification)
    requires lib.notificationRead(message) == Some(n)
    requires n.methodName == MiningNotify && |n.params| == 10
    requires NotifyParams.WellFormed(lib, n.params)
    ensures Valid(lib, message)
    ensures !ReadDefined(lib, message)
  {
  }

  /** `Notify.make`: the array of `NotifyParams.make` with id null and method "mining.notify". */
  method Make(
    lib: Collaborators, jobId: string, prevHash: Digest32, gtx1: Bytes, gtx2: Bytes,
    branch: seq<Digest32>, version: Int32Little, bits: Difficulty, time: UInt32Little,
    clean: bool)
    returns (message: Notification)
    ensures message.id == JNull && message.methodName == MiningNotify
    ensures message.params ==
      NotifyParams.Encode(lib, NotifyParams.Fields(jobId, prevHash, gtx1, gtx2, branch, version, bits, time, clean))
  {
    var params := NotifyParams.Make(lib, jobId, prevHash, gtx1, gtx2, branch, version, bits, time, clean);
    message := Notification(JNull, MiningNotify, params);
  }

  /**
   * A message built from typed fields is accepted by both `valid` and
   * `read`, provided the envelope reader accepts it as it is and the
   * collaborators write what `NotifyParams.valid` expects.
   */
  lemma MadeMessageAccepted(lib: Collaborators, f: NotifyParams.Fields)
    requires forall i | 0 <= i < |f.branch| :: JsLength(lib.digestHex(f.branch[i])) == 64
    requires lib.sessionIdValid(Some(JString(lib.int32Hex(f.version))))
    requires lib.sessionIdValid(Some(JString(lib.difficultyHex(f.bits))))
    requires lib.sessionIdValid(Some(JString(lib.uint32Hex(f.time))))
    requires var m := Notification(JNull, MiningNotify, NotifyParams.Encode(lib, f));
      lib.notificationRead(ToJson(m)) == Some(m)
    ensures var m := Notification(JNull, MiningNotify, NotifyParams.Encode(lib, f));
      Valid(lib, ToJson(m)) && ReadDefined(lib, ToJson(m))
  {
    NotifyParams.EncodeIsValid(lib, f);
    NotifyParams.IsValidIffWellFormed(lib, NotifyParams.Encode(lib, f));
  }
}
