# mining.notify codec

A Dafny model of the codec for the Stratum `mining.notify` notification
(`src/Stratum/mining/notify.ts`): the server's announcement of a new job,
whose positional parameter array carries the job id, the previous block
hash, the two coinbase halves, the merkle branch, the block version, the
compact target (nbits), the time and the clean-jobs flag.

The model has three parts, as the source does:

- `NotifyParams.Valid`, the structural validator of the parameter array
  (the field checks, then a loop over the merkle branch with early exit);
- the nine field decoders, each re-validating the whole array and either
  failing with `InvalidNotify` (the thrown string "invalid notify") or
  extracting its field, and the encoder `NotifyParams.Make`;
- the envelope adapter: `Notify.Valid`, the defensive `Notify.Read` and
  `Notify.Make`.

JSON values are the datatype `JsonValues.Json`; a parameter array is a
`seq<Json>`, and reading past its end yields `None`, JavaScript's
`undefined`. The collaborators the file imports, whose code is not part of
this model (`Notification.read`, `SessionID.valid`, the boostpow codecs
`Digest32`, `Bytes`, `Int32Little`, `UInt32Little`, `Difficulty`, and Node's
`Buffer.from(s, 'hex')`), are the function-typed fields of
`Stratum.Collaborators`, passed to every operation. Whatever a property
needs of them (a hex round trip, a hex length, a byte order) is a `requires`
of the lemma that states it. Node's `buffer.reverse()` and
`buffer.toString('hex')` have fixed, documented behaviour and are modelled
concretely in `NodeBuffer`.

Files: `wrappers.dfy` (Option, Result, Error), `json.dfy` (JSON values and
the `typeof` checks), `boost.dfy` (the boostpow value types), `node_buffer.dfy`
(reverse and hex of a Node buffer), `stratum.dfy` (the notification record
and the collaborators), `notify_params.dfy` (`NotifyParams`), `notify.dfy`
(`Notify`).

## What the code checks, and what it does not

- The hex pattern `/^(([0-9a-f][0-9a-f])*)|(([0-9A-F][0-9A-F])*)$/` looks
  meant to accept only strings made wholly of lower-case hex pairs or
  wholly of upper-case ones. As written, the alternation binds looser than
  the anchors, and the first alternative matches the empty prefix of every
  string, so `is_hex` holds of every string (`NotifyParams.IsHexIffString`).
  No digit check, no case check and no even-length check is made; only the
  string type and the two length-64 tests remain
  (`NotifyParams.NonHexMixedCaseHashAccepted`). The length tests count
  UTF-16 code units, as JavaScript's `.length` does
  (`JsonValues.JsLength`, `NotifyParams.AstralHashLength`).
- `NotifyParams.valid` checks neither the array's length nor element 0: a
  short array fails only because element 8 is then undefined, and elements
  after index 8 are ignored (`NotifyParams.ValidIgnoresJobIdAndTail`). Only
  `Notify.read` demands exactly nine elements, so a ten-element message
  passes `Notify.valid` and is refused by `Notify.read`
  (`Notify.ValidDoesNotImplyRead`).
- `make` writes the digest's raw buffer in hex with no reversal, while
  `prevHash` reverses what it decodes. The previous hash therefore survives
  a round trip only if `Digest32.fromHex` itself reads hex in the reverse of
  buffer order (the display order of Bitcoin hashes);
  `NotifyParams.RoundTrip` states that as a hypothesis.
- Elements 5 to 7 are checked only by `SessionID.valid`, whose format is not
  part of this model.

## Model

| member | source | states |
|---|---|---|
| `NodeBuffer.Reverse` | src/Stratum/mining/notify.ts:45 | reverses the buffer in place: the new contents are the old contents in reverse order |
| `NodeBuffer.ReversedInvolutive` | src/Stratum/mining/notify.ts:45 | reversing a byte sequence twice gives back the original bytes |
| `NodeBuffer.ToHex` | src/Stratum/mining/notify.ts:127 | `buffer.toString('hex')` has two characters per byte, all lower-case hex digits |
| `NotifyParams.HexPatternMatchesEveryString` | src/Stratum/mining/notify.ts:14 | the pattern's test succeeds on every string, since its first alternative matches the empty prefix |
| `NotifyParams.IsHexIffString` | src/Stratum/mining/notify.ts:13-15 | `is_hex` is modelled by `IsHex`, with the pattern's `.test` modelled by `HexPatternTest`; `IsHex(v)` holds exactly when `v` is a string |
| `JsonValues.JsLength` | src/Stratum/mining/notify.ts:17 | JavaScript's `.length` counts UTF-16 code units: between one and two per character |
| `JsonValues.JsLengthBmp` | src/Stratum/mining/notify.ts:17 | for a string with no character outside the Basic Multilingual Plane, `.length` is the number of characters |
| `JsonValues.JsLengthAstral` | src/Stratum/mining/notify.ts:25 | for a string of characters outside the Basic Multilingual Plane, `.length` is twice the number of characters |
| `NotifyParams.AllDigestsHexIff` | src/Stratum/mining/notify.ts:24-29 | the loop over the branch succeeds exactly when every element is a string of `.length` 64 |
| `NotifyParams.IsValidIffWellFormed` | src/Stratum/mining/notify.ts:17-31 | `valid(p)` holds exactly when p has at least nine elements, p[1] is a string of `.length` 64, p[2] and p[3] are strings, p[4] is an array of strings of `.length` 64, `SessionID.valid` holds of p[5], p[6], p[7] and p[8] is a boolean |
| `NotifyParams.ShortParamsInvalid` | src/Stratum/mining/notify.ts:20 | an array of fewer than nine elements is refused |
| `NotifyParams.ValidIgnoresJobIdAndTail` | src/Stratum/mining/notify.ts:17-31 | replacing p[0] or appending elements after index 8 does not change the verdict |
| `NotifyParams.EmptyBranchValid` | src/Stratum/mining/notify.ts:24-29 | emptying the merkle branch of an accepted array keeps it accepted |
| `NotifyParams.Valid` | src/Stratum/mining/notify.ts:12-32 | the validator with its early-exit loop returns `IsValid(lib, p)`, the same check written as a function for the decoders to call, and that holds exactly for the well-formed arrays described above |
| `NotifyParams.JobID` | src/Stratum/mining/notify.ts:34-40 | fails exactly when the array is not well formed; otherwise returns p[0] verbatim |
| `NotifyParams.PrevHash` | src/Stratum/mining/notify.ts:42-50 | fails exactly when the array is not well formed; otherwise the digest's bytes are those `Digest32.fromHex(p[1])` decodes, reversed |
| `NotifyParams.GenerationTX1` | src/Stratum/mining/notify.ts:52-58 | fails exactly when the array is not well formed; otherwise the bytes are `Buffer.from(p[2], 'hex')` |
| `NotifyParams.GenerationTX2` | src/Stratum/mining/notify.ts:60-66 | fails exactly when the array is not well formed; otherwise the bytes are `Buffer.from(p[3], 'hex')` |
| `NotifyParams.MerkleBranch` | src/Stratum/mining/notify.ts:68-79 | fails exactly when the array is not well formed; otherwise the result has the length of p[4] and element i is `Digest32.fromHex(p[4][i])`, so order is kept and an empty branch gives an empty result |
| `NotifyParams.Version` | src/Stratum/mining/notify.ts:81-87 | fails exactly when the array is not well formed; otherwise `Int32Little.fromHex(p[5])` |
| `NotifyParams.NBits` | src/Stratum/mining/notify.ts:89-95 | fails exactly when the array is not well formed; otherwise `Difficulty.fromBits` of the number `UInt32Little.fromHex(p[6])` holds |
| `NotifyParams.Time` | src/Stratum/mining/notify.ts:97-103 | fails exactly when the array is not well formed; otherwise `UInt32Little.fromHex(p[7])` |
| `NotifyParams.Clean` | src/Stratum/mining/notify.ts:105-109 | fails exactly when the array is not well formed; otherwise returns the boolean p[8] verbatim |
| `NotifyParams.Make` | src/Stratum/mining/notify.ts:111-128 | builds a nine-element array with the job id at 0, the previous hash's raw buffer in hex at 1, the clean flag at 8, and at 4 the `hex` of each branch digest in order |
| `NotifyParams.EncodeIsValid` | src/Stratum/mining/notify.ts:111-128 | what `make` builds passes `valid` when the collaborators write digests of `.length` 64 and session-id-shaped version, bits and time |
| `NotifyParams.RoundTrip` | src/Stratum/mining/notify.ts:34-128 | every decoder applied to what `make` builds gives back its field, the previous hash under the hypothesis that `Digest32.fromHex` reads hex in reverse buffer order |
| `NotifyParams.SampleDecodes` | src/Stratum/mining/notify.ts:17-40 | for a `SessionID.valid` that accepts the sample's version, bits and time ids, an array with empty coinbase halves and an empty branch is accepted, with its job id and clean flag returned |
| `NotifyParams.NonHexMixedCaseHashAccepted` | src/Stratum/mining/notify.ts:14-20 | for a `SessionID.valid` that accepts the sample's version, bits and time ids, a 64-character previous hash that mixes cases and holds non-hex characters is accepted |
| `NotifyParams.AstralHashLength` | src/Stratum/mining/notify.ts:17 | for a `SessionID.valid` that accepts the sample's version, bits and time ids, a previous hash of 32 characters outside the Basic Multilingual Plane has `.length` 64 and is accepted; one of 64 such characters is refused |
| `NotifyParams.ShortHashRefused` | src/Stratum/mining/notify.ts:17 | a 63-character previous hash makes the array not well formed, so every decoder throws (`jobID` shown) |
| `NotifyParams.StringFlagRefused` | src/Stratum/mining/notify.ts:20 | the string "true" in place of the clean flag is refused |
| `Notify.Valid` | src/Stratum/mining/notify.ts:140-145 | for any JSON message: holds exactly when the envelope reader accepts it, its method is "mining.notify" and its params are well formed |
| `Notify.Read` | src/Stratum/mining/notify.ts:147-159 | returns the envelope reader's notification exactly when its method is "mining.notify", it has exactly nine params, elements 0 and 5 to 7 are strings and the params are well formed; otherwise undefined |
| `Notify.ReadImpliesValid` | src/Stratum/mining/notify.ts:140-159 | whenever `read` returns a message, `valid` holds of the same message |
| `Notify.ReadResultValid` | src/Stratum/mining/notify.ts:140-159 | the notification `read` returns passes `valid` as a message of its own, if the envelope reader accepts it unchanged |
| `Notify.ReadIffParamsValid` | src/Stratum/mining/notify.ts:147-158 | for a nine-element "mining.notify" envelope with a string job id, and a `SessionID.valid` that accepts only strings at 5 to 7, `read` is defined exactly when the params pass `valid` |
| `Notify.ValidDoesNotImplyRead` | src/Stratum/mining/notify.ts:140-159 | a "mining.notify" message with ten well-formed params passes `valid` but `read` refuses it |
| `Notify.Make` | src/Stratum/mining/notify.ts:161-174 | the message has id null, method "mining.notify" and the params `NotifyParams.make` builds |
| `Notify.MadeMessageAccepted` | src/Stratum/mining/notify.ts:161-174 | a message built from typed fields passes both `valid` and `read`, under the encoder's hypotheses and if the envelope reader accepts it unchanged |

## Left out

- `Notification.read`, `SessionID.valid` and the `method` and `message_id` types: their files are not part of this model. The first two are collaborators; a method name is a string.
- The boostpow codecs (`Digest32.fromHex` and `.hex`, `Bytes.hex`, `Int32Little`, `UInt32Little`, `Difficulty.fromBits` and `.hex`): their code is not part of this model. They are total functions here, so an exception they might throw on malformed input is not modelled. `Difficulty` is an abstract type, since its compact-target expansion may use floating point.
- Node's `Buffer.from(s, 'hex')`, which is lenient on odd-length or non-hex input: a collaborator, not modelled.
- `NotifyParams.RoundTrip`: the previous-hash round trip is proved only under the hypothesis about `Digest32.fromHex` byte order, and each other field under that collaborator's own hex round trip; for nbits that round trip may fail in the library itself.
- `NotifyParams.PrevHash`: the source reverses the buffer of the object `Digest32.fromHex` returned; the model copies those bytes into a fresh array and reverses that, so aliasing with the library's object is not captured.
- Lone surrogates: a Dafny string holds Unicode scalar values only, so a JSON string carrying an unpaired UTF-16 surrogate cannot be represented; every other string has its `.length` counted in UTF-16 code units.
- JSON numbers carry integers only; no rule of this codec looks at a number.
- TypeScript's static parameter types: the model takes any JSON value in every position, as the code receives at run time.
- The `console.log` diagnostic in the branch loop: output only, no effect on the result.
- Transport, line framing and the rest of the Stratum state machine: not in this file.
