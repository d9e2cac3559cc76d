/**
 * `NotifyParams`: the positional parameter array of `mining.notify`, its
 * validator, its nine field decoders and its encoder.
 *
 *   0 job id | 1 previous block hash | 2, 3 coinbase halves | 4 merkle branch
 *   5 version | 6 nbits | 7 time | 8 clean jobs
 */
module NotifyParams {
  import opened Wrappers
  import opened JsonValues
  import opened Boost
  import opened NodeBuffer
  import opened Stratum

  // ---------------------------------------------------------------------
  // The hex pattern  /^(([0-9a-f][0-9a-f])*)|(([0-9A-F][0-9A-F])*)$/
  // ---------------------------------------------------------------------

  predicate LowerHexDigit(c: char)
  {
    '0' <= c <= '9' || 'a' <= c <= 'f'
  }

  predicate UpperHexDigit(c: char)
  {
    '0' <= c <= '9' || 'A' <= c <= 'F'
  }

  /** `t` is matched entirely by `([0-9a-f][0-9a-f])*`. */
  predicate LowerPairs(t: string)
  {
    |t| % 2 == 0 && forall i | 0 <= i < |t| :: LowerHexDigit(t[i])
  }

  /** `t` is matched entirely by `([0-9A-F][0-9A-F])*`. */
  predicate UpperPairs(t: string)
  {
    |t| % 2 == 0 && forall i | 0 <= i < |t| :: UpperHexDigit(t[i])
  }

  /**
   * `RegExp.prototype.test` for the pattern as written. The alternation
   * binds looser than the anchors, so the pattern is `^A` or `B$`: the test
   * succeeds when some substring `s[i..j]` is matched by the lower-case
   * alternative with `i` at the start, or by the upper-case one with `j` at
   * the end.
   */
  predicate HexPatternTest(s: string)
  {
    exists i, j | 0 <= i <= j <= |s| ::
      (i == 0 && LowerPairs(s[i..j])) || (j == |s| && UpperPairs(s[i..j]))
  }

  /** `is_hex`: a string on which the pattern's test succeeds. */
  predicate IsHex(v: Option<Json>)
  {
    IsString(v) && HexPatternTest(v.value.str)
  }

  /** The first alternative matches the empty prefix of every string. */
  lemma HexPatternMatchesEveryString(s: string)
    ensures HexPatternTest(s)
  {
    assert LowerPairs(s[0..0]);
  }

  /** `is_hex` checks nothing but the type: no digits, no case, no parity. */
  lemma IsHexIffString(v: Option<Json>)
    ensures IsHex(v) <==> IsString(v)
  {
    if IsString(v) {
      HexPatternMatchesEveryString(v.value.str);
    }
  }

  // ---------------------------------------------------------------------
  // NotifyParams.valid
  // ---------------------------------------------------------------------

  /** The checks made before the loop over the merkle branch, in their order. */
  predicate FieldsValid(lib: Collaborators, p: seq<Json>)
  {
    IsHex(At(p, 1)) && JsLength(At(p, 1).value.str) == 64 &&
    IsHex(At(p, 2)) && IsHex(At(p, 3)) && IsArray(At(p, 4)) &&
    lib.sessionIdValid(At(p, 5)) && lib.sessionIdValid(At(p, 6)) &&
    lib.sessionIdValid(At(p, 7)) && IsBoolean(At(p, 8))
  }

  /** The test applied to each element of the merkle branch. */
  predicate DigestHex(d: Json)
  {
    IsHex(Some(d)) && JsLength(d.str) == 64
  }

  /** The loop over the merkle branch, stopping at the first bad element. */
  predicate AllDigestsHex(ds: seq<Json>)
  {
    ds == [] || (DigestHex(ds[0]) && AllDigestsHex(ds[1..]))
  }

  /** What `NotifyParams.valid` computes. */
  predicate IsValid(lib: Collaborators, p: seq<Json>)
  {
    FieldsValid(lib, p) && AllDigestsHex(At(p, 4).value.elems)
  }

  /** A string whose JavaScript `.length` is 64. */
  predicate IsHashString(v: Json)
  {
    v.JString? && JsLength(v.str) == 64
  }

  /**
   * The parameter array a decoder accepts, stated without the pattern: at
   * least nine elements, a string of `.length` 64 at 1, strings at 2 and 3,
   * an array of such strings at 4, session ids at 5 to 7 and a boolean
   * at 8. Element 0 and the elements past 8 are not looked at.
   */
  predicate WellFormed(lib: Collaborators, p: seq<Json>)
  {
    && |p| >= 9
    && IsHashString(p[1]) && p[2].JString? && p[3].JString? && p[4].JArray?
    && lib.sessionIdValid(Some(p[5])) && lib.sessionIdValid(Some(p[6]))
    && lib.sessionIdValid(Some(p[7])) && p[8].JBool?
    && forall i | 0 <= i < |p[4].elems| :: IsHashString(p[4].elems[i])
  }

  lemma {:induction false} AllDigestsHexIff(ds: seq<Json>)
    ensures AllDigestsHex(ds) <==> forall i | 0 <= i < |ds| :: IsHashString(ds[i])
  {
    if ds != [] {
      AllDigestsHexIff(ds[1..]);
      IsHexIffString(Some(ds[0]));
      assert forall i | 1 <= i < |ds| :: ds[i] == ds[1..][i - 1];
    }
  }

  /** `NotifyParams.valid` holds exactly of the well-formed arrays. */
  lemma IsValidIffWellFormed(lib: Collaborators, p: seq<Json>)
    ensures IsValid(lib, p) <==> WellFormed(lib, p)
  {
    IsHexIffString(At(p, 1));
    IsHexIffString(At(p, 2));
    IsHexIffString(At(p, 3));
    if |p| >= 9 && p[4].JArray? {
      AllDigestsHexIff(p[4].elems);
    }
  }

  /** Fewer than nine elements: element 8 is undefined, so the array is refused. */
  lemma ShortParamsInvalid(lib: Collaborators, p: seq<Json>)
    requires |p| < 9
    ensures !IsValid(lib, p)
  {
  }

  /** Changing element 0 or appending elements past 8 does not change the verdict. */
  lemma ValidIgnoresJobIdAndTail(lib: Collaborators, p: seq<Json>, job: Json, tail: seq<Json>)
    requires |p| >= 9
    ensures IsValid(lib, p) <==> IsValid(lib, [job] + p[1..9] + tail)
  {
    var q := [job] + p[1..9] + tail;
    assert forall k | 1 <= k < 9 :: q[k] == p[k];
    IsValidIffWellFormed(lib, p);
    IsValidIffWellFormed(lib, q);
  }

  /** An empty merkle branch is accepted wherever the rest of the array is. */
  lemma EmptyBranchValid(lib: Collaborators, p: seq<Json>)
    requires IsValid(lib, p)
    ensures IsValid(lib, p[4 := JArray([])])
  {
    IsValidIffWellFormed(lib, p);
    IsValidIffWellFormed(lib, p[4 := JArray([])]);
  }

  /** `NotifyParams.valid`: the field checks, then a loop over the merkle branch. */
  method Valid(lib: Collaborators, p: seq<Json>) returns (ok: bool)
    ensures ok == IsValid(lib, p)
    ensures ok <==> WellFormed(lib, p)
  {
    IsValidIffWellFormed(lib, p);
    if !FieldsValid(lib, p) {
      return false;
    }
    var digests := p[4].elems;
    for k := 0 to |digests|
      invariant AllDigestsHex(digests) == AllDigestsHex(digests[k..])
    {
      var digest := digests[k];
      if !(IsHex(Some(digest)) && JsLength(digest.str) == 64) {
        return false;
      }
      assert digests[k..][1..] == digests[k + 1..];
    }
    return true;
  }

  // ---------------------------------------------------------------------
  // The field decoders: each re-validates the whole array
  // ---------------------------------------------------------------------

  /** `NotifyParams.jobID`: element 0, whatever it holds. */
  function JobID(lib: Collaborators, p: seq<Json>): (r: Result<Json>)
    ensures r.Ok? <==> WellFormed(lib, p)
    ensures r.Ok? ==> r.value == p[0]
  {
    IsValidIffWellFormed(lib, p);
    if IsValid(lib, p) then Ok(p[0]) else Err(InvalidNotify)
  }

  /**
   * `NotifyParams.prevHash`: element 1 decoded by `Digest32.fromHex`, whose
   * buffer is then reversed in place.
   */
  method PrevHash(lib: Collaborators, p: seq<Json>) returns (r: Result<Digest32>)
    ensures r.Ok? <==> WellFormed(lib, p)
    ensures r.Ok? ==> r.value.buffer == Reversed(lib.digestFromHex(p[1].str).buffer)
  {
    var ok := Valid(lib, p);
    if !ok {
      return Err(InvalidNotify);
    }
    var digest := lib.digestFromHex(p[1].str);
    var buffer := new byte[32](k requires 0 <= k < 32 => digest.buffer[k]);
    assert buffer[..] == digest.buffer;
    Reverse(buffer);
    ReversedLength(digest.buffer);
    r := Ok(Digest(buffer[..]));
  }

  /** `NotifyParams.generationTX1`: element 2 through `Buffer.from(_, 'hex')`. */
  function GenerationTX1(lib: Collaborators, p: seq<Json>): (r: Result<Bytes>)
    ensures r.Ok? <==> WellFormed(lib, p)
    ensures r.Ok? ==> r.value.buffer == lib.bufferFromHex(p[2].str)
  {
    IsValidIffWellFormed(lib, p);
    if IsValid(lib, p) then Ok(Bytes(lib.bufferFromHex(p[2].str))) else Err(InvalidNotify)
  }

  /** `NotifyParams.generationTX2`: element 3 through `Buffer.from(_, 'hex')`. */
  function GenerationTX2(lib: Collaborators, p: seq<Json>): (r: Result<Bytes>)
    ensures r.Ok? <==> WellFormed(lib, p)
    ensures r.Ok? ==> r.value.buffer == lib.bufferFromHex(p[3].str)
  {
    IsValidIffWellFormed(lib, p);
    if IsValid(lib, p) then Ok(Bytes(lib.bufferFromHex(p[3].str))) else Err(InvalidNotify)
  }

  /** `NotifyParams.merkleBranch`: every element of element 4 decoded, in order. */
  method MerkleBranch(lib: Collaborators, p: seq<Json>) returns (r: Result<seq<Digest32>>)
    ensures r.Ok? <==> WellFormed(lib, p)
    ensures r.Ok? ==> |r.value| == |p[4].elems|
    ensures r.Ok? ==> forall i | 0 <= i < |r.value| :: r.value[i] == lib.digestFromHex(p[4].elems[i].str)
  {
    var ok := Valid(lib, p);
    if !ok {
      return Err(InvalidNotify);
    }
    var pathHex := p[4].elems;
    var path: seq<Digest32> := [];
    for k := 0 to |pathHex|
      invariant |path| == k
      invariant forall i | 0 <= i < k :: path[i] == lib.digestFromHex(pathHex[i].str)
    {
      path := path + [lib.digestFromHex(pathHex[k].str)];
    }
    return Ok(path);
  }

  /** `NotifyParams.version`: element 5 through `Int32Little.fromHex`. */
  function Version(lib: Collaborators, p: seq<Json>): (r: Result<Int32Little>)
    ensures r.Ok? <==> WellFormed(lib, p)
    ensures r.Ok? ==> r.value == lib.int32FromHex(p[5])
  {
    IsValidIffWellFormed(lib, p);
    if IsValid(lib, p) then Ok(lib.int32FromHex(p[5])) else Err(InvalidNotify)
  }

  /** `NotifyParams.nbits`: element 6 through `UInt32Little.fromHex`, then `Difficulty.fromBits`. */
  function NBits(lib: Collaborators, p: seq<Json>): (r: Result<Difficulty>)
    ensures r.Ok? <==> WellFormed(lib, p)
    ensures r.Ok? ==> r.value == lib.difficultyFromBits(lib.uint32FromHex(p[6]).number)
  {
    IsValidIffWellFormed(lib, p);
    if IsValid(lib, p) then Ok(lib.difficultyFromBits(lib.uint32FromHex(p[6]).number))
    else Err(InvalidNotify)
  }

  /** `NotifyParams.time`: element 7 through `UInt32Little.fromHex`. */
  function Time(lib: Collaborators, p: seq<Json>): (r: Result<UInt32Little>)
    ensures r.Ok? <==> WellFormed(lib, p)
    ensures r.Ok? ==> r.value == lib.uint32FromHex(p[7])
  {
    IsValidIffWellFormed(lib, p);
    if IsValid(lib, p) then Ok(lib.uint32FromHex(p[7])) else Err(InvalidNotify)
  }

  /** `NotifyParams.clean`: the boolean at element 8. */
  function Clean(lib: Collaborators, p: seq<Json>): (r: Result<bool>)
    ensures r.Ok? <==> WellFormed(lib, p)
    ensures r.Ok? ==> p[8] == JBool(r.value)
  {
    IsValidIffWellFormed(lib, p);
    if IsValid(lib, p) then Ok(p[8].b) else Err(InvalidNotify)
  }

  // ---------------------------------------------------------------------
  // NotifyParams.make
  // ---------------------------------------------------------------------

  /** The typed fields of a notification, in wire order. */
  datatype Fields = Fields(
    jobId: string, prevHash: Digest32, gtx1: Bytes, gtx2: Bytes, branch: seq<Digest32>,
    version: Int32Little, bits: Difficulty, time: UInt32Little, clean: bool)

  /** The wire form of a merkle branch: each digest's `hex`, in order. */
  function BranchHex(lib: Collaborators, branch: seq<Digest32>): (r: seq<Json>)
  {
    seq(|branch|, i requires 0 <= i < |branch| => JString(lib.digestHex(branch[i])))
  }

  /** The array `NotifyParams.make` builds. */
  function Encode(lib: Collaborators, f: Fields): (p: seq<Json>)
  {
    [ JString(f.jobId), JString(ToHex(f.prevHash.buffer)),
      JString(lib.bytesHex(f.gtx1)), JString(lib.bytesHex(f.gtx2)),
      JArray(BranchHex(lib, f.branch)), JString(lib.int32Hex(f.version)),
      JString(lib.difficultyHex(f.bits)), JString(lib.uint32Hex(f.time)), JBool(f.clean) ]
  }

  /**
   * `NotifyParams.make`: the branch array is built by a push loop; the
   * previous hash is its raw buffer in hex, with no reversal.
   */
  method Make(
    lib: Collaborators, jobId: string, prevHash: Digest32, gtx1: Bytes, gtx2: Bytes,
    branch: seq<Digest32>, version: Int32Little, bits: Difficulty, time: UInt32Little,
    clean: bool)
    returns (p: seq<Json>)
    ensures |p| == 9 && p[0] == JString(jobId) && p[8] == JBool(clean)
    ensures p[1] == JString(ToHex(prevHash.buffer))
    ensures p[4].JArray? && |p[4].elems| == |branch|
    ensures forall i | 0 <= i < |branch| :: p[4].elems[i] == JString(lib.digestHex(branch[i]))
    ensures p == Encode(lib, Fields(jobId, prevHash, gtx1, gtx2, branch, version, bits, time, clean))
  {
    var path: seq<Json> := [];
    for k := 0 to |branch|
      invariant |path| == k
      invariant forall i | 0 <= i < k :: path[i] == JString(lib.digestHex(branch[i]))
    {
      path := path + [JString(lib.digestHex(branch[k]))];
    }
    assert path == BranchHex(lib, branch);
    p := [ JString(jobId), JString(ToHex(prevHash.buffer)),
           JString(lib.bytesHex(gtx1)), JString(lib.bytesHex(gtx2)), JArray(path),
           JString(lib.int32Hex(version)), JString(lib.difficultyHex(bits)),
           JString(lib.uint32Hex(time)), JBool(clean) ];
  }

  // ---------------------------------------------------------------------
  // Encoding, then decoding
  // ---------------------------------------------------------------------

  /**
   * What `make` writes passes `valid`, provided the collaborators write
   * 64-character digests and session-id-shaped version, bits and time.
   */
  lemma EncodeIsValid(lib: Collaborators, f: Fields)
    requires forall i | 0 <= i < |f.branch| :: JsLength(lib.digestHex(f.branch[i])) == 64
    requires lib.sessionIdValid(Some(JString(lib.int32Hex(f.version))))
    requires lib.sessionIdValid(Some(JString(lib.difficultyHex(f.bits))))
    requires lib.sessionIdValid(Some(JString(lib.uint32Hex(f.time))))
    ensures IsValid(lib, Encode(lib, f))
  {
    var p := Encode(lib, f);
    JsLengthBmp(ToHex(f.prevHash.buffer));
    assert p[4].elems == BranchHex(lib, f.branch);
    assert WellFormed(lib, p);
    IsValidIffWellFormed(lib, p);
  }

  /**
   * Every decoder gives back the field `make` was given. The previous hash
   * comes back only if `Digest32.fromHex` reads hex in the reverse of the
   * buffer's order (the display order of Bitcoin hashes): `make` writes the
   * raw buffer and `prevHash` reverses what it decodes. The other fields
   * need the collaborators' own hex round trips.
   */
  lemma RoundTrip(lib: Collaborators, f: Fields)
    requires forall i | 0 <= i < |f.branch| :: JsLength(lib.digestHex(f.branch[i])) == 64
    requires lib.sessionIdValid(Some(JString(lib.int32Hex(f.version))))
    requires lib.sessionIdValid(Some(JString(lib.difficultyHex(f.bits))))
    requires lib.sessionIdValid(Some(JString(lib.uint32Hex(f.time))))
    requires lib.digestFromHex(ToHex(f.prevHash.buffer)).buffer == Reversed(f.prevHash.buffer)
    requires forall i | 0 <= i < |f.branch| :: lib.digestFromHex(lib.digestHex(f.branch[i])) == f.branch[i]
    requires lib.bufferFromHex(lib.bytesHex(f.gtx1)) == f.gtx1.buffer
    requires lib.bufferFromHex(lib.bytesHex(f.gtx2)) == f.gtx2.buffer
    requires lib.int32FromHex(JString(lib.int32Hex(f.version))) == f.version
    requires lib.difficultyFromBits(lib.uint32FromHex(JString(lib.difficultyHex(f.bits))).number) == f.bits
    requires lib.uint32FromHex(JString(lib.uint32Hex(f.time))) == f.time
    ensures var p := Encode(lib, f);
      && WellFormed(lib, p)
      && JobID(lib, p) == Ok(JString(f.jobId))
      && Reversed(lib.digestFromHex(p[1].str).buffer) == f.prevHash.buffer
      && GenerationTX1(lib, p) == Ok(f.gtx1)
      && GenerationTX2(lib, p) == Ok(f.gtx2)
      && |p[4].elems| == |f.branch|
      && (forall i | 0 <= i < |f.branch| :: lib.digestFromHex(p[4].elems[i].str) == f.branch[i])
      && Version(lib, p) == Ok(f.version)
      && NBits(lib, p) == Ok(f.bits)
      && Time(lib, p) == Ok(f.time)
      && Clean(lib, p) == Ok(f.clean)
  {
    var p := Encode(lib, f);
    EncodeIsValid(lib, f);
    IsValidIffWellFormed(lib, p);
    ReversedInvolutive(f.prevHash.buffer);
  }

  // ---------------------------------------------------------------------
  // Concrete arrays
  // ---------------------------------------------------------------------

  /** An array in the shape of a typical notification, with the given hash and clean flag. */
  function Sample(hash: string, clean: Json): (p: seq<Json>)
  {
    [JString("job-7"), JString(hash), JString(""), JString(""), JArray([]),
     JString("00000002"), JString("1d00ffff"), JString("5f5e1000"), clean]
  }

  predicate AcceptsSampleIds(lib: Collaborators)
  {
    && lib.sessionIdValid(Some(JString("00000002")))
    && lib.sessionIdValid(Some(JString("1d00ffff")))
    && lib.sessionIdValid(Some(JString("5f5e1000")))
  }

  /** Empty coinbase halves and an empty branch are accepted; the job id and flag come back. */
  lemma SampleDecodes(lib: Collaborators)
    requires AcceptsSampleIds(lib)
    ensures var p := Sample(seq(64, _ => '0'), JBool(true));
      && WellFormed(lib, p) && |p[4].elems| == 0
      && JobID(lib, p) == Ok(JString("job-7")) && Clean(lib, p) == Ok(true)
  {
    JsLengthBmp(seq(64, _ => '0'));
  }

  /**
   * The code accepts a "hash" that is not hex at all and mixes cases: only
   * the type and the length 64 are checked.
   */
  lemma NonHexMixedCaseHashAccepted(lib: Collaborators)
    requires AcceptsSampleIds(lib)
    ensures IsValid(lib, Sample("aB" + seq(62, _ => 'z'), JBool(false)))
  {
    JsLengthBmp("aB" + seq(62, _ => 'z'));
    IsValidIffWellFormed(lib, Sample("aB" + seq(62, _ => 'z'), JBool(false)));
  }

  /**
   * The length test counts UTF-16 code units: 32 characters outside the
   * Basic Multilingual Plane make a "hash" of length 64, and 64 of them one
   * of length 128.
   */
  lemma AstralHashLength(lib: Collaborators)
    requires AcceptsSampleIds(lib)
    ensures IsValid(lib, Sample(seq(32, _ => '\U{1F600}'), JBool(false)))
    ensures !IsValid(lib, Sample(seq(64, _ => '\U{1F600}'), JBool(false)))
  {
    JsLengthAstral(seq(32, _ => '\U{1F600}'));
    JsLengthAstral(seq(64, _ => '\U{1F600}'));
    IsValidIffWellFormed(lib, Sample(seq(32, _ => '\U{1F600}'), JBool(false)));
  }

  /** A 63-character hash is refused, so every decoder throws. */
  lemma ShortHashRefused(lib: Collaborators)
    ensures !WellFormed(lib, Sample(seq(63, _ => '0'), JBool(true)))
    ensures !IsValid(lib, Sample(seq(63, _ => '0'), JBool(true)))
    ensures JobID(lib, Sample(seq(63, _ => '0'), JBool(true))) == Err(InvalidNotify)
  {
    JsLengthBmp(seq(63, _ => '0'));
  }

  /** The string "true" is not the boolean true. */
  lemma StringFlagRefused(lib: Collaborators)
    ensures !IsValid(lib, Sample(seq(64, _ => '0'), JString("true")))
  {
  }
}
