/**
 * The two operations of a Node `Buffer` that the codec relies on and whose
 * behaviour is fixed by Node itself: `buffer.reverse()` and
 * `buffer.toString('hex')`.
 */
module NodeBuffer {
  import opened Boost

  /** The bytes of `s` in the opposite order. */
  function Reversed(s: seq<byte>): (r: seq<byte>)
  {
    if s == [] then [] else Reversed(s[1..]) + [s[0]]
  }

  lemma {:induction false} ReversedAt(s: seq<byte>, k: nat)
    requires k < |s|
    ensures |Reversed(s)| == |s| && Reversed(s)[k] == s[|s| - 1 - k]
  {
    if |s| > 1 {
      ReversedAt(s[1..], if k < |s| - 1 then k else 0);
    }
  }

  lemma {:induction false} ReversedLength(s: seq<byte>)
    ensures |Reversed(s)| == |s|
  {
    if s != [] {
      ReversedAt(s, 0);
    }
  }

  /** Reversing twice gives back the original bytes. */
  lemma ReversedInvolutive(s: seq<byte>)
    ensures Reversed(Reversed(s)) == s
  {
    var r := Reversed(s);
    ReversedLength(s);
    ReversedLength(r);
    forall k | 0 <= k < |s|
      ensures Reversed(r)[k] == s[k]
    {
      ReversedAt(r, k);
      ReversedAt(s, |s| - 1 - k);
    }
  }

  /** `buffer.reverse()`: reverses the buffer in place. */
  method Reverse(a: array<byte>)
    modifies a
    ensures a[..] == Reversed(old(a[..]))
  {
    var n, i := a.Length, 0;
    while i < n / 2
      invariant 0 <= i <= n / 2
      invariant forall k :: 0 <= k < i ==> a[k] == old(a[n - 1 - k]) && a[n - 1 - k] == old(a[k])
      invariant forall k :: i <= k < n - i ==> a[k] == old(a[k])
    {
      a[i], a[n - 1 - i] := a[n - 1 - i], a[i];
      i := i + 1;
    }
    ghost var was := old(a[..]);
    ReversedLength(was);
    forall k | 0 <= k < n
      ensures a[..][k] == Reversed(was)[k]
    {
      ReversedAt(was, k);
    }
  }

  const LowerDigits := "0123456789abcdef"

  function HexDigit(n: int): (c: char)
    requires 0 <= n < 16
  {
    LowerDigits[n]
  }

  /**
   * `buffer.toString('hex')`: two lower-case hex digits per byte, high
   * nibble first, bytes in memory order.
   */
  function ToHex(b: seq<byte>): (h: string)
    ensures |h| == 2 * |b|
    ensures forall i | 0 <= i < |h| :: h[i] in LowerDigits
  {
    if b == [] then "" else [HexDigit(b[0] / 16), HexDigit(b[0] % 16)] + ToHex(b[1..])
  }
}
