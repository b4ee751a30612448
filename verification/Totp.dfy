/** Time-based one-time passwords (internal/totp/totp.go): HOTP truncation as in section 5.3 of
    RFC 4226, verification within one step of drift as in section 5.2 of RFC 6238. HMAC-SHA-1 and
    the secret's base32 decoding are the `Mac`'s uninterpreted functions. */
module Totp {
  import opened Decimals

  const STEP_SECONDS := 30
  const DIGITS := 1_000_000
  const U64: nat := 0x1_0000_0000_0000_0000

  newtype byte = n: int | 0 <= n < 256

  /** An HMAC-SHA-1 result. */
  type Sum = s: seq<byte> | |s| == 20 witness seq(20, _ => 0)

  /** Unix seconds of a clock reading, as a non-negative int64. */
  type Unix = n: int | 0 <= n < 0x8000_0000_0000_0000

  datatype Mac = Mac(decodes: string -> bool, sum: (string, nat) -> Sum)

  function StepOf(t: Unix): nat { t / STEP_SECONDS }

  /** Dynamic truncation: four bytes at the offset named by the last nibble, without the sign bit.
      The offset always leaves four bytes inside the sum. */
  function Truncated(sum: Sum): (v: nat)
    ensures v < 0x8000_0000
  {
    var offset := (sum[19] as int) % 16;
    var word := ((sum[offset] as int * 256 + sum[offset + 1] as int) * 256 + sum[offset + 2] as int) * 256
                + sum[offset + 3] as int;
    word % 0x8000_0000
  }

  /** The worked example of section 5.4 of RFC 4226: the last nibble of the sum is 10, the four bytes from
      there are 50 ef 7f 19, and the code is 872921. */
  lemma WorkedExample(sum: Sum)
    requires sum[19] == 0x5a && sum[10..14] == [0x50, 0xef, 0x7f, 0x19]
    ensures Truncated(sum) == 0x50ef7f19 && Hotp(sum) == "872921"
  {
    assert sum[10] == sum[10..14][0] && sum[11] == sum[10..14][1] && sum[12] == sum[10..14][2] && sum[13] == sum[10..14][3];
    assert 0x50ef7f19 % DIGITS == 872921;
    PaddedDigits();
  }

  lemma PaddedDigits()
    ensures Padded(872921, 6) == "872921"
  {
    assert Padded(8, 1) == "8" && Padded(87, 2) == "87" && Padded(872, 3) == "872";
    assert Padded(8729, 4) == "8729" && Padded(87292, 5) == "87292";
  }

  /** Any four bytes count, the first without its sign bit and the most significant. */
  lemma TruncationReadsFourBytes(sum: Sum, at: nat, a: nat, b: nat, c: nat, d: nat)
    requires at < 16 && sum[19] as int % 16 == at && a < 256
    requires sum[at] as int == a && sum[at + 1] as int == b && sum[at + 2] as int == c && sum[at + 3] as int == d
    ensures Truncated(sum) == (a % 128) * 0x100_0000 + b * 0x1_0000 + c * 0x100 + d
  {
  }

  /** Steps are counted in spans of thirty seconds from the epoch. */
  lemma StepsAreHalfMinutes(t: Unix)
    ensures StepOf(t) * 30 <= t < (StepOf(t) + 1) * 30
  {
  }

  function Hotp(sum: Sum): (code: string)
    ensures |code| == 6
  {
    Padded(Truncated(sum) % DIGITS, 6)
  }

  /** A code is six decimal digits, and they denote the truncated value modulo 10^6: no two
      different values share a code. */
  lemma HotpIsTheValueInSixDigits(sum: Sum)
    ensures |Hotp(sum)| == 6
    ensures Value(Hotp(sum)) == Truncated(sum) % DIGITS
  {
    assert Pow10(6) == DIGITS by {
      assert Pow10(1) == 10 && Pow10(2) == 100 && Pow10(3) == 1000 && Pow10(4) == 10000 && Pow10(5) == 100000;
    }
    PaddedValue(Truncated(sum) % DIGITS, 6);
  }

  function Code(m: Mac, secret: string, step: nat): string { Hotp(m.sum(secret, step)) }

  datatype Match = NoMatch | Matched(step: nat)

  /** The step before, in uint64 arithmetic. */
  function Before(step: nat): nat { if step == 0 then U64 - 1 else step - 1 }

  function Verify(m: Mac, secret: string, code: string, t: Unix): (r: Match)
    ensures r.Matched? ==> m.decodes(secret) && code == Code(m, secret, r.step)
    ensures r.Matched? ==> r.step in {StepOf(t), Before(StepOf(t)), StepOf(t) + 1}
  {
    var current := StepOf(t);
    if !m.decodes(secret) || |code| != 6 then NoMatch
    else if code == Code(m, secret, current) then Matched(current)
    else if code == Code(m, secret, Before(current)) then Matched(Before(current))
    else if code == Code(m, secret, current + 1) then Matched(current + 1)
    else NoMatch
  }

  /** Verification accepts exactly the codes of the three steps around now, and prefers the current
      step whatever other steps share its code. */
  lemma VerifyAcceptsTheDriftWindow(m: Mac, secret: string, code: string, t: Unix)
    requires m.decodes(secret)
    ensures Verify(m, secret, code, t).Matched? <==>
              code in {Code(m, secret, StepOf(t)), Code(m, secret, Before(StepOf(t))), Code(m, secret, StepOf(t) + 1)}
    ensures Verify(m, secret, Code(m, secret, StepOf(t)), t) == Matched(StepOf(t))
  {
  }
}
