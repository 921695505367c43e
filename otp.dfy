/** One-time codes (`otp.py`): six-digit codes, their salted SHA-256 and their expiry.
    The random draw is a parameter: `GenerateCode(n)` is the code for the number
    `secrets.randbelow(1000000)` returned. */
module Otp {
  import opened Wrappers
  import Text
  import Decimal
  import Db

  /** The number of distinct codes. */
  const CodeSpace: nat := 1000000

  const VerifyPurpose: string := "verify_email"
  const ResetPurpose: string := "reset_password"

  /** `generate_code()` for the drawn number `n`: exactly six decimal digits, from which
      the number is read back. */
  function GenerateCode(n: nat): (code: string)
    requires n < CodeSpace
    ensures |code| == 6 && Decimal.AllDigits(code)
    ensures Decimal.ParseNat(code) == Some(n)
  {
    assert Decimal.Pow10(6) == CodeSpace;
    Decimal.ZeroPadProperties(n, 6);
    Decimal.ZeroPad(n, 6)
  }

  /** Distinct draws give distinct codes. */
  lemma GenerateCodeInjective(m: nat, n: nat)
    requires m < CodeSpace && n < CodeSpace
    ensures GenerateCode(m) == GenerateCode(n) <==> m == n
  {
    if GenerateCode(m) == GenerateCode(n) {
      assert Decimal.ParseNat(GenerateCode(m)) == Some(m);
    }
  }

  /** The text that is hashed: the lower-cased e-mail, the purpose, the code and the pepper. */
  function Preimage(email: string, purpose: string, code: string, pepper: string): string {
    Text.Lower(email) + "|" + purpose + "|" + code + "|" + pepper
  }

  /** `code_hash(email, purpose, code, pepper)`. */
  function CodeHash(email: string, purpose: string, code: string, pepper: string): (h: Db.Digest)
    ensures h.input == Preimage(email, purpose, code, pepper)
  {
    Db.Sha256(Preimage(email, purpose, code, pepper))
  }

  /** The hash does not depend on the letter case of the e-mail. */
  lemma CodeHashIgnoresCase(email: string, purpose: string, code: string, pepper: string)
    ensures CodeHash(Text.Lower(email), purpose, code, pepper) == CodeHash(email, purpose, code, pepper)
  {
    Text.LowerIdempotent(email);
  }

  /** For one e-mail (in any case), purpose and pepper, two codes hash alike exactly when
      they are the same code: a code is accepted only if it is the one that was sent. */
  lemma {:induction false} CodeHashMatches(e1: string, e2: string, purpose: string, c1: string, c2: string, pepper: string)
    requires Text.Lower(e1) == Text.Lower(e2)
    ensures CodeHash(e1, purpose, c1, pepper) == CodeHash(e2, purpose, c2, pepper) <==> c1 == c2
  {
    var a := Text.Lower(e1) + "|" + purpose + "|";
    var b := "|" + pepper;
    assert Preimage(e1, purpose, c1, pepper) == a + c1 + b;
    assert Preimage(e2, purpose, c2, pepper) == a + c2 + b;
    if a + c1 + b == a + c2 + b {
      assert |c1| == |c2|;
      assert c1 == (a + c1 + b)[|a|..|a| + |c1|];
      assert c2 == (a + c2 + b)[|a|..|a| + |c2|];
    }
  }

  /** A code mailed for e-mail verification never passes as a password-reset code, and
      the other way round, whatever the two codes are. */
  lemma PurposesSeparate(email: string, c1: string, c2: string, pepper: string)
    ensures CodeHash(email, VerifyPurpose, c1, pepper) != CodeHash(email, ResetPurpose, c2, pepper)
  {
    var l := Text.Lower(email);
    var p1 := Preimage(email, VerifyPurpose, c1, pepper);
    var p2 := Preimage(email, ResetPurpose, c2, pepper);
    assert p1[|l| + 1] == 'v';
    assert p2[|l| + 1] == 'r';
  }

  /** The default lifetime of a code, in minutes. */
  const DefaultMinutes: int := 10

  /** `expires_in(minutes)` at the time `now` (seconds). */
  function ExpiresIn(now: int, minutes: int): (t: int)
    ensures minutes >= 0 ==> t >= now
    ensures minutes > 0 ==> t > now
  {
    now + minutes * 60
  }
}
