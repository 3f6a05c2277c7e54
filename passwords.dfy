/**
 * The stored password-hash format `pbkdf2_sha256$<iterations>$<salt>$<hash>`
 * written by `hash_password` and read back by `verify_password`.
 *
 * PBKDF2-HMAC-SHA256 and base64 are library code and are given here as
 * uninterpreted functions in a `Primitives` value; the random salt is a
 * parameter. Only the text format, the argument checks of
 * `hashlib.pbkdf2_hmac` and the control flow around them are modelled.
 */
module Passwords {
  import opened Wrappers
  import opened Text

  newtype byte = x: int | 0 <= x < 256

  const Algorithm: string := "pbkdf2_sha256"
  const Separator: char := '$'
  const DefaultIterations: int := 120000
  const SaltLength: nat := 16
  const KeyLength: nat := 32
  /** The largest C `int`: `hashlib.pbkdf2_hmac` raises `OverflowError` above it. */
  const IntMax: int := 0x7fff_ffff

  /** The library functions the hashing relies on. */
  datatype Primitives = Primitives(
    /** `hashlib.pbkdf2_hmac("sha256", password.encode("utf-8"), salt, iterations, dklen)` on arguments it accepts. */
    pbkdf2: (string, seq<byte>, int, int) -> seq<byte>,
    /** `base64.b64encode(data).decode("ascii")`. */
    b64encode: seq<byte> -> string,
    /** `base64.b64decode(text.encode("ascii"))`; `None` when the encoding or the decoding raises `ValueError`. */
    b64decode: string -> Option<seq<byte>>)

  /** `hashlib.pbkdf2_hmac` raises `ValueError` for a count or length below 1 and `OverflowError` above `IntMax`. */
  predicate Pbkdf2Accepts(iterations: int, dklen: int) {
    1 <= iterations <= IntMax && 1 <= dklen <= IntMax
  }

  /** Why `hash_password` raises. */
  datatype HashError = PasswordRequired | Pbkdf2Rejected

  /** The f-string `pbkdf2_sha256${iterations}${salt_b64}${hash_b64}`. */
  function FormatHash(iterations: int, saltB64: string, hashB64: string): string {
    Algorithm + [Separator] + IntToString(iterations) + [Separator] + saltB64 + [Separator] + hashB64
  }

  /**
   * `hash_password(password, iterations)` with the salt drawn by
   * `secrets.token_bytes(16)` given as `salt`. An empty password is
   * refused; an iteration count `pbkdf2_hmac` refuses makes it raise.
   */
  function HashPassword(password: string, iterations: int, salt: seq<byte>, c: Primitives): (r: Result<string, HashError>)
    ensures r.Failure? <==> password == [] || !(1 <= iterations <= IntMax)
    ensures password == [] ==> r == Failure(PasswordRequired)
  {
    if password == [] then Failure(PasswordRequired)
    else if !Pbkdf2Accepts(iterations, KeyLength) then Failure(Pbkdf2Rejected)
    else
      var key := c.pbkdf2(password, salt, iterations, KeyLength);
      Success(FormatHash(iterations, c.b64encode(salt), c.b64encode(key)))
  }

  /** The three decoded fields of a stored hash. */
  datatype StoredHash = StoredHash(iterations: int, salt: seq<byte>, expected: seq<byte>)

  /** The part of `verify_password` before the hashing: split, check the tag, parse the count, decode salt and hash. */
  function ParseStoredHash(stored: string, c: Primitives): Option<StoredHash> {
    var parts := Split(stored, Separator);
    if |parts| != 4 || parts[0] != Algorithm then None
    else
      match (PyInt(parts[1]), c.b64decode(parts[2]), c.b64decode(parts[3]))
      case (Some(n), Some(salt), Some(expected)) => Some(StoredHash(n, salt, expected))
      case _ => None
  }

  /** What a call of `verify_password` does: return a boolean, or let an exception escape. */
  datatype VerifyOutcome = Returned(ok: bool) | Raised

  /**
   * `verify_password` as written: the call of `pbkdf2_hmac` sits after the
   * `try` block, so a stored count outside 1..IntMax or an empty decoded
   * hash (`dklen=0`) raises instead of returning `False`.
   */
  function VerifyPasswordAsWritten(password: string, stored: string, c: Primitives): (r: VerifyOutcome)
    ensures r == Returned(true) ==> password != [] && var parts := Split(stored, Separator); |parts| == 4 && parts[0] == Algorithm
    ensures r.Raised? <==> (password != [] && stored != [] && ParseStoredHash(stored, c).Some? &&
      !Pbkdf2Accepts(ParseStoredHash(stored, c).value.iterations, |ParseStoredHash(stored, c).value.expected|))
  {
    if password == [] || stored == [] then Returned(false)
    else
      match ParseStoredHash(stored, c)
      case None => Returned(false)
      case Some(h) =>
        if !Pbkdf2Accepts(h.iterations, |h.expected|) then Raised
        else Returned(c.pbkdf2(password, h.salt, h.iterations, |h.expected|) == h.expected)
  }

  /**
   * `verify_password` as its documentation promises: `False` for every bad
   * format, including counts and hash lengths `pbkdf2_hmac` refuses.
   */
  function VerifyPassword(password: string, stored: string, c: Primitives): (ok: bool)
    ensures ok ==> password != [] && stored != []
    ensures ok ==> var parts := Split(stored, Separator); |parts| == 4 && parts[0] == Algorithm
  {
    if password == [] || stored == [] then false
    else
      match ParseStoredHash(stored, c)
      case None => false
      case Some(h) =>
        Pbkdf2Accepts(h.iterations, |h.expected|) && c.pbkdf2(password, h.salt, h.iterations, |h.expected|) == h.expected
  }

  /** A hash in the stored format splits back into its tag, count, salt and hash. */
  lemma FormatHashSplits(iterations: int, saltB64: string, hashB64: string)
    requires Separator !in saltB64 && Separator !in hashB64
    ensures Split(FormatHash(iterations, saltB64, hashB64), Separator) == [Algorithm, IntToString(iterations), saltB64, hashB64]
  {
    var n := IntToString(iterations);
    var tail := saltB64 + [Separator] + hashB64;
    var middle := n + [Separator] + tail;
    assert FormatHash(iterations, saltB64, hashB64) == Algorithm + [Separator] + middle;
    assert Split(tail, Separator) == [saltB64, hashB64] by {
      SplitConcat(saltB64, Separator, hashB64);
      SplitNoSeparator(saltB64, Separator);
      SplitNoSeparator(hashB64, Separator);
    }
    assert Split(middle, Separator) == [n] + Split(tail, Separator) by {
      SplitConcat(n, Separator, tail);
      assert Separator !in n;
      SplitNoSeparator(n, Separator);
    }
    assert Split(Algorithm + [Separator] + middle, Separator) == [Algorithm] + Split(middle, Separator) by {
      SplitConcat(Algorithm, Separator, middle);
      AlgorithmHasNoSeparator();
    }
  }

  lemma AlgorithmHasNoSeparator()
    ensures Split(Algorithm, Separator) == [Algorithm]
  {
    assert forall i :: 0 <= i < |Algorithm| ==> Algorithm[i] != Separator;
    SplitNoSeparator(Algorithm, Separator);
  }

  /** A hash written in the stored format parses back to its count, salt and key. */
  lemma ParseFormatted(iterations: int, salt: seq<byte>, key: seq<byte>, c: Primitives)
    requires c.b64decode(c.b64encode(salt)) == Some(salt) && c.b64decode(c.b64encode(key)) == Some(key)
    requires Separator !in c.b64encode(salt) && Separator !in c.b64encode(key)
    ensures ParseStoredHash(FormatHash(iterations, c.b64encode(salt), c.b64encode(key)), c) == Some(StoredHash(iterations, salt, key))
  {
    FormatHashSplits(iterations, c.b64encode(salt), c.b64encode(key));
    IntToStringRoundTrip(iterations);
  }

  /** A password verifies against the hash made from it, given that base64 decodes what it encodes and never writes `$`. */
  lemma HashThenVerify(password: string, iterations: int, salt: seq<byte>, c: Primitives)
    requires password != [] && 1 <= iterations <= IntMax
    requires var key := c.pbkdf2(password, salt, iterations, KeyLength);
      && |key| == KeyLength
      && c.b64decode(c.b64encode(salt)) == Some(salt)
      && c.b64decode(c.b64encode(key)) == Some(key)
      && Separator !in c.b64encode(salt) && Separator !in c.b64encode(key)
    ensures HashPassword(password, iterations, salt, c).Success?
    ensures VerifyPassword(password, HashPassword(password, iterations, salt, c).value, c)
    ensures VerifyPasswordAsWritten(password, HashPassword(password, iterations, salt, c).value, c) == Returned(true)
  {
    var key := c.pbkdf2(password, salt, iterations, KeyLength);
    assert HashPassword(password, iterations, salt, c) == Success(FormatHash(iterations, c.b64encode(salt), c.b64encode(key)));
    ParseFormatted(iterations, salt, key, c);
  }

  /**
   * `hash_password(password)` with its default count of 120 000 rounds and
   * a 16-byte salt succeeds, and the password verifies against the result.
   */
  lemma DefaultHashVerifies(password: string, salt: seq<byte>, c: Primitives)
    requires password != [] && |salt| == SaltLength
    requires var key := c.pbkdf2(password, salt, DefaultIterations, KeyLength);
      && |key| == KeyLength
      && c.b64decode(c.b64encode(salt)) == Some(salt)
      && c.b64decode(c.b64encode(key)) == Some(key)
      && Separator !in c.b64encode(salt) && Separator !in c.b64encode(key)
    ensures HashPassword(password, DefaultIterations, salt, c).Success?
    ensures VerifyPassword(password, HashPassword(password, DefaultIterations, salt, c).value, c)
  {
    HashThenVerify(password, DefaultIterations, salt, c);
  }

  /** Another password verifies against that hash exactly when PBKDF2 maps it to the same key. */
  lemma VerifyOtherPassword(password: string, other: string, iterations: int, salt: seq<byte>, c: Primitives)
    requires password != [] && other != [] && 1 <= iterations <= IntMax
    requires var key := c.pbkdf2(password, salt, iterations, KeyLength);
      && |key| == KeyLength
      && c.b64decode(c.b64encode(salt)) == Some(salt)
      && c.b64decode(c.b64encode(key)) == Some(key)
      && Separator !in c.b64encode(salt) && Separator !in c.b64encode(key)
    ensures HashPassword(password, iterations, salt, c).Success?
    ensures VerifyPassword(other, HashPassword(password, iterations, salt, c).value, c) <==>
      c.pbkdf2(other, salt, iterations, KeyLength) == c.pbkdf2(password, salt, iterations, KeyLength)
  {
    var key := c.pbkdf2(password, salt, iterations, KeyLength);
    assert HashPassword(password, iterations, salt, c) == Success(FormatHash(iterations, c.b64encode(salt), c.b64encode(key)));
    ParseFormatted(iterations, salt, key, c);
  }

  /** Stored text without a `$` is not in the stored format: it never verifies and never raises. */
  lemma GarbageNeverVerifies(password: string, stored: string, c: Primitives)
    requires Separator !in stored
    ensures VerifyPasswordAsWritten(password, stored, c) == Returned(false)
    ensures !VerifyPassword(password, stored, c)
  {
    SplitNoSeparator(stored, Separator);
  }

  /** Where the as-written check returns, the corrected one returns the same; it also returns `false` wherever the as-written one raises. */
  lemma CorrectedAgreesWhereDefined(password: string, stored: string, c: Primitives)
    ensures VerifyPasswordAsWritten(password, stored, c).Returned? ==>
      VerifyPassword(password, stored, c) == VerifyPasswordAsWritten(password, stored, c).ok
    ensures VerifyPasswordAsWritten(password, stored, c).Raised? ==> !VerifyPassword(password, stored, c)
  {
  }

  /** The stored text `pbkdf2_sha256$0$$` has a well-formed shape but an iteration count of zero. */
  const ZeroIterationHash: string := "pbkdf2_sha256$0$$"

  /** On `pbkdf2_sha256$0$$` the as-written check raises (base64 decodes "" to no bytes), while the corrected one returns false. */
  lemma ZeroIterationHashRaises(password: string, c: Primitives)
    requires password != []
    requires c.b64decode("") == Some([])
    ensures VerifyPasswordAsWritten(password, ZeroIterationHash, c) == Raised
    ensures !VerifyPassword(password, ZeroIterationHash, c)
  {
    assert ZeroIterationHash == FormatHash(0, "", "");
    FormatHashSplits(0, "", "");
    IntToStringRoundTrip(0);
    assert ParseStoredHash(ZeroIterationHash, c) == Some(StoredHash(0, [], []));
  }
}
