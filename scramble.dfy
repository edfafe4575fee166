/**
 * The scrambled challenge name (`scramble` in create-challenge.py).
 *
 * The name is the SHA-1 hex digest of the plaintext
 * `user_id + salt + project_number + captcha_text`.  SHA-1 itself (FIPS 180-4)
 * is not modelled: the digest is an injected `Hasher`, any deterministic map
 * from the plaintext to 40 lower-case hexadecimal characters.
 */
module Scrambler {

  predicate IsHexDigit(c: char) {
    '0' <= c <= '9' || 'a' <= c <= 'f'
  }

  /** What `hexdigest()` of a SHA-1 object returns: 40 lower-case hex digits. */
  type Digest = s: string | |s| == 40 && forall i :: 0 <= i < |s| ==> IsHexDigit(s[i])
    witness "0000000000000000000000000000000000000000"

  /** SHA-1 over the UTF-8 encoding of a string, left uninterpreted. */
  type Hasher = string -> Digest

  /** The batch context: every part of the plaintext except the answer. */
  datatype Context = Context(userId: string, salt: string, projectNumber: string)

  /** The text that is hashed.  The parameters come in the source's parameter order. */
  function Plaintext(captchaText: string, userId: string, salt: string, projectNumber: string): string {
    userId + salt + projectNumber + captchaText
  }

  function Scramble(sha1: Hasher, captchaText: string, userId: string, salt: string, projectNumber: string): Digest {
    sha1(Plaintext(captchaText, userId, salt, projectNumber))
  }

  /** The name of an answer within a batch context. */
  function Name(sha1: Hasher, captchaText: string, ctx: Context): Digest {
    Scramble(sha1, captchaText, ctx.userId, ctx.salt, ctx.projectNumber)
  }

  /**
   * The plaintext lays out user id, salt, project number and answer in that
   * order, one after the other with no delimiter, although the answer is the
   * first parameter.
   */
  lemma PlaintextLayout(captchaText: string, userId: string, salt: string, projectNumber: string)
    ensures var p := Plaintext(captchaText, userId, salt, projectNumber);
            var a, b, c := |userId|, |userId| + |salt|, |userId| + |salt| + |projectNumber|;
            && |p| == c + |captchaText|
            && p[..a] == userId
            && p[a..b] == salt
            && p[b..c] == projectNumber
            && p[c..] == captchaText
  {
    var p := Plaintext(captchaText, userId, salt, projectNumber);
    var a, b, c := |userId|, |userId| + |salt|, |userId| + |salt| + |projectNumber|;
    assert p == ((userId + salt) + projectNumber) + captchaText;
    assert p[..c] == (userId + salt) + projectNumber;
    assert p[..b] == userId + salt by { assert p[..b] == p[..c][..b]; }
    assert p[a..b] == p[..b][a..];
    assert p[b..c] == p[..c][b..];
  }

  /** The name depends on nothing but the plaintext: equal plaintexts, equal names. */
  lemma NameDependsOnlyOnPlaintext(sha1: Hasher,
                                   t1: string, u1: string, s1: string, p1: string,
                                   t2: string, u2: string, s2: string, p2: string)
    requires Plaintext(t1, u1, s1, p1) == Plaintext(t2, u2, s2, p2)
    ensures Scramble(sha1, t1, u1, s1, p1) == Scramble(sha1, t2, u2, s2, p2)
  {
  }

  /**
   * Within one batch context the plaintext determines the answer, so two
   * different answers can share a name only through a digest collision.
   */
  lemma {:induction false} PlaintextDeterminesAnswer(t1: string, t2: string, ctx: Context)
    requires Plaintext(t1, ctx.userId, ctx.salt, ctx.projectNumber)
          == Plaintext(t2, ctx.userId, ctx.salt, ctx.projectNumber)
    ensures t1 == t2
  {
    var prefix := ctx.userId + ctx.salt + ctx.projectNumber;
    assert Plaintext(t1, ctx.userId, ctx.salt, ctx.projectNumber) == prefix + t1;
    assert Plaintext(t2, ctx.userId, ctx.salt, ctx.projectNumber) == prefix + t2;
    assert t1 == (prefix + t1)[|prefix|..];
    assert t2 == (prefix + t2)[|prefix|..];
  }

  /**
   * With no delimiter, the boundary between user id and salt is not part of
   * the plaintext: moving characters across it keeps the name.
   */
  lemma UserIdSaltBoundaryIsNotHashed(sha1: Hasher, t: string, u1: string, s1: string, u2: string, s2: string, p: string)
    requires u1 + s1 == u2 + s2
    ensures Scramble(sha1, t, u1, s1, p) == Scramble(sha1, t, u2, s2, p)
  {
    assert Plaintext(t, u1, s1, p) == (u1 + s1) + p + t;
    assert Plaintext(t, u2, s2, p) == (u2 + s2) + p + t;
  }

  /** The answer, passed first, is hashed last. */
  lemma AnswerIsHashedLast()
    ensures Plaintext("t", "u", "s", "p") == "uspt"
  {
  }
}
