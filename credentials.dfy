/**
 * The syntactic screening of a login request: the username shape and the
 * client version, checked in that order before any account is looked up.
 */
module Credentials {
  import opened Wrappers
  import opened Text

  const MaxUsernameLength: nat := 20

  /** The reserved name of the (unused) guest login. */
  const ReservedUsername: string := "Anonymous"

  /** The only client version the server accepts. */
  const SupportedVersion: string := "1.0.1.14"

  /** The username is not null, not whitespace only, at most 20 UTF-16 code
      units long and not the reserved guest name. */
  predicate ValidUsername(username: Option<string>) {
    && !IsNullOrWhiteSpace(username)
    && Length(username.value) <= MaxUsernameLength
    && username.value != ReservedUsername
  }

  /** The version field equals the supported version exactly (a null field
      never does). */
  predicate SupportedClientVersion(version: Option<string>) {
    version == Some(SupportedVersion)
  }

  /** The username rule, phrased with `Trim`: non-empty after trimming, at
      most 20 code units, not the reserved name. */
  lemma ValidUsernameByTrim(username: string)
    ensures ValidUsername(Some(username)) <==>
      Trim(username) != [] && Length(username) <= MaxUsernameLength && username != ReservedUsername
  {
    WhiteSpaceIffTrimmedEmpty(username);
  }

  /** Each way a username can be refused, on its own. */
  lemma RefusedUsernames(username: Option<string>)
    ensures username.None? ==> !ValidUsername(username)
    ensures username.Some? && AllWhiteSpace(username.value) ==> !ValidUsername(username)
    ensures username.Some? && |username.value| > MaxUsernameLength ==> !ValidUsername(username)
    ensures username == Some(ReservedUsername) ==> !ValidUsername(username)
  {
  }

  /** A name of at most ten characters never fails the length rule, whatever
      characters it holds; longer names may, through surrogate pairs. */
  lemma ShortUsernamesPassLength(username: string)
    requires |username| <= MaxUsernameLength / 2
    ensures Length(username) <= MaxUsernameLength
  {
  }

  /** Eleven characters from outside the Basic Multilingual Plane are 22
      UTF-16 code units: the length rule refuses them although there are only
      eleven characters. */
  lemma SurrogatePairsCountTwice()
    ensures !ValidUsername(Some(seq(11, _ => '\U{1F600}')))
  {
    var s := seq(11, _ => '\U{1F600}');
    assert s == [s[0]] + s[1..];
    LengthOfAstralText(s);
  }

  lemma {:induction false} LengthOfAstralText(s: string)
    requires forall i :: 0 <= i < |s| ==> s[i] as int >= 0x1_0000
    ensures Length(s) == 2 * |s|
  {
    if s != [] {
      assert s[0] as int >= 0x1_0000;
      LengthOfAstralText(s[1..]);
    }
  }
}
