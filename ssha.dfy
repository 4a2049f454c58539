/**
  The salted SHA-1 credential stored in `userPassword` (src/lib.rs:48-59):
  the tag `{SSHA}` followed by the Base64 of the 20-octet SHA-1 digest of
  `password ‖ salt` and then the 4-octet salt.

  SHA-1 itself (FIPS 180-4) is not modelled: it enters as a function value
  of type `Sha1Fn` that maps any octets to 20 octets. The salt, drawn from
  `rand::thread_rng` in the source, enters as a parameter.
 */
module Ssha {
  import opened Prelude
  import Base64
  import Utf8

  type Digest = d: seq<byte> | |d| == 20
    witness [0, 0, 0, 0, 0, 0, 0, 0, 0, 0, 0, 0, 0, 0, 0, 0, 0, 0, 0, 0]

  type Salt = s: seq<byte> | |s| == 4 witness [0, 0, 0, 0]

  /** A SHA-1 implementation. */
  type Sha1Fn = seq<byte> -> Digest

  const Tag: string := "{SSHA}"

  /** The octets that follow the tag: the digest of `password ‖ salt`, then the salt. */
  function Payload(sha1: Sha1Fn, password: string, salt: Salt): (p: seq<byte>)
    ensures |p| == 24
    ensures p[..20] == sha1(Utf8.Encode(password) + salt) && p[20..] == salt
  {
    sha1(Utf8.Encode(password) + salt) + salt
  }

  /** The stored credential for `password` under `salt`. */
  function SshaValue(sha1: Sha1Fn, password: string, salt: Salt): (r: string)
    ensures |r| == 38 && r[..6] == Tag
    ensures forall i :: 6 <= i < 38 ==> Base64.IsAlphabetChar(r[i])
    ensures Base64.Decode(r[6..]) == Some(Payload(sha1, password, salt))
  {
    var p := Payload(sha1, password, salt);
    var e := Base64.Encode(p);
    Base64.DecodeEncode(p);
    assert |e| == 32;
    assert (Tag + e)[6..] == e;
    Tag + e
  }

  /**
    The check an SSHA consumer (the directory server, on a bind) applies:
    split the decoded value into a 20-octet digest and a salt, and compare the
    digest with that of `candidate ‖ salt`.
   */
  predicate SshaMatches(sha1: Sha1Fn, candidate: string, stored: string)
  {
    && |stored| >= 6 && stored[..6] == Tag
    && match Base64.Decode(stored[6..])
       case None => false
       case Some(p) => |p| >= 20 && p[..20] == sha1(Utf8.Encode(candidate) + p[20..])
  }

  /**
    A credential accepts exactly the passwords whose salted digest equals that
    of the password it was made from; in particular it accepts that password.
   */
  lemma SshaMatchesExactly(sha1: Sha1Fn, password: string, salt: Salt, candidate: string)
    ensures SshaMatches(sha1, candidate, SshaValue(sha1, password, salt)) <==>
            sha1(Utf8.Encode(candidate) + salt) == sha1(Utf8.Encode(password) + salt)
    ensures SshaMatches(sha1, password, SshaValue(sha1, password, salt))
  {
    var p := Payload(sha1, password, salt);
    assert p[..20] == sha1(Utf8.Encode(password) + salt) && p[20..] == salt;
  }

  /** The salt and the digest can be read back from a credential, so two credentials made under different salts differ. */
  lemma SshaDeterminesSalt(sha1: Sha1Fn, pw1: string, s1: Salt, pw2: string, s2: Salt)
    requires SshaValue(sha1, pw1, s1) == SshaValue(sha1, pw2, s2)
    ensures s1 == s2
    ensures sha1(Utf8.Encode(pw1) + s1) == sha1(Utf8.Encode(pw2) + s2)
  {
    var p1, p2 := Payload(sha1, pw1, s1), Payload(sha1, pw2, s2);
    assert Some(p1) == Some(p2);
    assert p1[20..] == s1 && p2[20..] == s2;
  }

  /** The running state of a `Sha1` hasher: it digests everything given to `Update` so far. */
  class Sha1Hasher {
    const sha1: Sha1Fn
    var absorbed: seq<byte>

    constructor (sha1: Sha1Fn)
      ensures this.sha1 == sha1 && absorbed == []
    {
      this.sha1 := sha1;
      absorbed := [];
    }

    method Update(data: seq<byte>)
      modifies this
      ensures absorbed == old(absorbed) + data
    {
      absorbed := absorbed + data;
    }

    method Finalize() returns (d: Digest)
      ensures d == sha1(absorbed)
    {
      d := sha1(absorbed);
    }
  }

  /**
    `generate_ssha`: feed the password's octets and then the salt to a fresh
    hasher, append the salt to the digest, Base64 the 24 octets and put the tag
    in front.
   */
  method GenerateSsha(sha1: Sha1Fn, password: string, salt: Salt) returns (ssha: string)
    ensures ssha == SshaValue(sha1, password, salt)
  {
    var sha := new Sha1Hasher(sha1);
    sha.Update(Utf8.Encode(password));
    sha.Update(salt);
    var hashedPassword := sha.Finalize();
    assert sha.absorbed == Utf8.Encode(password) + salt;
    var buffer: seq<byte> := [];
    buffer := buffer + hashedPassword;
    buffer := buffer + salt;
    assert buffer == Payload(sha1, password, salt);
    ssha := Tag + Base64.Encode(buffer);
  }
}
