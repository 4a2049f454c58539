# Directory account manager: a Dafny model

This project models the locally decided logic of a thin LDAP client for
POSIX accounts: `src/lib.rs` of the repository. The client connects to a
directory server, binds as an administrator, and then creates, searches,
re-passwords, deletes and authenticates user entries. The network work is
done by the `ldap3` crate. What the client decides for itself, and what the
model covers, comes in four parts:

- **Entry names.** A user's entry is named `uid=<uid>,ou=<unit>,<base_dn>`.
  The name is built by plain concatenation, with no escaping. `Groups`
  prints as `People`, `Group` or `Other` (module `Dn`).
- **Stored credentials.** `generate_ssha` builds `{SSHA}` followed by the
  standard Base64 (section 4 of RFC 4648) of the 20-octet SHA-1 digest of
  `password ‖ salt` and then the 4-octet salt. The password's octets are its
  UTF-8 encoding (RFC 3629). Modules `Ssha`, `Base64` and `Utf8` cover this.
  SHA-1 is a function value of type `Ssha.Sha1Fn`, and the salt is a
  parameter.
- **The account's attributes.** `add_user` sends twelve attributes, and each
  value list becomes a set (module `Attributes`).
- **Operation sequencing.** The `Ldap` methods (module `Client`) drive a
  connection (module `Session`). The connection records every request it
  carries. The server's reply to each request is a function of all earlier
  requests and the new one, which leaves the server's behaviour open. A
  ghost field records who the connection is bound as. Every method's
  contract gives four things: the exact requests it sends, in order; its
  return value in terms of the replies; the identity afterwards; and that
  nothing else is sent.

`User::new` is the datatype constructor `Dn.User`. It takes the fields of
`struct User` in the same order.

Main results:
- Every DN operation addresses the same People entry for a given uid:
  `change_password`, `del_user`, `check_login` and `add_user` for a user
  under People (`Dn.GetDnOfPeople`, `Dn.InlineDnIsUserDn`). For a user in
  any other unit, `add_user` names a different entry
  (`Dn.GetDnIsUserDnIffPeople`).
- Without escaping, names are ambiguous (`Dn.UserDnAmbiguous`). With
  comma-free uids they are not (`Dn.UserDnInjective`).
- An SSHA credential is 38 characters long: the tag, then 32 Base64
  characters without padding. It decodes to the digest followed by the salt
  (`Ssha.SshaValue`). It accepts exactly the passwords with the same salted
  digest (`Ssha.SshaMatchesExactly`).
- `change_password` sends one modify that replaces `userPassword` with the
  new credential. It then binds only if the modify succeeded, and returns
  exactly that bind's result. Nothing is sent afterwards, so there is no
  rollback.
- `bind`, `verify_password`, `modify_entry`, `search_entry`,
  `delete_entry`, `del_user` and `check_login` fail on a non-success result
  code. `add_entry` and `add_user` succeed whenever the call completes, even
  when the server rejects the add.
- Adding an entry that already exists is answered with result code 68
  (entryAlreadyExists, section 4.1.9 and Appendix A of RFC 4511).
  `add_user` never looks at the code (src/lib.rs:163), so it returns Ok.
- A failed self-check after a password change returns the bind's own error
  unchanged (src/lib.rs:117-125). There is no separate verification error.
- An empty password passes the login check. A simple bind with an empty
  password is an unauthenticated bind (section 5.1.2 of RFC 4513). A server
  that allows such binds answers with code 0, so `check_login(uid, "")`
  returns Ok while the connection stays anonymous. `change_password(uid, "")`
  passes its own check the same way (`Session.EmptyPasswordBindIsAnonymous`,
  `Client.EmptyPasswordPassesChecks`).

## Model

| member | source | states |
|---|---|---|
| `Dn.GroupName` | src/lib.rs:38-47 | each unit prints as a non-empty name made only of letters: no `,` and no `=` |
| `Dn.GroupNameInjective` | src/lib.rs:38-47 | two units print the same name exactly when they are the same unit |
| `Dn.GetDn` | src/lib.rs:222-224 | the name is `uid=`, the uid, `,ou=`, the unit's name, `,`, the base, each inserted verbatim; so it starts with `uid=` and ends with the base |
| `Dn.UserDn` | src/lib.rs:226-228 | the same layout with the unit fixed to `People` |
| `Dn.GetDnOfPeople` | src/lib.rs:222-228 | for a user under People, `get_dn` and `user_dn` give the same name |
| `Dn.GetDnIsUserDnIffPeople` | src/lib.rs:222-228 | `get_dn` equals `user_dn` of the user's uid if and only if the user is under People |
| `Dn.InlineDnIsUserDn` | src/lib.rs:167-175 | the name `del_user` and `check_login` format inline is `user_dn` of the uid |
| `Dn.UserDnInjectiveInUid` | src/lib.rs:226-228 | under a fixed base, two uids give the same name exactly when they are equal |
| `Dn.UserDnInjectiveInBase` | src/lib.rs:226-228 | for a fixed uid, two bases give the same name exactly when they are equal |
| `Dn.UserDnAmbiguous` | src/lib.rs:226-228 | with no escaping, uid `a,ou=People,b` under base `c` and uid `a` under base `b,ou=People,c` give the same name |
| `Dn.UidOfUserDn` | src/lib.rs:226-228 | a comma-free uid is the text between `uid=` and the first comma of its name |
| `Dn.UserDnInjective` | src/lib.rs:226-228 | with comma-free uids, the name determines both the uid and the base |
| `Utf8.EncodeChar` | src/lib.rs:52 | a character takes one to four octets; one exactly for ASCII; every octet after the first is a continuation octet |
| `Utf8.Encode` | src/lib.rs:52 | a string's octets number between its length and four times its length |
| `Utf8.DecodeEncode` | src/lib.rs:52 | decoding the octets of any string gives back the string |
| `Utf8.EncodeInjective` | src/lib.rs:52 | different passwords give different octets |
| `Base64.SextetChar` | src/lib.rs:58 | every 6-bit value maps to an alphabet character, never `=` |
| `Base64.CharSextet` | src/lib.rs:58 | the value read back from an alphabet character maps to that character |
| `Base64.Encode` | src/lib.rs:58 | the output has 4 characters per started group of 3 octets; with no padding when the length is a multiple of 3 |
| `Base64.DecodeEncode` | src/lib.rs:58 | decoding the encoding of any octets gives back those octets |
| `Base64.EncodeInjective` | src/lib.rs:58 | different octets have different encodings |
| `Ssha.Payload` | src/lib.rs:52-57 | 24 octets: first the 20-octet digest of the password's octets followed by the salt, then the salt |
| `Ssha.SshaValue` | src/lib.rs:48-59 | 38 characters: `{SSHA}`, then 32 Base64 characters without padding, which decode to the payload; so the last 4 decoded octets are the salt |
| `Ssha.SshaMatchesExactly` | src/lib.rs:48-59 | the credential accepts a candidate exactly when the candidate's salted digest equals the password's; in particular it accepts the password |
| `Ssha.SshaDeterminesSalt` | src/lib.rs:50-57 | equal credentials have equal salts and equal digests, so different salts give different credentials |
| `Ssha.Sha1Hasher.constructor` | src/lib.rs:49 | a new hasher has absorbed nothing |
| `Ssha.Sha1Hasher.Update` | src/lib.rs:52-53 | an update appends its data to what the hasher has absorbed |
| `Ssha.Sha1Hasher.Finalize` | src/lib.rs:54 | the digest is SHA-1 of everything absorbed |
| `Ssha.GenerateSsha` | src/lib.rs:48-59 | feeding the password and then the salt to the hasher, appending the salt to the digest and encoding gives `SshaValue` |
| `Attributes.AddUserAttributes` | src/lib.rs:142-158 | the list has twelve attributes |
| `Attributes.ToSet` | src/lib.rs:161 | a value is in the set exactly when it is in the list |
| `Attributes.ToSets` | src/lib.rs:159-162 | the conversion keeps the number, order and names of the attributes, and each set holds exactly its list's elements |
| `Attributes.AddUserSendsAccountEntry` | src/lib.rs:142-162 | what `add_user` sends names each attribute of the account entry exactly once and with its values, and nothing else |
| `Attributes.AccountEntryCardinalities` | src/lib.rs:142-158 | `objectClass` holds three classes, and every other attribute exactly one value |
| `Attributes.StoredPasswordIsHashed` | src/lib.rs:140-150 | the stored `userPassword` is the single SSHA credential of the plaintext. It accepts the plaintext. It equals the plaintext only if the plaintext already has the shape of a credential |
| `Session.Delivered` | src/lib.rs:86 | the `?` on a call: an error exactly when the call failed before giving a result, otherwise the result code |
| `Session.SuccessCode` | src/lib.rs:77 | `.success()`: Ok exactly for result code 0, otherwise an error carrying the code |
| `Session.Checked` | src/lib.rs:77 | `?.success()?`: Ok exactly when the call completed with code 0; a transport error or the non-zero code otherwise |
| `Session.Unchecked` | src/lib.rs:163 | `?` alone: Ok exactly when the call completed, whatever the code |
| `Session.CheckedAndUncheckedDiffer` | src/lib.rs:81-94 | the two checks disagree exactly on completed calls with a non-zero code |
| `Session.IdentityAfterBind` | src/lib.rs:129-132 | a bind authenticates as its DN exactly when it succeeds with a non-empty password; otherwise the connection is anonymous |
| `Session.EmptyPasswordBindIsAnonymous` | src/lib.rs:129-132 | a bind with an empty password passes the check and leaves the connection anonymous exactly when the server answers it with code 0 |
| `Session.Connection.constructor` | src/lib.rs:63-69 | a fresh connection has carried nothing and is anonymous |
| `Session.Connection.SimpleBind` | src/lib.rs:130 | one bind request is sent; the reply is the server's; the identity is replaced according to the reply |
| `Session.Connection.Add` | src/lib.rs:86 | one add request is sent; the identity is unchanged |
| `Session.Connection.Modify` | src/lib.rs:92 | one modify request is sent; the identity is unchanged |
| `Session.Connection.Delete` | src/lib.rs:134 | one delete request is sent; the identity is unchanged |
| `Session.Connection.Search` | src/lib.rs:102-104 | one search request is sent; the identity is unchanged |
| `Client.Ldap.constructor` | src/lib.rs:62-74 | the object keeps the connection and the base DN as given; both are constants, so the base DN can never be reassigned |
| `Client.Ldap.Bind` | src/lib.rs:76-79 | exactly one bind; an error unless it completes with code 0; the identity becomes that of the bind |
| `Client.Ldap.AddEntry` | src/lib.rs:81-89 | exactly one add of the given name with the lists made sets; Ok whenever the call completes, whatever the code |
| `Client.Ldap.ModifyEntry` | src/lib.rs:91-94 | exactly one modify; an error unless it completes with code 0 |
| `Client.Ldap.SearchEntry` | src/lib.rs:96-108 | exactly one search, from the base DN; on code 0 the entries returned, one per result and in order; the error otherwise |
| `Client.Ldap.ChangePassword` | src/lib.rs:109-127 | one modify replacing `userPassword` of `user_dn` with the singleton new credential. If it fails, that error, with no bind and the identity kept. Otherwise exactly one bind as that entry with the new password, and that bind's result; nothing is undone |
| `Client.Ldap.VerifyPassword` | src/lib.rs:129-132 | exactly one bind as the name; an error unless it completes with code 0; the identity becomes that of the bind |
| `Client.Ldap.DeleteEntry` | src/lib.rs:133-137 | exactly one delete; an error unless it completes with code 0 |
| `Client.Ldap.AddUser` | src/lib.rs:138-166 | exactly one add of `get_dn` with the twelve attributes and the SSHA credential; Ok whenever the call completes, so a rejected add is not reported |
| `Client.Ldap.DelUser` | src/lib.rs:167-172 | exactly one delete of `user_dn` of the uid; an error unless it completes with code 0 |
| `Client.Ldap.CheckLogin` | src/lib.rs:173-187 | exactly one bind as `user_dn` of the uid; an error unless it completes with code 0; the identity becomes that of the bind |
| `Client.ChangePasswordThenLogin` | tests/ldap.rs:81-87 | when the change succeeds, the login sends the same bind as the change's own check, after the one modify, and its result is the server's answer to that second bind |
| `Client.EmptyPasswordPassesChecks` | src/lib.rs:109-132 | against a server that accepts every request, `check_login` and `change_password` with an empty password both return Ok and leave the connection anonymous |

## Left out

- Opening the connection in `Ldap::new` is not modelled (src/lib.rs:62-69):
  TLS, StartTLS, skipping certificate checks and the 5-second timeout. It is
  transport. The model's constructor takes a connection that is already open.
- Everything inside `ldap3` is not modelled: the wire encoding and what the
  server does with an add, modify, delete, search or bind. The server is an
  arbitrary function from the requests sent so far and the new request to a
  reply. So nothing is proved about entries existing after an add or
  disappearing after a delete.
- Session.IdentityAfterBind: a call that fails before any result is taken
  to leave the connection anonymous. The source cannot observe this, and the
  LDAP standards do not settle it.
- Client.Ldap.SearchEntry: `SearchEntry::construct`, which decodes a raw
  result entry inside `ldap3`, is not modelled. The server's reply already
  carries decoded entries.
- The SHA-1 compression function (FIPS 180-4) is not modelled. It enters as
  a function value that maps any octets to 20 octets.
- `rand::thread_rng` is not modelled (src/lib.rs:50-51). The 4-octet salt is a
  parameter of `GenerateSsha`, `ChangePassword` and `AddUser`. So fresh salts
  are not modelled, only what distinct salts imply (`Ssha.SshaDeterminesSalt`).
- Logging with `println!` is not modelled, because it does not affect any
  result.
- Concurrency is not modelled. Each `Ldap` method runs to completion on one
  connection.
- The configuration reading and live-server checks in tests/ldap.rs are not
  modelled. Only the password-change scenario (tests/ldap.rs:81-87) is
  stated, as `Client.ChangePasswordThenLogin`.
