/**
  The attribute list `add_user` sends (src/lib.rs:142-162) and the
  list-to-set conversion that `add_user` and `add_entry` apply to it
  (src/lib.rs:82-85, 159-162).
 */
module Attributes {
  import opened Dn
  import Ssha
  import Session

  /** Attribute names with their values as lists, in order (`Vec<(&str, Vec<&str>)>`). */
  type AttrList = seq<(string, seq<string>)>

  /** The twelve attributes of a new account: `objectClass` with three classes, then one value per field. */
  function AddUserAttributes(user: User, hashedPassword: string): (attrs: AttrList)
    ensures |attrs| == 12
  {
    [("objectClass", ["inetOrgPerson", "posixAccount", "shadowAccount"]),
     ("cn", [user.cn]),
     ("sn", [user.sn]),
     ("uid", [user.uid]),
     ("userPassword", [hashedPassword]),
     ("homeDirectory", [user.homeDirectory]),
     ("loginShell", [user.loginShell]),
     ("gecos", [user.gecos]),
     ("givenName", [user.givenName]),
     ("displayName", [user.displayName]),
     ("uidNumber", [user.uidNumber]),
     ("gidNumber", [user.gidNumber])]
  }

  /** The elements of a list, as `into_iter().collect::<HashSet<_>>()` gathers them. */
  function ToSet(values: seq<string>): (r: set<string>)
    ensures forall v :: v in r <==> v in values
  {
    if values == [] then {} else {values[0]} + ToSet(values[1..])
  }

  /** Each pair's list replaced by its set, names and order kept. */
  function ToSets(attrs: AttrList): (r: Session.AttrSets)
    ensures |r| == |attrs|
    ensures forall i :: 0 <= i < |r| ==> r[i].0 == attrs[i].0
    ensures forall i, v :: 0 <= i < |r| ==> (v in r[i].1 <==> v in attrs[i].1)
  {
    if attrs == [] then [] else [(attrs[0].0, ToSet(attrs[0].1))] + ToSets(attrs[1..])
  }

  /** The entry an account should become: each attribute name with its set of values. */
  function AccountEntry(user: User, hashedPassword: string): map<string, set<string>>
  {
    map["objectClass" := {"inetOrgPerson", "posixAccount", "shadowAccount"},
        "cn" := {user.cn},
        "sn" := {user.sn},
        "uid" := {user.uid},
        "userPassword" := {hashedPassword},
        "homeDirectory" := {user.homeDirectory},
        "loginShell" := {user.loginShell},
        "gecos" := {user.gecos},
        "givenName" := {user.givenName},
        "displayName" := {user.displayName},
        "uidNumber" := {user.uidNumber},
        "gidNumber" := {user.gidNumber}]
  }

  /** `attrs` lists every attribute of `entry` once, with its values, and nothing else. */
  ghost predicate ListsEntry(attrs: Session.AttrSets, entry: map<string, set<string>>)
  {
    && (forall i :: 0 <= i < |attrs| ==> attrs[i].0 in entry && attrs[i].1 == entry[attrs[i].0])
    && (forall i, j :: 0 <= i < j < |attrs| ==> attrs[i].0 != attrs[j].0)
    && (forall n :: n in entry ==> exists i :: 0 <= i < |attrs| && attrs[i].0 == n)
  }

  /** The names `add_user` uses, in its order. */
  const AttributeNames: seq<string> :=
    ["objectClass", "cn", "sn", "uid", "userPassword", "homeDirectory",
     "loginShell", "gecos", "givenName", "displayName", "uidNumber", "gidNumber"]

  lemma AttributeNamesDistinct()
    ensures forall i, j :: 0 <= i < j < |AttributeNames| ==> AttributeNames[i] != AttributeNames[j]
  {
  }

  lemma AttributeNamesAreEntryKeys(user: User, hashedPassword: string)
    ensures forall n :: n in AccountEntry(user, hashedPassword) <==> n in AttributeNames
  {
  }

  lemma AddUserNamesInOrder(user: User, hashedPassword: string)
    ensures forall i :: 0 <= i < 12 ==> ToSets(AddUserAttributes(user, hashedPassword))[i].0 == AttributeNames[i]
  {
  }

  lemma AddUserValuesMatchEntry(user: User, hashedPassword: string)
    ensures forall i :: 0 <= i < 12 ==>
      var pair := ToSets(AddUserAttributes(user, hashedPassword))[i];
      pair.0 in AccountEntry(user, hashedPassword) && pair.1 == AccountEntry(user, hashedPassword)[pair.0]
  {
    var sent := ToSets(AddUserAttributes(user, hashedPassword));
    var entry := AccountEntry(user, hashedPassword);
    forall i | 0 <= i < 12
      ensures sent[i].0 in entry && sent[i].1 == entry[sent[i].0]
    {
    }
  }

  /** What `add_user` sends is exactly the account's entry: twelve distinct attributes with their values. */
  lemma AddUserSendsAccountEntry(user: User, hashedPassword: string)
    ensures ListsEntry(ToSets(AddUserAttributes(user, hashedPassword)), AccountEntry(user, hashedPassword))
  {
    var sent := ToSets(AddUserAttributes(user, hashedPassword));
    var entry := AccountEntry(user, hashedPassword);
    AttributeNamesDistinct();
    AttributeNamesAreEntryKeys(user, hashedPassword);
    AddUserNamesInOrder(user, hashedPassword);
    AddUserValuesMatchEntry(user, hashedPassword);
    forall n | n in entry
      ensures exists i :: 0 <= i < 12 && sent[i].0 == n
    {
      var i :| 0 <= i < 12 && AttributeNames[i] == n;
      assert sent[i].0 == n;
    }
  }

  /** `objectClass` holds three classes; every other attribute holds exactly one value. */
  lemma AccountEntryCardinalities(user: User, hashedPassword: string)
    ensures |AccountEntry(user, hashedPassword)["objectClass"]| == 3
    ensures forall n :: n in AccountEntry(user, hashedPassword) && n != "objectClass" ==>
      |AccountEntry(user, hashedPassword)[n]| == 1
  {
  }

  /**
    With the hash `add_user` computes, the stored `userPassword` is the SSHA
    credential of the plaintext: it accepts the plaintext on a bind, and it is
    never the plaintext unless the plaintext already has the shape of a credential.
   */
  lemma StoredPasswordIsHashed(sha1: Ssha.Sha1Fn, user: User, salt: Ssha.Salt)
    ensures var stored := AccountEntry(user, Ssha.SshaValue(sha1, user.userPassword, salt))["userPassword"];
      && stored == {Ssha.SshaValue(sha1, user.userPassword, salt)}
      && Ssha.SshaMatches(sha1, user.userPassword, Ssha.SshaValue(sha1, user.userPassword, salt))
      && (user.userPassword in stored ==> |user.userPassword| == 38 && user.userPassword[..6] == Ssha.Tag)
  {
    Ssha.SshaMatchesExactly(sha1, user.userPassword, salt, user.userPassword);
  }
}
