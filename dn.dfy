/**
  Distinguished names of account entries (src/lib.rs:17-47, 190-228):
  `uid=<uid>,ou=<ou>,<base_dn>`, built by plain concatenation with no
  escaping of `,`, `=` or any other character.
 */
module Dn {
  import opened Prelude

  /** The organisational unit an entry lives under. */
  datatype Groups = People | Group | Other

  /** `Display for Groups`. */
  function GroupName(g: Groups): (s: string)
    ensures |s| > 0 && forall i :: 0 <= i < |s| ==> 'A' <= s[i] <= 'Z' || 'a' <= s[i] <= 'z'
  {
    match g
    case People => "People"
    case Group => "Group"
    case Other => "Other"
  }

  /** The three units have three different names. */
  lemma GroupNameInjective(a: Groups, b: Groups)
    ensures GroupName(a) == GroupName(b) <==> a == b
  {
  }

  /** An account to create. The datatype constructor is `User::new`: same fields, same order. */
  datatype User = User(
    uid: string,
    userPassword: string,
    cn: string,
    sn: string,
    homeDirectory: string,
    loginShell: string,
    givenName: string,
    displayName: string,
    uidNumber: string,
    gidNumber: string,
    gecos: string,
    ou: Groups)

  /** The layout every entry name has: `uid=`, the uid, `,ou=`, the unit, `,`, the base, each verbatim. */
  predicate IsEntryName(dn: string, uid: string, unit: string, baseDn: string)
  {
    && |dn| == 4 + |uid| + 4 + |unit| + 1 + |baseDn|
    && dn[..4] == "uid="
    && dn[4..4 + |uid|] == uid
    && dn[4 + |uid|..8 + |uid|] == ",ou="
    && dn[8 + |uid|..8 + |uid| + |unit|] == unit
    && dn[8 + |uid| + |unit|] == ','
    && dn[|dn| - |baseDn|..] == baseDn
  }

  lemma EntryNameLayout(uid: string, unit: string, baseDn: string)
    ensures IsEntryName("uid=" + uid + ",ou=" + unit + "," + baseDn, uid, unit, baseDn)
  {
    var dn := "uid=" + uid + ",ou=" + unit + "," + baseDn;
    assert dn[..4] == "uid=";
    assert dn[4..4 + |uid|] == uid;
    assert dn[4 + |uid|..8 + |uid|] == ",ou=";
    assert dn[8 + |uid|..8 + |uid| + |unit|] == unit;
    assert dn[|dn| - |baseDn|..] == baseDn;
  }

  /** `User::get_dn`: the entry name under the user's own unit. */
  function GetDn(user: User, baseDn: string): (dn: string)
    ensures IsEntryName(dn, user.uid, GroupName(user.ou), baseDn)
  {
    EntryNameLayout(user.uid, GroupName(user.ou), baseDn);
    "uid=" + user.uid + ",ou=" + GroupName(user.ou) + "," + baseDn
  }

  /** `user_dn`: the entry name of a uid under `ou=People`. */
  function UserDn(uid: string, baseDn: string): (dn: string)
    ensures IsEntryName(dn, uid, "People", baseDn)
  {
    EntryNameLayout(uid, "People", baseDn);
    "uid=" + uid + ",ou=People," + baseDn
  }

  /** For a user under People, `get_dn` and `user_dn` name the same entry. */
  lemma GetDnOfPeople(user: User, baseDn: string)
    requires user.ou == People
    ensures GetDn(user, baseDn) == UserDn(user.uid, baseDn)
  {
    assert ",ou=" + GroupName(People) + "," == ",ou=People,";
    assert "uid=" + user.uid + ",ou=" + GroupName(People) + "," + baseDn
        == "uid=" + user.uid + (",ou=" + GroupName(People) + ",") + baseDn;
  }

  /**
    `add_user` names the entry under the user's own unit, while `user_dn`,
    `del_user` and `check_login` always use People: the two agree exactly for
    users under People.
   */
  lemma GetDnIsUserDnIffPeople(user: User, baseDn: string)
    ensures GetDn(user, baseDn) == UserDn(user.uid, baseDn) <==> user.ou == People
  {
    if user.ou == People {
      GetDnOfPeople(user, baseDn);
    } else {
      assert |GroupName(user.ou)| == 5;
      assert |GetDn(user, baseDn)| != |UserDn(user.uid, baseDn)|;
    }
  }

  /** The name `del_user` and `check_login` format inline is the one `user_dn` builds. */
  lemma InlineDnIsUserDn(uid: string, baseDn: string)
    ensures "uid=" + uid + ",ou=" + GroupName(People) + "," + baseDn == UserDn(uid, baseDn)
  {
    GetDnOfPeople(User(uid, "", "", "", "", "", "", "", "", "", "", People), baseDn);
  }

  /** Under one base, different uids give different names. */
  lemma UserDnInjectiveInUid(uid1: string, uid2: string, baseDn: string)
    ensures UserDn(uid1, baseDn) == UserDn(uid2, baseDn) <==> uid1 == uid2
  {
    if UserDn(uid1, baseDn) == UserDn(uid2, baseDn) {
      var dn := UserDn(uid1, baseDn);
      assert |uid1| == |uid2|;
      assert uid1 == dn[4..4 + |uid1|] == uid2;
    }
  }

  /** For one uid, different bases give different names. */
  lemma UserDnInjectiveInBase(uid: string, base1: string, base2: string)
    ensures UserDn(uid, base1) == UserDn(uid, base2) <==> base1 == base2
  {
    if UserDn(uid, base1) == UserDn(uid, base2) {
      var dn := UserDn(uid, base1);
      assert |base1| == |base2|;
      assert base1 == dn[|dn| - |base1|..] == base2;
    }
  }

  /**
    Because nothing is escaped, the same name can come from two different
    (uid, base) pairs: a uid that carries `,ou=People,` moves text from the
    base into the uid.
   */
  lemma UserDnAmbiguous()
    ensures UserDn("a,ou=People,b", "c") == UserDn("a", "b,ou=People,c")
  {
    assert UserDn("a,ou=People,b", "c") == "uid=a,ou=People,b,ou=People,c";
    assert UserDn("a", "b,ou=People,c") == "uid=a,ou=People,b,ou=People,c";
  }

  /** The text before the first `,`, all of `s` when there is none. */
  function UpToComma(s: string): (r: string)
    ensures |r| <= |s| && r == s[..|r|]
    ensures forall i :: 0 <= i < |r| ==> r[i] != ','
    ensures |r| < |s| ==> s[|r|] == ','
  {
    if s == [] || s[0] == ',' then [] else [s[0]] + UpToComma(s[1..])
  }

  /** The uid a name of the form `uid=...` begins with: the value up to the first comma. */
  function UidOf(dn: string): (r: Option<string>)
    ensures r.Some? ==> 4 + |r.value| <= |dn| && dn[..4] == "uid=" && dn[4..4 + |r.value|] == r.value
  {
    if |dn| >= 4 && dn[..4] == "uid=" then Some(UpToComma(dn[4..])) else None
  }

  lemma {:induction false} UpToCommaPrefix(u: string, rest: string)
    requires forall i :: 0 <= i < |u| ==> u[i] != ','
    ensures UpToComma(u + "," + rest) == u
  {
    if u != [] {
      assert (u + "," + rest)[1..] == u[1..] + "," + rest;
      UpToCommaPrefix(u[1..], rest);
      assert u == [u[0]] + u[1..];
    }
  }

  /** A comma-free uid can be read back from its name. */
  lemma UidOfUserDn(uid: string, baseDn: string)
    requires forall i :: 0 <= i < |uid| ==> uid[i] != ','
    ensures UidOf(UserDn(uid, baseDn)) == Some(uid)
  {
    var dn := UserDn(uid, baseDn);
    assert dn[4..] == uid + "," + ("ou=People," + baseDn);
    UpToCommaPrefix(uid, "ou=People," + baseDn);
  }

  /** With comma-free uids the name determines both the uid and the base. */
  lemma UserDnInjective(uid1: string, base1: string, uid2: string, base2: string)
    requires forall i :: 0 <= i < |uid1| ==> uid1[i] != ','
    requires forall i :: 0 <= i < |uid2| ==> uid2[i] != ','
    requires UserDn(uid1, base1) == UserDn(uid2, base2)
    ensures uid1 == uid2 && base1 == base2
  {
    UidOfUserDn(uid1, base1);
    UidOfUserDn(uid2, base2);
    UserDnInjectiveInBase(uid1, base1, base2);
  }
}
