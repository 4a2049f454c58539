/**
  `struct Ldap` and its methods (src/lib.rs:12-15, 60-188): one connection and
  a base DN fixed at construction. Every method's contract says which requests
  it puts on the connection, in order, what it returns for the server's
  replies, and what the connection's identity is afterwards.

  The salt `generate_ssha` draws from `rand::thread_rng` is a parameter of
  the methods that hash a password.
 */
module Client {
  import opened Prelude
  import opened Dn
  import opened Attributes
  import opened Ssha
  import opened Session

  class Ldap {
    const conn: Connection
    const baseDn: string
    /** The SHA-1 implementation `generate_ssha` uses. */
    const sha1: Sha1Fn

    /** `Ldap::new` from a connection that is already open: the base DN is kept as given. */
    constructor (conn: Connection, baseDn: string, sha1: Sha1Fn)
      ensures this.conn == conn && this.baseDn == baseDn && this.sha1 == sha1
    {
      this.conn := conn;
      this.baseDn := baseDn;
      this.sha1 := sha1;
    }

    /** `bind`: one bind; an error unless it completes with `success`; the identity is replaced. */
    method Bind(adminDn: string, adminPassword: string) returns (r: Result<()>)
      modifies conn
      ensures conn.sent == old(conn.sent) + [BindRequest(adminDn, adminPassword)]
      ensures r == Checked(old(conn.Answer(BindRequest(adminDn, adminPassword))))
      ensures conn.identity == IdentityAfterBind(adminDn, adminPassword, old(conn.Answer(BindRequest(adminDn, adminPassword))))
    {
      var reply := conn.SimpleBind(adminDn, adminPassword);
      var rc :- Delivered(reply);
      var _ :- SuccessCode(rc);
      r := Ok(());
    }

    /** `add_entry`: one add with each value list made a set; the result code is not looked at. */
    method AddEntry(dn: string, attrs: AttrList) returns (r: Result<()>)
      modifies conn
      ensures conn.sent == old(conn.sent) + [AddRequest(dn, ToSets(attrs))]
      ensures r == Unchecked(old(conn.Answer(AddRequest(dn, ToSets(attrs)))))
      ensures conn.identity == old(conn.identity)
    {
      var sets := ToSets(attrs);
      var reply := conn.Add(dn, sets);
      var _ :- Delivered(reply);
      r := Ok(());
    }

    /** `modify_entry`: one modify; an error unless it completes with `success`. */
    method ModifyEntry(dn: string, mods: seq<Mod>) returns (r: Result<()>)
      modifies conn
      ensures conn.sent == old(conn.sent) + [ModifyRequest(dn, mods)]
      ensures r == Checked(old(conn.Answer(ModifyRequest(dn, mods))))
      ensures conn.identity == old(conn.identity)
    {
      var reply := conn.Modify(dn, mods);
      var rc :- Delivered(reply);
      var _ :- SuccessCode(rc);
      r := Ok(());
    }

    /** `search_entry`: one search from the base DN; on `success`, the entries found, one per result, in order. */
    method SearchEntry(scope: Scope, filter: string, attrs: seq<string>) returns (r: Result<seq<Session.SearchEntry>>)
      modifies conn
      ensures conn.sent == old(conn.sent) + [SearchRequest(baseDn, scope, filter, attrs)]
      ensures var reply := old(conn.Answer(SearchRequest(baseDn, scope, filter, attrs)));
        && (r.Ok? <==> Checked(reply).Ok?)
        && (r.Ok? ==> r.value == reply.entries)
        && (r.Err? ==> r.error == Checked(reply).error)
      ensures conn.identity == old(conn.identity)
    {
      var reply := conn.Search(baseDn, scope, filter, attrs);
      var rc :- Delivered(reply);
      var _ :- SuccessCode(rc);
      r := Ok(reply.entries);
    }

    /**
      `change_password`: replace `userPassword` of the People entry of `dn`
      with the single new credential; if that fails, return its error and send
      nothing more; otherwise bind as the entry with the new password and
      return exactly what that bind returns. Nothing is undone when the bind
      fails, and the identity left behind is that of the bind.
     */
    method ChangePassword(dn: string, newPassword: string, salt: Salt) returns (r: Result<()>)
      modifies conn
      ensures var target := UserDn(dn, baseDn);
        var change := ModifyRequest(target, [Replace("userPassword", {SshaValue(sha1, newPassword, salt)})]);
        var changeReply := old(conn.Answer(change));
        if Checked(changeReply).Err? then
          && conn.sent == old(conn.sent) + [change]
          && r == Checked(changeReply)
          && conn.identity == old(conn.identity)
        else
          var bind := BindRequest(target, newPassword);
          var bindReply := conn.server(old(conn.sent) + [change], bind);
          && conn.sent == old(conn.sent) + [change, bind]
          && r == Checked(bindReply)
          && conn.identity == IdentityAfterBind(target, newPassword, bindReply)
    {
      ghost var before := conn.sent;
      var passwordSet: set<string> := {};
      var hashedPassword := GenerateSsha(sha1, newPassword, salt);
      passwordSet := passwordSet + {hashedPassword};
      assert passwordSet == {SshaValue(sha1, newPassword, salt)};
      var userDn := UserDn(dn, baseDn);
      var mods := [Replace("userPassword", passwordSet)];
      var _ :- ModifyEntry(userDn, mods);
      assert conn.sent == before + [ModifyRequest(userDn, mods)];
      r := VerifyPassword(userDn, newPassword);
      assert conn.sent == before + [ModifyRequest(userDn, mods), BindRequest(userDn, newPassword)];
    }

    /** `verify_password`: one bind as `dn`; an error unless it completes with `success`; the identity is replaced. */
    method VerifyPassword(dn: string, password: string) returns (r: Result<()>)
      modifies conn
      ensures conn.sent == old(conn.sent) + [BindRequest(dn, password)]
      ensures r == Checked(old(conn.Answer(BindRequest(dn, password))))
      ensures conn.identity == IdentityAfterBind(dn, password, old(conn.Answer(BindRequest(dn, password))))
    {
      var reply := conn.SimpleBind(dn, password);
      var rc :- Delivered(reply);
      var _ :- SuccessCode(rc);
      r := Ok(());
    }

    /** `delete_entry`: one delete; an error unless it completes with `success`. */
    method DeleteEntry(dn: string) returns (r: Result<()>)
      modifies conn
      ensures conn.sent == old(conn.sent) + [DeleteRequest(dn)]
      ensures r == Checked(old(conn.Answer(DeleteRequest(dn))))
      ensures conn.identity == old(conn.identity)
    {
      var reply := conn.Delete(dn);
      var rc :- Delivered(reply);
      var _ :- SuccessCode(rc);
      r := Ok(());
    }

    /**
      `add_user`: one add of the user's `get_dn` entry with its twelve
      attributes, the password stored as its SSHA credential; the result code
      is not looked at, so a server that refuses the entry still gives Ok.
     */
    method AddUser(user: User, salt: Salt) returns (r: Result<()>)
      modifies conn
      ensures var add := AddRequest(GetDn(user, baseDn),
                                    ToSets(AddUserAttributes(user, SshaValue(sha1, user.userPassword, salt))));
        && conn.sent == old(conn.sent) + [add]
        && r == Unchecked(old(conn.Answer(add)))
      ensures conn.identity == old(conn.identity)
    {
      var userDn := GetDn(user, baseDn);
      var hashedPassword := GenerateSsha(sha1, user.userPassword, salt);
      var attrs := AddUserAttributes(user, hashedPassword);
      var sets := ToSets(attrs);
      var reply := conn.Add(userDn, sets);
      var _ :- Delivered(reply);
      r := Ok(());
    }

    /** `del_user`: one delete of the People entry of `uid`; an error unless it completes with `success`. */
    method DelUser(uid: string) returns (r: Result<()>)
      modifies conn
      ensures conn.sent == old(conn.sent) + [DeleteRequest(UserDn(uid, baseDn))]
      ensures r == Checked(old(conn.Answer(DeleteRequest(UserDn(uid, baseDn)))))
      ensures conn.identity == old(conn.identity)
    {
      var userDn := "uid=" + uid + ",ou=" + GroupName(People) + "," + baseDn;
      InlineDnIsUserDn(uid, baseDn);
      var reply := conn.Delete(userDn);
      var rc :- Delivered(reply);
      var _ :- SuccessCode(rc);
      r := Ok(());
    }

    /** `check_login`: one bind as the People entry of `uid`; an error unless it completes with `success`; the identity is replaced. */
    method CheckLogin(uid: string, password: string) returns (r: Result<()>)
      modifies conn
      ensures conn.sent == old(conn.sent) + [BindRequest(UserDn(uid, baseDn), password)]
      ensures r == Checked(old(conn.Answer(BindRequest(UserDn(uid, baseDn), password))))
      ensures conn.identity == IdentityAfterBind(UserDn(uid, baseDn), password, old(conn.Answer(BindRequest(UserDn(uid, baseDn), password))))
    {
      var userDn := "uid=" + uid + ",ou=" + GroupName(People) + "," + baseDn;
      InlineDnIsUserDn(uid, baseDn);
      var reply := conn.SimpleBind(userDn, password);
      var rc :- Delivered(reply);
      var _ :- SuccessCode(rc);
      r := Ok(());
    }
  }

  /**
    The password-change scenario of the integration tests: change the password
    of `test`, then log in as `test` with it. When the change succeeds, the
    login sends the very bind the change sent to verify itself, so both
    operations address the same entry.
   */
  method ChangePasswordThenLogin(ldap: Ldap, salt: Salt) returns (changed: Result<()>, login: Result<()>)
    modifies ldap.conn
    ensures var target := UserDn("test", ldap.baseDn);
      var change := ModifyRequest(target, [Replace("userPassword", {SshaValue(ldap.sha1, "12345678", salt)})]);
      var bind := BindRequest(target, "12345678");
      changed.Ok? ==>
        && ldap.conn.sent == old(ldap.conn.sent) + [change, bind, bind]
        && login == Checked(ldap.conn.server(old(ldap.conn.sent) + [change, bind], bind))
  {
    ghost var before := ldap.conn.sent;
    changed := ldap.ChangePassword("test", "12345678", salt);
    ghost var between := ldap.conn.sent;
    login := ldap.CheckLogin("test", "12345678");
    assert ldap.conn.sent == between + [BindRequest(UserDn("test", ldap.baseDn), "12345678")];
  }

  /**
    Against a server that accepts every request, logging in with an empty
    password succeeds and so does changing a password to the empty one, yet
    the connection is left anonymous each time.
   */
  method EmptyPasswordPassesChecks(baseDn: string, sha1: Sha1Fn, salt: Salt) returns (loggedIn: Ldap, login: Result<()>, reset: Ldap, changed: Result<()>)
    ensures login == Ok(()) && loggedIn.conn.identity == Anonymous
    ensures changed == Ok(()) && reset.conn.identity == Anonymous
  {
    var accepting: Server := (sent: seq<Request>, req: Request) => Completed(Success, []);
    var conn := new Connection(accepting);
    loggedIn := new Ldap(conn, baseDn, sha1);
    login := loggedIn.CheckLogin("test", "");
    conn := new Connection(accepting);
    reset := new Ldap(conn, baseDn, sha1);
    changed := reset.ChangePassword("test", "", salt);
  }
}
