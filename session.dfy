/**
  The directory connection the account code drives (`ldap3::LdapConn`),
  seen from outside: a request goes out, and either the call fails before a
  result arrives (I/O, encoding, a closed connection) or the server answers
  with a result code. The server is a function value of the requests already
  sent on the connection and the new one, so its behaviour is left open.
  The connection's bind identity is tracked as a ghost field.
 */
module Session {
  import opened Prelude

  /** Attribute names with their values as sets, in order (`Vec<(&str, HashSet<&str>)>`). */
  type AttrSets = seq<(string, set<string>)>

  datatype Scope = Base | OneLevel | Subtree

  /** `ldap3::Mod`: one change to one attribute of an entry. */
  datatype Mod =
    | AddValues(attr: string, values: set<string>)
    | DeleteValues(attr: string, values: set<string>)
    | Replace(attr: string, values: set<string>)
    | Increment(attr: string, amount: string)

  /** `ldap3::SearchEntry`: an entry's name with its text and binary attributes. */
  datatype SearchEntry = SearchEntry(dn: string, attrs: map<string, seq<string>>, binAttrs: map<string, seq<seq<byte>>>)

  datatype Request =
    | BindRequest(dn: string, password: string)
    | AddRequest(dn: string, attrs: AttrSets)
    | ModifyRequest(dn: string, mods: seq<Mod>)
    | DeleteRequest(dn: string)
    | SearchRequest(base: string, scope: Scope, filter: string, wanted: seq<string>)

  /** What an `LdapConn` call returns: an error before any result, or the result code and the entries found. */
  datatype Reply = Failed | Completed(rc: nat, entries: seq<SearchEntry>)

  /** `ldap3::LdapError`, as far as the account code can tell errors apart. */
  datatype LdapError = TransportError | ResultError(rc: nat)

  /** `ldap3::result::Result`. */
  datatype Result<+T> = Ok(value: T) | Err(error: LdapError) {
    predicate IsFailure() { Err? }

    function PropagateFailure<U>(): Result<U>
      requires Err?
    {
      Err(error)
    }

    function Extract(): T
      requires Ok?
    {
      value
    }
  }

  /** Who the connection is authenticated as. */
  datatype Identity = Anonymous | BoundAs(dn: string)

  /** The server: its reply to a request, given every request sent before it on the connection. */
  type Server = (seq<Request>, Request) -> Reply

  /** The result code `0`: `success`. */
  const Success: nat := 0

  /** The `?` on an `LdapConn` call: an error if the call failed, otherwise the result code. */
  function Delivered(reply: Reply): (r: Result<nat>)
    ensures r.Ok? <==> reply.Completed?
    ensures r.Ok? ==> r.value == reply.rc
    ensures r.Err? ==> r.error == TransportError
  {
    match reply
    case Failed => Err(TransportError)
    case Completed(rc, _) => Ok(rc)
  }

  /** `LdapResult::success`: an error carrying the code unless it is `success`. */
  function SuccessCode(rc: nat): (r: Result<()>)
    ensures r.Ok? <==> rc == Success
    ensures r.Err? ==> r.error == ResultError(rc)
  {
    if rc == Success then Ok(()) else Err(ResultError(rc))
  }

  /** `call?.success()?`: succeeds exactly when the call completed with result code `success`. */
  function Checked(reply: Reply): (r: Result<()>)
    ensures r.Ok? <==> reply.Completed? && reply.rc == Success
    ensures reply.Failed? ==> r == Err(TransportError)
    ensures reply.Completed? && reply.rc != Success ==> r == Err(ResultError(reply.rc))
  {
    match Delivered(reply)
    case Err(e) => Err(e)
    case Ok(rc) => SuccessCode(rc)
  }

  /** `call?` alone: succeeds whenever the call completed, whatever the result code. */
  function Unchecked(reply: Reply): (r: Result<()>)
    ensures r.Ok? <==> reply.Completed?
    ensures reply.Failed? ==> r == Err(TransportError)
  {
    match Delivered(reply)
    case Err(e) => Err(e)
    case Ok(_) => Ok(())
  }

  /** Where the two checks part: a completed call with a non-`success` code is an error for one and not the other. */
  lemma CheckedAndUncheckedDiffer(reply: Reply)
    ensures Checked(reply) != Unchecked(reply) <==> reply.Completed? && reply.rc != Success
  {
  }

  /**
    The identity after a bind: a successful bind with a password authenticates
    as its name; a failed bind leaves the connection anonymous (section 4.2.1
    of RFC 4511), and so does a successful bind with an empty password, which
    is an unauthenticated bind (section 5.1.2 of RFC 4513). A call that fails
    before a result is taken to leave it anonymous as well.
   */
  function IdentityAfterBind(dn: string, password: string, reply: Reply): (id: Identity)
    ensures id.BoundAs? <==> Checked(reply).Ok? && password != ""
    ensures id.BoundAs? ==> id.dn == dn
  {
    if reply.Completed? && reply.rc == Success && password != "" then BoundAs(dn) else Anonymous
  }

  /**
    A bind with an empty password that the server accepts passes `Checked`
    but leaves the connection anonymous: it is an unauthenticated bind.
   */
  lemma EmptyPasswordBindIsAnonymous(dn: string, reply: Reply)
    ensures Checked(reply).Ok? && IdentityAfterBind(dn, "", reply) == Anonymous
        <==> reply.Completed? && reply.rc == Success
  {
  }

  /** An `LdapConn`, with the requests it has carried and the identity it is bound as. */
  class Connection {
    const server: Server
    var sent: seq<Request>
    ghost var identity: Identity

    constructor (server: Server)
      ensures this.server == server && sent == [] && identity == Anonymous
    {
      this.server := server;
      sent := [];
      identity := Anonymous;
    }

    /** The reply the server would give to `req` sent now. */
    function Answer(req: Request): Reply
      reads this
    {
      server(sent, req)
    }

    method Exchange(req: Request) returns (reply: Reply)
      modifies this
      ensures reply == old(Answer(req))
      ensures sent == old(sent) + [req]
      ensures identity == old(identity)
    {
      reply := server(sent, req);
      sent := sent + [req];
    }

    /** `simple_bind`: the only call that changes the identity, which it replaces whatever it was. */
    method SimpleBind(dn: string, password: string) returns (reply: Reply)
      modifies this
      ensures reply == old(Answer(BindRequest(dn, password)))
      ensures sent == old(sent) + [BindRequest(dn, password)]
      ensures identity == IdentityAfterBind(dn, password, reply)
    {
      reply := Exchange(BindRequest(dn, password));
      identity := IdentityAfterBind(dn, password, reply);
    }

    method Add(dn: string, attrs: AttrSets) returns (reply: Reply)
      modifies this
      ensures reply == old(Answer(AddRequest(dn, attrs)))
      ensures sent == old(sent) + [AddRequest(dn, attrs)]
      ensures identity == old(identity)
    {
      reply := Exchange(AddRequest(dn, attrs));
    }

    method Modify(dn: string, mods: seq<Mod>) returns (reply: Reply)
      modifies this
      ensures reply == old(Answer(ModifyRequest(dn, mods)))
      ensures sent == old(sent) + [ModifyRequest(dn, mods)]
      ensures identity == old(identity)
    {
      reply := Exchange(ModifyRequest(dn, mods));
    }

    method Delete(dn: string) returns (reply: Reply)
      modifies this
      ensures reply == old(Answer(DeleteRequest(dn)))
      ensures sent == old(sent) + [DeleteRequest(dn)]
      ensures identity == old(identity)
    {
      reply := Exchange(DeleteRequest(dn));
    }

    method Search(base: string, scope: Scope, filter: string, attrs: seq<string>) returns (reply: Reply)
      modifies this
      ensures reply == old(Answer(SearchRequest(base, scope, filter, attrs)))
      ensures sent == old(sent) + [SearchRequest(base, scope, filter, attrs)]
      ensures identity == old(identity)
    {
      reply := Exchange(SearchRequest(base, scope, filter, attrs));
    }
  }
}
