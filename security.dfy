/** The security middleware: the upload validator, the query-parameter
    collapse, the session gate and the in-memory IP blacklist. */
module Security {
  import opened Common

  /** What a middleware does with a request: hand it on (`next()`) or answer
      it with an error status. */
  datatype Gate = Next | Reject(status: nat, message: string)

  // --------------------------------------------------------- file upload

  datatype UploadedFile = UploadedFile(mimetype: string, size: nat)

  const AllowedMimes: seq<string> := ["image/jpeg", "image/jpg", "image/png", "image/gif", "image/webp"]
  const MaxUploadSize: nat := 5 * 1024 * 1024

  /** `validateFileUpload`: no file passes; otherwise the type is checked
      before the size. */
  function ValidateFileUpload(file: Option<UploadedFile>): (g: Gate)
    ensures g.Reject? ==> g.status == 400
  {
    if file.None? then Next
    else if file.value.mimetype !in AllowedMimes then
      Reject(400, "Invalid file type. Only images are allowed.")
    else if file.value.size > MaxUploadSize then
      Reject(400, "File too large. Maximum size is 5MB.")
    else Next
  }

  /** A file passes exactly when it is one of the five image types and at
      most 5 MiB; a request without a file always passes. */
  lemma UploadAcceptedExactly(file: Option<UploadedFile>)
    ensures ValidateFileUpload(file) == Next
        <==> file.None? || (file.value.mimetype in AllowedMimes && file.value.size <= 5242880)
  {
  }

  /** The type check comes first: a file of the wrong type is refused as
      such whatever its size, and a file of exactly 5 MiB is accepted. */
  lemma UploadTypeCheckedFirst(mimetype: string, size: nat)
    ensures mimetype !in AllowedMimes ==>
      ValidateFileUpload(Some(UploadedFile(mimetype, size)))
        == Reject(400, "Invalid file type. Only images are allowed.")
    ensures ValidateFileUpload(Some(UploadedFile("image/png", 5242880))) == Next
    ensures ValidateFileUpload(Some(UploadedFile("image/png", 5242881)))
        == Reject(400, "File too large. Maximum size is 5MB.")
  {
  }

  // ---------------------------------------------------- parameter pollution

  /** A parsed query value: a repeated parameter arrives as an array. */
  datatype QueryValue = Undefined | Str(s: string) | Arr(items: seq<string>)

  /** `Array.isArray(v) ? v[0] : v`; the first element of an empty array is
      `undefined`. */
  function Collapse(v: QueryValue): (r: QueryValue)
    ensures !r.Arr?
    ensures !v.Arr? ==> r == v
    ensures v.Arr? && v.items != [] ==> r == Str(v.items[0])
  {
    match v
    case Arr(items) => if items == [] then Undefined else Str(items[0])
    case _ => v
  }

  lemma CollapseIdempotent(v: QueryValue)
    ensures Collapse(Collapse(v)) == Collapse(v)
  {
  }

  /** `req.query`: the keys in their enumeration order and their values. */
  class Query {
    var keys: seq<string>
    var values: map<string, QueryValue>

    ghost predicate Valid()
      reads this
    {
      (forall i, j :: 0 <= i < j < |keys| ==> keys[i] != keys[j])
      && (forall k :: k in values <==> k in keys)
    }

    constructor (ks: seq<string>, vs: map<string, QueryValue>)
      requires forall i, j :: 0 <= i < j < |ks| ==> ks[i] != ks[j]
      requires forall k :: k in vs <==> k in ks
      ensures Valid() && keys == ks && values == vs
    {
      keys := ks;
      values := vs;
    }

    /** `preventParamPollution`: every array value is replaced by its first
        element, in place; the keys and every other value stay. */
    method PreventParamPollution()
      requires Valid()
      modifies this
      ensures Valid() && keys == old(keys)
      ensures values.Keys == old(values).Keys
      ensures forall k :: k in values ==> values[k] == Collapse(old(values)[k])
    {
      var i := 0;
      while i < |keys|
        invariant 0 <= i <= |keys|
        invariant Valid() && keys == old(keys)
        invariant values.Keys == old(values).Keys
        invariant forall j :: 0 <= j < i ==> values[keys[j]] == Collapse(old(values)[keys[j]])
        invariant forall j :: i <= j < |keys| ==> values[keys[j]] == old(values)[keys[j]]
      {
        var key := keys[i];
        assert forall j :: 0 <= j < |keys| && j != i ==> keys[j] != key;
        if values[key].Arr? {
          values := values[key := Collapse(values[key])];
        }
        i := i + 1;
      }
    }
  }

  // ------------------------------------------------------------- session

  /** `checkSession`: a session with a user id passes, anything else is 401. */
  function CheckSession(session: Option<Session>): (g: Gate)
    ensures g == Next <==> session.Some? && session.value.userId.Some?
    ensures g != Next ==> g == Reject(401, "Session expired or invalid")
  {
    if session.Some? && session.value.userId.Some? then Next
    else Reject(401, "Session expired or invalid")
  }

  // ------------------------------------------------------------ blacklist

  /** The access decision for a client address against a blacklist. */
  function AccessDecision(blocked: set<string>, ip: string): (g: Gate)
    ensures g == Next <==> ip !in blocked
    ensures g != Next ==> g == Reject(403, "Access denied")
  {
    if ip in blocked then Reject(403, "Access denied") else Next
  }

  /** The module-level `blacklistedIPs` set and its three operations. */
  class IpBlacklist {
    var blocked: set<string>

    constructor ()
      ensures blocked == {}
    {
      blocked := {};
    }

    /** `blacklistIP` */
    method Block(ip: string)
      modifies this
      ensures blocked == old(blocked) + {ip}
    {
      blocked := blocked + {ip};
    }

    /** `removeFromBlacklist` */
    method Unblock(ip: string)
      modifies this
      ensures blocked == old(blocked) - {ip}
    {
      blocked := blocked - {ip};
    }

    /** `checkIPAccess`, with the address taken from `req.ip` or, when that
        is empty, from the connection. */
    method CheckIPAccess(reqIp: Option<string>, remoteAddress: string) returns (g: Gate)
      ensures g == AccessDecision(blocked, ClientAddress(reqIp, remoteAddress))
    {
      var ip := ClientAddress(reqIp, remoteAddress);
      if ip in blocked {
        return Reject(403, "Access denied");
      }
      g := Next;
    }
  }

  /** One call of `blacklistIP` or `removeFromBlacklist`. */
  datatype BlacklistOp = AddIp(ip: string) | RemoveIp(ip: string)

  /** The blacklist after a run of `blacklistIP` / `removeFromBlacklist` calls. */
  function ApplyOps(blocked: set<string>, ops: seq<BlacklistOp>): (r: set<string>)
    ensures forall a :: (forall i :: 0 <= i < |ops| ==> ops[i].ip != a) ==> (a in r <==> a in blocked)
    decreases |ops|
  {
    if ops == [] then blocked
    else
      var next := match ops[0]
        case AddIp(ip) => blocked + {ip}
        case RemoveIp(ip) => blocked - {ip};
      ApplyOps(next, ops[1..])
  }

  /** The last call that names an address decides whether it is refused;
      calls about other addresses do not matter. */
  lemma {:induction false} LastOpDecides(blocked: set<string>, ops: seq<BlacklistOp>, k: nat)
    requires k < |ops|
    requires forall i :: k < i < |ops| ==> ops[i].ip != ops[k].ip
    ensures AccessDecision(ApplyOps(blocked, ops), ops[k].ip) == if ops[k].AddIp? then Reject(403, "Access denied") else Next
    decreases |ops|
  {
    var next := match ops[0]
      case AddIp(ip) => blocked + {ip}
      case RemoveIp(ip) => blocked - {ip};
    if k == 0 {
      var a := ops[0].ip;
      forall i | 0 <= i < |ops[1..]| ensures ops[1..][i].ip != a {
        assert ops[1..][i] == ops[i + 1];
      }
    } else {
      forall i | k - 1 < i < |ops[1..]| ensures ops[1..][i].ip != ops[1..][k - 1].ip {
        assert ops[1..][i] == ops[i + 1];
      }
      LastOpDecides(next, ops[1..], k - 1);
    }
  }

  /** Blocking twice is blocking once; unblocking restores access. */
  lemma BlockIdempotent(blocked: set<string>, ip: string, other: string)
    ensures ApplyOps(blocked, [AddIp(ip), AddIp(ip)]) == ApplyOps(blocked, [AddIp(ip)])
    ensures AccessDecision(ApplyOps(blocked, [AddIp(ip), RemoveIp(ip)]), ip) == Next
    ensures other != ip ==>
      AccessDecision(ApplyOps(blocked, [AddIp(ip)]), other) == AccessDecision(blocked, other)
  {
    assert [AddIp(ip), AddIp(ip)][1..] == [AddIp(ip)];
    assert [AddIp(ip), RemoveIp(ip)][1..] == [RemoveIp(ip)];
  }
}
