/**
 * Permission checkers of api/auth/containerauth.py.
 *
 * A checker wraps a storage operation (`exec_op`): it decides from the
 * request method, the container's public flag and the user's access levels
 * whether the operation runs, and aborts with status 403 otherwise. The
 * access levels are what the access lookup of the surrounding package
 * returns for the user on the container and on the target parent; the role
 * constants are a `Roles` record.
 */
module ContainerAuth {
  import opened Wrappers

  /** The integer levels of the roles read-only, read-write and admin. */
  datatype Roles = Roles(ro: int, rw: int, admin: int)

  /** The role levels are ordered: ro <= rw <= admin. */
  predicate Ordered(roles: Roles)
  {
    roles.ro <= roles.rw <= roles.admin
  }

  /**
   * What a checker looks at: the request method (`verb`), whether the container is public,
   * whether a target parent container was given, and the user's access
   * level on the container and on the target parent.
   */
  datatype Request = Request(
    verb: string,
    isPublic: bool,
    hasParent: bool,
    containerAccess: int,
    parentAccess: int)

  /** Either the wrapped operation ran and gave `result`, or the request was aborted. */
  datatype Response<R> = Executed(result: R) | Aborted(status: int, message: string)

  /** The decision of `default_container`. */
  predicate DefaultContainerAllows(req: Request, roles: Roles)
  {
    if req.verb == "GET" && req.isPublic then true
    else if req.verb == "GET" then req.containerAccess >= roles.ro
    else if req.verb == "POST" then req.parentAccess >= roles.admin
    else if req.verb == "DELETE" then
      if req.hasParent then req.parentAccess >= roles.admin else req.containerAccess >= roles.admin
    else if req.verb == "PUT" && req.hasParent then
      req.containerAccess >= roles.admin && req.parentAccess >= roles.admin
    else if req.verb == "PUT" then req.containerAccess >= roles.rw
    else false
  }

  /** The decision of `collection_permissions`: collections have no parent. */
  predicate CollectionAllows(req: Request, roles: Roles)
  {
    if req.verb == "GET" && req.isPublic then true
    else if req.verb == "GET" then req.containerAccess >= roles.ro
    else if req.verb == "DELETE" then req.containerAccess >= roles.admin
    else if req.verb == "POST" then true
    else if req.verb == "PUT" then req.containerAccess >= roles.rw
    else false
  }

  /** The decision of `public_request`: only GET, and only on a public container. */
  predicate PublicAllows(req: Request)
  {
    req.verb == "GET" && req.isPublic
  }

  function Denied(verb: string): (msg: string)
  {
    "user not authorized to perform a " + verb + " operation on the container"
  }

  /** Run `exec` when `default_container` allows the request, else abort with 403. */
  function DefaultContainer<R>(req: Request, roles: Roles, exec: () -> R): (r: Response<R>)
    ensures r.Executed? <==> DefaultContainerAllows(req, roles)
    ensures r.Executed? ==> r.result == exec()
    ensures r.Aborted? ==> r == Aborted(403, Denied(req.verb))
  {
    if DefaultContainerAllows(req, roles) then Executed(exec()) else Aborted(403, Denied(req.verb))
  }

  /** Run `exec` when `collection_permissions` allows the request, else abort with 403. */
  function CollectionPermissions<R>(req: Request, roles: Roles, exec: () -> R): (r: Response<R>)
    ensures r.Executed? <==> CollectionAllows(req, roles)
    ensures r.Executed? ==> r.result == exec()
    ensures r.Aborted? ==> r == Aborted(403, Denied(req.verb))
  {
    if CollectionAllows(req, roles) then Executed(exec()) else Aborted(403, Denied(req.verb))
  }

  /** Run `exec` for a GET on a public container, else abort with 403. */
  function PublicRequest<R>(req: Request, exec: () -> R): (r: Response<R>)
    ensures r.Executed? <==> req.verb == "GET" && req.isPublic
    ensures r.Executed? ==> r.result == exec()
    ensures r.Aborted? ==> r.status == 403
  {
    if PublicAllows(req) then Executed(exec())
    else Aborted(403, "not authorized to perform a " + req.verb + " operation on this container")
  }

  /** The table `default_container` implements, method by method. */
  lemma DefaultContainerTable(req: Request, roles: Roles)
    ensures req.verb == "GET" && req.isPublic ==> DefaultContainerAllows(req, roles)
    ensures req.verb == "GET" && !req.isPublic ==>
      (DefaultContainerAllows(req, roles) <==> req.containerAccess >= roles.ro)
    ensures req.verb == "POST" ==> (DefaultContainerAllows(req, roles) <==> req.parentAccess >= roles.admin)
    ensures req.verb == "DELETE" && req.hasParent ==>
      (DefaultContainerAllows(req, roles) <==> req.parentAccess >= roles.admin)
    ensures req.verb == "DELETE" && !req.hasParent ==>
      (DefaultContainerAllows(req, roles) <==> req.containerAccess >= roles.admin)
    ensures req.verb == "PUT" && req.hasParent ==>
      (DefaultContainerAllows(req, roles) <==>
        req.containerAccess >= roles.admin && req.parentAccess >= roles.admin)
    ensures req.verb == "PUT" && !req.hasParent ==>
      (DefaultContainerAllows(req, roles) <==> req.containerAccess >= roles.rw)
    ensures req.verb !in ["GET", "POST", "DELETE", "PUT"] ==> !DefaultContainerAllows(req, roles)
  {
  }

  /** The table `collection_permissions` implements, method by method. */
  lemma CollectionTable(req: Request, roles: Roles)
    ensures req.verb == "GET" ==>
      (CollectionAllows(req, roles) <==> req.isPublic || req.containerAccess >= roles.ro)
    ensures req.verb == "POST" ==> CollectionAllows(req, roles)
    ensures req.verb == "DELETE" ==> (CollectionAllows(req, roles) <==> req.containerAccess >= roles.admin)
    ensures req.verb == "PUT" ==> (CollectionAllows(req, roles) <==> req.containerAccess >= roles.rw)
    ensures req.verb !in ["GET", "POST", "DELETE", "PUT"] ==> !CollectionAllows(req, roles)
  {
  }

  /** `more` asks the same thing as `req` by a user with at least the same access levels. */
  predicate AtLeastAsPrivileged(more: Request, req: Request)
  {
    more.verb == req.verb && more.isPublic == req.isPublic && more.hasParent == req.hasParent &&
    more.containerAccess >= req.containerAccess && more.parentAccess >= req.parentAccess
  }

  /** Raising a user's access levels never turns an allowed request into a denied one. */
  lemma DecisionsMonotone(req: Request, more: Request, roles: Roles)
    requires AtLeastAsPrivileged(more, req)
    ensures DefaultContainerAllows(req, roles) ==> DefaultContainerAllows(more, roles)
    ensures CollectionAllows(req, roles) ==> CollectionAllows(more, roles)
    ensures PublicAllows(req) ==> PublicAllows(more)
  {
  }

  /** What an anonymous public request may do, any user may do under the other two checkers. */
  lemma PublicIsNarrowest(req: Request, roles: Roles)
    requires PublicAllows(req)
    ensures DefaultContainerAllows(req, roles) && CollectionAllows(req, roles)
  {
  }

  /**
   * With ordered roles, admin on both the container and the target parent
   * allows each of the four methods under both checkers.
   */
  lemma AdminMayDoAll(req: Request, roles: Roles)
    requires Ordered(roles)
    requires req.containerAccess >= roles.admin && req.parentAccess >= roles.admin
    requires req.verb in ["GET", "POST", "DELETE", "PUT"]
    ensures DefaultContainerAllows(req, roles) && CollectionAllows(req, roles)
  {
  }

  /** A value in a query document. */
  datatype QValue =
    | Flag(b: bool)
    | ElemMatch(id: string, site: string)
    | AnyOf(clauses: seq<map<string, QValue>>)
    // Any other value a caller's query holds; the wrappers keep it as it is.
    | Literal(text: string)

  /** A query document that the list checkers rewrite in place before the listing runs. */
  class Query {
    var entries: map<string, QValue>

    constructor (initial: map<string, QValue>)
      ensures entries == initial
    {
      entries := initial;
    }
  }

  /** The requesting user as the handler knows it, and its "public" request parameter. */
  datatype Handler = Handler(uid: string, site: string, publicParam: bool)

  /** A user whose projects are being listed. */
  datatype User = User(id: string, site: string)

  /** Either the listing ran with the (rewritten) query, or the request was aborted. */
  datatype ListResponse = Forwarded | Forbidden(status: int, message: string)

  /** The filter "the user holds some permission on the document". */
  function PermissionFilter(h: Handler): (f: QValue)
  {
    ElemMatch(h.uid, h.site)
  }

  /**
   * The query `list_permission_checker` passes on: the permission filter is
   * required, or, with the "public" parameter set, replaced by an "$or" of
   * `public: True` and the permission filter. Every other key is kept.
   */
  function PermissionQuery(e: map<string, QValue>, h: Handler): (r: map<string, QValue>)
    ensures !h.publicParam ==> "permissions" in r && r["permissions"] == PermissionFilter(h)
    ensures h.publicParam ==> ("permissions" !in r && "$or" in r &&
      r["$or"] == AnyOf([map["public" := Flag(true)], map["permissions" := PermissionFilter(h)]]))
    ensures h.publicParam ==> r.Keys == e.Keys - {"permissions"} + {"$or"}
    ensures !h.publicParam ==> r.Keys == e.Keys + {"permissions"}
    ensures forall k :: k in e && k != "permissions" && k != "$or" ==> r[k] == e[k]
    ensures !h.publicParam && "$or" in e ==> r["$or"] == e["$or"]
  {
    var withPermissions := e["permissions" := PermissionFilter(h)];
    if h.publicParam then
      (withPermissions - {"permissions"})["$or" := AnyOf([map["public" := Flag(true)], map["permissions" := PermissionFilter(h)]])]
    else withPermissions
  }

  /**
   * `list_permission_checker`: a user other than the requester (different id
   * or site) is refused with 403 and the query is left alone; otherwise the
   * query is rewritten to `PermissionQuery` and the listing runs.
   */
  method ListPermissionChecker(h: Handler, q: Query, user: Option<User>) returns (r: ListResponse)
    modifies q
    ensures r.Forbidden? <==> user.Some? && (user.value.id != h.uid || user.value.site != h.site)
    ensures r.Forbidden? ==> r.status == 403 && q.entries == old(q.entries)
    ensures r.Forwarded? ==> q.entries == PermissionQuery(old(q.entries), h)
  {
    if user.Some? && (user.value.id != h.uid || user.value.site != h.site) {
      return Forbidden(403, "User " + h.uid + " may not see the Projects of User " + user.value.id);
    }
    q.entries := q.entries["permissions" := PermissionFilter(h)];
    if h.publicParam {
      var permissions := q.entries["permissions"];
      q.entries := q.entries - {"permissions"};
      q.entries := q.entries["$or" := AnyOf([map["public" := Flag(true)], map["permissions" := permissions]])];
    }
    r := Forwarded;
  }

  /** The query `list_public_request` passes on: `public: True` is added only when `public` is set. */
  function PublicQuery(e: map<string, QValue>, public: bool): (r: map<string, QValue>)
    ensures public ==> "public" in r && r["public"] == Flag(true)
    ensures r.Keys == e.Keys + (if public then {"public"} else {})
    ensures forall k :: k in e && (k != "public" || !public) ==> r[k] == e[k]
  {
    if public then e["public" := Flag(true)] else e
  }

  /** `list_public_request`: rewrite the query to `PublicQuery` and run the listing. */
  method ListPublicRequest(q: Query, public: bool) returns (r: ListResponse)
    modifies q
    ensures r == Forwarded
    ensures q.entries == PublicQuery(old(q.entries), public)
    ensures !public ==> q.entries == old(q.entries)
  {
    if public {
      q.entries := q.entries["public" := Flag(true)];
    }
    r := Forwarded;
  }
}
