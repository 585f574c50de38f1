// POST /api/routers and PUT /api/routers/{id}: the protocol whitelist and
// the partial update of a stored router.
module RouterRoutes {
  import opened Wrappers
  import opened Http
  import opened Store
  import Factory

  datatype RouterCreate = RouterCreate(
    name: string, host: string, proto: string, port: int,
    username: string, password: string, tlsVerify: bool)

  /** An update document: a missing field is None. */
  datatype RouterUpdate = RouterUpdate(
    name: Option<string>, host: Option<string>, proto: Option<string>, port: Option<int>,
    username: Option<string>, password: Option<string>, tlsVerify: Option<bool>)

  const NoChanges := RouterUpdate(None, None, None, None, None, None, None)

  /** The row `create_router` stores: the password encrypted. */
  function NewRouterRow(dto: RouterCreate, encrypt: string -> string): RouterRow {
    RouterRow(dto.name, dto.host, dto.proto, dto.port, dto.username, encrypt(dto.password), dto.tlsVerify)
  }

  /** `create_router`: a protocol outside the four accepted ones is a 400
      and stores nothing; otherwise the router is stored under a new id. */
  method CreateRouter(db: Database, dto: RouterCreate, encrypt: string -> string) returns (r: Result<int, HttpError>)
    requires db.Valid()
    modifies db`routers, db`lastRouterId
    ensures db.Valid()
    ensures !ValidProto(dto.proto) ==> r.Failure? && r.error.status == BadRequest
    ensures r.Failure? ==> db.routers == old(db.routers)
    ensures ValidProto(dto.proto) ==>
      && r.Success? && r.value !in old(db.routers)
      && db.routers == old(db.routers)[r.value := NewRouterRow(dto, encrypt)]
  {
    if !ValidProto(dto.proto) {
      return Failure(HttpError(BadRequest, "proto must be one of 'rest', 'rest-http', 'api', 'api-plain'"));
    }
    var id := db.lastRouterId + 1;
    db.routers := db.routers[id := NewRouterRow(dto, encrypt)];
    db.lastRouterId := id;
    r := Success(id);
  }

  /** The stored router after an update: the protocol is checked first and a
      bad one refuses the whole update; every other field given replaces the
      stored one, and a new password is encrypted only when non-empty. */
  function UpdatedRouter(row: RouterRow, dto: RouterUpdate, encrypt: string -> string): (r: Result<RouterRow, HttpError>)
    ensures r.Failure? <==> dto.proto.Some? && !ValidProto(dto.proto.value)
    ensures r.Failure? ==> r.error.status == BadRequest
  {
    if dto.proto.Some? && !ValidProto(dto.proto.value) then Failure(HttpError(BadRequest, "invalid proto"))
    else
      Success(RouterRow(
        dto.name.GetOr(row.name), dto.host.GetOr(row.host), dto.proto.GetOr(row.proto),
        dto.port.GetOr(row.port), dto.username.GetOr(row.username),
        if dto.password.Some? && dto.password.value != "" then encrypt(dto.password.value) else row.secretEnc,
        dto.tlsVerify.GetOr(row.tlsVerify)))
  }

  /** An update naming no field leaves the router as it is, and so does one
      carrying an empty password only. */
  lemma EmptyUpdateKeepsRouter(row: RouterRow, encrypt: string -> string)
    ensures UpdatedRouter(row, NoChanges, encrypt) == Success(row)
    ensures UpdatedRouter(row, NoChanges.(password := Some("")), encrypt) == Success(row)
  {
  }

  /** Applying the same update twice has the effect of applying it once.
      Each request encrypts a new password afresh, so the second may store a
      different token: the rows agree on every other field, and both tokens
      decrypt to the same password, so the same adapter is built. */
  lemma UpdateIdempotent(row: RouterRow, dto: RouterUpdate, encrypt1: string -> string,
                         encrypt2: string -> string, decrypt: string -> Option<string>)
    requires forall pw :: decrypt(encrypt1(pw)) == Some(pw)
    requires forall pw :: decrypt(encrypt2(pw)) == Some(pw)
    requires UpdatedRouter(row, dto, encrypt1).Success?
    ensures var once := UpdatedRouter(row, dto, encrypt1).value;
      var twice := UpdatedRouter(once, dto, encrypt2);
      && twice.Success?
      && twice.value.(secretEnc := once.secretEnc) == once
      && decrypt(twice.value.secretEnc) == decrypt(once.secretEnc)
      && Factory.MakeClient(twice.value, decrypt) == Factory.MakeClient(once, decrypt)
  {
    var once := UpdatedRouter(row, dto, encrypt1).value;
    var twice := UpdatedRouter(once, dto, encrypt2).value;
    if dto.password.Some? && dto.password.value != "" {
      assert decrypt(twice.secretEnc) == Some(dto.password.value) == decrypt(once.secretEnc);
    }
  }

  /** With a cipher whose decryption undoes its encryption, the adapter built
      for a created router, or for an updated one given a new password, logs
      in with that password; an update without one keeps the old login. */
  lemma ClientPasswordAfterWrites(dto: RouterCreate, row: RouterRow, upd: RouterUpdate,
                                  encrypt: string -> string, decrypt: string -> Option<string>)
    requires forall pw :: decrypt(encrypt(pw)) == Some(pw)
    requires UpdatedRouter(row, upd, encrypt).Success?
    ensures Factory.MakeClient(NewRouterRow(dto, encrypt), decrypt).password == dto.password
    ensures var c := Factory.MakeClient(UpdatedRouter(row, upd, encrypt).value, decrypt);
      c.password == if upd.password.Some? && upd.password.value != "" then upd.password.value
                    else Factory.MakeClient(row, decrypt).password
  {
    assert decrypt(encrypt(dto.password)) == Some(dto.password);
    if upd.password.Some? {
      assert decrypt(encrypt(upd.password.value)) == Some(upd.password.value);
    }
  }

  /** The body of `update_router` after the lookup: checks the protocol,
      then sets every field the update names on the stored row. */
  method ApplyUpdate(stored: RouterRow, dto: RouterUpdate, encrypt: string -> string)
    returns (r: Result<RouterRow, HttpError>)
    ensures r == UpdatedRouter(stored, dto, encrypt)
  {
    var row := stored;
    if dto.proto.Some? {
      if !ValidProto(dto.proto.value) {
        return Failure(HttpError(BadRequest, "invalid proto"));
      }
      row := row.(proto := dto.proto.value);
    }
    if dto.name.Some? {
      row := row.(name := dto.name.value);
    }
    if dto.host.Some? {
      row := row.(host := dto.host.value);
    }
    if dto.port.Some? {
      row := row.(port := dto.port.value);
    }
    if dto.username.Some? {
      row := row.(username := dto.username.value);
    }
    if dto.password.Some? && dto.password.value != "" {
      row := row.(secretEnc := encrypt(dto.password.value));
    }
    if dto.tlsVerify.Some? {
      row := row.(tlsVerify := dto.tlsVerify.value);
    }
    r := Success(row);
  }

  /** `update_router`: an unknown id is a 404; a refused update stores
      nothing; otherwise the updated row replaces the stored one. */
  method UpdateRouter(db: Database, id: int, dto: RouterUpdate, encrypt: string -> string)
    returns (r: Result<RouterRow, HttpError>)
    requires db.Valid()
    modifies db`routers
    ensures db.Valid()
    ensures id !in old(db.routers) ==> r.Failure? && r.error.status == NotFound
    ensures id in old(db.routers) ==> r == UpdatedRouter(old(db.routers)[id], dto, encrypt)
    ensures db.routers == if r.Success? then old(db.routers)[id := r.value] else old(db.routers)
  {
    if id !in db.routers {
      return Failure(HttpError(NotFound, "router not found"));
    }
    r := ApplyUpdate(db.routers[id], dto, encrypt);
    if r.Success? {
      db.PutRouter(id, r.value);
    }
  }
}
