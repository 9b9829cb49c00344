/** The database-backed HTTP handlers: `UserHandler` of internal/handlers/handlers.go,
    `UserHandler` of cmd/server-variants/main.go and `UserService` of main-variants.go,
    with the additional-property filter they share, the GET route's id parsing, and the
    validation-mode to specification-file mapping. Echo's binding, the JSON re-decode and
    the database service's answer enter as inputs; each create handler reports the call
    it makes to the database service, if any. */
module DbHandlers {
  import opened Wrappers
  import opened Json
  import opened Numbers
  import opened Users
  import opened Http
  import opened Database

  /** The request fields `UserRequest` defines. */
  const KnownFields: set<string> := {"email", "age", "name", "bio", "is_active"}

  /** The additional properties of a raw body: every entry whose key is not a known field,
      with its value unchanged. */
  function RemoveKnown(raw: map<string, Json>): (props: map<string, Json>)
    ensures forall k :: k in props <==> k in raw && k !in KnownFields
    ensures forall k :: k in props ==> props[k] == raw[k]
  {
    map k | k in raw && k !in KnownFields :: raw[k]
  }

  /** No known field survives, and a body of known fields only leaves nothing. */
  lemma RemoveKnownDropsKnown(raw: map<string, Json>)
    ensures forall k :: k in KnownFields ==> k !in RemoveKnown(raw)
    ensures raw.Keys <= KnownFields ==> RemoveKnown(raw) == map[]
  {
    if raw.Keys <= KnownFields {
      assert RemoveKnown(raw).Keys == {};
    }
  }

  /** internal/handlers: the five `delete` calls on the raw body. */
  function DeleteKnown(raw: map<string, Json>): map<string, Json> {
    raw - {"email"} - {"age"} - {"name"} - {"bio"} - {"is_active"}
  }

  /** The `delete` calls and the known-field filter agree. */
  lemma DeleteKnownIsRemoveKnown(raw: map<string, Json>)
    ensures DeleteKnown(raw) == RemoveKnown(raw)
  {
  }

  /** The `for key, value := range rawBody` loop of server-variants and main-variants:
      copy every entry whose key is not a known field. */
  method CollectAdditional(raw: map<string, Json>) returns (props: map<string, Json>)
    ensures props == RemoveKnown(raw)
  {
    props := map[];
    var keys := raw.Keys;
    while keys != {}
      invariant keys <= raw.Keys
      invariant props == map k | k in raw.Keys - keys && k !in KnownFields :: raw[k]
      decreases keys
    {
      var key :| key in keys;
      if key !in KnownFields {
        props := props[key := raw[key]];
      }
      keys := keys - {key};
    }
  }

  /** A call to the database service's `CreateUser`. */
  datatype CreateCall = CreateCall(req: UserRequest, props: map<string, Json>)

  /** What a create handler does: the database call it makes, if any, and its answer. */
  datatype Handled = Handled(call: Option<CreateCall>, response: Response)

  function BadRequest(message: string): Response {
    Response(StatusBadRequest, ErrorJson(message))
  }

  /** internal/handlers `UserHandler.CreateUser`: bind the request, then bind the body
      again as a raw map; with that map the known fields are deleted and the rest passed
      on, without it the call passes no properties. The database error text is answered
      as is with 500. `answer` is the database service's answer to the call. */
  function HandlerCreateUser(boundReq: Result<UserRequest, string>, boundRaw: Result<map<string, Json>, string>,
                             answer: Result<User, string>): (h: Handled)
    ensures boundReq.Failure? ==> h == Handled(None, BadRequest("Invalid JSON format"))
    ensures boundReq.Success? ==>
      h.call == Some(CreateCall(boundReq.value, if boundRaw.Success? then RemoveKnown(boundRaw.value) else map[]))
    ensures boundReq.Success? && answer.Failure? ==>
      h.response == Response(StatusInternalServerError, ErrorJson(answer.error))
    ensures boundReq.Success? && answer.Success? ==>
      h.response == Response(StatusCreated, UserJson(answer.value))
  {
    match boundReq
    case Failure(_) => Handled(None, BadRequest("Invalid JSON format"))
    case Success(req) =>
      var props := if boundRaw.Success? then DeleteKnown(boundRaw.value) else map[];
      DeleteKnownIsRemoveKnown(if boundRaw.Success? then boundRaw.value else map[]);
      var response := match answer
        case Failure(e) => Response(StatusInternalServerError, ErrorJson(e))
        case Success(user) => Response(StatusCreated, UserJson(user));
      Handled(Some(CreateCall(req, props)), response)
  }

  /** internal/handlers `UserHandler.GetUserById`: any error is 404 "User not found". */
  function HandlerGetUser(answer: Result<User, string>): (r: Response)
    ensures answer.Failure? ==> r == Response(StatusNotFound, ErrorJson("User not found"))
    ensures answer.Success? ==> r == Response(StatusOK, UserJson(answer.value))
  {
    match answer
    case Failure(_) => Response(StatusNotFound, ErrorJson("User not found"))
    case Success(user) => Response(StatusOK, UserJson(user))
  }

  /** Through internal/handlers a database fault on lookup is indistinguishable from a
      missing user. */
  lemma HandlerMasksFaults(d: Db, id: int, fault: string)
    ensures HandlerGetUser(GetUserByID(d, id, Some(fault))) == Response(StatusNotFound, ErrorJson("User not found"))
    ensures id !in d.users.rows ==>
      HandlerGetUser(GetUserByID(d, id, None)) == Response(StatusNotFound, ErrorJson("User not found"))
  {
  }

  /** cmd/server-variants and main-variants `CreateUser`: bind the body as a raw map,
      decode it again into a request, filter the additional properties, and call the
      database service; its error is answered with 500 and a prefix. */
  function VariantsCreateUser(boundRaw: Result<map<string, Json>, string>, decoded: Result<UserRequest, string>,
                              answer: Result<User, string>): (h: Handled)
    ensures boundRaw.Failure? ==> h == Handled(None, BadRequest("Invalid JSON format"))
    ensures boundRaw.Success? && decoded.Failure? ==> h == Handled(None, BadRequest("Invalid request format"))
    ensures boundRaw.Success? && decoded.Success? ==>
      h.call == Some(CreateCall(decoded.value, RemoveKnown(boundRaw.value)))
    ensures h.call.Some? && answer.Failure? ==>
      h.response == Response(StatusInternalServerError, ErrorJson("Failed to create user: " + answer.error))
    ensures h.call.Some? && answer.Success? ==> h.response == Response(StatusCreated, UserJson(answer.value))
  {
    match boundRaw
    case Failure(_) => Handled(None, BadRequest("Invalid JSON format"))
    case Success(raw) =>
      match decoded
      case Failure(_) => Handled(None, BadRequest("Invalid request format"))
      case Success(req) =>
        var response := match answer
          case Failure(e) => Response(StatusInternalServerError, ErrorJson("Failed to create user: " + e))
          case Success(user) => Response(StatusCreated, UserJson(user));
        Handled(Some(CreateCall(req, RemoveKnown(raw))), response)
  }

  /** cmd/server-variants and main-variants `GetUserById`: exactly the text
      "user not found" is 404, any other error 500 with a prefix. */
  function VariantsGetUser(answer: Result<User, string>): (r: Response)
    ensures answer.Success? ==> r == Response(StatusOK, UserJson(answer.value))
    ensures answer.Failure? && answer.error == UserNotFound ==>
      r == Response(StatusNotFound, ErrorJson("User not found"))
    ensures answer.Failure? && answer.error != UserNotFound ==>
      r == Response(StatusInternalServerError, ErrorJson("Failed to get user: " + answer.error))
  {
    match answer
    case Success(user) => Response(StatusOK, UserJson(user))
    case Failure(e) =>
      if e == UserNotFound then Response(StatusNotFound, ErrorJson("User not found"))
      else Response(StatusInternalServerError, ErrorJson("Failed to get user: " + e))
  }

  /** Against the database service, a missing id is 404 and a fault is 500 (its text
      carries both prefixes); a stored user is 200. */
  lemma VariantsGetAgainstDatabase(d: Db, id: int, fault: Option<string>)
    ensures fault.None? && id !in d.users.rows ==>
      VariantsGetUser(GetUserByID(d, id, fault)).status == StatusNotFound
    ensures fault.Some? ==>
      VariantsGetUser(GetUserByID(d, id, fault)) == Response(StatusInternalServerError, ErrorJson("Failed to get user: failed to get user: " + fault.value))
    ensures fault.None? && id in d.users.rows ==>
      VariantsGetUser(GetUserByID(d, id, fault)) == Response(StatusOK, UserJson(ToUser(d.users.rows[id])))
  {
    if fault.Some? {
      var e := "failed to get user: " + fault.value;
      assert e[0] == 'f' && UserNotFound[0] == 'u';
      assert "Failed to get user: " + e == "Failed to get user: failed to get user: " + fault.value;
    }
  }

  /** The GET route of main-variants: the path id must parse as a 64-bit integer, else
      400 "Invalid user ID format" and no lookup. `lookup` is the database service's answer
      for an id. */
  function GetRoute(idText: string, lookup: int -> Result<User, string>): (r: (Option<int>, Response))
    ensures ParseInt64(idText).None? ==> r == (None, BadRequest("Invalid user ID format"))
    ensures ParseInt64(idText).Some? ==>
      r.0 == ParseInt64(idText) && r.1 == VariantsGetUser(lookup(ParseInt64(idText).value))
  {
    match ParseInt64(idText)
    case None => (None, BadRequest("Invalid user ID format"))
    case Some(id) => (Some(id), VariantsGetUser(lookup(id)))
  }

  /** Every 64-bit id written in decimal reaches the lookup. */
  lemma GetRouteAcceptsDecimalIds(id: int, lookup: int -> Result<User, string>)
    requires InInt64(id)
    ensures GetRoute(FormatInt(id), lookup).0 == Some(id)
  {
    ParseFormat(id);
  }

  /** `createApp`'s choice of specification file. */
  function SpecFile(mode: string): (file: string)
    ensures mode == "flexible" ==> file == "openapi-flexible.yaml"
    ensures mode == "strict" ==> file == "openapi-strict.yaml"
    ensures mode != "flexible" && mode != "strict" ==> file == "openapi.yaml"
  {
    if mode == "flexible" then "openapi-flexible.yaml"
    else if mode == "strict" then "openapi-strict.yaml"
    else "openapi.yaml"
  }

  /** `os.Getenv` read with a fallback: an unset or empty variable gives the default. */
  function EnvOrDefault(value: string, default: string): (r: string)
    ensures value == "" ==> r == default
    ensures value != "" ==> r == value
  {
    if value == "" then default else value
  }

  /** An unset `VALIDATION_MODE` is "default" and selects openapi.yaml; an unset `PORT` is
      "8080". The file is openapi.yaml exactly when the mode is neither special value. */
  lemma DefaultConfiguration(mode: string)
    ensures EnvOrDefault("", "default") == "default" && SpecFile(EnvOrDefault("", "default")) == "openapi.yaml"
    ensures EnvOrDefault("", "8080") == "8080"
    ensures SpecFile(mode) == "openapi.yaml" <==> mode != "flexible" && mode != "strict"
  {
  }

  /** Through server-variants, the stored `additional_data` is the encoding of exactly the
      unknown fields of the body, and NULL when there are none. */
  lemma VariantsStoreUnknownFields(d: Db, raw: map<string, Json>, req: UserRequest,
                                   marshalProps: map<string, Json> -> Result<string, string>,
                                   marshalJob: JobQueue.JobPayload -> Result<string, string>,
                                   jobFault: Option<string>, now: JobStore.Time)
    requires CreateUser(d, req, RemoveKnown(raw), marshalProps, None, marshalJob, jobFault, now).result.Success?
    ensures var r := CreateUser(d, req, RemoveKnown(raw), marshalProps, None, marshalJob, jobFault, now);
      var id := r.result.value.id;
      id in r.db.users.rows &&
      (raw.Keys <= KnownFields ==> r.db.users.rows[id].additionalData.None?) &&
      (!(raw.Keys <= KnownFields) ==>
        r.db.users.rows[id].additionalData == Some(marshalProps(RemoveKnown(raw)).value))
  {
    var props := RemoveKnown(raw);
    RemoveKnownDropsKnown(raw);
    if !(raw.Keys <= KnownFields) {
      var k :| k in raw && k !in KnownFields;
      assert k in props;
    }
  }
}
