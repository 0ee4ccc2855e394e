/** The application error value of internal/apperrors: a message, a machine
    code and the HTTP status a handler answers with. Errors are compared by
    code only, so the code is what the rest of the model reasons about. */
module AppErrors {

  const StatusOK := 200
  const StatusBadRequest := 400
  const StatusUnauthorized := 401
  const StatusNotFound := 404
  const StatusInternalServerError := 500

  /** An error message as `AppendMessage` builds it: the constant's text,
      then each appended detail in turn. The structure is kept so that an
      error can be told apart from the errors it wraps; `Text` renders it. */
  datatype Message = Plain(text: string) | Appended(prior: Message, detail: Detail)

  /** One argument of `AppendMessage`: a text (a foreign error rendered by
      `%v`, or `<nil>`), or an `*AppError`, which `%v` renders with its
      `Error()` method. */
  datatype Detail = Text(text: string) | Nested(inner: AppError)

  datatype AppError = AppError(message: Message, code: string, httpCode: int)
  {
    /** The error text a handler sends: the code, then ": ", then the message. */
    function Error(): string
    {
      ErrorText(this)
    }

    /** A new error carrying this error's code and HTTP status, whose message is
        this message followed by the rendered details; the receiver is a value
        and so is left as it was. */
    function AppendMessage(details: string): (e: AppError)
      ensures e.code == code && e.httpCode == httpCode
    {
      AppError(Appended(message, Text(details)), code, httpCode)
    }
  }

  function ErrorText(e: AppError): string
    decreases e
  {
    e.code + ": " + MessageText(e.message)
  }

  /** `fmt.Sprintf("%v : %v", message, details)` for one appended detail:
      the slice of details prints in square brackets. */
  function MessageText(m: Message): string
    decreases m
  {
    match m
    case Plain(t) => t
    case Appended(p, d) => MessageText(p) + " : [" + DetailText(d) + "]"
  }

  function DetailText(d: Detail): string
    decreases d
  {
    match d
    case Text(t) => t
    case Nested(e) => ErrorText(e)
  }

  /** How `AppendMessage` renders a nil error, and the text of `sql.ErrNoRows`. */
  const NilText := "<nil>"
  const NoRowsText := "sql: no rows in result set"

  /** `outer.AppendMessage(inner)` for an inner `*AppError`. */
  function Wrap(outer: AppError, inner: AppError): (e: AppError)
    ensures e.code == outer.code && e.httpCode == outer.httpCode
  {
    AppError(Appended(outer.message, Nested(inner)), outer.code, outer.httpCode)
  }

  /** The message `AppendMessage` renders: the old message, " : [", the
      details, "]". */
  lemma AppendMessageText(e: AppError, details: string)
    ensures MessageText(e.AppendMessage(details).message) == MessageText(e.message) + " : [" + details + "]"
  {
  }

  /** Wrapping renders exactly as appending the inner error's text. */
  lemma WrapText(outer: AppError, inner: AppError)
    ensures MessageText(Wrap(outer, inner).message) == MessageText(outer.AppendMessage(inner.Error()).message)
    ensures Wrap(outer, inner).Error() == outer.AppendMessage(inner.Error()).Error()
  {
  }

  /** A wrapped error is never the error it wraps. */
  lemma WrapIsNotInner(outer: AppError, inner: AppError)
    ensures Wrap(outer, inner) != inner
  {
  }

  /** A Go `error`: either an `*AppError` or an error of some other type. */
  datatype GoError = App(app: AppError) | Foreign(text: string)

  /** `apperrors.Is`: the error is an `*AppError` with the target's code. */
  predicate Is(err: GoError, target: AppError)
  {
    match err
    case App(e) => e.code == target.code
    case Foreign(_) => false
  }

  /** The code in front of the first ':' of an error text. */
  function CodeOf(s: string): (c: string)
    ensures |c| <= |s| && c == s[..|c|]
    ensures ':' !in c
  {
    if s == [] || s[0] == ':' then [] else [s[0]] + CodeOf(s[1..])
  }

  /** Reading the code back off a text that starts with it. */
  lemma {:induction false} CodeOfPrefix(p: string, rest: string)
    requires ':' !in p
    requires rest == [] || rest[0] == ':'
    ensures CodeOf(p + rest) == p
  {
    if p != [] {
      assert (p + rest)[1..] == p[1..] + rest;
      CodeOfPrefix(p[1..], rest);
    }
  }

  /** The layout of an error text: the code, ": ", then the message. */
  lemma ErrorLayout(e: AppError)
    ensures |e.Error()| == |e.code| + 2 + |MessageText(e.message)|
    ensures e.Error()[..|e.code|] == e.code
    ensures e.Error()[|e.code|..|e.code| + 2] == ": "
    ensures e.Error()[|e.code| + 2..] == MessageText(e.message)
  {
  }

  /** Appending details only ever extends the message. */
  lemma AppendExtendsMessage(e: AppError, details: string)
    ensures |MessageText(e.AppendMessage(details).message)| > |MessageText(e.message)|
    ensures MessageText(e.AppendMessage(details).message)[..|MessageText(e.message)|] == MessageText(e.message)
  {
  }

  /** The text `Error()` produces names the error's code, so two texts with
      different codes never come from the same error. */
  lemma {:induction false} ErrorNamesCode(e: AppError)
    requires ':' !in e.code
    ensures CodeOf(e.Error()) == e.code
  {
    assert e.Error() == e.code + (": " + MessageText(e.message));
    CodeOfPrefix(e.code, ": " + MessageText(e.message));
  }

  /** `Is` compares codes: an appended error is still recognised as the
      original, and as nothing with another code. */
  lemma AppendKeepsIdentity(e: AppError, details: string, target: AppError)
    ensures Is(App(e.AppendMessage(details)), target) <==> Is(App(e), target)
    ensures Is(App(e.AppendMessage(details)), e)
  {
  }

  /** Once an error is re-wrapped by an outer constant, only the outer code is
      visible: a check for the inner error fails, and the outer HTTP status is
      the one reported. */
  lemma WrappingHidesInner(inner: AppError, outer: AppError, details: string)
    requires outer.code != inner.code
    ensures !Is(App(outer.AppendMessage(details)), inner)
    ensures outer.AppendMessage(details).httpCode == outer.httpCode
  {
  }

  /** `Is` never recognises an error that is not an `*AppError`. */
  lemma ForeignIsNever(text: string, target: AppError)
    ensures !Is(Foreign(text), target)
  {
  }

  /** Two constants declared with the same code cannot be told apart by `Is`,
      though they carry different HTTP statuses. */
  lemma SharedCodeIndistinguishable()
    ensures Is(App(UserHashPasswordGenerateFromPassword), UserRepoFindUserByUUIDGetContext)
    ensures Is(App(UserRepoFindUserByUUIDGetContext), UserHashPasswordGenerateFromPassword)
    ensures UserHashPasswordGenerateFromPassword.httpCode != UserRepoFindUserByUUIDGetContext.httpCode
  {
  }

  // internal/apperrors/model.go
  const UserHashPasswordGenerateFromPassword: AppError := AppError(Plain("The user hash password generate operation has been failed"), "USER_REPO_FIND_USER_BY_UUID_GET_CONTEXT", StatusBadRequest)
  const UserComparePasswordsCompareHashAndPassword: AppError := AppError(Plain("The user compare hash and password operation has been failed"), "USER_COMPARE_PASSWORDS_COMPARE_HASH_AND_PASSWORD", StatusBadRequest)
  const RoleCanNoPermission: AppError := AppError(Plain("Auth user doesn't have permissions"), "ROLE_CAN_NO_PERMISSION", StatusBadRequest)
  const HasPermissionsToUpdateUser: AppError := AppError(Plain("Auth user doesn't have permission to update user"), "HAS_PERMISSIONS_TO_UPDATE_USER", StatusBadRequest)
  const HasPermissionsDeleteUser: AppError := AppError(Plain("Auth user doesn't have permission to delete user"), "HAS_PERMISSIONS_DELETE_USER", StatusBadRequest)

  // internal/apperrors/repository.go
  const UserRepoFindUserByUUIDGetContext: AppError := AppError(Plain("FindUserByUUID operation has been failed"), "USER_REPO_FIND_USER_BY_UUID_GET_CONTEXT", StatusInternalServerError)
  const UserRepoFindUserByUUIDGetDataNotFound: AppError := AppError(Plain("FindUserByUUID operation has been failed. Data not found"), "USER_REPO_FIND_USER_BY_UUID_GET_DATA_NOT_FOUND", StatusInternalServerError)
  const UserRepoFindUserByNicknameGetContext: AppError := AppError(Plain("FindUserByNickname user by nickname operation has been failed"), "USER_REPO_FIND_USER_BY_NICKNAME_GET_CONTEXT", StatusInternalServerError)
  const UserRepoFindUserByNicknameGetDataNotFound: AppError := AppError(Plain("FindUserByNickname user by nickname operation has been failed. Data not found"), "USER_REPO_FIND_USER_BY_NICKNAME_GET_DATA_NOT_FOUND", StatusInternalServerError)
  const UserRepoSaveUserQueryRowxContext: AppError := AppError(Plain("Add operation has been failed"), "USER_REPO_ADD_USER_QUERY_ROWX_CONTEXT", StatusInternalServerError)
  const UserRepoUpdateUserQueryRowxContext: AppError := AppError(Plain("The update operation has been failed"), "USER_REPO_UPDATE_USER_QUERY_ROWX_CONTEXT", StatusInternalServerError)
  const UserRepoDeleteUserByUserIDExecContext: AppError := AppError(Plain("The delete operation from db has been failed"), "USER_REPO_DELETE_USER_BY_USER_ID_EXEC_CONTEXT", StatusInternalServerError)
  const UserRepoDeleteUserByUserIDRowsAffected: AppError := AppError(Plain("The delete operation from db affected rows has been failed"), "USER_REPO_DELETE_USER_BY_USER_ID_ROWS_AFFECTED", StatusInternalServerError)
  const UserRepoDeleteUserByUserIDEmptyRowsAffected: AppError := AppError(Plain("The delete operation from db doesn't have affected rows"), "USER_REPO_DELETE_USER_BY_USER_ID_EMPTY_ROWS_AFFECTED", StatusInternalServerError)
  const UserRepoGetUsersQueryxContext: AppError := AppError(Plain("The get users query operation has been failed"), "USER_REPO_GET_USERS_QUERYX_CONTEXT", StatusInternalServerError)
  const UserRepoGetUsersStructScan: AppError := AppError(Plain("The get users struct scan operation has been failed"), "USER_REPO_GET_USERS_STRUCT_SCAN", StatusInternalServerError)
  const UserRepoGetUsersRows: AppError := AppError(Plain("The get users rows operation has been failed"), "USER_REPO_GET_USERS_ROWS", StatusInternalServerError)
  const VoteRepoSaveVoteQueryRowxContext: AppError := AppError(Plain("The save vote operation has been failed"), "VOTE_REPO_SAVE_VOTE_QUERY_ROWX_CONTEXT", StatusInternalServerError)
  const VoteRepoSaveVoteQueryRowxContextDataNotFound: AppError := AppError(Plain("The save vote operation has been failed. Data not found"), "VOTE_REPO_SAVE_VOTE_QUERY_ROWX_CONTEXT_DATA_NOT_FOUND", StatusInternalServerError)
  const VoteRepoUpdateVoteQueryRowxContext: AppError := AppError(Plain("The update vote operation has been failed"), "VOTE_REPO_UPDATE_VOTE_QUERY_ROWX_CONTEXT", StatusInternalServerError)
  const VoteRepoUpdateVoteQueryRowxContextDataNotFound: AppError := AppError(Plain("The update vote operation has been failed. Data not found"), "VOTE_REPO_UPDATE_VOTE_QUERY_ROWX_CONTEXT_DATA_NOT_FOUND", StatusInternalServerError)
  const VoteRepoFindVoteByIDGetContext: AppError := AppError(Plain("The find vote by id operation has been failed"), "VOTE_REPO_FIND_VOTE_BY_ID_GET_CONTEXT", StatusInternalServerError)
  const VoteRepoFindVoteByIDVoteIDEmpty: AppError := AppError(Plain("The find vote by id operation has been failed. Vote id is empty"), "VOTE_REPO_FIND_VOTE_BY_ID_VOTE_ID_EMPTY", StatusInternalServerError)
  const VoteRepoFindVoteByIDQueryxContextDataNotFound: AppError := AppError(Plain("The find vote by id operation has been failed. Data not found"), "VOTE_REPO_FIND_VOTE_BY_ID_QUERYX_CONTEXT_DATA_NOT_FOUND", StatusInternalServerError)
  const VoteRepoFindUserVoteByIDGetContext: AppError := AppError(Plain("The find user's vote by id operation has been failed"), "VOTE_REPO_FIND_USER_VOTE_BY_ID_GET_CONTEXT", StatusInternalServerError)
  const VoteRepoFindUserVoteByIDVoteIDEmpty: AppError := AppError(Plain("The find user's vote by id operation has been failed. Vote id is empty"), "VOTE_REPO_FIND_USER_VOTE_BY_ID_VOTE_ID_EMPTY", StatusInternalServerError)
  const VoteRepoFindUserVoteByIDQueryxContextDataNotFound: AppError := AppError(Plain("The find user's vote by id operation has been failed. Data not found"), "VOTE_REPO_FIND_USER_VOTE_BY_ID_QUERYX_CONTEXT_DATA_NOT_FOUND", StatusInternalServerError)
  const VoteRepoFindVoteByUserIDGetContext: AppError := AppError(Plain("The find vote by user id operation has been failed"), "VOTE_REPO_FIND_VOTE_BY_USER_ID_GET_CONTEXT", StatusInternalServerError)
  const VoteRepoFindVoteByUserIDQueryxContextDataNotFound: AppError := AppError(Plain("The find vote by user id operation has been failed. Data not found"), "VOTE_REPO_FIND_VOTE_BY_USER_ID_QUERYX_CONTEXT_DATA_NOT_FOUND", StatusInternalServerError)
  const VoteRepoFindVoteByUserIDStructScan: AppError := AppError(Plain("The find vote by user id struct scan operation has been failed"), "VOTE_REPO_FIND_VOTE_BY_USER_ID_STRUCT_SCAN", StatusInternalServerError)
  const VoteRepoFindVotesByUserIDsQueryxContext: AppError := AppError(Plain("The find vote by user ids operation has been failed. QueryxContext has been failed"), "VOTE_REPO_FIND_VOTE_BY_USER_IDS_QUERYX_CONTEXT", StatusInternalServerError)
  const VoteRepoFindVotesByUserIDsStructScan: AppError := AppError(Plain("The find vote by user ids operation has been failed. StructScan has been failed"), "VOTE_REPO_FIND_VOTE_BY_USER_IDS_STRUCT_SCAN", StatusInternalServerError)
  const VoteRepoFindUserVoteByUserIDGetContext: AppError := AppError(Plain("The find user's vote by user id operation has been failed"), "VOTE_REPO_FIND_USER_VOTE_BY_USER_ID_GET_CONTEXT", StatusInternalServerError)
  const VoteRepoSaveUserVoteQueryRowxContext: AppError := AppError(Plain("The save user vote operation has been failed"), "VOTE_REPO_SAVE_USER_VOTE_QUERY_ROWX_CONTEXT", StatusInternalServerError)
  const VoteRepoSaveUserVoteQueryRowxContextDataNotFound: AppError := AppError(Plain("The save user vote operation has been failed. Data not found"), "VOTE_REPO_SAVE_USER_VOTE_QUERY_ROWX_CONTEXT_DATA_NOT_FOUND", StatusInternalServerError)
  const VoteRepoDeleteVoteExecContext: AppError := AppError(Plain("The delete vote operation has been failed"), "VOTE_REPO_DELETE_VOTE_EXEC_CONTEXT", StatusInternalServerError)
  const VoteRepoDeleteVoteRowsAffected: AppError := AppError(Plain("The delete vote affected rows operation has been failed"), "VOTE_REPO_DELETE_VOTE_ROWS_AFFECTED", StatusInternalServerError)
  const VoteRepoDeleteVoteEmptyRowsAffected: AppError := AppError(Plain("The delete vote empty rows affected operation has been failed"), "VOTE_REPO_DELETE_VOTE_EMPTY_ROWS_AFFECTED", StatusInternalServerError)
  const UserRedisRepoFindUserByUUIDGet: AppError := AppError(Plain("The find user by uuid operation has been failed. Redis get has been failed"), "USER_REDIS_REPO_FIND_USER_BY_UUID_GET", StatusInternalServerError)
  const UserRedisRepoFindUserByUUIDGetDataNotFound: AppError := AppError(Plain("The find user by uuid operation has been failed. Data not found"), "USER_REDIS_REPO_FIND_USER_BY_UUID_GET_DATA_NOT_FOUND", StatusInternalServerError)
  const UserRedisRepoFindUserByNicknameGet: AppError := AppError(Plain("The find user by nickname operation has been failed. Redis get has been failed"), "USER_REDIS_REPO_FIND_USER_BY_NICKNAME_GET", StatusInternalServerError)
  const UserRedisRepoFindUserByNicknameGetDataNotFound: AppError := AppError(Plain("The find user by nickname operation has been failed. Data not found"), "USER_REDIS_REPO_FIND_USER_BY_NICKNAME_GET_DATA_NOT_FOUND", StatusInternalServerError)
  const UserRedisRepoGetUsersGet: AppError := AppError(Plain("The get users operation has been failed. Redis get has been failed"), "USER_REDIS_REPO_GET_USERS_GET", StatusInternalServerError)
  const UserRedisRepoGetUsersGetDataNotFound: AppError := AppError(Plain("The get users operation has been failed. Data not found"), "USER_REDIS_REPO_GET_USERS_GET_DATA_NOT_FOUND", StatusInternalServerError)
  const UserRedisRepoSetFindUserByUUIDSet: AppError := AppError(Plain("The set find user by uuid operation has been failed. Redis set has been failed"), "USER_REDIS_REPO_SET_FIND_USER_BY_UUID_SET", StatusInternalServerError)
  const UserRedisRepoSetFindUserByNicknameSet: AppError := AppError(Plain("The set find user by nickname operation has been failed. Redis set has been failed"), "USER_REDIS_REPO_SET_FIND_USER_BY_NICKNAME_SET", StatusInternalServerError)
  const UserRedisRepoSetGetUsersSet: AppError := AppError(Plain("The set get users operation has been failed. Redis set has been failed"), "USER_REDIS_REPO_SET_GET_USERS_SET", StatusInternalServerError)

  // internal/apperrors/usecase.go
  const UserUsecaseCreateUserHashPassword: AppError := AppError(Plain("The hash password operation has been failed"), "USER_USECASE_CREATE_USER_HASH_PASSWORD", StatusInternalServerError)
  const UserUsecaseCreateUserFindUserByNickname: AppError := AppError(Plain("The load by nickname operation has been failed"), "USER_USECASE_CREATE_USER_LOAD_BY_NICK_NAME", StatusInternalServerError)
  const UserUsecaseCreateUserSaveUser: AppError := AppError(Plain("The add user operation has been failed"), "USER_USECASE_CREATE_USER_ADD_USER", StatusInternalServerError)
  const UserUsecaseCreateUserUserExists: AppError := AppError(Plain("The user exists"), "USER_USECASE_CREATE_USER_USER_EXISTS", StatusInternalServerError)
  const UserUsecaseUpdateUserUpdateUser: AppError := AppError(Plain("The user update operaion has been failed"), "USER_USECASE_UPDATE_USER_UPDATE_USER", StatusInternalServerError)
  const UserUsecaseGetUserLoad: AppError := AppError(Plain("The get user operaion has been failed"), "USER_USECASE_GET_USER_LOAD", StatusInternalServerError)
  const UserUsecaseGetUserFindUserByUUID: AppError := AppError(Plain("The get user operaion has been failed. Find user by uuid has been failed"), "USER_USECASE_GET_USER_FIND_USER_BY_UUID", StatusInternalServerError)
  const UserUsecaseGetUserSetFindUserByUUID: AppError := AppError(Plain("The get user operaion has been failed. Set find user by uuid has been failed"), "USER_USECASE_GET_USER_SET_FIND_USER_BY_UUID", StatusInternalServerError)
  const UserUsecaseGetUserByNicknameUserRedisRepoFindUserByNickname: AppError := AppError(Plain("The get user by nickname operaion has been failed. Find user by nickname has been failed"), "USER_USECASE_GET_USER_BY_NICKNAME_USER_REDIS_REPO_FIND_USER_BY_NICKNAME", StatusInternalServerError)
  const UserUsecaseGetUserByNicknameUserRedisRepoSetFindUserByNickname: AppError := AppError(Plain("The get user by nickname operaion has been failed. Set find user by nickname has been failed"), "USER_USECASE_GET_USER_BY_NICKNAME_USER_REDIS_REPO_SET_FIND_USER_BY_NICKNAME", StatusInternalServerError)
  const UserUsecaseGetUsersUserRedisRepoGetUsers: AppError := AppError(Plain("The get users operaion has been failed. Get users has been failed"), "USER_USECASE_GET_USERS_USER_REDIS_REPO_GET_USERS", StatusInternalServerError)
  const UserUsecaseGetUsersUserRedisRepoSetGetUsers: AppError := AppError(Plain("The get users operaion has been failed. Set get users has been failed"), "USER_USECASE_GET_USERS_USER_REDIS_REPO_SET_GET_USERS", StatusInternalServerError)
  const UserUsecaseGetUserByIDGetUser: AppError := AppError(Plain("The get user by id operaion has been failed. Get user has been failed"), "USER_USECASE_GET_USER_BY_ID_GET_USER", StatusInternalServerError)
  const UserUsecaseGetUserByIDFindVotesForUser: AppError := AppError(Plain("The get user by id operaion has been failed. Find votes for user has been failed"), "USER_USECASE_GET_USER_BY_ID_FIND_VOTES_FOR_USER", StatusInternalServerError)
  const UserUsecaseDeleteUser: AppError := AppError(Plain("The delete user operaion has been failed"), "USER_USECASE_DELETE_USER", StatusInternalServerError)
  const UserUsecaseCheckProfileByNick: AppError := AppError(Plain("The check user by nickname operaion has been failed"), "USER_USECASE_CHECK_PROFILE_BY_NICK", StatusInternalServerError)
  const UserUsecaseCheckProfileByNickBusy: AppError := AppError(Plain("user's nickname is busy"), "USER_USECASE_CHECK_PROFILE_BY_NICK_BUSY", StatusInternalServerError)
  const UserUsecaseGetUserByNickname: AppError := AppError(Plain("The get user by nickname operaion has been failed"), "USER_USECASE_GET_USER_BY_NICKNAME", StatusInternalServerError)
  const UserUsecaseGetUsers: AppError := AppError(Plain("The get users operaion has been failed"), "USER_USECASE_GET_USERS", StatusInternalServerError)
  const UserUsecaseVoteUserFindExistVoting: AppError := AppError(Plain("The vote user operaion has been failed. Find exist vote has been failed"), "USER_USECASE_VOTE_USER_FIND_EXIST_VOTING", StatusInternalServerError)
  const UserUsecaseVoteUserVotingExist: AppError := AppError(Plain("The vote user operaion has been failed. Vote is exist"), "USER_USECASE_VOTE_USER_VOTING_EXIST", StatusOK)
  const UserUsecaseVoteUserSaveVote: AppError := AppError(Plain("The vote user save operaion has been failed."), "USER_USECASE_VOTE_USER_SAVE_VOTE", StatusInternalServerError)
  const UserUsecaseVoteUserSaveUserVote: AppError := AppError(Plain("The vote user save operaion has been failed."), "USER_USECASE_VOTE_USER_SAVE_USER_VOTE", StatusInternalServerError)
  const UserUsecaseVoteUserUpdateVote: AppError := AppError(Plain("The vote user update operaion has been failed."), "USER_USECASE_VOTE_USER_UPDATE_VOTE", StatusInternalServerError)
  const UserUsecaseVoteUserWithdrawFindExistVoting: AppError := AppError(Plain("The vote user withdraw operaion has been failed. Find exist vote has been failed"), "USER_USECASE_VOTE_USER_WITHDRAW_FIND_EXIST_VOTING", StatusInternalServerError)
  const UserUsecaseVoteUserWithdrawDeleteVote: AppError := AppError(Plain("The vote user withdraw operaion has been failed. Delete vote has been failed"), "USER_USECASE_VOTE_USER_WITHDRAW_DELETE_VOTE", StatusInternalServerError)
  const UserUsecaseVoteUserWithdrawDeleteUserVote: AppError := AppError(Plain("The vote user withdraw operaion has been failed. Delete user vote has been failed"), "USER_USECASE_VOTE_USER_WITHDRAW_DELETE_USER_VOTE", StatusInternalServerError)
  const UserUsecaseVoteUserWithdrawVoteNotExist: AppError := AppError(Plain("The vote user withdraw operaion has been failed. Vote is not exist"), "USER_USECASE_VOTE_USER_WITHDRAW_VOTE_NOT_EXIST", StatusInternalServerError)
  const UserUsecaseVoteIsExistFindVoteByUserID: AppError := AppError(Plain("The find votes by user id operaion has been failed."), "USER_USECASE_VOTE_IS_EXIST_FIND_VOTE_BY_USER_ID", StatusInternalServerError)
  const UserUsecaseVoteIsExistFindUserVoteByUserID: AppError := AppError(Plain("The find user votes by user id operaion has been failed."), "USER_USECASE_VOTE_IS_EXIST_FIND_USER_VOTE_BY_USER_ID", StatusInternalServerError)
  const UserUsecaseFindVotesForUser: AppError := AppError(Plain("The find votes for user operaion has been failed."), "USER_USECASE_FIND_VOTES_FOR_USER", StatusInternalServerError)
  const UserUsecaseLoadVotesToUsers: AppError := AppError(Plain("The load votes to users operaion has been failed."), "USER_USECASE_LOAD_VOTES_TO_USERS", StatusInternalServerError)
  const UserUsecaseVotePositiveVoteUser: AppError := AppError(Plain("The vote user positive operaion has been failed."), "USER_USECASE_VOTE_POSITIVE_VOTE_USER", StatusInternalServerError)
  const UserUsecaseVoteNegativeVoteUser: AppError := AppError(Plain("The vote user negative operaion has been failed."), "USER_USECASE_VOTE_NEGATIVE_VOTE_USER", StatusInternalServerError)
  const UserUsecaseVoteWithdrawVoteUser: AppError := AppError(Plain("The vote user withdraw operaion has been failed."), "USER_USECASE_VOTE_WITHDRAW_VOTE_USER", StatusInternalServerError)

  // internal/apperrors/controller.go
  const UserControllerVoteUserValidate: AppError := AppError(Plain("The vote user operation has been failed, validate error"), "USER_CONTROLLER_VOTE_USER_VALIDATE", StatusBadRequest)
  const UserControllerVoteUserBind: AppError := AppError(Plain("The vote user operation has been failed, vote user binds error"), "USER_CONTROLLER_VOTE_USER_BIND", StatusInternalServerError)
  const UserControllerVoteUserGetUser: AppError := AppError(Plain("The vote user operation has been failed, get user error"), "USER_CONTROLLER_VOTE_USER_GET_USER", StatusInternalServerError)
  const UserControllerVoteUserUserNotExist: AppError := AppError(Plain("The vote user operation has been failed, user is not exist"), "USER_CONTROLLER_VOTE_USER_USER_NOT_EXIST", StatusNotFound)
  const ValidatorCustomValidatorValidate: AppError := AppError(Plain("The custom validate operation has been failed"), "VALIDATOR_CUSTOM_VALIDATOR_VALIDATE", StatusBadRequest)
  const MiddlewareJWTAuthValid: AppError := AppError(Plain("The jwt auth user hasn't been validate"), "MIDDLEWARE_JWT_AUTH_VALID", StatusUnauthorized)
  const MiddlewareJWTAuthVerifyJwtUser: AppError := AppError(Plain("The jwt auth verify user hasn't been validate"), "MIDDLEWARE_JWT_AUTH_VERIFY_JWT_USER", StatusUnauthorized)
  const MiddlewareVerifyAuthUserGetUserByNickname: AppError := AppError(Plain("The verify user operation has been failed"), "MIDDLEWARE_VERIFY_AUTH_USER_GET_USER_BY_NICKNAME", StatusUnauthorized)
  const MiddlewareVerifyAuthUserComparePasswords: AppError := AppError(Plain("The verify user operation has been failed, password isn't correct"), "MIDDLEWARE_VERIFY_AUTH_USER_COMPARE_PASSWORDS", StatusUnauthorized)
  const MiddlewareVerifyJwtUserGetUserByNickname: AppError := AppError(Plain("The jwt verify user operation has been failed"), "MIDDLEWARE_VERIFY_JWT_USER_GET_USER_BY_NICKNAME", StatusUnauthorized)
  const MiddlewareVerifyJwtUserRoleGetUserByNickname: AppError := AppError(Plain("The jwt verify user role operation hasn't been validate"), "MIDDLEWARE_VERIFY_JWT_USER_ROLE_GET_USER_BY_NICKNAME", StatusUnauthorized)
  const HasPermissionUuidParse: AppError := AppError(Plain("The hasPermission operation has been failed, the uuid parse has error"), "HAS_PERMISSION_UUID_PARSE", StatusUnauthorized)
  const UserControllerVoteUserValueOfVoteIsNotRight: AppError := AppError(Plain("Value of vote is not right"), "USER_CONTROLLER_VOTE_USER_VALUE_OF_VOTE_IS_NOT_RIGHT", StatusBadRequest)
  const UserControllerVoteUserVoteForYourself: AppError := AppError(Plain("You can't vote for yourself"), "USER_CONTROLLER_VOTE_USER_VOTE_FOR_YOURSELF", StatusBadRequest)
  const UserControllerVoteUserVoteInterval: AppError := AppError(Plain("You can't vote for user more than once an hour"), "USER_CONTROLLER_VOTE_USER_VOTE_INTERVAL", StatusBadRequest)
}
