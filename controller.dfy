/** The vote handler of internal/interface/controller/vote.go and the
    decisions of internal/interface/controller/middleware.go. A request
    arrives already bound; the JWT's claims, its validity, the clock and
    bcrypt's comparison are inputs. A handler's answer is a `Reply`; a
    middleware either passes the request to `next` or answers itself. */
module Controller {
  import opened Base
  import opened AppErrors
  import opened Entities
  import opened VoteModel
  import opened VoteStore
  import opened Usecase
  import opened UserFlows
  import Roles
  import US = UserStore
  import UC = UserCache

  /** `voteInterval` goes to `time.Add`, which counts nanoseconds. */
  const VoteInterval := 3600
  const NanosPerSecond := 1_000_000_000

  /** The text of `echo.ErrUnauthorized` as `%v` prints it. */
  const UnauthorizedText := "code=401, message=Unauthorized"

  /** The claims of a JWT the handlers read. */
  datatype Claims = Claims(userId: Uuid, nickname: string, role: string)

  /** What a handler answers: an error as `ctx.JSON(e.HTTPCode, e.Error())`,
      a vote response with 200, or the 500 the recover middleware makes of a
      panic. */
  datatype Reply = ErrorReply(err: AppError) | VoteReply(resp: VoteUserResponse) | Recovered

  function Status(r: Reply): int
  {
    match r
    case ErrorReply(e) => e.httpCode
    case VoteReply(_) => StatusOK
    case Recovered => StatusInternalServerError
  }

  /** `FetchJWTUser`: a user holding only the token's id, nickname and
      role; the token's validity is checked but the error is dropped. */
  function FetchJWTUser(c: Claims): User
  {
    ZeroUser.(userId := c.userId, nickname := c.nickname, role := c.role)
  }

  // ----- the vote handler ---------------------------------------------

  /** The validator's message for a field that fails its `required` tag. */
  function RequiredFieldText(field: string): string
  {
    "Key: 'VoteUserRequest." + field + "' Error:Field validation for '" + field + "' failed on the 'required' tag"
  }

  /** The validator's messages, one per line. */
  function JoinLines(lines: seq<string>): string
  {
    if |lines| <= 1 then (if lines == [] then "" else lines[0])
    else lines[0] + "\n" + JoinLines(lines[1..])
  }

  /** `ctx.Validate` of a vote request: both fields are `required`, which
      rejects the nil uuid and the vote 0. */
  function ValidateVoteRequest(req: VoteUserRequest): (r: Option<AppError>)
    ensures r.None? <==> req.userId != NilUuid && req.vote != 0
    ensures r.Some? ==> r.value.code == ValidatorCustomValidatorValidate.code && r.value.httpCode == StatusBadRequest
  {
    var failed := (if req.userId == NilUuid then [RequiredFieldText("UserID")] else [])
                + (if req.vote == 0 then [RequiredFieldText("Vote")] else []);
    if failed == [] then None else Some(ValidatorCustomValidatorValidate.AppendMessage(JoinLines(failed)))
  }

  /** The rate check `CreatedAt.Add(interval).After(now)` for a given
      interval in nanoseconds. */
  predicate WithinInterval(createdAt: Time, interval: int, now: Time)
  {
    createdAt + interval > now
  }

  /** The check as written: the window is 3600 nanoseconds. */
  predicate RateLimited(createdAt: Time, now: Time)
  {
    WithinInterval(createdAt, VoteInterval, now)
  }

  /** The check the error text ("more than once an hour") describes. */
  predicate RateLimitedIntended(createdAt: Time, now: Time)
  {
    WithinInterval(createdAt, VoteInterval * NanosPerSecond, now)
  }

  /** As written, a second vote 3601 nanoseconds after the first passes,
      although it comes well within the hour. */
  lemma RateLimitIsNanoseconds(createdAt: Time)
    ensures !RateLimited(createdAt, createdAt + 3601)
    ensures RateLimitedIntended(createdAt, createdAt + 3601)
  {
  }

  /** The intended window rejects every vote the written one rejects, and
      rejects exactly the votes cast less than an hour after the last. */
  lemma RateLimitIntendedIsAnHour(createdAt: Time, now: Time)
    ensures RateLimited(createdAt, now) ==> RateLimitedIntended(createdAt, now)
    ensures RateLimitedIntended(createdAt, now) <==> now - createdAt < 3600 * NanosPerSecond
  {
  }

  /** The handler's final reply: the usecase's error, or the response built
      from the returned pair; a nil pair would be dereferenced. */
  function CastReply(v: Option<Vote>, uv: Option<UserVote>, e: Option<AppError>): Reply
  {
    if e.Some? then ErrorReply(e.value)
    else if v.Some? && uv.Some? then VoteReply(MapVoteUserVoteToVoteUserResponse(uv.value, v.value))
    else Recovered
  }

  /** The vote the handler hands to the usecase for a request and a caller. */
  function CastVote(req: VoteUserRequest, c: Claims): (v: Vote)
    ensures v == Vote(0, req.vote, c.userId, None)
  {
    MapVoteUserRequestToVoteModel(req, FetchJWTUser(c))
  }

  /** The join row the handler hands to the usecase. */
  function CastUserVote(req: VoteUserRequest, c: Claims): (uv: UserVote)
    ensures uv == UserVote(0, req.userId, 0)
  {
    MapVoteUserRequestToUserVoteModel(req, CastVote(req, c))
  }

  /** What the dispatch to `Vote` may do: a cast of +1 or -1 as the usecase
      contract allows, under the constant for its sign; any other value is
      refused and nothing is written. */
  ghost predicate Dispatched(before: Tables, after: Tables, faults: map<VoteOp, Fault>, lookup: Lookup,
                             req: VoteUserRequest, c: Claims, now: Time, reply: Reply)
  {
    if req.vote == VotePositive || req.vote == VoteNegative then
      var outer := if req.vote == VotePositive then UserUsecaseVotePositiveVoteUser else UserUsecaseVoteNegativeVoteUser;
      exists v: Option<Vote>, uv: Option<UserVote>, e: Option<AppError> ::
        CastEffect(before, after, faults, lookup, CastVote(req, c), CastUserVote(req, c), now, Some(outer), v, uv, e)
        && reply == CastReply(v, uv, e)
    else
      after == before
      && reply == ErrorReply(UserControllerVoteUserValueOfVoteIsNotRight.AppendMessage(UserControllerVoteUserValueOfVoteIsNotRight.Error()))
  }

  /** After the target checks: a failed vote listing, a caller without a
      (timed) newest vote, or a vote inside the interval answers without
      writing; otherwise the request is dispatched to `Vote`. */
  ghost predicate Guarded(listing: Listing<Vote>, before: Tables, after: Tables, faults: map<VoteOp, Fault>,
                          lookup: Lookup, req: VoteUserRequest, c: Claims, now: Time, reply: Reply)
  {
    match listing
    case ListFailed(e) => reply == ErrorReply(Wrap(UserUsecaseFindVotesForUser, e)) && after == before
    case Listed(vs) =>
      if vs == [] || vs[0].createdAt.None? then reply == Recovered && after == before
      else if RateLimited(vs[0].createdAt.value, now) then
        reply == ErrorReply(UserControllerVoteUserVoteInterval) && after == before
      else Dispatched(before, after, faults, lookup, req, c, now, reply)
  }

  /** A cast that `Vote`'s contract allows is a dispatch. */
  lemma CastIsDispatched(before: Tables, after: Tables, faults: map<VoteOp, Fault>, lookup: Lookup,
                         req: VoteUserRequest, c: Claims, now: Time,
                         v: Option<Vote>, uv: Option<UserVote>, e: Option<AppError>)
    requires req.vote == VotePositive || req.vote == VoteNegative
    requires CastEffect(before, after, faults, lookup, CastVote(req, c), CastUserVote(req, c), now,
                        Some(if req.vote == VotePositive then UserUsecaseVotePositiveVoteUser else UserUsecaseVoteNegativeVoteUser),
                        v, uv, e)
    ensures Dispatched(before, after, faults, lookup, req, c, now, CastReply(v, uv, e))
  {
  }

  /** The handler's answer before `Vote`: what the newest-vote lookup
      returned decides the reply, and nothing is written. */
  lemma GuardedStops(listing: Listing<Vote>, before: Tables, faults: map<VoteOp, Fault>, lookup: Lookup,
                     req: VoteUserRequest, c: Claims, now: Time,
                     last: Option<Vote>, e2: Option<AppError>, panicked: bool, reply: Reply)
    requires match listing
      case ListFailed(e) => last.None? && !panicked && e2 == Some(Wrap(UserUsecaseFindVotesForUser, e))
      case Listed(vs) => e2.None? && LastVoteResult(last, panicked) == LastVoteAsWritten(vs)
    requires e2.Some? ==> reply == ErrorReply(e2.value)
    requires e2.None? && (panicked || last.value.createdAt.None?) ==> reply == Recovered
    requires e2.None? && !panicked && last.value.createdAt.Some? ==>
      RateLimited(last.value.createdAt.value, now) && reply == ErrorReply(UserControllerVoteUserVoteInterval)
    ensures Guarded(listing, before, before, faults, lookup, req, c, now, reply)
  {
  }

  /** The handler's answer after `Vote`: the newest vote is timed and
      outside the interval, and the reply is the dispatch's. */
  lemma GuardedDispatches(listing: Listing<Vote>, before: Tables, after: Tables, faults: map<VoteOp, Fault>,
                          lookup: Lookup, req: VoteUserRequest, c: Claims, now: Time,
                          last: Option<Vote>, panicked: bool, reply: Reply)
    requires listing.Listed? && LastVoteResult(last, panicked) == LastVoteAsWritten(listing.items)
    requires !panicked && last.value.createdAt.Some? && !RateLimited(last.value.createdAt.value, now)
    requires Dispatched(before, after, faults, lookup, req, c, now, reply)
    ensures Guarded(listing, before, after, faults, lookup, req, c, now, reply)
  {
  }

  class UserController {
    const userUsecase: UserUsecase

    constructor (userUsecase: UserUsecase)
      ensures this.userUsecase == userUsecase
    {
      this.userUsecase := userUsecase;
    }

    /** `VoteUser`: validation, the target must exist, no self-vote, the
        rate check on the caller's newest vote, then the usecase's `Vote`. */
    method VoteUser(req: VoteUserRequest, c: Claims, now: Time) returns (reply: Reply)
      requires userUsecase.Valid() && userUsecase.PairsInvariant()
      modifies userUsecase.userRedisRepo, userUsecase.voteRepo
      ensures userUsecase.Valid() && userUsecase.PairsInvariant()
      ensures userUsecase.userRedisRepo.faults == old(userUsecase.userRedisRepo.faults)
      ensures userUsecase.userRedisRepo.byNickname == old(userUsecase.userRedisRepo.byNickname)
      ensures userUsecase.userRedisRepo.byPage == old(userUsecase.userRedisRepo.byPage)
      ensures ValidateVoteRequest(req).Some? ==>
        reply == ErrorReply(ValidateVoteRequest(req).value)
        && unchanged(userUsecase.voteRepo) && unchanged(userUsecase.userRedisRepo)
      ensures ValidateVoteRequest(req).None? ==>
        var target := GetUserFlow(old(userUsecase.userRedisRepo.byId), old(userUsecase.userRedisRepo.faults),
                                  userUsecase.userRepo.users, userUsecase.userRepo.FaultOf(US.FindUserByUuidOp), req.userId);
        userUsecase.userRedisRepo.byId == target.cache
        && (target.err.Some? ==>
              reply == ErrorReply(Wrap(UserControllerVoteUserGetUser, target.err.value)) && unchanged(userUsecase.voteRepo))
        && (target.err.None? && target.user.None? ==>
              reply == ErrorReply(UserControllerVoteUserUserNotExist) && unchanged(userUsecase.voteRepo))
        && (target.user.Some? && c.userId == req.userId ==>
              reply == ErrorReply(UserControllerVoteUserVoteForYourself) && unchanged(userUsecase.voteRepo))
        && (target.user.Some? && c.userId != req.userId ==>
              Guarded(old(userUsecase.voteRepo.VotesOfVoter(c.userId)), old(userUsecase.voteRepo.Snapshot()),
                      userUsecase.voteRepo.Snapshot(), userUsecase.voteRepo.faults,
                      old(userUsecase.ExistVoting(req.userId, c.userId)), req, c, now, reply))
    {
      var invalid := ValidateVoteRequest(req);
      if invalid.Some? {
        return ErrorReply(invalid.value);
      }
      var user, e := userUsecase.GetUser(req.userId);
      if e.Some? {
        return ErrorReply(Wrap(UserControllerVoteUserGetUser, e.value));
      }
      if user.None? {
        return ErrorReply(UserControllerVoteUserUserNotExist);
      }
      var authUser := FetchJWTUser(c);
      if authUser.userId == req.userId {
        return ErrorReply(UserControllerVoteUserVoteForYourself);
      }
      reply := Cast(req, c, now);
    }

    /** The end of `VoteUser`, once the target exists and is not the
        caller: the rate check on the caller's newest vote, then `Vote`. */
    method Cast(req: VoteUserRequest, c: Claims, now: Time) returns (reply: Reply)
      requires userUsecase.Valid() && userUsecase.PairsInvariant()
      requires req.vote != VoteWithdraw
      modifies userUsecase.voteRepo
      ensures userUsecase.Valid() && userUsecase.PairsInvariant()
      ensures userUsecase.voteRepo.faults == old(userUsecase.voteRepo.faults)
      ensures Guarded(old(userUsecase.voteRepo.VotesOfVoter(c.userId)), old(userUsecase.voteRepo.Snapshot()),
                      userUsecase.voteRepo.Snapshot(), userUsecase.voteRepo.faults,
                      old(userUsecase.ExistVoting(req.userId, c.userId)), req, c, now, reply)
    {
      ghost var listing := userUsecase.voteRepo.VotesOfVoter(c.userId);
      ghost var before := userUsecase.voteRepo.Snapshot();
      ghost var faults := userUsecase.voteRepo.faults;
      ghost var lookup := userUsecase.ExistVoting(req.userId, c.userId);
      var authUser := FetchJWTUser(c);
      var last, e2, panicked := userUsecase.GetLastVoteForUser(authUser.userId);
      if e2.Some? {
        reply := ErrorReply(e2.value);
        GuardedStops(listing, before, faults, lookup, req, c, now, last, e2, panicked, reply);
        return;
      }
      if panicked || last.value.createdAt.None? {
        reply := Recovered;
        GuardedStops(listing, before, faults, lookup, req, c, now, last, e2, panicked, reply);
        return;
      }
      if RateLimited(last.value.createdAt.value, now) {
        reply := ErrorReply(UserControllerVoteUserVoteInterval);
        GuardedStops(listing, before, faults, lookup, req, c, now, last, e2, panicked, reply);
        return;
      }
      var vote := MapVoteUserRequestToVoteModel(req, authUser);
      var userVote := MapVoteUserRequestToUserVoteModel(req, vote);
      assert vote == CastVote(req, c) && userVote == CastUserVote(req, c);
      var v, uv, e3 := userUsecase.Vote(vote, userVote, now);
      reply := CastReply(v, uv, e3);
      ghost var after := userUsecase.voteRepo.Snapshot();
      if req.vote == VotePositive || req.vote == VoteNegative {
        CastIsDispatched(before, after, faults, lookup, req, c, now, v, uv, e3);
      }
      GuardedDispatches(listing, before, after, faults, lookup, req, c, now, last, panicked, reply);
    }
  }

  /** Under the handler, a withdrawal never reaches the usecase: the vote 0
      fails validation. */
  lemma WithdrawalFailsValidation(req: VoteUserRequest)
    requires req.vote == VoteWithdraw
    ensures ValidateVoteRequest(req).Some? && Status(ErrorReply(ValidateVoteRequest(req).value)) == StatusBadRequest
  {
  }

  // ----- middleware ---------------------------------------------------

  /** The `:id` path parameter after `uuid.Parse`. */
  datatype IdParam = Parsed(id: Uuid) | Unparsable(cause: string)

  /** A middleware's decision: call `next`, or answer with the error. */
  datatype Gate = Next | Reject(err: AppError)

  /** `hasPermission(permission)`: the caller may act on their own id, and
      on another only if their role grants the permission. */
  function HasPermission(permission: string, param: IdParam, c: Claims): Gate
  {
    match param
    case Unparsable(cause) => Reject(HasPermissionUuidParse.AppendMessage(cause))
    case Parsed(id) =>
      if id == FetchJWTUser(c).userId then Next
      else
        match Roles.Can(FetchJWTUser(c), permission)
        case Some(e) => Reject(e)
        case None => Next
  }

  /** `next` runs iff the id parses and is the caller's own or the caller
      is an admin asking to update or delete; a refusal is the role error. */
  lemma HasPermissionIff(permission: string, param: IdParam, c: Claims)
    ensures var g := HasPermission(permission, param, c);
      (g.Next? <==>
         param.Parsed?
         && (param.id == c.userId
             || (c.role == Roles.RoleAdmin && (permission == Roles.PermissionUpdate || permission == Roles.PermissionDelete))))
      && (param.Unparsable? ==> g == Reject(HasPermissionUuidParse.AppendMessage(param.cause)))
      && (param.Parsed? && param.id != c.userId ==> g.Reject? ==> g.err.httpCode == StatusBadRequest)
  {
  }

  /** What a credentials check decides and what it puts in the context. */
  datatype Verdict = Verdict(ok: bool, err: Option<AppError>, stored: Option<User>)

  /** `VerifyJwtUser` on the answer of `GetUserByNickname`: a failed or
      empty lookup and a role other than the token's are refused. A role
      mismatch reports the basic-auth constant. */
  function VerifyJwtDecision(found: US.Answer<User>, role: string): (r: Verdict)
  {
    if found.err.Some? then Verdict(false, Some(Wrap(MiddlewareVerifyJwtUserGetUserByNickname, found.err.value)), None)
    else if found.value.None? then Verdict(false, Some(MiddlewareVerifyJwtUserGetUserByNickname.AppendMessage(NilText)), None)
    else if found.value.value.role != role then Verdict(false, Some(MiddlewareVerifyAuthUserGetUserByNickname.AppendMessage(NilText)), None)
    else Verdict(true, None, found.value)
  }

  /** `VerifyJwtUser` succeeds iff the lookup finds a user with the token's
      role, and only then puts the user in the context. */
  lemma VerifyJwtIff(found: US.Answer<User>, role: string)
    ensures var r := VerifyJwtDecision(found, role);
      (r.ok <==> found.err.None? && found.value.Some? && found.value.value.role == role)
      && (r.ok <==> r.err.None?) && (r.stored.Some? <==> r.ok)
      && (r.ok ==> r.stored == found.value)
  {
  }

  /** As written, a role mismatch is reported under the basic-auth code,
      the same code a failed basic-auth lookup gets. */
  lemma RoleMismatchLooksLikeBasicAuth(u: User, role: string)
    requires u.role != role
    ensures VerifyJwtDecision(US.Answer(Some(u), None), role).err.value.code == MiddlewareVerifyAuthUserGetUserByNickname.code
    ensures VerifyJwtDecision(US.Answer(Some(u), None), role).err.value.code != MiddlewareVerifyJwtUserRoleGetUserByNickname.code
  {
  }

  /** `VerifyJwtDecision` with the role constant the error table defines
      for this check. */
  function VerifyJwtDecisionIntended(found: US.Answer<User>, role: string): (r: Verdict)
  {
    if found.err.Some? then Verdict(false, Some(Wrap(MiddlewareVerifyJwtUserGetUserByNickname, found.err.value)), None)
    else if found.value.None? then Verdict(false, Some(MiddlewareVerifyJwtUserGetUserByNickname.AppendMessage(NilText)), None)
    else if found.value.value.role != role then Verdict(false, Some(MiddlewareVerifyJwtUserRoleGetUserByNickname.AppendMessage(NilText)), None)
    else Verdict(true, None, found.value)
  }

  /** With the role constant, the error code names the failing step: a
      role mismatch and a failed lookup are told apart, and neither is
      mistaken for basic auth. */
  lemma VerifyJwtIntendedNamesStep(found: US.Answer<User>, role: string)
    ensures var r := VerifyJwtDecisionIntended(found, role);
      (r.ok <==> VerifyJwtDecision(found, role).ok)
      && (r.err.Some? ==> r.err.value.code != MiddlewareVerifyAuthUserGetUserByNickname.code)
      && (r.err.Some? ==>
            (r.err.value.code == MiddlewareVerifyJwtUserRoleGetUserByNickname.code
             <==> found.err.None? && found.value.Some? && found.value.value.role != role))
  {
  }

  /** `VerifyAuthUser` on the lookup's answer: a failed or empty lookup is
      refused, then bcrypt compares the stored hash with the password. */
  function VerifyAuthDecision(found: US.Answer<User>, password: string, compare: (string, string) -> Option<string>): (r: Verdict)
  {
    if found.err.Some? then Verdict(false, Some(Wrap(MiddlewareVerifyAuthUserGetUserByNickname, found.err.value)), None)
    else if found.value.None? then Verdict(false, Some(MiddlewareVerifyAuthUserGetUserByNickname.AppendMessage(NilText)), None)
    else
      match compare(found.value.value.password, password)
      case Some(cause) =>
        Verdict(false, Some(Wrap(MiddlewareVerifyAuthUserComparePasswords,
                                 UserComparePasswordsCompareHashAndPassword.AppendMessage(cause))), None)
      case None => Verdict(true, None, found.value)
  }

  /** Basic auth succeeds iff the user is found and bcrypt accepts the
      password against the stored hash. */
  lemma VerifyAuthIff(found: US.Answer<User>, password: string, compare: (string, string) -> Option<string>)
    ensures var r := VerifyAuthDecision(found, password, compare);
      (r.ok <==> found.err.None? && found.value.Some? && compare(found.value.value.password, password).None?)
      && (r.stored.Some? <==> r.ok) && (r.ok <==> r.err.None?)
  {
  }

  /** `JWTAuth` as written: whatever the token and the verification say,
      `next` runs. */
  function JwtAuthGate(tokenValid: bool, verdict: Verdict): (g: Gate)
  {
    Next
  }

  /** `JWTAuth` as its error constants intend: an invalid token or a failed
      verification is answered with 401. */
  function JwtAuthGateIntended(tokenValid: bool, verdict: Verdict): (g: Gate)
  {
    if !tokenValid then Reject(MiddlewareJWTAuthValid.AppendMessage(UnauthorizedText))
    else if !verdict.ok then Reject(MiddlewareJWTAuthVerifyJwtUser.AppendMessage(UnauthorizedText))
    else Next
  }

  /** An invalid token whose user does not verify passes the written gate. */
  lemma JwtAuthAdmitsInvalidToken(verdict: Verdict)
    requires !verdict.ok
    ensures JwtAuthGate(false, verdict) == Next && JwtAuthGateIntended(false, verdict) != Next
  {
  }

  /** The intended gate runs `next` iff the token is valid and verifies,
      and refuses with 401 otherwise. */
  lemma JwtAuthIntendedIff(tokenValid: bool, verdict: Verdict)
    ensures var g := JwtAuthGateIntended(tokenValid, verdict);
      (g.Next? <==> tokenValid && verdict.ok) && (g.Reject? ==> g.err.httpCode == StatusUnauthorized)
  {
  }

  /** The middleware methods, over the usecase's nickname read. */
  class Middleware {
    const userUsecase: UserUsecase

    constructor (userUsecase: UserUsecase)
      ensures this.userUsecase == userUsecase
    {
      this.userUsecase := userUsecase;
    }

    /** The nickname read as the middleware sees it. */
    function Lookup(nickname: string): US.Answer<User>
      reads userUsecase.userRedisRepo
    {
      GetUserByNicknameFlow(userUsecase.userRedisRepo.byNickname, userUsecase.userRedisRepo.faults, nickname)
    }

    /** `VerifyJwtUser(nickname, role)`; `stored` is what it puts in the
        context. */
    method VerifyJwtUser(nickname: string, role: string) returns (ok: bool, err: Option<AppError>, stored: Option<User>)
      ensures Verdict(ok, err, stored) == VerifyJwtDecision(Lookup(nickname), role)
    {
      var user, e := userUsecase.GetUserByNickname(nickname);
      if e.Some? {
        return false, Some(Wrap(MiddlewareVerifyJwtUserGetUserByNickname, e.value)), None;
      }
      if user.None? {
        return false, Some(MiddlewareVerifyJwtUserGetUserByNickname.AppendMessage(NilText)), None;
      }
      if user.value.role != role {
        return false, Some(MiddlewareVerifyAuthUserGetUserByNickname.AppendMessage(NilText)), None;
      }
      return true, None, user;
    }

    /** `VerifyAuthUser(username, password)`, bcrypt's comparison given as
        `compare(hash, password)`, which answers nil or the error's text. */
    method VerifyAuthUser(username: string, password: string, compare: (string, string) -> Option<string>)
      returns (ok: bool, err: Option<AppError>, stored: Option<User>)
      ensures Verdict(ok, err, stored) == VerifyAuthDecision(Lookup(username), password, compare)
    {
      var user, e := userUsecase.GetUserByNickname(username);
      if e.Some? {
        return false, Some(Wrap(MiddlewareVerifyAuthUserGetUserByNickname, e.value)), None;
      }
      if user.None? {
        return false, Some(MiddlewareVerifyAuthUserGetUserByNickname.AppendMessage(NilText)), None;
      }
      var mismatch := compare(user.value.password, password);
      if mismatch.Some? {
        return false, Some(Wrap(MiddlewareVerifyAuthUserComparePasswords,
                                UserComparePasswordsCompareHashAndPassword.AppendMessage(mismatch.value))), None;
      }
      return true, None, user;
    }

    /** `JWTAuth`: verifies the token's user, drops both errors and calls
        `next`; a verified user is still put in the context. */
    method JWTAuth(tokenValid: bool, c: Claims) returns (gate: Gate, stored: Option<User>)
      ensures gate == JwtAuthGate(tokenValid, VerifyJwtDecision(Lookup(c.nickname), c.role))
      ensures stored == VerifyJwtDecision(Lookup(c.nickname), c.role).stored
    {
      var ok, e, u := VerifyJwtUser(c.nickname, c.role);
      return Next, u;
    }
  }
}
