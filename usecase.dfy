/** The usecase layer of internal/usecase/usecase/user.go: the voting state
    machine over the vote store, and cache-aside reads of users over the
    user cache and the user store. Time, fresh ids and the password hash are
    inputs. */
module Usecase {
  import opened Base
  import opened AppErrors
  import opened Entities
  import opened VoteStore
  import opened VotePairs
  import Roles
  import UserModel
  import Pagination
  import US = UserStore
  import UC = UserCache
  import opened UserFlows

  const VotePositive := 1
  const VoteNegative := -1
  const VoteWithdraw := 0

  /** What `FindExistVoting` reports. */
  datatype Lookup = LookupFailed(err: AppError) | Found(pair: Pair) | NotFound

  /** An error as a caller receives it: `Vote` re-wraps the errors of
      `VoteUser` and `VoteUserWithdraw` in a constant of its own. */
  function Outer(outer: Option<AppError>, e: AppError): (r: AppError)
    ensures outer.Some? ==> r.code == outer.value.code && r.httpCode == outer.value.httpCode
    ensures outer.None? ==> r == e
  {
    if outer.Some? then Wrap(outer.value, e) else e
  }

  /** What `FindExistVoting(target, voter)` reports on tables `t`: the
      voter's votes newest first, the target's join rows, then the first
      vote of the voter that a join row of the target points at. */
  function Existing(t: Tables, faults: map<VoteOp, Fault>, target: Uuid, voter: Uuid): Lookup
  {
    match ListOutcome(ToVotes(VotesOfVotersResult(t.voteRows, {voter})), FaultIn(faults, FindVoteByUserIdOp),
                      VoteRepoFindVoteByUserIDGetContext, VoteRepoFindVoteByUserIDStructScan)
    case ListFailed(e) => LookupFailed(Wrap(UserUsecaseVoteIsExistFindVoteByUserID, e))
    case Listed(vs) =>
      match ListOutcome(UserVotesOfTarget(t.userVoteRows, target), FaultIn(faults, FindUserVoteByUserIdOp),
                        VoteRepoFindUserVoteByUserIDGetContext, VoteRepoFindVoteByUserIDStructScan)
      case ListFailed(e) => LookupFailed(Wrap(UserUsecaseVoteIsExistFindUserVoteByUserID, e))
      case Listed(uvs) =>
        match FirstMatch(vs, uvs)
        case Some(p) => Found(p)
        case None => NotFound
  }

  /** A lookup that succeeds finds a pair exactly when (target, voter) has
      one in the tables. */
  lemma ExistingSeesPairs(t: Tables, faults: map<VoteOp, Fault>, target: Uuid, voter: Uuid)
    ensures Existing(t, faults, target, voter).NotFound? ==> !HasPair(t.voteRows, t.userVoteRows, target, voter)
    ensures Existing(t, faults, target, voter).Found? ==> HasPair(t.voteRows, t.userVoteRows, target, voter)
  {
    ListOutcomeCases(ToVotes(VotesOfVotersResult(t.voteRows, {voter})), FaultIn(faults, FindVoteByUserIdOp),
                     VoteRepoFindVoteByUserIDGetContext, VoteRepoFindVoteByUserIDStructScan);
    ListOutcomeCases(UserVotesOfTarget(t.userVoteRows, target), FaultIn(faults, FindUserVoteByUserIdOp),
                     VoteRepoFindUserVoteByUserIDGetContext, VoteRepoFindVoteByUserIDStructScan);
    ExistVotingSeesPairs(t.voteRows, t.userVoteRows, target, voter);
  }

  /** The pair a lookup finds is a vote row of the voter and a join row of
      the target pointing at it. */
  lemma ExistingFound(t: Tables, faults: map<VoteOp, Fault>, target: Uuid, voter: Uuid)
    requires Existing(t, faults, target, voter).Found?
    ensures var p := Existing(t, faults, target, voter).pair;
      (exists a :: a in t.voteRows && p.vote == ToVote(a) && a.createdUserId == voter)
      && p.userVote in t.userVoteRows && p.userVote.userId == target && p.vote.voteId == p.userVote.voteId
  {
    ListOutcomeCases(ToVotes(VotesOfVotersResult(t.voteRows, {voter})), FaultIn(faults, FindVoteByUserIdOp),
                     VoteRepoFindVoteByUserIDGetContext, VoteRepoFindVoteByUserIDStructScan);
    ListOutcomeCases(UserVotesOfTarget(t.userVoteRows, target), FaultIn(faults, FindUserVoteByUserIdOp),
                     VoteRepoFindUserVoteByUserIDGetContext, VoteRepoFindVoteByUserIDStructScan);
    ExistVotingFindsPair(t.voteRows, t.userVoteRows, target, voter);
  }

  // ----- the transitions of a cast and a withdrawal ---------------------

  /** No pair yet: the vote is saved under the next vote id, stamped with
      `now`, then a join row to the target is saved under the next join id,
      pointing at the saved vote. Either insert may fail; a failure stops
      the transition where it happened. */
  predicate CreateEffect(before: Tables, after: Tables, faults: map<VoteOp, Fault>,
                         vote: Vote, userVote: UserVote, now: Time, outer: Option<AppError>,
                         saved: Option<Vote>, savedUserVote: Option<UserVote>, err: Option<AppError>)
  {
    var withVote := WithVote(before, vote, now);
    var withJoin := WithJoin(withVote, userVote.userId, before.nextVoteId);
    match FaultIn(faults, SaveVoteOp)
    case Some(StatementFault(c)) =>
      after == before && saved.None? && savedUserVote.None?
      && err == Some(Outer(outer, Wrap(UserUsecaseVoteUserSaveVote, VoteRepoSaveVoteQueryRowxContext.AppendMessage(c))))
    case Some(ResultFault(c)) =>
      after == withVote && saved.None? && savedUserVote.None?
      && err == Some(Outer(outer, Wrap(UserUsecaseVoteUserSaveVote, VoteRepoSaveVoteQueryRowxContext.AppendMessage(c))))
    case None =>
      match FaultIn(faults, SaveUserVoteOp)
      case Some(StatementFault(c)) =>
        after == withVote && saved.None? && savedUserVote.None?
        && err == Some(Outer(outer, Wrap(UserUsecaseVoteUserSaveUserVote, VoteRepoSaveUserVoteQueryRowxContext.AppendMessage(c))))
      case Some(ResultFault(c)) =>
        after == withJoin && saved.None? && savedUserVote.None?
        && err == Some(Outer(outer, Wrap(UserUsecaseVoteUserSaveUserVote, VoteRepoSaveUserVoteQueryRowxContext.AppendMessage(c))))
      case None =>
        after == withJoin && saved == Some(ToVote(NewVoteRow(before, vote, now)))
        && savedUserVote == Some(NewJoin(withVote, userVote.userId, before.nextVoteId)) && err.None?
  }

  /** A pair with another value: the existing vote row takes the new value
      (same id, voter and time) and nothing else changes. Because the
      UPDATE returns no row, the call reports an error even then. */
  predicate FlipEffect(before: Tables, after: Tables, faults: map<VoteOp, Fault>, p: Pair, value: int,
                       outer: Option<AppError>, saved: Option<Vote>, savedUserVote: Option<UserVote>, err: Option<AppError>)
  {
    saved.None? && savedUserVote.None?
    && match FaultIn(faults, UpdateVoteOp)
       case Some(StatementFault(c)) =>
         after == before
         && err == Some(Outer(outer, Wrap(UserUsecaseVoteUserUpdateVote, VoteRepoUpdateVoteQueryRowxContext.AppendMessage(c))))
       case _ =>
         after == before.(voteRows := SetVoteValue(before.voteRows, p.vote.voteId, value))
         && err == Some(Outer(outer, Wrap(UserUsecaseVoteUserUpdateVote,
                                          VoteRepoUpdateVoteQueryRowxContextDataNotFound.AppendMessage(NoRowsText))))
  }

  /** `VoteUser`, the transition table: a failed lookup and an equal value
      write nothing; an existing pair flips; no pair creates one. */
  predicate CastEffect(before: Tables, after: Tables, faults: map<VoteOp, Fault>, lookup: Lookup,
                       vote: Vote, userVote: UserVote, now: Time, outer: Option<AppError>,
                       saved: Option<Vote>, savedUserVote: Option<UserVote>, err: Option<AppError>)
  {
    match lookup
    case LookupFailed(e) =>
      after == before && saved.None? && savedUserVote.None?
      && err == Some(Outer(outer, Wrap(UserUsecaseVoteUserFindExistVoting, e)))
    case Found(p) =>
      if vote.vote == p.vote.vote then
        after == before && saved.None? && savedUserVote.None?
        && err == Some(Outer(outer, UserUsecaseVoteUserVotingExist.AppendMessage(NilText)))
      else
        FlipEffect(before, after, faults, p, vote.vote, outer, saved, savedUserVote, err)
    case NotFound =>
      CreateEffect(before, after, faults, vote, userVote, now, outer, saved, savedUserVote, err)
  }

  /** `VoteUserWithdraw`: with a pair, its vote row is deleted, then its
      join row; a failure stops there, so a failed second delete leaves the
      join row behind. Without a pair nothing is deleted. */
  predicate WithdrawEffect(before: Tables, after: Tables, faults: map<VoteOp, Fault>, lookup: Lookup,
                           outer: Option<AppError>,
                           removed: Option<Vote>, removedUserVote: Option<UserVote>, err: Option<AppError>)
  {
    match lookup
    case LookupFailed(e) =>
      after == before && removed.None? && removedUserVote.None?
      && err == Some(Outer(outer, Wrap(UserUsecaseVoteUserWithdrawFindExistVoting, e)))
    case NotFound =>
      after == before && removed.None? && removedUserVote.None?
      && err == Some(Outer(outer, UserUsecaseVoteUserWithdrawVoteNotExist.AppendMessage(NilText)))
    case Found(p) =>
      var noVote := NoVote(before, p.vote.voteId);
      var noPair := NoUserVote(noVote, p.userVote.id);
      match FaultIn(faults, DeleteVoteOp)
      case Some(StatementFault(c)) =>
        after == before && removed.None? && removedUserVote.None?
        && err == Some(Outer(outer, Wrap(UserUsecaseVoteUserWithdrawDeleteVote, VoteRepoDeleteVoteExecContext.AppendMessage(c))))
      case Some(ResultFault(c)) =>
        after == noVote && removed.None? && removedUserVote.None?
        && err == Some(Outer(outer, Wrap(UserUsecaseVoteUserWithdrawDeleteVote, VoteRepoDeleteVoteRowsAffected.AppendMessage(c))))
      case None =>
        match FaultIn(faults, DeleteUserVoteOp)
        case Some(StatementFault(c)) =>
          after == noVote && removed.None? && removedUserVote.None?
          && err == Some(Outer(outer, Wrap(UserUsecaseVoteUserWithdrawDeleteUserVote, VoteRepoDeleteVoteExecContext.AppendMessage(c))))
        case Some(ResultFault(c)) =>
          after == noPair && removed.None? && removedUserVote.None?
          && err == Some(Outer(outer, Wrap(UserUsecaseVoteUserWithdrawDeleteUserVote, VoteRepoDeleteVoteRowsAffected.AppendMessage(c))))
        case None =>
          after == noPair && removed == Some(p.vote) && removedUserVote == Some(p.userVote) && err.None?
  }

  /** At most one pair per (target, voter), and join rows point at issued
      vote ids. */
  ghost predicate PairsOk(t: Tables)
  {
    AtMostOnePair(t.voteRows, t.userVoteRows) && JoinsIssued(t.userVoteRows, t.nextVoteId)
  }

  /** Empty tables hold no pair at all, whatever the sequences stand at:
      the base case of the invariant. */
  lemma EmptyTablesPairsOk(nextVoteId: int, nextUserVoteId: int)
    ensures PairsOk(Tables([], [], nextVoteId, nextUserVoteId))
    ensures forall target, voter :: !HasPair([], [], target, voter)
  {
  }

  /** Creating a pair where there was none keeps the invariant, whichever
      insert fails; a complete creation leaves (target, voter) paired. */
  lemma CreateKeepsPairs(before: Tables, after: Tables, vote: Vote, userVote: UserVote, now: Time)
    requires PairsOk(before) && forall a :: a in before.voteRows ==> a.voteId < before.nextVoteId
    requires !HasPair(before.voteRows, before.userVoteRows, userVote.userId, vote.createdUserId)
    requires (after == before || after == WithVote(before, vote, now)
              || after == WithJoin(WithVote(before, vote, now), userVote.userId, before.nextVoteId))
    ensures PairsOk(after)
    ensures after == WithJoin(WithVote(before, vote, now), userVote.userId, before.nextVoteId) ==>
      HasPair(after.voteRows, after.userVoteRows, userVote.userId, vote.createdUserId)
  {
    var next := before.nextVoteId;
    var row := NewVoteRow(before, vote, now);
    var join := NewJoin(WithVote(before, vote, now), userVote.userId, next);
    if after == WithVote(before, vote, now) {
      FreshVoteKeepsPairs(before.voteRows, before.userVoteRows, row, next);
    } else if after != before {
      NewPairKeepsPairs(before.voteRows, before.userVoteRows, row, join, next);
    }
  }

  /** Deleting the rows of a found pair keeps the invariant, whichever
      delete fails; a complete withdrawal leaves (target, voter) unpaired. */
  lemma WithdrawKeepsPairs(before: Tables, after: Tables, a: VoteRow, u: UserVote)
    requires PairsOk(before)
    requires a in before.voteRows && u in before.userVoteRows && a.voteId == u.voteId
    requires after == before || after == NoVote(before, a.voteId) || after == NoUserVote(NoVote(before, a.voteId), u.id)
    ensures PairsOk(after)
    ensures after == NoUserVote(NoVote(before, a.voteId), u.id) ==>
      !HasPair(after.voteRows, after.userVoteRows, u.userId, a.createdUserId)
  {
    if after == NoUserVote(NoVote(before, a.voteId), u.id) {
      RemovalKeepsPairs(before.voteRows, before.userVoteRows, a.voteId, u.id, before.nextVoteId);
      WithdrawLeavesNoPair(before.voteRows, before.userVoteRows, a, u);
    } else if after != before {
      RemovalKeepsPairs(before.voteRows, before.userVoteRows, a.voteId, u.id, before.nextVoteId);
    }
  }

  /** A cast that stops at a failed `SaveVote`. */
  lemma CreateStopsAtVote(before: Tables, after: Tables, faults: map<VoteOp, Fault>, vote: Vote, userVote: UserVote,
                          now: Time, savedVote: Option<Vote>, e: Option<AppError>)
    requires SaveVoteEffect(before, after, FaultIn(faults, SaveVoteOp), vote, now, savedVote, e) && e.Some?
    ensures CreateEffect(before, after, faults, vote, userVote, now, None, None, None,
                         Some(Wrap(UserUsecaseVoteUserSaveVote, e.value)))
    ensures after == before || after == WithVote(before, vote, now)
  {
  }

  /** A cast whose `SaveVote` succeeded, then `SaveUserVote` ran. */
  lemma CreateAfterVote(before: Tables, mid: Tables, after: Tables, faults: map<VoteOp, Fault>,
                        vote: Vote, userVote: UserVote, now: Time,
                        savedVote: Option<Vote>, savedJoin: Option<UserVote>, e2: Option<AppError>)
    requires SaveVoteEffect(before, mid, FaultIn(faults, SaveVoteOp), vote, now, savedVote, None)
    requires SaveUserVoteEffect(mid, after, FaultIn(faults, SaveUserVoteOp), userVote.(voteId := savedVote.value.voteId),
                                savedJoin, e2)
    ensures e2.Some? ==> CreateEffect(before, after, faults, vote, userVote, now, None, None, None,
                                      Some(Wrap(UserUsecaseVoteUserSaveUserVote, e2.value)))
    ensures e2.None? ==> CreateEffect(before, after, faults, vote, userVote, now, None, savedVote, savedJoin, None)
    ensures e2.None? ==> after == WithJoin(WithVote(before, vote, now), userVote.userId, before.nextVoteId)
    ensures (after == WithVote(before, vote, now)
             || after == WithJoin(WithVote(before, vote, now), userVote.userId, before.nextVoteId))
  {
  }

  /** A withdrawal that stops at a failed `DeleteVote`: the vote row
      exists, so the delete never affects zero rows. */
  lemma WithdrawStopsAtVote(before: Tables, after: Tables, faults: map<VoteOp, Fault>, p: Pair, a: VoteRow,
                            e1: Option<AppError>)
    requires DeleteVoteEffect(before, after, FaultIn(faults, DeleteVoteOp), p.vote.voteId, e1) && e1.Some?
    requires a in before.voteRows && a.voteId == p.vote.voteId
    ensures WithdrawEffect(before, after, faults, Found(p), None, None, None,
                           Some(Wrap(UserUsecaseVoteUserWithdrawDeleteVote, e1.value)))
    ensures after == before || after == NoVote(before, p.vote.voteId)
  {
    var i :| 0 <= i < |before.voteRows| && before.voteRows[i] == a;
    Seqs.KeepShorter(before.voteRows, (r: VoteRow) => r.voteId != p.vote.voteId);
  }

  /** A withdrawal whose `DeleteVote` succeeded, then `DeleteUserVote` ran. */
  lemma WithdrawAfterVote(before: Tables, mid: Tables, after: Tables, faults: map<VoteOp, Fault>, p: Pair,
                          e2: Option<AppError>)
    requires DeleteVoteEffect(before, mid, FaultIn(faults, DeleteVoteOp), p.vote.voteId, None)
    requires DeleteUserVoteEffect(mid, after, FaultIn(faults, DeleteUserVoteOp), p.userVote.id, e2)
    requires p.userVote in before.userVoteRows
    ensures e2.Some? ==> WithdrawEffect(before, after, faults, Found(p), None, None, None,
                                       Some(Wrap(UserUsecaseVoteUserWithdrawDeleteUserVote, e2.value)))
    ensures e2.None? ==> WithdrawEffect(before, after, faults, Found(p), None, Some(p.vote), Some(p.userVote), None)
    ensures e2.None? ==> after == NoUserVote(NoVote(before, p.vote.voteId), p.userVote.id)
    ensures (after == NoVote(before, p.vote.voteId)
             || after == NoUserVote(NoVote(before, p.vote.voteId), p.userVote.id))
  {
    var i :| 0 <= i < |mid.userVoteRows| && mid.userVoteRows[i] == p.userVote;
    Seqs.KeepShorter(mid.userVoteRows, (uv: UserVote) => uv.id != p.userVote.id);
  }

  /** On every error path of a cast nothing is returned, so re-wrapping the
      error is all `Vote` changes. */
  lemma CastRewrap(before: Tables, after: Tables, faults: map<VoteOp, Fault>, lookup: Lookup,
                   vote: Vote, userVote: UserVote, now: Time, outer: AppError,
                   saved: Option<Vote>, savedUserVote: Option<UserVote>, err: Option<AppError>)
    requires CastEffect(before, after, faults, lookup, vote, userVote, now, None, saved, savedUserVote, err)
    ensures err.Some? ==>
      (saved.None? && savedUserVote.None?
       && CastEffect(before, after, faults, lookup, vote, userVote, now, Some(outer), None, None, Some(Wrap(outer, err.value))))
    ensures err.None? ==> CastEffect(before, after, faults, lookup, vote, userVote, now, Some(outer), saved, savedUserVote, None)
  {
  }

  lemma WithdrawRewrap(before: Tables, after: Tables, faults: map<VoteOp, Fault>, lookup: Lookup, outer: AppError,
                       removed: Option<Vote>, removedUserVote: Option<UserVote>, err: Option<AppError>)
    requires WithdrawEffect(before, after, faults, lookup, None, removed, removedUserVote, err)
    ensures err.Some? ==>
      (removed.None? && removedUserVote.None?
       && WithdrawEffect(before, after, faults, lookup, Some(outer), None, None, Some(Wrap(outer, err.value))))
    ensures err.None? ==> WithdrawEffect(before, after, faults, lookup, Some(outer), removed, removedUserVote, None)
  {
  }

  /** Through `Vote`, a cast of an already-held value is reported with the
      dispatcher's code and HTTP 500, never as VOTING_EXIST with 200. */
  lemma VotingExistHidden(e: AppError)
    ensures Outer(Some(UserUsecaseVotePositiveVoteUser), UserUsecaseVoteUserVotingExist.AppendMessage(NilText)).code
            != UserUsecaseVoteUserVotingExist.code
    ensures Outer(Some(UserUsecaseVotePositiveVoteUser), UserUsecaseVoteUserVotingExist.AppendMessage(NilText)).httpCode
            == StatusInternalServerError
    ensures Outer(Some(UserUsecaseVoteNegativeVoteUser), UserUsecaseVoteUserVotingExist.AppendMessage(NilText)).httpCode
            == StatusInternalServerError
    ensures UserUsecaseVoteUserVotingExist.httpCode == StatusOK
  {
  }

  // ----- the newest vote ------------------------------------------------

  datatype LastVoteResult = LastVoteResult(last: Option<Vote>, panicked: bool)

  /** `GetLastVoteForUser` on a listed result as written: a non-nil list is
      indexed at 0, and the store's list is never nil, so an empty one
      panics. */
  function LastVoteAsWritten(votes: seq<Vote>): (r: LastVoteResult)
    ensures r.panicked <==> votes == []
    ensures !r.panicked ==> r.last == Some(votes[0])
  {
    if votes != [] then LastVoteResult(Some(votes[0]), false) else LastVoteResult(None, true)
  }

  /** The newest vote, or none when there is no vote. */
  function LastVote(votes: seq<Vote>): (r: Option<Vote>)
    ensures r.None? <==> votes == []
    ensures r.Some? ==> r.value in votes
  {
    if votes == [] then None else Some(votes[0])
  }

  /** The as-written lookup panics exactly for a voter who never voted. */
  lemma LastVoteAsWrittenPanics(rs: seq<VoteRow>, voter: Uuid)
    ensures LastVoteAsWritten(ToVotes(VotesOfVotersResult(rs, {voter}))).panicked
            <==> forall i :: 0 <= i < |rs| ==> rs[i].createdUserId != voter
  {
    ResultRowsOfVoter(rs, voter);
    var res := VotesOfVotersResult(rs, {voter});
    if exists i :: 0 <= i < |rs| && rs[i].createdUserId == voter {
      var i :| 0 <= i < |rs| && rs[i].createdUserId == voter;
      assert rs[i] in rs;
      assert rs[i] in res;
    }
  }

  /** The corrected lookup returns the voter's latest vote: no vote of the
      voter is newer, and there is none only when the voter never voted. */
  lemma LastVoteIsNewest(rs: seq<VoteRow>, voter: Uuid)
    ensures var last := LastVote(ToVotes(VotesOfVotersResult(rs, {voter})));
      (last.None? <==> forall i :: 0 <= i < |rs| ==> rs[i].createdUserId != voter)
      && (last.Some? ==>
            (last.value.createdUserId == voter && last.value.createdAt.Some?
             && forall i :: 0 <= i < |rs| && rs[i].createdUserId == voter ==> rs[i].createdAt <= last.value.createdAt.value))
  {
    ResultRowsOfVoter(rs, voter);
    VotesOfVotersResultExact(rs, {voter});
    var res := VotesOfVotersResult(rs, {voter});
    LastVoteAsWrittenPanics(rs, voter);
    if res != [] {
      assert res[0] in res;
      forall i | 0 <= i < |rs| && rs[i].createdUserId == voter ensures rs[i].createdAt <= res[0].createdAt {
        assert rs[i] in rs;
        var k :| 0 <= k < |res| && res[k] == rs[i];
        if k > 0 {
          assert res[0].createdAt >= res[k].createdAt;
        }
      }
    }
  }

  // ----- appendVotesToUsers ---------------------------------------------

  /** The user with the votes of its group, when it has one. */
  function WithGroup(u: User, groups: map<Uuid, seq<Vote>>): User
  {
    if u.userId in groups then u.(votes := groups[u.userId]) else u
  }

  /** `appendVotesToUsers`: the users in order, each given the votes of its
      group; a user without a group keeps its votes. It never fails. */
  method AppendVotesToUsers(users: Users, groups: map<Uuid, seq<Vote>>) returns (r: seq<User>, err: Option<AppError>)
    ensures |r| == |users.users| && err.None?
    ensures forall i :: 0 <= i < |r| ==> r[i] == WithGroup(users.users[i], groups)
  {
    r := [];
    var i := 0;
    while i < |users.users|
      invariant 0 <= i <= |users.users| && |r| == i
      invariant forall k :: 0 <= k < i ==> r[k] == WithGroup(users.users[k], groups)
    {
      var user := users.users[i];
      if user.userId in groups {
        user := user.(votes := groups[user.userId]);
      }
      r := r + [user];
      i := i + 1;
    }
    return r, None;
  }

  class UserUsecase {
    const userRepo: US.UserRepo
    const userRedisRepo: UC.UserRedisRepo
    const voteRepo: VoteRepo

    constructor (userRepo: US.UserRepo, voteRepo: VoteRepo, userRedisRepo: UC.UserRedisRepo)
      ensures this.userRepo == userRepo && this.voteRepo == voteRepo && this.userRedisRepo == userRedisRepo
      ensures voteRepo.Valid() && voteRepo.voteRows == [] && voteRepo.userVoteRows == [] ==> Valid() && PairsInvariant()
    {
      EmptyTablesPairsOk(voteRepo.nextVoteId, voteRepo.nextUserVoteId);
      this.userRepo := userRepo;
      this.voteRepo := voteRepo;
      this.userRedisRepo := userRedisRepo;
    }

    ghost predicate Valid()
      reads voteRepo
    {
      voteRepo.Valid()
    }

    /** At most one pair per (target, voter), and join rows point at issued
        vote ids. */
    ghost predicate PairsInvariant()
      reads voteRepo
    {
      PairsOk(voteRepo.Snapshot())
    }

    /** What `FindExistVoting(target, voter)` reports in the current state. */
    function ExistVoting(target: Uuid, voter: Uuid): Lookup
      reads voteRepo
    {
      Existing(voteRepo.Snapshot(), voteRepo.faults, target, voter)
    }

    /** `FindExistVoting`: the voter's votes (outer loop) against the
        target's join rows (inner loop); the first pair sharing a vote id. */
    method FindExistVoting(target: Uuid, voter: Uuid) returns (vote: Option<Vote>, userVote: Option<UserVote>, err: Option<AppError>)
      ensures match ExistVoting(target, voter)
        case LookupFailed(e) => vote.None? && userVote.None? && err == Some(e)
        case Found(p) => vote == Some(p.vote) && userVote == Some(p.userVote) && err.None?
        case NotFound => vote.None? && userVote.None? && err.None?
      ensures err.None? ==> (vote.None? <==> !HasPair(voteRepo.voteRows, voteRepo.userVoteRows, target, voter))
    {
      var votes, e1 := voteRepo.FindVoteByUserID(voter);
      if e1.Some? {
        return None, None, Some(Wrap(UserUsecaseVoteIsExistFindVoteByUserID, e1.value));
      }
      var userVotes, e2 := voteRepo.FindUserVoteByUserID(target);
      if e2.Some? {
        return None, None, Some(Wrap(UserUsecaseVoteIsExistFindUserVoteByUserID, e2.value));
      }
      var vs := votes.value;
      var uvs := userVotes.value;
      ExistingSeesPairs(voteRepo.Snapshot(), voteRepo.faults, target, voter);
      var i := 0;
      while i < |vs|
        invariant 0 <= i <= |vs|
        invariant FirstMatch(vs, uvs) == FirstMatchFrom(vs, uvs, i)
      {
        var j := 0;
        while j < |uvs|
          invariant 0 <= j <= |uvs|
          invariant FirstIn(vs[i].voteId, uvs, 0) == FirstIn(vs[i].voteId, uvs, j)
        {
          if vs[i].voteId == uvs[j].voteId {
            return Some(vs[i]), Some(uvs[j]), None;
          }
          j := j + 1;
        }
        i := i + 1;
      }
      return None, None, None;
    }

    /** `VoteUser`: the cast transition, preserving the pair invariant. */
    method VoteUser(vote: Vote, userVote: UserVote, now: Time)
      returns (saved: Option<Vote>, savedUserVote: Option<UserVote>, err: Option<AppError>)
      requires Valid() && PairsInvariant()
      modifies voteRepo
      ensures Valid() && PairsInvariant() && voteRepo.faults == old(voteRepo.faults)
      ensures CastEffect(old(voteRepo.Snapshot()), voteRepo.Snapshot(), voteRepo.faults,
                         old(ExistVoting(userVote.userId, vote.createdUserId)), vote, userVote, now, None,
                         saved, savedUserVote, err)
    {
      var voteExist, userVoteExist, e := FindExistVoting(userVote.userId, vote.createdUserId);
      if e.Some? {
        return None, None, Some(Wrap(UserUsecaseVoteUserFindExistVoting, e.value));
      }
      if voteExist.Some? && userVoteExist.Some? {
        if vote.vote == voteExist.value.vote {
          return None, None, Some(UserUsecaseVoteUserVotingExist.AppendMessage(NilText));
        }
        saved, savedUserVote, err := FlipVoting(Pair(voteExist.value, userVoteExist.value), vote.vote);
      } else {
        saved, savedUserVote, err := CreateVoting(vote, userVote, now);
      }
    }

    /** The flip path of `VoteUser`. */
    method FlipVoting(p: Pair, value: int) returns (saved: Option<Vote>, savedUserVote: Option<UserVote>, err: Option<AppError>)
      requires Valid() && PairsInvariant()
      modifies voteRepo
      ensures Valid() && PairsInvariant() && voteRepo.faults == old(voteRepo.faults)
      ensures FlipEffect(old(voteRepo.Snapshot()), voteRepo.Snapshot(), voteRepo.faults, p, value, None,
                         saved, savedUserVote, err)
    {
      SetVoteValueKeepsPairs(voteRepo.voteRows, voteRepo.userVoteRows, p.vote.voteId, value);
      var updated, e := voteRepo.UpdateVote(p.vote.(vote := value));
      if e.Some? {
        return None, None, Some(Wrap(UserUsecaseVoteUserUpdateVote, e.value));
      }
      return updated, Some(p.userVote), None;
    }

    /** The create path of `VoteUser`: reached only when (target, voter) has
        no pair, so the new pair is the only one. */
    method CreateVoting(vote: Vote, userVote: UserVote, now: Time)
      returns (saved: Option<Vote>, savedUserVote: Option<UserVote>, err: Option<AppError>)
      requires Valid() && PairsInvariant()
      requires !HasPair(voteRepo.voteRows, voteRepo.userVoteRows, userVote.userId, vote.createdUserId)
      modifies voteRepo
      ensures Valid() && PairsInvariant() && voteRepo.faults == old(voteRepo.faults)
      ensures CreateEffect(old(voteRepo.Snapshot()), voteRepo.Snapshot(), voteRepo.faults, vote, userVote, now, None,
                           saved, savedUserVote, err)
    {
      ghost var before := voteRepo.Snapshot();
      assert forall a :: a in before.voteRows ==> a.voteId < before.nextVoteId;
      var savedVote, e := voteRepo.SaveVote(vote, now);
      if e.Some? {
        CreateStopsAtVote(before, voteRepo.Snapshot(), voteRepo.faults, vote, userVote, now, savedVote, e);
        CreateKeepsPairs(before, voteRepo.Snapshot(), vote, userVote, now);
        return None, None, Some(Wrap(UserUsecaseVoteUserSaveVote, e.value));
      }
      ghost var mid := voteRepo.Snapshot();
      var savedJoin, e2 := voteRepo.SaveUserVote(userVote.(voteId := savedVote.value.voteId));
      CreateAfterVote(before, mid, voteRepo.Snapshot(), voteRepo.faults, vote, userVote, now, savedVote, savedJoin, e2);
      CreateKeepsPairs(before, voteRepo.Snapshot(), vote, userVote, now);
      if e2.Some? {
        return None, None, Some(Wrap(UserUsecaseVoteUserSaveUserVote, e2.value));
      }
      return savedVote, savedJoin, None;
    }

    /** `VoteUserWithdraw`: the withdrawal transition; after a successful
        withdrawal (target, voter) has no pair left. */
    method VoteUserWithdraw(vote: Vote, userVote: UserVote)
      returns (removed: Option<Vote>, removedUserVote: Option<UserVote>, err: Option<AppError>)
      requires Valid() && PairsInvariant()
      modifies voteRepo
      ensures Valid() && PairsInvariant() && voteRepo.faults == old(voteRepo.faults)
      ensures WithdrawEffect(old(voteRepo.Snapshot()), voteRepo.Snapshot(), voteRepo.faults,
                             old(ExistVoting(userVote.userId, vote.createdUserId)), None,
                             removed, removedUserVote, err)
      ensures err.None? ==> !HasPair(voteRepo.voteRows, voteRepo.userVoteRows, userVote.userId, vote.createdUserId)
    {
      var target := userVote.userId;
      var voter := vote.createdUserId;
      var voteExist, userVoteExist, e := FindExistVoting(target, voter);
      if e.Some? {
        return None, None, Some(Wrap(UserUsecaseVoteUserWithdrawFindExistVoting, e.value));
      }
      if voteExist.None? || userVoteExist.None? {
        return None, None, Some(UserUsecaseVoteUserWithdrawVoteNotExist.AppendMessage(NilText));
      }
      ExistingFound(voteRepo.Snapshot(), voteRepo.faults, target, voter);
      removed, removedUserVote, err := RemovePair(Pair(voteExist.value, userVoteExist.value));
    }

    /** The deleting half of `VoteUserWithdraw`, on the pair the lookup
        found: its vote row goes first, then its join row. */
    method RemovePair(p: Pair) returns (removed: Option<Vote>, removedUserVote: Option<UserVote>, err: Option<AppError>)
      requires Valid() && PairsInvariant()
      requires exists a :: a in voteRepo.voteRows && p.vote == ToVote(a) && a.createdUserId == p.vote.createdUserId
      requires p.userVote in voteRepo.userVoteRows && p.vote.voteId == p.userVote.voteId
      modifies voteRepo
      ensures Valid() && PairsInvariant() && voteRepo.faults == old(voteRepo.faults)
      ensures WithdrawEffect(old(voteRepo.Snapshot()), voteRepo.Snapshot(), voteRepo.faults, Found(p), None,
                             removed, removedUserVote, err)
      ensures err.None? ==> !HasPair(voteRepo.voteRows, voteRepo.userVoteRows, p.userVote.userId, p.vote.createdUserId)
    {
      ghost var before := voteRepo.Snapshot();
      ghost var a :| a in before.voteRows && p.vote == ToVote(a) && a.createdUserId == p.vote.createdUserId;
      var e1 := voteRepo.DeleteVote(p.vote);
      if e1.Some? {
        WithdrawStopsAtVote(before, voteRepo.Snapshot(), voteRepo.faults, p, a, e1);
        WithdrawKeepsPairs(before, voteRepo.Snapshot(), a, p.userVote);
        return None, None, Some(Wrap(UserUsecaseVoteUserWithdrawDeleteVote, e1.value));
      }
      ghost var mid := voteRepo.Snapshot();
      var e2 := voteRepo.DeleteUserVote(p.userVote);
      WithdrawAfterVote(before, mid, voteRepo.Snapshot(), voteRepo.faults, p, e2);
      WithdrawKeepsPairs(before, voteRepo.Snapshot(), a, p.userVote);
      if e2.Some? {
        return None, None, Some(Wrap(UserUsecaseVoteUserWithdrawDeleteUserVote, e2.value));
      }
      return Some(p.vote), Some(p.userVote), None;
    }

    /** `Vote`: routes +1 and -1 to `VoteUser` and 0 to `VoteUserWithdraw`,
        re-wrapping their errors; any other value is refused without
        touching the store. */
    method Vote(vote: Vote, userVote: UserVote, now: Time)
      returns (result: Option<Vote>, resultUserVote: Option<UserVote>, err: Option<AppError>)
      requires Valid() && PairsInvariant()
      modifies voteRepo
      ensures Valid() && PairsInvariant() && voteRepo.faults == old(voteRepo.faults)
      ensures vote.vote == VotePositive ==>
        CastEffect(old(voteRepo.Snapshot()), voteRepo.Snapshot(), voteRepo.faults,
                   old(ExistVoting(userVote.userId, vote.createdUserId)), vote, userVote, now,
                   Some(UserUsecaseVotePositiveVoteUser), result, resultUserVote, err)
      ensures vote.vote == VoteNegative ==>
        CastEffect(old(voteRepo.Snapshot()), voteRepo.Snapshot(), voteRepo.faults,
                   old(ExistVoting(userVote.userId, vote.createdUserId)), vote, userVote, now,
                   Some(UserUsecaseVoteNegativeVoteUser), result, resultUserVote, err)
      ensures vote.vote == VoteWithdraw ==>
        WithdrawEffect(old(voteRepo.Snapshot()), voteRepo.Snapshot(), voteRepo.faults,
                       old(ExistVoting(userVote.userId, vote.createdUserId)),
                       Some(UserUsecaseVoteWithdrawVoteUser), result, resultUserVote, err)
      ensures vote.vote !in {VotePositive, VoteNegative, VoteWithdraw} ==>
        unchanged(voteRepo) && result.None? && resultUserVote.None?
        && err == Some(UserControllerVoteUserValueOfVoteIsNotRight.AppendMessage(UserControllerVoteUserValueOfVoteIsNotRight.Error()))
    {
      ghost var before := voteRepo.Snapshot();
      ghost var lookup := ExistVoting(userVote.userId, vote.createdUserId);
      if vote.vote == VotePositive || vote.vote == VoteNegative {
        var outer := if vote.vote == VotePositive then UserUsecaseVotePositiveVoteUser else UserUsecaseVoteNegativeVoteUser;
        var v, uv, e := VoteUser(vote, userVote, now);
        CastRewrap(before, voteRepo.Snapshot(), voteRepo.faults, lookup, vote, userVote, now, outer, v, uv, e);
        if e.Some? {
          return None, None, Some(Wrap(outer, e.value));
        }
        return v, uv, None;
      } else if vote.vote == VoteWithdraw {
        var v, uv, e := VoteUserWithdraw(vote, userVote);
        WithdrawRewrap(before, voteRepo.Snapshot(), voteRepo.faults, lookup, UserUsecaseVoteWithdrawVoteUser, v, uv, e);
        if e.Some? {
          return None, None, Some(Wrap(UserUsecaseVoteWithdrawVoteUser, e.value));
        }
        return v, uv, None;
      }
      var appError := UserControllerVoteUserValueOfVoteIsNotRight;
      return None, None, Some(UserControllerVoteUserValueOfVoteIsNotRight.AppendMessage(appError.Error()));
    }

    /** `GetLastVoteForUser`: the first of the voter's newest-first votes;
        the store's empty list is not nil, so a voter without votes panics. */
    method GetLastVoteForUser(voter: Uuid) returns (last: Option<Vote>, err: Option<AppError>, panicked: bool)
      ensures match voteRepo.VotesOfVoter(voter)
        case ListFailed(e) => last.None? && !panicked && err == Some(Wrap(UserUsecaseFindVotesForUser, e))
        case Listed(vs) => err.None? && LastVoteResult(last, panicked) == LastVoteAsWritten(vs)
    {
      var votes, e := voteRepo.FindVoteByUserID(voter);
      if e.Some? {
        return None, Some(Wrap(UserUsecaseFindVotesForUser, e.value)), false;
      }
      if |votes.value| == 0 {
        return None, None, true;
      }
      return Some(votes.value[0]), None, false;
    }

    /** `FindVotesForUser`: the voter's votes; a data-not-found error would
        be swallowed, but the list query never reports one. */
    method FindVotesForUser(voter: Uuid) returns (votes: Option<seq<Vote>>, err: Option<AppError>)
      ensures match voteRepo.VotesOfVoter(voter)
        case ListFailed(e) => votes.None? && err == Some(Wrap(UserUsecaseFindVotesForUser, e))
        case Listed(vs) => votes == Some(vs) && err.None?
    {
      var found, e := voteRepo.FindVoteByUserID(voter);
      ListOutcomeCases(ToVotes(VotesOfVotersResult(voteRepo.voteRows, {voter})), voteRepo.FaultOf(FindVoteByUserIdOp),
                       VoteRepoFindVoteByUserIDGetContext, VoteRepoFindVoteByUserIDStructScan);
      if e.Some? && e.value.code != VoteRepoFindVoteByUserIDQueryxContextDataNotFound.code {
        return None, Some(Wrap(UserUsecaseFindVotesForUser, e.value));
      }
      return found, None;
    }

    /** `LoadVotesToUsers`: one query for the votes of every listed user,
        grouped by voter and handed to each user. */
    method LoadVotesToUsers(users: Users) returns (loaded: Option<seq<User>>, err: Option<AppError>)
      ensures match voteRepo.VotesOfVoters(IdsOf(users))
        case ListFailed(e) => loaded.None? && err == Some(Wrap(UserUsecaseLoadVotesToUsers, e))
        case Listed(vs) =>
          err.None? && loaded.Some? && |loaded.value| == |users.users|
          && forall i :: 0 <= i < |users.users| ==> loaded.value[i] == WithVotesOf(users.users[i], vs)
    {
      var userIds := UserModel.MapUsersToIDs(users);
      assert userIds == IdsOf(users);
      var votes, e := voteRepo.FindVotesByUserIDs(userIds);
      if e.Some? {
        return None, Some(Wrap(UserUsecaseLoadVotesToUsers, e.value));
      }
      var groups := UserModel.MapToVotesByUserID(votes.value);
      var r, e2 := AppendVotesToUsers(users, groups);
      return Some(r), None;
    }

    // ----- users ------------------------------------------------------

    /** `CreateUser`: prepares the user, refuses a taken nickname and saves. */
    method CreateUser(user: User, now: Time, freshId: Uuid, hash: HashOutcome) returns (created: Option<User>, err: Option<AppError>)
      modifies userRepo
      ensures userRepo.faults == old(userRepo.faults)
      ensures Creation(created, err, userRepo.users)
        == CreateUserFlow(old(userRepo.users), old(userRepo.FaultOf(US.FindUserByNicknameOp)),
                          old(userRepo.FaultOf(US.SaveUserOp)), user, now, freshId, hash)
    {
      if hash.HashFailed? {
        return None, Some(Wrap(UserUsecaseCreateUserHashPassword, UserHashPasswordGenerateFromPassword.AppendMessage(hash.cause)));
      }
      var prepared := Prepared(user, now, freshId, hash.hash);
      var existing, e := userRepo.FindUserByNickname(prepared.nickname);
      if e.Some? && e.value.code != UserRepoFindUserByNicknameGetDataNotFound.code {
        return None, Some(Wrap(UserUsecaseCreateUserFindUserByNickname, e.value));
      }
      if existing.Some? {
        return existing, Some(UserUsecaseCreateUserUserExists.AppendMessage(NilText));
      }
      var saved, e2 := userRepo.SaveUser(prepared);
      if e2.Some? {
        return None, Some(Wrap(UserUsecaseCreateUserSaveUser, e2.value));
      }
      return saved, None;
    }

    /** `UpdateUser`: the store's update, its error wrapped. */
    method UpdateUser(user: User) returns (updated: Option<User>, err: Option<AppError>)
      modifies userRepo
      ensures userRepo.faults == old(userRepo.faults)
      ensures match old(userRepo.FaultOf(US.UpdateUserOp))
        case Some(f) =>
          userRepo.users == old(userRepo.users) && updated.None?
          && err == Some(Wrap(UserUsecaseUpdateUserUpdateUser, UserRepoUpdateUserQueryRowxContext.AppendMessage(f.cause)))
        case None => userRepo.users == US.UpdatedRows(old(userRepo.users), user) && updated == Some(user) && err.None?
    {
      var u, e := userRepo.UpdateUser(user);
      if e.Some? {
        return None, Some(Wrap(UserUsecaseUpdateUserUpdateUser, e.value));
      }
      return u, None;
    }

    /** `DeleteUser`: the store's delete by id, its error wrapped; deleting
        a user who is not there is an error. */
    method DeleteUser(userId: Uuid) returns (err: Option<AppError>)
      modifies userRepo
      ensures userRepo.faults == old(userRepo.faults)
      ensures match old(userRepo.FaultOf(US.DeleteUserByUserIdOp))
        case Some(StatementFault(cause)) =>
          userRepo.users == old(userRepo.users)
          && err == Some(Wrap(UserUsecaseDeleteUser, UserRepoDeleteUserByUserIDExecContext.AppendMessage(cause)))
        case Some(ResultFault(cause)) =>
          userRepo.users == US.RemoveUser(old(userRepo.users), userId)
          && err == Some(Wrap(UserUsecaseDeleteUser, UserRepoDeleteUserByUserIDRowsAffected.AppendMessage(cause)))
        case None =>
          userRepo.users == US.RemoveUser(old(userRepo.users), userId)
          && (err.None? <==> exists i :: 0 <= i < |old(userRepo.users)| && old(userRepo.users)[i].userId == userId)
          && (err.Some? ==> err == Some(Wrap(UserUsecaseDeleteUser, UserRepoDeleteUserByUserIDEmptyRowsAffected.AppendMessage(NilText))))
    {
      var e := userRepo.DeleteUserByUserID(userId);
      if e.Some? {
        return Some(Wrap(UserUsecaseDeleteUser, e.value));
      }
      return None;
    }

    /** `GetUser`: the cache-aside read of one user by id. */
    method GetUser(userId: Uuid) returns (user: Option<User>, err: Option<AppError>)
      modifies userRedisRepo
      ensures userRedisRepo.faults == old(userRedisRepo.faults)
      ensures userRedisRepo.byNickname == old(userRedisRepo.byNickname) && userRedisRepo.byPage == old(userRedisRepo.byPage)
      ensures UserFetch(user, err, userRedisRepo.byId)
        == GetUserFlow(old(userRedisRepo.byId), old(userRedisRepo.faults), userRepo.users, userRepo.FaultOf(US.FindUserByUuidOp), userId)
    {
      var cached, e := userRedisRepo.FindUserByUUID(userId);
      if e.Some? && e.value.code != UserRedisRepoFindUserByUUIDGetDataNotFound.code {
        return None, Some(Wrap(UserUsecaseGetUserFindUserByUUID, e.value));
      }
      if cached.Some? {
        return cached, None;
      }
      var found, e2 := userRepo.FindUserByUUID(userId);
      if e2.Some? && e2.value.code != UserRepoFindUserByUUIDGetDataNotFound.code {
        return None, Some(Wrap(UserUsecaseGetUserLoad, e2.value));
      }
      var e3 := userRedisRepo.SetFindUserByUUID(userId, found);
      if e3.Some? {
        return None, Some(Wrap(UserUsecaseGetUserSetFindUserByUUID, e3.value));
      }
      return found, None;
    }

    /** `GetUserByID`: `GetUser`, then the user's votes. A nil user without
        an error is dereferenced, which panics. */
    method GetUserByID(userId: Uuid) returns (user: Option<User>, err: Option<AppError>, panicked: bool)
      modifies userRedisRepo
      ensures userRedisRepo.faults == old(userRedisRepo.faults)
      ensures userRedisRepo.byNickname == old(userRedisRepo.byNickname) && userRedisRepo.byPage == old(userRedisRepo.byPage)
      ensures var r := GetUserFlow(old(userRedisRepo.byId), old(userRedisRepo.faults), userRepo.users,
                                   userRepo.FaultOf(US.FindUserByUuidOp), userId);
        userRedisRepo.byId == r.cache
        && (r.err.Some? ==> user.None? && !panicked && err == Some(Wrap(UserUsecaseGetUserByIDGetUser, r.err.value)))
        && (r.err.None? && r.user.None? ==> user.None? && err.None? && panicked)
        && (r.user.Some? ==>
              !panicked
              && match voteRepo.VotesOfVoter(r.user.value.userId)
                 case ListFailed(e) =>
                   user.None? && err == Some(Wrap(UserUsecaseGetUserByIDFindVotesForUser, Wrap(UserUsecaseFindVotesForUser, e)))
                 case Listed(vs) => user == Some(r.user.value.(votes := vs)) && err.None?)
      ensures panicked <==>
        UC.FindUserByUuidGet !in old(userRedisRepo.faults) && userId !in old(userRedisRepo.byId)
        && userRepo.FaultOf(US.FindUserByUuidOp).None? && UC.SetFindUserByUuidSet !in old(userRedisRepo.faults)
        && forall i :: 0 <= i < |userRepo.users| ==> userRepo.users[i].userId != userId
    {
      GetUserNilIffAbsent(userRedisRepo.byId, userRedisRepo.faults, userRepo.users, userRepo.FaultOf(US.FindUserByUuidOp), userId);
      GetUserCoherent(userRedisRepo.byId, userRedisRepo.faults, userRepo.users, userRepo.FaultOf(US.FindUserByUuidOp), userId);
      var u, e := GetUser(userId);
      if e.Some? {
        return None, Some(Wrap(UserUsecaseGetUserByIDGetUser, e.value)), false;
      }
      if u.None? {
        return None, None, true;
      }
      var votes, e2 := FindVotesForUser(u.value.userId);
      if e2.Some? {
        return None, Some(Wrap(UserUsecaseGetUserByIDFindVotesForUser, e2.value)), false;
      }
      return Some(u.value.(votes := votes.value)), None, false;
    }

    /** `CheckUserByNickname`: whether the user may hold their nickname. */
    method CheckUserByNickname(user: User) returns (free: bool, err: Option<AppError>)
      ensures Check(free, err) == CheckNicknameFlow(userRepo.users, userRepo.FaultOf(US.FindUserByNicknameOp), user)
    {
      var holder, e := userRepo.FindUserByNickname(user.nickname);
      if e.Some? && e.value.code != UserRepoFindUserByNicknameGetDataNotFound.code {
        return false, Some(Wrap(UserUsecaseCheckProfileByNick, e.value));
      }
      if holder.Some? && holder.value.userId != user.userId {
        return false, Some(UserUsecaseCheckProfileByNickBusy.AppendMessage(NilText));
      }
      return true, None;
    }

    /** `GetUserByNickname`: a cache read whose every error aborts. */
    method GetUserByNickname(nickname: string) returns (user: Option<User>, err: Option<AppError>)
      ensures US.Answer(user, err) == GetUserByNicknameFlow(userRedisRepo.byNickname, userRedisRepo.faults, nickname)
    {
      var cached, e := userRedisRepo.FindUserByNickname(nickname);
      if e.Some? {
        return None, Some(Wrap(UserUsecaseGetUserByNicknameUserRedisRepoFindUserByNickname, e.value));
      }
      return cached, None;
    }

    /** `GetUsers`: the cache-aside read of one page; a panic of the store
        propagates. */
    method GetUsers(q: Pagination.Query) returns (page: Option<Users>, err: Option<AppError>, panicked: bool)
      modifies userRedisRepo
      ensures userRedisRepo.faults == old(userRedisRepo.faults)
      ensures userRedisRepo.byId == old(userRedisRepo.byId) && userRedisRepo.byNickname == old(userRedisRepo.byNickname)
      ensures PageFetch(page, err, panicked, userRedisRepo.byPage)
        == GetUsersFlow(old(userRedisRepo.byPage), old(userRedisRepo.faults), userRepo.users,
                        userRepo.FaultOf(US.GetUsersOp), userRepo.FaultOf(US.GetUsersRowsOp), q)
    {
      var cached, e := userRedisRepo.GetUsers(q);
      if e.Some? && e.value.code != UserRedisRepoGetUsersGetDataNotFound.code {
        return None, Some(Wrap(UserUsecaseGetUsersUserRedisRepoGetUsers, e.value)), false;
      }
      if cached.Some? {
        return cached, None, false;
      }
      var stored, e2, p := userRepo.GetUsers(q);
      if p {
        return None, None, true;
      }
      if e2.Some? {
        return None, Some(Wrap(UserUsecaseGetUsers, e2.value)), false;
      }
      US.PageAnswerShape(userRepo.users, userRepo.FaultOf(US.GetUsersOp), userRepo.FaultOf(US.GetUsersRowsOp), q);
      var e3 := userRedisRepo.SetGetUsers(q, stored.value);
      if e3.Some? {
        return None, Some(Wrap(UserUsecaseGetUsersUserRedisRepoSetGetUsers, e3.value)), false;
      }
      return stored, None, false;
    }

    /** `GetUsersByPaginationQuery`: a page, then the votes of its users; a
        panic of the page read propagates. */
    method GetUsersByPaginationQuery(q: Pagination.Query) returns (page: Option<Users>, err: Option<AppError>, panicked: bool)
      modifies userRedisRepo
      ensures userRedisRepo.faults == old(userRedisRepo.faults)
      ensures userRedisRepo.byId == old(userRedisRepo.byId) && userRedisRepo.byNickname == old(userRedisRepo.byNickname)
      ensures var r := GetUsersFlow(old(userRedisRepo.byPage), old(userRedisRepo.faults), userRepo.users,
                                    userRepo.FaultOf(US.GetUsersOp), userRepo.FaultOf(US.GetUsersRowsOp), q);
        userRedisRepo.byPage == r.cache
        && (panicked <==> r.panicked)
        && (r.panicked ==> page.None? && err.None?)
        && (r.err.Some? ==> page.None? && err == Some(Wrap(UserUsecaseGetUsers, r.err.value)))
        && (r.err.None? && !r.panicked ==>
              r.page.Some?
              && match voteRepo.VotesOfVoters(IdsOf(r.page.value))
                 case ListFailed(e) => page.None? && err == Some(Wrap(UserUsecaseGetUsers, Wrap(UserUsecaseLoadVotesToUsers, e)))
                 case Listed(vs) =>
                   err.None? && page.Some? && page.value.page == r.page.value.page && page.value.hasMore == r.page.value.hasMore
                   && |page.value.users| == |r.page.value.users|
                   && forall i :: 0 <= i < |page.value.users| ==> page.value.users[i] == WithVotesOf(r.page.value.users[i], vs))
    {
      GetUsersCoherent(userRedisRepo.byPage, userRedisRepo.faults, userRepo.users,
                       userRepo.FaultOf(US.GetUsersOp), userRepo.FaultOf(US.GetUsersRowsOp), q);
      var users, e, p := GetUsers(q);
      if p {
        return None, None, true;
      }
      if e.Some? {
        return None, Some(Wrap(UserUsecaseGetUsers, e.value)), false;
      }
      var loaded, e2 := LoadVotesToUsers(users.value);
      if e2.Some? {
        return None, Some(Wrap(UserUsecaseGetUsers, e2.value)), false;
      }
      return Some(users.value.(users := loaded.value)), None, false;
    }
  }

  /** A listed user after loading: the user's own votes from the batch,
      or the user unchanged when the batch holds none. */
  function WithVotesOf(u: User, vs: seq<Vote>): User
  {
    if u.userId in UserModel.Voters(vs) then u.(votes := UserModel.VotesBy(vs, u.userId)) else u
  }

  function IdsOf(users: Users): (ids: seq<Uuid>)
    ensures |ids| == |users.users| && forall i :: 0 <= i < |ids| ==> ids[i] == users.users[i].userId
  {
    seq(|users.users|, i requires 0 <= i < |users.users| => users.users[i].userId)
  }

  /** After deleting both rows of the only pair, no pair is left. */
  lemma WithdrawLeavesNoPair(rs: seq<VoteRow>, uvs: seq<UserVote>, a: VoteRow, u: UserVote)
    requires AtMostOnePair(rs, uvs)
    requires a in rs && u in uvs && a.voteId == u.voteId
    ensures !HasPair(RemoveVote(rs, a.voteId), RemoveUserVote(uvs, u.id), u.userId, a.createdUserId)
  {
    WithdrawRemovesPair(rs, uvs, a, u);
    Seqs.KeepMembers(uvs, (uv: UserVote) => uv.id != u.id);
    Seqs.KeepMembers(rs, (r: VoteRow) => r.voteId != a.voteId);
  }
}
