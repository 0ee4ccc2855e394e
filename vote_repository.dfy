/** The vote store of internal/interface/repository/vote.go over two
    in-memory tables that follow the SQL of vote_queries.go: `vote`
    (id, value, voter, time) and `user_votes` (id, target, vote id). Row ids
    come from serial counters; store failures are injected per operation by
    the environment through `faults`. */
module VoteStore {
  import opened Base
  import opened AppErrors
  import opened Entities
  import opened Seqs

  /** A failing statement (nothing is written), or a statement that ran but
      whose result could not be read (scan or affected-rows failure). */
  datatype Fault = StatementFault(cause: string) | ResultFault(cause: string)

  datatype VoteOp =
    | SaveVoteOp | UpdateVoteOp | FindVoteByIdOp | FindUserVoteByIdOp
    | FindVoteByUserIdOp | FindVotesByUserIdsOp | FindUserVoteByUserIdOp
    | SaveUserVoteOp | DeleteUserVoteOp | DeleteVoteOp

  /** What a list query hands back: the scanned rows, or the error. */
  datatype Listing<T> = Listed(items: seq<T>) | ListFailed(err: AppError)

  /** A list query over `resultSet`: a statement failure is reported with
      `queryError`; a scan failure hits the first row, so it is reported with
      `scanError` only when there is a row; otherwise every row is returned. */
  function ListOutcome<T>(resultSet: seq<T>, f: Option<Fault>, queryError: AppError, scanError: AppError): Listing<T>
  {
    match f
    case None => Listed(resultSet)
    case Some(StatementFault(cause)) => ListFailed(queryError.AppendMessage(cause))
    case Some(ResultFault(cause)) =>
      if resultSet == [] then Listed([]) else ListFailed(scanError.AppendMessage(cause))
  }

  /** A list query never reports data-not-found: it either fails with one of
      its two errors, or lists the whole result set. */
  lemma ListOutcomeCases<T>(resultSet: seq<T>, f: Option<Fault>, queryError: AppError, scanError: AppError)
    ensures ListOutcome(resultSet, f, queryError, scanError).Listed? ==>
      ListOutcome(resultSet, f, queryError, scanError).items == resultSet
    ensures ListOutcome(resultSet, f, queryError, scanError).ListFailed? ==>
      ListOutcome(resultSet, f, queryError, scanError).err.code in {queryError.code, scanError.code}
    ensures f.None? ==> ListOutcome(resultSet, f, queryError, scanError).Listed?
    ensures resultSet == [] && (f.None? || f.value.ResultFault?) ==> ListOutcome(resultSet, f, queryError, scanError) == Listed([])
  {
  }

  /** A row of the `vote` table; `created_at` is always set by `SaveVote`. */
  datatype VoteRow = VoteRow(voteId: int, vote: int, createdUserId: Uuid, createdAt: Time)

  function ToVote(r: VoteRow): Vote
  {
    Vote(r.voteId, r.vote, r.createdUserId, Some(r.createdAt))
  }

  /** Scanning a result set row by row. */
  function ToVotes(rs: seq<VoteRow>): (vs: seq<Vote>)
    ensures |vs| == |rs|
    ensures forall i :: 0 <= i < |rs| ==> vs[i] == ToVote(rs[i])
  {
    if rs == [] then [] else [ToVote(rs[0])] + ToVotes(rs[1..])
  }

  function VoteIdOf(r: VoteRow): int { r.voteId }
  function UserVoteIdOf(uv: UserVote): int { uv.id }

  // ----- ORDER BY created_at DESC ---------------------------------------

  predicate NewestFirstOrder(rs: seq<VoteRow>)
  {
    forall i, j :: 0 <= i < j < |rs| ==> rs[i].createdAt >= rs[j].createdAt
  }

  function InsertByTime(r: VoteRow, rs: seq<VoteRow>): seq<VoteRow>
  {
    if rs == [] || r.createdAt >= rs[0].createdAt then [r] + rs
    else [rs[0]] + InsertByTime(r, rs[1..])
  }

  /** The database's newest-first ordering; rows with equal times come
      later-inserted first. */
  function NewestFirst(rs: seq<VoteRow>): seq<VoteRow>
  {
    if rs == [] then [] else InsertByTime(rs[|rs| - 1], NewestFirst(rs[..|rs| - 1]))
  }

  lemma {:induction false} InsertByTimeMultiset(r: VoteRow, rs: seq<VoteRow>)
    ensures multiset(InsertByTime(r, rs)) == multiset(rs) + multiset{r}
  {
    if rs != [] && r.createdAt < rs[0].createdAt {
      InsertByTimeMultiset(r, rs[1..]);
      assert rs == [rs[0]] + rs[1..];
    }
  }

  /** A time no earlier than `r` and every row bounds the merged sequence. */
  lemma {:induction false} InsertByTimeBelow(r: VoteRow, rs: seq<VoteRow>, t: Time)
    requires r.createdAt <= t
    requires forall i :: 0 <= i < |rs| ==> rs[i].createdAt <= t
    ensures forall k :: 0 <= k < |InsertByTime(r, rs)| ==> InsertByTime(r, rs)[k].createdAt <= t
  {
    if rs != [] && r.createdAt < rs[0].createdAt {
      InsertByTimeBelow(r, rs[1..], t);
      var ins := InsertByTime(r, rs[1..]);
      forall k | 0 <= k < |[rs[0]] + ins| ensures ([rs[0]] + ins)[k].createdAt <= t {
        if k > 0 {
          assert ([rs[0]] + ins)[k] == ins[k - 1];
        }
      }
    }
  }

  lemma {:induction false} InsertByTimeOrder(r: VoteRow, rs: seq<VoteRow>)
    requires NewestFirstOrder(rs)
    ensures NewestFirstOrder(InsertByTime(r, rs))
  {
    if rs == [] || r.createdAt >= rs[0].createdAt {
      var out := [r] + rs;
      forall i, j | 0 <= i < j < |out| ensures out[i].createdAt >= out[j].createdAt {
        assert out[j] == rs[j - 1];
        if i > 0 {
          assert out[i] == rs[i - 1];
        } else if j > 1 {
          assert rs[0].createdAt >= rs[j - 1].createdAt;
        }
      }
    } else {
      var tail := rs[1..];
      assert NewestFirstOrder(tail) by {
        forall i, j | 0 <= i < j < |tail| ensures tail[i].createdAt >= tail[j].createdAt {
          assert tail[i] == rs[i + 1] && tail[j] == rs[j + 1];
        }
      }
      InsertByTimeOrder(r, tail);
      forall i | 0 <= i < |tail| ensures tail[i].createdAt <= rs[0].createdAt {
        assert tail[i] == rs[i + 1];
      }
      InsertByTimeBelow(r, tail, rs[0].createdAt);
      var ins := InsertByTime(r, tail);
      var out := [rs[0]] + ins;
      forall i, j | 0 <= i < j < |out| ensures out[i].createdAt >= out[j].createdAt {
        assert out[j] == ins[j - 1];
        if i > 0 {
          assert out[i] == ins[i - 1];
        }
      }
    }
  }

  /** The ordering is a permutation of its input, newest first. */
  lemma {:induction false} NewestFirstProps(rs: seq<VoteRow>)
    ensures multiset(NewestFirst(rs)) == multiset(rs)
    ensures NewestFirstOrder(NewestFirst(rs))
  {
    if rs != [] {
      var init := rs[..|rs| - 1];
      NewestFirstProps(init);
      InsertByTimeMultiset(rs[|rs| - 1], NewestFirst(init));
      InsertByTimeOrder(rs[|rs| - 1], NewestFirst(init));
      assert rs == init + [rs[|rs| - 1]];
    }
  }

  // ----- result sets of the queries -------------------------------------

  /** The rows `WHERE created_user_id = ANY($1)` keeps, in table order. */
  function RowsOfVoters(rs: seq<VoteRow>, voters: set<Uuid>): seq<VoteRow>
  {
    Keep(rs, (r: VoteRow) => r.createdUserId in voters)
  }

  /** The result set of `getVotesByUserIDs` (and, for one voter, of
      `getVotesByUserID`): the voters' rows, newest first. */
  function VotesOfVotersResult(rs: seq<VoteRow>, voters: set<Uuid>): seq<VoteRow>
  {
    NewestFirst(RowsOfVoters(rs, voters))
  }

  /** That result set holds every row of the given voters as often as the
      table does, nothing else, and is ordered newest first. */
  lemma VotesOfVotersResultExact(rs: seq<VoteRow>, voters: set<Uuid>)
    ensures forall r: VoteRow :: multiset(VotesOfVotersResult(rs, voters))[r]
                                 == if r.createdUserId in voters then multiset(rs)[r] else 0
    ensures NewestFirstOrder(VotesOfVotersResult(rs, voters))
  {
    NewestFirstProps(RowsOfVoters(rs, voters));
    KeepMultiset(rs, (r: VoteRow) => r.createdUserId in voters);
  }

  /** The result set of `getUserVotesByUserID`: the target's join rows, in
      table order (the query has no ORDER BY). */
  function UserVotesOfTarget(uvs: seq<UserVote>, target: Uuid): seq<UserVote>
  {
    Keep(uvs, (uv: UserVote) => uv.userId == target)
  }

  /** `UPDATE vote SET vote = value WHERE vote_id = voteId` on one row. */
  function Revalue(r: VoteRow, voteId: int, value: int): VoteRow
  {
    if r.voteId == voteId then r.(vote := value) else r
  }

  function SetVoteValue(rs: seq<VoteRow>, voteId: int, value: int): seq<VoteRow>
  {
    seq(|rs|, i requires 0 <= i < |rs| => Revalue(rs[i], voteId, value))
  }

  function RemoveVote(rs: seq<VoteRow>, voteId: int): seq<VoteRow>
  {
    Keep(rs, (r: VoteRow) => r.voteId != voteId)
  }

  function RemoveUserVote(uvs: seq<UserVote>, id: int): seq<UserVote>
  {
    Keep(uvs, (uv: UserVote) => uv.id != id)
  }

  function FindVoteRow(rs: seq<VoteRow>, voteId: int): (r: Option<VoteRow>)
    ensures r.Some? ==> r.value in rs && r.value.voteId == voteId
    ensures r.None? ==> forall i :: 0 <= i < |rs| ==> rs[i].voteId != voteId
  {
    if rs == [] then None else if rs[0].voteId == voteId then Some(rs[0]) else FindVoteRow(rs[1..], voteId)
  }

  function FindUserVoteRow(uvs: seq<UserVote>, id: int): (r: Option<UserVote>)
    ensures r.Some? ==> r.value in uvs && r.value.id == id
    ensures r.None? ==> forall i :: 0 <= i < |uvs| ==> uvs[i].id != id
  {
    if uvs == [] then None else if uvs[0].id == id then Some(uvs[0]) else FindUserVoteRow(uvs[1..], id)
  }

  /** Ids are unique, so the UPDATE changes at most one row, and of that
      row only its value. */
  lemma SetVoteValueTouchesOne(rs: seq<VoteRow>, voteId: int, value: int)
    requires Increasing(rs, VoteIdOf)
    ensures |SetVoteValue(rs, voteId, value)| == |rs|
    ensures forall i :: 0 <= i < |rs| ==>
      SetVoteValue(rs, voteId, value)[i].voteId == rs[i].voteId
      && SetVoteValue(rs, voteId, value)[i].createdUserId == rs[i].createdUserId
      && SetVoteValue(rs, voteId, value)[i].createdAt == rs[i].createdAt
    ensures forall i, j ::
      (0 <= i < |rs| && 0 <= j < |rs|
       && SetVoteValue(rs, voteId, value)[i] != rs[i] && SetVoteValue(rs, voteId, value)[j] != rs[j]) ==> i == j
  {
    IncreasingInjective(rs, VoteIdOf);
  }

  /** The whole state of the two tables and their id sequences. */
  datatype Tables = Tables(voteRows: seq<VoteRow>, userVoteRows: seq<UserVote>, nextVoteId: int, nextUserVoteId: int)

  /** The failure the environment injects into `op`, if any. */
  function FaultIn(faults: map<VoteOp, Fault>, op: VoteOp): Option<Fault>
  {
    if op in faults then Some(faults[op]) else None
  }

  /** The row `SaveVote` inserts: the next vote id, stamped with `now`. */
  function NewVoteRow(t: Tables, vote: Vote, now: Time): VoteRow
  {
    VoteRow(t.nextVoteId, vote.vote, vote.createdUserId, now)
  }

  /** The tables once `SaveVote` has inserted its row. */
  function WithVote(t: Tables, vote: Vote, now: Time): (r: Tables)
    ensures r.voteRows == t.voteRows + [NewVoteRow(t, vote, now)] && r.nextVoteId == t.nextVoteId + 1
    ensures r.userVoteRows == t.userVoteRows && r.nextUserVoteId == t.nextUserVoteId
  {
    t.(voteRows := t.voteRows + [NewVoteRow(t, vote, now)], nextVoteId := t.nextVoteId + 1)
  }

  /** The join row `SaveUserVote` inserts: the next join id, to the target. */
  function NewJoin(t: Tables, target: Uuid, voteId: int): UserVote
  {
    UserVote(t.nextUserVoteId, target, voteId)
  }

  /** The tables once `SaveUserVote` has inserted its join row. */
  function WithJoin(t: Tables, target: Uuid, voteId: int): (r: Tables)
    ensures r.userVoteRows == t.userVoteRows + [NewJoin(t, target, voteId)] && r.nextUserVoteId == t.nextUserVoteId + 1
    ensures r.voteRows == t.voteRows && r.nextVoteId == t.nextVoteId
  {
    t.(userVoteRows := t.userVoteRows + [NewJoin(t, target, voteId)], nextUserVoteId := t.nextUserVoteId + 1)
  }

  /** `SaveVote` from tables `t` to `t'` under fault `f`: a statement failure
      writes nothing; a failure reading the returned id leaves the row
      inserted but still reports the error. */
  predicate SaveVoteEffect(t: Tables, t': Tables, f: Option<Fault>, vote: Vote, now: Time,
                           saved: Option<Vote>, err: Option<AppError>)
  {
    match f
    case None => t' == WithVote(t, vote, now) && saved == Some(ToVote(NewVoteRow(t, vote, now))) && err.None?
    case Some(StatementFault(c)) =>
      t' == t && saved.None? && err == Some(VoteRepoSaveVoteQueryRowxContext.AppendMessage(c))
    case Some(ResultFault(c)) =>
      t' == WithVote(t, vote, now) && saved.None? && err == Some(VoteRepoSaveVoteQueryRowxContext.AppendMessage(c))
  }

  /** `SaveUserVote` from `t` to `t'` under fault `f`, with the same two
      failure modes as `SaveVote`. */
  predicate SaveUserVoteEffect(t: Tables, t': Tables, f: Option<Fault>, userVote: UserVote,
                               saved: Option<UserVote>, err: Option<AppError>)
  {
    match f
    case None =>
      t' == WithJoin(t, userVote.userId, userVote.voteId)
      && saved == Some(NewJoin(t, userVote.userId, userVote.voteId)) && err.None?
    case Some(StatementFault(c)) =>
      t' == t && saved.None? && err == Some(VoteRepoSaveUserVoteQueryRowxContext.AppendMessage(c))
    case Some(ResultFault(c)) =>
      t' == WithJoin(t, userVote.userId, userVote.voteId) && saved.None?
      && err == Some(VoteRepoSaveUserVoteQueryRowxContext.AppendMessage(c))
  }

  /** The tables without the vote row `voteId`. */
  function NoVote(t: Tables, voteId: int): Tables
  {
    t.(voteRows := RemoveVote(t.voteRows, voteId))
  }

  /** The tables without the join row `id`. */
  function NoUserVote(t: Tables, id: int): Tables
  {
    t.(userVoteRows := RemoveUserVote(t.userVoteRows, id))
  }

  /** `DeleteVote` of `voteId`: a statement failure deletes nothing; a
      failure counting the affected rows follows the delete; otherwise the
      call fails exactly when no row was deleted. */
  predicate DeleteVoteEffect(t: Tables, t': Tables, f: Option<Fault>, voteId: int, err: Option<AppError>)
  {
    match f
    case Some(StatementFault(c)) => t' == t && err == Some(VoteRepoDeleteVoteExecContext.AppendMessage(c))
    case Some(ResultFault(c)) => t' == NoVote(t, voteId) && err == Some(VoteRepoDeleteVoteRowsAffected.AppendMessage(c))
    case None =>
      t' == NoVote(t, voteId)
      && (err.None? <==> |t'.voteRows| < |t.voteRows|)
      && (err.Some? ==> err == Some(VoteRepoDeleteVoteEmptyRowsAffected.AppendMessage(NilText)))
  }

  /** `DeleteUserVote` of join row `id`, reporting with `DeleteVote`'s codes. */
  predicate DeleteUserVoteEffect(t: Tables, t': Tables, f: Option<Fault>, id: int, err: Option<AppError>)
  {
    match f
    case Some(StatementFault(c)) => t' == t && err == Some(VoteRepoDeleteVoteExecContext.AppendMessage(c))
    case Some(ResultFault(c)) => t' == NoUserVote(t, id) && err == Some(VoteRepoDeleteVoteRowsAffected.AppendMessage(c))
    case None =>
      t' == NoUserVote(t, id)
      && (err.None? <==> |t'.userVoteRows| < |t.userVoteRows|)
      && (err.Some? ==> err == Some(VoteRepoDeleteVoteEmptyRowsAffected.AppendMessage(NilText)))
  }

  // ----- the repository -------------------------------------------------

  class VoteRepo {
    var voteRows: seq<VoteRow>
    var userVoteRows: seq<UserVote>
    /** The next values of the two serial id sequences. */
    var nextVoteId: int
    var nextUserVoteId: int
    /** Which operations fail, as the environment decides. */
    var faults: map<VoteOp, Fault>

    /** Serial ids start at 1 and grow with every insert, so every id in a
        table is below the next id and ids are unique. */
    ghost predicate Valid()
      reads this
    {
      1 <= nextVoteId && 1 <= nextUserVoteId
      && Increasing(voteRows, VoteIdOf) && Increasing(userVoteRows, UserVoteIdOf)
      && (forall i :: 0 <= i < |voteRows| ==> 1 <= voteRows[i].voteId < nextVoteId)
      && (forall i :: 0 <= i < |userVoteRows| ==> 1 <= userVoteRows[i].id < nextUserVoteId)
    }

    constructor (faults: map<VoteOp, Fault>)
      ensures Valid() && voteRows == [] && userVoteRows == []
      ensures nextVoteId == 1 && nextUserVoteId == 1 && this.faults == faults
    {
      voteRows := [];
      userVoteRows := [];
      nextVoteId := 1;
      nextUserVoteId := 1;
      this.faults := faults;
    }

    function FaultOf(op: VoteOp): Option<Fault>
      reads this
    {
      FaultIn(faults, op)
    }

    function Snapshot(): Tables
      reads this
    {
      Tables(voteRows, userVoteRows, nextVoteId, nextUserVoteId)
    }

    /** What `FindVoteByUserID(voter)` hands back in the current state. */
    function VotesOfVoter(voter: Uuid): Listing<Vote>
      reads this
    {
      ListOutcome(ToVotes(VotesOfVotersResult(voteRows, {voter})), FaultOf(FindVoteByUserIdOp),
                  VoteRepoFindVoteByUserIDGetContext, VoteRepoFindVoteByUserIDStructScan)
    }

    /** What `FindVotesByUserIDs(voters)` hands back in the current state. */
    function VotesOfVoters(voters: seq<Uuid>): Listing<Vote>
      reads this
    {
      ListOutcome(ToVotes(VotesOfVotersResult(voteRows, set v | v in voters)), FaultOf(FindVotesByUserIdsOp),
                  VoteRepoFindVotesByUserIDsQueryxContext, VoteRepoFindVotesByUserIDsStructScan)
    }

    /** What `FindUserVoteByUserID(target)` hands back in the current state. */
    function UserVotesOf(target: Uuid): Listing<UserVote>
      reads this
    {
      ListOutcome(UserVotesOfTarget(userVoteRows, target), FaultOf(FindUserVoteByUserIdOp),
                  VoteRepoFindUserVoteByUserIDGetContext, VoteRepoFindVoteByUserIDStructScan)
    }

    /** `SaveVote`: stamps the vote with `now` and inserts it under a fresh
        id. A statement failure writes nothing; a failure reading the
        returned id leaves the row inserted but still reports the error. */
    method SaveVote(vote: Vote, now: Time) returns (saved: Option<Vote>, err: Option<AppError>)
      requires Valid()
      modifies this
      ensures Valid() && faults == old(faults)
      ensures SaveVoteEffect(old(Snapshot()), Snapshot(), FaultOf(SaveVoteOp), vote, now, saved, err)
    {
      var f := FaultOf(SaveVoteOp);
      if f.Some? && f.value.StatementFault? {
        return None, Some(VoteRepoSaveVoteQueryRowxContext.AppendMessage(f.value.cause));
      }
      var row := VoteRow(nextVoteId, vote.vote, vote.createdUserId, now);
      IncreasingSnoc(voteRows, row, VoteIdOf);
      voteRows := voteRows + [row];
      nextVoteId := nextVoteId + 1;
      if f.Some? {
        return None, Some(VoteRepoSaveVoteQueryRowxContext.AppendMessage(f.value.cause));
      }
      return Some(ToVote(row)), None;
    }

    /** `UpdateVote`: the UPDATE changes the value of the row with the vote's
        id, but it returns no row, so the single-row scan always ends in
        `sql.ErrNoRows` and the call reports data-not-found even though the
        update happened. */
    method UpdateVote(vote: Vote) returns (updated: Option<Vote>, err: Option<AppError>)
      requires Valid()
      modifies this
      ensures Valid() && faults == old(faults)
      ensures userVoteRows == old(userVoteRows) && nextVoteId == old(nextVoteId)
      ensures nextUserVoteId == old(nextUserVoteId)
      ensures updated.None? && err.Some?
      ensures match FaultOf(UpdateVoteOp)
        case Some(StatementFault(cause)) =>
          voteRows == old(voteRows) && err == Some(VoteRepoUpdateVoteQueryRowxContext.AppendMessage(cause))
        case _ =>
          voteRows == SetVoteValue(old(voteRows), vote.voteId, vote.vote)
          && err == Some(VoteRepoUpdateVoteQueryRowxContextDataNotFound.AppendMessage(NoRowsText))
    {
      var f := FaultOf(UpdateVoteOp);
      if f.Some? && f.value.StatementFault? {
        return None, Some(VoteRepoUpdateVoteQueryRowxContext.AppendMessage(f.value.cause));
      }
      SetVoteValueKeepsValid(voteRows, vote.voteId, vote.vote);
      voteRows := SetVoteValue(voteRows, vote.voteId, vote.vote);
      return None, Some(VoteRepoUpdateVoteQueryRowxContextDataNotFound.AppendMessage(NoRowsText));
    }

    /** `UpdateVote` as evidently intended, with `RETURNING vote_id, vote,
        created_user_id, created_at`: the updated row comes back, and
        data-not-found means no row had that id. */
    method UpdateVoteReturning(vote: Vote) returns (updated: Option<Vote>, err: Option<AppError>)
      requires Valid()
      modifies this
      ensures Valid() && faults == old(faults)
      ensures userVoteRows == old(userVoteRows) && nextVoteId == old(nextVoteId)
      ensures nextUserVoteId == old(nextUserVoteId)
      ensures match FaultOf(UpdateVoteOp)
        case Some(StatementFault(cause)) =>
          voteRows == old(voteRows) && updated.None?
          && err == Some(VoteRepoUpdateVoteQueryRowxContext.AppendMessage(cause))
        case _ =>
          voteRows == SetVoteValue(old(voteRows), vote.voteId, vote.vote)
          && (FindVoteRow(old(voteRows), vote.voteId).Some?
              ==> updated == Some(ToVote(FindVoteRow(old(voteRows), vote.voteId).value.(vote := vote.vote))) && err.None?)
          && (FindVoteRow(old(voteRows), vote.voteId).None?
              ==> updated.None? && err == Some(VoteRepoUpdateVoteQueryRowxContextDataNotFound.AppendMessage(NoRowsText)))
    {
      var f := FaultOf(UpdateVoteOp);
      if f.Some? && f.value.StatementFault? {
        return None, Some(VoteRepoUpdateVoteQueryRowxContext.AppendMessage(f.value.cause));
      }
      var found := FindVoteRow(voteRows, vote.voteId);
      SetVoteValueKeepsValid(voteRows, vote.voteId, vote.vote);
      voteRows := SetVoteValue(voteRows, vote.voteId, vote.vote);
      if found.None? {
        return None, Some(VoteRepoUpdateVoteQueryRowxContextDataNotFound.AppendMessage(NoRowsText));
      }
      return Some(ToVote(found.value.(vote := vote.vote))), None;
    }

    /** `FindVoteByID`: id 0 is refused before any query; a missing row is
        data-not-found; any other failure is a get-context error. */
    method FindVoteByID(voteId: int) returns (vote: Option<Vote>, err: Option<AppError>)
      ensures voteId == 0 ==> vote.None? && err == Some(VoteRepoFindVoteByIDVoteIDEmpty.AppendMessage(NilText))
      ensures voteId != 0 && FaultOf(FindVoteByIdOp).Some? ==>
        vote.None? && err == Some(VoteRepoFindVoteByIDGetContext.AppendMessage(FaultOf(FindVoteByIdOp).value.cause))
      ensures voteId != 0 && FaultOf(FindVoteByIdOp).None? ==>
        (FindVoteRow(voteRows, voteId).None? ==>
           vote.None? && err == Some(VoteRepoFindVoteByIDQueryxContextDataNotFound.AppendMessage(NoRowsText)))
        && (FindVoteRow(voteRows, voteId).Some? ==>
           vote == Some(ToVote(FindVoteRow(voteRows, voteId).value)) && err.None?)
    {
      if voteId == 0 {
        return None, Some(VoteRepoFindVoteByIDVoteIDEmpty.AppendMessage(NilText));
      }
      var f := FaultOf(FindVoteByIdOp);
      if f.Some? {
        return None, Some(VoteRepoFindVoteByIDGetContext.AppendMessage(f.value.cause));
      }
      var row := FindVoteRow(voteRows, voteId);
      if row.None? {
        return None, Some(VoteRepoFindVoteByIDQueryxContextDataNotFound.AppendMessage(NoRowsText));
      }
      return Some(ToVote(row.value)), None;
    }

    /** `FindUserVoteByID`: the same shape over the join table. */
    method FindUserVoteByID(id: int) returns (userVote: Option<UserVote>, err: Option<AppError>)
      ensures id == 0 ==> userVote.None? && err == Some(VoteRepoFindUserVoteByIDVoteIDEmpty.AppendMessage(NilText))
      ensures id != 0 && FaultOf(FindUserVoteByIdOp).Some? ==>
        userVote.None? && err == Some(VoteRepoFindUserVoteByIDGetContext.AppendMessage(FaultOf(FindUserVoteByIdOp).value.cause))
      ensures id != 0 && FaultOf(FindUserVoteByIdOp).None? ==>
        (FindUserVoteRow(userVoteRows, id).None? ==>
           userVote.None? && err == Some(VoteRepoFindUserVoteByIDQueryxContextDataNotFound.AppendMessage(NoRowsText)))
        && (FindUserVoteRow(userVoteRows, id).Some? ==>
           userVote == FindUserVoteRow(userVoteRows, id) && err.None?)
    {
      if id == 0 {
        return None, Some(VoteRepoFindUserVoteByIDVoteIDEmpty.AppendMessage(NilText));
      }
      var f := FaultOf(FindUserVoteByIdOp);
      if f.Some? {
        return None, Some(VoteRepoFindUserVoteByIDGetContext.AppendMessage(f.value.cause));
      }
      var row := FindUserVoteRow(userVoteRows, id);
      if row.None? {
        return None, Some(VoteRepoFindUserVoteByIDQueryxContextDataNotFound.AppendMessage(NoRowsText));
      }
      return row, None;
    }

    /** Scans a vote result set row by row, failing on the first row when
        the environment says the scan fails. */
    method ScanVotes(resultSet: seq<VoteRow>, f: Option<Fault>, queryError: AppError, scanError: AppError)
      returns (votes: Option<seq<Vote>>, err: Option<AppError>)
      requires f.None? || f.value.ResultFault?
      ensures match ListOutcome(ToVotes(resultSet), f, queryError, scanError)
        case Listed(items) => votes == Some(items) && err.None?
        case ListFailed(e) => votes.None? && err == Some(e)
    {
      var acc: seq<Vote> := [];
      var i := 0;
      while i < |resultSet|
        invariant 0 <= i <= |resultSet|
        invariant acc == ToVotes(resultSet[..i])
        invariant f.Some? ==> i == 0
      {
        if f.Some? {
          return None, Some(scanError.AppendMessage(f.value.cause));
        }
        assert resultSet[..i + 1] == resultSet[..i] + [resultSet[i]];
        ToVotesAppend(resultSet[..i], [resultSet[i]]);
        acc := acc + [ToVote(resultSet[i])];
        i := i + 1;
      }
      assert resultSet[..|resultSet|] == resultSet;
      return Some(acc), None;
    }

    /** `FindVoteByUserID`: every vote cast by `voter`, newest first; no vote
        is an empty, non-nil list, never data-not-found. */
    method FindVoteByUserID(voter: Uuid) returns (votes: Option<seq<Vote>>, err: Option<AppError>)
      ensures match VotesOfVoter(voter)
        case Listed(items) => votes == Some(items) && err.None?
        case ListFailed(e) => votes.None? && err == Some(e)
    {
      var f := FaultOf(FindVoteByUserIdOp);
      if f.Some? && f.value.StatementFault? {
        return None, Some(VoteRepoFindVoteByUserIDGetContext.AppendMessage(f.value.cause));
      }
      votes, err := ScanVotes(VotesOfVotersResult(voteRows, {voter}), f,
                              VoteRepoFindVoteByUserIDGetContext, VoteRepoFindVoteByUserIDStructScan);
    }

    /** `FindVotesByUserIDs`: every vote cast by any of the ids, newest first. */
    method FindVotesByUserIDs(voters: seq<Uuid>) returns (votes: Option<seq<Vote>>, err: Option<AppError>)
      ensures match VotesOfVoters(voters)
        case Listed(items) => votes == Some(items) && err.None?
        case ListFailed(e) => votes.None? && err == Some(e)
    {
      var f := FaultOf(FindVotesByUserIdsOp);
      if f.Some? && f.value.StatementFault? {
        return None, Some(VoteRepoFindVotesByUserIDsQueryxContext.AppendMessage(f.value.cause));
      }
      votes, err := ScanVotes(VotesOfVotersResult(voteRows, set v | v in voters), f,
                              VoteRepoFindVotesByUserIDsQueryxContext, VoteRepoFindVotesByUserIDsStructScan);
    }

    /** `FindUserVoteByUserID`: every join row whose target is `target`; a
        scan failure reports the vote-by-user scan code. */
    method FindUserVoteByUserID(target: Uuid) returns (userVotes: Option<seq<UserVote>>, err: Option<AppError>)
      ensures match UserVotesOf(target)
        case Listed(items) => userVotes == Some(items) && err.None?
        case ListFailed(e) => userVotes.None? && err == Some(e)
    {
      var f := FaultOf(FindUserVoteByUserIdOp);
      if f.Some? && f.value.StatementFault? {
        return None, Some(VoteRepoFindUserVoteByUserIDGetContext.AppendMessage(f.value.cause));
      }
      var resultSet := UserVotesOfTarget(userVoteRows, target);
      var acc: seq<UserVote> := [];
      var i := 0;
      while i < |resultSet|
        invariant 0 <= i <= |resultSet|
        invariant acc == resultSet[..i]
        invariant f.Some? ==> i == 0
      {
        if f.Some? {
          return None, Some(VoteRepoFindVoteByUserIDStructScan.AppendMessage(f.value.cause));
        }
        acc := acc + [resultSet[i]];
        i := i + 1;
      }
      assert resultSet[..|resultSet|] == resultSet;
      return Some(acc), None;
    }

    /** `SaveUserVote`: inserts (target, vote id) under a fresh id. */
    method SaveUserVote(userVote: UserVote) returns (saved: Option<UserVote>, err: Option<AppError>)
      requires Valid()
      modifies this
      ensures Valid() && faults == old(faults)
      ensures SaveUserVoteEffect(old(Snapshot()), Snapshot(), FaultOf(SaveUserVoteOp), userVote, saved, err)
    {
      var f := FaultOf(SaveUserVoteOp);
      if f.Some? && f.value.StatementFault? {
        return None, Some(VoteRepoSaveUserVoteQueryRowxContext.AppendMessage(f.value.cause));
      }
      var row := UserVote(nextUserVoteId, userVote.userId, userVote.voteId);
      IncreasingSnoc(userVoteRows, row, UserVoteIdOf);
      userVoteRows := userVoteRows + [row];
      nextUserVoteId := nextUserVoteId + 1;
      if f.Some? {
        return None, Some(VoteRepoSaveUserVoteQueryRowxContext.AppendMessage(f.value.cause));
      }
      return Some(row), None;
    }

    /** `DeleteUserVote`: removes the join row with the given row id, and
        fails with empty-rows-affected when there was none. It reports the
        DELETE_VOTE codes. */
    method DeleteUserVote(userVote: UserVote) returns (err: Option<AppError>)
      requires Valid()
      modifies this
      ensures Valid() && faults == old(faults)
      ensures DeleteUserVoteEffect(old(Snapshot()), Snapshot(), FaultOf(DeleteUserVoteOp), userVote.id, err)
    {
      var f := FaultOf(DeleteUserVoteOp);
      if f.Some? && f.value.StatementFault? {
        return Some(VoteRepoDeleteVoteExecContext.AppendMessage(f.value.cause));
      }
      var before := |userVoteRows|;
      RemoveUserVoteKeepsValid(userVoteRows, userVote.id, nextUserVoteId);
      userVoteRows := RemoveUserVote(userVoteRows, userVote.id);
      var rowsAffected := before - |userVoteRows|;
      if f.Some? {
        return Some(VoteRepoDeleteVoteRowsAffected.AppendMessage(f.value.cause));
      }
      if rowsAffected == 0 {
        return Some(VoteRepoDeleteVoteEmptyRowsAffected.AppendMessage(NilText));
      }
      return None;
    }

    /** `DeleteVote`: removes the vote row with the vote's id, and fails with
        empty-rows-affected when there was none. */
    method DeleteVote(vote: Vote) returns (err: Option<AppError>)
      requires Valid()
      modifies this
      ensures Valid() && faults == old(faults)
      ensures DeleteVoteEffect(old(Snapshot()), Snapshot(), FaultOf(DeleteVoteOp), vote.voteId, err)
    {
      var f := FaultOf(DeleteVoteOp);
      if f.Some? && f.value.StatementFault? {
        return Some(VoteRepoDeleteVoteExecContext.AppendMessage(f.value.cause));
      }
      var before := |voteRows|;
      RemoveVoteKeepsValid(voteRows, vote.voteId, nextVoteId);
      voteRows := RemoveVote(voteRows, vote.voteId);
      var rowsAffected := before - |voteRows|;
      if f.Some? {
        return Some(VoteRepoDeleteVoteRowsAffected.AppendMessage(f.value.cause));
      }
      if rowsAffected == 0 {
        return Some(VoteRepoDeleteVoteEmptyRowsAffected.AppendMessage(NilText));
      }
      return None;
    }
  }

  lemma {:induction false} ToVotesAppend(a: seq<VoteRow>, b: seq<VoteRow>)
    ensures ToVotes(a + b) == ToVotes(a) + ToVotes(b)
  {
  }

  lemma SetVoteValueKeepsValid(rs: seq<VoteRow>, voteId: int, value: int)
    requires Increasing(rs, VoteIdOf)
    ensures Increasing(SetVoteValue(rs, voteId, value), VoteIdOf)
    ensures forall i :: 0 <= i < |rs| ==> SetVoteValue(rs, voteId, value)[i].voteId == rs[i].voteId
  {
    var out := SetVoteValue(rs, voteId, value);
    forall i, j | 0 <= i < j < |out| ensures VoteIdOf(out[i]) < VoteIdOf(out[j]) {
      assert VoteIdOf(rs[i]) < VoteIdOf(rs[j]);
    }
  }

  /** Deleting by id leaves fewer rows exactly when a row had that id, and
      keeps the id order and bounds. */
  lemma RemoveVoteKeepsValid(rs: seq<VoteRow>, voteId: int, next: int)
    requires Increasing(rs, VoteIdOf)
    requires forall i :: 0 <= i < |rs| ==> 1 <= rs[i].voteId < next
    ensures Increasing(RemoveVote(rs, voteId), VoteIdOf)
    ensures forall i :: 0 <= i < |RemoveVote(rs, voteId)| ==> 1 <= RemoveVote(rs, voteId)[i].voteId < next
    ensures |RemoveVote(rs, voteId)| < |rs| <==> exists i :: 0 <= i < |rs| && rs[i].voteId == voteId
  {
    var p := (r: VoteRow) => r.voteId != voteId;
    KeepIncreasing(rs, VoteIdOf, p);
    KeepMembers(rs, p);
    var out := RemoveVote(rs, voteId);
    forall i | 0 <= i < |out| ensures 1 <= out[i].voteId < next {
      assert out[i] in out;
    }
    KeepShorter(rs, p);
  }

  lemma RemoveUserVoteKeepsValid(uvs: seq<UserVote>, id: int, next: int)
    requires Increasing(uvs, UserVoteIdOf)
    requires forall i :: 0 <= i < |uvs| ==> 1 <= uvs[i].id < next
    ensures Increasing(RemoveUserVote(uvs, id), UserVoteIdOf)
    ensures forall i :: 0 <= i < |RemoveUserVote(uvs, id)| ==> 1 <= RemoveUserVote(uvs, id)[i].id < next
    ensures |RemoveUserVote(uvs, id)| < |uvs| <==> exists i :: 0 <= i < |uvs| && uvs[i].id == id
  {
    var p := (uv: UserVote) => uv.id != id;
    KeepIncreasing(uvs, UserVoteIdOf, p);
    KeepMembers(uvs, p);
    var out := RemoveUserVote(uvs, id);
    forall i | 0 <= i < |out| ensures 1 <= out[i].id < next {
      assert out[i] in out;
    }
    KeepShorter(uvs, p);
  }
}
