/** The mappers of internal/domain/model/vote.go. The two pointer-receiver
    mappers update their receiver; here they return the updated record. */
module VoteModel {
  import opened Base
  import opened Entities

  /** `(*UserVote).MapUserAndVoteToUserVote`: sets the target and the vote id,
      keeping the row id. */
  function MapUserAndVoteToUserVote(uv: UserVote, user: User, vote: Vote): (r: UserVote)
    ensures r.id == uv.id
    ensures r.userId == user.userId && r.voteId == vote.voteId
  {
    uv.(userId := user.userId, voteId := vote.voteId)
  }

  /** `(*Vote).MapVoteUserRequestToVoteModel`: sets the value and the voter,
      keeping the vote id and the timestamp. */
  function MapVoteUserRequestToVoteModelInto(v: Vote, req: VoteUserRequest, user: User): (r: Vote)
    ensures r.voteId == v.voteId && r.createdAt == v.createdAt
    ensures r.vote == req.vote && r.createdUserId == user.userId
  {
    v.(vote := req.vote, createdUserId := user.userId)
  }

  /** `(*UserVote).MapVoteUserVoteToVoteUserResponse`: the voter comes from
      the vote, the target from the join row. */
  function MapVoteUserVoteToVoteUserResponse(uv: UserVote, vote: Vote): (r: VoteUserResponse)
    ensures r.voteId == vote.voteId && r.vote == vote.vote
    ensures r.voterUserId == vote.createdUserId && r.voteUserId == uv.userId
  {
    VoteUserResponse(vote.voteId, vote.createdUserId, uv.userId, vote.vote)
  }

  /** `MapVoteUserRequestToVoteModel`: a fresh vote by `user`, without id or time. */
  function MapVoteUserRequestToVoteModel(req: VoteUserRequest, user: User): (r: Vote)
    ensures r.vote == req.vote && r.createdUserId == user.userId
    ensures r.voteId == 0 && r.createdAt.None?
  {
    Vote(0, req.vote, user.userId, None)
  }

  /** `MapVoteUserRequestToUserVoteModel`: a fresh join row for the request's target. */
  function MapVoteUserRequestToUserVoteModel(req: VoteUserRequest, vote: Vote): (r: UserVote)
    ensures r.userId == req.userId && r.voteId == vote.voteId && r.id == 0
  {
    UserVote(0, req.userId, vote.voteId)
  }

  /** The free mapper is the receiver mapper applied to a zero vote. */
  lemma FreeMapperIsReceiverOnZero(req: VoteUserRequest, user: User)
    ensures MapVoteUserRequestToVoteModel(req, user) == MapVoteUserRequestToVoteModelInto(ZeroVote, req, user)
  {
  }

  /** Request to rows and back: whatever ids the store assigns to the two rows,
      the response names the requested target and value and the caller as voter. */
  lemma RequestResponseRoundTrip(req: VoteUserRequest, voter: User, voteId: int, rowId: int, at: Option<Time>)
    ensures var v := MapVoteUserRequestToVoteModel(req, voter).(voteId := voteId, createdAt := at);
            var uv := MapVoteUserRequestToUserVoteModel(req, v).(id := rowId);
            MapVoteUserVoteToVoteUserResponse(uv, v) == VoteUserResponse(voteId, voter.userId, req.userId, req.vote)
  {
  }
}
