/** The voting relation between two users: a vote row cast by the voter
    joined, through a `user_votes` row, to the target. The usecase looks a
    pair up by a nested search and keeps at most one pair per (target,
    voter); this module gives the search its specification and states the
    invariant and the facts its preservation rests on. */
module VotePairs {
  import opened Base
  import opened Entities
  import opened Seqs
  import opened VoteStore

  datatype Pair = Pair(vote: Vote, userVote: UserVote)

  // ----- the nested search of FindExistVoting ---------------------------

  /** The first join row at or after `from` that points at vote `id`, or -1. */
  function FirstIn(id: int, uvs: seq<UserVote>, from: nat): (j: int)
    requires from <= |uvs|
    decreases |uvs| - from
    ensures j == -1 || from <= j < |uvs|
    ensures j >= 0 ==> uvs[j].voteId == id && forall l :: from <= l < j ==> uvs[l].voteId != id
    ensures j == -1 <==> forall l :: from <= l < |uvs| ==> uvs[l].voteId != id
  {
    if from == |uvs| then -1
    else if uvs[from].voteId == id then from
    else FirstIn(id, uvs, from + 1)
  }

  /** The search from vote `from` on: the first vote (outer order) that has a
      matching join row, paired with its first matching join row (inner order). */
  function FirstMatchFrom(vs: seq<Vote>, uvs: seq<UserVote>, from: nat): (r: Option<Pair>)
    requires from <= |vs|
    decreases |vs| - from
    ensures r.Some? ==> r.value.vote in vs[from..] && r.value.userVote in uvs
                        && r.value.vote.voteId == r.value.userVote.voteId
    ensures r.None? <==> forall k, l :: from <= k < |vs| && 0 <= l < |uvs| ==> vs[k].voteId != uvs[l].voteId
  {
    if from == |vs| then None
    else
      var j := FirstIn(vs[from].voteId, uvs, 0);
      if j >= 0 then
        assert vs[from] in vs[from..];
        Some(Pair(vs[from], uvs[j]))
      else
        var r := FirstMatchFrom(vs, uvs, from + 1);
        assert r.Some? ==> r.value.vote in vs[from..] by {
          if r.Some? {
            var k :| 0 <= k < |vs[from + 1..]| && vs[from + 1..][k] == r.value.vote;
            assert vs[from..][k + 1] == r.value.vote;
          }
        }
        r
  }

  function FirstMatch(vs: seq<Vote>, uvs: seq<UserVote>): Option<Pair>
  {
    FirstMatchFrom(vs, uvs, 0)
  }

  /** The search finds a pair exactly when some vote and some join row share
      a vote id; what it finds is such a vote and join row. */
  lemma FirstMatchSpec(vs: seq<Vote>, uvs: seq<UserVote>)
    ensures FirstMatch(vs, uvs).None? <==>
      forall k, l :: 0 <= k < |vs| && 0 <= l < |uvs| ==> vs[k].voteId != uvs[l].voteId
    ensures FirstMatch(vs, uvs).Some? ==>
      FirstMatch(vs, uvs).value.vote in vs && FirstMatch(vs, uvs).value.userVote in uvs
      && FirstMatch(vs, uvs).value.vote.voteId == FirstMatch(vs, uvs).value.userVote.voteId
  {
    assert vs[0..] == vs;
  }

  /** The pair found is the first in outer-then-inner order: the earliest
      vote with a match, with its earliest matching join row. */
  lemma FirstMatchPrefersEarlierVote(vs: seq<Vote>, uvs: seq<UserVote>, i: nat, j: nat)
    requires i < |vs| && j < |uvs| && vs[i].voteId == uvs[j].voteId
    requires forall k, l :: 0 <= k < i && 0 <= l < |uvs| ==> vs[k].voteId != uvs[l].voteId
    requires forall l :: 0 <= l < j ==> uvs[l].voteId != vs[i].voteId
    ensures FirstMatch(vs, uvs) == Some(Pair(vs[i], uvs[j]))
  {
    FirstMatchFromSkips(vs, uvs, 0, i);
    FirstInIsFirst(vs[i].voteId, uvs, 0, j);
  }

  lemma {:induction false} FirstInIsFirst(id: int, uvs: seq<UserVote>, from: nat, j: nat)
    requires from <= j < |uvs| && uvs[j].voteId == id
    requires forall l :: from <= l < j ==> uvs[l].voteId != id
    ensures FirstIn(id, uvs, from) == j
    decreases j - from
  {
    if from < j {
      FirstInIsFirst(id, uvs, from + 1, j);
    }
  }

  lemma {:induction false} FirstMatchFromSkips(vs: seq<Vote>, uvs: seq<UserVote>, from: nat, i: nat)
    requires from <= i < |vs|
    requires forall k, l :: from <= k < i && 0 <= l < |uvs| ==> vs[k].voteId != uvs[l].voteId
    ensures FirstMatchFrom(vs, uvs, from) == FirstMatchFrom(vs, uvs, i)
    decreases i - from
  {
    if from < i {
      assert forall l :: 0 <= l < |uvs| ==> uvs[l].voteId != vs[from].voteId;
      FirstMatchFromSkips(vs, uvs, from + 1, i);
    }
  }

  // ----- pairs in the tables ---------------------------------------------

  /** Some vote row cast by `voter` is joined to `target`. */
  ghost predicate HasPair(rs: seq<VoteRow>, uvs: seq<UserVote>, target: Uuid, voter: Uuid)
  {
    exists a, u :: a in rs && u in uvs && a.createdUserId == voter && u.userId == target && a.voteId == u.voteId
  }

  /** At most one active pair per (target, voter): two joined pairs with the
      same voter and the same target are the same pair. */
  ghost predicate AtMostOnePair(rs: seq<VoteRow>, uvs: seq<UserVote>)
  {
    forall a, b, u, w ::
      a in rs && b in rs && u in uvs && w in uvs
      && a.createdUserId == b.createdUserId && u.userId == w.userId
      && a.voteId == u.voteId && b.voteId == w.voteId
      ==> a == b && u == w
  }

  /** Every join row points at a vote id already handed out. */
  ghost predicate JoinsIssued(uvs: seq<UserVote>, nextVoteId: int)
  {
    forall u :: u in uvs ==> u.voteId < nextVoteId
  }

  /** The rows of the voter's result set are exactly the voter's rows. */
  lemma ResultRowsOfVoter(rs: seq<VoteRow>, voter: Uuid)
    ensures forall r :: r in VotesOfVotersResult(rs, {voter}) <==> r in rs && r.createdUserId == voter
  {
    var res := VotesOfVotersResult(rs, {voter});
    VotesOfVotersResultExact(rs, {voter});
    forall r ensures r in res <==> r in rs && r.createdUserId == voter {
      assert r in res <==> multiset(res)[r] > 0;
      assert r in rs <==> multiset(rs)[r] > 0;
    }
  }

  /** The lookup the usecase performs sees exactly the pairs in the tables:
      it finds nothing iff (target, voter) has no pair. */
  lemma ExistVotingSeesPairs(rs: seq<VoteRow>, uvs: seq<UserVote>, target: Uuid, voter: Uuid)
    ensures FirstMatch(ToVotes(VotesOfVotersResult(rs, {voter})), UserVotesOfTarget(uvs, target)).None?
            <==> !HasPair(rs, uvs, target, voter)
  {
    var res := VotesOfVotersResult(rs, {voter});
    var vs := ToVotes(res);
    var ts := UserVotesOfTarget(uvs, target);
    ResultRowsOfVoter(rs, voter);
    KeepMembers(uvs, (uv: UserVote) => uv.userId == target);
    FirstMatchSpec(vs, ts);
    if HasPair(rs, uvs, target, voter) {
      var a, u :| a in rs && u in uvs && a.createdUserId == voter && u.userId == target && a.voteId == u.voteId;
      var k :| 0 <= k < |res| && res[k] == a;
      var l :| 0 <= l < |ts| && ts[l] == u;
      assert vs[k].voteId == ts[l].voteId;
    }
    if FirstMatch(vs, ts).Some? {
      var k, l :| 0 <= k < |vs| && 0 <= l < |ts| && vs[k].voteId == ts[l].voteId;
      assert res[k] in res && ts[l] in ts;
      assert res[k].voteId == ts[l].voteId;
    }
  }

  /** What the lookup finds is the voter's row joined to a join row of the
      target. */
  lemma ExistVotingFindsPair(rs: seq<VoteRow>, uvs: seq<UserVote>, target: Uuid, voter: Uuid)
    requires FirstMatch(ToVotes(VotesOfVotersResult(rs, {voter})), UserVotesOfTarget(uvs, target)).Some?
    ensures var p := FirstMatch(ToVotes(VotesOfVotersResult(rs, {voter})), UserVotesOfTarget(uvs, target)).value;
      (exists a :: a in rs && p.vote == ToVote(a) && a.createdUserId == voter)
      && p.userVote in uvs && p.userVote.userId == target && p.vote.voteId == p.userVote.voteId
  {
    var res := VotesOfVotersResult(rs, {voter});
    var vs := ToVotes(res);
    var ts := UserVotesOfTarget(uvs, target);
    ResultRowsOfVoter(rs, voter);
    KeepMembers(uvs, (uv: UserVote) => uv.userId == target);
    FirstMatchSpec(vs, ts);
    var p := FirstMatch(vs, ts).value;
    var k :| 0 <= k < |vs| && vs[k] == p.vote;
    assert res[k] in res;
  }

  /** A fresh vote row, whose id no join row uses yet, cannot complete a pair. */
  lemma FreshVoteKeepsPairs(rs: seq<VoteRow>, uvs: seq<UserVote>, row: VoteRow, next: int)
    requires AtMostOnePair(rs, uvs) && JoinsIssued(uvs, next)
    requires row.voteId == next
    ensures AtMostOnePair(rs + [row], uvs)
    ensures JoinsIssued(uvs, next + 1)
  {
    var rs' := rs + [row];
    forall a, b, u, w |
      (a in rs' && b in rs' && u in uvs && w in uvs
       && a.createdUserId == b.createdUserId && u.userId == w.userId
       && a.voteId == u.voteId && b.voteId == w.voteId)
      ensures a == b && u == w
    {
      // no join row points at the fresh id, so neither vote is the new row
      assert a.voteId < next && b.voteId < next;
      assert a in rs && b in rs;
    }
  }

  /** Joining the fresh vote row of `voter` to `target` creates the only pair
      of (target, voter) when there was none. */
  lemma NewPairKeepsPairs(rs: seq<VoteRow>, uvs: seq<UserVote>, row: VoteRow, uv: UserVote, next: int)
    requires AtMostOnePair(rs, uvs) && JoinsIssued(uvs, next)
    requires forall a :: a in rs ==> a.voteId < next
    requires row.voteId == next && uv.voteId == next
    requires !HasPair(rs, uvs, uv.userId, row.createdUserId)
    ensures AtMostOnePair(rs + [row], uvs + [uv])
    ensures JoinsIssued(uvs + [uv], next + 1)
    ensures HasPair(rs + [row], uvs + [uv], uv.userId, row.createdUserId)
  {
    var rs' := rs + [row];
    var uvs' := uvs + [uv];
    assert forall b, w ::
      (b in rs && w in uvs && b.createdUserId == row.createdUserId && w.userId == uv.userId) ==> b.voteId != w.voteId;
    forall a, b, u, w |
      a in rs' && b in rs' && u in uvs' && w in uvs'
      && a.createdUserId == b.createdUserId && u.userId == w.userId
      && a.voteId == u.voteId && b.voteId == w.voteId
      ensures a == b && u == w
    {
      assert (a == row) == (u == uv);
      assert (b == row) == (w == uv);
    }
    assert row in rs' && uv in uvs';
  }

  /** Changing a vote's value keeps every (voter, vote id) and so keeps
      pairs unique. */
  lemma SetVoteValueKeepsPairs(rs: seq<VoteRow>, uvs: seq<UserVote>, voteId: int, value: int)
    requires AtMostOnePair(rs, uvs)
    ensures AtMostOnePair(SetVoteValue(rs, voteId, value), uvs)
  {
    var out := SetVoteValue(rs, voteId, value);
    forall a, b, u, w |
      (a in out && b in out && u in uvs && w in uvs
       && a.createdUserId == b.createdUserId && u.userId == w.userId
       && a.voteId == u.voteId && b.voteId == w.voteId)
      ensures a == b && u == w
    {
      var r1 := RevaluedFrom(rs, voteId, value, a);
      var r2 := RevaluedFrom(rs, voteId, value, b);
      assert r1.voteId == a.voteId && r1.createdUserId == a.createdUserId;
      assert r2.voteId == b.voteId && r2.createdUserId == b.createdUserId;
      assert r1 == r2 && u == w;
    }
  }

  /** Changing a vote's value neither creates nor removes a pair. */
  lemma SetVoteValueSamePairs(rs: seq<VoteRow>, uvs: seq<UserVote>, voteId: int, value: int, t: Uuid, v: Uuid)
    ensures HasPair(SetVoteValue(rs, voteId, value), uvs, t, v) <==> HasPair(rs, uvs, t, v)
  {
    var out := SetVoteValue(rs, voteId, value);
    SetVoteValueMembers(rs, voteId, value);
    if HasPair(out, uvs, t, v) {
      var a, u :| a in out && u in uvs && a.createdUserId == v && u.userId == t && a.voteId == u.voteId;
      var r :| r in rs && a == Revalue(r, voteId, value);
      assert r.voteId == a.voteId && r.createdUserId == a.createdUserId;
    }
    if HasPair(rs, uvs, t, v) {
      var a, u :| a in rs && u in uvs && a.createdUserId == v && u.userId == t && a.voteId == u.voteId;
      assert Revalue(a, voteId, value) in out;
    }
  }

  /** The row of `rs` that a row of the updated table came from. */
  lemma RevaluedFrom(rs: seq<VoteRow>, voteId: int, value: int, a: VoteRow) returns (r: VoteRow)
    requires a in SetVoteValue(rs, voteId, value)
    ensures r in rs && a == Revalue(r, voteId, value)
  {
    var i :| 0 <= i < |rs| && SetVoteValue(rs, voteId, value)[i] == a;
    r := rs[i];
  }

  lemma SetVoteValueMembers(rs: seq<VoteRow>, voteId: int, value: int)
    ensures forall a :: a in SetVoteValue(rs, voteId, value) ==> exists r :: r in rs && a == Revalue(r, voteId, value)
    ensures forall r :: r in rs ==> Revalue(r, voteId, value) in SetVoteValue(rs, voteId, value)
  {
    var out := SetVoteValue(rs, voteId, value);
    forall a | a in out ensures exists r :: r in rs && a == Revalue(r, voteId, value) {
      var i :| 0 <= i < |out| && out[i] == a;
      assert rs[i] in rs;
    }
    forall r | r in rs ensures Revalue(r, voteId, value) in out {
      var i :| 0 <= i < |rs| && rs[i] == r;
      assert out[i] == Revalue(r, voteId, value);
    }
  }

  /** Tables that keep only rows of tables without a second pair have no
      second pair either. */
  lemma SubTablesKeepPairs(rs: seq<VoteRow>, uvs: seq<UserVote>, rs': seq<VoteRow>, uvs': seq<UserVote>)
    requires AtMostOnePair(rs, uvs)
    requires forall a :: a in rs' ==> a in rs
    requires forall u :: u in uvs' ==> u in uvs
    ensures AtMostOnePair(rs', uvs')
  {
  }

  /** Deleting rows, as the withdraw path does, never creates a pair and
      keeps the join rows' vote ids issued. */
  lemma RemovalKeepsPairs(rs: seq<VoteRow>, uvs: seq<UserVote>, voteId: int, id: int, next: int)
    requires AtMostOnePair(rs, uvs) && JoinsIssued(uvs, next)
    ensures AtMostOnePair(RemoveVote(rs, voteId), uvs) && AtMostOnePair(rs, RemoveUserVote(uvs, id))
    ensures AtMostOnePair(RemoveVote(rs, voteId), RemoveUserVote(uvs, id))
    ensures JoinsIssued(RemoveUserVote(uvs, id), next)
  {
    KeepMembers(rs, (r: VoteRow) => r.voteId != voteId);
    KeepMembers(uvs, (uv: UserVote) => uv.id != id);
    SubTablesKeepPairs(rs, uvs, RemoveVote(rs, voteId), uvs);
    SubTablesKeepPairs(rs, uvs, rs, RemoveUserVote(uvs, id));
    SubTablesKeepPairs(rs, uvs, RemoveVote(rs, voteId), RemoveUserVote(uvs, id));
  }

  /** Deleting the found pair's vote row and join row leaves (target, voter)
      without a pair. */
  lemma WithdrawRemovesPair(rs: seq<VoteRow>, uvs: seq<UserVote>, a: VoteRow, u: UserVote)
    requires AtMostOnePair(rs, uvs)
    requires a in rs && u in uvs && a.voteId == u.voteId
    ensures !HasPair(RemoveVote(rs, a.voteId), uvs, u.userId, a.createdUserId)
    ensures !HasPair(rs, RemoveUserVote(uvs, u.id), u.userId, a.createdUserId)
  {
    KeepMembers(rs, (r: VoteRow) => r.voteId != a.voteId);
    KeepMembers(uvs, (uv: UserVote) => uv.id != u.id);
  }
}
