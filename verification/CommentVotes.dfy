/** Votes on a comment and the score kept beside them. */
module CommentVotes {

  /** The current vote of every user, by user id. */
  type Votes = map<nat, int>

  predicate Direction(value: int) { value == 1 || value == -1 }

  function Cast(votes: Votes, user: nat, value: int): Votes {
    if Direction(value) then votes[user := value] else votes
  }

  /** The sum of the current votes. */
  ghost function Total(votes: Votes): int {
    if votes == map[] then 0
    else
      var user :| user in votes;
      votes[user] + Total(votes - {user})
  }

  lemma {:induction false} TotalWithout(votes: Votes, user: nat)
    requires user in votes
    ensures Total(votes) == votes[user] + Total(votes - {user})
    decreases |votes|
  {
    var first :| first in votes && Total(votes) == votes[first] + Total(votes - {first});
    if first == user {
    } else {
      var rest := votes - {first};
      TotalWithout(rest, user);
      assert rest - {user} == (votes - {user}) - {first};
      assert |votes - {user}| < |votes| by {
        assert votes.Keys == (votes - {user}).Keys + {user};
      }
      TotalWithout(votes - {user}, first);
    }
  }

  /** What one vote does to the sum. */
  lemma TotalAfterCast(votes: Votes, user: nat, value: int)
    requires Direction(value)
    ensures Total(Cast(votes, user, value)) == Total(votes) - (if user in votes then votes[user] else 0) + value
  {
    var after := votes[user := value];
    TotalWithout(after, user);
    assert after - {user} == votes - {user};
    if user in votes {
      TotalWithout(votes, user);
    } else {
      assert votes - {user} == votes;
    }
  }

  class VotedComment {
    var votes: Votes
    var score: int

    /** The denormalised score is the sum of the current votes. */
    ghost predicate Valid()
      reads this
    {
      score == Total(votes)
    }

    constructor ()
      ensures Valid() && votes == map[]
    {
      votes, score := map[], 0;
    }

    method Vote(user: nat, value: int) returns (accepted: bool)
      requires Valid()
      modifies this
      ensures Valid() && accepted == Direction(value)
      ensures votes == Cast(old(votes), user, value)
    {
      if !Direction(value) {
        return false;
      }
      TotalAfterCast(votes, user, value);
      var delta := 0;
      if user !in votes {
        votes := votes[user := value];
        delta := value;
      } else if votes[user] == value {
        delta := 0;
        assert votes[user := value] == votes;
      } else {
        delta := value - votes[user];
        votes := votes[user := value];
      }
      if delta != 0 {
        score := score + delta;
      }
      accepted := true;
    }
  }

  datatype Ballot = Ballot(user: nat, value: int)

  function CastAll(ballots: seq<Ballot>): Votes {
    if ballots == [] then map[]
    else
      var last := ballots[|ballots| - 1];
      Cast(CastAll(ballots[..|ballots| - 1]), last.user, last.value)
  }

  /** The last allowed vote of a user, zero if there is none. */
  function LastVote(ballots: seq<Ballot>, user: nat): int {
    if ballots == [] then 0
    else
      var last := ballots[|ballots| - 1];
      if last.user == user && Direction(last.value) then last.value else LastVote(ballots[..|ballots| - 1], user)
  }

  lemma {:induction false} LastVoteCounts(ballots: seq<Ballot>, user: nat)
    ensures user in CastAll(ballots) <==> LastVote(ballots, user) != 0
    ensures user in CastAll(ballots) ==> CastAll(ballots)[user] == LastVote(ballots, user)
  {
    if ballots == [] {
    } else {
      LastVoteCounts(ballots[..|ballots| - 1], user);
    }
  }

  function Users(ballots: seq<Ballot>): set<nat> {
    set b | b in ballots :: b.user
  }

  function Supporters(ballots: seq<Ballot>, value: int): (users: set<nat>) {
    set user | user in Users(ballots) && LastVote(ballots, user) == value
  }

  function Voters(votes: Votes, value: int): set<nat> {
    set user | user in votes && votes[user] == value
  }

  lemma VotersWithout(votes: Votes, user: nat, value: int)
    requires user in votes
    ensures |Voters(votes, value)| == |Voters(votes - {user}, value)| + if votes[user] == value then 1 else 0
    ensures |votes - {user}| < |votes|
  {
    var rest := votes - {user};
    assert votes.Keys == rest.Keys + {user};
    if votes[user] == value {
      assert Voters(votes, value) == Voters(rest, value) + {user};
    } else {
      assert Voters(votes, value) == Voters(rest, value);
    }
  }

  lemma {:induction false} TotalCounts(votes: Votes)
    requires forall user | user in votes :: Direction(votes[user])
    ensures Total(votes) == |Voters(votes, 1)| - |Voters(votes, -1)|
    decreases |votes|
  {
    if votes == map[] {
      assert Voters(votes, 1) == {} && Voters(votes, -1) == {};
    } else {
      var user :| user in votes;
      TotalWithout(votes, user);
      VotersWithout(votes, user, 1);
      VotersWithout(votes, user, -1);
      hide Total, Voters;
      TotalCounts(votes - {user});
    }
  }

  lemma {:induction false} OnlyDirections(ballots: seq<Ballot>)
    ensures forall user | user in CastAll(ballots) :: Direction(CastAll(ballots)[user])
  {
    if ballots == [] {
    } else {
      OnlyDirections(ballots[..|ballots| - 1]);
    }
  }

  lemma {:induction false} LastVoteUser(ballots: seq<Ballot>, user: nat)
    requires LastVote(ballots, user) != 0
    ensures user in Users(ballots)
  {
    var last := ballots[|ballots| - 1];
    assert last in ballots && forall b | b in ballots[..|ballots| - 1] :: b in ballots;
    if last.user == user && Direction(last.value) {
    } else {
      LastVoteUser(ballots[..|ballots| - 1], user);
    }
  }

  /**
   * After any sequence of votes, refused ones included, the score is the number of users whose last
   * allowed vote was up, less the number of those whose last was down.
   */
  lemma ScoreCountsLastVotes(ballots: seq<Ballot>)
    ensures Total(CastAll(ballots)) == |Supporters(ballots, 1)| - |Supporters(ballots, -1)|
  {
    var votes := CastAll(ballots);
    OnlyDirections(ballots);
    TotalCounts(votes);
    forall user: nat
      ensures user in votes <==> LastVote(ballots, user) != 0
      ensures user in votes ==> votes[user] == LastVote(ballots, user)
      ensures LastVote(ballots, user) != 0 ==> user in Users(ballots)
    {
      LastVoteCounts(ballots, user);
      if LastVote(ballots, user) != 0 {
        LastVoteUser(ballots, user);
      }
    }
    assert Voters(votes, 1) == Supporters(ballots, 1);
    assert Voters(votes, -1) == Supporters(ballots, -1);
  }
}
