/** The driver `scrape_sejm_votes` over answers supplied as data. The two
    network fetches become lookups in an `Api` value: a term's session vote
    lists, and the detail objects that could be fetched. */
module Scrape {
  import opened Ballots
  import opened PartyTally
  import opened Summarize

  /** `range(7, 11)`: the terms visited, in order. */
  const FirstTerm: int := 7
  const LastTerm: int := 10

  /** An entry of a session's vote list; only `votingNumber` is read. */
  datatype VoteSummary = VoteSummary(votingNumber: Option<int>)

  /** The arguments of one detail request. */
  datatype VoteKey = VoteKey(term: int, session: int, voteNumber: Option<int>)

  /** `sessionLists[t][s - 1]` is what the vote-list request for term `t`,
      session `s` returns; any session past the end of the sequence (or a
      term without an entry) answers with an empty list, as a failed request
      does. A request whose key is not in `details` failed or returned an
      empty object. */
  datatype Api = Api(sessionLists: map<int, seq<seq<VoteSummary>>>, details: map<VoteKey, VoteDetail>)

  function SessionCount(api: Api, term: int): nat
  {
    if term in api.sessionLists then |api.sessionLists[term]| else 0
  }

  /** `get_votes_for_session(term, session)` */
  function VotesForSession(api: Api, term: int, session: int): (votes: seq<VoteSummary>)
    ensures session > SessionCount(api, term) ==> votes == []
  {
    if term in api.sessionLists && 1 <= session <= |api.sessionLists[term]|
    then api.sessionLists[term][session - 1]
    else []
  }

  /** `get_vote_details(term, session, vote)`, with `None` for the responses
      `if details:` rejects. */
  function VoteDetails(api: Api, key: VoteKey): Option<VoteDetail>
  {
    if key in api.details then Some(api.details[key]) else None
  }

  // ---------------------------------------------------------------------
  // The enumeration, as functions.

  /** The detail requests made for one session's vote list, in list order. */
  function SessionKeys(term: int, session: int, votes: seq<VoteSummary>): seq<VoteKey>
  {
    if votes == [] then []
    else [VoteKey(term, session, votes[0].votingNumber)] + SessionKeys(term, session, votes[1..])
  }

  /** The detail requests made for `term` from session `session` on, up to
      the first session whose vote list is empty. */
  function TermKeys(api: Api, term: int, session: int): seq<VoteKey>
    decreases SessionCount(api, term) + 1 - session
  {
    var votes := VotesForSession(api, term, session);
    if votes == [] then []
    else SessionKeys(term, session, votes) + TermKeys(api, term, session + 1)
  }

  /** The detail requests made for the terms `term` to `LastTerm`. */
  function KeysFrom(api: Api, term: int): seq<VoteKey>
    decreases LastTerm + 1 - term
  {
    if term > LastTerm then [] else TermKeys(api, term, 1) + KeysFrom(api, term + 1)
  }

  /** Every detail request of a run, in the order it is made. */
  function Enumerate(api: Api): seq<VoteKey>
  {
    KeysFrom(api, FirstTerm)
  }

  /** The rows contributed by the requests `keys`: a vote whose details are
      unavailable contributes none. */
  function RowsOf(api: Api, keys: seq<VoteKey>): seq<Row>
  {
    if keys == [] then []
    else
      (match VoteDetails(api, keys[0]) case None => [] case Some(d) => Summary(d))
      + RowsOf(api, keys[1..])
  }

  /** The table a run builds. */
  function Scrape(api: Api): seq<Row>
  {
    RowsOf(api, Enumerate(api))
  }

  lemma {:induction false} RowsOfAppend(api: Api, a: seq<VoteKey>, b: seq<VoteKey>)
    ensures RowsOf(api, a + b) == RowsOf(api, a) + RowsOf(api, b)
  {
    if a == [] {
      assert a + b == b;
    } else {
      assert (a + b)[0] == a[0];
      assert (a + b)[1..] == a[1..] + b;
      RowsOfAppend(api, a[1..], b);
    }
  }

  /** The rows of a term's sessions from `session` on: that session's,
      then the later ones'. */
  lemma {:induction false} TermKeysStep(api: Api, term: int, session: int)
    requires VotesForSession(api, term, session) != []
    ensures RowsOf(api, TermKeys(api, term, session))
      == RowsOf(api, SessionKeys(term, session, VotesForSession(api, term, session)))
         + RowsOf(api, TermKeys(api, term, session + 1))
  {
    RowsOfAppend(api, SessionKeys(term, session, VotesForSession(api, term, session)), TermKeys(api, term, session + 1));
  }

  /** The rows of the terms from `term` on: that term's, then the later
      ones'. */
  lemma {:induction false} KeysFromStep(api: Api, term: int)
    requires term <= LastTerm
    ensures RowsOf(api, KeysFrom(api, term))
      == RowsOf(api, TermKeys(api, term, 1)) + RowsOf(api, KeysFrom(api, term + 1))
  {
    RowsOfAppend(api, TermKeys(api, term, 1), KeysFrom(api, term + 1));
  }

  // ---------------------------------------------------------------------
  // What the enumeration visits.

  lemma {:induction false} SessionKeysAre(term: int, session: int, votes: seq<VoteSummary>)
    ensures |SessionKeys(term, session, votes)| == |votes|
    ensures forall i :: 0 <= i < |votes| ==>
      SessionKeys(term, session, votes)[i] == VoteKey(term, session, votes[i].votingNumber)
  {
    if votes != [] {
      SessionKeysAre(term, session, votes[1..]);
    }
  }

  /** Within a term, only sessions reached through non-empty vote lists are
      visited: every request is for a session `s` at least `session` such
      that no session from `session` to `s` answered with an empty list. */
  lemma {:induction false} TermKeysBounds(api: Api, term: int, session: int)
    ensures forall k :: k in TermKeys(api, term, session) ==>
      && k.term == term && session <= k.session
      && forall s :: session <= s <= k.session ==> VotesForSession(api, term, s) != []
    decreases SessionCount(api, term) + 1 - session
  {
    var votes := VotesForSession(api, term, session);
    if votes != [] {
      TermKeysBounds(api, term, session + 1);
      SessionKeysAre(term, session, votes);
    }
  }

  lemma {:induction false} KeysFromBounds(api: Api, term: int)
    ensures forall k :: k in KeysFrom(api, term) ==>
      && term <= k.term <= LastTerm && 1 <= k.session
      && forall s :: 1 <= s <= k.session ==> VotesForSession(api, k.term, s) != []
    decreases LastTerm + 1 - term
  {
    if term <= LastTerm {
      TermKeysBounds(api, term, 1);
      KeysFromBounds(api, term + 1);
    }
  }

  /** The request `k` asks for a vote listed in its own session's vote
      list. */
  ghost predicate Listed(api: Api, k: VoteKey)
  {
    exists v :: v in VotesForSession(api, k.term, k.session) && k.voteNumber == v.votingNumber
  }

  lemma {:induction false} TermKeysListed(api: Api, term: int, session: int)
    ensures forall k :: k in TermKeys(api, term, session) ==> Listed(api, k)
    decreases SessionCount(api, term) + 1 - session
  {
    var votes := VotesForSession(api, term, session);
    if votes != [] {
      TermKeysListed(api, term, session + 1);
      var keys := SessionKeys(term, session, votes);
      SessionKeysAre(term, session, votes);
      forall k | k in keys
        ensures Listed(api, k)
      {
        var i :| 0 <= i < |keys| && keys[i] == k;
        assert votes[i] in votes;
      }
    }
  }

  lemma {:induction false} KeysFromListed(api: Api, term: int)
    ensures forall k :: k in KeysFrom(api, term) ==> Listed(api, k)
    decreases LastTerm + 1 - term
  {
    if term <= LastTerm {
      TermKeysListed(api, term, 1);
      KeysFromListed(api, term + 1);
    }
  }

  /** Every detail request is for a term from 7 to 10 and for a session
      before the first session of that term whose vote list is empty: no vote
      from that session or a later one of the same term is requested. The
      voting number asked for is one listed in that session, so nothing is
      requested that `EnumerateComplete` does not account for. */
  lemma {:induction false} EnumerateBounds(api: Api)
    ensures forall k :: k in Enumerate(api) ==>
      && FirstTerm <= k.term <= LastTerm && 1 <= k.session
      && forall s :: 1 <= s <= k.session ==> VotesForSession(api, k.term, s) != []
    ensures forall k :: k in Enumerate(api) ==>
      exists v :: v in VotesForSession(api, k.term, k.session) && k.voteNumber == v.votingNumber
  {
    KeysFromBounds(api, FirstTerm);
    KeysFromListed(api, FirstTerm);
    forall k | k in Enumerate(api)
      ensures exists v :: v in VotesForSession(api, k.term, k.session) && k.voteNumber == v.votingNumber
    {
      assert Listed(api, k);
    }
  }

  lemma {:induction false} TermKeysComplete(api: Api, term: int, session: int, s: int, v: VoteSummary)
    requires session <= s
    requires forall s' :: session <= s' <= s ==> VotesForSession(api, term, s') != []
    requires v in VotesForSession(api, term, s)
    ensures VoteKey(term, s, v.votingNumber) in TermKeys(api, term, session)
    decreases SessionCount(api, term) + 1 - session
  {
    var votes := VotesForSession(api, term, session);
    assert votes != [];
    if session == s {
      SessionKeysAre(term, session, votes);
      var i :| 0 <= i < |votes| && votes[i] == v;
      assert SessionKeys(term, session, votes)[i] == VoteKey(term, s, v.votingNumber);
    } else {
      TermKeysComplete(api, term, session + 1, s, v);
    }
  }

  lemma {:induction false} KeysFromComplete(api: Api, term: int, t: int, s: int, v: VoteSummary)
    requires term <= t <= LastTerm && 1 <= s
    requires forall s' :: 1 <= s' <= s ==> VotesForSession(api, t, s') != []
    requires v in VotesForSession(api, t, s)
    ensures VoteKey(t, s, v.votingNumber) in KeysFrom(api, term)
    decreases LastTerm + 1 - term
  {
    if term == t {
      TermKeysComplete(api, t, 1, s, v);
    } else {
      KeysFromComplete(api, term + 1, t, s, v);
    }
  }

  /** Conversely, every vote listed for a session of terms 7 to 10 that is
      reached (all its term's sessions up to it have non-empty vote lists)
      has its details requested. */
  lemma {:induction false} EnumerateComplete(api: Api, t: int, s: int, v: VoteSummary)
    requires FirstTerm <= t <= LastTerm && 1 <= s
    requires forall s' :: 1 <= s' <= s ==> VotesForSession(api, t, s') != []
    requires v in VotesForSession(api, t, s)
    ensures VoteKey(t, s, v.votingNumber) in Enumerate(api)
  {
    KeysFromComplete(api, FirstTerm, t, s, v);
  }

  /** `a` is requested no later than `b` would be: an earlier term, or the
      same term and an earlier or the same session. */
  predicate NotAfter(a: VoteKey, b: VoteKey)
  {
    a.term < b.term || (a.term == b.term && a.session <= b.session)
  }

  ghost predicate InVisitOrder(keys: seq<VoteKey>)
  {
    forall i, j :: 0 <= i < j < |keys| ==> NotAfter(keys[i], keys[j])
  }

  lemma {:induction false} InVisitOrderAppend(a: seq<VoteKey>, b: seq<VoteKey>)
    requires InVisitOrder(a) && InVisitOrder(b)
    requires forall x, y :: x in a && y in b ==> NotAfter(x, y)
    ensures InVisitOrder(a + b)
  {
    forall i, j | 0 <= i < j < |a + b|
      ensures NotAfter((a + b)[i], (a + b)[j])
    {
      if j < |a| {
        assert (a + b)[i] == a[i] && (a + b)[j] == a[j];
      } else if i >= |a| {
        assert (a + b)[i] == b[i - |a|] && (a + b)[j] == b[j - |a|];
      } else {
        assert (a + b)[i] in a && (a + b)[j] in b;
      }
    }
  }

  lemma {:induction false} TermKeysInOrder(api: Api, term: int, session: int)
    ensures InVisitOrder(TermKeys(api, term, session))
    decreases SessionCount(api, term) + 1 - session
  {
    var votes := VotesForSession(api, term, session);
    if votes != [] {
      TermKeysInOrder(api, term, session + 1);
      TermKeysBounds(api, term, session + 1);
      SessionKeysAre(term, session, votes);
      InVisitOrderAppend(SessionKeys(term, session, votes), TermKeys(api, term, session + 1));
    }
  }

  lemma {:induction false} KeysFromInOrder(api: Api, term: int)
    ensures InVisitOrder(KeysFrom(api, term))
    decreases LastTerm + 1 - term
  {
    if term <= LastTerm {
      TermKeysInOrder(api, term, 1);
      TermKeysBounds(api, term, 1);
      KeysFromInOrder(api, term + 1);
      KeysFromBounds(api, term + 1);
      InVisitOrderAppend(TermKeys(api, term, 1), KeysFrom(api, term + 1));
    }
  }

  /** Terms are visited in increasing order and, within a term, sessions in
      increasing order. */
  lemma {:induction false} EnumerateInOrder(api: Api)
    ensures InVisitOrder(Enumerate(api))
  {
    KeysFromInOrder(api, FirstTerm);
  }

  /** Two answer sets that agree on a term's sessions before `s`, and both
      answer session `s` with an empty list, make the same requests there. */
  lemma {:induction false} TermKeysAgree(api: Api, api2: Api, term: int, session: int, s: int)
    requires session <= s
    requires VotesForSession(api, term, s) == [] && VotesForSession(api2, term, s) == []
    requires forall s' :: s' < s ==> VotesForSession(api, term, s') == VotesForSession(api2, term, s')
    ensures TermKeys(api, term, session) == TermKeys(api2, term, session)
    decreases SessionCount(api, term) + 1 - session
  {
    if session < s && VotesForSession(api, term, session) != [] {
      TermKeysAgree(api, api2, term, session + 1, s);
    }
  }

  lemma {:induction false} KeysFromAgree(api: Api, api2: Api, t: int, s: int, term: int)
    requires 1 <= s
    requires VotesForSession(api, t, s) == [] && VotesForSession(api2, t, s) == []
    requires forall t', s' :: t' != t || s' < s ==> VotesForSession(api, t', s') == VotesForSession(api2, t', s')
    ensures KeysFrom(api, term) == KeysFrom(api2, term)
    decreases LastTerm + 1 - term
  {
    if term <= LastTerm {
      if term == t {
        TermKeysAgree(api, api2, t, 1, s);
      } else {
        TermKeysAgree(api, api2, term, 1, SessionCount(api, term) + SessionCount(api2, term) + 1);
      }
      KeysFromAgree(api, api2, t, s, term + 1);
    }
  }

  lemma {:induction false} RowsOfAgree(api: Api, api2: Api, keys: seq<VoteKey>)
    requires api.details == api2.details
    ensures RowsOf(api, keys) == RowsOf(api2, keys)
  {
    if keys != [] {
      RowsOfAgree(api, api2, keys[1..]);
    }
  }

  /** Once a term's session `s` answers with an empty list, what sessions
      `s` and later of that term would answer has no effect on the table. */
  lemma {:induction false} LaterSessionsIgnored(api: Api, api2: Api, t: int, s: int)
    requires 1 <= s
    requires VotesForSession(api, t, s) == [] && VotesForSession(api2, t, s) == []
    requires forall t', s' :: t' != t || s' < s ==> VotesForSession(api, t', s') == VotesForSession(api2, t', s')
    requires api.details == api2.details
    ensures Scrape(api) == Scrape(api2)
  {
    KeysFromAgree(api, api2, t, s, FirstTerm);
    RowsOfAgree(api, api2, Enumerate(api));
  }

  /** Every row of the table comes from the summary of a vote that was
      requested and whose details were available. */
  lemma {:induction false} RowsOfProvenance(api: Api, keys: seq<VoteKey>)
    ensures forall r :: r in RowsOf(api, keys) ==>
      exists k :: k in keys && k in api.details && r in Summary(api.details[k])
  {
    if keys != [] {
      RowsOfProvenance(api, keys[1..]);
      forall r | r in RowsOf(api, keys)
        ensures exists k :: k in keys && k in api.details && r in Summary(api.details[k])
      {
        if r !in RowsOf(api, keys[1..]) {
          assert keys[0] in keys;
        } else {
          var k :| k in keys[1..] && k in api.details && r in Summary(api.details[k]);
          assert k in keys;
        }
      }
    }
  }

  /** Every row of the output is a row of the summary of some requested
      vote whose details were available. */
  lemma {:induction false} ScrapeProvenance(api: Api)
    ensures forall r :: r in Scrape(api) ==>
      exists k :: k in Enumerate(api) && k in api.details && r in Summary(api.details[k])
  {
    RowsOfProvenance(api, Enumerate(api));
  }

  // ---------------------------------------------------------------------
  // The driver.

  /** The inner loop of `scrape_sejm_votes` over one session's vote list:
      fetch each vote's details and append its summary rows, skipping the
      votes whose details are unavailable. */
  method ScrapeSession(api: Api, term: int, session: int, votesList: seq<VoteSummary>)
    returns (rows: seq<Row>)
    ensures rows == RowsOf(api, SessionKeys(term, session, votesList))
  {
    rows := [];
    for j := 0 to |votesList|
      invariant rows + RowsOf(api, SessionKeys(term, session, votesList[j..]))
        == RowsOf(api, SessionKeys(term, session, votesList))
    {
      var voteNumber := votesList[j].votingNumber;
      var key := VoteKey(term, session, voteNumber);
      assert votesList[j..][1..] == votesList[j + 1..];
      assert SessionKeys(term, session, votesList[j..])
        == [key] + SessionKeys(term, session, votesList[j + 1..]);
      RowsOfAppend(api, [key], SessionKeys(term, session, votesList[j + 1..]));
      var details := VoteDetails(api, key);
      if details.Some? {
        var summary := SummarizePartyVotes(details.value);
        rows := rows + summary;
      }
    }
    assert votesList[|votesList|..] == [];
    assert votesList[0..] == votesList;
  }

  /** The `while True` loop of `scrape_sejm_votes` for one term: sessions
      1, 2, ... until the first empty vote list. */
  method ScrapeTerm(api: Api, term: int) returns (rows: seq<Row>)
    ensures rows == RowsOf(api, TermKeys(api, term, 1))
  {
    rows := [];
    var session := 1;
    while true
      invariant 1 <= session <= SessionCount(api, term) + 1
      invariant rows + RowsOf(api, TermKeys(api, term, session)) == RowsOf(api, TermKeys(api, term, 1))
      decreases SessionCount(api, term) + 1 - session
    {
      var votesList := VotesForSession(api, term, session);
      if votesList == [] {
        break;
      }
      TermKeysStep(api, term, session);
      var sessionRows := ScrapeSession(api, term, session, votesList);
      rows := rows + sessionRows;
      session := session + 1;
    }
  }

  method ScrapeSejmVotes(api: Api) returns (allData: seq<Row>)
    ensures allData == Scrape(api)
  {
    allData := [];
    for term := FirstTerm to LastTerm + 1
      invariant allData + RowsOf(api, KeysFrom(api, term)) == Scrape(api)
    {
      KeysFromStep(api, term);
      var termRows := ScrapeTerm(api, term);
      allData := allData + termRows;
    }
  }
}
