/** The records one roll-call vote's detail response is made of, read the way
    `summarize_party_votes` reads them: every field through `dict.get`, so any
    of them may be missing. */
module Ballots {

  datatype Option<T> = None | Some(value: T)

  /** The `club` field of a ballot: the key is missing, present with JSON null,
      or present with a party label. */
  datatype Club = ClubAbsent | ClubNull | ClubLabel(text: string)

  /** A key of the tally dictionary: Python's `None` or a string. */
  datatype Party = NullParty | Label(name: string)

  /** The label used for a ballot that has no `club` key. */
  const Unknown: string := "UNKNOWN"

  /** One legislator's ballot; `vote` is `None` when the key is missing or null. */
  datatype Ballot = Ballot(club: Club, vote: Option<string>)

  /** The four counters kept per party. */
  datatype Bucket = Yes | No | Abstain | NotVoting

  datatype Counts = Counts(yes: nat, no: nat, abstain: nat, notVoting: nat)

  const Zero: Counts := Counts(0, 0, 0, 0)

  function Get(c: Counts, k: Bucket): nat
  {
    match k
    case Yes => c.yes
    case No => c.no
    case Abstain => c.abstain
    case NotVoting => c.notVoting
  }

  function Total(c: Counts): nat
  {
    c.yes + c.no + c.abstain + c.notVoting
  }

  /** Adds one to counter `k`. */
  function Bump(c: Counts, k: Bucket): (r: Counts)
    ensures Total(r) == Total(c) + 1
  {
    match k
    case Yes => c.(yes := c.yes + 1)
    case No => c.(no := c.no + 1)
    case Abstain => c.(abstain := c.abstain + 1)
    case NotVoting => c.(notVoting := c.notVoting + 1)
  }

  /** Exactly one of the four counters grows, counter `k`, and by one. */
  lemma {:induction false} BumpOneCounter(c: Counts, k: Bucket)
    ensures forall j :: Get(Bump(c, k), j) == Get(c, j) + (if j == k then 1 else 0)
  {
  }

  /** The dictionary key a ballot is tallied under: `v.get('club', 'UNKNOWN')`.
      Only a missing key becomes "UNKNOWN"; a null club stays a key of its own. */
  function PartyOf(club: Club): (p: Party)
    ensures p == NullParty <==> club == ClubNull
    ensures club.ClubLabel? ==> p == Label(club.text)
  {
    match club
    case ClubAbsent => Label(Unknown)
    case ClubNull => NullParty
    case ClubLabel(s) => Label(s)
  }

  /** "UNKNOWN" is shared by ballots without a club and ballots whose club is
      literally "UNKNOWN"; a null club is never merged into it. */
  lemma {:induction false} UnknownKey(club: Club)
    ensures PartyOf(club) == Label(Unknown) <==> club == ClubAbsent || club == ClubLabel(Unknown)
  {
  }

  /** The three decision strings that are recognised. */
  const YesVote: string := "YES"
  const NoVote: string := "NO"
  const AbstainVote: string := "ABSTAIN"

  /** The counter a decision goes to. */
  function Classify(vote: Option<string>): Bucket
  {
    if vote == Some(YesVote) then Yes
    else if vote == Some(NoVote) then No
    else if vote == Some(AbstainVote) then Abstain
    else NotVoting
  }

  /** Only the exact strings "YES", "NO" and "ABSTAIN" are recognised;
      everything else, a missing or null vote included, is Not Voting. */
  lemma {:induction false} ClassifyExact(vote: Option<string>)
    ensures Classify(vote) == Yes <==> vote == Some("YES")
    ensures Classify(vote) == No <==> vote == Some("NO")
    ensures Classify(vote) == Abstain <==> vote == Some("ABSTAIN")
    ensures Classify(vote) == NotVoting <==>
      vote != Some("YES") && vote != Some("NO") && vote != Some("ABSTAIN")
  {
  }

  /** The detail object of one vote. `votes` is `None` when the key is missing. */
  datatype VoteDetail = VoteDetail(
    votes: Option<seq<Ballot>>,
    title: Option<string>,
    date: Option<string>,
    term: Option<int>,
    sitting: Option<int>,
    votingNumber: Option<int>)

  /** `vote_json.get('votes', [])` */
  function BallotsOf(d: VoteDetail): seq<Ballot>
  {
    match d.votes
    case None => []
    case Some(bs) => bs
  }

  /** One output row, with the columns Term, Session, Vote Number, Date,
      Policy Title, Party, Yes, No, Abstain, Not Voting. */
  datatype Row = Row(
    term: Option<int>,
    session: Option<int>,
    voteNumber: Option<int>,
    date: Option<string>,
    title: Option<string>,
    party: Party,
    yes: nat,
    no: nat,
    abstain: nat,
    notVoting: nat)

  function RowTotal(r: Row): nat
  {
    r.yes + r.no + r.abstain + r.notVoting
  }

  /** The row emitted for `party` with counters `c`; the vote's metadata is copied. */
  function MakeRow(d: VoteDetail, party: Party, c: Counts): Row
  {
    Row(d.term, d.sitting, d.votingNumber, d.date, d.title,
        party, c.yes, c.no, c.abstain, c.notVoting)
  }
}
