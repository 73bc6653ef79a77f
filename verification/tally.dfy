/** The `party_counts` dictionary of `summarize_party_votes` as a value, the
    rows it yields, and what is proved about them. A Python dict keeps its
    keys in insertion order, so the dictionary is a key sequence plus a map. */
module PartyTally {
  import opened Ballots

  datatype TallyState = TallyState(order: seq<Party>, counts: map<Party, Counts>)

  ghost predicate NoDuplicates<T>(s: seq<T>)
  {
    forall i, j :: 0 <= i < j < |s| ==> s[i] != s[j]
  }

  /** The dictionary's keys are exactly the key sequence, each once. */
  ghost predicate Consistent(st: TallyState)
  {
    NoDuplicates(st.order) && (forall p :: p in st.order <==> p in st.counts)
  }

  /** Handling one ballot: a party seen for the first time is appended to
      the key order with zero counters, then the counter the ballot's decision
      falls in grows by one. */
  function Step(st: TallyState, b: Ballot): TallyState
  {
    var p := PartyOf(b.club);
    var c := if p in st.counts then st.counts[p] else Zero;
    TallyState(if p in st.counts then st.order else st.order + [p],
               st.counts[p := Bump(c, Classify(b.vote))])
  }

  /** The dictionary after the loop has handled every ballot of `bs`, in order. */
  function Tally(bs: seq<Ballot>): TallyState
  {
    if bs == [] then TallyState([], map[])
    else Step(Tally(bs[..|bs| - 1]), bs[|bs| - 1])
  }

  /** The dictionary after one more ballot is one `Step` further. */
  lemma {:induction false} TallyPrefix(bs: seq<Ballot>, n: nat)
    requires n < |bs|
    ensures Tally(bs[..n + 1]) == Step(Tally(bs[..n]), bs[n])
  {
    assert bs[..n + 1][..n] == bs[..n];
  }

  /** The counters of key `p`; every key of `order` is in the dictionary
      (`TallyKeys`), so the zero default is never used for them. */
  function CountsOf(counts: map<Party, Counts>, p: Party): Counts
  {
    if p in counts then counts[p] else Zero
  }

  /** The rows emitted for the keys `order`, in that order. */
  function RowsFor(d: VoteDetail, order: seq<Party>, counts: map<Party, Counts>): seq<Row>
  {
    if order == [] then []
    else RowsFor(d, order[..|order| - 1], counts)
         + [MakeRow(d, order[|order| - 1], CountsOf(counts, order[|order| - 1]))]
  }

  /** The result of `summarize_party_votes` for one detail object. */
  function Summary(d: VoteDetail): seq<Row>
  {
    var st := Tally(BallotsOf(d));
    RowsFor(d, st.order, st.counts)
  }

  /** The key order lists every key of the dictionary exactly once. */
  lemma {:induction false} TallyKeys(bs: seq<Ballot>)
    ensures Consistent(Tally(bs))
  {
    if bs != [] {
      TallyKeys(bs[..|bs| - 1]);
    }
  }

  // ---------------------------------------------------------------------
  // Reference definitions, independent of the dictionary.

  /** The party key of every ballot, in ballot order. */
  function Parties(bs: seq<Ballot>): (ps: seq<Party>)
    ensures |ps| == |bs|
  {
    if bs == [] then [] else Parties(bs[..|bs| - 1]) + [PartyOf(bs[|bs| - 1].club)]
  }

  /** How many ballots of `bs` are tallied under party `p` in counter `k`. */
  function CountIn(bs: seq<Ballot>, p: Party, k: Bucket): nat
  {
    if bs == [] then 0
    else CountIn(bs[..|bs| - 1], p, k)
         + (if PartyOf(bs[|bs| - 1].club) == p && Classify(bs[|bs| - 1].vote) == k then 1 else 0)
  }

  /** The position of the first occurrence of `x` in `s`. */
  function FirstIndex<T(==)>(s: seq<T>, x: T): (i: nat)
    requires x in s
    ensures i < |s| && s[i] == x && x !in s[..i]
  {
    if s[0] == x then 0 else 1 + FirstIndex(s[1..], x)
  }

  /** Sum of the four counters over the parties of `order`. */
  function SumOver(order: seq<Party>, counts: map<Party, Counts>): nat
    requires forall p :: p in order ==> p in counts
  {
    if order == [] then 0
    else SumOver(order[..|order| - 1], counts) + Total(counts[order[|order| - 1]])
  }

  function RowsTotal(rows: seq<Row>): nat
  {
    if rows == [] then 0 else RowsTotal(rows[..|rows| - 1]) + RowTotal(rows[|rows| - 1])
  }

  // ---------------------------------------------------------------------
  // One ballot.

  /** Handling a ballot adds one to exactly one counter, the one its decision
      selects, of exactly the ballot's party; every other counter of every
      party keeps its value, and the key sequence grows only by a new party. */
  lemma {:induction false} StepIncrementsOneCounter(st: TallyState, b: Ballot)
    ensures Step(st, b).counts.Keys == st.counts.Keys + {PartyOf(b.club)}
    ensures Step(st, b).order
      == if PartyOf(b.club) in st.counts then st.order else st.order + [PartyOf(b.club)]
    ensures forall k :: (Get(Step(st, b).counts[PartyOf(b.club)], k)
      == (if PartyOf(b.club) in st.counts then Get(st.counts[PartyOf(b.club)], k) else 0)
         + (if k == Classify(b.vote) then 1 else 0))
    ensures forall q :: q in st.counts && q != PartyOf(b.club) ==> Step(st, b).counts[q] == st.counts[q]
  {
    var p, k := PartyOf(b.club), Classify(b.vote);
    var st' := Step(st, b);
    assert st'.counts.Keys == st.counts.Keys + {p};
    forall j
      ensures Get(st'.counts[p], j) == (if p in st.counts then Get(st.counts[p], j) else 0) + (if j == k then 1 else 0)
    {
      StepCountsOf(st, b, p);
      BumpOneCounter(CountsOf(st.counts, p), k);
    }
    forall q | q in st.counts && q != p
      ensures st'.counts[q] == st.counts[q]
    {
      StepCountsOf(st, b, q);
    }
  }

  // ---------------------------------------------------------------------
  // The whole ballot list.

  /** The dictionary's keys are the parties seen. */
  lemma {:induction false} TallyParties(bs: seq<Ballot>)
    ensures forall p :: p in Tally(bs).counts <==> p in Parties(bs)
  {
    if bs != [] {
      var pre, b := bs[..|bs| - 1], bs[|bs| - 1];
      assert Tally(bs) == Step(Tally(pre), b);
      assert Parties(bs) == Parties(pre) + [PartyOf(b.club)];
      TallyParties(pre);
      StepIncrementsOneCounter(Tally(pre), b);
    }
  }

  /** One counter of one party (zero for a party never seen) is the number
      of that party's ballots in that bucket. */
  lemma {:induction false} TallyCount(bs: seq<Ballot>, p: Party, k: Bucket)
    ensures Get(CountsOf(Tally(bs).counts, p), k) == CountIn(bs, p, k)
  {
    if bs != [] {
      var pre, b := bs[..|bs| - 1], bs[|bs| - 1];
      TallyLast(bs);
      TallyCount(pre, p, k);
      StepCount(Tally(pre), b, p, k);
      CountInLast(bs, p, k);
    }
  }

  /** A step bumps the ballot's party's counters and leaves every other
      party's counters as they were. This is `StepIncrementsOneCounter`
      read through `CountsOf`, where a party not yet in the dictionary has
      zero counters, so that `TallyCount` needs no case split on whether
      the party is new. */
  lemma {:induction false} StepCountsOf(st: TallyState, b: Ballot, p: Party)
    ensures CountsOf(Step(st, b).counts, p)
      == if p == PartyOf(b.club) then Bump(CountsOf(st.counts, p), Classify(b.vote)) else CountsOf(st.counts, p)
  {
  }

  /** The dictionary before the last ballot, one `Step` behind. */
  lemma {:induction false} TallyLast(bs: seq<Ballot>)
    requires bs != []
    ensures Tally(bs) == Step(Tally(bs[..|bs| - 1]), bs[|bs| - 1])
  {
  }

  /** One counter after a step: it grows by one exactly when the ballot is
      of that party and falls in that counter. */
  lemma {:induction false} StepCount(st: TallyState, b: Ballot, p: Party, k: Bucket)
    ensures Get(CountsOf(Step(st, b).counts, p), k)
      == Get(CountsOf(st.counts, p), k) + (if PartyOf(b.club) == p && Classify(b.vote) == k then 1 else 0)
  {
    var c, kb := CountsOf(st.counts, p), Classify(b.vote);
    StepCountsOf(st, b, p);
    if p == PartyOf(b.club) {
      assert CountsOf(Step(st, b).counts, p) == Bump(c, kb);
      BumpOneCounter(c, kb);
      assert Get(Bump(c, kb), k) == Get(c, k) + (if k == kb then 1 else 0);
    } else {
      assert CountsOf(Step(st, b).counts, p) == c;
    }
  }

  /** `CountIn` one ballot shorter, as the induction over the ballots
      peels it off. */
  lemma {:induction false} CountInLast(bs: seq<Ballot>, p: Party, k: Bucket)
    requires bs != []
    ensures CountIn(bs, p, k) == CountIn(bs[..|bs| - 1], p, k)
      + (if PartyOf(bs[|bs| - 1].club) == p && Classify(bs[|bs| - 1].vote) == k then 1 else 0)
  {
  }

  /** No occurrence of `x` precedes its first one. */
  lemma {:induction false} FirstIndexLeast<T>(s: seq<T>, x: T, k: nat)
    requires k < |s| && s[k] == x
    ensures FirstIndex(s, x) <= k
  {
    if s[0] != x {
      FirstIndexLeast(s[1..], x, k - 1);
    }
  }

  lemma {:induction false} FirstIndexAppend<T>(s: seq<T>, y: T, x: T)
    requires x in s
    ensures FirstIndex(s + [y], x) == FirstIndex(s, x)
  {
    var i := FirstIndex(s, x);
    FirstIndexLeast(s + [y], x, i);
    var j := FirstIndex(s + [y], x);
    FirstIndexLeast(s, x, j);
  }

  /** The keys appear once each, are the parties seen, and come in the order
      in which each party first appears among the ballots. */
  lemma {:induction false} TallyOrder(bs: seq<Ballot>)
    ensures forall p :: p in Tally(bs).order <==> p in Parties(bs)
    ensures forall i, j :: 0 <= i < j < |Tally(bs).order| ==>
      FirstIndex(Parties(bs), Tally(bs).order[i]) < FirstIndex(Parties(bs), Tally(bs).order[j])
  {
    TallyParties(bs);
    if bs != [] {
      var pre := bs[..|bs| - 1];
      var p := PartyOf(bs[|bs| - 1].club);
      TallyOrder(pre);
      TallyParties(pre);
      var o, o' := Tally(pre).order, Tally(bs).order;
      assert Parties(bs) == Parties(pre) + [p];
      forall q | q in Parties(pre)
        ensures FirstIndex(Parties(bs), q) == FirstIndex(Parties(pre), q)
      {
        FirstIndexAppend(Parties(pre), p, q);
      }
      if p !in Parties(pre) {
        assert o' == o + [p];
        assert FirstIndex(Parties(bs), p) == |pre|;
      }
    }
  }

  lemma {:induction false} SumOverUnchanged(order: seq<Party>, counts: map<Party, Counts>, p: Party, c: Counts)
    requires forall q :: q in order ==> q in counts
    requires p !in order
    ensures SumOver(order, counts[p := c]) == SumOver(order, counts)
  {
    if order != [] {
      SumOverUnchanged(order[..|order| - 1], counts, p, c);
    }
  }

  lemma {:induction false} SumOverUpdate(order: seq<Party>, counts: map<Party, Counts>, p: Party, c: Counts)
    requires forall q :: q in order ==> q in counts
    requires NoDuplicates(order) && p in order
    ensures SumOver(order, counts[p := c]) + Total(counts[p]) == SumOver(order, counts) + Total(c)
  {
    var pre, last := order[..|order| - 1], order[|order| - 1];
    if last == p {
      assert p !in pre;
      SumOverUnchanged(pre, counts, p, c);
    } else {
      SumOverUpdate(pre, counts, p, c);
    }
  }

  /** The counters, summed over all parties, equal the number of ballots. */
  lemma {:induction false} TallySum(bs: seq<Ballot>)
    ensures Consistent(Tally(bs)) && SumOver(Tally(bs).order, Tally(bs).counts) == |bs|
  {
    TallyKeys(bs);
    if bs != [] {
      var pre, b := bs[..|bs| - 1], bs[|bs| - 1];
      var st, p := Tally(pre), PartyOf(b.club);
      TallySum(pre);
      TallyKeys(pre);
      if p in st.counts {
        SumOverUpdate(st.order, st.counts, p, Bump(st.counts[p], Classify(b.vote)));
      } else {
        SumOverUnchanged(st.order, st.counts, p, Bump(Zero, Classify(b.vote)));
      }
    }
  }

  // ---------------------------------------------------------------------
  // The rows.

  lemma {:induction false} RowsForAt(d: VoteDetail, order: seq<Party>, counts: map<Party, Counts>)
    requires forall p :: p in order ==> p in counts
    ensures |RowsFor(d, order, counts)| == |order|
    ensures forall i :: 0 <= i < |order| ==>
      RowsFor(d, order, counts)[i] == MakeRow(d, order[i], counts[order[i]])
  {
    if order != [] {
      RowsForAt(d, order[..|order| - 1], counts);
    }
  }

  lemma {:induction false} RowsForTotal(d: VoteDetail, order: seq<Party>, counts: map<Party, Counts>)
    requires forall p :: p in order ==> p in counts
    ensures RowsTotal(RowsFor(d, order, counts)) == SumOver(order, counts)
  {
    if order != [] {
      var pre := order[..|order| - 1];
      var rows := RowsFor(d, pre, counts);
      var last := MakeRow(d, order[|order| - 1], CountsOf(counts, order[|order| - 1]));
      RowsForTotal(d, pre, counts);
      assert (rows + [last])[..|rows + [last]| - 1] == rows;
    }
  }

  /** Every row carries the vote's term, sitting, voting number, date and
      title unchanged. */
  lemma {:induction false} SummaryMetadata(d: VoteDetail)
    ensures forall r :: r in Summary(d) ==>
      r.term == d.term && r.session == d.sitting && r.voteNumber == d.votingNumber
      && r.date == d.date && r.title == d.title
  {
    var st := Tally(BallotsOf(d));
    SummaryShape(d);
  }

  /** Each row's four counts are the numbers of that party's ballots with
      each decision. */
  lemma {:induction false} SummaryCounts(d: VoteDetail)
    ensures forall i :: 0 <= i < |Summary(d)| ==>
      var bs, r := BallotsOf(d), Summary(d)[i];
      && r.yes == CountIn(bs, r.party, Yes)
      && r.no == CountIn(bs, r.party, No)
      && r.abstain == CountIn(bs, r.party, Abstain)
      && r.notVoting == CountIn(bs, r.party, NotVoting)
  {
    forall i | 0 <= i < |Summary(d)|
      ensures var r := Summary(d)[i];
        && r.yes == CountIn(BallotsOf(d), r.party, Yes)
        && r.no == CountIn(BallotsOf(d), r.party, No)
        && r.abstain == CountIn(BallotsOf(d), r.party, Abstain)
        && r.notVoting == CountIn(BallotsOf(d), r.party, NotVoting)
    {
      RowCounts(d, i);
    }
  }

  /** Row `i` of the summary carries its party's four ballot counts. This
      is the single-row instance `SummaryCounts` is proved from; it is kept
      apart so that each row's proof stays small. */
  lemma {:induction false} RowCounts(d: VoteDetail, i: nat)
    requires i < |Summary(d)|
    ensures var bs, r := BallotsOf(d), Summary(d)[i];
      && r.yes == CountIn(bs, r.party, Yes)
      && r.no == CountIn(bs, r.party, No)
      && r.abstain == CountIn(bs, r.party, Abstain)
      && r.notVoting == CountIn(bs, r.party, NotVoting)
  {
    var bs := BallotsOf(d);
    var st := Tally(bs);
    SummaryShape(d);
    var p := st.order[i];
    var c := st.counts[p];
    assert Summary(d)[i] == MakeRow(d, p, c);
    TallyCount(bs, p, Yes);
    TallyCount(bs, p, No);
    TallyCount(bs, p, Abstain);
    TallyCount(bs, p, NotVoting);
  }

  /** No party in the dictionary has all four counters at zero. */
  lemma {:induction false} TallyNonEmpty(bs: seq<Ballot>)
    ensures forall p :: p in Tally(bs).counts ==> Total(Tally(bs).counts[p]) >= 1
  {
    if bs != [] {
      TallyNonEmpty(bs[..|bs| - 1]);
    }
  }

  /** Every row counts at least one ballot. */
  lemma {:induction false} SummaryRowsNonEmpty(d: VoteDetail)
    ensures forall i :: 0 <= i < |Summary(d)| ==> RowTotal(Summary(d)[i]) >= 1
  {
    var st := Tally(BallotsOf(d));
    SummaryShape(d);
    TallyNonEmpty(BallotsOf(d));
    forall i | 0 <= i < |Summary(d)|
      ensures RowTotal(Summary(d)[i]) >= 1
    {
      assert Summary(d)[i] == MakeRow(d, st.order[i], st.counts[st.order[i]]);
    }
  }

  /** Row `i` is the row of the `i`-th dictionary key. */
  lemma {:induction false} SummaryShape(d: VoteDetail)
    ensures var st := Tally(BallotsOf(d));
      && Consistent(st)
      && |Summary(d)| == |st.order|
      && forall i :: 0 <= i < |st.order| ==> Summary(d)[i] == MakeRow(d, st.order[i], st.counts[st.order[i]])
  {
    var st := Tally(BallotsOf(d));
    TallyKeys(BallotsOf(d));
    RowsForAt(d, st.order, st.counts);
  }

  /** One row per distinct party seen among the ballots, and no party twice. */
  lemma {:induction false} SummaryParties(d: VoteDetail)
    ensures forall p :: p in Parties(BallotsOf(d)) <==>
      exists i :: 0 <= i < |Summary(d)| && Summary(d)[i].party == p
    ensures forall i, j :: 0 <= i < j < |Summary(d)| ==> Summary(d)[i].party != Summary(d)[j].party
  {
    var bs := BallotsOf(d);
    var st := Tally(bs);
    SummaryShape(d);
    TallyOrder(bs);
    forall p | p in Parties(bs)
      ensures exists i :: 0 <= i < |Summary(d)| && Summary(d)[i].party == p
    {
      var i :| 0 <= i < |st.order| && st.order[i] == p;
      assert Summary(d)[i].party == p;
    }
  }

  /** The rows come in the order in which their parties first appear among
      the ballots. */
  lemma {:induction false} SummaryFirstEncounter(d: VoteDetail)
    ensures forall i, j :: 0 <= i < j < |Summary(d)| ==>
      Summary(d)[i].party in Parties(BallotsOf(d)) && Summary(d)[j].party in Parties(BallotsOf(d)) &&
      FirstIndex(Parties(BallotsOf(d)), Summary(d)[i].party) < FirstIndex(Parties(BallotsOf(d)), Summary(d)[j].party)
  {
    var bs := BallotsOf(d);
    var st := Tally(bs);
    SummaryShape(d);
    TallyOrder(bs);
    forall i, j | 0 <= i < j < |Summary(d)|
      ensures Summary(d)[i].party in Parties(bs) && Summary(d)[j].party in Parties(bs)
      ensures FirstIndex(Parties(bs), Summary(d)[i].party) < FirstIndex(Parties(bs), Summary(d)[j].party)
    {
      assert Summary(d)[i].party == st.order[i] && Summary(d)[j].party == st.order[j];
    }
  }

  /** The counts of all rows together add up to the number of ballots. */
  lemma {:induction false} SummaryTotal(d: VoteDetail)
    ensures RowsTotal(Summary(d)) == |BallotsOf(d)|
  {
    var st := Tally(BallotsOf(d));
    TallyKeys(BallotsOf(d));
    RowsForTotal(d, st.order, st.counts);
    TallySum(BallotsOf(d));
  }

  /** A vote yields no rows exactly when its ballot list is missing or empty. */
  lemma {:induction false} SummaryEmpty(d: VoteDetail)
    ensures Summary(d) == [] <==> BallotsOf(d) == []
  {
    var bs := BallotsOf(d);
    if bs != [] {
      SummaryTotal(d);
    }
  }

  /** A ballot without a `club` key is tallied under "UNKNOWN"; one with a
      null club under the null key, a different row from "UNKNOWN". */
  lemma {:induction false} SummaryUnknownAndNull(d: VoteDetail, n: nat)
    requires n < |BallotsOf(d)|
    ensures BallotsOf(d)[n].club == ClubAbsent ==>
      exists i :: 0 <= i < |Summary(d)| && Summary(d)[i].party == Label(Unknown)
    ensures BallotsOf(d)[n].club == ClubNull ==>
      exists i :: 0 <= i < |Summary(d)| && Summary(d)[i].party == NullParty
  {
    SummaryParties(d);
    PartiesAt(BallotsOf(d), n);
    assert Parties(BallotsOf(d))[n] in Parties(BallotsOf(d));
  }

  lemma {:induction false} PartiesAt(bs: seq<Ballot>, n: nat)
    requires n < |bs|
    ensures Parties(bs)[n] == PartyOf(bs[n].club)
  {
    if n < |bs| - 1 {
      PartiesAt(bs[..|bs| - 1], n);
    }
  }
}
