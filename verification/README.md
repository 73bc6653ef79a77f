# Sejm roll-call party tally, modelled in Dafny

This project models the core of a scraper for the Polish Sejm's roll-call votes
(`sejm_scraper.py`). The model covers two pieces:

- **The party aggregator** `summarize_party_votes`. It takes one vote's detail object and fills a
  dictionary from party label to four counters (Yes, No, Abstain, Not Voting), one ballot at a time.
  Then it emits one row per party, in first-encounter order, and copies the vote's term, sitting,
  voting number, date and title into every row.
- **The driver** `scrape_sejm_votes`. It walks terms 7 to 10, and sessions 1, 2, … within each term
  until the first empty vote list. It fetches each listed vote's details, skips votes whose details
  are unavailable, and concatenates the summaries.

Modules:

- `Ballots` (`ballots.dfy`): the records as `dict.get` reads them, and the classification rules.
  `club` is three-way: the key is missing, present with null, or a label. `vote` is an optional
  string.
- `PartyTally` (`tally.dfy`): the specification of the dictionary. Python dicts keep insertion
  order, so the dictionary is a key sequence plus a map. The file also holds reference definitions
  that do not use the dictionary: `Parties`, `CountIn` and `FirstIndex`. The lemmas connect the
  dictionary to them.
- `Summarize` (`summarize.dfy`): `summarize_party_votes` as a method. Its two loops update a local
  `map` and `seq` in place, and it is proved equal to the specification `Summary`.
- `Scrape` (`scrape.dfy`): the driver. The two HTTP fetches become lookups in an `Api` value:
  - per term, the vote lists of sessions 1..n; any later session answers with an empty list;
  - a map from (term, session, voting number) to the detail objects that could be fetched.

  The source's three nested loops are three methods:
  - `ScrapeSejmVotes`: the terms;
  - `ScrapeTerm`: the `while True` loop over sessions;
  - `ScrapeSession`: the loop over one session's votes.

  Each method is proved against the enumeration functions.

A missing club and a null club are different keys. `v.get('club', 'UNKNOWN')` (sejm_scraper.py:52)
substitutes "UNKNOWN" only when the key is missing. A null club stays the key `None`, so the model
keeps `NullParty` apart from `Label("UNKNOWN")`.

## Model

| member | source | states |
|---|---|---|
| `Ballots.PartyOf` | sejm_scraper.py:52 | the party key is the null key exactly when the club is null; a present label is kept unchanged |
| `Ballots.UnknownKey` | sejm_scraper.py:52 | "UNKNOWN" is the key exactly for a missing club or a club literally labelled "UNKNOWN"; null is never merged into it |
| `Ballots.ClassifyExact` | sejm_scraper.py:57-64 | only the exact strings "YES", "NO", "ABSTAIN" reach Yes, No, Abstain; every other value, a missing or null vote included, is Not Voting (both directions) |
| `Ballots.Bump` | sejm_scraper.py:57-64 | one increment raises a party's total by exactly one |
| `Ballots.BumpOneCounter` | sejm_scraper.py:57-64 | an increment raises exactly the selected counter by one and leaves the other three unchanged |
| `PartyTally.StepIncrementsOneCounter` | sejm_scraper.py:54-64 | handling one ballot adds one to exactly the counter its decision selects, of exactly its party; a new party gets zero counters and is appended to the key order; every other party's counters are unchanged |
| `PartyTally.StepCountsOf` | sejm_scraper.py:54-64 | after one ballot, its party's counters (zero if it was new) are bumped in its decision's bucket and every other party's counters are unchanged |
| `PartyTally.TallyKeys` | sejm_scraper.py:54-55 | the key order lists every dictionary key exactly once |
| `PartyTally.TallyParties` | sejm_scraper.py:52-55 | a party is a dictionary key exactly when some ballot is tallied under it |
| `PartyTally.TallyCount` | sejm_scraper.py:50-64 | any party's counter for any decision (zero for a party never seen) is the number of its ballots with that decision |
| `PartyTally.TallyNonEmpty` | sejm_scraper.py:54-64 | every key in the dictionary has counted at least one ballot |
| `PartyTally.TallyOrder` | sejm_scraper.py:54-55 | the key order holds exactly the parties seen, ordered by where each party first appears among the ballots |
| `PartyTally.TallySum` | sejm_scraper.py:51-64 | the four counters summed over all parties equal the number of ballots |
| `PartyTally.SummaryShape` | sejm_scraper.py:66-78 | row `i` is the row of the `i`-th dictionary key, with that key's counters |
| `PartyTally.SummaryMetadata` | sejm_scraper.py:67-72 | every row carries the input's term, sitting, voting number, date and title unchanged |
| `PartyTally.SummaryCounts` | sejm_scraper.py:73-77 | each row's Yes, No, Abstain and Not Voting are the counts of that party's ballots with each decision |
| `PartyTally.RowCounts` | sejm_scraper.py:73-77 | one row's four counts are its party's ballot counts per decision |
| `PartyTally.SummaryRowsNonEmpty` | sejm_scraper.py:54-64 | every row counts at least one ballot |
| `PartyTally.SummaryParties` | sejm_scraper.py:66-78 | there is a row for a party exactly when some ballot is tallied under it, and no party has two rows |
| `PartyTally.SummaryFirstEncounter` | sejm_scraper.py:54-66 | rows come in the order in which their parties first appear among the ballots |
| `PartyTally.SummaryTotal` | sejm_scraper.py:51-78 | the counts of all rows together equal the number of ballots |
| `PartyTally.SummaryEmpty` | sejm_scraper.py:43-66 | the result is empty exactly when the `votes` list is missing or empty |
| `PartyTally.SummaryUnknownAndNull` | sejm_scraper.py:52 | a ballot without a club yields an "UNKNOWN" row; a ballot with a null club yields a row under the null key |
| `Summarize.CountDecision` | sejm_scraper.py:57-64 | the if/elif chain adds the decision to the counter `Classify` selects |
| `Summarize.CountBallots` | sejm_scraper.py:50-64 | the ballot loop leaves the dictionary and its key order equal to `Tally` of the ballots |
| `Summarize.EmitRows` | sejm_scraper.py:66-78 | the row loop yields one row per key, in key order, with that key's counters and the vote's metadata |
| `Summarize.SummarizePartyVotes` | sejm_scraper.py:38-79 | the two loops together produce exactly `Summary` of the input, about which the `PartyTally` lemmas state counts, order, coverage and metadata |
| `Scrape.VotesForSession` | sejm_scraper.py:10-22 | a session past the supplied vote lists answers with an empty list |
| `Scrape.SessionKeysAre` | sejm_scraper.py:94-96 | a session's detail requests are one per listed vote, in list order, keyed by the listed voting number |
| `Scrape.ScrapeSession` | sejm_scraper.py:94-100 | the loop over a session's votes appends the summaries of exactly its votes with available details, in order |
| `Scrape.ScrapeTerm` | sejm_scraper.py:88-101 | the session loop visits sessions 1, 2, … and stops at the first empty vote list |
| `Scrape.ScrapeSejmVotes` | sejm_scraper.py:81-102 | the whole run yields the concatenation, in request order, of the summaries of the requested votes |
| `Scrape.EnumerateBounds` | sejm_scraper.py:86-96 | every request is for terms 7 to 10, for a session reached through non-empty vote lists only (nothing at or after a term's first empty session is requested), and for a voting number listed in that session; with `EnumerateComplete` this makes the requests exactly the listed votes of the reached sessions |
| `Scrape.EnumerateComplete` | sejm_scraper.py:86-96 | every vote listed in a reached session of terms 7 to 10 has its details requested |
| `Scrape.EnumerateInOrder` | sejm_scraper.py:86-101 | terms are visited in increasing order, and sessions in increasing order within a term |
| `Scrape.LaterSessionsIgnored` | sejm_scraper.py:89-92 | once a term's session answers with an empty list, what that term's later sessions would answer does not change the output |
| `Scrape.ScrapeProvenance` | sejm_scraper.py:95-99 | every output row is a row of the summary of a requested vote whose details were available |

## Left out

- HTTP requests, status-code checks, exception handling and JSON decoding in `get_votes_for_session` and `get_vote_details` (sejm_scraper.py:10-36) are network I/O. Their results are supplied in the `Api` value. A failed or non-200 session request is the empty list, and so is any falsy response, which `if not votes_list:` treats alike.
- Scrape.VoteDetails has no contract of its own: it is the lookup that stands for `get_vote_details` (sejm_scraper.py:24-36) followed by the `if details:` test (sejm_scraper.py:97). A failed or non-200 request (`None`) and an empty detail object `{}` are both "not in `details`", so both give `None` and the vote is skipped; `ScrapeSession` and `ScrapeProvenance` state what follows from it.
- Detail fetches are a map keyed by (term, session, voting number). A voting number listed twice in one session therefore gets the same answer both times, whereas two live requests could differ.
- `time.sleep(random.uniform(0.3, 0.8))` is a randomised courtesy delay with no effect on the result.
- The `print` progress messages and the `tqdm` progress bar are output only.
- Building the pandas DataFrame and writing the CSV file (sejm_scraper.py:104-108) is file I/O through a library that is not part of this model.
- The unbounded `while True` session loop terminates here because every session past the supplied lists answers with an empty list. Against a live API its termination cannot be shown.
- JSON values of other types are not modelled. On each of these the source raises an exception and the run stops:
  - a `votes` key present but null (iterating `None` at sejm_scraper.py:51);
  - a detail response that is not an object (`vote_json.get` at sejm_scraper.py:43);
  - a truthy vote-list response that is not an array (iterated at sejm_scraper.py:94 and then `vote.get` on its elements);
  - vote-list entries that are not objects (`vote.get` at sejm_scraper.py:95);
  - ballots that are not objects (`v.get` at sejm_scraper.py:52-53);
  - a `club` value that is a list or an object (unhashable as a dictionary key at sejm_scraper.py:54). Other non-string club values (numbers, booleans) would be keys of their own; the model's labels are strings only.
  `vote` is `Option<string>`. A non-string decision behaves like any string other than the three recognised ones, so it is Not Voting either way.
- The metadata fields are typed `Option<int>` and `Option<string>`, as the API sends them. The code copies them without inspecting them.
- Determinism and idempotence (the same input gives the same rows) hold by construction: `Summary` and `Scrape` are functions.
