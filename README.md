# Fantasy Premier League squad helpers, modelled in Dafny

This project models the squad logic of `helper_functions.py`, with the
network fetches replaced by plain data:

- the fixtures feed is a sequence of `Fixture(id, event)` records, `event`
  being `None` while a fixture is unscheduled;
- a player's `history` feed is a sequence of `Record(fixture, minutes,
  totalPoints)`, and a player's `fixtures` feed is a sequence of fixture ids;
- the squad (`df_team`) is a sequence of `SquadEntry(id, elementType, start,
  captain)`; the DataFrame index labels are the row positions, and the
  working frames `df_on` and `df_bench` are sequences of labels.

The modules follow the source:

- `Lineup` is `check_lineup`.
- `Fixtures` is `construct_fixture_dict`: the function `FixtureDict`
  specifies the scan (unscheduled fixtures skipped, fixtures before the
  window skipped, a return at the first fixture past the window). The method
  `ConstructFixtureDict` is the loop itself, with its early `return`.
- `History` is the filter of `get_player_history` and the count of
  `get_num_fixtures`. Each fixture id is resolved through the map the way
  `Series.replace(dict)` does it: an id the map lacks stays as it is.
- `TeamScore` is `get_team_score`. The functions `KeepPlayed`, `FirstLegal`,
  `SubStep`, `Substitute`, `FinalLineup`, `Score` and `TeamScore` specify
  it. The methods `DropIdleBench` (the bench loop), `FindSubstitute` (the
  `pass_next` scan), `Substitutions` (the starters loop), `SumScore` (the
  scoring loop) and `GetTeamScore` are the loops themselves, each proved
  equal to its specification.
- `Frames` holds the DataFrame operations the rest relies on: mask
  selection (which keeps row order), the labels a mask selects, and
  `drop(label)`.

The pandas `KeyError`s the source can raise are part of the model as
`Err` results:

- An empty `history` or `fixtures` feed gives a frame with no columns, so
  selecting `fixture` or `id` fails (`MissingColumn`).
- `counts[k]` fails for the first position code of 1 to 4 that the
  prospective eleven lacks (`MissingLabel`).
- `get_team_score` propagates the first of these it meets, in the
  source's evaluation order.

`get_team_score` reads each player's matchweek history through
`get_player_history(pid, mw, mw)`. The model passes this in as a function
from player id to result (`Feed`). `MatchweekHistory` builds it from the
upstream feeds with `PlayerHistory`.

The squad is a value, so the caller's `df_team` is never changed. This is
the effect of the `.copy()` calls at lines 234-235.

Behaviours of the code worth knowing, each proved or shown in the model:

- A bench player without minutes is dropped before any substitution
  (helper_functions.py:238-241). `FinalEleven` proves that no such player
  ever reaches the eleven.
- `counts[k]` raises `KeyError` when a prospective eleven lacks a position
  (helper_functions.py:262-263). The model returns `Err(MissingLabel(k))`
  (`PositionCounts`, `FirstLegal`).
- A starter without minutes who gets no legal substitute stays on and is
  scored (helper_functions.py:244-274). `FirstMatchRule` proves the eleven is
  unchanged then, and `FinalEleven` that it keeps as many players as there
  were starters.
- `replace` keeps an unmapped fixture id, which is then compared with the
  window as though it were a matchweek (helper_functions.py:90-93).
  `UnmappedIdReadAsMatchweek` shows a record kept this way.

## Model

| member | source | states |
|---|---|---|
| Lineup.CheckLineup | helper_functions.py:202-210 | legal exactly when the four counts sum to 11, there is one goalkeeper, 3 to 5 defenders, at most 5 midfielders and 1 to 5 forwards |
| Lineup.LegalMidfield | helper_functions.py:202-210 | a legal eleven has between 0 and 5 midfielders although no lower bound is checked, and between 5 and 10 defenders and forwards |
| Fixtures.FixtureDict | helper_functions.py:48-62 | the specification of the scan: unscheduled fixtures and fixtures before mw_start are skipped, the first fixture past mw_end ends it, and a later occurrence of an id overwrites an earlier one; its meaning is proved by the `FixtureDict*` lemmas below |
| Fixtures.ConstructFixtureDict | helper_functions.py:28-62 | the loop with its early return builds exactly the map `FixtureDict` specifies, and every matchweek it stores lies in [mw_start, mw_end] |
| Fixtures.ScanEnd | helper_functions.py:48-57 | the scan returns at the first scheduled fixture with matchweek at least mw_start and past mw_end, and at no fixture before it |
| Fixtures.FixtureDictValuesInWindow | helper_functions.py:53-60 | every value in the map lies in [mw_start, mw_end] |
| Fixtures.FixtureDictKeys | helper_functions.py:48-60 | an id is a key exactly when a fixture before the end of the scan carries it and is scheduled inside the window, so an unscheduled fixture never adds a key |
| Fixtures.FixtureDictLastWins | helper_functions.py:60 | the value stored for an id is the matchweek of its last in-window occurrence before the end of the scan |
| Fixtures.FixtureDictStopsAtEnd | helper_functions.py:56-57 | fixtures after the one that ends the scan never reach the map, whatever they are |
| Fixtures.SortedScanIsFullWindow | helper_functions.py:48-62 | when scheduled fixtures come in matchweek order, the early return loses nothing: the map is every in-window fixture |
| Frames.Select | helper_functions.py:93 | a mask selection keeps exactly the elements the mask accepts, never more than there were |
| Frames.SelectInOrder | helper_functions.py:93 | a mask selection is the elements at the accepted positions, in increasing position order |
| Frames.Drop | helper_functions.py:241 | `drop(label)` removes that label and keeps every other, leaves a frame without it unchanged, and shortens a frame of distinct labels by one |
| Frames.DropAppend | helper_functions.py:241 | dropping a label from two frames joined is joining the two frames with the label dropped |
| History.Resolve | helper_functions.py:90 | `Series.replace(fix_dict)` on one fixture id (also line 310): the map's matchweek for a mapped id, the id itself otherwise; `UnmappedIdReadAsMatchweek` shows the consequence |
| History.PlayerHistory | helper_functions.py:68-95 | an empty history fails on the missing `fixture` column; otherwise a record is kept exactly when its resolved matchweek (the map's value, or the fixture id itself when unmapped) lies in [mw_start, mw_end] |
| History.PlayerHistoryInOrder | helper_functions.py:90-93 | the kept records are those at the in-window positions, in their original relative order |
| History.UnmappedIdReadAsMatchweek | helper_functions.py:90-93 | a record whose fixture id 4 is missing from the map is kept for the window [3, 5], although its fixture was in matchweek 1 |
| History.NumFixtures | helper_functions.py:285-317 | an empty fixtures feed fails on the missing `id` column; otherwise the count is the number of positions whose resolved matchweek equals mw, at most the number of fixtures |
| TeamScore.StarterRows | helper_functions.py:234 | the labels of the rows with `start == 1`, in squad order |
| TeamScore.BenchRows | helper_functions.py:235 | the labels of the rows with `start != 1`, in squad order |
| TeamScore.Played | helper_functions.py:239-240 | whether a row's player has a nonzero `minutes` sum in the matchweek (also lines 245-246), or that player's history error |
| TeamScore.KeepPlayed | helper_functions.py:238-241 | the specification of the bench loop: the bench rows whose player has minutes, in order, or the first history error; characterised by `KeepPlayedMembers` |
| TeamScore.KeepPlayedMembers | helper_functions.py:238-241 | the bench loop fails exactly when some bench player's history fails; otherwise it keeps exactly the bench players with nonzero minutes, each once |
| TeamScore.DropIdleBench | helper_functions.py:238-241 | the loop that drops bench rows in place gives the bench `KeepPlayed` specifies |
| TeamScore.PositionCounts | helper_functions.py:262-263 | the four position counts, or the KeyError of the first position code of 1 to 4 the eleven lacks |
| TeamScore.FirstLegal | helper_functions.py:254-266 | the first bench position whose prospective eleven passes check_lineup, with every earlier one failing; None when all fail; otherwise the KeyError of the first incomplete prospect |
| TeamScore.FirstMatchRule | helper_functions.py:247-266 | the first bench player whose prospective eleven is legal replaces the starter and leaves the bench, and the new eleven is legal; when no prospect is legal nothing changes |
| TeamScore.SubStep | helper_functions.py:247-266 | the specification of one substitution: the eleven without the starter plus the first bench player that makes it legal, who leaves the bench, or both unchanged; characterised by `FirstMatchRule` and `SubStepInv` |
| TeamScore.FindSubstitute | helper_functions.py:250-266 | the `pass_next` scan commits the substitution `SubStep` specifies |
| TeamScore.SubStepInv | helper_functions.py:256-265 | a substitution keeps the eleven's size and everyone on it but the visited starter; any player it adds comes from the bench, and when the eleven changes the visited starter has left it; the bench only loses players; eleven and bench stay disjoint with each player once |
| TeamScore.SubstituteKeeps | helper_functions.py:244-266 | from any state where eleven and bench are disjoint, each player appears once, every starter still to visit is on, and every player on the field or bench is a starter or a kept bench player: the loop ends in such a state, the eleven keeps its size, no player whose turn is past leaves, and every starter still to visit who has minutes stays |
| TeamScore.Substitute | helper_functions.py:244-266 | the specification of the starters loop, visiting starters in order with a history error first and an empty bench skipped; characterised by `SubstituteKeeps` |
| TeamScore.Substitutions | helper_functions.py:244-266 | the starters loop gives the eleven and bench `Substitute` specifies |
| TeamScore.FinalLineup | helper_functions.py:234-266 | the eleven that is scored: the bench loop, then the starters loop from the starters and the kept bench; every label it holds is a squad row |
| TeamScore.FinalEleven | helper_functions.py:234-266 | the scored eleven has as many players as there were starters, each once; each non-starter on it has nonzero minutes; every starter with minutes is on it |
| TeamScore.Score | helper_functions.py:268-274 | the specification of the scoring loop: each row's `total_points` sum times one plus its captain flag, summed, or the first row's history error; characterised by `ScoreFails`, `ScoreStep` and `ScoreWithout` |
| TeamScore.ScoreFails | helper_functions.py:268-274 | the scoring loop fails exactly when the history of some player on the eleven fails |
| TeamScore.ScoreStep | helper_functions.py:268-274 | one turn of the scoring loop adds the row's `total_points` sum times one plus its captain flag, or ends with that row's error |
| TeamScore.ScoreWithout | helper_functions.py:268-274 | every player of a scored eleven contributes once: the score is their `total_points` sum times one plus their captain flag, plus the score of the eleven without them |
| TeamScore.SumScore | helper_functions.py:268-274 | the scoring loop gives the score `Score` specifies |
| TeamScore.TeamScore | helper_functions.py:218-276 | the specification of get_team_score: the score of `FinalLineup` over the matchweek histories |
| TeamScore.GetTeamScore | helper_functions.py:218-276 | the whole procedure gives `TeamScore`: the score of the eleven left after the bench loop and the substitutions |

## Left out

- The HTTP requests and JSON decoding (helper_functions.py:44-46, 82-84, 120-122, 302-304) are network I/O. The fixtures feed and each player's feeds are inputs instead.
- The feeds are assumed to return the same data on every fetch during one scoring run. `get_team_score` fetches a player's history more than once.
- `create_json_dict` (helper_functions.py:334-358) writes files and formats dates. It is pure I/O.
- `get_positional_averages` (helper_functions.py:110-164) and `calc_overachievement` (helper_functions.py:172-194) are left out. They are floating-point averages over string-to-float coercions.
- The module-level script calls and player id lists (helper_functions.py:102, 323, 364-370) are not part of this model. Nor are the scheduler loop in collect_jsons.py and the scripts in player_outputs.py.
- The column checks at helper_functions.py:230-231 and the `col_id` and `col_start` parameters are left out. The squad's columns are record fields, so they are always present.
- `Series.replace(dict)` is modelled as one lookup per value, not chained through the map.
- The squad frame's index is taken to be its row numbering, so every label is unique. A frame with repeated labels, where one `drop` removes several rows, is not modelled.
- The `DataFrame.drop` `KeyError` for an absent label is not modelled. The loops only drop labels they hold.
- The dtype of pandas columns is not modelled. Matchweeks, minutes and points are unbounded integers.
