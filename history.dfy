/**
 * get_player_history and get_num_fixtures once the player feed is data:
 * each record's fixture id is replaced by its matchweek through the fixture
 * map (an id the map lacks stays as it is), then the records are filtered
 * by that value.
 */
module History {
  import opened Wrappers
  import opened Frames
  import opened Fixtures

  /** One row of a player's `history` feed. */
  datatype Record = Record(fixture: int, minutes: int, totalPoints: int)

  /** `Series.replace(fix_dict)` on one fixture id: its matchweek when mapped, the id itself otherwise. */
  function Resolve(fixDict: map<int, int>, f: int): int {
    if f in fixDict then fixDict[f] else f
  }

  /** The map in use: the caller's when given, otherwise a fresh scan of the fixture list for the window. */
  function DictOrScan(fixDict: Option<map<int, int>>, fixtures: seq<Fixture>, lo: int, hi: int): map<int, int> {
    if fixDict.Some? then fixDict.value else FixtureDict(fixtures, lo, hi)
  }

  /** The mask `mw.isin(range(lo, hi + 1))` over a record's resolved matchweek. */
  function WindowMask(fixDict: map<int, int>, lo: int, hi: int): Record -> bool {
    (x: Record) => lo <= Resolve(fixDict, x.fixture) <= hi
  }

  /** The mask `mw == week` over a fixture id's resolved matchweek. */
  function WeekMask(fixDict: map<int, int>, week: int): int -> bool {
    (f: int) => Resolve(fixDict, f) == week
  }

  /**
   * get_player_history on the player's fetched `history` records. An empty
   * feed gives a frame without columns, so selecting `fixture` fails.
   */
  function PlayerHistory(records: seq<Record>, lo: int, hi: int, fixDict: Option<map<int, int>>,
                         fixtures: seq<Fixture>): (r: Result<seq<Record>, Error>)
    ensures records != [] <==> r.Ok?
    ensures r.Err? ==> r.error == MissingColumn("fixture")
    ensures r.Ok? ==> forall x :: x in r.value <==>
      x in records && lo <= Resolve(DictOrScan(fixDict, fixtures, lo, hi), x.fixture) <= hi
  {
    if records == [] then Err(MissingColumn("fixture"))
    else Ok(Select(records, WindowMask(DictOrScan(fixDict, fixtures, lo, hi), lo, hi)))
  }

  /**
   * The kept records are exactly those at the positions whose resolved
   * matchweek lies in the window, in their original relative order.
   */
  lemma PlayerHistoryInOrder(records: seq<Record>, lo: int, hi: int, fixDict: Option<map<int, int>>,
                             fixtures: seq<Fixture>)
    requires records != []
    ensures var kept := PlayerHistory(records, lo, hi, fixDict, fixtures).value;
            var d := DictOrScan(fixDict, fixtures, lo, hi);
            exists ix: seq<nat> :: Increasing(ix) && |ix| == |kept|
              && (forall k :: 0 <= k < |ix| ==> ix[k] < |records| && kept[k] == records[ix[k]])
              && (forall i :: 0 <= i < |records| ==> (i in ix <==> lo <= Resolve(d, records[i].fixture) <= hi))
  {
    var p := WindowMask(DictOrScan(fixDict, fixtures, lo, hi), lo, hi);
    SelectInOrder(records, p);
  }

  /**
   * The replacement leaves an unmapped id in place, so a fixture of
   * matchweek 1 whose id is 4 passes the window [3, 5]: the record is kept
   * although it was not played in the window.
   */
  lemma UnmappedIdReadAsMatchweek()
    ensures var fixtures := [Fixture(4, Some(1)), Fixture(25, Some(3))];
            var records := [Record(4, 90, 2)];
            PlayerHistory(records, 3, 5, None, fixtures) == Ok(records)
  {
    var fixtures := [Fixture(4, Some(1)), Fixture(25, Some(3))];
    assert fixtures[1..][1..] == [];
    var records := [Record(4, 90, 2)];
    assert FixtureDict(fixtures, 3, 5) == map[25 := 3];
    var p := WindowMask(DictOrScan(None, fixtures, 3, 5), 3, 5);
    assert p(records[0]);
    assert records[1..] == [];
    assert Select(records, p) == [records[0]] + Select([], p) == records;
  }

  /**
   * get_num_fixtures on the player's fetched `fixtures` ids: the number of
   * ids whose resolved matchweek equals `week`. An empty feed gives a frame
   * without columns, so selecting `id` fails.
   */
  function NumFixtures(ids: seq<int>, week: int, fixDict: Option<map<int, int>>,
                       fixtures: seq<Fixture>): (r: Result<nat, Error>)
    ensures ids != [] <==> r.Ok?
    ensures r.Err? ==> r.error == MissingColumn("id")
    ensures r.Ok? ==> r.value <= |ids|
    ensures r.Ok? ==> r.value == |WeekPositions(ids, DictOrScan(fixDict, fixtures, week, week), week)|
  {
    if ids == [] then Err(MissingColumn("id"))
    else
      var d := DictOrScan(fixDict, fixtures, week, week);
      WeekCount(ids, d, week);
      Ok(|Select(ids, WeekMask(d, week))|)
  }

  /** The positions of the ids whose resolved matchweek is `week`. */
  function WeekPositions(ids: seq<int>, d: map<int, int>, week: int): set<nat> {
    set i | 0 <= i < |ids| && Resolve(d, ids[i]) == week
  }

  lemma WeekCount(ids: seq<int>, d: map<int, int>, week: int)
    ensures |Select(ids, WeekMask(d, week))| == |WeekPositions(ids, d, week)|
  {
    var p := WeekMask(d, week);
    SelectCount(ids, p);
    assert Where(ids, p) == WeekPositions(ids, d, week);
  }
}
