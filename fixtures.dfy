/**
 * construct_fixture_dict: the map from fixture id to matchweek, built by
 * one pass over the fixture list that skips unscheduled fixtures and
 * fixtures before the window, and stops at the first fixture past it.
 */
module Fixtures {
  import opened Wrappers

  /** One record of the fixtures feed: its id and its matchweek (`event`), None while unscheduled. */
  datatype Fixture = Fixture(id: int, event: Option<int>)

  /** The scan stores this fixture: it is scheduled inside [lo, hi]. */
  predicate InWindow(f: Fixture, lo: int, hi: int) {
    f.event.Some? && lo <= f.event.value <= hi
  }

  /** The scan returns at this fixture: it is scheduled, not before lo, and past hi. */
  predicate EndsScan(f: Fixture, lo: int, hi: int) {
    f.event.Some? && f.event.value >= lo && f.event.value > hi
  }

  /**
   * The map the scan returns. A fixture id seen twice keeps the matchweek
   * of its later occurrence, as a dict assignment does.
   */
  function FixtureDict(fs: seq<Fixture>, lo: int, hi: int): map<int, int>
  {
    if fs == [] || EndsScan(fs[0], lo, hi) then map[]
    else if InWindow(fs[0], lo, hi) then map[fs[0].id := fs[0].event.value] + FixtureDict(fs[1..], lo, hi)
    else FixtureDict(fs[1..], lo, hi)
  }

  /** The index of the fixture at which the scan returns, or |fs| when it reaches the end. */
  function ScanEnd(fs: seq<Fixture>, lo: int, hi: int): (n: nat)
    ensures n <= |fs|
    ensures forall i :: 0 <= i < n ==> !EndsScan(fs[i], lo, hi)
    ensures n < |fs| ==> EndsScan(fs[n], lo, hi)
  {
    if fs == [] || EndsScan(fs[0], lo, hi) then 0 else 1 + ScanEnd(fs[1..], lo, hi)
  }

  method ConstructFixtureDict(fs: seq<Fixture>, lo: int, hi: int) returns (d: map<int, int>)
    ensures d == FixtureDict(fs, lo, hi)
    ensures forall k :: k in d ==> lo <= d[k] <= hi
  {
    FixtureDictValuesInWindow(fs, lo, hi);
    d := map[];
    for i := 0 to |fs|
      invariant FixtureDict(fs, lo, hi) == d + FixtureDict(fs[i..], lo, hi)
    {
      var fix := fs[i];
      assert fs[i..][1..] == fs[i + 1..];
      if fix.event != None {
        if fix.event.value >= lo {
          if fix.event.value > hi {
            assert d + map[] == d;
            return;
          } else {
            d := d[fix.id := fix.event.value];
          }
        }
      }
    }
    assert d + map[] == d;
  }

  /** Every matchweek the map stores lies in [lo, hi]. */
  lemma {:induction false} FixtureDictValuesInWindow(fs: seq<Fixture>, lo: int, hi: int)
    ensures forall k :: k in FixtureDict(fs, lo, hi) ==> lo <= FixtureDict(fs, lo, hi)[k] <= hi
  {
    if fs != [] {
      FixtureDictValuesInWindow(fs[1..], lo, hi);
    }
  }

  /**
   * An id is a key of the map exactly when some fixture before the one that
   * ends the scan carries it and is scheduled inside the window; an
   * unscheduled fixture, or one at or after the end of the scan, adds nothing.
   */
  lemma {:induction false} FixtureDictKeys(fs: seq<Fixture>, lo: int, hi: int, k: int)
    ensures k in FixtureDict(fs, lo, hi) <==>
      exists i :: 0 <= i < ScanEnd(fs, lo, hi) && fs[i].id == k && InWindow(fs[i], lo, hi)
  {
    if fs != [] && !EndsScan(fs[0], lo, hi) {
      FixtureDictKeys(fs[1..], lo, hi, k);
      if k in FixtureDict(fs, lo, hi) && !(fs[0].id == k && InWindow(fs[0], lo, hi)) {
        var i :| 0 <= i < ScanEnd(fs[1..], lo, hi) && fs[1..][i].id == k && InWindow(fs[1..][i], lo, hi);
        assert fs[i + 1] == fs[1..][i];
      }
      if exists i :: 0 <= i < ScanEnd(fs, lo, hi) && fs[i].id == k && InWindow(fs[i], lo, hi) {
        var i :| 0 <= i < ScanEnd(fs, lo, hi) && fs[i].id == k && InWindow(fs[i], lo, hi);
        if i > 0 {
          assert fs[1..][i - 1] == fs[i];
        }
      }
    }
  }

  /**
   * The matchweek stored for an id is that of its last in-window occurrence
   * before the end of the scan.
   */
  lemma {:induction false} FixtureDictLastWins(fs: seq<Fixture>, lo: int, hi: int, i: nat)
    requires i < ScanEnd(fs, lo, hi) && InWindow(fs[i], lo, hi)
    requires forall j :: i < j < ScanEnd(fs, lo, hi) && fs[j].id == fs[i].id ==> !InWindow(fs[j], lo, hi)
    ensures fs[i].id in FixtureDict(fs, lo, hi)
    ensures FixtureDict(fs, lo, hi)[fs[i].id] == fs[i].event.value
  {
    var k := fs[i].id;
    if i == 0 {
      FixtureDictKeys(fs[1..], lo, hi, k);
    } else {
      assert fs[1..][i - 1] == fs[i];
      forall j | i - 1 < j < ScanEnd(fs[1..], lo, hi) && fs[1..][j].id == k
        ensures !InWindow(fs[1..][j], lo, hi)
      {
        assert fs[1..][j] == fs[j + 1];
      }
      FixtureDictLastWins(fs[1..], lo, hi, i - 1);
    }
  }

  /**
   * Nothing after the fixture that ends the scan can reach the map, whatever
   * follows it.
   */
  lemma {:induction false} FixtureDictStopsAtEnd(fs: seq<Fixture>, lo: int, hi: int, more: seq<Fixture>)
    requires ScanEnd(fs, lo, hi) < |fs|
    ensures FixtureDict(fs[..ScanEnd(fs, lo, hi) + 1] + more, lo, hi) == FixtureDict(fs, lo, hi)
  {
    var n := ScanEnd(fs, lo, hi);
    if n == 0 {
      assert (fs[..1] + more)[0] == fs[0];
    } else {
      assert (fs[..n + 1] + more)[0] == fs[0];
      assert (fs[..n + 1] + more)[1..] == fs[1..][..ScanEnd(fs[1..], lo, hi) + 1] + more;
      FixtureDictStopsAtEnd(fs[1..], lo, hi, more);
    }
  }

  /** Scheduled fixtures appear in non-decreasing matchweek order. */
  predicate SortedByEvent(fs: seq<Fixture>) {
    forall a, b :: 0 <= a < b < |fs| && fs[a].event.Some? && fs[b].event.Some? ==>
      fs[a].event.value <= fs[b].event.value
  }

  /** The map without the early return: every scheduled fixture inside the window, the last occurrence winning. */
  function WindowDict(fs: seq<Fixture>, lo: int, hi: int): map<int, int>
  {
    if fs == [] then map[]
    else if InWindow(fs[0], lo, hi) then map[fs[0].id := fs[0].event.value] + WindowDict(fs[1..], lo, hi)
    else WindowDict(fs[1..], lo, hi)
  }

  /**
   * When the feed lists scheduled fixtures in matchweek order, the early
   * return loses nothing: the scan's map is the full in-window map.
   */
  lemma {:induction false} SortedScanIsFullWindow(fs: seq<Fixture>, lo: int, hi: int)
    requires SortedByEvent(fs)
    ensures FixtureDict(fs, lo, hi) == WindowDict(fs, lo, hi)
  {
    if fs != [] {
      assert SortedByEvent(fs[1..]) by {
        forall a, b | 0 <= a < b < |fs[1..]| && fs[1..][a].event.Some? && fs[1..][b].event.Some?
          ensures fs[1..][a].event.value <= fs[1..][b].event.value
        {
          assert fs[1..][a] == fs[a + 1] && fs[1..][b] == fs[b + 1];
        }
      }
      if EndsScan(fs[0], lo, hi) {
        NothingInWindowAfter(fs[1..], lo, hi, fs[0].event.value);
      } else {
        SortedScanIsFullWindow(fs[1..], lo, hi);
      }
    }
  }

  lemma {:induction false} NothingInWindowAfter(fs: seq<Fixture>, lo: int, hi: int, e: int)
    requires e > hi
    requires forall b :: 0 <= b < |fs| && fs[b].event.Some? ==> e <= fs[b].event.value
    ensures WindowDict(fs, lo, hi) == map[]
  {
    if fs != [] {
      NothingInWindowAfter(fs[1..], lo, hi, e);
    }
  }
}
