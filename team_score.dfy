/**
 * get_team_score: split the squad into starters and bench, drop bench
 * players without minutes, replace each starter without minutes by the
 * first remaining bench player that keeps the eleven legal, and sum the
 * points of the final eleven, the captain's counting twice.
 *
 * Frames are sequences of row labels into the squad (the DataFrame index),
 * so `df.drop(label)` is `Drop` and row order is kept.
 */
module TeamScore {
  import opened Wrappers
  import opened Frames
  import opened Fixtures
  import opened History
  import opened Lineup

  /** One row of df_team: player id, position code (`element_type`), `start` and `captain`. */
  datatype SquadEntry = SquadEntry(id: int, elementType: int, start: int, captain: int)

  /** The upstream feeds: the fixture list, and each player's `history` records by player id. */
  datatype Upstream = Upstream(fixtures: seq<Fixture>, history: int -> seq<Record>)

  /** The position counts check_lineup takes. */
  datatype Counts = Counts(gks: nat, defs: nat, mids: nat, fwds: nat)

  /**
   * Every label in `rows` is a row of the squad. The membership form serves
   * the frame reasoning (`in`, `Drop`), the positional form the loops over
   * indices; ValidByMembership derives the second from the first.
   */
  predicate ValidRows(squad: seq<SquadEntry>, rows: seq<nat>) {
    && (forall r :: r in rows ==> r < |squad|)
    && (forall k :: 0 <= k < |rows| ==> rows[k] < |squad|)
  }

  lemma ValidByMembership(squad: seq<SquadEntry>, rows: seq<nat>)
    requires forall r :: r in rows ==> r < |squad|
    ensures ValidRows(squad, rows)
  {
    forall k | 0 <= k < |rows| ensures rows[k] < |squad| {
      assert rows[k] in rows;
    }
  }

  lemma ValidSuffix(squad: seq<SquadEntry>, rows: seq<nat>, i: nat)
    requires ValidRows(squad, rows) && i <= |rows|
    ensures ValidRows(squad, rows[i..])
  {
    assert forall k :: 0 <= k < |rows| - i ==> rows[i..][k] == rows[i + k];
  }

  /** The labels of the rows with `start == 1`, in squad order. */
  function StarterRows(squad: seq<SquadEntry>): (rows: seq<nat>)
    ensures Increasing(rows) && ValidRows(squad, rows)
    ensures forall i :: 0 <= i < |squad| ==> (i in rows <==> squad[i].start == 1)
  {
    Positions(squad, (e: SquadEntry) => e.start == 1)
  }

  /** The labels of the rows with `start != 1`, in squad order. */
  function BenchRows(squad: seq<SquadEntry>): (rows: seq<nat>)
    ensures Increasing(rows) && ValidRows(squad, rows)
    ensures forall i :: 0 <= i < |squad| ==> (i in rows <==> squad[i].start != 1)
  {
    Positions(squad, (e: SquadEntry) => e.start != 1)
  }

  /** A player's matchweek history by player id: the result of get_player_history(pid, mw, mw). */
  type Feed = int -> Result<seq<Record>, Error>

  /** get_player_history(pid, mw, mw) on the upstream feeds, its fixture map scanned for that matchweek. */
  function MatchweekHistory(mw: int, api: Upstream): Feed {
    (pid: int) => PlayerHistory(api.history(pid), mw, mw, None, api.fixtures)
  }

  /** The matchweek history of the player on row `r`. */
  function RowHistory(squad: seq<SquadEntry>, feed: Feed, r: nat): Result<seq<Record>, Error>
    requires r < |squad|
  {
    feed(squad[r].id)
  }

  function TotalMinutes(records: seq<Record>): int {
    if records == [] then 0 else records[0].minutes + TotalMinutes(records[1..])
  }

  function TotalPoints(records: seq<Record>): int {
    if records == [] then 0 else records[0].totalPoints + TotalPoints(records[1..])
  }

  /** Whether the player on row `r` has a nonzero `minutes` sum in the matchweek. */
  function Played(squad: seq<SquadEntry>, feed: Feed, r: nat): Result<bool, Error>
    requires r < |squad|
  {
    var records :- RowHistory(squad, feed, r);
    Ok(TotalMinutes(records) != 0)
  }

  /** The bench after its first loop: the rows whose player has minutes, in order. */
  function KeepPlayed(squad: seq<SquadEntry>, feed: Feed, rows: seq<nat>): (r: Result<seq<nat>, Error>)
    requires ValidRows(squad, rows)
    ensures r.Ok? ==> ValidRows(squad, r.value)
  {
    if rows == [] then Ok([])
    else
      var played :- Played(squad, feed, rows[0]);
      var rest :- KeepPlayed(squad, feed, rows[1..]);
      var kept := if played then [rows[0]] + rest else rest;
      ValidByMembership(squad, kept);
      Ok(kept)
  }

  /**
   * The bench loop fails exactly when some bench player's history fails;
   * otherwise it keeps exactly the rows whose player has minutes, each once.
   */
  lemma {:induction false} KeepPlayedMembers(squad: seq<SquadEntry>, feed: Feed, rows: seq<nat>)
    requires ValidRows(squad, rows)
    ensures KeepPlayed(squad, feed, rows).Ok? <==>
      forall x :: x in rows ==> x < |squad| && Played(squad, feed, x).Ok?
    ensures KeepPlayed(squad, feed, rows).Ok? ==> forall x :: x in KeepPlayed(squad, feed, rows).value <==>
      x in rows && x < |squad| && Played(squad, feed, x) == Ok(true)
    ensures KeepPlayed(squad, feed, rows).Ok? && Distinct(rows) ==> Distinct(KeepPlayed(squad, feed, rows).value)
  {
    if rows != [] {
      KeepPlayedMembers(squad, feed, rows[1..]);
      assert forall x :: x in rows <==> x == rows[0] || x in rows[1..];
      assert Distinct(rows) ==> Distinct(rows[1..]) && rows[0] !in rows[1..];
    }
  }

  /** How many of `rows` hold a player with position code `code`. */
  function CountOf(squad: seq<SquadEntry>, rows: seq<nat>, code: int): (n: nat)
    requires ValidRows(squad, rows)
    ensures n <= |rows|
  {
    if rows == [] then 0
    else (if squad[rows[0]].elementType == code then 1 else 0) + CountOf(squad, rows[1..], code)
  }

  /**
   * `value_counts()` then `counts[1]`, …, `counts[4]`: the first code no
   * row holds raises KeyError.
   */
  function PositionCounts(squad: seq<SquadEntry>, rows: seq<nat>): (r: Result<Counts, Error>)
    requires ValidRows(squad, rows)
    ensures r.Ok? <==> (CountOf(squad, rows, 1) > 0 && CountOf(squad, rows, 2) > 0
                        && CountOf(squad, rows, 3) > 0 && CountOf(squad, rows, 4) > 0)
    ensures r.Ok? ==> r.value == Counts(CountOf(squad, rows, 1), CountOf(squad, rows, 2),
                                        CountOf(squad, rows, 3), CountOf(squad, rows, 4))
    ensures r.Err? ==> (r.error.MissingLabel? && 1 <= r.error.key <= 4 && CountOf(squad, rows, r.error.key) == 0
      && forall c :: 1 <= c < r.error.key ==> CountOf(squad, rows, c) > 0)
  {
    var gks, defs, mids, fwds := CountOf(squad, rows, 1), CountOf(squad, rows, 2),
                                 CountOf(squad, rows, 3), CountOf(squad, rows, 4);
    if gks == 0 then Err(MissingLabel(1))
    else if defs == 0 then Err(MissingLabel(2))
    else if mids == 0 then Err(MissingLabel(3))
    else if fwds == 0 then Err(MissingLabel(4))
    else Ok(Counts(gks, defs, mids, fwds))
  }

  /** check_lineup on the prospective eleven `rest` plus the bench row `c`. */
  function Try(squad: seq<SquadEntry>, rest: seq<nat>, c: nat): Result<bool, Error>
    requires ValidRows(squad, rest) && c < |squad|
  {
    var counts :- PositionCounts(squad, rest + [c]);
    Ok(CheckLineup(counts.gks, counts.defs, counts.mids, counts.fwds))
  }

  /**
   * The scan of the bench from position `from` for the first candidate whose
   * prospective eleven is legal: its position, None when no candidate
   * passes, or the KeyError of the first prospect that lacks a position.
   */
  function FirstLegal(squad: seq<SquadEntry>, rest: seq<nat>, cands: seq<nat>, from: nat): (r: Result<Option<nat>, Error>)
    requires ValidRows(squad, rest) && ValidRows(squad, cands) && from <= |cands|
    ensures r.Ok? && r.value.Some? ==>
      var j := r.value.value;
      from <= j < |cands| && Try(squad, rest, cands[j]) == Ok(true)
      && forall i :: from <= i < j ==> Try(squad, rest, cands[i]) == Ok(false)
    ensures r == Ok(None) ==> forall i :: from <= i < |cands| ==> Try(squad, rest, cands[i]) == Ok(false)
    ensures r.Err? ==> exists j :: (from <= j < |cands| && Try(squad, rest, cands[j]) == Err(r.error)
      && forall i :: from <= i < j ==> Try(squad, rest, cands[i]) == Ok(false))
    decreases |cands| - from
  {
    if from == |cands| then Ok(None)
    else
      var legal :- Try(squad, rest, cands[from]);
      if legal then Ok(Some(from)) else FirstLegal(squad, rest, cands, from + 1)
  }

  /**
   * One starter `s` without minutes: the eleven without `s` plus the first
   * bench player that makes it legal, and the bench without that player;
   * both unchanged when no bench player does.
   */
  function SubStep(squad: seq<SquadEntry>, on: seq<nat>, s: nat, bench: seq<nat>): (r: Result<(seq<nat>, seq<nat>), Error>)
    requires ValidRows(squad, on) && ValidRows(squad, bench)
    ensures r.Ok? ==> ValidRows(squad, r.value.0) && ValidRows(squad, r.value.1)
  {
    var rest := Drop(on, s);
    ValidByMembership(squad, rest);
    var pick :- FirstLegal(squad, rest, bench, 0);
    if pick.None? then Ok((on, bench))
    else
      var sub := bench[pick.value];
      ValidByMembership(squad, rest + [sub]);
      ValidByMembership(squad, Drop(bench, sub));
      Ok((rest + [sub], Drop(bench, sub)))
  }

  /**
   * The starters loop, from the starters still to visit (`todo`), the
   * current eleven `on` and the current bench: a starter without minutes is
   * replaced by the first bench player that keeps the eleven legal, who
   * then leaves the bench.
   */
  function Substitute(squad: seq<SquadEntry>, feed: Feed, todo: seq<nat>, on: seq<nat>, bench: seq<nat>)
    : (r: Result<(seq<nat>, seq<nat>), Error>)
    requires ValidRows(squad, todo) && ValidRows(squad, on) && ValidRows(squad, bench)
    ensures r.Ok? ==> ValidRows(squad, r.value.0) && ValidRows(squad, r.value.1)
    decreases |todo|
  {
    if todo == [] then Ok((on, bench))
    else
      var s := todo[0];
      var played :- Played(squad, feed, s);
      if played || bench == [] then Substitute(squad, feed, todo[1..], on, bench)
      else
        var next :- SubStep(squad, on, s, bench);
        Substitute(squad, feed, todo[1..], next.0, next.1)
  }

  /** The eleven get_team_score scores. */
  function FinalLineup(squad: seq<SquadEntry>, feed: Feed): (r: Result<seq<nat>, Error>)
    ensures r.Ok? ==> ValidRows(squad, r.value)
  {
    var bench :- KeepPlayed(squad, feed, BenchRows(squad));
    var result :- Substitute(squad, feed, StarterRows(squad), StarterRows(squad), bench);
    Ok(result.0)
  }

  /** A row's points: its `total_points` sum times one plus its captain flag. */
  function Weighted(points: int, captain: int): int {
    points * (1 + captain)
  }

  /** `total` added to the score of the rows still to sum, or their error. */
  function AddTo(total: int, later: Result<int, Error>): Result<int, Error> {
    if later.Ok? then Ok(total + later.value) else later
  }

  /** The points of `rows` in the matchweek, each row's `total_points` sum times one plus its captain flag. */
  function Score(squad: seq<SquadEntry>, feed: Feed, rows: seq<nat>): Result<int, Error>
    requires ValidRows(squad, rows)
  {
    if rows == [] then Ok(0)
    else
      var records :- RowHistory(squad, feed, rows[0]);
      AddTo(Weighted(TotalPoints(records), squad[rows[0]].captain), Score(squad, feed, rows[1..]))
  }

  /** The score of the eleven that takes the field, with the histories of the matchweek. */
  function TeamScore(squad: seq<SquadEntry>, mw: int, api: Upstream): Result<int, Error>
  {
    var feed := MatchweekHistory(mw, api);
    var xi :- FinalLineup(squad, feed);
    Score(squad, feed, xi)
  }

  /** The eleven `rows` is complete and passes check_lineup. */
  predicate LegalEleven(squad: seq<SquadEntry>, rows: seq<nat>)
    requires ValidRows(squad, rows)
  {
    var counts := PositionCounts(squad, rows);
    counts.Ok? && CheckLineup(counts.value.gks, counts.value.defs, counts.value.mids, counts.value.fwds)
  }

  /**
   * First-match rule: when bench position `j` is the first whose prospective
   * eleven is legal (all earlier ones complete and illegal), that player
   * replaces the starter and leaves the bench, and the new eleven is legal;
   * when every prospect is complete and illegal, nothing changes.
   */
  lemma FirstMatchRule(squad: seq<SquadEntry>, on: seq<nat>, s: nat, bench: seq<nat>, j: nat)
    requires ValidRows(squad, on) && ValidRows(squad, bench)
    ensures ValidRows(squad, Drop(on, s))
    ensures j < |bench| && Try(squad, Drop(on, s), bench[j]) == Ok(true)
            && (forall i :: 0 <= i < j ==> Try(squad, Drop(on, s), bench[i]) == Ok(false)) ==>
      ValidRows(squad, Drop(on, s) + [bench[j]])
      && SubStep(squad, on, s, bench) == Ok((Drop(on, s) + [bench[j]], Drop(bench, bench[j])))
      && LegalEleven(squad, Drop(on, s) + [bench[j]])
    ensures (forall i :: 0 <= i < |bench| ==> Try(squad, Drop(on, s), bench[i]) == Ok(false)) ==>
      SubStep(squad, on, s, bench) == Ok((on, bench))
  {
    var rest := Drop(on, s);
    ValidByMembership(squad, rest);
    if j < |bench| {
      ValidByMembership(squad, rest + [bench[j]]);
    }
    var pick := FirstLegal(squad, rest, bench, 0);
    if pick.Err? {
      var e :| 0 <= e < |bench| && Try(squad, rest, bench[e]) == Err(pick.error)
        && forall i :: 0 <= i < e ==> Try(squad, rest, bench[i]) == Ok(false);
    }
  }

  /**
   * The state of the starters loop: the eleven and the bench are disjoint
   * and hold each row once, the starters still to visit are on the field,
   * every player on the field is a starter or one of the `kept` bench
   * players, and the bench holds only `kept` players.
   */
  predicate SubInv(squad: seq<SquadEntry>, todo: seq<nat>, on: seq<nat>, bench: seq<nat>, kept: seq<nat>) {
    && ValidRows(squad, todo) && ValidRows(squad, on) && ValidRows(squad, bench)
    && Distinct(todo) && Distinct(on) && Distinct(bench)
    && (forall x :: x in on ==> x !in bench)
    && (forall x :: x in todo ==> x in on)
    && (forall x :: x in on ==> x < |squad| && (squad[x].start == 1 || x in kept))
    && (forall x :: x in bench ==> x in kept)
  }

  /**
   * One substitution keeps the loop state, the size of the eleven and
   * everyone on it but the visited starter; a player it adds comes from the
   * bench, and when the eleven changes the visited starter has left it and
   * the bench only loses players.
   */
  lemma SubStepInv(squad: seq<SquadEntry>, todo: seq<nat>, on: seq<nat>, bench: seq<nat>, kept: seq<nat>)
    requires SubInv(squad, todo, on, bench, kept) && todo != []
    requires SubStep(squad, on, todo[0], bench).Ok?
    ensures var next := SubStep(squad, on, todo[0], bench).value;
      && SubInv(squad, todo[1..], next.0, next.1, kept)
      && |next.0| == |on|
      && (forall x :: x in on && x != todo[0] ==> x in next.0)
      && (forall x :: x in next.0 && x !in on ==> x in bench)
      && (next.0 != on ==> todo[0] !in next.0)
      && (forall x :: x in next.1 ==> x in bench)
  {
    var s := todo[0];
    var rest := Drop(on, s);
    ValidSuffix(squad, todo, 1);
    assert Distinct(todo[1..]) && s !in todo[1..] by {
      forall a, b | 0 <= a < b < |todo| - 1 ensures todo[1..][a] != todo[1..][b] {
        assert todo[1..][a] == todo[a + 1] && todo[1..][b] == todo[b + 1];
      }
      forall a | 0 <= a < |todo| - 1 ensures todo[1..][a] != s {
        assert todo[1..][a] == todo[a + 1];
      }
    }
    assert s in on by {
      assert s in todo;
    }
    ValidByMembership(squad, rest);
    var pick := FirstLegal(squad, rest, bench, 0).value;
    if pick.Some? {
      var sub := bench[pick.value];
      assert sub in bench;
      DistinctAppend(rest, sub);
      ValidByMembership(squad, rest + [sub]);
      ValidByMembership(squad, Drop(bench, sub));
    }
  }

  /**
   * The starters loop from any state that satisfies SubInv: the final state
   * satisfies it too, the eleven keeps its size, every player on the field
   * whose turn is not still to come stays, and so does every starter still
   * to visit who played.
   */
  lemma {:induction false} SubstituteKeeps(squad: seq<SquadEntry>, feed: Feed, todo: seq<nat>, on: seq<nat>,
                                          bench: seq<nat>, kept: seq<nat>)
    requires SubInv(squad, todo, on, bench, kept)
    requires Substitute(squad, feed, todo, on, bench).Ok?
    ensures var out := Substitute(squad, feed, todo, on, bench).value;
      && SubInv(squad, [], out.0, out.1, kept)
      && |out.0| == |on|
      && (forall x :: x in on && x !in todo ==> x in out.0)
      && (forall x :: x in todo && x < |squad| && Played(squad, feed, x) == Ok(true) ==> x in out.0)
    decreases |todo|
  {
    if todo != [] {
      var s := todo[0];
      ValidSuffix(squad, todo, 1);
      assert forall x :: x in todo <==> x == s || x in todo[1..];
      assert Distinct(todo[1..]) && s !in todo[1..] by {
        forall a, b | 0 <= a < b < |todo| - 1 ensures todo[1..][a] != todo[1..][b] {
          assert todo[1..][a] == todo[a + 1] && todo[1..][b] == todo[b + 1];
        }
        forall a | 0 <= a < |todo| - 1 ensures todo[1..][a] != s {
          assert todo[1..][a] == todo[a + 1];
        }
      }
      var played := Played(squad, feed, s).value;
      if played || bench == [] {
        SubstituteKeeps(squad, feed, todo[1..], on, bench, kept);
      } else {
        SubStepInv(squad, todo, on, bench, kept);
        var next := SubStep(squad, on, s, bench).value;
        SubstituteKeeps(squad, feed, todo[1..], next.0, next.1, kept);
      }
    }
  }

  /**
   * The eleven get_team_score scores: as many players as there were
   * starters, each at most once; every player on it who did not start is a
   * bench player with minutes; every starter with minutes is on it.
   */
  lemma FinalEleven(squad: seq<SquadEntry>, feed: Feed)
    requires FinalLineup(squad, feed).Ok?
    ensures var xi := FinalLineup(squad, feed).value;
      && |xi| == |StarterRows(squad)|
      && Distinct(xi)
      && (forall x :: x in xi ==> x < |squad| && (squad[x].start == 1 || Played(squad, feed, x) == Ok(true)))
      && (forall x :: 0 <= x < |squad| && squad[x].start == 1 && Played(squad, feed, x) == Ok(true) ==> x in xi)
  {
    var starters, benchRows := StarterRows(squad), BenchRows(squad);
    IncreasingDistinct(starters);
    IncreasingDistinct(benchRows);
    KeepPlayedMembers(squad, feed, benchRows);
    var bench := KeepPlayed(squad, feed, benchRows).value;
    assert SubInv(squad, starters, starters, bench, bench);
    SubstituteKeeps(squad, feed, starters, starters, bench, bench);
  }

  /** What leaving `x` out of `rows` does to the score: `x`'s weighted points come off. */
  predicate ScoresWithout(squad: seq<SquadEntry>, feed: Feed, rows: seq<nat>, x: nat)
    requires ValidRows(squad, rows) && x < |squad|
  {
    && ValidRows(squad, Drop(rows, x))
    && RowHistory(squad, feed, x).Ok?
    && Score(squad, feed, rows) ==
       AddTo(Weighted(TotalPoints(RowHistory(squad, feed, x).value), squad[x].captain), Score(squad, feed, Drop(rows, x)))
  }

  lemma ScoresWithoutHead(squad: seq<SquadEntry>, feed: Feed, rows: seq<nat>, x: nat)
    requires ValidRows(squad, rows) && rows != [] && rows[0] == x && x !in rows[1..]
    requires Score(squad, feed, rows).Ok?
    ensures x < |squad| && ScoresWithout(squad, feed, rows, x)
  {
    ValidSuffix(squad, rows, 1);
    DropHead(rows, x);
  }

  lemma ScoresWithoutCons(squad: seq<SquadEntry>, feed: Feed, rows: seq<nat>, x: nat)
    requires ValidRows(squad, rows) && rows != [] && rows[0] != x && x < |squad|
    requires ValidRows(squad, rows[1..]) && ScoresWithout(squad, feed, rows[1..], x)
    ensures ScoresWithout(squad, feed, rows, x)
  {
    var rest := Drop(rows[1..], x);
    assert Drop(rows, x) == [rows[0]] + rest;
    ValidByMembership(squad, [rows[0]] + rest);
    assert ([rows[0]] + rest)[1..] == rest;
  }

  /**
   * Each player of a scored eleven contributes exactly once: leaving one out
   * takes away their `total_points` sum times one plus their captain flag.
   */
  lemma {:induction false} ScoreWithout(squad: seq<SquadEntry>, feed: Feed, rows: seq<nat>, x: nat)
    requires ValidRows(squad, rows) && Distinct(rows) && x in rows
    requires Score(squad, feed, rows).Ok?
    ensures x < |squad| && ScoresWithout(squad, feed, rows, x)
  {
    ValidSuffix(squad, rows, 1);
    assert Distinct(rows[1..]) && rows[0] !in rows[1..] by {
      forall i, j | 0 <= i < j < |rows| - 1 ensures rows[1..][i] != rows[1..][j] {
        assert rows[1..][i] == rows[i + 1] && rows[1..][j] == rows[j + 1];
      }
      forall i | 0 <= i < |rows| - 1 ensures rows[1..][i] != rows[0] {
        assert rows[1..][i] == rows[i + 1];
      }
    }
    if rows[0] == x {
      ScoresWithoutHead(squad, feed, rows, x);
    } else {
      assert x in rows[1..];
      ScoreWithout(squad, feed, rows[1..], x);
      ScoresWithoutCons(squad, feed, rows, x);
    }
  }

  /** `kept` in front of the rows a later part of the bench loop keeps, or that part's error. */
  function Prepend(kept: seq<nat>, later: Result<seq<nat>, Error>): Result<seq<nat>, Error> {
    if later.Ok? then Ok(kept + later.value) else later
  }

  lemma DropOnce(kept: seq<nat>, x: nat, tail: seq<nat>)
    requires Distinct(kept + [x] + tail)
    ensures Drop(kept + [x] + tail, x) == kept + tail
  {
    var s := kept + [x] + tail;
    assert s[|kept|] == x;
    assert x !in kept by {
      forall a | 0 <= a < |kept| ensures kept[a] != x {
        assert s[a] == kept[a];
      }
    }
    assert x !in tail by {
      forall b | 0 <= b < |tail| ensures tail[b] != x {
        assert s[|kept| + 1 + b] == tail[b];
      }
    }
    assert s == kept + ([x] + tail);
    DropAppend(kept, [x] + tail, x);
    assert ([x] + tail)[1..] == tail;
  }

  lemma AppendAssoc(a: seq<nat>, b: seq<nat>, c: seq<nat>)
    ensures (a + b) + c == a + (b + c)
  {
  }

  lemma KeepPlayedStep(squad: seq<SquadEntry>, feed: Feed, kept: seq<nat>, rows: seq<nat>)
    requires ValidRows(squad, rows) && rows != [] && Played(squad, feed, rows[0]).Ok?
    ensures var head := if Played(squad, feed, rows[0]).value then [rows[0]] else [];
      Prepend(kept, KeepPlayed(squad, feed, rows)) == Prepend(kept + head, KeepPlayed(squad, feed, rows[1..]))
  {
    var later := KeepPlayed(squad, feed, rows[1..]);
    if later.Ok? && Played(squad, feed, rows[0]).value {
      assert kept + ([rows[0]] + later.value) == (kept + [rows[0]]) + later.value;
    }
    if later.Ok? && !Played(squad, feed, rows[0]).value {
      assert kept + [] == kept;
    }
  }

  /** One turn of the bench loop on the frames: keep `x`, or drop it from the bench. */
  lemma IdleBenchFrames(kept: seq<nat>, x: nat, tail: seq<nat>, keep: bool)
    requires Distinct(kept + ([x] + tail))
    ensures var kept' := if keep then kept + [x] else kept;
      var bench' := if keep then kept + ([x] + tail) else Drop(kept + ([x] + tail), x);
      bench' == kept' + tail && Distinct(bench')
  {
    AppendAssoc(kept, [x], tail);
    if !keep {
      DropOnce(kept, x, tail);
    }
  }

  /** One turn of the bench loop on the specification: the KeepPlayed relation moves one row on. */
  lemma IdleBenchSpec(squad: seq<SquadEntry>, feed: Feed, labels: seq<nat>, i: nat, kept: seq<nat>)
    requires ValidRows(squad, labels) && i < |labels|
    requires KeepPlayed(squad, feed, labels) == Prepend(kept, KeepPlayed(squad, feed, labels[i..]))
    ensures Played(squad, feed, labels[i]).Err? ==>
      KeepPlayed(squad, feed, labels) == Err(Played(squad, feed, labels[i]).error)
    ensures Played(squad, feed, labels[i]).Ok? ==>
      var kept' := if Played(squad, feed, labels[i]).value then kept + [labels[i]] else kept;
      KeepPlayed(squad, feed, labels) == Prepend(kept', KeepPlayed(squad, feed, labels[i + 1..]))
  {
    assert labels[i..][1..] == labels[i + 1..];
    if Played(squad, feed, labels[i]).Ok? {
      KeepPlayedStep(squad, feed, kept, labels[i..]);
    }
  }

  /**
   * The state of the bench loop before visiting position `i`: the bench is
   * the rows kept so far followed by the rows still to visit, each once,
   * and the rows kept so far head what KeepPlayed keeps.
   */
  predicate BenchLoop(squad: seq<SquadEntry>, feed: Feed, labels: seq<nat>, i: nat, kept: seq<nat>, bench: seq<nat>) {
    && ValidRows(squad, labels) && i <= |labels|
    && bench == kept + labels[i..] && Distinct(bench)
    && ValidRows(squad, labels[i..])
    && KeepPlayed(squad, feed, labels) == Prepend(kept, KeepPlayed(squad, feed, labels[i..]))
  }

  /** One turn of the bench loop: a failing history ends the loop with KeepPlayed's error; otherwise the state moves on. */
  lemma BenchLoopStep(squad: seq<SquadEntry>, feed: Feed, labels: seq<nat>, i: nat, kept: seq<nat>, bench: seq<nat>)
    requires BenchLoop(squad, feed, labels, i, kept, bench) && i < |labels|
    ensures Played(squad, feed, labels[i]).Err? ==>
      KeepPlayed(squad, feed, labels) == Err(Played(squad, feed, labels[i]).error)
    ensures Played(squad, feed, labels[i]).Ok? ==>
      var keep := Played(squad, feed, labels[i]).value;
      BenchLoop(squad, feed, labels, i + 1, if keep then kept + [labels[i]] else kept,
                if keep then bench else Drop(bench, labels[i]))
  {
    IdleBenchSpec(squad, feed, labels, i, kept);
    ValidSuffix(squad, labels, i + 1);
    if Played(squad, feed, labels[i]).Ok? {
      assert labels[i..] == [labels[i]] + labels[i + 1..];
      IdleBenchFrames(kept, labels[i], labels[i + 1..], Played(squad, feed, labels[i]).value);
    }
  }

  /** The bench loop: drop, in place, each bench row whose player's minutes sum to zero. */
  method DropIdleBench(squad: seq<SquadEntry>, feed: Feed, benchLabels: seq<nat>)
    returns (r: Result<seq<nat>, Error>)
    requires ValidRows(squad, benchLabels) && Distinct(benchLabels)
    ensures r == KeepPlayed(squad, feed, benchLabels)
  {
    var bench := benchLabels;
    ghost var kept: seq<nat> := [];
    BenchLoopStart(squad, feed, benchLabels);
    for i := 0 to |benchLabels|
      invariant BenchLoop(squad, feed, benchLabels, i, kept, bench)
    {
      var idx := benchLabels[i];
      BenchLoopStep(squad, feed, benchLabels, i, kept, bench);
      var played := Played(squad, feed, idx);
      if played.Err? {
        return Err(played.error);
      }
      if !played.value {
        bench := Drop(bench, idx);
      } else {
        kept := kept + [idx];
      }
    }
    BenchLoopEnd(squad, feed, benchLabels, kept, bench);
    return Ok(bench);
  }

  lemma BenchLoopStart(squad: seq<SquadEntry>, feed: Feed, labels: seq<nat>)
    requires ValidRows(squad, labels) && Distinct(labels)
    ensures BenchLoop(squad, feed, labels, 0, [], labels)
  {
    assert labels[0..] == labels && [] + labels == labels;
    assert KeepPlayed(squad, feed, labels).Ok? ==>
      [] + KeepPlayed(squad, feed, labels).value == KeepPlayed(squad, feed, labels).value;
  }

  lemma BenchLoopEnd(squad: seq<SquadEntry>, feed: Feed, labels: seq<nat>, kept: seq<nat>, bench: seq<nat>)
    requires BenchLoop(squad, feed, labels, |labels|, kept, bench)
    ensures KeepPlayed(squad, feed, labels) == Ok(bench)
  {
    assert labels[|labels|..] == [];
    assert kept + [] == kept;
  }

  /**
   * One starter without minutes: try the bench in order, building each
   * prospective eleven, and commit the first legal one; `passNext` stops
   * further candidates from being tried.
   */
  method FindSubstitute(squad: seq<SquadEntry>, on: seq<nat>, idx: nat, bench: seq<nat>)
    returns (r: Result<(seq<nat>, seq<nat>), Error>)
    requires ValidRows(squad, on) && ValidRows(squad, bench)
    ensures r == SubStep(squad, on, idx, bench)
  {
    var passNext := false;
    var newOn, newBench := on, bench;
    ghost var rest := Drop(on, idx);
    ghost var pick: nat := 0;
    ValidByMembership(squad, rest);
    for j := 0 to |bench|
      invariant !passNext ==> (newOn == on && newBench == bench
        && FirstLegal(squad, rest, bench, 0) == FirstLegal(squad, rest, bench, j))
      invariant passNext ==> (pick < |bench| && FirstLegal(squad, rest, bench, 0) == Ok(Some(pick))
        && newOn == rest + [bench[pick]] && newBench == Drop(bench, bench[pick]))
    {
      var sub := bench[j];
      if !passNext {
        var prospect := Drop(newOn, idx) + [sub];
        ValidByMembership(squad, prospect);
        var counts := PositionCounts(squad, prospect);
        if counts.Err? {
          return Err(counts.error);
        }
        if CheckLineup(counts.value.gks, counts.value.defs, counts.value.mids, counts.value.fwds) {
          newOn := prospect;
          newBench := Drop(newBench, sub);
          passNext := true;
          pick := j;
        }
      }
    }
    return Ok((newOn, newBench));
  }

  /** The starters loop over the labels of the original starters. */
  method Substitutions(squad: seq<SquadEntry>, feed: Feed, starters: seq<nat>, bench0: seq<nat>)
    returns (r: Result<(seq<nat>, seq<nat>), Error>)
    requires ValidRows(squad, starters) && ValidRows(squad, bench0)
    ensures r == Substitute(squad, feed, starters, starters, bench0)
  {
    var on, bench := starters, bench0;
    for i := 0 to |starters|
      invariant ValidRows(squad, on) && ValidRows(squad, bench)
      invariant Substitute(squad, feed, starters, starters, bench0) == Substitute(squad, feed, starters[i..], on, bench)
    {
      var idx := starters[i];
      assert starters[i..][1..] == starters[i + 1..];
      var played := Played(squad, feed, idx);
      if played.Err? {
        return Err(played.error);
      }
      if !played.value {
        if |bench| != 0 {
          var next := FindSubstitute(squad, on, idx, bench);
          if next.Err? {
            return Err(next.error);
          }
          on, bench := next.value.0, next.value.1;
        }
      }
    }
    return Ok((on, bench));
  }

  lemma AddToAssoc(a: int, b: int, later: Result<int, Error>)
    ensures AddTo(a, AddTo(b, later)) == AddTo(a + b, later)
  {
  }

  /** The scoring loop fails exactly when some row's history fails. */
  lemma {:induction false} ScoreFails(squad: seq<SquadEntry>, feed: Feed, rows: seq<nat>)
    requires ValidRows(squad, rows)
    ensures Score(squad, feed, rows).Ok? <==> forall k :: 0 <= k < |rows| ==> RowHistory(squad, feed, rows[k]).Ok?
  {
    if rows != [] {
      ValidSuffix(squad, rows, 1);
      ScoreFails(squad, feed, rows[1..]);
      assert forall k :: 1 <= k < |rows| ==> rows[k] == rows[1..][k - 1];
    }
  }

  /** One turn of the scoring loop: the first row's history fails, or its points join the total. */
  lemma ScoreStep(squad: seq<SquadEntry>, feed: Feed, rows: seq<nat>, total: int)
    requires ValidRows(squad, rows) && rows != []
    ensures RowHistory(squad, feed, rows[0]).Err? ==>
      AddTo(total, Score(squad, feed, rows)) == Err(RowHistory(squad, feed, rows[0]).error)
    ensures RowHistory(squad, feed, rows[0]).Ok? ==>
      AddTo(total, Score(squad, feed, rows)) ==
      AddTo(total + Weighted(TotalPoints(RowHistory(squad, feed, rows[0]).value), squad[rows[0]].captain),
            Score(squad, feed, rows[1..]))
  {
    var h := RowHistory(squad, feed, rows[0]);
    if h.Ok? {
      AddToAssoc(total, Weighted(TotalPoints(h.value), squad[rows[0]].captain), Score(squad, feed, rows[1..]));
    }
  }

  /** The scoring loop: each row's `total_points` sum times one plus its captain flag. */
  method SumScore(squad: seq<SquadEntry>, feed: Feed, on: seq<nat>) returns (r: Result<int, Error>)
    requires ValidRows(squad, on)
    ensures r == Score(squad, feed, on)
  {
    var total := 0;
    for k := 0 to |on|
      invariant Score(squad, feed, on) == AddTo(total, Score(squad, feed, on[k..]))
    {
      var idx := on[k];
      assert on[k..][1..] == on[k + 1..];
      ScoreStep(squad, feed, on[k..], total);
      var records := RowHistory(squad, feed, idx);
      if records.Err? {
        return Err(records.error);
      }
      total := total + Weighted(TotalPoints(records.value), squad[idx].captain);
    }
    return Ok(total);
  }

  /**
   * get_team_score. The squad is a value, so the caller's frame is never
   * changed; the working frames are sequences of labels.
   */
  method GetTeamScore(squad: seq<SquadEntry>, mw: int, api: Upstream) returns (r: Result<int, Error>)
    ensures r == TeamScore(squad, mw, api)
  {
    var feed := MatchweekHistory(mw, api);
    var on := StarterRows(squad);
    var bench := BenchRows(squad);
    var kept := DropIdleBench(squad, feed, bench);
    if kept.Err? {
      return Err(kept.error);
    }
    var subs := Substitutions(squad, feed, on, kept.value);
    if subs.Err? {
      return Err(subs.error);
    }
    r := SumScore(squad, feed, subs.value.0);
  }
}
