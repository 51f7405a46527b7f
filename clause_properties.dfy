/** What `w` and `r` lines do to the staleness counts and the clause maps. */
module ClauseProperties {
  import opened Wrappers
  import opened Text
  import opened Counters
  import opened Records
  import opened Log

  lemma ParseIntsTail(fields: seq<string>, ids: seq<int>)
    requires fields != [] && ParseInts(fields) == Ok(ids)
    ensures ParseInt(fields[0]) == Some(ids[0]) && ParseInts(fields[1..]) == Ok(ids[1..])
  {
    assert ids == [ids[0]] + ParseInts(fields[1..]).value;
  }

  /** One id of a `w` line whose fields are the integers `ids`. */
  lemma WeakenAllCons(s: LogState, fields: seq<string>, ids: seq<int>)
    requires fields != [] && ParseInts(fields) == Ok(ids)
    ensures |ids| == |fields| && ParseInts(fields[1..]) == Ok(ids[1..])
    ensures WeakenAll(s, fields) == WeakenAll(WeakenClause(s, ids[0]), fields[1..])
  {
    ParseIntsTail(fields, ids);
    ParseIntsSpec(fields);
  }

  /** One id of an `r` line whose fields are the integers `ids`. */
  lemma RestoreAllCons(s: LogState, fields: seq<string>, ids: seq<int>)
    requires fields != [] && ParseInts(fields) == Ok(ids)
    ensures |ids| == |fields| && ParseInts(fields[1..]) == Ok(ids[1..])
    ensures ids[0] !in s.vacated ==> RestoreAll(s, fields) == Err(UnknownRestore(ids[0]))
    ensures ids[0] in s.vacated ==> RestoreAll(s, fields) == RestoreAll(RestoreClause(s, ids[0]).value, fields[1..])
  {
    ParseIntsTail(fields, ids);
    ParseIntsSpec(fields);
  }

  lemma StepIsWeakenAll(s: LogState, line: string)
    requires |line| > 0 && line[0] == 'w'
    ensures Step(s, line) == WeakenAll(s, Inner(Split(line)))
  {
  }

  lemma StepIsRestoreAll(s: LogState, line: string)
    requires |line| > 0 && line[0] == 'r'
    ensures Step(s, line) == RestoreAll(s, Inner(Split(line)))
  {
  }

  /** The part of the state a `w` line does not touch. */
  ghost predicate WeakenFrame(s: LogState, r: LogState) {
    && r.queries == s.queries && r.index == s.index && r.queried == s.queried && r.restores == s.restores
    && r.query == s.query.(weakened := r.query.weakened)
  }

  /** The part of the state an `r` line does not touch. */
  ghost predicate RestoreFrame(s: LogState, r: LogState) {
    && r.queries == s.queries && r.index == s.index && r.queried == s.queried && r.weakens == s.weakens
    && r.query == s.query.(restored := r.query.restored)
  }

  /** Each occurrence of an id in `ids` adds one to its count in `m'`. */
  ghost predicate CountedOnce(m: map<int, nat>, m': map<int, nat>, ids: seq<int>) {
    forall id :: Get(m', id, 0) == Get(m, id, 0) + multiset(ids)[id]
  }

  /** The listed ids are vacated at `index`; the others keep their entry. */
  ghost predicate VacatedAt(v: map<int, nat>, v': map<int, nat>, ids: seq<int>, index: nat) {
    && (forall id :: id in ids ==> id in v' && v'[id] == index)
    && (forall id :: id !in ids ==> (id in v' <==> id in v) && Get(v', id, 0) == Get(v, id, 0))
  }

  /**
   * The staleness at which the k-th id of a `w` or `r` line is counted. An
   * id the same line listed before was vacated at the current index by that
   * earlier occurrence, so it counts at 0; any other id counts at the
   * distance from its entry in `vacated`, and at 0 when it has none.
   */
  function Stalenesses(vacated: map<int, nat>, index: nat, ids: seq<int>): (r: seq<int>)
    ensures |r| == |ids|
  {
    seq(|ids|, k requires 0 <= k < |ids| => if ids[k] in ids[..k] then 0 else index - Get(vacated, ids[k], index))
  }

  /** The first occurrence of an id in `vacated` counts at its distance from the entry; every other at 0. */
  lemma StalenessAt(vacated: map<int, nat>, index: nat, ids: seq<int>, k: int)
    requires 0 <= k < |ids|
    ensures ids[k] !in ids[..k] && ids[k] in vacated ==> Stalenesses(vacated, index, ids)[k] == index - vacated[ids[k]]
    ensures ids[k] in ids[..k] || ids[k] !in vacated ==> Stalenesses(vacated, index, ids)[k] == 0
  {
  }

  /** The first id's staleness, then the rest's against `vacated` with the first id vacated at `index`. */
  lemma StalenessesCons(vacated: map<int, nat>, index: nat, ids: seq<int>)
    requires ids != []
    ensures Stalenesses(vacated, index, ids)
         == [index - Get(vacated, ids[0], index)] + Stalenesses(vacated[ids[0] := index], index, ids[1..])
  {
    var a := Stalenesses(vacated, index, ids);
    var b := [index - Get(vacated, ids[0], index)] + Stalenesses(vacated[ids[0] := index], index, ids[1..]);
    assert ids[..0] == [];
    forall k | 1 <= k < |a| ensures a[k] == b[k] {
      StalenessesTailAt(vacated, index, ids, k);
    }
  }

  lemma StalenessesTailAt(vacated: map<int, nat>, index: nat, ids: seq<int>, k: int)
    requires 1 <= k < |ids|
    ensures Stalenesses(vacated, index, ids)[k] == Stalenesses(vacated[ids[0] := index], index, ids[1..])[k - 1]
  {
    var x, tail := ids[k], ids[1..];
    assert tail[k - 1] == x;
    assert ids[..k] == [ids[0]] + tail[..k - 1];
    assert x in ids[..k] <==> x == ids[0] || x in tail[..k - 1];
  }

  lemma {:induction false} WeakenAllFrame(s: LogState, fields: seq<string>, ids: seq<int>)
    requires ParseInts(fields) == Ok(ids)
    ensures WeakenAll(s, fields).Ok? && WeakenFrame(s, WeakenAll(s, fields).value)
    decreases |fields|
  {
    if fields != [] {
      ParseIntsTail(fields, ids);
      WeakenAllFrame(WeakenClause(s, ids[0]), fields[1..], ids[1..]);
    }
  }

  lemma {:induction false} WeakenAllSum(s: LogState, fields: seq<string>, ids: seq<int>)
    requires ParseInts(fields) == Ok(ids) && WeakenAll(s, fields).Ok?
    ensures SumValues(WeakenAll(s, fields).value.query.weakened) == SumValues(s.query.weakened) + |ids|
    decreases |fields|
  {
    if fields != [] {
      WeakenAllCons(s, fields, ids);
      var id := ids[0];
      var s1 := WeakenClause(s, id);
      WeakenAllSum(s1, fields[1..], ids[1..]);
      SumValuesInc(s.query.weakened, s.index - Get(s.vacated, id, s.index));
    }
  }

  /** The first id of a `w` line counts at its staleness, and leaves the rest's stalenesses as they were. */
  lemma WeakenClauseStaleness(s: LogState, ids: seq<int>)
    requires ids != []
    ensures var s1, st := WeakenClause(s, ids[0]), Stalenesses(s.vacated, s.index, ids);
      s1.query.weakened == Inc(s.query.weakened, st[0]) && Stalenesses(s1.vacated, s1.index, ids[1..]) == st[1..]
  {
    StalenessesCons(s.vacated, s.index, ids);
  }

  /** The first id of an `r` line, when it is in `vacated`, likewise. */
  lemma RestoreClauseStaleness(s: LogState, ids: seq<int>)
    requires ids != [] && ids[0] in s.vacated
    ensures var s1, st := RestoreClause(s, ids[0]).value, Stalenesses(s.vacated, s.index, ids);
      s1.query.restored == Inc(s.query.restored, st[0]) && Stalenesses(s1.vacated, s1.index, ids[1..]) == st[1..]
  {
    StalenessesCons(s.vacated, s.index, ids);
  }

  /** Counting the first key, then the rest, counts every key. */
  lemma CountedCons(m: map<int, nat>, m1: map<int, nat>, m2: map<int, nat>, keys: seq<int>)
    requires keys != [] && m1 == Inc(m, keys[0]) && CountedOnce(m1, m2, keys[1..])
    ensures CountedOnce(m, m2, keys)
  {
    assert keys == [keys[0]] + keys[1..];
    assert multiset(keys) == multiset{keys[0]} + multiset(keys[1..]);
  }

  /** Each id of a `w` line adds one clause to the open record at its staleness. */
  lemma {:induction false} WeakenAllStaleness(s: LogState, fields: seq<string>, ids: seq<int>)
    requires ParseInts(fields) == Ok(ids) && WeakenAll(s, fields).Ok?
    ensures CountedOnce(s.query.weakened, WeakenAll(s, fields).value.query.weakened, Stalenesses(s.vacated, s.index, ids))
    decreases |fields|
  {
    if fields != [] {
      WeakenAllCons(s, fields, ids);
      var s1 := WeakenClause(s, ids[0]);
      WeakenAllStaleness(s1, fields[1..], ids[1..]);
      WeakenClauseStaleness(s, ids);
      var st := Stalenesses(s.vacated, s.index, ids);
      CountedCons(s.query.weakened, s1.query.weakened, WeakenAll(s, fields).value.query.weakened, st);
    } else {
      assert ids == [];
    }
  }

  lemma {:induction false} WeakenAllCounts(s: LogState, fields: seq<string>, ids: seq<int>)
    requires ParseInts(fields) == Ok(ids) && WeakenAll(s, fields).Ok?
    ensures CountedOnce(s.weakens, WeakenAll(s, fields).value.weakens, ids)
    decreases |fields|
  {
    if fields != [] {
      WeakenAllCons(s, fields, ids);
      WeakenAllCounts(WeakenClause(s, ids[0]), fields[1..], ids[1..]);
      assert ids == [ids[0]] + ids[1..];
      assert multiset(ids) == multiset{ids[0]} + multiset(ids[1..]);
    } else {
      assert ids == [];
    }
  }

  lemma {:induction false} WeakenAllVacated(s: LogState, fields: seq<string>, ids: seq<int>)
    requires ParseInts(fields) == Ok(ids) && WeakenAll(s, fields).Ok?
    ensures VacatedAt(s.vacated, WeakenAll(s, fields).value.vacated, ids, s.index)
    decreases |fields|
  {
    if fields != [] {
      WeakenAllCons(s, fields, ids);
      var s1 := WeakenClause(s, ids[0]);
      WeakenAllFrame(s1, fields[1..], ids[1..]);
      WeakenAllVacated(s1, fields[1..], ids[1..]);
      var r := WeakenAll(s, fields).value;
      forall x | x in ids ensures x in r.vacated && r.vacated[x] == s.index {
        if x != ids[0] { assert x in ids[1..]; }
      }
    } else {
      assert ids == [];
    }
  }

  /**
   * A `w` line whose fields between the tag and the last one are all
   * integers: each occurrence of an id adds one to its lifetime count and
   * one clause to the open record's count at its staleness; the listed ids are
   * then vacated at the current index, the others keep their entry, and
   * nothing else changes.
   */
  lemma StepWeaken(s: LogState, line: string, ids: seq<int>)
    requires |line| > 0 && line[0] == 'w' && ParseInts(Inner(Split(line))) == Ok(ids)
    ensures Step(s, line).Ok?
    ensures var r := Step(s, line).value;
      && WeakenFrame(s, r)
      && SumValues(r.query.weakened) == SumValues(s.query.weakened) + |ids|
      && CountedOnce(s.query.weakened, r.query.weakened, Stalenesses(s.vacated, s.index, ids))
      && CountedOnce(s.weakens, r.weakens, ids)
      && VacatedAt(s.vacated, r.vacated, ids, s.index)
  {
    var fields := Inner(Split(line));
    StepIsWeakenAll(s, line);
    WeakenAllFrame(s, fields, ids);
    WeakenAllSum(s, fields, ids);
    WeakenAllStaleness(s, fields, ids);
    WeakenAllCounts(s, fields, ids);
    WeakenAllVacated(s, fields, ids);
  }

  /**
   * A `w` line naming one id: its lifetime count grows by one, the open
   * record counts one clause at staleness `index - vacated.get(id, index)`,
   * the id is vacated at the current index, and nothing else changes.
   */
  lemma StepWeakenOne(s: LogState, line: string, id: int)
    requires |line| > 0 && line[0] == 'w' && ParseInts(Inner(Split(line))) == Ok([id])
    ensures Step(s, line) == Ok(s.(weakens := s.weakens[id := Get(s.weakens, id, 0) + 1],
                                   query := s.query.(weakened := Inc(s.query.weakened, s.index - Get(s.vacated, id, s.index))),
                                   vacated := s.vacated[id := s.index]))
  {
    StepWeakensClause(s, line, id);
    WeakenClauseState(s, id);
  }

  /** The first weakening of a clause has staleness 0: the vacate index defaults to the current one. */
  lemma StepWeakenFirst(s: LogState, line: string, id: int)
    requires |line| > 0 && line[0] == 'w' && ParseInts(Inner(Split(line))) == Ok([id])
    requires id !in s.vacated
    ensures Step(s, line) == Ok(s.(weakens := Inc(s.weakens, id),
                                   query := s.query.(weakened := Inc(s.query.weakened, 0)),
                                   vacated := s.vacated[id := s.index]))
  {
    StepWeakensClause(s, line, id);
    WeakenClauseState(s, id);
    assert s.index - Get(s.vacated, id, s.index) == 0;
  }

  lemma StepWeakensClause(s: LogState, line: string, id: int)
    requires |line| > 0 && line[0] == 'w' && ParseInts(Inner(Split(line))) == Ok([id])
    ensures Step(s, line) == Ok(WeakenClause(s, id))
  {
    StepIsWeakenAll(s, line);
    WeakenSingle(s, Inner(Split(line)), id);
  }

  lemma WeakenClauseState(s: LogState, id: int)
    ensures WeakenClause(s, id) == s.(weakens := s.weakens[id := Get(s.weakens, id, 0) + 1],
                                      query := s.query.(weakened := Inc(s.query.weakened, s.index - Get(s.vacated, id, s.index))),
                                      vacated := s.vacated[id := s.index])
  {
  }

  lemma WeakenSingle(s: LogState, fields: seq<string>, id: int)
    requires ParseInts(fields) == Ok([id])
    ensures WeakenAll(s, fields) == Ok(WeakenClause(s, id))
  {
    ParseIntsTail(fields, [id]);
    assert fields[1..] == [];
  }

  lemma {:induction false} RestoreAllOutcome(s: LogState, fields: seq<string>, ids: seq<int>)
    requires ParseInts(fields) == Ok(ids)
    ensures RestoreAll(s, fields).Ok? <==> forall k :: 0 <= k < |ids| ==> ids[k] in s.vacated
    ensures RestoreAll(s, fields).Err? ==>
      exists j :: 0 <= j < |ids| && ids[j] !in s.vacated && (forall k :: 0 <= k < j ==> ids[k] in s.vacated)
        && RestoreAll(s, fields).error == UnknownRestore(ids[j])
    ensures RestoreAll(s, fields).Ok? ==> RestoreFrame(s, RestoreAll(s, fields).value)
    ensures RestoreAll(s, fields).Ok? ==> RestoreAll(s, fields).value.vacated.Keys == s.vacated.Keys
    decreases |fields|
  {
    if fields == [] {
      assert ids == [];
    } else {
      ParseIntsTail(fields, ids);
      var id := ids[0];
      if id in s.vacated {
        var s1 := RestoreClause(s, id).value;
        assert s1.vacated.Keys == s.vacated.Keys;
        RestoreAllOutcome(s1, fields[1..], ids[1..]);
        assert RestoreAll(s, fields) == RestoreAll(s1, fields[1..]);
        assert forall k :: 1 <= k < |ids| ==> ids[k] == ids[1..][k - 1];
        if RestoreAll(s, fields).Err? {
          var j :| 0 <= j < |ids[1..]| && ids[1..][j] !in s1.vacated && (forall k :: 0 <= k < j ==> ids[1..][k] in s1.vacated)
            && RestoreAll(s1, fields[1..]).error == UnknownRestore(ids[1..][j]);
          assert ids[j + 1] !in s.vacated && forall k :: 0 <= k < j + 1 ==> ids[k] in s.vacated;
        }
      } else {
        assert RestoreAll(s, fields) == Err(UnknownRestore(id));
      }
    }
  }

  lemma {:induction false} RestoreAllSum(s: LogState, fields: seq<string>, ids: seq<int>)
    requires ParseInts(fields) == Ok(ids) && RestoreAll(s, fields).Ok?
    ensures SumValues(RestoreAll(s, fields).value.query.restored) == SumValues(s.query.restored) + |ids|
    decreases |fields|
  {
    if fields != [] {
      RestoreAllCons(s, fields, ids);
      var id := ids[0];
      var s1 := RestoreClause(s, id).value;
      RestoreAllSum(s1, fields[1..], ids[1..]);
      SumValuesInc(s.query.restored, s.index - s.vacated[id]);
    }
  }

  /** Each id of a successful `r` line adds one clause to the open record at its staleness. */
  lemma {:induction false} RestoreAllStaleness(s: LogState, fields: seq<string>, ids: seq<int>)
    requires ParseInts(fields) == Ok(ids) && RestoreAll(s, fields).Ok?
    ensures CountedOnce(s.query.restored, RestoreAll(s, fields).value.query.restored, Stalenesses(s.vacated, s.index, ids))
    decreases |fields|
  {
    if fields != [] {
      RestoreAllCons(s, fields, ids);
      var s1 := RestoreClause(s, ids[0]).value;
      RestoreAllStaleness(s1, fields[1..], ids[1..]);
      RestoreClauseStaleness(s, ids);
      var st := Stalenesses(s.vacated, s.index, ids);
      CountedCons(s.query.restored, s1.query.restored, RestoreAll(s, fields).value.query.restored, st);
    } else {
      assert ids == [];
    }
  }

  lemma {:induction false} RestoreAllCounts(s: LogState, fields: seq<string>, ids: seq<int>)
    requires ParseInts(fields) == Ok(ids) && RestoreAll(s, fields).Ok?
    ensures CountedOnce(s.restores, RestoreAll(s, fields).value.restores, ids)
    decreases |fields|
  {
    if fields != [] {
      RestoreAllCons(s, fields, ids);
      RestoreAllCounts(RestoreClause(s, ids[0]).value, fields[1..], ids[1..]);
      assert ids == [ids[0]] + ids[1..];
      assert multiset(ids) == multiset{ids[0]} + multiset(ids[1..]);
    } else {
      assert ids == [];
    }
  }

  lemma {:induction false} RestoreAllVacated(s: LogState, fields: seq<string>, ids: seq<int>)
    requires ParseInts(fields) == Ok(ids) && RestoreAll(s, fields).Ok?
    ensures VacatedAt(s.vacated, RestoreAll(s, fields).value.vacated, ids, s.index)
    decreases |fields|
  {
    if fields != [] {
      RestoreAllCons(s, fields, ids);
      var s1 := RestoreClause(s, ids[0]).value;
      RestoreAllOutcome(s1, fields[1..], ids[1..]);
      RestoreAllVacated(s1, fields[1..], ids[1..]);
      var r := RestoreAll(s, fields).value;
      forall x | x in ids ensures x in r.vacated && r.vacated[x] == s.index {
        if x != ids[0] { assert x in ids[1..]; }
      }
    } else {
      assert ids == [];
    }
  }

  /**
   * An `r` line whose listed fields are all integers fails, naming the
   * first id absent from `vacated`, exactly when some listed id is absent;
   * otherwise each occurrence adds one to the id's lifetime count and one
   * clause to the open record's count at its staleness, the listed ids are
   * vacated at the current index and stay in `vacated`, and nothing else
   * changes.
   */
  lemma StepRestore(s: LogState, line: string, ids: seq<int>)
    requires |line| > 0 && line[0] == 'r' && ParseInts(Inner(Split(line))) == Ok(ids)
    ensures Step(s, line).Ok? <==> forall k :: 0 <= k < |ids| ==> ids[k] in s.vacated
    ensures Step(s, line).Err? ==>
      exists j :: 0 <= j < |ids| && ids[j] !in s.vacated && (forall k :: 0 <= k < j ==> ids[k] in s.vacated)
        && Step(s, line).error == UnknownRestore(ids[j])
    ensures Step(s, line).Ok? ==> var r := Step(s, line).value;
      && RestoreFrame(s, r)
      && SumValues(r.query.restored) == SumValues(s.query.restored) + |ids|
      && CountedOnce(s.query.restored, r.query.restored, Stalenesses(s.vacated, s.index, ids))
      && CountedOnce(s.restores, r.restores, ids)
      && VacatedAt(s.vacated, r.vacated, ids, s.index)
      && r.vacated.Keys == s.vacated.Keys
  {
    var fields := Inner(Split(line));
    StepIsRestoreAll(s, line);
    RestoreAllOutcome(s, fields, ids);
    if RestoreAll(s, fields).Ok? {
      RestoreAllSum(s, fields, ids);
      RestoreAllStaleness(s, fields, ids);
      RestoreAllCounts(s, fields, ids);
      RestoreAllVacated(s, fields, ids);
    }
  }

  /**
   * An `r` line naming one id fails when the id is not in `vacated`;
   * otherwise its lifetime count grows by one, the open record counts one
   * clause at staleness `index - vacated[id]`, the id is vacated again at
   * the current index, and nothing else changes.
   */
  lemma StepRestoreOne(s: LogState, line: string, id: int)
    requires |line| > 0 && line[0] == 'r' && ParseInts(Inner(Split(line))) == Ok([id])
    ensures id !in s.vacated ==> Step(s, line) == Err(UnknownRestore(id))
    ensures id in s.vacated ==>
      Step(s, line) == Ok(s.(restores := s.restores[id := Get(s.restores, id, 0) + 1],
                             query := s.query.(restored := Inc(s.query.restored, s.index - s.vacated[id])),
                             vacated := s.vacated[id := s.index]))
  {
    var fields := Inner(Split(line));
    StepIsRestoreAll(s, line);
    ParseIntsTail(fields, [id]);
    assert fields[1..] == [];
    if id in s.vacated {
      RestoreClauseState(s, id);
    }
  }

  lemma RestoreClauseState(s: LogState, id: int)
    ensures id !in s.vacated ==> RestoreClause(s, id) == Err(UnknownRestore(id))
    ensures id in s.vacated ==>
      RestoreClause(s, id) == Ok(s.(restores := s.restores[id := Get(s.restores, id, 0) + 1],
                                    query := s.query.(restored := Inc(s.query.restored, s.index - s.vacated[id])),
                                    vacated := s.vacated[id := s.index]))
  {
  }
}
