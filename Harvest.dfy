/**
 * The dedup accumulator of `TwitterCrawler._parse_and_save`
 * (`tweet_harvest/crawler.py`): the rows of one payload are appended to the
 * store `all_tweets` unless their `id_str` is already there, and the rows
 * appended for a payload form the one batch handed to the CSV sink.
 *
 * These are the specification functions; `TwitterCrawler.ParseAndSave`
 * runs the loop and is proved to agree with `Ingest`.
 */
module Harvest {
  import opened Values
  import opened Rows
  import opened Resolver

  /** The ids of a list of rows, `{t['id_str'] for t in self.all_tweets}`. */
  function Ids(rows: seq<Row>): set<string>
  {
    set i | 0 <= i < |rows| :: rows[i].idStr
  }

  /** No two rows share an `id_str`. */
  predicate DistinctIds(rows: seq<Row>)
  {
    forall i, j :: 0 <= i < j < |rows| ==> rows[i].idStr != rows[j].idStr
  }

  /** The store, the batch of rows added for this payload, and whether an exception ended the payload. */
  datatype Harvested = Harvested(store: seq<Row>, batch: seq<Row>, crashed: bool)

  /** One iteration of the entry loop. */
  function Admit(h: Harvested, v: Verdict): Harvested
  {
    if h.crashed then h
    else
      match v
      case Skip => h
      case Crash => h.(crashed := true)
      case Emit(row) =>
        if row.idStr in Ids(h.store) then h
        else Harvested(h.store + [row], h.batch + [row], false)
  }

  /** The fates of the entries, in order. */
  function Verdicts(entries: seq<Json>, langFilter: Option<string>): (vs: seq<Verdict>)
    ensures |vs| == |entries|
    ensures forall i :: 0 <= i < |entries| ==> vs[i] == ProcessEntry(entries[i], langFilter)
  {
    seq(|entries|, i requires 0 <= i < |entries| => ProcessEntry(entries[i], langFilter))
  }

  /** The entry loop over the fates of the remaining entries. */
  function Absorb(h: Harvested, verdicts: seq<Verdict>): Harvested
    decreases |verdicts|
  {
    if verdicts == [] then h
    else Absorb(Admit(h, verdicts[0]), verdicts[1..])
  }

  /** A whole payload: resolve its entries, then run the entry loop from an empty batch. */
  function Ingest(store: seq<Row>, payload: Json, langFilter: Option<string>): Harvested
  {
    match Resolve(payload)
    case None => Harvested(store, [], true)
    case Some(entries) => Absorb(Harvested(store, [], false), Verdicts(entries, langFilter))
  }

  /** The batches the sink receives for one payload: the batch, once, if the payload completed and added rows. */
  function Written(h: Harvested): seq<seq<Row>>
  {
    if !h.crashed && h.batch != [] then [h.batch] else []
  }

  // ---------------------------------------------------------------------------
  // A reference definition: emitted rows, then deduplication
  // ---------------------------------------------------------------------------

  /** The rows emitted, in order, up to the first crash. */
  function Emitted(verdicts: seq<Verdict>): seq<Row>
  {
    if verdicts == [] then []
    else
      match verdicts[0]
      case Crash => []
      case Skip => Emitted(verdicts[1..])
      case Emit(row) => [row] + Emitted(verdicts[1..])
  }

  /** Some entry crashes the payload. */
  predicate Crashes(verdicts: seq<Verdict>)
  {
    exists i :: 0 <= i < |verdicts| && verdicts[i].Crash?
  }

  /** Keep each row whose id is neither in the store nor in an earlier kept row. */
  function Dedup(store: seq<Row>, rows: seq<Row>): seq<Row>
    decreases |rows|
  {
    if rows == [] then []
    else if rows[0].idStr in Ids(store) then Dedup(store, rows[1..])
    else [rows[0]] + Dedup(store + [rows[0]], rows[1..])
  }

  // ---------------------------------------------------------------------------
  // Properties
  // ---------------------------------------------------------------------------

  lemma IdsSnoc(rows: seq<Row>, row: Row)
    ensures Ids(rows + [row]) == Ids(rows) + {row.idStr}
  {
    var s := rows + [row];
    assert s[|rows|].idStr == row.idStr;
    forall id | id in Ids(rows)
      ensures id in Ids(s)
    {
      var i :| 0 <= i < |rows| && rows[i].idStr == id;
      assert s[i] == rows[i];
    }
  }

  lemma DistinctSnoc(rows: seq<Row>, row: Row)
    requires DistinctIds(rows) && row.idStr !in Ids(rows)
    ensures DistinctIds(rows + [row])
  {
    forall i | 0 <= i < |rows|
      ensures rows[i].idStr != row.idStr
    {
      assert rows[i].idStr in Ids(rows);
    }
  }

  /** A payload that resolves runs the entry loop over the fates of its entries. */
  lemma IngestResolved(store: seq<Row>, payload: Json, langFilter: Option<string>, entries: seq<Json>)
    requires Resolve(payload) == Some(entries)
    ensures Ingest(store, payload, langFilter) == Absorb(Harvested(store, [], false), Verdicts(entries, langFilter))
  {
  }

  /** The entry loop from position `i` is one iteration followed by the loop from `i + 1`. */
  lemma AbsorbStep(h: Harvested, verdicts: seq<Verdict>, i: nat)
    requires i < |verdicts|
    ensures Absorb(h, verdicts[i..]) == Absorb(Admit(h, verdicts[i]), verdicts[i + 1..])
  {
    assert verdicts[i..][0] == verdicts[i] && verdicts[i..][1..] == verdicts[i + 1..];
  }

  /** The store only grows: it is the starting store followed by the batch. */
  lemma {:induction false} AbsorbAppends(start: seq<Row>, h: Harvested, verdicts: seq<Verdict>)
    requires h.store == start + h.batch
    ensures Absorb(h, verdicts).store == start + Absorb(h, verdicts).batch
    decreases |verdicts|
  {
    if verdicts != [] {
      var next := Admit(h, verdicts[0]);
      if next != h {
        assert next.store == start + next.batch;
      }
      AbsorbAppends(start, next, verdicts[1..]);
    }
  }

  /** The store's ids stay pairwise distinct. */
  lemma {:induction false} AbsorbKeepsDistinct(h: Harvested, verdicts: seq<Verdict>)
    requires DistinctIds(h.store)
    ensures DistinctIds(Absorb(h, verdicts).store)
    decreases |verdicts|
  {
    if verdicts != [] {
      var v := verdicts[0];
      if !h.crashed && v.Emit? && v.row.idStr !in Ids(h.store) {
        DistinctSnoc(h.store, v.row);
      }
      AbsorbKeepsDistinct(Admit(h, v), verdicts[1..]);
    }
  }

  /**
   * One payload appends exactly its batch to the store; the batch holds no
   * id that was already stored and no id twice, and the store's ids stay
   * distinct.
   */
  lemma IngestAppendsNewRows(store: seq<Row>, payload: Json, langFilter: Option<string>)
    requires DistinctIds(store)
    ensures var h := Ingest(store, payload, langFilter);
      && h.store == store + h.batch
      && DistinctIds(h.store)
      && DistinctIds(h.batch)
      && (forall i :: 0 <= i < |h.batch| ==> h.batch[i].idStr !in Ids(store))
  {
    var h := Ingest(store, payload, langFilter);
    if Resolve(payload).Some? {
      var h0 := Harvested(store, [], false);
      AbsorbAppends(store, h0, Verdicts(Resolve(payload).value, langFilter));
      AbsorbKeepsDistinct(h0, Verdicts(Resolve(payload).value, langFilter));
    }
    assert h.store == store + h.batch;
    forall i, j | 0 <= i < j < |h.batch|
      ensures h.batch[i].idStr != h.batch[j].idStr
    {
      assert h.store[|store| + i] == h.batch[i] && h.store[|store| + j] == h.batch[j];
    }
    forall i | 0 <= i < |h.batch|
      ensures h.batch[i].idStr !in Ids(store)
    {
      assert h.store[|store| + i] == h.batch[i];
      forall k | 0 <= k < |store|
        ensures store[k].idStr != h.batch[i].idStr
      {
        assert h.store[k] == store[k];
      }
    }
  }

  /** After a crash the remaining entries are not looked at. */
  lemma {:induction false} AbsorbCrashed(h: Harvested, verdicts: seq<Verdict>)
    requires h.crashed
    ensures Absorb(h, verdicts) == h
    decreases |verdicts|
  {
    if verdicts != [] {
      AbsorbCrashed(h, verdicts[1..]);
    }
  }

  lemma CrashesCons(verdicts: seq<Verdict>)
    requires verdicts != [] && !verdicts[0].Crash?
    ensures Crashes(verdicts) <==> Crashes(verdicts[1..])
  {
    var rest := verdicts[1..];
    if Crashes(rest) {
      var i :| 0 <= i < |rest| && rest[i].Crash?;
      assert verdicts[i + 1].Crash?;
    }
    if Crashes(verdicts) {
      var i :| 0 <= i < |verdicts| && verdicts[i].Crash?;
      assert rest[i - 1].Crash?;
    }
  }

  /**
   * The loop is "keep the rows emitted before the first crash, then drop
   * every row whose id is already stored or was kept earlier"; it has
   * crashed exactly when some entry crashes.
   */
  lemma {:induction false} AbsorbIsDedupOfEmitted(h: Harvested, verdicts: seq<Verdict>)
    requires !h.crashed
    ensures Absorb(h, verdicts).batch == h.batch + Dedup(h.store, Emitted(verdicts))
    ensures Absorb(h, verdicts).crashed <==> Crashes(verdicts)
    decreases |verdicts|
  {
    if verdicts == [] {
      assert h.batch + [] == h.batch;
    } else {
      var v := verdicts[0];
      var rest := verdicts[1..];
      assert Absorb(h, verdicts) == Absorb(Admit(h, v), rest);
      if v.Crash? {
        AbsorbCrashed(h.(crashed := true), rest);
        assert Emitted(verdicts) == [];
        assert h.batch + [] == h.batch;
      } else {
        CrashesCons(verdicts);
        AbsorbIsDedupOfEmitted(Admit(h, v), rest);
        if v.Emit? {
          assert Emitted(verdicts) == [v.row] + Emitted(rest);
          EmitStep(h, v.row, Emitted(rest));
        } else {
          assert Emitted(verdicts) == Emitted(rest);
        }
      }
    }
  }

  /** One emitted row: the batch grows by what deduplicating it against the store keeps. */
  lemma EmitStep(h: Harvested, row: Row, later: seq<Row>)
    requires !h.crashed
    ensures var next := Admit(h, Emit(row));
      next.batch + Dedup(next.store, later) == h.batch + Dedup(h.store, [row] + later)
  {
    var rows := [row] + later;
    assert rows[0] == row && rows[1..] == later;
    if row.idStr !in Ids(h.store) {
      var d := Dedup(h.store + [row], later);
      assert Dedup(h.store, rows) == [row] + d;
      assert (h.batch + [row]) + d == h.batch + ([row] + d);
    }
  }

  /** The entries that one payload's loop handles: the outcome for a crashing payload. */
  lemma IngestIsDedupOfEmitted(store: seq<Row>, payload: Json, langFilter: Option<string>)
    requires Resolve(payload).Some?
    ensures var vs := Verdicts(Resolve(payload).value, langFilter);
      && Ingest(store, payload, langFilter).batch == Dedup(store, Emitted(vs))
      && (Ingest(store, payload, langFilter).crashed <==> Crashes(vs))
  {
    AbsorbIsDedupOfEmitted(Harvested(store, [], false), Verdicts(Resolve(payload).value, langFilter));
  }

  /**
   * A crashing entry ends the payload: the outcome is what the entries
   * before it gave, marked crashed, so rows already appended stay in the
   * store but no batch is written.
   */
  lemma {:induction false} CrashTruncates(h: Harvested, verdicts: seq<Verdict>, k: nat)
    requires k < |verdicts| && verdicts[k].Crash?
    ensures Absorb(h, verdicts) == Absorb(h, verdicts[..k]).(crashed := true)
    ensures Written(Absorb(h, verdicts)) == []
    decreases k
  {
    if h.crashed {
      AbsorbCrashed(h, verdicts);
      AbsorbCrashed(h, verdicts[..k]);
    } else if k == 0 {
      AbsorbCrashed(h.(crashed := true), verdicts[1..]);
    } else {
      var next := Admit(h, verdicts[0]);
      CrashTruncates(next, verdicts[1..], k - 1);
      assert verdicts[1..][..k - 1] == verdicts[..k][1..];
    }
  }

  /** The id of every row emitted before the first crash is in the final store. */
  lemma {:induction false} EmittedIdsStored(h: Harvested, verdicts: seq<Verdict>)
    requires !h.crashed
    ensures forall i :: 0 <= i < |Emitted(verdicts)| ==> Emitted(verdicts)[i].idStr in Ids(Absorb(h, verdicts).store)
    ensures Ids(h.store) <= Ids(Absorb(h, verdicts).store)
    decreases |verdicts|
  {
    if verdicts != [] {
      var v := verdicts[0];
      if v.Crash? {
        AbsorbCrashed(h.(crashed := true), verdicts[1..]);
      } else {
        var next := Admit(h, v);
        EmittedIdsStored(next, verdicts[1..]);
        if v.Emit? {
          if v.row.idStr !in Ids(h.store) {
            IdsSnoc(h.store, v.row);
          }
          assert v.row.idStr in Ids(next.store);
        }
      }
    }
  }

  /** When every emitted id is already stored, the loop adds nothing. */
  lemma {:induction false} AbsorbStoredAddsNothing(h: Harvested, verdicts: seq<Verdict>)
    requires forall i :: 0 <= i < |Emitted(verdicts)| ==> Emitted(verdicts)[i].idStr in Ids(h.store)
    ensures Absorb(h, verdicts).store == h.store
    ensures Absorb(h, verdicts).batch == h.batch
    decreases |verdicts|
  {
    if h.crashed {
      AbsorbCrashed(h, verdicts);
    } else if verdicts != [] {
      var v := verdicts[0];
      if v.Crash? {
        AbsorbCrashed(h.(crashed := true), verdicts[1..]);
      } else {
        var e := Emitted(verdicts);
        var e' := Emitted(verdicts[1..]);
        if v.Emit? {
          assert e == [v.row] + e';
          assert e[0] == v.row;
          assert forall i :: 0 <= i < |e'| ==> e'[i] == e[i + 1];
        } else {
          assert e == e';
        }
        AbsorbStoredAddsNothing(Admit(h, v), verdicts[1..]);
      }
    }
  }

  /** Handling the same payload twice: the second time adds no row and writes no batch. */
  lemma IngestIdempotent(store: seq<Row>, payload: Json, langFilter: Option<string>)
    ensures var once := Ingest(store, payload, langFilter);
      var twice := Ingest(once.store, payload, langFilter);
      twice.store == once.store && twice.batch == [] && Written(twice) == []
  {
    var once := Ingest(store, payload, langFilter);
    if Resolve(payload).Some? {
      var vs := Verdicts(Resolve(payload).value, langFilter);
      EmittedIdsStored(Harvested(store, [], false), vs);
      AbsorbStoredAddsNothing(Harvested(once.store, [], false), vs);
    }
  }

  // ---------------------------------------------------------------------------
  // The sink's log
  // ---------------------------------------------------------------------------

  /** The rows of a sequence of written batches, in writing order. */
  function Flatten(batches: seq<seq<Row>>): seq<Row>
  {
    if batches == [] then [] else Flatten(batches[..|batches| - 1]) + batches[|batches| - 1]
  }

  lemma IdsConcat(a: seq<Row>, b: seq<Row>)
    ensures Ids(a + b) == Ids(a) + Ids(b)
  {
    var s := a + b;
    forall id | id in Ids(a)
      ensures id in Ids(s)
    {
      var i :| 0 <= i < |a| && a[i].idStr == id;
      assert s[i] == a[i];
    }
    forall id | id in Ids(b)
      ensures id in Ids(s)
    {
      var i :| 0 <= i < |b| && b[i].idStr == id;
      assert s[|a| + i] == b[i];
    }
    forall id | id in Ids(s)
      ensures id in Ids(a) + Ids(b)
    {
      var i :| 0 <= i < |s| && s[i].idStr == id;
      if i < |a| {
        assert a[i] == s[i];
      } else {
        assert b[i - |a|] == s[i];
      }
    }
  }

  /** Two lists of rows concatenate without duplicate ids exactly when each is duplicate-free and they share no id. */
  lemma DistinctConcat(a: seq<Row>, b: seq<Row>)
    ensures DistinctIds(a + b) <==> DistinctIds(a) && DistinctIds(b) && Ids(a) !! Ids(b)
  {
    var s := a + b;
    if DistinctIds(s) {
      forall i, j | 0 <= i < j < |a|
        ensures a[i].idStr != a[j].idStr
      {
        assert s[i] == a[i] && s[j] == a[j];
      }
      forall i, j | 0 <= i < j < |b|
        ensures b[i].idStr != b[j].idStr
      {
        assert s[|a| + i] == b[i] && s[|a| + j] == b[j];
      }
      forall id | id in Ids(a)
        ensures id !in Ids(b)
      {
        var i :| 0 <= i < |a| && a[i].idStr == id;
        assert s[i] == a[i];
        forall j | 0 <= j < |b|
          ensures b[j].idStr != id
        {
          assert s[|a| + j] == b[j];
        }
      }
    }
    if DistinctIds(a) && DistinctIds(b) && Ids(a) !! Ids(b) {
      forall i, j | 0 <= i < j < |s|
        ensures s[i].idStr != s[j].idStr
      {
        if j < |a| {
          assert s[i] == a[i] && s[j] == a[j];
        } else if i >= |a| {
          assert s[i] == b[i - |a|] && s[j] == b[j - |a|];
        } else {
          assert s[i] == a[i] && s[j] == b[j - |a|];
          assert a[i].idStr in Ids(a) && b[j - |a|].idStr in Ids(b);
        }
      }
    }
  }
}
