/** The schema cache of src/hunting/mod.rs against the history of its calls. */
module SchemaCache {
  import opened Wrappers

  /** How long a table schema stays cached, in milliseconds. */
  const TTL: nat := 3600000

  datatype Entry<V> = Entry(at: nat, value: V)

  /** One stored schema: when, for which table, what. */
  datatype Put<V> = Put(at: nat, table: string, value: V)

  /** Puts in the order of a monotone clock. */
  predicate Ordered<V>(history: seq<Put<V>>) {
    forall i, j :: 0 <= i < j < |history| ==> history[i].at <= history[j].at
  }

  /** The last put for a table. */
  function LastPut<V>(history: seq<Put<V>>, table: string): (r: Option<Put<V>>)
    ensures r.Some? ==> r.value in history && r.value.table == table
    ensures r.None? ==> forall p :: p in history ==> p.table != table
  {
    if history == [] then None
    else
      var last := history[|history| - 1];
      if last.table == table then Some(last) else LastPut(history[..|history| - 1], table)
  }

  lemma LastAfter<V>(history: seq<Put<V>>, put: Put<V>, table: string)
    ensures LastPut(history + [put], table) == if put.table == table then Some(put) else LastPut(history, table)
  {
    assert (history + [put])[..|history|] == history;
  }

  /** What a reader at time `now` is owed: the last put for the table, while it is fresh. */
  function Owed<V>(history: seq<Put<V>>, table: string, now: nat): Option<V>
    requires forall p :: p in history ==> p.at <= now
  {
    var last := LastPut(history, table);
    if last.Some? && now - last.value.at < TTL then Some(last.value.value) else None
  }

  /** Every entry is the last put for its table. */
  predicate AreLast<V(==)>(entries: map<string, Entry<V>>, history: seq<Put<V>>) {
    forall t :: t in entries ==> LastPut(history, t) == Some(Put(entries[t].at, t, entries[t].value))
  }

  /** A table whose last put is gone was stale when the latest put came. */
  ghost predicate GoneAreStale<V>(entries: map<string, Entry<V>>, history: seq<Put<V>>) {
    forall t :: t !in entries && LastPut(history, t).Some?
        ==> LastPut(history, t).value.at + TTL <= history[|history| - 1].at
  }

  /** The entries after a put: those still fresh when it swept, and its own. */
  function Updated<V>(entries: map<string, Entry<V>>, swept: nat, put: Put<V>): map<string, Entry<V>> {
    (map t | t in entries && swept - entries[t].at < TTL :: entries[t])[put.table := Entry(put.at, put.value)]
  }

  lemma UpdatedAreLast<V>(entries: map<string, Entry<V>>, history: seq<Put<V>>, swept: nat, put: Put<V>)
    requires AreLast(entries, history)
    ensures AreLast(Updated(entries, swept, put), history + [put])
  {
    forall t | t in Updated(entries, swept, put)
      ensures LastPut(history + [put], t) ==
              Some(Put(Updated(entries, swept, put)[t].at, t, Updated(entries, swept, put)[t].value))
    {
      LastAfter(history, put, t);
    }
  }

  lemma UpdatedGoneAreStale<V>(entries: map<string, Entry<V>>, history: seq<Put<V>>, swept: nat, put: Put<V>)
    requires AreLast(entries, history) && GoneAreStale(entries, history)
    requires swept <= put.at && forall i :: 0 <= i < |history| ==> history[i].at <= swept
    ensures GoneAreStale(Updated(entries, swept, put), history + [put])
  {
    var later := history + [put];
    forall t | t !in Updated(entries, swept, put) && LastPut(later, t).Some?
      ensures LastPut(later, t).value.at + TTL <= later[|later| - 1].at
    {
      LastAfter(history, put, t);
      assert LastPut(history, t) == LastPut(later, t);
    }
  }

  class Cache<V> {
    var entries: map<string, Entry<V>>
    ghost var history: seq<Put<V>>

    /** Every entry is the last put for its table, and a table whose last put is gone was stale
        when the latest put came. */
    ghost predicate Valid()
      reads this
    {
      Ordered(history) && AreLast(entries, history) && GoneAreStale(entries, history)
    }

    /** The clock has not run backwards since the latest put. */
    ghost predicate Reached(now: nat)
      reads this
    {
      history != [] ==> history[|history| - 1].at <= now
    }

    constructor ()
      ensures Valid() && history == [] && entries == map[]
    {
      entries, history := map[], [];
    }

    method Get(table: string, now: nat) returns (r: Option<V>)
      requires Valid() && Reached(now)
      ensures r == Owed(history, table, now)
    {
      if table in entries && now - entries[table].at < TTL {
        r := Some(entries[table].value);
      } else {
        r := None;
      }
    }

    /** `swept` is the time at which stale entries are dropped, `now` the time of the new one. */
    method Store(table: string, value: V, swept: nat, now: nat)
      requires Valid() && Reached(swept) && swept <= now
      modifies this
      ensures Valid() && history == old(history) + [Put(now, table, value)]
      ensures forall t :: t in entries <==> t == table || (t in old(entries) && swept - old(entries)[t].at < 3600000)
    {
      ghost var put, before := Put(now, table, value), entries;
      UpdatedAreLast(entries, history, swept, put);
      UpdatedGoneAreStale(entries, history, swept, put);
      entries := map t | t in entries && swept - entries[t].at < TTL :: entries[t];
      entries := entries[table := Entry(now, value)];
      history := history + [put];
      assert entries == Updated(before, swept, put);
    }
  }

  /** Put `i` is for the table, and no later one is. */
  predicate IsLast<V>(history: seq<Put<V>>, table: string, i: int) {
    0 <= i < |history| && history[i].table == table && forall j :: i < j < |history| ==> history[j].table != table
  }

  /** The TTL and the last put decide what a reader gets, at any later time: nothing evicted early,
      nothing kept late. */
  lemma {:induction false} OwedExactly<V>(history: seq<Put<V>>, table: string, now: nat, v: V)
    requires forall p :: p in history ==> p.at <= now
    ensures Owed(history, table, now) == Some(v) <==>
              exists i :: 0 <= i < |history| && IsLast(history, table, i) && history[i].value == v
                  && now - history[i].at < 3600000
  {
    if history != [] {
      var n := |history| - 1;
      if history[n].table == table {
        assert IsLast(history, table, n);
      } else {
        var before := history[..n];
        OwedExactly(before, table, now, v);
        assert LastPut(history, table) == LastPut(before, table);
        forall i | 0 <= i < n ensures IsLast(history, table, i) <==> IsLast(before, table, i) {
          assert history[i] == before[i];
        }
      }
    }
  }
}
