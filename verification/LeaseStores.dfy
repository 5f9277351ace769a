/** The many-key stores that run transitions atomically: the one-lock memory store and the SQLite store
    (src/dr_store/lease/_memory.py, src/dr_store/lease/_sqlite.py), and what a key sees of a store's history. */
module LeaseStores {
  import opened Wrappers
  import opened LeaseModels
  import opened LeaseTransitions
  import opened LeaseRows
  import opened LeaseRuns

  type Rows = map<string, LeaseRow>

  /** One atomic transaction on the row of one key; the other rows stay. */
  function StoreAfter(digest: Digest, rows: Rows, call: Call, now: int): Rows {
    match RowAfter(digest, call, Lookup(rows, call.Key()), now)
    case None => rows - {call.Key()}
    case Some(row) => rows[call.Key() := row]
  }

  function StoreReply(digest: Digest, rows: Rows, call: Call, now: int): Result<Reply, LeaseError> {
    ReplyTo(digest, call, Lookup(rows, call.Key()), now)
  }

  function StoreAt(digest: Digest, history: seq<Event>, n: nat): Rows
    requires n <= |history|
  {
    if n == 0 then map[]
    else StoreAfter(digest, StoreAt(digest, history, n - 1), history[n - 1].call, history[n - 1].now)
  }

  /** The events of one key among the first n events of a store. */
  function Own(history: seq<Event>, key: string, n: nat): seq<Event>
    requires n <= |history|
  {
    if n == 0 then []
    else if history[n - 1].call.Key() == key then Own(history, key, n - 1) + [history[n - 1]]
    else Own(history, key, n - 1)
  }

  /** Later events do not change earlier rows. */
  lemma {:induction false} RowAtPrefix(digest: Digest, history: seq<Event>, more: seq<Event>, k: nat)
    requires k <= |history|
    ensures RowAt(digest, history + more, k) == RowAt(digest, history, k)
  {
    if k > 0 {
      RowAtPrefix(digest, history, more, k - 1);
      assert (history + more)[k - 1] == history[k - 1];
    }
  }

  lemma ReplyAtPrefix(digest: Digest, history: seq<Event>, more: seq<Event>, i: nat)
    requires i < |history|
    ensures ReplyAt(digest, history + more, i) == ReplyAt(digest, history, i)
  {
    RowAtPrefix(digest, history, more, i);
    assert (history + more)[i] == history[i];
  }

  /** One key of the store behaves as that key's own history, whatever the other keys do. */
  lemma {:induction false} StoreProjects(digest: Digest, history: seq<Event>, key: string, n: nat)
    requires n <= |history|
    ensures Lookup(StoreAt(digest, history, n), key) == RowAt(digest, Own(history, key, n), |Own(history, key, n)|)
  {
    if n > 0 {
      StoreProjects(digest, history, key, n - 1);
      var own := Own(history, key, n - 1);
      if history[n - 1].call.Key() == key {
        RowAtPrefix(digest, own, [history[n - 1]], |own|);
      }
    }
  }

  /** Event i of the store is event |Own(i)| of its key's history, with the same reply. */
  lemma {:induction false} OwnHolds(digest: Digest, history: seq<Event>, key: string, i: nat, n: nat)
    requires i < n <= |history| && history[i].call.Key() == key
    ensures |Own(history, key, i)| < |Own(history, key, n)|
    ensures Own(history, key, n)[|Own(history, key, i)|] == history[i]
    ensures ReplyAt(digest, Own(history, key, n), |Own(history, key, i)|)
            == StoreReply(digest, StoreAt(digest, history, i), history[i].call, history[i].now)
  {
    var own := Own(history, key, n - 1);
    if i == n - 1 {
      StoreProjects(digest, history, key, i);
      RowAtPrefix(digest, own, [history[i]], |own|);
    } else {
      OwnHolds(digest, history, key, i, n - 1);
      if history[n - 1].call.Key() == key {
        RowAtPrefix(digest, own, [history[n - 1]], |Own(history, key, i)|);
      }
    }
  }

  /** A key's history holds only events of the store on that key. */
  lemma {:induction false} OwnIsPart(history: seq<Event>, key: string, n: nat)
    requires n <= |history|
    ensures forall e | e in Own(history, key, n) :: e in history[..n] && e.call.Key() == key
    ensures ValidHistory(history) ==> ValidHistory(Own(history, key, n))
  {
    if n > 0 {
      OwnIsPart(history, key, n - 1);
      assert history[..n] == history[..n - 1] + [history[n - 1]];
    }
  }

  /** EXCLUSION IN A STORE: for every key of a many-key store, all leases issued among the first n transactions
      that are live at a moment t at or after that key's clock readings carry one request, owner, attempt and fence. */
  lemma StoreExclusion(digest: Digest, history: seq<Event>, n: nat, i: nat, j: nat, t: int)
    requires i < n <= |history| && j < n && ValidHistory(history)
    requires history[i].call.Key() == history[j].call.Key()
    requires forall k | 0 <= k < n && history[k].call.Key() == history[i].call.Key() :: history[k].now <= t
    requires var a := IssuedBy(StoreReply(digest, StoreAt(digest, history, i), history[i].call, history[i].now));
             var b := IssuedBy(StoreReply(digest, StoreAt(digest, history, j), history[j].call, history[j].now));
             a.Some? && b.Some? && a.value.expiresAt > t && b.value.expiresAt > t
    ensures var a := IssuedBy(StoreReply(digest, StoreAt(digest, history, i), history[i].call, history[i].now));
            var b := IssuedBy(StoreReply(digest, StoreAt(digest, history, j), history[j].call, history[j].now));
            a.value.SameHolder(b.value)
  {
    var key := history[i].call.Key();
    var own := Own(history, key, n);
    OwnHolds(digest, history, key, i, n);
    OwnHolds(digest, history, key, j, n);
    OwnIsPart(history, key, n);
    Exclusion(digest, own, |own|, |Own(history, key, i)|, |Own(history, key, j)|, t);
  }

  /** Every stored row is well formed and filed under its own key. */
  ghost predicate RowsOk(rows: Rows) {
    forall k | k in rows :: rows[k].WellFormed() && rows[k].request.semanticKey == k
  }

  lemma StoreKeepsRows(digest: Digest, rows: Rows, call: Call, now: int)
    requires RowsOk(rows) && call.Valid()
    ensures RowsOk(StoreAfter(digest, rows, call, now))
    ensures rows.Keys <= StoreAfter(digest, rows, call, now).Keys
  {
    TransitionKeepsRow(digest, call, Lookup(rows, call.Key()), now);
  }

  class MemoryStore {
    const digest: Digest
    var rows: Rows

    constructor (digest: Digest)
      ensures this.digest == digest && rows == map[] && RowsOk(rows)
    {
      this.digest := digest;
      rows := map[];
    }

    /** One transaction under the store's lock, at the clock reading now. */
    method Transaction(call: Call, now: int) returns (reply: Result<Reply, LeaseError>)
      requires call.Valid() && RowsOk(rows)
      modifies this
      ensures rows == StoreAfter(digest, old(rows), call, now) && RowsOk(rows)
      ensures reply == StoreReply(digest, old(rows), call, now)
    {
      StoreKeepsRows(digest, rows, call, now);
      match Transition(digest, call, Lookup(rows, call.Key()), now) {
        case Raised(error) =>
          assert rows == StoreAfter(digest, rows, call, now);
          return Failure(error);
        case Returned(updated, answer) =>
          if updated.None? {
            rows := rows - {call.Key()};
          } else {
            rows := rows[call.Key() := updated.value];
          }
          return Success(answer);
      }
    }
  }

  /** The table contents that stand for some rows. */
  function EncodeAll(codec: TextCodec, rows: Rows): map<string, RawRow> {
    map k | k in rows :: Encode(codec, rows[k])
  }

  /** What a transaction reads from the table is its row. */
  lemma TableReadsBack(codec: TextCodec, rows: Rows, key: string)
    requires codec.RoundTrips() && RowsOk(rows) && key in rows
    ensures Decode(codec, key, EncodeAll(codec, rows)[key]) == Success(rows[key])
    ensures Matches(codec, EncodeAll(codec, rows)[key], rows[key])
  {
    DecodeInvertsEncode(codec, rows[key]);
  }

  /** The table after one row is written. */
  lemma OneRowWritten(codec: TextCodec, rows: Rows, key: string, row: LeaseRow)
    ensures EncodeAll(codec, rows[key := row]) == EncodeAll(codec, rows)[key := Encode(codec, row)]
    ensures Lookup(rows, key) == Some(row) ==> rows[key := row] == rows
  {}

  /** What one transaction writes: nothing when the row stays, and otherwise one encoded row. */
  lemma TransactionWrites(digest: Digest, codec: TextCodec, rows: Rows, call: Call, now: int)
    requires RowsOk(rows) && call.Valid()
    ensures RowsOk(StoreAfter(digest, rows, call, now))
    ensures StoreReply(digest, rows, call, now) != Failure(Corruption)
    ensures var row := Lookup(rows, call.Key());
            var outcome := Transition(digest, call, row, now);
            if outcome.Raised? then
              && StoreAfter(digest, rows, call, now) == rows
              && StoreReply(digest, rows, call, now) == Failure(outcome.error)
            else
              && outcome.updated.Some?
              && (outcome.updated == row ==> StoreAfter(digest, rows, call, now) == rows)
              && EncodeAll(codec, StoreAfter(digest, rows, call, now))
                 == EncodeAll(codec, rows)[call.Key() := Encode(codec, outcome.updated.value)]
              && StoreReply(digest, rows, call, now) == Success(outcome.reply)
  {
    StoreKeepsRows(digest, rows, call, now);
    var row := Lookup(rows, call.Key());
    TransitionKeepsRow(digest, call, row, now);
    var outcome := Transition(digest, call, row, now);
    if outcome.Returned? {
      OneRowWritten(codec, rows, call.Key(), outcome.updated.value);
    }
  }

  class SqliteStore {
    const digest: Digest
    const codec: TextCodec
    var table: map<string, RawRow>
    ghost var rows: Rows

    /** The table holds exactly the encodings of the abstract rows. */
    ghost predicate Valid()
      reads this
    {
      && codec.RoundTrips()
      && RowsOk(rows)
      && table == EncodeAll(codec, rows)
    }

    constructor (digest: Digest, codec: TextCodec)
      requires codec.RoundTrips()
      ensures Valid() && this.digest == digest && this.codec == codec && rows == map[]
    {
      this.digest, this.codec := digest, codec;
      table, rows := map[], map[];
    }

    /** BEGIN IMMEDIATE, read, transition, insert or conditional update, then COMMIT or ROLLBACK.
        The corruption exits (a removed row, an unreadable row, a lost update) are never taken. */
    method Transaction(call: Call, now: int) returns (reply: Result<Reply, LeaseError>)
      requires Valid() && call.Valid()
      modifies this
      ensures Valid()
      ensures rows == StoreAfter(digest, old(rows), call, now)
      ensures reply == StoreReply(digest, old(rows), call, now)
      ensures reply != Failure(Corruption)
    {
      var key := call.Key();
      var begun := table;
      ghost var after := StoreAfter(digest, rows, call, now);
      TransactionWrites(digest, codec, rows, call, now);
      var original: Option<LeaseRow> := None;
      if key in table {
        TableReadsBack(codec, rows, key);
        var decoded := Decode(codec, key, table[key]);
        if decoded.Failure? {
          return Failure(Corruption);
        }
        original := Some(decoded.value);
      }
      assert original == Lookup(rows, key);
      var outcome := Transition(digest, call, original, now);
      if outcome.Raised? {
        table := begun;
        rows := after;
        return Failure(outcome.error);
      }
      var updated := outcome.updated;
      if updated != original {
        if updated.None? {
          return Failure(Corruption);
        } else if original.None? {
          table := table[key := Encode(codec, updated.value)];
        } else if key in table && Matches(codec, table[key], original.value) {
          table := table[key := Encode(codec, updated.value)];
        } else {
          return Failure(Corruption);
        }
      }
      rows := after;
      return Success(outcome.reply);
    }
  }
}
