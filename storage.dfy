/**
 * The saved account file, seen abstractly: a leading count followed by a
 * sequence of serialized records, any of which may be null. What the registry
 * rebuilds from such a file, including when reading stops early, is defined
 * here by functions on values.
 */
module Storage {
  import opened Wrappers
  import opened Accounts

  /** The file's content: the leading count and the records that follow it. */
  datatype Snapshot = Snapshot(count: int, records: seq<Option<Account>>)

  /**
   * The map obtained by reading `recs` in order into an empty map, each
   * non-null record stored under its own name (a later record with the same
   * name replaces an earlier one) and each null record skipped.
   */
  function Replay(recs: seq<Option<Account>>): (m: map<string, Account>)
    ensures KeyedByName(m)
    ensures forall k :: k in m ==> Some(m[k]) in recs
    ensures forall i :: 0 <= i < |recs| && recs[i].Some? ==> recs[i].value.name in m
  {
    if recs == [] then map[]
    else
      var before := Replay(recs[..|recs| - 1]);
      var last := recs[|recs| - 1];
      if last.Some? then before[last.value.name := last.value] else before
  }

  /** Reading one more record extends the replay of the prefix by that record. */
  lemma ReplayStep(recs: seq<Option<Account>>, i: nat)
    requires i < |recs|
    ensures Replay(recs[..i + 1]) ==
      if recs[i].Some? then Replay(recs[..i])[recs[i].value.name := recs[i].value] else Replay(recs[..i])
  {
    assert recs[..i + 1][..i] == recs[..i];
  }

  /**
   * How many records the load loop gets through: it stops at the count, at
   * the end of the file (the next read throws), or at the first object that
   * cannot be read; `failAt` is the number of stream objects, header included,
   * that are read successfully.
   */
  function RecordsRead(s: Snapshot, failAt: nat): (n: nat)
    requires failAt > 0
    ensures n <= |s.records| && n < failAt && n <= (if s.count < 0 then 0 else s.count)
    ensures n == |s.records| || n == failAt - 1 || n == s.count || s.count < 0
  {
    var want := if s.count < 0 then 0 else s.count;
    var avail := if |s.records| < failAt - 1 then |s.records| else failAt - 1;
    if want < avail then want else avail
  }

  /**
   * The map the registry starts with. No file, or a failure while reading the
   * header, gives the empty map; otherwise the records read before the loop
   * stopped are replayed.
   */
  function Load(stored: Option<Snapshot>, failAt: nat): (m: map<string, Account>)
    ensures KeyedByName(m)
    ensures stored.None? || failAt == 0 ==> m == map[]
    ensures stored.Some? ==> forall k :: k in m ==> Some(m[k]) in stored.value.records
  {
    match stored
    case None => map[]
    case Some(s) => if failAt == 0 then map[] else Replay(s.records[..RecordsRead(s, failAt)])
  }

  /** Replaying only a prefix of the records yields no key the whole sequence lacks. */
  lemma ReplayPrefixKeys(recs: seq<Option<Account>>, n: nat)
    requires n <= |recs|
    ensures Replay(recs[..n]).Keys <= Replay(recs).Keys
  {
  }

  /** The later a read failure happens, the more accounts survive loading. */
  lemma LoadKeysGrow(stored: Option<Snapshot>, failAt: nat, later: nat)
    requires failAt <= later
    ensures Load(stored, failAt).Keys <= Load(stored, later).Keys
  {
    if stored.Some? && failAt > 0 {
      var s := stored.value;
      var n, n' := RecordsRead(s, failAt), RecordsRead(s, later);
      assert s.records[..n'][..n] == s.records[..n];
      ReplayPrefixKeys(s.records[..n'], n);
    }
  }

  /** A file that was read to the end of its records yields all of them. */
  lemma LoadComplete(s: Snapshot, failAt: nat)
    requires s.count == |s.records| && failAt > |s.records|
    ensures Load(Some(s), failAt) == Replay(s.records)
  {
    assert s.records[..RecordsRead(s, failAt)] == s.records;
  }

  /** A file whose records are all null reloads to the empty map, however reading ends. */
  lemma ReplayAllAbsent(recs: seq<Option<Account>>)
    requires forall i :: 0 <= i < |recs| ==> recs[i].None?
    ensures Replay(recs) == map[]
  {
  }
}
