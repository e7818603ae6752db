/**
 * The account registry: a map from account name to account record, with
 * creation, closing, lookup, list snapshots, and saving to and loading from
 * the account file.
 */
module Server {
  import opened Wrappers
  import opened Accounts
  import opened Storage

  /** The two exceptions the registry lets reach its caller. */
  datatype Failure = IllegalArgument(message: string) | IOException(message: string)

  /** The fixed location of the account file. */
  const FileName: string := "accounts.ser"

  const NegativeBalanceMessage: string := "New account may not be started with a negative balance"

  function BadTypeMessage(kind: string): string {
    "Bad account type:" + kind
  }

  const CouldNotWriteMessage: string := "Could not write file:" + FileName

  /** The part of `m` whose records are no longer in `rest`, the values still to be written. */
  ghost function Written(m: map<string, Account>, rest: set<Account>): map<string, Account> {
    map k | k in m && m[k] !in rest :: m[k]
  }

  /** Writing one more record `a` adds exactly the entry stored under its name. */
  lemma WrittenStep(m: map<string, Account>, rest: set<Account>, a: Account)
    requires KeyedByName(m) && rest <= m.Values && a in rest
    ensures a.name in m && m[a.name] == a
    ensures Written(m, rest - {a}) == Written(m, rest)[a.name := a]
  {
  }

  /**
   * The file the shipped save routine produces: the right count, but every
   * record is the result of looking up an integer position in a map keyed by
   * strings, which finds nothing.
   */
  function AsWrittenSnapshot(m: map<string, Account>): (s: Snapshot)
    ensures s.count == |s.records| == |m|
    ensures forall i :: 0 <= i < |s.records| ==> s.records[i].None?
  {
    Snapshot(|m|, seq(|m|, _ => None))
  }

  /** Reloading that file gives the empty map, so every account saved is lost. */
  lemma AsWrittenLosesAccounts(m: map<string, Account>, failAt: nat)
    ensures Load(Some(AsWrittenSnapshot(m)), failAt) == map[]
    ensures m != map[] ==> Load(Some(AsWrittenSnapshot(m)), failAt) != m
  {
  }

  /** The accounts of `s` that are not CLOSED. */
  ghost function Active(s: set<Account>): set<Account> {
    set a | a in s && a.state != Closed
  }

  /** Visiting one more account adds it to the listed ones exactly when it is not CLOSED. */
  lemma ActiveStep(seen: set<Account>, a: Account, r: seq<Account>)
    requires a !in seen && multiset(r) == multiset(Active(seen))
    ensures a.state != Closed ==> multiset(r + [a]) == multiset(Active(seen + {a}))
    ensures a.state == Closed ==> multiset(r) == multiset(Active(seen + {a}))
  {
    if a.state != Closed {
      assert Active(seen + {a}) == Active(seen) + {a};
    } else {
      assert Active(seen + {a}) == Active(seen);
    }
  }

  class ServerSolution {
    var accountMap: map<string, Account>

    /** Every account is stored under its own name. */
    ghost predicate Valid()
      reads this
    {
      KeyedByName(accountMap)
    }

    /**
     * Starts the registry from the account file, if there is one. `stored` is
     * the file (None when it does not exist); `failAt` is how many stream
     * objects, the header included, are read before a read throws. A failure
     * ends loading and keeps what was read so far.
     */
    constructor (stored: Option<Snapshot>, failAt: nat)
      ensures Valid()
      ensures accountMap == Load(stored, failAt)
    {
      accountMap := map[];
      new;
      if stored.Some? && failAt > 0 {
        var records := stored.value.records;
        var size := stored.value.count;
        ghost var n := RecordsRead(stored.value, failAt);
        var i := 0;
        while i < size
          invariant 0 <= i <= n
          invariant accountMap == Replay(records[..i])
        {
          if i + 1 >= failAt || i >= |records| {
            // the next read throws: loading stops here
            break;
          }
          var acc := records[i];
          ReplayStep(records, i);
          if acc.Some? {
            accountMap := accountMap[acc.value.name := acc.value];
          }
          i := i + 1;
        }
        assert i == n;
      }
    }

    /**
     * Creates an account unless the name is taken (false) or the type string
     * names neither kind (IllegalArgument).
     */
    method NewAccountFactory(kind: string, name: string, balance: int) returns (r: Result<bool, Failure>)
      requires Valid()
      modifies this
      ensures Valid()
      ensures name in old(accountMap) ==> r == Ok(false) && accountMap == old(accountMap)
      ensures name !in old(accountMap) && KindOf(kind).None? ==>
        r == Err(IllegalArgument(BadTypeMessage(kind))) && accountMap == old(accountMap)
      ensures name !in old(accountMap) && KindOf(kind).Some? ==>
        r == Ok(true) && accountMap == old(accountMap)[name := NewRecord(KindOf(kind).value, name, balance)]
      ensures old(accountMap).Keys <= accountMap.Keys
      ensures |accountMap| == |old(accountMap)| + (if r == Ok(true) then 1 else 0)
    {
      if name in accountMap {
        return Ok(false);
      }
      var acc: Account;
      if kind == "Checking" {
        acc := NewRecord(Checking, name, balance);
      } else if kind == "Savings" {
        acc := NewRecord(Savings, name, balance);
      } else {
        return Err(IllegalArgument(BadTypeMessage(kind)));
      }
      accountMap := accountMap[acc.name := acc];
      r := Ok(true);
    }

    /**
     * Creates an account: a negative balance is refused before anything else
     * is checked; the rest is NewAccountFactory.
     */
    method NewAccount(kind: string, name: string, balance: int) returns (r: Result<bool, Failure>)
      requires Valid()
      modifies this
      ensures Valid()
      ensures balance < 0 ==> r == Err(IllegalArgument(NegativeBalanceMessage)) && accountMap == old(accountMap)
      ensures balance >= 0 && name in old(accountMap) ==> r == Ok(false) && accountMap == old(accountMap)
      ensures balance >= 0 && name !in old(accountMap) && KindOf(kind).None? ==>
        r == Err(IllegalArgument(BadTypeMessage(kind))) && accountMap == old(accountMap)
      ensures balance >= 0 && name !in old(accountMap) && KindOf(kind).Some? ==>
        r == Ok(true) && accountMap == old(accountMap)[name := NewRecord(KindOf(kind).value, name, balance)]
      ensures r != Ok(true) ==> accountMap == old(accountMap)
      ensures old(accountMap).Keys <= accountMap.Keys
    {
      if balance < 0 {
        return Err(IllegalArgument(NegativeBalanceMessage));
      }
      r := NewAccountFactory(kind, name, balance);
    }

    /**
     * Marks the named account CLOSED; false when there is no such account.
     * Nothing is removed and nothing but that account's state changes.
     */
    method CloseAccount(name: string) returns (ok: bool)
      requires Valid()
      modifies this
      ensures Valid()
      ensures ok <==> name in old(accountMap)
      ensures accountMap.Keys == old(accountMap).Keys
      ensures ok ==> accountMap[name] == old(accountMap)[name].(state := Closed)
      ensures forall k :: k in accountMap && k != name ==> accountMap[k] == old(accountMap)[k]
      ensures !ok ==> accountMap == old(accountMap)
    {
      if name !in accountMap {
        return false;
      }
      var acc := accountMap[name];
      accountMap := accountMap[name := acc.(state := Closed)];
      ok := true;
    }

    /** The account stored under `name`, closed or not, or None. */
    function GetAccount(name: string): (r: Option<Account>)
      requires Valid()
      reads this
      ensures r.Some? <==> name in accountMap
      ensures r.Some? ==> r.value == accountMap[name] && r.value.name == name
    {
      if name in accountMap then Some(accountMap[name]) else None
    }

    /** A fresh list of every account, each exactly once, in no particular order. */
    method GetAllAccounts() returns (r: seq<Account>)
      requires Valid()
      ensures multiset(r) == multiset(accountMap.Values)
      ensures |r| == |accountMap|
    {
      r := [];
      var rest := accountMap.Values;
      while rest != {}
        invariant rest <= accountMap.Values
        invariant multiset(r) + multiset(rest) == multiset(accountMap.Values)
        decreases |rest|
      {
        var acc :| acc in rest;
        r := r + [acc];
        rest := rest - {acc};
      }
      ValuesCount(accountMap);
    }

    /** A fresh list of the accounts that are not CLOSED, each exactly once, in no particular order. */
    method GetActiveAccounts() returns (r: seq<Account>)
      requires Valid()
      ensures multiset(r) == multiset(Active(accountMap.Values))
      ensures multiset(r) <= multiset(accountMap.Values)
      ensures forall i :: 0 <= i < |r| ==> r[i].state == Open && r[i].name in accountMap && accountMap[r[i].name] == r[i]
    {
      r := [];
      var rest := accountMap.Values;
      ghost var seen: set<Account> := {};
      while rest != {}
        invariant rest !! seen && rest + seen == accountMap.Values
        invariant multiset(r) == multiset(Active(seen))
        decreases |rest|
      {
        var acc :| acc in rest;
        ActiveStep(seen, acc, r);
        if acc.state != Closed {
          r := r + [acc];
        }
        seen := seen + {acc};
        rest := rest - {acc};
      }
      forall i | 0 <= i < |r| ensures r[i].state == Open && r[i].name in accountMap && accountMap[r[i].name] == r[i] {
        assert r[i] in multiset(r);
        StoredUnderName(accountMap, r[i]);
      }
    }

    /**
     * Writes the count and then every account, iterating the map's values.
     * `writeLimit` is how many objects the stream accepts before a write
     * throws; any failure becomes an IOException naming the file. The written
     * file reloads to exactly the current map.
     */
    method SaveAccounts(writeLimit: nat) returns (r: Result<Snapshot, Failure>)
      requires Valid()
      ensures r.Err? <==> writeLimit <= |accountMap|
      ensures r.Err? ==> r.error == IOException(CouldNotWriteMessage)
      ensures r.Ok? ==> r.value.count == |accountMap| == |r.value.records|
      ensures r.Ok? ==> forall i :: 0 <= i < |r.value.records| ==> r.value.records[i].Some?
      ensures r.Ok? ==> forall failAt: nat :: failAt > |accountMap| ==> Load(Some(r.value), failAt) == accountMap
    {
      ValuesCount(accountMap);
      if writeLimit == 0 {
        return Err(IOException(CouldNotWriteMessage));
      }
      var count := |accountMap|;
      var records: seq<Option<Account>> := [];
      var rest := accountMap.Values;
      while rest != {}
        invariant rest <= accountMap.Values
        invariant |records| + |rest| == count
        invariant |records| < writeLimit
        invariant forall i :: 0 <= i < |records| ==> records[i].Some?
        invariant Replay(records) == Written(accountMap, rest)
        decreases |rest|
      {
        if |records| + 1 >= writeLimit {
          return Err(IOException(CouldNotWriteMessage));
        }
        var acc :| acc in rest;
        WrittenStep(accountMap, rest, acc);
        assert (records + [Some(acc)])[..|records|] == records;
        records := records + [Some(acc)];
        rest := rest - {acc};
      }
      assert Written(accountMap, {}) == accountMap;
      var s := Snapshot(count, records);
      forall failAt: nat | failAt > |accountMap| ensures Load(Some(s), failAt) == accountMap {
        LoadComplete(s, failAt);
      }
      r := Ok(s);
    }

    /**
     * The save routine as shipped: it writes the count and then, for each
     * position below the count, the map's entry for that integer position,
     * which is always null.
     */
    method SaveAccountsAsWritten(writeLimit: nat) returns (r: Result<Snapshot, Failure>)
      requires Valid()
      ensures r.Err? <==> writeLimit <= |accountMap|
      ensures r.Err? ==> r.error == IOException(CouldNotWriteMessage)
      ensures r.Ok? ==> r.value == AsWrittenSnapshot(accountMap)
    {
      if writeLimit == 0 {
        return Err(IOException(CouldNotWriteMessage));
      }
      var records: seq<Option<Account>> := [];
      var i := 0;
      while i < |accountMap|
        invariant i == |records| <= |accountMap| && i < writeLimit
        invariant forall j :: 0 <= j < i ==> records[j].None?
      {
        if i + 1 >= writeLimit {
          return Err(IOException(CouldNotWriteMessage));
        }
        // an integer key never equals a string key, so the lookup yields null
        records := records + [None];
        i := i + 1;
      }
      r := Ok(Snapshot(|accountMap|, records));
    }
  }
}
