# Account registry (`ServerSolution`) in Dafny

This project models the account registry of a small banking system, the
class `ServerSolution`. The registry owns a map from account name to account
record. It creates checking and savings accounts, marks them closed (it never
removes them), looks them up, lists all of them or only the open ones, and
saves the whole map to a file. On startup it rebuilds the map from that file.

- `wrappers.dfy` (`Wrappers`): `Option` stands for a nullable reference and
  `Result` for "returns or throws".
- `accounts.dfy` (`Accounts`): the account record (name, kind, balance,
  state). It also holds the parse of the type string and the registry's
  invariant `KeyedByName`: every record is stored under its own name.
- `storage.dfy` (`Storage`): the file as a leading count plus a sequence of
  possibly-null records. `Replay` and `Load` define what the load loop
  rebuilds, including when reading stops early.
- `server_solution.dfy` (`Server`): the class `ServerSolution` with its
  `accountMap` field. Each Java method is a Dafny method or function with the
  same order of checks, the same exception messages, and a contract giving the
  new map in terms of the old one.
- `scenario.dfy` (`Scenario`): a client. It shows what a caller can conclude
  from the contracts alone: the validation cases, closing twice, the active
  list, and save followed by reload.

I/O becomes parameters:
- The constructor takes the file as `Option<Snapshot>`, where `None` means
  the file does not exist. It also takes `failAt`, the number of stream
  objects (the header included) that are read before a read throws. A
  corrupt stream, a header that is not an `Integer`, or a record that is not
  an `Account` are all such a throw.
- `SaveAccounts` takes `writeLimit`, the number of objects the output stream
  accepts before a write throws.
- On success `SaveAccounts` returns the `Snapshot` it wrote. On failure it
  returns `IOException("Could not write file:accounts.ser")`.

`saveAccounts` is modelled as the doc comment at
`src/banking/primitive/core/ServerSolution.java:136` describes it: it writes
every current account. The code at line 147 does something else; see
Findings. Its behaviour as written is modelled separately.

## Model

| member | source | states |
|---|---|---|
| Accounts.KindName | src/banking/primitive/core/ServerSolution.java:64-68 | the type string of each kind parses back to that kind |
| Accounts.KindOfExact | src/banking/primitive/core/ServerSolution.java:64-72 | a type string is accepted only when it is exactly the name of the kind it selects; any other string matches no kind |
| Accounts.NewRecord | src/banking/primitive/core/ServerSolution.java:65-68 | a newly constructed account has the requested name and is OPEN |
| Accounts.ValuesCount | src/banking/primitive/core/ServerSolution.java:119 | when the map is keyed by name, it holds as many distinct records as keys, so the list of values has one element per entry |
| Accounts.StoredUnderName | src/banking/primitive/core/ServerSolution.java:34 | when the map is keyed by name, a record found among its values is the one stored under its own name |
| Storage.Replay | src/banking/primitive/core/ServerSolution.java:31-35 | reading records into the map keeps it keyed by name; every stored record appears in the file; every non-null record read has its name as a key |
| Storage.RecordsRead | src/banking/primitive/core/ServerSolution.java:29-35 | the load loop reads at most the count, at most the records present and fewer objects than the failure point, and stops for one of those reasons |
| Storage.Load | src/banking/primitive/core/ServerSolution.java:20-49 | the loaded map is keyed by name; a missing file or an unreadable header gives the empty map; every loaded entry is a record of the file |
| Storage.ReplayPrefixKeys | src/banking/primitive/core/ServerSolution.java:31-35 | stopping early loads no name that reading the whole file would not |
| Storage.LoadKeysGrow | src/banking/primitive/core/ServerSolution.java:24-48 | the later a read fails, the more names survive: the partial load's keys are contained in the later one's |
| Storage.LoadComplete | src/banking/primitive/core/ServerSolution.java:29-35 | a file whose count matches its records, read without failure, loads all of its records |
| Storage.ReplayAllAbsent | src/banking/primitive/core/ServerSolution.java:33-34 | a file whose records are all null loads nothing |
| Server.AsWrittenSnapshot | src/banking/primitive/core/ServerSolution.java:145-148 | the shipped save writes the right count followed by that many null records |
| Server.AsWrittenLosesAccounts | src/banking/primitive/core/ServerSolution.java:147 | the file the shipped save writes reloads to the empty map, so a non-empty registry does not survive save and reload |
| Server.ServerSolution.constructor | src/banking/primitive/core/ServerSolution.java:20-49 | the registry starts keyed by name, holding exactly the map `Load` gives for the file and the failure point; it never throws |
| Server.ServerSolution.NewAccountFactory | src/banking/primitive/core/ServerSolution.java:58-79 | a used name (open or closed) gives false, checked before the type; a fresh name with an unknown type throws "Bad account type:" plus the type; otherwise exactly one OPEN record is added under the name and true is returned; nothing else changes |
| Server.ServerSolution.NewAccount | src/banking/primitive/core/ServerSolution.java:87-93 | a negative balance throws before any other check and changes nothing; otherwise the outcomes of the factory; the key set never shrinks |
| Server.ServerSolution.CloseAccount | src/banking/primitive/core/ServerSolution.java:99-106 | returns true exactly when the name is known; only that record's state changes, to CLOSED; the key set and all other records are unchanged; an unknown name changes nothing |
| Server.ServerSolution.GetAccount | src/banking/primitive/core/ServerSolution.java:111-113 | present exactly when the name is a key, closed accounts included, and then it is the record stored under that name |
| Server.ServerSolution.GetAllAccounts | src/banking/primitive/core/ServerSolution.java:118-120 | the list holds every record of the map exactly once and nothing else; its length is the map's size |
| Server.ServerSolution.GetActiveAccounts | src/banking/primitive/core/ServerSolution.java:125-134 | the list holds exactly the records that are not CLOSED, each once; it is a sub-multiset of all records, and each element is OPEN and stored under its name |
| Server.ServerSolution.SaveAccounts | src/banking/primitive/core/ServerSolution.java:135-161 | fails exactly when the stream refuses one of the count plus the records, with "Could not write file:accounts.ser"; on success it writes the count and one non-null record per entry, and reloading that file reproduces the map |
| Server.ServerSolution.SaveAccountsAsWritten | src/banking/primitive/core/ServerSolution.java:140-161 | the shipped save: the same failure rule, and on success exactly the file of `AsWrittenSnapshot` |

## Left out

- Java object streams, the file system and the byte format of the file are not modelled. The file is a count plus a sequence of optional records, and the failure points are parameters. `file.exists()` is the `None` case.
- Console output and stack traces are not modelled. Nor are the exceptions thrown by `close()` in the `finally` blocks, which the source ignores.
- Server.ServerSolution.SaveAccounts: the partial file left behind by a failed write is not modelled. Only the exception is returned.
- The balance is a Java `float`; here it is an integer. Only its sign is tested. A NaN balance, which passes the `< 0.0f` test in Java, has no counterpart.
- Accounts are values, not shared objects. In Java, `getAccount` returns the stored object, and a caller that changes its state changes the registry. That aliasing is not modelled.
- Null type strings, null names and a null key in the map are not modelled. Strings are never null here.
- The interest and fee rules of `Account`, `Checking` and `Savings` are not modelled. `Account`, `Checking` and `Savings` are not part of this model. Their constructors are assumed to give an OPEN record with the given name, kind and balance.
- The order of the lists from `getAllAccounts` and `getActiveAccounts` follows `HashMap` iteration order. Here it is any order, and the contracts compare the lists as multisets. The copy made by `new ArrayList(values())` is written as a loop.
- The `catch` around `accountMap.put` at lines 73-77 is not modelled: a `HashMap` put does not throw here.
- The leading count is a 32-bit `int` in the file. It is an unbounded integer here, since it is only compared.
- The file name is the fixed constant `accounts.ser`. Concurrent use of the registry is not modelled.

## Findings

| source | as written | input that shows it | evidently intended | confidence | as-written member | corrected member |
|---|---|---|---|---|---|---|
| src/banking/primitive/core/ServerSolution.java:147 | writes `accountMap.get(i)` with an `int` key on a map keyed by `String`, so every record written is null | a registry holding one account "a": the file is count 1 followed by one null; reloading skips the null and yields the empty map | write every value of the map, as the comment at line 136 says, so that reloading reproduces the map | high; not executed | Server.AsWrittenLosesAccounts | Server.ServerSolution.SaveAccounts |
