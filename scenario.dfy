/**
 * A caller of the registry: what the operations' contracts alone let a client
 * conclude about creations, closings, listings and a save and reload.
 */
module Scenario {
  import opened Wrappers
  import opened Accounts
  import opened Storage
  import opened Server

  /** Invalid creations throw and add nothing; a used name is refused in any state. */
  method Creation(failAt: nat) {
    var server := new ServerSolution(None, failAt);
    var r := server.NewAccount("Checking", "x", -1);
    assert r == Err(IllegalArgument(NegativeBalanceMessage)) && "x" !in server.accountMap;
    r := server.NewAccount("Bogus", "y", 10);
    assert r == Err(IllegalArgument(BadTypeMessage("Bogus"))) && "y" !in server.accountMap;
    r := server.NewAccount("Savings", "b", 0);
    assert r == Ok(true);
    var ok := server.CloseAccount("b");
    r := server.NewAccount("Bogus", "b", 5);
    assert r == Ok(false) && |server.accountMap| == 1;
  }

  /** Closing twice succeeds twice; closing an unknown name fails. */
  method Closing(server: ServerSolution)
    requires server.Valid() && "b" in server.accountMap
    modifies server
  {
    var ok := server.CloseAccount("b");
    assert ok;
    ok := server.CloseAccount("b");
    assert ok && server.GetAccount("b").value.state == Closed;
    ok := server.CloseAccount("nobody");
    assert ok == ("nobody" in old(server.accountMap));
  }

  /** The active list holds the open account and not the closed one; the full list holds both. */
  method Listing(server: ServerSolution, a: Account, b: Account)
    requires server.Valid() && server.accountMap == map["a" := a, "b" := b]
    requires a.state == Open && b.state == Closed
  {
    var active := server.GetActiveAccounts();
    assert server.accountMap["a"] == a && server.accountMap["b"] == b;
    assert a in server.accountMap.Values && b in server.accountMap.Values;
    assert a in multiset(active) && b !in multiset(active);
    var all := server.GetAllAccounts();
    assert a in multiset(all) && b in multiset(all);
  }

  /** A successful save, read back in full, gives a registry with the same map. */
  method RoundTrip(server: ServerSolution, writeLimit: nat)
    requires server.Valid()
  {
    var saved := server.SaveAccounts(writeLimit);
    if saved.Ok? {
      var reloaded := new ServerSolution(Some(saved.value), |server.accountMap| + 1);
      assert reloaded.accountMap == server.accountMap;
    }
  }
}
