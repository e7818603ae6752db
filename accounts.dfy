/**
 * The account record as the registry sees it: a name (its identity and its key
 * in the registry), a kind, a balance and a lifecycle state.
 */
module Accounts {
  import opened Wrappers

  /** The two concrete account classes the registry can construct. */
  datatype Kind = Checking | Savings

  datatype State = Open | Closed

  /**
   * An account record. The balance is a Java float in the source; only its
   * sign is ever inspected, so it is an integer here.
   */
  datatype Account = Account(name: string, kind: Kind, balance: int, state: State)

  /** The type string that selects a kind (the name of the Java class). */
  function KindName(k: Kind): (s: string)
    ensures KindOf(s) == Some(k)
  {
    match k
    case Checking => "Checking"
    case Savings => "Savings"
  }

  /** Parses a type string: an exact, case-sensitive match of one of the two names. */
  function KindOf(s: string): Option<Kind> {
    if s == "Checking" then Some(Checking)
    else if s == "Savings" then Some(Savings)
    else None
  }

  /** The parse accepts a string only when it is exactly the name of the kind it yields. */
  lemma KindOfExact(s: string)
    ensures KindOf(s).Some? ==> KindName(KindOf(s).value) == s
    ensures KindOf(s).None? ==> forall k :: KindName(k) != s
  {
  }

  /** A freshly constructed account: the given name, kind and balance, and state OPEN. */
  function NewRecord(kind: Kind, name: string, balance: int): (a: Account)
    ensures a.name == name && a.state == Open
  {
    Account(name, kind, balance, Open)
  }

  /** The registry's invariant: every account is stored under its own name. */
  ghost predicate KeyedByName(m: map<string, Account>) {
    forall k :: k in m ==> m[k].name == k
  }

  /** A map keyed by name holds as many distinct records as it has keys. */
  lemma {:induction false} ValuesCount(m: map<string, Account>)
    requires KeyedByName(m)
    ensures |m.Values| == |m|
  {
    if m != map[] {
      var k :| k in m;
      var rest := m - {k};
      assert KeyedByName(rest);
      ValuesCount(rest);
      forall v | v in m.Values ensures v in rest.Values + {m[k]} {
        var j :| j in m && m[j] == v;
        if j != k { assert j in rest; }
      }
      assert m.Values == rest.Values + {m[k]};
      assert rest.Keys == m.Keys - {k};
    }
  }

  /** Under the invariant, an account found among the values is the one stored under its name. */
  lemma StoredUnderName(m: map<string, Account>, a: Account)
    requires KeyedByName(m) && a in m.Values
    ensures a.name in m && m[a.name] == a
  {
  }
}
