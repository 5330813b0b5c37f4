/** The slice of the ledger data model that the report drivers see.

    The ledger itself (entries, postings, accounts, multi-commodity balances)
    belongs to `ledger.h`, which is not part of this model; only the fields the
    drivers read, and the identities they compare, are kept here. */
module Ledger {
  import opened Wrappers

  /** Identity of an entry (the C++ code compares `entry_t *` addresses). */
  type EntryId = nat

  /** Identity of a transaction, i.e. of one posting. */
  type XactId = nat

  /** A timestamp as returned by `std::time`. */
  type Time = int

  /** The scalar quantity of a balance. Multi-commodity balances are collapsed
      to one integer so that sums and negations are exact. */
  type Balance = int

  /** An entry as a report sees it: its payee and its date. */
  datatype Entry = Entry(payee: string, date: Time)

  /** A transaction, with the identity of its parent entry; `entry` is `None`
      when the C++ `entry` field is null. */
  datatype Xact = Xact(id: XactId, entry: Option<EntryId>)

  /** An account node. Accounts are identified by their full name, which is
      unique in the account tree. */
  datatype Account = Account(fullname: string, value: Balance)

  /** The render context `details_t`: exactly one entry, transaction or account. */
  datatype Details =
    | OfEntry(entry: Entry)
    | OfXact(xact: Xact)
    | OfAccount(account: Account)

  /** The identities of the transactions in a stream. */
  function Ids(xs: seq<Xact>): (ids: set<XactId>)
    ensures forall i :: 0 <= i < |xs| ==> xs[i].id in ids
    ensures forall id :: id in ids ==> exists i :: 0 <= i < |xs| && xs[i].id == id
  {
    set i | 0 <= i < |xs| :: xs[i].id
  }

  /** The full names of a sequence of accounts. */
  function Names(accts: seq<Account>): (names: set<string>)
    ensures forall i :: 0 <= i < |accts| ==> accts[i].fullname in names
    ensures forall n :: n in names ==> exists i :: 0 <= i < |accts| && accts[i].fullname == n
  {
    set i | 0 <= i < |accts| :: accts[i].fullname
  }

  lemma IdsCons(x: Xact, ys: seq<Xact>)
    ensures Ids([x] + ys) == {x.id} + Ids(ys)
  {
    assert ([x] + ys)[0] == x;
    forall id | id in Ids(ys) ensures id in Ids([x] + ys) {
      var i :| 0 <= i < |ys| && ys[i].id == id;
      assert ([x] + ys)[i + 1] == ys[i];
    }
    forall id | id in Ids([x] + ys) ensures id == x.id || id in Ids(ys) {
      var i :| 0 <= i < |[x] + ys| && ([x] + ys)[i].id == id;
      if i > 0 {
        assert ([x] + ys)[i] == ys[i - 1];
      }
    }
  }

  lemma NamesCons(a: Account, rest: seq<Account>)
    ensures Names([a] + rest) == {a.fullname} + Names(rest)
  {
    var all := [a] + rest;
    assert all[0] == a;
    forall i | 0 <= i < |rest| ensures all[i + 1] == rest[i] { }
    forall n | n in Names(all) ensures n == a.fullname || n in Names(rest) {
      var i :| 0 <= i < |all| && all[i].fullname == n;
      if i > 0 { assert all[i] == rest[i - 1]; }
    }
  }

  /** The sum of the quantities of a sequence of accounts. */
  function Sum(accts: seq<Account>): Balance
  {
    if accts == [] then 0 else Sum(accts[..|accts| - 1]) + accts[|accts| - 1].value
  }

  /** Sum(accts) read from the front: the first quantity plus the rest. */
  lemma {:induction false} SumCons(a: Account, rest: seq<Account>)
    ensures Sum([a] + rest) == a.value + Sum(rest)
    decreases |rest|
  {
    if rest != [] {
      var init := rest[..|rest| - 1];
      SumCons(a, init);
      assert ([a] + rest)[..|rest|] == [a] + init;
    }
  }
}
