/** The account list and its critical sections (src/server/mod.rs, `bound_account` to `deregister_account`). */
module Accounts {
  import opened Optional

  datatype Status = AwaitingKey | Indexing | Ready | Error

  datatype Account = Account(qq: string, status: Status) {
    predicate Bound() { !status.AwaitingKey? }
  }

  type Accounts = seq<Account>

  predicate Distinct(accs: Accounts) {
    forall i, j :: 0 <= i < j < |accs| ==> accs[i].qq != accs[j].qq
  }

  function BoundAccount(accs: Accounts): (b: Option<Account>)
    ensures b.Some? ==> b.value in accs && b.value.Bound()
    ensures b.None? ==> forall a :: a in accs ==> !a.Bound()
  {
    if accs == [] then None else if accs[0].Bound() then Some(accs[0]) else BoundAccount(accs[1..])
  }

  predicate Has(accs: Accounts, qq: string) { exists a :: a in accs && a.qq == qq }

  /** `write_account_state`: overwrite the entry, or append one. */
  function SetStatus(accs: Accounts, qq: string, st: Status): Accounts {
    if accs == [] then [Account(qq, st)]
    else if accs[0].qq == qq then [Account(qq, st)] + accs[1..]
    else [accs[0]] + SetStatus(accs[1..], qq, st)
  }

  function Remove(accs: Accounts, qq: string): Accounts {
    if accs == [] then []
    else (if accs[0].qq == qq then [] else [accs[0]]) + Remove(accs[1..], qq)
  }

  lemma {:induction false} SetStatusSets(accs: Accounts, qq: string, st: Status)
    requires Distinct(accs)
    ensures Distinct(SetStatus(accs, qq, st))
    ensures forall a :: a in SetStatus(accs, qq, st) <==> a == Account(qq, st) || (a in accs && a.qq != qq)
  {
    if accs != [] {
      var rest := accs[1..];
      assert accs == [accs[0]] + rest;
      assert forall a :: a in rest ==> a.qq != accs[0].qq;
      if accs[0].qq != qq {
        SetStatusSets(rest, qq, st);
        var r := SetStatus(rest, qq, st);
        forall j | 0 <= j < |r| ensures r[j].qq != accs[0].qq { assert r[j] in r; }
      }
    }
  }

  lemma {:induction false} RemoveRemoves(accs: Accounts, qq: string)
    requires Distinct(accs)
    ensures Distinct(Remove(accs, qq))
    ensures forall a :: a in Remove(accs, qq) <==> a in accs && a.qq != qq
  {
    if accs != [] {
      var rest := accs[1..];
      assert accs == [accs[0]] + rest;
      assert forall a :: a in rest ==> a.qq != accs[0].qq;
      RemoveRemoves(rest, qq);
      var r := Remove(rest, qq);
      forall j | 0 <= j < |r| ensures r[j].qq != accs[0].qq { assert r[j] in r; }
    }
  }

  datatype BindOutcome = Claimed | SameQq(status: Status) | Occupied(qq: string, status: Status)

  /** `begin_indexing`: the occupancy check and the flip are one critical section. */
  function BeginIndexing(accs: Accounts, qq: string): (Accounts, BindOutcome) {
    match BoundAccount(accs)
    case Some(b) =>
      if b.qq != qq then (accs, Occupied(b.qq, b.status))
      else if b.status.Ready? || b.status.Indexing? then (accs, SameQq(b.status))
      else (SetStatus(accs, qq, Indexing), Claimed)
    case None => (SetStatus(accs, qq, Indexing), Claimed)
  }

  /** Resetting a deregistered account: a scanned one waits for a key again, any other is forgotten. */
  function ResetAccount(accs: Accounts, scanned: set<string>, qq: string): Accounts {
    if qq !in scanned then Remove(accs, qq)
    else if Has(accs, qq) then SetStatus(accs, qq, AwaitingKey)
    else accs
  }

  predicate OneBound(accs: Accounts) {
    forall a, b :: a in accs && b in accs && a.Bound() && b.Bound() ==> a == b
  }

  /** Claiming never adds a second binding, and a claim is won only when no one else is past waiting. */
  lemma ClaimKeepsOneBound(accs: Accounts, qq: string)
    requires Distinct(accs) && OneBound(accs)
    ensures var (accs', out) := BeginIndexing(accs, qq);
      && Distinct(accs') && OneBound(accs')
      && (out.Claimed? ==>
            Account(qq, Indexing) in accs' && forall a :: a in accs && a.Bound() ==> a == Account(qq, Error))
      && (!out.Claimed? ==> accs' == accs)
  {
    SetStatusSets(accs, qq, Indexing);
  }

  /** The locked account list as the program keeps it: a vector updated in place. */
  class AccountList {
    var accounts: Accounts

    constructor (accounts: Accounts)
      ensures this.accounts == accounts
    {
      this.accounts := accounts;
    }

    method Position(qq: string) returns (at: Option<nat>)
      ensures at.Some? ==> at.value < |accounts| && accounts[at.value].qq == qq
                           && forall i :: 0 <= i < at.value ==> accounts[i].qq != qq
      ensures at.None? ==> forall i :: 0 <= i < |accounts| ==> accounts[i].qq != qq
    {
      for i := 0 to |accounts|
        invariant forall j :: 0 <= j < i ==> accounts[j].qq != qq
      {
        if accounts[i].qq == qq { return Some(i); }
      }
      at := None;
    }

    method WriteState(qq: string, st: Status)
      modifies this
      ensures accounts == SetStatus(old(accounts), qq, st)
    {
      var at := Position(qq);
      SetStatusAt(accounts, qq, st, if at.Some? then at.value else |accounts|);
      match at
      case Some(i) => accounts := accounts[i := Account(qq, st)];
      case None => accounts := accounts + [Account(qq, st)];
    }

    method FindBound() returns (b: Option<Account>)
      ensures b == BoundAccount(accounts)
    {
      ghost var all := accounts;
      for i := 0 to |accounts|
        invariant BoundAccount(all[i..]) == BoundAccount(all)
      {
        if accounts[i].Bound() { return Some(accounts[i]); }
        assert all[i..][1..] == all[i + 1..];
      }
      b := None;
    }

    method Begin(qq: string) returns (out: BindOutcome)
      modifies this
      ensures (accounts, out) == BeginIndexing(old(accounts), qq)
    {
      var b := FindBound();
      if b.Some? {
        if b.value.qq != qq { return Occupied(b.value.qq, b.value.status); }
        if b.value.status.Ready? || b.value.status.Indexing? { return SameQq(b.value.status); }
      }
      WriteState(qq, Indexing);
      out := Claimed;
    }

    method Reset(scanned: set<string>, qq: string)
      modifies this
      ensures accounts == ResetAccount(old(accounts), scanned, qq)
    {
      var at := Position(qq);
      if qq in scanned {
        if at.Some? {
          assert accounts[at.value] in accounts;
          WriteState(qq, AwaitingKey);
        }
      } else {
        Retain(qq);
      }
    }

    /** Keeps the entries of every other account, in order. */
    method Retain(qq: string)
      modifies this
      ensures accounts == Remove(old(accounts), qq)
    {
      var kept: Accounts := [];
      ghost var all := accounts;
      for i := 0 to |accounts|
        invariant accounts == all && kept + Remove(all[i..], qq) == Remove(all, qq)
      {
        RemoveAt(all, qq, i, kept);
        if accounts[i].qq != qq { kept := kept + [accounts[i]]; }
      }
      assert kept + [] == kept;
      accounts := kept;
    }
  }

  lemma RemoveAt(accs: Accounts, qq: string, i: nat, kept: Accounts)
    requires i < |accs|
    ensures kept + Remove(accs[i..], qq)
         == (if accs[i].qq == qq then kept else kept + [accs[i]]) + Remove(accs[i + 1..], qq)
  {
    assert accs[i..][0] == accs[i] && accs[i..][1..] == accs[i + 1..];
    var rest := Remove(accs[i + 1..], qq);
    assert [] + rest == rest && kept + ([accs[i]] + rest) == kept + [accs[i]] + rest;
  }

  lemma {:induction false} SetStatusAt(accs: Accounts, qq: string, st: Status, i: nat)
    requires i <= |accs| && forall j :: 0 <= j < i ==> accs[j].qq != qq
    requires i < |accs| ==> accs[i].qq == qq
    ensures SetStatus(accs, qq, st) == if i < |accs| then accs[i := Account(qq, st)] else accs + [Account(qq, st)]
  {
    if i > 0 {
      SetStatusAt(accs[1..], qq, st, i - 1);
    }
  }
}
