/**
 Account-number aliases: the helpers at the end of internal/services/common.go and
 internal/models/account_balance.go.
 */
module Aliases {
  import opened Basics
  import opened Balances
  import opened TransactionSets

  /** The number of an account and its T24 number, which is empty when it has none. */
  datatype AccountName = AccountName(number: string, t24: string) {
    predicate Answers(name: string) { name == number || (t24 != "" && name == t24) }
  }

  datatype AccountBalance = AccountBalance(name: AccountName, balance: Balance)

  function Names(abs: seq<AccountBalance>): (names: seq<AccountName>)
    ensures |names| == |abs| && forall i :: 0 <= i < |abs| ==> names[i] == abs[i].name
  {
    seq(|abs|, i requires 0 <= i < |abs| => abs[i].name)
  }

  /** Which account number each name stands for; a later account overrides an earlier one. */
  function AliasMap(names: seq<AccountName>): map<string, string> {
    if names == [] then map[]
    else
      var b := names[|names| - 1];
      var earlier := AliasMap(names[..|names| - 1]);
      (if b.t24 != "" then earlier[b.t24 := b.number] else earlier)[b.number := b.number]
  }

  /** The balances by account number; again a later entry overrides an earlier one. */
  function BalanceMapOf(abs: seq<AccountBalance>): BalanceMap {
    if abs == [] then map[]
    else BalanceMapOf(abs[..|abs| - 1])[abs[|abs| - 1].name.number := abs[|abs| - 1].balance]
  }

  predicate Listed(names: seq<AccountName>, name: string) { exists b :: b in names && b.Answers(name) }

  /** The first account of the transfers that no balance answers to. */
  function FirstUnknown(ts: seq<Transfer>, names: seq<AccountName>): Option<string>
    decreases |ts|
  {
    if ts == [] then None
    else if !Listed(names, ts[0].from) then Some(ts[0].from)
    else if !Listed(names, ts[0].to) then Some(ts[0].to)
    else FirstUnknown(ts[1..], names)
  }

  function ResolveName(aliases: map<string, string>, name: string): string {
    if name != "" && name in aliases then aliases[name] else name
  }

  function Resolve(aliases: map<string, string>, t: Transfer): Transfer {
    t.(from := ResolveName(aliases, t.from), to := ResolveName(aliases, t.to))
  }

  function ResolveAll(aliases: map<string, string>, ts: seq<Transfer>): (r: seq<Transfer>)
    ensures |r| == |ts| && forall i :: 0 <= i < |ts| ==> r[i] == Resolve(aliases, ts[i])
  {
    seq(|ts|, i requires 0 <= i < |ts| => Resolve(aliases, ts[i]))
  }

  /** Position i is the last one that answers to the name. */
  ghost predicate LastOwner(names: seq<AccountName>, name: string, i: nat) {
    i < |names| && names[i].Answers(name) && forall j :: i < j < |names| ==> !names[j].Answers(name)
  }

  /** A name is in the alias map exactly when some account answers to it, and stands for the last such account. */
  lemma {:induction false} AliasMapFindsLastOwner(names: seq<AccountName>, name: string)
    ensures name in AliasMap(names) <==> Listed(names, name)
    ensures name in AliasMap(names) ==>
      exists i: nat :: LastOwner(names, name, i) && AliasMap(names)[name] == names[i].number
  {
    if names != [] {
      var n := |names| - 1;
      AliasMapFindsLastOwner(names[..n], name);
      assert names == names[..n] + [names[n]];
      if names[n].Answers(name) {
        assert names[n] in names;
        assert LastOwner(names, name, n);
      } else if name in AliasMap(names[..n]) {
        var i: nat :| LastOwner(names[..n], name, i) && AliasMap(names[..n])[name] == names[..n][i].number;
        assert LastOwner(names, name, i);
      }
    }
  }

  lemma {:induction false} BalanceMapKeys(abs: seq<AccountBalance>, a: string)
    ensures a in BalanceMapOf(abs) <==> exists i :: 0 <= i < |abs| && abs[i].name.number == a
  {
    if abs != [] {
      var n := |abs| - 1;
      BalanceMapKeys(abs[..n], a);
      if abs[n].name.number != a && a in BalanceMapOf(abs[..n]) {
        var i :| 0 <= i < n && abs[..n][i].name.number == a;
        assert abs[i].name.number == a;
      }
    }
  }

  /** A name some account answers to resolves to a key of the balance map. */
  lemma ListedResolvesToKey(abs: seq<AccountBalance>, name: string)
    requires Listed(Names(abs), name)
    ensures ResolveName(AliasMap(Names(abs)), name) in BalanceMapOf(abs)
  {
    AliasMapFindsLastOwner(Names(abs), name);
    BalanceMapKeys(abs, ResolveName(AliasMap(Names(abs)), name));
    if name == "" {
      var b :| b in Names(abs) && b.Answers(name);
      var i :| 0 <= i < |abs| && Names(abs)[i] == b;
      assert abs[i].name.number == name;
    }
  }

  lemma {:induction false} NoUnknownMeansListed(ts: seq<Transfer>, names: seq<AccountName>)
    ensures FirstUnknown(ts, names).None? <==> forall t :: t in ts ==> Listed(names, t.from) && Listed(names, t.to)
    decreases |ts|
  {
    if ts != [] {
      NoUnknownMeansListed(ts[1..], names);
    }
  }

  /**
   If the validation accepts, then after the rename every child's two accounts are keys of the balance map, so
   no calculator in the fold ever reports a missing account.
   */
  lemma AliasResolutionIsClosed(abs: seq<AccountBalance>, ts: seq<Transfer>, c: Calculator)
    requires FirstUnknown(ts, Names(abs)).None?
    ensures Known(BalanceMapOf(abs), ResolveAll(AliasMap(Names(abs)), ts))
    ensures match Fold(c, BalanceMapOf(abs), ResolveAll(AliasMap(Names(abs)), ts)).error
            case None => true
            case Some(e) => !e.SourceNotFound? && !e.DestinationNotFound?
  {
    NoUnknownMeansListed(ts, Names(abs));
    var resolved := ResolveAll(AliasMap(Names(abs)), ts);
    forall t | t in resolved
      ensures t.from in BalanceMapOf(abs) && t.to in BalanceMapOf(abs)
    {
      var i :| 0 <= i < |ts| && resolved[i] == t;
      assert ts[i] in ts;
      ListedResolvesToKey(abs, ts[i].from);
      ListedResolvesToKey(abs, ts[i].to);
    }
    FoldFindsEveryAccount(c, BalanceMapOf(abs), resolved);
  }

  lemma {:induction false} UnknownIsFirst(ts: seq<Transfer>, names: seq<AccountName>, k: nat)
    requires k <= |ts| && forall i :: 0 <= i < k ==> Listed(names, ts[i].from) && Listed(names, ts[i].to)
    ensures FirstUnknown(ts, names) == FirstUnknown(ts[k..], names)
    decreases |ts|
  {
    if k == 0 {
      assert ts[0..] == ts;
    } else {
      UnknownIsFirst(ts[1..], names, k - 1);
      assert ts[1..][k - 1..] == ts[k..];
    }
  }

  /** Some account has this number, or this T24 number. */
  ghost predicate HasOwner(names: seq<AccountName>, n: string) {
    exists i :: 0 <= i < |names| && (names[i].number == n || (n != "" && names[i].t24 == n))
  }

  lemma HasOwnerIsListed(names: seq<AccountName>, n: string)
    ensures HasOwner(names, n) <==> Listed(names, n)
  {
    if b :| b in names && b.Answers(n) {
      var i :| 0 <= i < |names| && names[i] == b;
      assert names[i].number == n || (n != "" && names[i].t24 == n);
    }
    if i :| 0 <= i < |names| && (names[i].number == n || (n != "" && names[i].t24 == n)) {
      assert names[i] in names;
    }
  }

  /** The name belongs to nobody: it is the child's sender, or its receiver when the sender has an owner. */
  ghost predicate IsMissingOf(names: seq<AccountName>, t: Transfer, missing: string) {
    !HasOwner(names, missing) && missing == if HasOwner(names, t.from) then t.to else t.from
  }

  /** The account that is reported belongs to the first child with a missing one, and is its sender if that is. */
  lemma {:induction false} UnknownIsTheFirst(ts: seq<Transfer>, names: seq<AccountName>)
    requires FirstUnknown(ts, names).Some?
    ensures exists k ::
              && 0 <= k < |ts|
              && (forall j :: 0 <= j < k ==> HasOwner(names, ts[j].from) && HasOwner(names, ts[j].to))
              && IsMissingOf(names, ts[k], FirstUnknown(ts, names).value)
    decreases |ts|
  {
    HasOwnerIsListed(names, ts[0].from);
    HasOwnerIsListed(names, ts[0].to);
    hide HasOwner, Listed;
    if HasOwner(names, ts[0].from) && HasOwner(names, ts[0].to) {
      UnknownIsTheFirst(ts[1..], names);
      var rest := ts[1..];
      var k :|
        && 0 <= k < |rest|
        && (forall j :: 0 <= j < k ==> HasOwner(names, rest[j].from) && HasOwner(names, rest[j].to))
        && IsMissingOf(names, rest[k], FirstUnknown(rest, names).value);
      forall j | 0 <= j < k + 1 ensures HasOwner(names, ts[j].from) && HasOwner(names, ts[j].to) {
        assert j > 0 ==> ts[j] == rest[j - 1];
      }
      assert ts[k + 1] == rest[k];
    }
  }

  lemma ListedAppend(names: seq<AccountName>, b: AccountName)
    ensures forall n :: Listed(names + [b], n) <==> Listed(names, n) || b.Answers(n)
  {
    forall n
      ensures Listed(names + [b], n) <==> Listed(names, n) || b.Answers(n)
    {
      if Listed(names, n) {
        var c :| c in names && c.Answers(n);
        assert c in names + [b];
      }
      if b.Answers(n) {
        assert b in names + [b];
      }
    }
  }

  method ValidateAccountExistsInTransactions(ts: seq<Transfer>, balances: seq<AccountBalance>)
    returns (unknown: Option<string>)
    ensures unknown == FirstUnknown(ts, Names(balances))
  {
    var numbers: seq<string> := [];
    for i := 0 to |balances|
      invariant forall n :: n in numbers <==> Listed(Names(balances)[..i], n)
    {
      ghost var before := Names(balances)[..i];
      assert Names(balances)[..i + 1] == before + [balances[i].name];
      ListedAppend(before, balances[i].name);
      numbers := numbers + [balances[i].name.number];
      if balances[i].name.t24 != "" {
        numbers := numbers + [balances[i].name.t24];
      }
    }
    assert Names(balances)[..|balances|] == Names(balances);
    for k := 0 to |ts|
      invariant forall i :: 0 <= i < k ==> Listed(Names(balances), ts[i].from) && Listed(Names(balances), ts[i].to)
    {
      UnknownIsFirst(ts, Names(balances), k);
      if ts[k].from !in numbers {
        return Some(ts[k].from);
      }
      if ts[k].to !in numbers {
        return Some(ts[k].to);
      }
    }
    UnknownIsFirst(ts, Names(balances), |ts|);
    unknown := None;
  }

  method MapT24AccountNumberToAccountNumber(balances: seq<AccountBalance>) returns (aliases: map<string, string>)
    ensures aliases == AliasMap(Names(balances))
  {
    aliases := map[];
    for i := 0 to |balances|
      invariant aliases == AliasMap(Names(balances)[..i])
    {
      assert Names(balances)[..i + 1][..i] == Names(balances)[..i];
      var b := balances[i].name;
      if b.t24 != "" {
        aliases := aliases[b.t24 := b.number];
      }
      aliases := aliases[b.number := b.number];
    }
    assert Names(balances)[..|balances|] == Names(balances);
  }

  method ConvertToBalanceMap(balances: seq<AccountBalance>) returns (m: BalanceMap)
    ensures m == BalanceMapOf(balances)
  {
    m := map[];
    for i := 0 to |balances|
      invariant m == BalanceMapOf(balances[..i])
    {
      assert balances[..i + 1][..i] == balances[..i];
      m := m[balances[i].name.number := balances[i].balance];
    }
    assert balances[..|balances|] == balances;
  }

  /** Overwrites the account numbers of the child transactions in place. */
  method UpdateTransactionAccountNumber(trxReq: array<Transfer>, balances: seq<AccountBalance>)
    modifies trxReq
    ensures trxReq[..] == ResolveAll(AliasMap(Names(balances)), old(trxReq[..]))
  {
    var aliases := MapT24AccountNumberToAccountNumber(balances);
    for i := 0 to trxReq.Length
      invariant forall j :: 0 <= j < i ==> trxReq[j] == Resolve(aliases, old(trxReq[j]))
      invariant forall j :: i <= j < trxReq.Length ==> trxReq[j] == old(trxReq[j])
    {
      var req := trxReq[i];
      if req.from != "" {
        if req.from in aliases {
          trxReq[i] := trxReq[i].(from := aliases[req.from]);
        }
      }
      if req.to != "" {
        if req.to in aliases {
          trxReq[i] := trxReq[i].(to := aliases[req.to]);
        }
      }
    }
  }
}
