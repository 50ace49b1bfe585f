/** The tokens a swap can buy: the native coin, then the recommended tokens, then whatever else is owned. */
module TokenItems {
  import opened Text
  import opened Tokens
  import opened Units

  datatype TokenBalance = TokenBalance(symbol: string, address: string, decimals: Decimals, balance: string,
      usdValue: string)

  datatype Item = Item(symbol: string, address: string, decimals: Decimals, balance: string, usdValue: string,
      owned: bool)

  /** The last balance of an address, up to case. */
  function LastOwned(balances: seq<TokenBalance>, key: string): Option<TokenBalance> {
    if balances == [] then None
    else
      var b := balances[|balances| - 1];
      if Lower(b.address) == key then Some(b) else LastOwned(balances[..|balances| - 1], key)
  }

  function PickBalance(b: Option<TokenBalance>): string {
    if b.None? || b.value.balance == "" then "0.00" else b.value.balance
  }

  /** A token that is listed whether it is owned or not. */
  function Listed(t: TokenInfo, balances: seq<TokenBalance>): Item {
    var b := LastOwned(balances, Lower(t.address));
    Item(t.symbol, t.address, t.decimals, PickBalance(b), if b.Some? then b.value.usdValue else "", b.Some?)
  }

  lemma {:induction false} LastOwnedIs(balances: seq<TokenBalance>, key: string, k: nat)
    requires k < |balances| && Lower(balances[k].address) == key
    requires forall i :: k < i < |balances| ==> Lower(balances[i].address) != key
    ensures LastOwned(balances, key) == Some(balances[k])
  {
    hide Lower;
    if k < |balances| - 1 {
      LastOwnedIs(balances[..|balances| - 1], key, k);
    }
  }

  lemma {:induction false} NoneOwned(balances: seq<TokenBalance>, key: string)
    requires forall b :: b in balances ==> Lower(b.address) != key
    ensures LastOwned(balances, key) == None
  {
    hide Lower;
    if balances != [] {
      NoneOwned(balances[..|balances| - 1], key);
    }
  }

  /** Of the balances of this address, up to case, the one at `k` is the last. */
  ghost predicate IsLast(balances: seq<TokenBalance>, address: string, k: nat) {
    && k < |balances| && Lower(balances[k].address) == Lower(address)
    && forall i :: k < i < |balances| ==> Lower(balances[i].address) != Lower(address)
  }

  /** An unowned token shows "0.00"; an owned one its last balance, and "0.00" only when that is empty. */
  lemma ListedMeaning(t: TokenInfo, balances: seq<TokenBalance>, k: nat)
    ensures (forall b :: b in balances ==> Lower(b.address) != Lower(t.address)) ==>
      Listed(t, balances) == Item(t.symbol, t.address, t.decimals, "0.00", "", false)
    ensures IsLast(balances, t.address, k) ==>
      var shown := if |balances[k].balance| == 0 then "0.00" else balances[k].balance;
      Listed(t, balances) == Item(t.symbol, t.address, t.decimals, shown, balances[k].usdValue, true)
  {
    hide Lower, LastOwned;
    if forall b :: b in balances ==> Lower(b.address) != Lower(t.address) {
      NoneOwned(balances, Lower(t.address));
    } else if IsLast(balances, t.address, k) {
      LastOwnedIs(balances, Lower(t.address), k);
    }
  }

  function Owned(b: TokenBalance): Item {
    Item(b.symbol, b.address, b.decimals, b.balance, b.usdValue, true)
  }

  function Native(c: Config): TokenInfo {
    TokenInfo(c.nativeSymbol, NATIVE, c.nativeDecimals)
  }

  /** Everything that asks to be listed, in order of precedence. */
  function Candidates(native: TokenInfo, recommended: seq<TokenInfo>, balances: seq<TokenBalance>): seq<Item> {
    [Listed(native, balances)]
    + seq(|recommended|, i requires 0 <= i < |recommended| => Listed(recommended[i], balances))
    + seq(|balances|, i requires 0 <= i < |balances| => Owned(balances[i]))
  }

  function Keys(items: seq<Item>): set<string> {
    set i | 0 <= i < |items| :: Lower(items[i].address)
  }

  /** The addresses of two of the sources, folded. */
  function Addresses(recommended: seq<TokenInfo>, balances: seq<TokenBalance>): set<string> {
    (set r | r in recommended :: Lower(r.address)) + (set b | b in balances :: Lower(b.address))
  }

  /** Of all the items with the same address up to case, the first. */
  function Firsts(items: seq<Item>): seq<Item> {
    if items == [] then []
    else
      var (kept, last) := (Firsts(items[..|items| - 1]), items[|items| - 1]);
      if Lower(last.address) in Keys(kept) then kept else kept + [last]
  }

  lemma FirstsStep(items: seq<Item>, x: Item)
    ensures Firsts(items + [x]) ==
      if Lower(x.address) in Keys(Firsts(items)) then Firsts(items) else Firsts(items) + [x]
  {
    assert (items + [x])[..|items|] == items;
  }

  lemma KeysStep(items: seq<Item>, x: Item)
    ensures Keys(items + [x]) == Keys(items) + {Lower(x.address)}
  {
    var more := items + [x];
    assert more[|items|] == x;
    forall k | k in Keys(items)
      ensures k in Keys(more)
    {
      var i :| 0 <= i < |items| && Lower(items[i].address) == k;
      assert more[i] == items[i];
    }
  }

  function Look(owned: map<string, TokenBalance>, key: string): Option<TokenBalance> {
    if key in owned then Some(owned[key]) else None
  }

  /** Indexes the balances by address; a later one replaces an earlier one. */
  method IndexOwned(balances: seq<TokenBalance>) returns (owned: map<string, TokenBalance>)
    ensures forall key :: Look(owned, key) == LastOwned(balances, key)
  {
    hide Lower;
    owned := map[];
    for i := 0 to |balances|
      invariant forall key :: Look(owned, key) == LastOwned(balances[..i], key)
    {
      assert balances[..i + 1][..i] == balances[..i];
      owned := owned[Lower(balances[i].address) := balances[i]];
    }
    assert balances[..|balances|] == balances;
  }

  lemma CandidatesOneByOne(native: TokenInfo, recommended: seq<TokenInfo>, balances: seq<TokenBalance>)
    ensures var all := Candidates(native, recommended, balances);
      && |all| == 1 + |recommended| + |balances|
      && all[0] == Listed(native, balances)
      && (forall i :: 0 <= i < |recommended| ==> all[1 + i] == Listed(recommended[i], balances))
      && (forall i :: 0 <= i < |balances| ==> all[1 + |recommended| + i] == Owned(balances[i]))
  {
    hide Listed;
  }

  lemma FirstOfOne(x: Item)
    ensures Firsts([x]) == [x] && Keys([x]) == {Lower(x.address)}
  {
    assert [x] == [] + [x];
    KeysStep([], x);
    FirstsStep([], x);
  }

  /** Taking one more candidate: it is added unless its address was seen. */
  lemma Taken(all: seq<Item>, i: nat, out: seq<Item>)
    requires i < |all| && out == Firsts(all[..i])
    ensures var seen := Lower(all[i].address) in Keys(out);
      && Firsts(all[..i + 1]) == (if seen then out else out + [all[i]])
      && Keys(out + [all[i]]) == Keys(out) + {Lower(all[i].address)}
  {
    assert all[..i + 1] == all[..i] + [all[i]];
    FirstsStep(all[..i], all[i]);
    KeysStep(out, all[i]);
  }

  /** The native coin, then two loops, over a map of what is owned and one of what was seen. */
  method BuildToItems(c: Config, recommended: seq<TokenInfo>, balances: seq<TokenBalance>) returns (out: seq<Item>)
    ensures out == Firsts(Candidates(Native(c), recommended, balances))
  {
    var native := Native(c);
    var owned := IndexOwned(balances);
    ghost var all := Candidates(native, recommended, balances);
    CandidatesOneByOne(native, recommended, balances);
    hide Lower, LastOwned, Candidates, Look, Firsts, Keys;
    var first := Look(owned, Lower(native.address));
    var value := if first.Some? then first.value.usdValue else "";
    out := [Item(native.symbol, native.address, native.decimals, PickBalance(first), value, first.Some?)];
    var seen := {Lower(native.address)};
    FirstOfOne(all[0]);
    assert all[..1] == out;
    for i := 0 to |recommended|
      invariant out == Firsts(all[..1 + i]) && seen == Keys(out)
    {
      var r := recommended[i];
      Taken(all, 1 + i, out);
      if Lower(r.address) !in seen {
        seen := seen + {Lower(r.address)};
        var b := Look(owned, Lower(r.address));
        value := if b.Some? then b.value.usdValue else "";
        out := out + [Item(r.symbol, r.address, r.decimals, PickBalance(b), value, b.Some?)];
      }
    }
    for i := 0 to |balances|
      invariant out == Firsts(all[..1 + |recommended| + i]) && seen == Keys(out)
    {
      var b := balances[i];
      Taken(all, 1 + |recommended| + i, out);
      if Lower(b.address) !in seen {
        seen := seen + {Lower(b.address)};
        out := out + [Item(b.symbol, b.address, b.decimals, b.balance, b.usdValue, true)];
      }
    }
    assert all[..|all|] == all;
  }

  // ---------------------------------------------------------------- what the list is

  /** Where the items of the list come from: in order, and each from the first place its address occurs. */
  ghost predicate ComesFrom(list: seq<Item>, items: seq<Item>, at: seq<nat>) {
    && |at| == |list|
    && (forall k :: 0 <= k < |at| ==> at[k] < |items| && list[k] == items[at[k]])
    && (forall k, l :: 0 <= k < l < |at| ==> at[k] < at[l])
    && (forall k, i :: 0 <= k < |at| && 0 <= i < at[k] ==> Lower(items[i].address) != Lower(list[k].address))
  }

  lemma {:induction false} FirstsComeFrom(items: seq<Item>) returns (at: seq<nat>)
    ensures ComesFrom(Firsts(items), items, at)
    ensures Keys(Firsts(items)) == Keys(items)
  {
    if items == [] {
      at := [];
    } else {
      var n := |items| - 1;
      var (before, x) := (items[..n], items[n]);
      at := FirstsComeFrom(before);
      assert items == before + [x];
      FirstsStep(before, x);
      KeysStep(before, x);
      hide Firsts, Keys;
      if Lower(x.address) in Keys(before) {
        StillComesFrom(Firsts(before), before, x, at);
      } else {
        KeysStep(Firsts(before), x);
        ComesLast(Firsts(before), before, x, at);
        at := at + [n];
      }
    }
  }

  lemma StillComesFrom(list: seq<Item>, before: seq<Item>, x: Item, at: seq<nat>)
    requires ComesFrom(list, before, at)
    ensures ComesFrom(list, before + [x], at)
  {
    hide Lower;
  }

  lemma ComesLast(list: seq<Item>, before: seq<Item>, x: Item, at: seq<nat>)
    requires ComesFrom(list, before, at) && Lower(x.address) !in Keys(before)
    ensures ComesFrom(list + [x], before + [x], at + [|before|])
  {
    assert forall i :: 0 <= i < |before| ==> Lower(before[i].address) in Keys(before);
    hide Lower, Keys;
  }

  lemma {:induction false} OwnedIsListed(balances: seq<TokenBalance>, key: string)
    ensures LastOwned(balances, key).Some? <==> exists i :: 0 <= i < |balances| && Lower(balances[i].address) == key
  {
    if balances != [] {
      OwnedIsListed(balances[..|balances| - 1], key);
    }
  }

  /**
   * The list starts with the native coin; what is recommended comes before what is merely owned, each in the
   * source's order and each as it first occurs; no address occurs twice, up to case; every address of the three
   * sources is there and no other; and an item is marked as owned exactly when its address is among the balances.
   */
  lemma ListIsOrderedUnion(c: Config, recommended: seq<TokenInfo>, balances: seq<TokenBalance>) returns (at: seq<nat>)
    ensures var all := Candidates(Native(c), recommended, balances);
      var list := Firsts(all);
      && ComesFrom(list, all, at) && |list| > 0 && list[0] == Listed(Native(c), balances)
      && (forall k, l :: 0 <= k < l < |list| ==> !EqualFold(list[k].address, list[l].address))
      && Keys(list) == {Lower(NATIVE)} + Addresses(recommended, balances)
      && (forall x :: x in list ==> (x.owned <==> exists b :: b in balances && EqualFold(b.address, x.address)))
  {
    var all := Candidates(Native(c), recommended, balances);
    at := FirstsComeFrom(all);
    var list := Firsts(all);
    hide LastOwned, Lower, Firsts;
    StartsWithFirst(all, list, at);
    forall k, l | 0 <= k < l < |list|
      ensures !EqualFold(list[k].address, list[l].address)
    {
      assert all[at[k]] == list[k];
    }
    AllKeys(Native(c), recommended, balances);
    forall x | x in list
      ensures x.owned <==> exists b :: b in balances && EqualFold(b.address, x.address)
    {
      var k :| 0 <= k < |list| && list[k] == x;
      CandidateOwned(Native(c), recommended, balances, at[k]);
    }
  }

  lemma StartsWithFirst(all: seq<Item>, list: seq<Item>, at: seq<nat>)
    requires ComesFrom(list, all, at) && all != [] && Keys(list) == Keys(all)
    ensures list != [] && list[0] == all[0]
  {
    hide Lower;
    assert Lower(all[0].address) in Keys(all);
    var k :| 0 <= k < |list| && Lower(list[k].address) == Lower(all[0].address);
    assert at[k] == 0;
  }

  lemma AllKeys(native: TokenInfo, recommended: seq<TokenInfo>, balances: seq<TokenBalance>)
    ensures Keys(Candidates(native, recommended, balances)) ==
      {Lower(native.address)} + Addresses(recommended, balances)
  {
    hide Lower, LastOwned;
    var all := Candidates(native, recommended, balances);
    assert all[0].address == native.address;
    forall i | 0 <= i < |recommended|
      ensures Lower(recommended[i].address) in Keys(all)
    {
      assert all[1 + i].address == recommended[i].address;
    }
    forall i | 0 <= i < |balances|
      ensures Lower(balances[i].address) in Keys(all)
    {
      assert all[1 + |recommended| + i].address == balances[i].address;
    }
  }

  lemma CandidateOwned(native: TokenInfo, recommended: seq<TokenInfo>, balances: seq<TokenBalance>, i: nat)
    requires i < |Candidates(native, recommended, balances)|
    ensures var x := Candidates(native, recommended, balances)[i];
      x.owned <==> exists b :: b in balances && EqualFold(b.address, x.address)
  {
    var x := Candidates(native, recommended, balances)[i];
    OwnedIsListed(balances, Lower(x.address));
    hide LastOwned, Lower;
    if i <= |recommended| {
      var t := if i == 0 then native else recommended[i - 1];
      assert x == Listed(t, balances);
      if b :| b in balances && EqualFold(b.address, x.address) {
        var j :| 0 <= j < |balances| && balances[j] == b;
      }
    } else {
      var b := balances[i - 1 - |recommended|];
      assert x == Owned(b) && b in balances;
    }
  }
}
