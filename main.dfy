/** The ENS client of ens/main.py: lookups through the registry, and the
    transactions it sends to claim a name and point it at an address.
    Chain reads are the constant functions of the object; every transaction
    sent is appended to `sent`, together with its transact dict. */
module Main {
  import opened Py
  import Utils
  import opened Names

  /** GAS_DEFAULT of ens/main.py. */
  const GAS_SET_ADDR: int := 60001
  const GAS_SET_RESOLVER: int := 60002
  const GAS_SET_SUBNODE_OWNER: int := 60003

  /** The name whose address is the resolver `_set_resolver` uses by default. */
  const DEFAULT_RESOLVER: string := "resolver.eth"

  /** A transaction sent to the registry, a resolver or the reverse registrar. */
  datatype Transaction =
    | SetSubnodeOwner(node: Hash, labelHash: Hash, owner: Value, transact: map<string, Value>)
    | SetResolver(node: Hash, resolver: Value, transact: map<string, Value>)
    | SetAddr(resolver: Value, node: Hash, address: Value, transact: map<string, Value>)
    | SetName(registrar: Value, name: string, transact: map<string, Value>)

  /** What `_first_owner` returns: the owner found (or the last falsy answer),
      the labels stripped on the way, and the last name looked up. */
  datatype FirstOwned = FirstOwned(owner: Value, unowned: seq<string>, owned: string)

  /** What `setup_address` decides to do before sending anything. */
  datatype Plan = AlreadySet | Configure(first: FirstOwned)

  /** The address a name should resolve to: the one given, else the owner's. */
  function Target(address: Value, owner: Value): Value
  {
    if Truthy(address) then address else owner
  }

  /** The name owned after `claims` rounds of `_claim_ownership`: the last
      `claims` unowned labels put in front of the first owned name. */
  function ClaimedName(unowned: seq<string>, owned: string, claims: nat): string
    requires claims <= |unowned|
  {
    Join(unowned[|unowned| - claims..] + [owned])
  }

  /** Each round claims the next label to the left under the name claimed by
      the round before. */
  lemma ClaimedNameStep(unowned: seq<string>, owned: string, claims: nat)
    requires claims < |unowned|
    ensures ClaimedName(unowned, owned, claims + 1) ==
      unowned[|unowned| - 1 - claims] + "." + ClaimedName(unowned, owned, claims)
  {
    var n := |unowned|;
    var rest := unowned[n - claims..] + [owned];
    assert unowned[n - (claims + 1)..] + [owned] == [unowned[n - 1 - claims]] + rest;
    JoinCons(unowned[n - 1 - claims], rest);
  }

  /** No claim leaves the owned name; all the claims give the whole name. */
  lemma ClaimedNameEnds(unowned: seq<string>, owned: string)
    ensures ClaimedName(unowned, owned, 0) == owned
    ensures ClaimedName(unowned, owned, |unowned|) == Join(unowned + [owned])
  {
    assert unowned[|unowned| - 0..] + [owned] == [owned];
    assert unowned[|unowned| - |unowned|..] == unowned;
  }

  /** Two logs sent one after the other extend `before` by their
      concatenation; a one-call second log is its last element. */
  lemma AppendLogs(before: seq<Transaction>, first: seq<Transaction>, second: seq<Transaction>)
    ensures (before + first) + second == before + (first + second)
    ensures |second| == 1 ==> (first + second)[..|first + second| - 1] == first
  {
  }

  class ENS {
    const prims: Primitives
    /** `ens.owner(node)` and `ens.resolver(node)` of the registry contract. */
    const owners: Hash -> Value
    const resolvers: Hash -> Value
    /** `addr(node)` of the resolver contract at an address, checksummed. */
    const addrs: (Value, Hash) -> Value
    /** `web3.eth.accounts`: the accounts this client can sign for. */
    const accounts: seq<Value>
    /** The transactions sent so far, oldest first. */
    var sent: seq<Transaction>

    constructor (prims: Primitives, owners: Hash -> Value, resolvers: Hash -> Value,
                 addrs: (Value, Hash) -> Value, accounts: seq<Value>)
      ensures this.prims == prims && this.owners == owners && this.resolvers == resolvers
      ensures this.addrs == addrs && this.accounts == accounts && sent == []
    {
      this.prims := prims;
      this.owners := owners;
      this.resolvers := resolvers;
      this.addrs := addrs;
      this.accounts := accounts;
      sent := [];
    }

    /** `owner(name)`: the registry's owner of the name's node. */
    function OwnerOf(name: string): (r: Result<Value, Error>)
      ensures r.Ok? <==> NamehashOf(prims, name).Ok?
      ensures r.Ok? ==> r.value == owners(NamehashOf(prims, name).value)
      ensures r.Err? ==> r.error.InvalidName?
    {
      NamehashOfErrorIsInvalidName(prims, name);
      var node :- NamehashOf(prims, name);
      Ok(owners(node))
    }

    /** `address(name)`: the address the name's resolver gives, or `None`
        when the name has no resolver. */
    function AddressOf(name: string): (r: Result<Value, Error>)
      ensures r.Ok? <==> NamehashOf(prims, name).Ok?
      ensures r.Err? ==> r.error.InvalidName?
      ensures r.Ok? && !Truthy(resolvers(NamehashOf(prims, name).value)) ==> r.value == NoneVal
      ensures r.Ok? && Truthy(resolvers(NamehashOf(prims, name).value)) ==>
        r.value == addrs(resolvers(NamehashOf(prims, name).value), NamehashOf(prims, name).value)
    {
      NamehashOfErrorIsInvalidName(prims, name);
      var node :- NamehashOf(prims, name);
      var resolver := resolvers(node);
      if Truthy(resolver) then Ok(addrs(resolver, node)) else Ok(NoneVal)
    }

    /** `namehash`: the loop over the labels of the full name, right to left. */
    method Namehash(name: string) returns (r: Result<Hash, Error>)
      ensures r == NamehashOf(prims, name)
    {
      var full := FullName(prims, name);
      if full.Err? {
        return Err(full.error);
      }
      var node := EMPTY_SHA3_BYTES;
      if full.value != [] {
        var labels := Split(full.value);
        var i := |labels|;
        while i > 0
          invariant 0 <= i <= |labels|
          invariant Fold(prims, labels[i..]) == Ok(node)
        {
          i := i - 1;
          assert labels[i..][1..] == labels[i + 1..];
          var labelHash := LabelHash(prims, labels[i]);
          if labelHash.Err? {
            FoldErrorPropagates(prims, labels, i);
            return Err(labelHash.error);
          }
          node := prims.sha3(node + labelHash.value);
        }
        assert labels[0..] == labels;
      } else {
        assert false;
      }
      return Ok(node);
    }

    /** The suffix of `labels` starting at `j` has a falsy owner. */
    ghost predicate Unowned(labels: seq<string>, j: int)
      requires 0 <= j < |labels|
    {
      OwnerOf(Join(labels[j..])).Ok? && !Truthy(OwnerOf(Join(labels[j..])).value)
    }

    /** The declarative reading of `_first_owner` on the labels of a full
        name: the stripped labels are a prefix whose suffixes are all unowned,
        and the result is the first owned suffix, or the last label when there
        is none. */
    ghost predicate IsFirstOwner(labels: seq<string>, found: FirstOwned)
    {
      var k := |found.unowned|;
      && 1 <= |labels| && k <= |labels|
      && found.unowned == labels[..k]
      && (forall j :: 0 <= j < k ==> Unowned(labels, j))
      && (Truthy(found.owner) ==> k < |labels| && found.owned == Join(labels[k..]))
      && (!Truthy(found.owner) ==> k == |labels| && found.owned == Last(labels))
      && OwnerOf(found.owned) == Ok(found.owner)
    }

    /** The declarative reading admits one answer only. */
    lemma FirstOwnerUnique(labels: seq<string>, a: FirstOwned, b: FirstOwned)
      requires IsFirstOwner(labels, a) && IsFirstOwner(labels, b)
      ensures a == b
    {
      FirstOwnerStops(labels, a);
      FirstOwnerStops(labels, b);
    }

    /** The search stops at the first suffix that has an owner. */
    lemma FirstOwnerStops(labels: seq<string>, found: FirstOwned)
      requires IsFirstOwner(labels, found)
      ensures |found.unowned| < |labels| ==> !Unowned(labels, |found.unowned|)
    {
    }

    /** The reference search of `_first_owner`, from the suffix at `k`:
        the first suffix with a truthy owner, or the last label. */
    function FirstOwnerFrom(labels: seq<string>, k: nat): Result<FirstOwned, Error>
      requires k < |labels|
      decreases |labels| - k
    {
      var owner :- OwnerOf(Join(labels[k..]));
      if Truthy(owner) then Ok(FirstOwned(owner, labels[..k], Join(labels[k..])))
      else if k + 1 == |labels| then Ok(FirstOwned(owner, labels, Join(labels[k..])))
      else FirstOwnerFrom(labels, k + 1)
    }

    /** One step of the search, once the owner of the suffix at `k` is known. */
    lemma FirstOwnerFromStep(labels: seq<string>, k: nat, owner: Value)
      requires k < |labels| && OwnerOf(Join(labels[k..])) == Ok(owner)
      ensures FirstOwnerFrom(labels, k) ==
        if Truthy(owner) then Ok(FirstOwned(owner, labels[..k], Join(labels[k..])))
        else if k + 1 == |labels| then Ok(FirstOwned(owner, labels, Join(labels[k..])))
        else FirstOwnerFrom(labels, k + 1)
    {
    }

    /** Popping the first piece moves it to the end of the stripped labels. */
    lemma PopLabel(labels: seq<string>, unowned: seq<string>, pieces: seq<string>)
      requires |unowned| < |labels| && unowned == labels[..|unowned|] && pieces == labels[|unowned|..]
      ensures unowned + [pieces[0]] == labels[..|unowned| + 1]
      ensures pieces[1..] == labels[|unowned| + 1..]
      ensures |unowned| + 1 == |labels| ==> unowned + [pieces[0]] == labels
    {
      assert labels[..|unowned| + 1] == unowned + [pieces[0]];
    }

    /** What the search finds meets the declarative reading. */
    lemma {:induction false} FirstOwnerFromSound(labels: seq<string>, k: nat)
      requires k < |labels|
      requires forall j :: 0 <= j < k ==> Unowned(labels, j)
      requires FirstOwnerFrom(labels, k).Ok?
      ensures IsFirstOwner(labels, FirstOwnerFrom(labels, k).value)
      decreases |labels| - k
    {
      var owner := OwnerOf(Join(labels[k..])).value;
      if Truthy(owner) {
        assert FirstOwnerFrom(labels, k) == Ok(FirstOwned(owner, labels[..k], Join(labels[k..])));
        assert |labels[..k]| == k;
      } else if k + 1 == |labels| {
        assert labels[k..] == [Last(labels)];
        assert labels[..|labels|] == labels;
      } else {
        assert Unowned(labels, k);
        FirstOwnerFromSound(labels, k + 1);
      }
    }

    /** Whatever meets the declarative reading is what the search finds. */
    lemma {:induction false} FirstOwnerFromComplete(labels: seq<string>, found: FirstOwned, k: nat)
      requires IsFirstOwner(labels, found)
      requires k <= |found.unowned| && k < |labels|
      ensures FirstOwnerFrom(labels, k) == Ok(found)
      decreases |labels| - k
    {
      if k < |found.unowned| {
        assert Unowned(labels, k);
        if k + 1 == |labels| {
          assert labels[k..] == [Last(labels)];
          assert labels[..|labels|] == labels;
        } else {
          FirstOwnerFromComplete(labels, found, k + 1);
        }
      }
    }

    /** `_first_owner`: strip leading labels until a suffix has an owner. */
    method FirstOwner(name: string) returns (r: Result<FirstOwned, Error>, ghost lookups: nat)
      ensures FullName(prims, name).Err? ==> r == Err(FullName(prims, name).error)
      ensures FullName(prims, name).Ok? ==> r == FirstOwnerFrom(Split(FullName(prims, name).value), 0)
      ensures r.Ok? ==> lookups == |r.value.unowned| + (if Truthy(r.value.owner) then 1 else 0)
      ensures FullName(prims, name).Ok? ==> lookups <= |Split(FullName(prims, name).value)|
    {
      var full := FullName(prims, name);
      if full.Err? {
        return Err(full.error), 0;
      }
      var pieces := Split(full.value);
      ghost var labels := pieces;
      var owner := NoneVal;
      var unowned: seq<string> := [];
      var current := name;
      lookups := 0;
      assert labels[..0] == [] && labels[0..] == labels;
      while !Truthy(owner) && pieces != []
        invariant |unowned| <= |labels|
        invariant unowned == labels[..|unowned|] && pieces == labels[|unowned|..]
        invariant lookups == |unowned| + (if Truthy(owner) then 1 else 0) && lookups <= |labels|
        invariant !Truthy(owner) && pieces != [] ==> FirstOwnerFrom(labels, 0) == FirstOwnerFrom(labels, |unowned|)
        invariant Truthy(owner) || pieces == [] ==>
          FirstOwnerFrom(labels, 0) == Ok(FirstOwned(owner, unowned, current))
        decreases |pieces| + (if Truthy(owner) then 0 else 1)
      {
        current := Join(pieces);
        var found := OwnerOf(current);
        lookups := lookups + 1;
        if found.Err? {
          return Err(found.error), lookups;
        }
        owner := found.value;
        FirstOwnerFromStep(labels, |unowned|, owner);
        if !Truthy(owner) {
          PopLabel(labels, unowned, pieces);
          unowned := unowned + [pieces[0]];
          pieces := pieces[1..];
        }
      }
      r := Ok(FirstOwned(owner, unowned, current));
    }

    /** `t` is the `setSubnodeOwner` call that gives `owner` the label `lbl`
        under the name `parent`, sent with the dict `transact`. */
    ghost predicate IsClaim(t: Transaction, owner: Value, parent: string, lbl: string, transact: map<string, Value>)
    {
      && t.SetSubnodeOwner?
      && NamehashOf(prims, parent) == Ok(t.node)
      && LabelHash(prims, lbl) == Ok(t.labelHash)
      && t.owner == owner
      && t.transact == transact
    }

    /** `log` is the run of claims `_claim_ownership` sends, innermost label first. */
    ghost predicate ClaimsLogged(log: seq<Transaction>, owner: Value, unowned: seq<string>, owned: string,
                                 transact: map<string, Value>)
    {
      && |log| <= |unowned|
      && forall i :: 0 <= i < |log| ==>
           IsClaim(log[i], owner, ClaimedName(unowned, owned, i), unowned[|unowned| - 1 - i], transact)
    }

    /** Step `i` of `_claim_ownership` can hash both the name claimed so far
        and the label it claims under it. */
    ghost predicate ClaimHashable(unowned: seq<string>, owned: string, i: nat)
      requires i < |unowned|
    {
      NamehashOf(prims, ClaimedName(unowned, owned, i)).Ok? && LabelHash(prims, unowned[|unowned| - 1 - i]).Ok?
    }

    /** Every step of `_claim_ownership` can hash what it needs. */
    ghost predicate ClaimsHashable(unowned: seq<string>, owned: string)
    {
      forall i :: 0 <= i < |unowned| ==> ClaimHashable(unowned, owned, i)
    }

    /** The next claim in order extends a run of claims. */
    lemma ClaimsLoggedStep(log: seq<Transaction>, claim: Transaction, owner: Value, unowned: seq<string>,
                           owned: string, transact: map<string, Value>)
      requires |log| < |unowned| && ClaimsLogged(log, owner, unowned, owned, transact)
      requires IsClaim(claim, owner, ClaimedName(unowned, owned, |log|), unowned[|unowned| - 1 - |log|], transact)
      ensures ClaimsLogged(log + [claim], owner, unowned, owned, transact)
    {
      assert forall i :: 0 <= i < |log| ==> (log + [claim])[i] == log[i];
    }

    /** `log` is what `_claim_ownership` has left sent when the call it is
        part of fails: every claim when each step can hash, else the claims
        before the first step that cannot, which are not undone. */
    ghost predicate ClaimsStopped(log: seq<Transaction>, owner: Value, unowned: seq<string>, owned: string,
                                  transact: map<string, Value>)
    {
      && ClaimsLogged(log, owner, unowned, owned, transact)
      && (ClaimsHashable(unowned, owned) ==> |log| == |unowned|)
      && (!ClaimsHashable(unowned, owned) ==> |log| < |unowned| && !ClaimHashable(unowned, owned, |log|))
    }

    /** A run that claimed every label is where a call that fails after the claims stopped. */
    lemma ClaimsStoppedAll(log: seq<Transaction>, owner: Value, unowned: seq<string>, owned: string,
                           transact: map<string, Value>)
      requires |log| == |unowned| && ClaimsLogged(log, owner, unowned, owned, transact)
      requires ClaimsHashable(unowned, owned)
      ensures ClaimsStopped(log, owner, unowned, owned, transact)
    {
    }

    /** A run cut short at a step that cannot hash is where the claims stopped. */
    lemma ClaimsStoppedEarly(log: seq<Transaction>, owner: Value, unowned: seq<string>, owned: string,
                             transact: map<string, Value>)
      requires |log| < |unowned| && ClaimsLogged(log, owner, unowned, owned, transact)
      requires !ClaimHashable(unowned, owned, |log|)
      ensures ClaimsStopped(log, owner, unowned, owned, transact)
    {
    }

    /** `_claim_ownership`: claim the unowned labels one by one, from the one
        next to the owned name outwards; `log` is what it sends. */
    method ClaimOwnership(owner: Value, unowned: seq<string>, owned: string, transact: Dict)
      returns (r: Outcome<Error>, ghost log: seq<Transaction>)
      modifies this
      ensures unchanged(transact)
      ensures sent == old(sent) + log
      ensures ClaimsLogged(log, owner, unowned, owned,
                           old(transact.items)["from" := owner]["gas" := Int(GAS_SET_SUBNODE_OWNER)])
      ensures r.Pass? ==> |log| == |unowned|
      ensures r.Pass? <==> ClaimsHashable(unowned, owned)
      ensures r.Fail? ==> |log| < |unowned| && !ClaimHashable(unowned, owned, |log|)
      ensures r.Fail? ==> r.error.InvalidName?
    {
      var tx := Utils.CopyDict(transact);
      tx.Set("from", owner);
      tx.Set("gas", Int(GAS_SET_SUBNODE_OWNER));
      ghost var items := tx.items;
      var current := owned;
      var i := 0;
      log := [];
      while i < |unowned|
        invariant 0 <= i <= |unowned|
        invariant tx.items == items
        invariant current == ClaimedName(unowned, owned, i)
        invariant |log| == i && sent == old(sent) + log
        invariant ClaimsLogged(log, owner, unowned, owned, items)
        invariant forall j :: 0 <= j < i ==> ClaimHashable(unowned, owned, j)
      {
        var lbl := unowned[|unowned| - 1 - i];
        var node := Namehash(current);
        if node.Err? {
          NamehashOfErrorIsInvalidName(prims, current);
          assert !ClaimHashable(unowned, owned, i);
          return Fail(node.error), log;
        }
        var labelHash := LabelHash(prims, lbl);
        if labelHash.Err? {
          assert !ClaimHashable(unowned, owned, i);
          return Fail(labelHash.error), log;
        }
        assert ClaimHashable(unowned, owned, i);
        var claim := SetSubnodeOwner(node.value, labelHash.value, owner, tx.items);
        ClaimsLoggedStep(log, claim, owner, unowned, owned, items);
        AppendLogs(old(sent), log, [claim]);
        sent := sent + [claim];
        log := log + [claim];
        ClaimedNameStep(unowned, owned, i);
        current := lbl + "." + current;
        i := i + 1;
      }
      return Pass, log;
    }

    /** `_assert_control`: only an account this client controls may act. */
    function AssertControl(account: Value, name: string, parentOwned: string): (r: Outcome<Error>)
      ensures r.Pass? <==> account in accounts
      ensures r.Fail? ==> r.error == Unauthorized(account, if parentOwned != [] then parentOwned else name)
    {
      if account !in accounts then
        Fail(Unauthorized(account, if parentOwned != [] then parentOwned else name))
      else Pass
    }

    /** `_set_resolver`: point the name at the resolver (by default the one
        `resolver.eth` resolves to) unless the registry already does. */
    method SetResolver(name: string, resolverAddr: Value, transact: Dict) returns (r: Result<Value, Error>)
      modifies this
      ensures unchanged(transact)
      ensures r.Ok? && Truthy(resolverAddr) ==> r.value == resolverAddr
      ensures r.Ok? && !Truthy(resolverAddr) ==> AddressOf(DEFAULT_RESOLVER) == Ok(r.value)
      ensures r.Ok? ==> NamehashOf(prims, name).Ok?
      ensures r.Ok? && resolvers(NamehashOf(prims, name).value) == r.value ==> sent == old(sent)
      ensures r.Ok? && resolvers(NamehashOf(prims, name).value) != r.value ==>
        sent == old(sent) + [Transaction.SetResolver(NamehashOf(prims, name).value, r.value,
                                         old(transact.items)["gas" := Int(GAS_SET_RESOLVER)])]
      ensures r.Err? ==> sent == old(sent)
      ensures r.Ok? <==> (Truthy(resolverAddr) || AddressOf(DEFAULT_RESOLVER).Ok?) && NamehashOf(prims, name).Ok?
      ensures r.Err? ==> r.error.InvalidName?
    {
      var tx := Utils.CopyDict(transact);
      var addr := resolverAddr;
      if !Truthy(addr) {
        var found := AddressOf(DEFAULT_RESOLVER);
        if found.Err? {
          NamehashOfErrorIsInvalidName(prims, DEFAULT_RESOLVER);
          return Err(found.error);
        }
        addr := found.value;
      }
      var node := Namehash(name);
      if node.Err? {
        NamehashOfErrorIsInvalidName(prims, name);
        return Err(node.error);
      }
      if resolvers(node.value) != addr {
        tx.Set("gas", Int(GAS_SET_RESOLVER));
        sent := sent + [Transaction.SetResolver(node.value, addr, tx.items)];
      }
      return Ok(addr);
    }

    /** `_setup_reverse`: ask the reverse registrar to name the sending account. */
    method SetupReverse(name: string, address: Value, transact: Dict) returns (r: Result<Reply, Error>, ghost log: seq<Transaction>)
      modifies this
      ensures unchanged(transact)
      ensures sent == old(sent) + log
      ensures r.Ok? <==> FullName(prims, name).Ok? && OwnerOf(REVERSE_REGISTRAR_DOMAIN).Ok?
      ensures r.Ok? ==>
        r.value == Sent &&
        log == [SetName(OwnerOf(REVERSE_REGISTRAR_DOMAIN).value, FullName(prims, name).value,
                        old(transact.items)["from" := address])]
      ensures r.Err? ==> log == []
      ensures r.Err? ==> r.error.InvalidName?
    {
      var tx := Utils.CopyDict(transact);
      log := [];
      NamehashOfErrorIsInvalidName(prims, REVERSE_REGISTRAR_DOMAIN);
      var full := FullName(prims, name);
      if full.Err? {
        return Err(full.error), log;
      }
      tx.Set("from", address);
      var registrar := OwnerOf(REVERSE_REGISTRAR_DOMAIN);
      if registrar.Err? {
        return Err(registrar.error), log;
      }
      var setName := SetName(registrar.value, full.value, tx.items);
      sent := sent + [setName];
      log := [setName];
      return Ok(Sent), log;
    }

    /** `log` is what `setup_address` sends for `name` after the claims:
        `setResolver` when the registry points at another resolver than the
        default one, then `setAddr`, each with its own copy of `transact`. */
    ghost predicate RecordsLogged(log: seq<Transaction>, name: string, target: Value, transact: map<string, Value>)
    {
      && 1 <= |log| <= 2
      && NamehashOf(prims, name).Ok?
      && Last(log).SetAddr?
      && AddressOf(DEFAULT_RESOLVER) == Ok(Last(log).resolver)
      && Last(log).node == NamehashOf(prims, name).value
      && Last(log).address == target
      && Last(log).transact == transact["gas" := Int(GAS_SET_ADDR)]
      && (|log| == 2 <==> resolvers(NamehashOf(prims, name).value) != Last(log).resolver)
      && (|log| == 2 ==>
            log[0] == Transaction.SetResolver(NamehashOf(prims, name).value, Last(log).resolver,
                                              transact["gas" := Int(GAS_SET_RESOLVER)]))
    }

    /** Everything `setup_address` sends once `owner` is known to be in control. */
    ghost predicate AddressSetupLogged(log: seq<Transaction>, name: string, owner: Value, unowned: seq<string>,
                                       owned: string, target: Value, transact: map<string, Value>)
    {
      && |unowned| <= |log|
      && ClaimsLogged(log[..|unowned|], owner, unowned, owned,
                      transact["from" := owner]["gas" := Int(GAS_SET_SUBNODE_OWNER)])
      && RecordsLogged(log[|unowned|..], name, target, transact["from" := owner])
    }

    /** `setup_address`'s records can be sent: the default resolver's
        address and the name's node can both be computed. */
    ghost predicate RecordsSendable(name: string)
    {
      AddressOf(DEFAULT_RESOLVER).Ok? && NamehashOf(prims, name).Ok?
    }

    /** The tail of `setup_address`: the default resolver and the address
        record, sent with the dict `transact` (already holding `from`). */
    method SendRecords(name: string, target: Value, transact: Dict) returns (r: Result<Reply, Error>, ghost log: seq<Transaction>)
      modifies this, transact
      ensures sent == old(sent) + log
      ensures r.Ok? ==> r.value == Sent && RecordsLogged(log, name, target, old(transact.items))
      ensures r.Ok? <==> RecordsSendable(name)
      ensures r.Err? ==> log == []
      ensures r.Err? ==> r.error.InvalidName?
    {
      ghost var items := transact.items;
      var resolver := SetResolver(name, NoneVal, transact);
      if resolver.Err? {
        return Err(resolver.error), [];
      }
      ghost var resolverLog := ResolverLog(name, resolver.value, items);
      assert sent == old(sent) + resolverLog;
      transact.Set("gas", Int(GAS_SET_ADDR));
      // `_set_resolver` has just hashed the same name, so this cannot fail.
      var node := Namehash(name);
      var setAddr := SetAddr(resolver.value, node.value, target, transact.items);
      sent := sent + [setAddr];
      AppendLogs(old(sent), resolverLog, [setAddr]);
      log := resolverLog + [setAddr];
      RecordsLoggedIntro(name, resolver.value, target, items);
      return Ok(Sent), log;
    }

    /** What `_set_resolver` sends for `name` and `resolver`: `setResolver`
        when the registry points elsewhere, else nothing. */
    ghost function ResolverLog(name: string, resolver: Value, transact: map<string, Value>): seq<Transaction>
      requires NamehashOf(prims, name).Ok?
    {
      var node := NamehashOf(prims, name).value;
      if resolvers(node) != resolver then [Transaction.SetResolver(node, resolver, transact["gas" := Int(GAS_SET_RESOLVER)])]
      else []
    }

    lemma RecordsLoggedIntro(name: string, resolver: Value, target: Value, transact: map<string, Value>)
      requires NamehashOf(prims, name).Ok? && AddressOf(DEFAULT_RESOLVER) == Ok(resolver)
      ensures RecordsLogged(ResolverLog(name, resolver, transact) +
                            [SetAddr(resolver, NamehashOf(prims, name).value, target, transact["gas" := Int(GAS_SET_ADDR)])],
                            name, target, transact)
    {
    }

    /** What `setup_address` decides before it sends anything: the address
        is already set, or the first owner found is to claim and configure
        the name. */
    function AddressPlan(name: string, address: Value): (r: Result<Plan, Error>)
      ensures FullName(prims, name).Err? ==> r == Err(FullName(prims, name).error)
      ensures r.Ok? ==> FullName(prims, name).Ok? && AddressOf(name).Ok?
      ensures FullName(prims, name).Ok? && FirstOwnerFrom(Split(FullName(prims, name).value), 0).Err? ==>
        r == Err(FirstOwnerFrom(Split(FullName(prims, name).value), 0).error)
      ensures FullName(prims, name).Ok? && FirstOwnerFrom(Split(FullName(prims, name).value), 0).Ok? &&
              AddressOf(name).Err? ==>
        r == Err(AddressOf(name).error)
      ensures (&& FullName(prims, name).Ok?
               && FirstOwnerFrom(Split(FullName(prims, name).value), 0).Ok?
               && AddressOf(name).Ok?
               && var first := FirstOwnerFrom(Split(FullName(prims, name).value), 0).value;
                  && AddressOf(name).value != Utils.EnsureHex(Target(address, first.owner))
                  && first.owner in accounts) ==>
        r == Ok(Configure(FirstOwnerFrom(Split(FullName(prims, name).value), 0).value))
      ensures r.Ok? && r.value.Configure? ==>
        && FirstOwnerFrom(Split(FullName(prims, name).value), 0) == Ok(r.value.first)
        && r.value.first.owner in accounts
        && AddressOf(name).value != Utils.EnsureHex(Target(address, r.value.first.owner))
      ensures r == Ok(AlreadySet) <==>
        && FullName(prims, name).Ok?
        && FirstOwnerFrom(Split(FullName(prims, name).value), 0).Ok?
        && AddressOf(name) == Ok(Utils.EnsureHex(Target(address, FirstOwnerFrom(Split(FullName(prims, name).value), 0).value.owner)))
      ensures (&& FullName(prims, name).Ok?
               && FirstOwnerFrom(Split(FullName(prims, name).value), 0).Ok?
               && AddressOf(name).Ok?
               && var first := FirstOwnerFrom(Split(FullName(prims, name).value), 0).value;
                  && AddressOf(name).value != Utils.EnsureHex(Target(address, first.owner))
                  && first.owner !in accounts) ==>
        r == Err(AssertControl(FirstOwnerFrom(Split(FullName(prims, name).value), 0).value.owner, name,
                               FirstOwnerFrom(Split(FullName(prims, name).value), 0).value.owned).error)
    {
      var full :- FullName(prims, name);
      var first :- FirstOwnerFrom(Split(full), 0);
      var resolved :- AddressOf(name);
      if resolved == Utils.EnsureHex(Target(address, first.owner)) then Ok(AlreadySet)
      else match AssertControl(first.owner, name, first.owned)
        case Fail(e) => Err(e)
        case Pass => Ok(Configure(first))
    }

    /** `setup_address` has to configure the name, and every name and label
        it hashes on the way can be hashed. */
    ghost predicate AddressSendable(name: string, address: Value)
    {
      && AddressPlan(name, address).Ok? && AddressPlan(name, address).value.Configure?
      && ClaimsHashable(AddressPlan(name, address).value.first.unowned, AddressPlan(name, address).value.first.owned)
      && RecordsSendable(name)
    }

    /** `log` is what a failed `setup_address(name, address)` leaves sent:
        nothing when it fails before deciding to configure the name, else the
        claims sent before the step that failed. */
    ghost predicate AddressSetupFailed(log: seq<Transaction>, name: string, address: Value, transact: map<string, Value>)
    {
      if AddressPlan(name, address).Err? then log == []
      else
        && AddressPlan(name, address).value.Configure?
        && var first := AddressPlan(name, address).value.first;
           ClaimsStopped(log, first.owner, first.unowned, first.owned,
                         transact["from" := first.owner]["gas" := Int(GAS_SET_SUBNODE_OWNER)])
    }

    /** `setup_address`: make `name` resolve to `address` (by default its
        owner's), claiming missing subdomains on the way; `log` is what it sends. */
    method SetupAddress(name: string, address: Value, transact: Dict)
      returns (r: Result<Reply, Error>, ghost log: seq<Transaction>)
      modifies this
      ensures unchanged(transact)
      ensures sent == old(sent) + log
      ensures AddressPlan(name, address).Err? ==> r == Err(AddressPlan(name, address).error) && log == []
      ensures AddressPlan(name, address) == Ok(AlreadySet) <==> r == Ok(NoCall)
      ensures r == Ok(NoCall) ==> log == []
      ensures r == Ok(Sent) ==>
        && AddressPlan(name, address).Ok? && AddressPlan(name, address).value.Configure?
        && var first := AddressPlan(name, address).value.first;
           AddressSetupLogged(log, name, first.owner, first.unowned, first.owned,
                              Target(address, first.owner), old(transact.items))
      ensures AddressPlan(name, address).Ok? && AddressPlan(name, address).value.Configure? ==>
        (r == Ok(Sent) <==> AddressSendable(name, address))
      ensures r.Err? ==> AddressSetupFailed(log, name, address, old(transact.items))
      ensures AddressPlan(name, address).Ok? && r.Err? ==> r.error.InvalidName?
    {
      var tx := Utils.CopyDict(transact);
      log := [];
      var found, lookups := FirstOwner(name);
      if found.Err? {
        return Err(found.error), log;
      }
      var owner, unowned, owned := found.value.owner, found.value.unowned, found.value.owned;
      var target := Target(address, owner);
      var resolved := AddressOf(name);
      if resolved.Err? {
        return Err(resolved.error), log;
      }
      if resolved.value == Utils.EnsureHex(target) {
        return Ok(NoCall), log;
      }
      var control := AssertControl(owner, name, owned);
      if control.Fail? {
        return Err(control.error), log;
      }
      r, log := ClaimAndSend(name, owner, unowned, owned, target, tx);
    }

    /** The sending half of `setup_address`, once `owner` is known to be in
        control, on `setup_address`'s own copy `transact` of the caller's dict. */
    method ClaimAndSend(name: string, owner: Value, unowned: seq<string>, owned: string, target: Value, transact: Dict)
      returns (r: Result<Reply, Error>, ghost log: seq<Transaction>)
      modifies this, transact
      ensures sent == old(sent) + log
      ensures r.Ok? ==> r.value == Sent && AddressSetupLogged(log, name, owner, unowned, owned, target, old(transact.items))
      ensures r.Ok? <==> ClaimsHashable(unowned, owned) && RecordsSendable(name)
      ensures r.Err? ==>
        ClaimsStopped(log, owner, unowned, owned, old(transact.items)["from" := owner]["gas" := Int(GAS_SET_SUBNODE_OWNER)])
      ensures r.Err? ==> r.error.InvalidName?
    {
      ghost var items := transact.items;
      ghost var claimTx := items["from" := owner]["gas" := Int(GAS_SET_SUBNODE_OWNER)];
      ghost var claims: seq<Transaction> := [];
      log := [];
      if unowned != [] {
        var claimed;
        claimed, claims := ClaimOwnership(owner, unowned, owned, transact);
        log := claims;
        if claimed.Fail? {
          ClaimsStoppedEarly(claims, owner, unowned, owned, claimTx);
          return Err(claimed.error), log;
        }
      }
      assert |claims| == |unowned| && ClaimsLogged(claims, owner, unowned, owned, claimTx);
      transact.Set("from", owner);
      ghost var records;
      r, records := SendRecords(name, target, transact);
      log := claims + records;
      if r.Ok? {
        AddressSetupJoined(claims, records, name, owner, unowned, owned, target, items);
      } else {
        assert log == claims;
        ClaimsStoppedAll(claims, owner, unowned, owned, claimTx);
      }
    }

    lemma AddressSetupJoined(claims: seq<Transaction>, records: seq<Transaction>, name: string, owner: Value,
                             unowned: seq<string>, owned: string, target: Value, transact: map<string, Value>)
      requires |claims| == |unowned|
      requires ClaimsLogged(claims, owner, unowned, owned, transact["from" := owner]["gas" := Int(GAS_SET_SUBNODE_OWNER)])
      requires RecordsLogged(records, name, target, transact["from" := owner])
      ensures AddressSetupLogged(claims + records, name, owner, unowned, owned, target, transact)
    {
      assert (claims + records)[..|unowned|] == claims;
      assert (claims + records)[|unowned|..] == records;
    }

    /** The account `setup_name` names: the address given, which must agree
        with the one the name already resolves to, else that resolved
        address, else the name's owner. */
    function NameAccount(name: string, address: Value): (r: Result<Value, Error>)
      ensures AddressOf(name).Err? ==> r == Err(AddressOf(name).error)
      ensures (AddressOf(name).Ok? && Truthy(address) && Truthy(AddressOf(name).value) &&
               address != AddressOf(name).value) ==> r == Err(AddressMismatch)
      ensures (AddressOf(name).Ok? && !Truthy(address) && !Truthy(AddressOf(name).value) &&
               !Truthy(OwnerOf(name).value)) ==> r == Err(UnownedName)
      ensures (AddressOf(name).Ok? && !(Truthy(address) && Truthy(AddressOf(name).value) &&
               address != AddressOf(name).value)) ==>
        var account := if Truthy(address) then address
                       else if Truthy(AddressOf(name).value) then AddressOf(name).value
                       else OwnerOf(name).value;
        Truthy(account) ==> r == Ok(account)
      ensures r.Ok? ==> Truthy(r.value)
      ensures r.Ok? && Truthy(address) ==> r.value == address
      ensures r.Ok? && Truthy(AddressOf(name).value) ==> r.value == AddressOf(name).value
      ensures r.Ok? && !Truthy(address) && !Truthy(AddressOf(name).value) ==> r.value == OwnerOf(name).value
    {
      var resolved :- AddressOf(name);
      if Truthy(address) && Truthy(resolved) && address != resolved then Err(AddressMismatch)
      else
        // `owner` looks up the node `address` has just looked up, so it cannot fail.
        var account :=
          if Truthy(address) then address
          else if Truthy(resolved) then resolved
          else OwnerOf(name).value;
        if Truthy(account) then Ok(account) else Err(UnownedName)
    }

    /** `log` is what a failed `setup_name` leaves sent for an account this
        client controls: nothing when the name already resolves, since only
        the reverse step can fail then; otherwise what `setup_address` left,
        all of its setup when only the reverse step failed. */
    ghost predicate NameSetupFailed(log: seq<Transaction>, name: string, account: Value, transact: map<string, Value>)
      requires AddressOf(name).Ok?
    {
      if Truthy(AddressOf(name).value) then log == []
      else if AddressSendable(name, account) then AddressConfiguredFirst(log, name, account, transact)
      else AddressSetupFailed(log, name, account, transact)
    }

    /** `setup_name`: make the reverse record of the account point at `name`,
        first making `name` resolve to the account when it resolves to nothing. */
    method SetupName(name: string, address: Value, transact: Dict)
      returns (r: Result<Reply, Error>, ghost log: seq<Transaction>)
      modifies this
      ensures unchanged(transact)
      ensures sent == old(sent) + log
      ensures NameAccount(name, address).Err? ==> r == Err(NameAccount(name, address).error) && log == []
      ensures NameAccount(name, address).Ok? && NameAccount(name, address).value !in accounts ==>
        r == Err(Unauthorized(NameAccount(name, address).value, name)) && log == []
      ensures r.Ok? ==>
        && r.value == Sent
        && NameAccount(name, address).Ok? && NameAccount(name, address).value in accounts
        && |log| >= 1
        && OwnerOf(REVERSE_REGISTRAR_DOMAIN).Ok? && FullName(prims, name).Ok?
        && Last(log) == SetName(OwnerOf(REVERSE_REGISTRAR_DOMAIN).value, FullName(prims, name).value,
                                old(transact.items)["from" := NameAccount(name, address).value])
      ensures r.Ok? && Truthy(AddressOf(name).value) ==> |log| == 1
      ensures r.Ok? && !Truthy(AddressOf(name).value) ==>
        AddressConfiguredFirst(log[..|log| - 1], name, NameAccount(name, address).value, old(transact.items))
      ensures NameAccount(name, address).Ok? && NameAccount(name, address).value in accounts ==>
        (r.Ok? <==>
          && FullName(prims, name).Ok? && OwnerOf(REVERSE_REGISTRAR_DOMAIN).Ok?
          && (Truthy(AddressOf(name).value) || AddressSendable(name, NameAccount(name, address).value)))
      ensures NameAccount(name, address).Ok? && NameAccount(name, address).value in accounts && r.Err? ==>
        NameSetupFailed(log, name, NameAccount(name, address).value, old(transact.items))
      ensures NameAccount(name, address).Ok? && NameAccount(name, address).value in accounts && r.Err? ==>
        || r.error.InvalidName?
        || (AddressPlan(name, NameAccount(name, address).value).Err? &&
            r.error == AddressPlan(name, NameAccount(name, address).value).error)
    {
      var tx := Utils.CopyDict(transact);
      log := [];
      var account := NameAccount(name, address);
      if account.Err? {
        return Err(account.error), log;
      }
      var control := AssertControl(account.value, name, []);
      if control.Fail? {
        return Err(control.error), log;
      }
      var resolved := AddressOf(name);
      ghost var addressLog: seq<Transaction> := [];
      if !Truthy(resolved.value) {
        var setup;
        setup, addressLog := SetupAddressFirst(name, account.value, tx);
        log := addressLog;
        if setup.Fail? {
          return Err(setup.error), log;
        }
      }
      assert log == addressLog && sent == old(sent) + addressLog;
      ghost var reverseLog;
      r, reverseLog := SetupReverse(name, account.value, tx);
      log := addressLog + reverseLog;
      AppendLogs(old(sent), addressLog, reverseLog);
      if r.Err? {
        assert log == addressLog;
      }
    }

    /** `log` is what `setup_address(name, account)` sends when it has to
        configure the name: the claims and records of its plan. */
    ghost predicate AddressConfiguredFirst(log: seq<Transaction>, name: string, account: Value, transact: map<string, Value>)
    {
      && AddressPlan(name, account).Ok? && AddressPlan(name, account).value.Configure?
      && var first := AddressPlan(name, account).value.first;
         AddressSetupLogged(log, name, first.owner, first.unowned, first.owned, account, transact)
    }

    /** The step of `setup_name` for a name that resolves to nothing:
        `setup_address(name, account)`, which then has to configure the name. */
    method SetupAddressFirst(name: string, account: Value, transact: Dict)
      returns (r: Outcome<Error>, ghost log: seq<Transaction>)
      requires AddressOf(name).Ok? && !Truthy(AddressOf(name).value) && Truthy(account)
      modifies this
      ensures unchanged(transact)
      ensures sent == old(sent) + log
      ensures r.Pass? ==> AddressConfiguredFirst(log, name, account, old(transact.items))
      ensures r.Pass? <==> AddressSendable(name, account)
      ensures r.Fail? ==> AddressSetupFailed(log, name, account, old(transact.items))
      ensures r.Fail? ==>
        r.error.InvalidName? || (AddressPlan(name, account).Err? && r.error == AddressPlan(name, account).error)
    {
      var setup;
      setup, log := SetupAddress(name, account, transact);
      if setup.Err? {
        return Fail(setup.error), log;
      }
      UnresolvedPlansConfigure(name, account);
      assert setup.value.Sent?;
      ghost var first := AddressPlan(name, account).value.first;
      assert Target(account, first.owner) == account;
      return Pass, log;
    }

    /** A name that resolves to nothing is never already set up for a
        non-empty account: `ensure_hex` of that account is itself non-empty. */
    lemma UnresolvedPlansConfigure(name: string, account: Value)
      requires AddressOf(name).Ok? && !Truthy(AddressOf(name).value) && Truthy(account)
      ensures AddressPlan(name, account) != Ok(AlreadySet)
    {
      if account.Bytes? {
        assert |Utils.EnsureHex(account).s| >= 2;
      }
    }
  }
}
