/** The client of the EIP-162 auction registrar in ens/registrar.py: turning
    names into the labels it auctions, defaulting gas in the caller's transact
    dict, and the calls it sends to the auction contract (`core`). Calls are
    appended to `sent` together with the keyword dicts they were given. */
module Registrar {
  import opened Py
  import opened Names
  import Main

  /** The top-level name the registrar auctions labels under. */
  const REGISTRAR_NAME: string := "eth"

  /** GAS_DEFAULT of ens/registrar.py. */
  const GAS_BID: int := 500000
  const GAS_REVEAL: int := 150000
  const GAS_FINALIZE: int := 120000

  const START_GAS_CONSTANT: int := 25000
  const START_GAS_MARGINAL: int := 39000

  /** The keys of GAS_DEFAULT. */
  datatype Action = BidAction | RevealAction | FinalizeAction

  function GasDefault(action: Action): int
  {
    match action
    case BidAction => GAS_BID
    case RevealAction => GAS_REVEAL
    case FinalizeAction => GAS_FINALIZE
  }

  // ---------------------------------------------------------------------
  // Labels

  /** `_to_label`: a bare label is kept; a dotted name must end in `eth`, and
      its second-to-last piece is the label. */
  function ToLabel(name: string): (r: Result<string, Error>)
    ensures r.Ok? ==> '.' !in r.value
  {
    if '.' in name then
      var pieces := Split(name);
      if |pieces| < 2 then Err(TypeError(NotLabelOrName))
      else if Last(pieces) != REGISTRAR_NAME then Err(TypeError(NotUnderRegistrar))
      else
        SplitPiecesHaveNoDot(name);
        Ok(pieces[|pieces| - 2])
    else Ok(name)
  }

  /** The "label or fully-qualified name" error cannot happen: text with a
      dot always splits into at least two pieces. */
  lemma ToLabelNeverTooShort(name: string)
    ensures ToLabel(name) != Err(TypeError(NotLabelOrName))
  {
    if '.' in name {
      SplitDotted(name);
    }
  }

  /** A label, and the label under `eth`, both give the label back. */
  lemma ToLabelOfName(lbl: string)
    requires '.' !in lbl
    ensures ToLabel(lbl) == Ok(lbl)
    ensures ToLabel(lbl + "." + REGISTRAR_NAME) == Ok(lbl)
  {
    var name := lbl + "." + REGISTRAR_NAME;
    assert name[|lbl|] == '.';
    SplitConcat(lbl, REGISTRAR_NAME);
    SplitNoDot(lbl);
    SplitNoDot(REGISTRAR_NAME);
    assert Split(name) == [lbl, REGISTRAR_NAME];
  }

  /** Deeper names are not rejected: everything left of the label is dropped. */
  lemma ToLabelOfSubdomain(sub: string, lbl: string)
    requires '.' !in lbl
    ensures ToLabel(sub + "." + lbl + "." + REGISTRAR_NAME) == Ok(lbl)
  {
    var name := sub + "." + lbl + "." + REGISTRAR_NAME;
    assert name[|sub|] == '.';
    SplitConcat(sub + "." + lbl, REGISTRAR_NAME);
    SplitConcat(sub, lbl);
    SplitNoDot(lbl);
    SplitNoDot(REGISTRAR_NAME);
    var pieces := Split(name);
    assert pieces == Split(sub) + [lbl] + [REGISTRAR_NAME];
    assert pieces[|pieces| - 2] == lbl;
  }

  /** A dotted name under any other top-level label is refused. */
  lemma ToLabelOfOtherTld(prefix: string, tld: string)
    requires '.' !in tld && tld != REGISTRAR_NAME
    ensures ToLabel(prefix + "." + tld) == Err(TypeError(NotUnderRegistrar))
  {
    var name := prefix + "." + tld;
    assert name[|prefix|] == '.';
    SplitConcat(prefix, tld);
    SplitNoDot(tld);
    assert Last(Split(name)) == tld;
  }

  /** A label is its own label. */
  lemma ToLabelIdempotent(name: string)
    requires ToLabel(name).Ok?
    ensures ToLabel(ToLabel(name).value) == ToLabel(name)
  {
  }

  lemma ToLabelExamples()
    ensures ToLabel("fullname.eth") == Ok("fullname")
    ensures ToLabel("holy.grail.eth") == Ok("grail")
    ensures ToLabel("fullname.test") == Err(TypeError(NotUnderRegistrar))
  {
    ToLabelExampleName();
    ToLabelExampleSubdomain();
    ToLabelExampleOtherTld();
  }

  lemma ToLabelExampleName()
    ensures ToLabel("fullname.eth") == Ok("fullname")
  {
    assert '.' !in "fullname";
    ToLabelOfName("fullname");
    assert "fullname" + "." + REGISTRAR_NAME == "fullname.eth";
  }

  lemma ToLabelExampleSubdomain()
    ensures ToLabel("holy.grail.eth") == Ok("grail")
  {
    assert '.' !in "holy" && '.' !in "grail";
    ToLabelOfSubdomain("holy", "grail");
    assert "holy" + "." + "grail" + "." + REGISTRAR_NAME == "holy.grail.eth";
  }

  lemma ToLabelExampleOtherTld()
    ensures ToLabel("fullname.test") == Err(TypeError(NotUnderRegistrar))
  {
    assert '.' !in "fullname" && '.' !in "test";
    ToLabelOfOtherTld("fullname", "test");
    assert "fullname" + "." + "test" == "fullname.test";
  }

  /** `[self._to_label(name) for name in names]`: the labels, or the error
      of the first name that has none. */
  function ToLabels(names: seq<string>): (r: Result<seq<string>, Error>)
    ensures r.Ok? ==> |r.value| == |names| && forall i :: 0 <= i < |names| ==> ToLabel(names[i]) == Ok(r.value[i])
    ensures r.Err? ==>
      exists i :: 0 <= i < |names| && ToLabel(names[i]) == Err(r.error) && forall j :: 0 <= j < i ==> ToLabel(names[j]).Ok?
  {
    if names == [] then Ok([])
    else
      match ToLabel(names[0])
      case Err(e) => Err(e)
      case Ok(lbl) =>
        match ToLabels(names[1..])
        case Err(e) =>
          var i :| 0 <= i < |names[1..]| && ToLabel(names[1..][i]) == Err(e) &&
            forall j :: 0 <= j < i ==> ToLabel(names[1..][j]).Ok?;
          assert ToLabel(names[i + 1]) == Err(e);
          Err(e)
        case Ok(rest) => Ok([lbl] + rest)
  }

  /** The hashes of a list of texts, in order. */
  function TextHashes(hashOf: string -> Hash, texts: seq<string>): seq<Hash>
  {
    seq(|texts|, i requires 0 <= i < |texts| => hashOf(texts[i]))
  }

  // ---------------------------------------------------------------------
  // Gas

  /** The entries of a transact dict after `__default_gas`: `gas` is set
      only when missing. */
  function WithDefaultGas(items: map<string, Value>, gas: int): (r: map<string, Value>)
    ensures r.Keys == items.Keys + {"gas"}
    ensures "gas" in items ==> r["gas"] == items["gas"]
    ensures "gas" !in items ==> r["gas"] == Int(gas)
    ensures forall k :: k in items && k != "gas" ==> r[k] == items[k]
  {
    if "gas" in items then items else items["gas" := Int(gas)]
  }

  /** A second default never changes what the first one left. */
  lemma DefaultGasIdempotent(items: map<string, Value>, gas: int, other: int)
    ensures WithDefaultGas(WithDefaultGas(items, gas), other) == WithDefaultGas(items, gas)
  {
  }

  /** `__default_gas`, writing into the caller's dict. */
  method DefaultGas(transact: Dict, action: Action)
    modifies transact
    ensures transact.items == WithDefaultGas(old(transact.items), GasDefault(action))
  {
    if "gas" !in transact.items {
      transact.Set("gas", Int(GasDefault(action)));
    }
  }

  /** The gas `start` asks for when the caller gives none. */
  function StartGas(count: nat): int
  {
    START_GAS_CONSTANT + START_GAS_MARGINAL * count
  }

  /** Python's `gas > gas_limit`: integers and booleans compare, anything
      else raises `TypeError`. */
  function GasExceeds(gas: Value, gasLimit: int): Result<bool, Error>
  {
    match gas
    case Int(i) => Ok(i > gasLimit)
    case Bool(b) => Ok((if b then 1 else 0) > gasLimit)
    case _ => Err(TypeError(Unorderable))
  }

  /** How many auctions fit under a block gas limit at the default start gas. */
  function MaxAuctions(gasLimit: int): int
  {
    (gasLimit - START_GAS_CONSTANT) / START_GAS_MARGINAL
  }

  /** With the default gas, `start` refuses exactly the batches larger than
      MaxAuctions. */
  lemma StartAdmits(count: nat, gasLimit: int)
    ensures GasExceeds(Int(StartGas(count)), gasLimit) == Ok(count > MaxAuctions(gasLimit))
  {
    var q := MaxAuctions(gasLimit);
    var rest := gasLimit - START_GAS_CONSTANT - START_GAS_MARGINAL * q;
    assert 0 <= rest < START_GAS_MARGINAL;
    if count <= q {
      assert START_GAS_MARGINAL * count <= START_GAS_MARGINAL * q;
    } else {
      assert START_GAS_MARGINAL * count >= START_GAS_MARGINAL * (q + 1);
    }
  }

  /** 25 auctions fit under a gas limit of one million; 26 do not. */
  lemma StartAdmitsExample()
    ensures GasExceeds(Int(StartGas(25)), 1000000) == Ok(false)
    ensures GasExceeds(Int(StartGas(26)), 1000000) == Ok(true)
  {
    assert MaxAuctions(1000000) == 25;
    StartAdmits(25, 1000000);
    StartAdmits(26, 1000000);
  }

  // ---------------------------------------------------------------------
  // Keyword dicts

  /** One keyword argument of a registrar call (`transact=…`, `call=…`):
      a dict shared with the caller, so writes to it reach the caller. */
  datatype Modifier = Modifier(keyword: string, dict: Dict)

  /** The keyword dicts as a contract call receives them. */
  type Kwargs = seq<(string, map<string, Value>)>

  /** The position of the `transact` keyword, or the length when there is none. */
  function TransactIndex(mods: seq<Modifier>): (t: nat)
    ensures t <= |mods|
    ensures t < |mods| ==> mods[t].keyword == "transact"
    ensures forall i :: 0 <= i < t ==> mods[i].keyword != "transact"
  {
    if mods == [] then 0
    else if mods[0].keyword == "transact" then 0
    else 1 + TransactIndex(mods[1..])
  }

  /** The transact dict among the keyword arguments, if any. */
  function TransactDict(mods: seq<Modifier>): set<Dict>
  {
    var t := TransactIndex(mods);
    if t < |mods| then {mods[t].dict} else {}
  }

  /** The entries of the transact dict when the call starts: `{}` stands in
      when no keyword is given at all, `None` when there is no transact dict. */
  function TransactEntries(mods: seq<Modifier>): Option<map<string, Value>>
    reads TransactDict(mods)
  {
    var t := TransactIndex(mods);
    if mods == [] then Some(map[])
    else if t < |mods| then Some(mods[t].dict.items)
    else None
  }

  function Dicts(mods: seq<Modifier>): set<Dict>
  {
    set i | 0 <= i < |mods| :: mods[i].dict
  }

  /** The keywords and the current entries of their dicts. */
  function Snapshot(mods: seq<Modifier>): (r: Kwargs)
    reads Dicts(mods)
    ensures |r| == |mods|
  {
    if mods == [] then []
    else
      assert Dicts(mods[1..]) <= Dicts(mods) by {
        forall d | d in Dicts(mods[1..]) ensures d in Dicts(mods) {
          var i :| 0 <= i < |mods[1..]| && mods[1..][i].dict == d;
          assert mods[i + 1].dict == d;
        }
      }
      [(mods[0].keyword, mods[0].dict.items)] + Snapshot(mods[1..])
  }

  /** The keyword dicts a call passes on: the default `{'transact': {}}`
      with its gas filled in when none was given, else the caller's own. */
  function PassedKwargs(mods: seq<Modifier>, gas: int): Kwargs
    reads Dicts(mods)
  {
    if mods == [] then [("transact", map["gas" := Int(gas)])] else Snapshot(mods)
  }

  /** The caller's transact dict, if any, got the default gas and nothing else. */
  twostate predicate GasDefaulted(mods: seq<Modifier>, gas: int)
    reads TransactDict(mods)
  {
    var t := TransactIndex(mods);
    t < |mods| ==> mods[t].dict.items == WithDefaultGas(old(mods[t].dict.items), gas)
  }

  /** The opening of `bid`, `reveal` and `finalize`: `{'transact': {}}` when
      no keyword is given, then the action's default gas in the transact dict. */
  method PrepareKwargs(modifiers: seq<Modifier>, action: Action) returns (mods: seq<Modifier>)
    modifies TransactDict(modifiers)
    ensures modifiers != [] ==> mods == modifiers
    ensures modifiers == [] ==> |mods| == 1 && mods[0].keyword == "transact" && fresh(mods[0].dict)
    ensures modifiers == [] ==> mods[0].dict.items == map["gas" := Int(GasDefault(action))]
    ensures GasDefaulted(modifiers, GasDefault(action))
    ensures Snapshot(mods) == PassedKwargs(modifiers, GasDefault(action))
  {
    mods := modifiers;
    if mods == [] {
      var d := new Dict(map[]);
      mods := [Modifier("transact", d)];
    }
    var t := TransactIndex(mods);
    if t < |mods| {
      DefaultGas(mods[t].dict, action);
    }
    assert modifiers == [] ==> Snapshot(mods) == [("transact", mods[0].dict.items)] + Snapshot([]);
  }

  // ---------------------------------------------------------------------
  // Gas check and deed entries

  /** The gas check of `start`: only when there is a transact dict, on its
      gas after the default for `count` names. */
  function StartGasCheck(transact: Option<map<string, Value>>, count: nat, gasLimit: int): (r: Outcome<Error>)
    ensures transact.None? ==> r == Pass
  {
    match transact
    case None => Pass
    case Some(items) =>
      match GasExceeds(WithDefaultGas(items, StartGas(count))["gas"], gasLimit)
      case Err(e) => Fail(e)
      case Ok(over) => if over then Fail(ValueError(TooManyAuctions)) else Pass
  }

  /** Without a gas of their own, `start` refuses exactly the batches larger
      than MaxAuctions, and with a gas of their own it compares that instead. */
  lemma StartGasCheckDefault(items: map<string, Value>, count: nat, gasLimit: int)
    ensures "gas" !in items ==>
      (StartGasCheck(Some(items), count, gasLimit) == Pass <==> count <= MaxAuctions(gasLimit))
    ensures "gas" !in items ==>
      (StartGasCheck(Some(items), count, gasLimit) == Fail(ValueError(TooManyAuctions)) <==> count > MaxAuctions(gasLimit))
    ensures "gas" in items && items["gas"].Int? ==>
      (StartGasCheck(Some(items), count, gasLimit) == Pass <==> items["gas"].i <= gasLimit)
  {
    StartAdmits(count, gasLimit);
  }

  /** What `start` computes before it reaches the auction contract: the
      hashes of the labels, or the error it raises. */
  function StartPlan(names: seq<string>, transact: Option<map<string, Value>>, gasLimit: int,
                     hashOf: string -> Hash): (r: Result<seq<Hash>, Error>)
    requires names != []
    ensures StartGasCheck(transact, |names|, gasLimit).Fail? ==>
      r == Err(StartGasCheck(transact, |names|, gasLimit).error)
    ensures StartGasCheck(transact, |names|, gasLimit).Pass? ==>
      (r.Ok? <==> ToLabels(names).Ok?)
    ensures r.Ok? ==> |r.value| == |names|
    ensures r.Ok? ==>
      forall i :: 0 <= i < |names| ==> ToLabel(names[i]).Ok? && r.value[i] == hashOf(ToLabel(names[i]).value)
  {
    match StartGasCheck(transact, |names|, gasLimit)
    case Fail(e) => Err(e)
    case Pass =>
      var labels :- ToLabels(names);
      Ok(TextHashes(hashOf, labels))
  }

  /** `is_empty_hex` of web3utils, which is not part of this model: `None`,
      or text or bytes whose hex digits are all zero. */
  predicate IsEmptyHex(v: Value)
  {
    match v
    case NoneVal => true
    case Str(s) => AllZeroDigits(WithoutHexPrefix(s))
    case Bytes(b) => forall i :: 0 <= i < |b| ==> b[i] == 0
    case _ => false
  }

  function WithoutHexPrefix(s: string): string
  {
    if |s| >= 2 && s[..2] == "0x" then s[2..] else s
  }

  predicate AllZeroDigits(digits: string)
  {
    forall i :: 0 <= i < |digits| ==> digits[i] == '0'
  }

  /** One element of the list `entries_by_hash` returns. */
  datatype Entry = Field(value: Value) | DeedAt(address: Value)

  /** The deed element: `None` for an empty address, else the deed contract there. */
  function DeedOf(v: Value): Entry
  {
    if IsEmptyHex(v) then Field(NoneVal) else DeedAt(v)
  }

  /** The zero address is no deed; a non-zero one is. */
  lemma DeedOfExamples()
    ensures DeedOf(Str("0x" + seq(40, _ => '0'))) == Field(NoneVal)
    ensures DeedOf(Str("0x" + seq(40, _ => '1'))) == DeedAt(Str("0x" + seq(40, _ => '1')))
  {
    var zeros := "0x" + seq(40, _ => '0');
    assert zeros[..2] == "0x" && zeros[2..] == seq(40, _ => '0');
    var ones := "0x" + seq(40, _ => '1');
    assert ones[..2] == "0x";
    assert !IsEmptyHex(Str(ones)) by {
      assert WithoutHexPrefix(ones) == seq(40, _ => '1');
      assert WithoutHexPrefix(ones)[0] != '0';
    }
  }

  // ---------------------------------------------------------------------
  // Calls to the auction contract

  datatype AuctionCall =
    | StartAuctions(core: Value, labelHashes: seq<Hash>, kwargs: Kwargs)
    | NewBid(core: Value, sealedBid: Hash, kwargs: Kwargs)
    | UnsealBid(core: Value, labelHash: Hash, value: int, secretHash: Hash, kwargs: Kwargs)
    | FinalizeAuction(core: Value, labelHash: Hash, kwargs: Kwargs)

  class Registrar {
    /** The ENS client the registrar belongs to. */
    const ens: Main.ENS
    /** `web3.sha3(text, encoding='bytes')`. */
    const sha3Text: string -> Hash
    /** `shaBid` and `entries` of the auction contract at an address. */
    const shaBid: (Value, Hash, Value, int, Hash) -> Hash
    const coreEntries: (Value, Hash) -> seq<Value>
    /** `_core`: unset until first used, then the auction contract's address. */
    var core: Option<Value>
    /** The calls sent to the auction contract, oldest first. */
    var sent: seq<AuctionCall>

    constructor (ens: Main.ENS, sha3Text: string -> Hash, shaBid: (Value, Hash, Value, int, Hash) -> Hash,
                 coreEntries: (Value, Hash) -> seq<Value>)
      ensures this.ens == ens && this.sha3Text == sha3Text
      ensures this.shaBid == shaBid && this.coreEntries == coreEntries
      ensures core == None && sent == []
    {
      this.ens := ens;
      this.sha3Text := sha3Text;
      this.shaBid := shaBid;
      this.coreEntries := coreEntries;
      core := None;
      sent := [];
    }

    /** The auction contract `core` gives: the cached one, else the
        registry's owner of `eth`. */
    function CoreAddress(): Result<Value, Error>
      reads this
    {
      if core.Some? then Ok(core.value) else ens.OwnerOf(REGISTRAR_NAME)
    }

    /** The `core` property: the owner of `eth` is looked up only while the
        cache is unset, and a found contract is kept for every later call. */
    method Core() returns (r: Result<Value, Error>)
      modifies this`core
      ensures r == old(CoreAddress())
      ensures old(core).Some? ==> core == old(core)
      ensures old(core).None? && r.Ok? ==> core == Some(r.value)
      ensures old(core).None? && r.Err? ==> core == None
    {
      if core.None? {
        var owner := ens.OwnerOf(REGISTRAR_NAME);
        if owner.Err? {
          return Err(owner.error);
        }
        core := Some(owner.value);
      }
      return Ok(core.value);
    }

    /** `_bid_hash`: the sealed bid the auction contract computes. */
    function BidHash(coreAddr: Value, lbl: string, bidder: Value, amount: int, secret: string): Hash
    {
      shaBid(coreAddr, sha3Text(lbl), bidder, amount, sha3Text(secret))
    }

    /** The sealed bid sees the label and the secret only through their
        hashes: texts with equal hashes seal the same bid. */
    lemma BidHashOfHashes(coreAddr: Value, lbl: string, lbl': string, bidder: Value, amount: int,
                          secret: string, secret': string)
      requires sha3Text(lbl) == sha3Text(lbl') && sha3Text(secret) == sha3Text(secret')
      ensures BidHash(coreAddr, lbl, bidder, amount, secret) == BidHash(coreAddr, lbl', bidder, amount, secret')
    {
    }

    /** `start`: nothing for no names; otherwise the start gas in the transact
        dict, the gas check, and one `startAuctions` call with every label's hash. */
    method Start(names: seq<string>, modifiers: seq<Modifier>, gasLimit: int) returns (r: Result<Reply, Error>)
      modifies this, TransactDict(modifiers)
      ensures names == [] ==> r == Ok(NoCall) && unchanged(this) && unchanged(TransactDict(modifiers))
      ensures names != [] ==> GasDefaulted(modifiers, StartGas(|names|))
      ensures names != [] && StartPlan(names, old(TransactEntries(modifiers)), gasLimit, sha3Text).Err? ==>
        r == Err(StartPlan(names, old(TransactEntries(modifiers)), gasLimit, sha3Text).error)
      ensures names != [] && StartPlan(names, old(TransactEntries(modifiers)), gasLimit, sha3Text).Ok? ==>
        r == (if old(CoreAddress()).Ok? then Ok(Sent) else Err(old(CoreAddress()).error))
      ensures r.Err? ==> sent == old(sent) && core == old(core)
      ensures r == Ok(Sent) ==> core == Some(old(CoreAddress()).value)
      ensures r == Ok(Sent) ==>
        sent == old(sent) + [StartAuctions(core.value,
                                           StartPlan(names, old(TransactEntries(modifiers)), gasLimit, sha3Text).value,
                                           PassedKwargs(modifiers, StartGas(|names|)))]
    {
      if names == [] {
        return Ok(NoCall);
      }
      ghost var plan := StartPlan(names, TransactEntries(modifiers), gasLimit, sha3Text);
      var mods := modifiers;
      if mods == [] {
        var d := new Dict(map[]);
        mods := [Modifier("transact", d)];
      }
      var t := TransactIndex(mods);
      if t < |mods| {
        var transact := mods[t].dict;
        if "gas" !in transact.items {
          transact.Set("gas", Int(StartGas(|names|)));
        }
        var over := GasExceeds(transact.items["gas"], gasLimit);
        if over.Err? {
          return Err(over.error);
        }
        if over.value {
          return Err(ValueError(TooManyAuctions));
        }
      }
      assert Snapshot(mods) == PassedKwargs(modifiers, StartGas(|names|));
      var labels := ToLabels(names);
      if labels.Err? {
        return Err(labels.error);
      }
      var labelHashes := TextHashes(sha3Text, labels.value);
      assert plan == Ok(labelHashes);
      assert forall d :: d in Dicts(modifiers) ==> d as object != this;
      var c := Core();
      if c.Err? {
        return Err(c.error);
      }
      sent := sent + [StartAuctions(c.value, labelHashes, Snapshot(mods))];
      return Ok(Sent);
    }

    /** `bid`: the reveal gas by default, a sender required in the last
        keyword dict, then `newBid` with the sealed bid of the label. */
    method Bid(name: string, amount: int, secret: string, modifiers: seq<Modifier>) returns (r: Result<Reply, Error>)
      modifies this, TransactDict(modifiers)
      ensures GasDefaulted(modifiers, GAS_REVEAL)
      ensures modifiers == [] ==> r == Err(ValueError(MissingSender))
      ensures modifiers != [] ==>
        (r == Err(ValueError(MissingSender)) <==> "from" !in Last(modifiers).dict.items)
      ensures modifiers != [] && "from" in Last(modifiers).dict.items && ToLabel(name).Err? ==>
        r == Err(ToLabel(name).error)
      ensures modifiers != [] && "from" in Last(modifiers).dict.items && ToLabel(name).Ok? ==>
        r == (if old(CoreAddress()).Ok? then Ok(Sent) else Err(old(CoreAddress()).error))
      ensures r.Err? ==> sent == old(sent) && core == old(core)
      ensures r == Ok(Sent) ==> core == Some(old(CoreAddress()).value)
      ensures r == Ok(Sent) ==>
        sent == old(sent) + [NewBid(core.value,
                                    BidHash(core.value, ToLabel(name).value, Last(modifiers).dict.items["from"], amount, secret),
                                    Snapshot(modifiers))]
    {
      var mods := PrepareKwargs(modifiers, RevealAction);
      var vals := Last(mods).dict;
      if "from" !in vals.items {
        return Err(ValueError(MissingSender));
      }
      var lbl := ToLabel(name);
      if lbl.Err? {
        return Err(lbl.error);
      }
      assert forall d :: d in Dicts(modifiers) ==> d as object != this;
      var c := Core();
      if c.Err? {
        // A failed lookup of `eth` is an invalid name, never a missing sender.
        Names.NamehashOfErrorIsInvalidName(ens.prims, REGISTRAR_NAME);
        return Err(c.error);
      }
      var sealed := BidHash(c.value, lbl.value, vals.items["from"], amount, secret);
      sent := sent + [NewBid(c.value, sealed, Snapshot(mods))];
      return Ok(Sent);
    }

    /** `reveal` (also `unseal`): the reveal gas by default, then `unsealBid`
        with the label's hash, the value and the secret's hash. */
    method Reveal(name: string, value: int, secret: string, modifiers: seq<Modifier>) returns (r: Result<Reply, Error>)
      modifies this, TransactDict(modifiers)
      ensures GasDefaulted(modifiers, GAS_REVEAL)
      ensures ToLabel(name).Err? ==> r == Err(ToLabel(name).error)
      ensures ToLabel(name).Ok? ==> r == (if old(CoreAddress()).Ok? then Ok(Sent) else Err(old(CoreAddress()).error))
      ensures r.Err? ==> sent == old(sent) && core == old(core)
      ensures r == Ok(Sent) ==> core == Some(old(CoreAddress()).value)
      ensures r == Ok(Sent) ==>
        sent == old(sent) + [UnsealBid(core.value, sha3Text(ToLabel(name).value), value, sha3Text(secret),
                                       PassedKwargs(modifiers, GAS_REVEAL))]
    {
      var mods := PrepareKwargs(modifiers, RevealAction);
      var lbl := ToLabel(name);
      if lbl.Err? {
        return Err(lbl.error);
      }
      assert forall d :: d in Dicts(modifiers) ==> d as object != this;
      var c := Core();
      if c.Err? {
        return Err(c.error);
      }
      sent := sent + [UnsealBid(c.value, sha3Text(lbl.value), value, sha3Text(secret), Snapshot(mods))];
      return Ok(Sent);
    }

    /** `finalize`: the finalize gas by default, then `finalizeAuction` with
        the hash of the name exactly as given. */
    method Finalize(name: string, modifiers: seq<Modifier>) returns (r: Result<Reply, Error>)
      modifies this, TransactDict(modifiers)
      ensures GasDefaulted(modifiers, GAS_FINALIZE)
      ensures r == (if old(CoreAddress()).Ok? then Ok(Sent) else Err(old(CoreAddress()).error))
      ensures r.Err? ==> sent == old(sent) && core == old(core)
      ensures r == Ok(Sent) ==> core == Some(old(CoreAddress()).value)
      ensures r == Ok(Sent) ==>
        sent == old(sent) + [FinalizeAuction(core.value, sha3Text(name), PassedKwargs(modifiers, GAS_FINALIZE))]
    {
      var mods := PrepareKwargs(modifiers, FinalizeAction);
      // The keyword dicts are not the registrar, so caching `core` leaves them alone.
      assert forall d :: d in Dicts(modifiers) ==> d as object != this;
      var c := Core();
      if c.Err? {
        return Err(c.error);
      }
      sent := sent + [FinalizeAuction(c.value, sha3Text(name), Snapshot(mods))];
      return Ok(Sent);
    }

    /** `entries_by_hash`: the contract's entry list, with element 1 replaced
        in place by the deed (or `None`) and every other element kept. */
    method EntriesByHash(labelHash: Hash) returns (r: Result<array<Entry>, Error>)
      modifies this`core
      ensures old(CoreAddress()).Err? ==> r == Err(old(CoreAddress()).error)
      ensures old(CoreAddress()).Ok? ==>
        (r.Ok? <==> |coreEntries(old(CoreAddress()).value, labelHash)| >= 2)
      ensures old(CoreAddress()).Ok? && r.Err? ==> r.error == IndexError
      ensures old(CoreAddress()).Ok? ==> core == Some(old(CoreAddress()).value)
      ensures old(CoreAddress()).Err? ==> core == old(core)
      ensures r.Ok? ==> core == Some(old(CoreAddress()).value) && fresh(r.value)
      ensures r.Ok? ==>
        var raw := coreEntries(core.value, labelHash);
        r.value.Length == |raw| >= 2 && r.value[1] == DeedOf(raw[1]) &&
        forall i :: 0 <= i < |raw| && i != 1 ==> r.value[i] == Field(raw[i])
    {
      var c := Core();
      if c.Err? {
        return Err(c.error);
      }
      var raw := coreEntries(c.value, labelHash);
      var entries := new Entry[|raw|](i requires 0 <= i < |raw| => Field(raw[i]));
      if entries.Length < 2 {
        return Err(IndexError);
      }
      entries[1] := DeedOf(raw[1]);
      return Ok(entries);
    }

    /** `entries`: the entries of the name's label. */
    method Entries(name: string) returns (r: Result<array<Entry>, Error>)
      modifies this`core
      ensures ToLabel(name).Err? ==> r == Err(ToLabel(name).error) && core == old(core)
      ensures ToLabel(name).Ok? && old(CoreAddress()).Err? ==> r == Err(old(CoreAddress()).error)
      ensures ToLabel(name).Ok? && old(CoreAddress()).Ok? ==>
        (r.Ok? <==> |coreEntries(old(CoreAddress()).value, sha3Text(ToLabel(name).value))| >= 2)
      ensures ToLabel(name).Ok? && old(CoreAddress()).Ok? && r.Err? ==> r.error == IndexError
      ensures ToLabel(name).Ok? && old(CoreAddress()).Ok? ==> core == Some(old(CoreAddress()).value)
      ensures ToLabel(name).Ok? && old(CoreAddress()).Err? ==> core == old(core)
      ensures r.Ok? ==> ToLabel(name).Ok? && core == Some(old(CoreAddress()).value) && fresh(r.value)
      ensures r.Ok? ==>
        var raw := coreEntries(core.value, sha3Text(ToLabel(name).value));
        r.value.Length == |raw| >= 2 && r.value[1] == DeedOf(raw[1]) &&
        forall i :: 0 <= i < |raw| && i != 1 ==> r.value[i] == Field(raw[i])
    {
      var lbl := ToLabel(name);
      if lbl.Err? {
        return Err(lbl.error);
      }
      r := EntriesByHash(sha3Text(lbl.value));
    }
  }
}
