# ens.py in Dafny

A model of the core of `ens.py`, a Python client for the Ethereum Name
Service (ENS). The model covers three parts:

- **Name handling** (`names.dfy`): normalising a name (`nameprep`), adding
  the default `.eth` top-level label (`_full_name`), the EIP-137 namehash
  fold, label hashes and the EIP-181 reverse-lookup name `<hex>.addr.reverse`.
- **The ENS client** (`main.dfy`, class `Main.ENS`): finding the first owned
  suffix of a name (`_first_owner`), claiming the unowned subdomains
  (`_claim_ownership`), pointing the name at the default resolver
  (`_set_resolver`), and the decisions and transactions of `setup_address`
  and `setup_name`.
- **The auction-registrar client** (`registrar.dfy`, class
  `Registrar.Registrar`): turning a name into the label the EIP-162 registrar
  auctions (`_to_label`), defaulting gas in the caller's transact dict, the
  calls `start`, `bid`, `reveal`/`unseal` and `finalize` send to the auction
  contract, the lazily cached `core` contract, and `entries_by_hash`, which
  rewrites element 1 of the entry list in place.

`utils.dfy` holds `ensure_hex` and `dict_copy`. `py.dfy` holds the small part
of Python the package relies on: truthiness, `str.split('.')`, `'.'.join`,
`str.lower`, UTF-8 encoding, the exceptions raised, and mutable dicts.

How the model represents the outside world:

- **Foreign functions are parameters.** Keccak-256 (`web3.sha3`) and IDNA
  normalisation (`idna.decode`) are function-valued fields of
  `Names.Primitives`. The registrar's `web3.sha3(text, encoding='bytes')` is
  the function field `sha3Text`.
- **Chain reads are constant functions of the client objects.** These are
  the registry's `owner` and `resolver`, a resolver's `addr`, the local
  accounts, the auction contract's `shaBid` and `entries`, and the block gas
  limit (a parameter of `Start`).
- **Transactions are logged.** Every transaction the ENS client sends is
  appended to `sent` (`Main.Transaction`), with the transact dict it carried.
  Every call to the auction contract is appended to the registrar's `sent`
  (`Registrar.AuctionCall`), with the keyword dicts it received.
- **Dicts are shared objects.** A Python dict is a `Py.Dict` object, so a
  write to a dict is visible to every holder of it. `dict_copy` is modelled
  by copying: each decorated method of `Main.ENS` works on a fresh
  `Utils.CopyDict` of its `transact` and ensures `unchanged(transact)`.
  This is what `dict_copy` does for a `transact` passed by keyword, which is
  how the package passes it between its own methods. The
  registrar methods are not decorated, and their contracts state the write
  they make into the caller's transact dict (`GasDefaulted`).

## Model

| member | source | states |
|---|---|---|
| Names.Nameprep | ens/main.py:148-155 | the empty name passes unchanged; any other name is the IDNA mapping, and a rejected name raises `InvalidName` for that name |
| Names.FullName | ens/main.py:223-231 | fails exactly when normalisation fails, with the same error; a full name is never empty |
| Names.FullNameShape | ens/main.py:228-231 | the full name's last label is always a recognised top-level label (`eth`, `reverse`, `test`); it is the normalised name when that already ends in one, else the normalised name plus `.eth` |
| Names.LabelHash | ens/main.py:136-139 | a label hash is sha3 of the UTF-8 bytes of the normalised label, and fails exactly when normalisation fails |
| Names.FoldErrorPropagates | ens/main.py:113-119 | when the fold over a suffix of the labels fails, the whole right-to-left fold fails with that suffix's error, so with several labels that cannot be hashed the rightmost one's error is raised |
| Names.FoldErrorIsInvalidName | ens/main.py:115-116 | hashing a list of labels can only fail with `InvalidName` |
| Names.NamehashOfErrorIsInvalidName | ens/main.py:110-120 | a name whose namehash cannot be computed is an `InvalidName` |
| Names.NamehashOfChild | ens/main.py:110-120 | EIP-137's recursion: the node of `label.parent` is sha3 of the parent's node followed by the label's hash |
| Names.ReverseDomain | ens/main.py:141-146 | raw address bytes give their lower-case hex digits followed by `.addr.reverse` |
| Names.ReverseDomainOfText | ens/main.py:141-146 | hex text in any letter case, with or without `0x`, names the same reverse record as the raw bytes it spells |
| Names.ReverseDomainKeepsUpperPrefix | ens/main.py:143-145 | an upper-case `0X` prefix is not stripped: the prefix test comes before lower-casing |
| Names.ReverseDomainExample | ens/main.py:141-146 | twenty `0x11` bytes give forty `1`s followed by `.addr.reverse` |
| Names.FullNameOfReverseDomain | ens/main.py:141-146 | `_full_name` leaves a reverse-lookup name unchanged, since `reverse` is a recognised top-level label |
| Utils.HexDigits | ens/utils.py:19-20 | two lower-case hex digits per byte |
| Utils.HexRoundTrip | ens/utils.py:19-20 | reading the hex digits back gives the original bytes |
| Utils.ToHex | ens/utils.py:20 | `0x`, then only lower-case hex digits, and the digits read back to the bytes |
| Utils.EnsureHex | ens/utils.py:18-21 | a non-bytes argument is returned unchanged; bytes become `0x` followed by lower-case hex digits, twice as many as the bytes, that read back to the same bytes (the `Web3.toHex` form the address comparison of ens/main.py:72 relies on) |
| Utils.CopyDict | ens/utils.py:11 | the copy is a new dict with the same entries |
| Utils.DictCopy | ens/utils.py:5-15 | the same keyword names; non-dict values unchanged; each dict replaced by its own fresh, distinct copy with equal entries |
| Main.ClaimedNameStep | ens/main.py:183-190 | each round of `_claim_ownership` owns the next unowned label to the left, placed in front of the name owned before |
| Main.ClaimedNameEnds | ens/main.py:179-190 | zero rounds leave the owned name; all the rounds give the whole name |
| Main.ENS.Namehash | ens/main.py:110-120 | the right-to-left loop over the labels computes the reference namehash fold (`Names.NamehashOf`) |
| Main.ENS.AddressOf | ens/main.py:99-108 | `address(name)`, that is `resolve(name, 'addr')` over `resolver(name)`: the address the resolver of the name's node gives for that node, or `None` when the registry names no resolver; it fails exactly when the namehash fails, and then with `InvalidName` |
| Main.ENS.OwnerOf | ens/main.py:132-134 | the registry's owner of the name's namehash node; it fails exactly when the namehash fails, and then with `InvalidName` |
| Main.ENS.FirstOwnerUnique | ens/main.py:167-177 | the declarative reading of the first-owner search admits one answer only |
| Main.ENS.FirstOwnerStops | ens/main.py:172 | when the search stops before the last label, the suffix it stopped at has an owner |
| Main.ENS.FirstOwnerFromSound | ens/main.py:167-177 | what the reference search finds meets the declarative reading: the stripped labels form a prefix whose every suffix is unowned, and the result is the first owned suffix, or the last label |
| Main.ENS.FirstOwnerFromComplete | ens/main.py:167-177 | whatever meets the declarative reading is what the reference search finds |
| Main.ENS.FirstOwner | ens/main.py:167-177 | the popping loop gives the reference search's result (or the full-name error); one owner lookup per stripped label plus one for the owner found, never more than the number of labels |
| Main.ENS.ClaimOwnership | ens/main.py:179-190 | the caller's dict is unchanged; every call sent is a `setSubnodeOwner` of the next unowned label, innermost first, under the name claimed so far, with `from` = owner and gas 60003; it succeeds exactly when every name claimed under and every label claimed can be hashed, and then every unowned label is claimed; otherwise it raises `InvalidName` at the first step that cannot hash, with the claims before that step already sent and not undone |
| Main.ENS.AssertControl | ens/main.py:161-165 | passes exactly for local accounts; otherwise raises `Unauthorized`, naming the parent owned when given, else the name |
| Main.ENS.SetResolver | ens/main.py:192-204 | the resolver is the given one, or the address `resolver.eth` resolves to; `setResolver` with gas 60002 is sent exactly when the registry points elsewhere; the caller's dict is unchanged; it succeeds exactly when the name can be hashed and a resolver is given or `resolver.eth` can be looked up, and otherwise raises `InvalidName` |
| Main.ENS.SetupReverse | ens/main.py:206-214 | succeeds exactly when the full name and the owner of `addr.reverse` are found, and then sends one `setName` of the full name with `from` = the address; otherwise it raises `InvalidName` |
| Main.ENS.SendRecords | ens/main.py:77-80 | after the resolver step, `setAddr` of the target address to the name's node is sent with gas 60001; it succeeds exactly when `resolver.eth` and the name can be looked up, and otherwise raises `InvalidName` having sent nothing |
| Main.ENS.AddressPlan | ens/main.py:67-74 | `setup_address` does nothing exactly when the name already resolves to the target address (given, else the first owner); errors of `_full_name`, of `_first_owner` and of the address lookup propagate in that order; it raises `Unauthorized` when the first owner is not local; otherwise, exactly when that owner is local, it configures the name for the first owner found |
| Main.ENS.SetupAddress | ens/main.py:67-80 | the caller's dict, passed by keyword, is unchanged; returns `None` and sends nothing exactly when the address is already set; otherwise it sends the claims of the unowned labels, then the resolver and address records, as `AddressSetupLogged` describes; when it has to configure the name, it does so exactly when every name and label it hashes can be hashed (`AddressSendable`), and otherwise raises `InvalidName`; errors of the plan are raised as they are, with nothing sent; a failure while configuring leaves sent the claims made before the failing step (`AddressSetupFailed`) |
| Main.ENS.ClaimAndSend | ens/main.py:75-80 | on success it sends the claims, then the records, with `from` = owner in both; it succeeds exactly when the claims and the records can be hashed, and otherwise raises `InvalidName`, leaving sent the claims made before the failing step, or all of them when the records step failed (`ClaimsStopped`) |
| Main.ENS.AddressSetupJoined | ens/main.py:75-80 | the claims followed by the records form the whole `setup_address` log |
| Main.ENS.NameAccount | ens/main.py:84-93 | `AddressMismatch` when a given address differs from a non-empty resolved one; `UnownedName` when there is no address, no resolution and no owner; otherwise the account is the given address, else the resolved one, else the owner |
| Main.ENS.SetupName | ens/main.py:82-97 | the caller's dict is unchanged; raises `Unauthorized` for a non-local account; on success the last call is `setName` of the full name from the account; when the name already resolves, that is the only call; when it resolves to nothing, the calls before it are those `setup_address(name, account)` sends to claim and configure the name; for a local account it succeeds exactly when the full name and the reverse registrar are found and the name either resolves already or `setup_address` can configure it; its errors are then `InvalidName` or the plan's own error; a failure sends nothing when the name already resolves, and otherwise leaves sent what `setup_address` sent, all of its setup when only the reverse step failed (`NameSetupFailed`) |
| Main.ENS.SetupAddressFirst | ens/main.py:95-96 | for a name that resolves to nothing, `setup_address(name, account)` succeeds exactly when it can configure the name (`AddressSendable`), its calls being the claims and records of its plan for that account; otherwise it raises `InvalidName` or the plan's error, leaving sent nothing for a plan error and otherwise the claims made before the failing step (`AddressSetupFailed`) |
| Main.ENS.UnresolvedPlansConfigure | ens/main.py:70-73 | a name that resolves to nothing is never already set up for a non-empty account, so `setup_address` does not return early |
| Registrar.ToLabel | ens/registrar.py:114-125 | a label never contains a dot |
| Registrar.ToLabelNeverTooShort | ens/registrar.py:116-121 | the "label or fully-qualified name" `TypeError` can never be raised |
| Registrar.ToLabelOfName | ens/registrar.py:114-125 | a bare label, and the label followed by `.eth`, both give the label |
| Registrar.ToLabelOfSubdomain | ens/registrar.py:116-124 | deeper names under `.eth` are not rejected: the piece just left of `eth` is the label |
| Registrar.ToLabelOfOtherTld | ens/registrar.py:122-123 | a dotted name under any other top-level label raises `TypeError` |
| Registrar.ToLabelIdempotent | ens/registrar.py:114-125 | a label is its own label |
| Registrar.ToLabelExamples | ens/registrar.py:114-125 | `fullname.eth` gives `fullname`; `holy.grail.eth` gives `grail`; `fullname.test` is refused |
| Registrar.ToLabels | ens/registrar.py:50 | all the labels in order, or the error of the first name without one |
| Registrar.WithDefaultGas | ens/registrar.py:101-103 | `gas` is always present afterwards; an existing gas is never overwritten; a missing one gets the default; no other key changes |
| Registrar.DefaultGasIdempotent | ens/registrar.py:101-103 | a second default never changes what the first left |
| Registrar.DefaultGas | ens/registrar.py:101-103 | the caller's dict becomes `WithDefaultGas` of its old entries, with the action's default (500000, 150000 or 120000) |
| Registrar.StartAdmits | ens/registrar.py:46-49 | at the default start gas, a batch is refused exactly when it holds more than `(limit - 25000) / 39000` names |
| Registrar.StartAdmitsExample | ens/registrar.py:46-49 | 25 names fit under a gas limit of 1,000,000; 26 do not (the comparison is strict) |
| Registrar.TransactIndex | ens/registrar.py:44-45 | the position of the `transact` keyword; no earlier keyword is `transact` |
| Registrar.PrepareKwargs | ens/registrar.py:59-62 | `{'transact': {}}` when no keyword is given; the transact dict, if any, gets the default gas; the call receives exactly these dicts |
| Registrar.StartGasCheck | ens/registrar.py:44-49 | without a transact dict there is no check |
| Registrar.StartGasCheckDefault | ens/registrar.py:44-49 | without its own gas, a batch passes exactly when it holds at most `MaxAuctions` names and otherwise raises `ValueError`; with its own integer gas, it passes exactly when that gas is at most the limit |
| Registrar.StartPlan | ens/registrar.py:39-51 | a failed gas check raises its error; otherwise it succeeds exactly when every name has a label, and then gives each label's hash in order |
| Registrar.DeedOfExamples | ens/registrar.py:92 | the zero address gives `None`; a non-zero address gives a deed |
| Registrar.Registrar.Core | ens/registrar.py:95-99 | the result is the cached contract, else the owner of `eth`; a cached contract stays; a found one is cached |
| Registrar.Registrar.BidHashOfHashes | ens/registrar.py:109-112 | the sealed bid sees the label and the secret only through their sha3 hashes: texts with equal hashes give the same bid for the same contract, bidder and amount |
| Registrar.Registrar.Start | ens/registrar.py:39-52 | no names: returns `None` and changes nothing; otherwise the transact dict gets the start gas, errors are those of `StartPlan` then of `core`, and on success one `startAuctions` call with the label hashes is sent; a failed call sends nothing and leaves the cached `core` as it was |
| Registrar.Registrar.Bid | ens/registrar.py:54-69 | default gas 150000; `ValueError` exactly when the last keyword dict has no `from`; `TypeError` for a name not under `.eth`; on success one `newBid` of the sealed bid over the label's hash, the sender, the amount and the secret's hash; a failed call sends nothing and leaves the cached `core` as it was |
| Registrar.Registrar.Reveal | ens/registrar.py:71-80 | default gas 150000; `TypeError` for a name not under `.eth`; on success one `unsealBid` with the label's hash, the value and the secret's hash; a failed call sends nothing and leaves the cached `core` as it was |
| Registrar.Registrar.Finalize | ens/registrar.py:82-88 | default gas 120000; on success one `finalizeAuction` with the hash of the name exactly as given; a failed call sends nothing and leaves the cached `core` as it was |
| Registrar.Registrar.EntriesByHash | ens/registrar.py:90-93 | `IndexError` exactly when the contract returns fewer than two entries; otherwise a new array with element 1 replaced by the deed (or `None`) and every other element kept; a found `core` is cached even when `IndexError` follows, and a failed lookup leaves the cache as it was |
| Registrar.Registrar.Entries | ens/registrar.py:34-37 | the name's `_to_label` error, else `core`'s error; otherwise it succeeds exactly when the contract has at least two entries for the hash of the label (else `IndexError`), and gives those entries with element 1 replaced by the deed; `core` is cached as in `entries_by_hash` |

## Left out

- Keccak-256 and IDNA/UTS #46 normalisation are not implemented. They are the uninterpreted function fields of `Names.Primitives`, and of `Registrar.Registrar.sha3Text` for `web3.sha3(text, encoding='bytes')`, whose text encoding is not modelled.
- `_full_name`'s decoding of a `bytes` name (ens/main.py:225-226) is not modelled: names are text.
- Contract and RPC traffic is not modelled: reads are constant functions, writes are logged calls. This covers `ens.owner`, `ens.resolver`, `addr`, `setAddr`, `setResolver`, `setSubnodeOwner`, `setName`, `startAuctions`, `newBid`, `unsealBid`, `finalizeAuction`, `shaBid`, `entries` and `getBlock`. A call's return value is the `Sent` marker instead of a transaction hash.
- `ENS.__init__`, contract and ABI construction, `address`/`resolve`/`resolver` dispatch through `getattr`, `toChecksumAddress`, `hex2bytes`, `name`, `reverser` and `_reverse_node` are glue over web3. `address(name)` is modelled as `Main.ENS.AddressOf` (the resolver's answer, or `None`).
- `_wrap_fresh_assertion`/`stalecheck` is left out: it depends on the wall clock and on chain freshness.
- The registrar's `__last_gaslimit` read is a parameter of `Start`.
- `is_empty_hex` comes from web3utils, which is not part of this model. `Registrar.IsEmptyHex` takes it to mean `None`, or text or bytes whose digits are all zero.
- The deed contract object is `Registrar.DeedAt(address)`.
- `Utils.DictCopy` models the rewriting of the keyword arguments. The proxy's pass-through of positional arguments and of the wrapped result is not a separate member: each decorated `Main.ENS` method copies its own `transact` dict.
- Main.ENS.SetupAddress (and every decorated `Main.ENS` method) takes `transact` as a keyword argument. `dict_copy` copies keyword arguments only (ens/utils.py:7-13), so a dict a caller passes positionally, as in `setup_address(name, addr, d)`, reaches the method uncopied, and ens/main.py:77 and 79 write `from` and `gas` into the caller's dict. The model does not capture that aliasing.
- Names.ReverseDomain requires an address given as text or bytes. For any other value, such as `None` or an integer, `ensure_hex` passes it through and `address.startswith` (ens/main.py:143) raises `AttributeError`; the model has no member for that error.
- `unseal` is the same method as `reveal`, so it has no member of its own.
- `Names.Lower` lower-cases ASCII letters only. Addresses are hex, so this is all `reverse_domain` needs.
- Python's `gas > limit` with a float gas is not modelled. `Registrar.GasExceeds` compares integers and booleans and raises `TypeError` otherwise.

## Differences from the test suite

Some tests under `tests/registrar` describe another revision of the code. The model follows the code:

- `tests/registrar/test_bid.py:47-51` expects `bid` to default to gas 500000. The code defaults it to `GAS_DEFAULT['reveal']` = 150000 (ens/registrar.py:62). `Registrar.Registrar.Bid` states 150000.
- `tests/registrar/test_finalize.py:3-7` expects `finalize('theycallmetim.eth')` to hash the label `theycallmetim`. The code hashes the full name as given (ens/registrar.py:87). `Registrar.Registrar.Finalize` states the hash of the name.
- `tests/registrar/test_entries.py:28-32` expects `entries('holy.grail.eth')` to raise. The code takes the label `grail` (`Registrar.ToLabelOfSubdomain`, `Registrar.ToLabelExamples`).
- `tests/registrar/test_bid.py:6-8` expects `TypeError` for a bid without a sender. The code raises `ValueError` (ens/registrar.py:65-66). `Registrar.Registrar.Bid` states `ValueError(MissingSender)`.
- These tests expect behaviour the code does not have, so it is not modelled:
  - the `Status` enum;
  - datetime conversion of registration dates;
  - the minimum bid;
  - `sealedBids` and `InvalidBidHash`;
  - `reveal` requiring a sender;
  - normalisation of names and use of `ens.labelhash` inside the registrar.
