/** The pure name handling of ens/main.py: normalisation (`nameprep`),
    the default top-level label (`_full_name`), the EIP-137 namehash fold
    and the EIP-181 reverse-lookup name. */
module Names {
  import opened Py
  import Utils

  const DEFAULT_TLD: string := "eth"
  const RECOGNIZED_TLDS: seq<string> := [DEFAULT_TLD, "reverse", "test"]
  const REVERSE_REGISTRAR_DOMAIN: string := "addr.reverse"

  type Hash = seq<Byte>

  /** The root node: 32 zero bytes. */
  const EMPTY_SHA3_BYTES: Hash :=
    [0, 0, 0, 0, 0, 0, 0, 0, 0, 0, 0, 0, 0, 0, 0, 0,
     0, 0, 0, 0, 0, 0, 0, 0, 0, 0, 0, 0, 0, 0, 0, 0]

  /** The foreign functions the name code calls, left uninterpreted:
      `web3.sha3` (Keccak-256) and `idna.decode(name, uts46=True, std3_rules=True)`,
      where `None` stands for an `IDNAError`. */
  datatype Primitives = Primitives(sha3: seq<Byte> -> Hash, idnaDecode: string -> Option<string>)

  /** `nameprep`: the empty name passes through untouched; anything else is
      the IDNA mapping, or `InvalidName` when the mapping rejects it. */
  function Nameprep(p: Primitives, name: string): (r: Result<string, Error>)
    ensures name == [] ==> r == Ok([])
    ensures name != [] ==> (r.Ok? <==> p.idnaDecode(name).Some?)
    ensures r.Ok? && name != [] ==> r.value == p.idnaDecode(name).value
    ensures r.Err? ==> r.error == InvalidName(name)
  {
    if name == [] then Ok(name)
    else match p.idnaDecode(name)
      case Some(prepped) => Ok(prepped)
      case None => Err(InvalidName(name))
  }

  /** `_full_name`: the normalised name, with `.eth` appended unless its last
      piece is already a recognised top-level label. */
  function FullName(p: Primitives, name: string): (r: Result<string, Error>)
    ensures r.Err? <==> Nameprep(p, name).Err?
    ensures r.Err? ==> r.error == Nameprep(p, name).error
    ensures r.Ok? ==> r.value != []
  {
    match Nameprep(p, name)
    case Err(e) => Err(e)
    case Ok(prepped) =>
      var pieces := Split(prepped);
      JoinSplit(prepped);
      if Last(pieces) in RECOGNIZED_TLDS then
        assert prepped == [] ==> pieces == [[]];
        Ok(Join(pieces))
      else
        JoinAppend(pieces, DEFAULT_TLD);
        Ok(Join(pieces + [DEFAULT_TLD]))
  }

  /** The full name ends in a recognised top-level label, and is the
      normalised name itself when that already did, else the normalised name
      with `.eth` appended. */
  lemma FullNameShape(p: Primitives, name: string)
    ensures FullName(p, name).Ok? ==>
      FullName(p, name).value != [] && Last(Split(FullName(p, name).value)) in RECOGNIZED_TLDS
    ensures FullName(p, name).Ok? && Last(Split(Nameprep(p, name).value)) in RECOGNIZED_TLDS ==>
      FullName(p, name).value == Nameprep(p, name).value
    ensures FullName(p, name).Ok? && Last(Split(Nameprep(p, name).value)) !in RECOGNIZED_TLDS ==>
      FullName(p, name).value == Nameprep(p, name).value + "." + DEFAULT_TLD
  {
    if Nameprep(p, name).Ok? {
      var prepped := Nameprep(p, name).value;
      var pieces := Split(prepped);
      JoinSplit(prepped);
      if Last(pieces) in RECOGNIZED_TLDS {
        assert prepped == [] ==> pieces == [[]];
      } else {
        JoinAppend(pieces, DEFAULT_TLD);
        SplitConcat(prepped, DEFAULT_TLD);
        SplitNoDot(DEFAULT_TLD);
      }
    }
  }

  /** `labelhash`: sha3 of the UTF-8 bytes of the normalised label. */
  function LabelHash(p: Primitives, lbl: string): (r: Result<Hash, Error>)
    ensures r.Err? <==> Nameprep(p, lbl).Err?
    ensures r.Ok? ==> r.value == p.sha3(Utf8(Nameprep(p, lbl).value))
  {
    var prepped :- Nameprep(p, lbl);
    Ok(p.sha3(Utf8(prepped)))
  }

  /** One step of the namehash fold: the node of label `lbl` under `node`. */
  function Child(p: Primitives, node: Hash, lbl: string): Result<Hash, Error>
  {
    var labelHash :- LabelHash(p, lbl);
    Ok(p.sha3(node + labelHash))
  }

  /** The namehash of a label sequence, most specific label first:
      the root node, extended by the labels from right to left. */
  function Fold(p: Primitives, labels: seq<string>): Result<Hash, Error>
  {
    if labels == [] then Ok(EMPTY_SHA3_BYTES)
    else
      var parent :- Fold(p, labels[1..]);
      Child(p, parent, labels[0])
  }

  /** The reference namehash of a name: the fold over the labels of its full name. */
  function NamehashOf(p: Primitives, name: string): Result<Hash, Error>
  {
    var full :- FullName(p, name);
    Fold(p, Split(full))
  }

  /** A label that cannot be hashed makes every name that contains it fail
      with the same error. */
  lemma {:induction false} FoldErrorPropagates(p: Primitives, labels: seq<string>, i: nat)
    requires i <= |labels| && Fold(p, labels[i..]).Err?
    ensures Fold(p, labels) == Fold(p, labels[i..])
    decreases i
  {
    if i > 0 {
      assert labels[i - 1..][1..] == labels[i..];
      FoldErrorPropagates(p, labels, i - 1);
    } else {
      assert labels[0..] == labels;
    }
  }

  /** Hashing fails only on a label the normalisation rejects. */
  lemma {:induction false} FoldErrorIsInvalidName(p: Primitives, labels: seq<string>)
    ensures Fold(p, labels).Err? ==> Fold(p, labels).error.InvalidName?
  {
    if labels != [] {
      FoldErrorIsInvalidName(p, labels[1..]);
    }
  }

  /** A name whose node cannot be computed is an invalid name. */
  lemma NamehashOfErrorIsInvalidName(p: Primitives, name: string)
    ensures NamehashOf(p, name).Err? ==> NamehashOf(p, name).error.InvalidName?
  {
    if FullName(p, name).Ok? {
      FoldErrorIsInvalidName(p, Split(FullName(p, name).value));
    }
  }

  /** EIP-137's recursion: the node of `lbl.parent` is sha3 of the parent's
      node followed by the label hash, for names already in canonical form. */
  lemma NamehashOfChild(p: Primitives, lbl: string, parent: string)
    requires '.' !in lbl
    requires FullName(p, parent) == Ok(parent)
    requires FullName(p, lbl + "." + parent) == Ok(lbl + "." + parent)
    ensures NamehashOf(p, lbl + "." + parent) ==
      match NamehashOf(p, parent)
      case Err(e) => Err(e)
      case Ok(node) => Child(p, node, lbl)
  {
    SplitConcat(lbl, parent);
    SplitNoDot(lbl);
    var labels := Split(lbl + "." + parent);
    assert labels == [lbl] + Split(parent);
    assert labels[1..] == Split(parent);
  }

  /** `reverse_domain`: the EIP-181 name `<hex>.addr.reverse` of an address
      given as raw bytes or as hex text. */
  function ReverseDomain(address: Value): (r: string)
    requires address.Str? || address.Bytes?
    ensures address.Bytes? ==> r == Utils.HexDigits(address.bytes) + "." + REVERSE_REGISTRAR_DOMAIN
  {
    var hex := Utils.EnsureHex(address).s;
    var stripped := if |hex| >= 2 && hex[..2] == "0x" then hex[2..] else hex;
    if address.Bytes? then
      LowerHexDigits(Utils.HexDigits(address.bytes));
      Lower(stripped) + "." + REVERSE_REGISTRAR_DOMAIN
    else
      Lower(stripped) + "." + REVERSE_REGISTRAR_DOMAIN
  }

  lemma LowerHexDigits(s: string)
    requires forall i :: 0 <= i < |s| ==> Utils.IsLowerHexDigit(s[i])
    ensures Lower(s) == s
  {
  }

  /** Hex text names the same reverse record as the raw bytes, with or
      without the `0x` prefix and in any letter case (checksummed addresses). */
  lemma ReverseDomainOfText(b: seq<Byte>, text: string)
    requires Lower(text) == Utils.HexDigits(b)
    ensures ReverseDomain(Str("0x" + text)) == ReverseDomain(Bytes(b))
    ensures ReverseDomain(Str(text)) == ReverseDomain(Bytes(b))
  {
    ReverseDomainOfPrefixedText(text);
    ReverseDomainOfBareText(b, text);
  }

  lemma ReverseDomainOfPrefixedText(text: string)
    ensures ReverseDomain(Str("0x" + text)) == Lower(text) + "." + REVERSE_REGISTRAR_DOMAIN
  {
    var hex := "0x" + text;
    assert hex[..2] == "0x" && hex[2..] == text;
    assert Utils.EnsureHex(Str(hex)) == Str(hex);
  }

  lemma ReverseDomainOfBareText(b: seq<Byte>, text: string)
    requires Lower(text) == Utils.HexDigits(b)
    ensures ReverseDomain(Str(text)) == Lower(text) + "." + REVERSE_REGISTRAR_DOMAIN
  {
    assert Utils.EnsureHex(Str(text)) == Str(text);
    if |text| >= 2 {
      assert Lower(text)[1] == LowerChar(text[1]);
      assert Utils.IsLowerHexDigit(Lower(text)[1]);
      assert text[..2] != "0x";
    }
  }

  /** Only a lower-case `0x` is stripped: the test comes before lower-casing. */
  lemma ReverseDomainKeepsUpperPrefix(text: string)
    ensures ReverseDomain(Str("0X" + text)) == "0x" + Lower(text) + "." + REVERSE_REGISTRAR_DOMAIN
  {
    var hex := "0X" + text;
    assert Utils.EnsureHex(Str(hex)) == Str(hex);
    assert hex[..2] == "0X";
    LowerUpperPrefix(text);
  }

  lemma LowerUpperPrefix(text: string)
    ensures Lower("0X" + text) == "0x" + Lower(text)
  {
    var hex := "0X" + text;
    assert hex[0] == '0' && hex[1..] == "X" + text;
    assert ("X" + text)[0] == 'X' && ("X" + text)[1..] == text;
  }

  /** Twenty `0x11` bytes give forty `1`s under `addr.reverse`. */
  lemma ReverseDomainExample()
    ensures ReverseDomain(Bytes(seq(20, _ => 0x11))) == seq(40, _ => '1') + ".addr.reverse"
  {
    var b: seq<Byte> := seq(20, _ => 0x11);
    RepeatedHexDigits(20);
    assert "." + REVERSE_REGISTRAR_DOMAIN == ".addr.reverse";
    assert ReverseDomain(Bytes(b)) == Utils.HexDigits(b) + ("." + REVERSE_REGISTRAR_DOMAIN);
  }

  lemma {:induction false} RepeatedHexDigits(n: nat)
    ensures Utils.HexDigits(seq(n, _ => 0x11)) == seq(2 * n, _ => '1')
  {
    if n > 0 {
      RepeatedHexDigits(n - 1);
      RepeatedStep(n);
      assert Utils.HexDigit(0x11 / 16) == '1' && Utils.HexDigit(0x11 % 16) == '1';
    }
  }

  lemma RepeatedStep(n: nat)
    requires n > 0
    ensures seq(n, _ => 0x11)[0] == 0x11
    ensures seq(n, _ => 0x11)[1..] == seq(n - 1, _ => 0x11)
    ensures seq(2 * n, _ => '1') == ['1', '1'] + seq(2 * (n - 1), _ => '1')
  {
  }

  /** `_full_name` leaves a reverse-lookup name alone, since `reverse` is a
      recognised top-level label. */
  lemma FullNameOfReverseDomain(p: Primitives, address: Value)
    requires address.Str? || address.Bytes?
    requires Nameprep(p, ReverseDomain(address)) == Ok(ReverseDomain(address))
    ensures FullName(p, ReverseDomain(address)) == Ok(ReverseDomain(address))
  {
    var hex := Utils.EnsureHex(address).s;
    var stripped := if |hex| >= 2 && hex[..2] == "0x" then hex[2..] else hex;
    assert ReverseDomain(address) == Lower(stripped) + "." + REVERSE_REGISTRAR_DOMAIN;
    LastPieceIsReverse(Lower(stripped));
    FullNameShape(p, ReverseDomain(address));
  }

  lemma LastPieceIsReverse(head: string)
    ensures Last(Split(head + "." + REVERSE_REGISTRAR_DOMAIN)) == "reverse"
  {
    var front := head + ".addr";
    ReverseSuffix(head);
    SplitConcat(front, "reverse");
    SplitReverse();
  }

  /** The reverse suffix ends in the piece `reverse` after one more dot. */
  lemma ReverseSuffix(head: string)
    ensures head + "." + REVERSE_REGISTRAR_DOMAIN == (head + ".addr") + "." + "reverse"
  {
    assert REVERSE_REGISTRAR_DOMAIN == "addr" + "." + "reverse";
  }

  lemma SplitReverse()
    ensures Split("reverse") == ["reverse"]
  {
    assert '.' !in "reverse";
    SplitNoDot("reverse");
  }
}
