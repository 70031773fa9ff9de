/** ens/utils.py: hex rendering of raw bytes and the `dict_copy` decorator. */
module Utils {
  import opened Py

  predicate IsLowerHexDigit(c: char) {
    '0' <= c <= '9' || 'a' <= c <= 'f'
  }

  function HexDigit(d: int): (c: char)
    requires 0 <= d < 16
    ensures IsLowerHexDigit(c)
  {
    "0123456789abcdef"[d]
  }

  /** Two lower-case hex digits per byte, high nibble first, no prefix. */
  function HexDigits(b: seq<Byte>): (s: string)
    ensures |s| == 2 * |b|
    ensures forall i :: 0 <= i < |s| ==> IsLowerHexDigit(s[i])
  {
    if b == [] then [] else [HexDigit(b[0] / 16), HexDigit(b[0] % 16)] + HexDigits(b[1..])
  }

  /** The value of one hex digit of either case. */
  function HexValue(c: char): Option<int>
  {
    if '0' <= c <= '9' then Some(c as int - '0' as int)
    else if 'a' <= c <= 'f' then Some(c as int - 'a' as int + 10)
    else if 'A' <= c <= 'F' then Some(c as int - 'A' as int + 10)
    else None
  }

  /** Reads hex text (no prefix) back into bytes; the partner of HexDigits. */
  function FromHexDigits(s: string): Option<seq<Byte>>
  {
    if s == [] then Some([])
    else if |s| == 1 then None
    else match (HexValue(s[0]), HexValue(s[1]), FromHexDigits(s[2..]))
      case (Some(hi), Some(lo), Some(rest)) =>
        if 0 <= hi < 16 && 0 <= lo < 16 then Some([16 * hi + lo] + rest) else None
      case _ => None
  }

  lemma HexDigitValue(d: int)
    requires 0 <= d < 16
    ensures HexValue(HexDigit(d)) == Some(d)
  {
    var digits := "0123456789abcdef";
    if d < 10 {
      assert digits[d] as int == '0' as int + d by {
        assert digits[..10] == "0123456789";
      }
    } else {
      assert digits[d] as int == 'a' as int + (d - 10) by {
        assert digits[10..] == "abcdef";
      }
    }
  }

  lemma {:induction false} HexRoundTrip(b: seq<Byte>)
    ensures FromHexDigits(HexDigits(b)) == Some(b)
  {
    if b != [] {
      HexRoundTrip(b[1..]);
      var hi, lo := b[0] / 16, b[0] % 16;
      HexDigitValue(hi);
      HexDigitValue(lo);
      var s := HexDigits(b);
      assert s[0] == HexDigit(hi) && s[1] == HexDigit(lo);
      assert s[2..] == HexDigits(b[1..]);
      assert 16 * hi + lo == b[0];
      assert b == [b[0]] + b[1..];
    }
  }

  /** `Web3.toHex(bytes)`: `0x` and then two lower-case hex digits per byte. */
  function ToHex(b: seq<Byte>): (s: string)
    ensures |s| == 2 + 2 * |b| && s[..2] == "0x"
    ensures forall i :: 2 <= i < |s| ==> IsLowerHexDigit(s[i])
    ensures FromHexDigits(s[2..]) == Some(b)
  {
    HexRoundTrip(b);
    var s := "0x" + HexDigits(b);
    assert s[2..] == HexDigits(b);
    s
  }

  /** `ensure_hex`: raw bytes become their hex text, anything else passes through. */
  function EnsureHex(data: Value): (r: Value)
    ensures !data.Bytes? ==> r == data
    ensures data.Bytes? ==> r.Str? && |r.s| == 2 + 2 * |data.bytes| && r.s[..2] == "0x"
    ensures data.Bytes? ==> FromHexDigits(r.s[2..]) == Some(data.bytes)
    ensures data.Bytes? ==> forall i :: 2 <= i < |r.s| ==> IsLowerHexDigit(r.s[i])
  {
    match data
    case Bytes(b) => Str(ToHex(b))
    case _ => data
  }

  /** A keyword argument of a decorated call: a dict, or any other value. */
  datatype KwArg = DictArg(d: Dict) | Plain(v: Value)

  /** `dict(d)`: a new dictionary with the same top-level entries. */
  method CopyDict(d: Dict) returns (copy: Dict)
    ensures fresh(copy) && copy.items == d.items
  {
    copy := new Dict(d.items);
  }

  /** The keyword arguments `dict_copy`'s proxy hands to the wrapped method:
      the same keywords, each dict replaced by its own fresh copy, so writes
      the wrapped method makes to a dict argument never reach the caller's dict. */
  method DictCopy(kwargs: map<string, KwArg>) returns (copied: map<string, KwArg>)
    ensures copied.Keys == kwargs.Keys
    ensures forall k :: k in kwargs && kwargs[k].Plain? ==> copied[k] == kwargs[k]
    ensures forall k :: k in kwargs && kwargs[k].DictArg? ==>
      copied[k].DictArg? && fresh(copied[k].d) && copied[k].d.items == kwargs[k].d.items
    ensures forall k, k' :: k in copied && k' in copied && k != k' && copied[k].DictArg? && copied[k'].DictArg? ==>
      copied[k].d != copied[k'].d
  {
    copied := map[];
    var todo := kwargs.Keys;
    while todo != {}
      invariant todo <= kwargs.Keys
      invariant copied.Keys == kwargs.Keys - todo
      invariant forall k :: k in copied && kwargs[k].Plain? ==> copied[k] == kwargs[k]
      invariant forall k :: k in copied && kwargs[k].DictArg? ==>
        copied[k].DictArg? && fresh(copied[k].d) && copied[k].d.items == kwargs[k].d.items
      invariant forall k :: k in copied ==> (copied[k].DictArg? <==> kwargs[k].DictArg?)
      invariant forall k, k' :: k in copied && k' in copied && k != k' && copied[k].DictArg? && copied[k'].DictArg? ==>
        copied[k].d != copied[k'].d
      decreases todo
    {
      var k :| k in todo;
      match kwargs[k] {
        case DictArg(d) =>
          var c := CopyDict(d);
          copied := copied[k := DictArg(c)];
        case Plain(v) =>
          copied := copied[k := Plain(v)];
      }
      todo := todo - {k};
    }
  }
}
