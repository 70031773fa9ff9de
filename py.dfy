/** The small part of Python's runtime that the ens package leans on:
    truthiness of values, the exceptions it raises, `str.split('.')`,
    `'.'.join`, `str.lower`, UTF-8 encoding and mutable dictionaries. */
module Py {

  /** One element of a Python `bytes` value. */
  type Byte = x: int | 0 <= x < 256

  datatype Option<+T> = None | Some(value: T)

  datatype Result<+T, +E> = Ok(value: T) | Err(error: E) {
    predicate IsFailure() { Err? }
    function PropagateFailure<U>(): Result<U, E> requires Err? { Err(error) }
    function Extract(): T requires Ok? { value }
  }

  /** A step that either passes or raises. */
  datatype Outcome<+E> = Pass | Fail(error: E) {
    predicate IsFailure() { Fail? }
    function PropagateFailure<U>(): Result<U, E> requires Fail? { Err(error) }
  }

  /** What a client call that may send a transaction returns: `None`
      without sending, or the hash of the transaction it sent. */
  datatype Reply = NoCall | Sent

  /** The dynamically typed values that flow through the package:
      addresses as hex text or raw bytes, gas amounts, `None`. */
  datatype Value = NoneVal | Bool(b: bool) | Int(i: int) | Str(s: string) | Bytes(bytes: seq<Byte>)

  /** Python's `bool(v)`. */
  predicate Truthy(v: Value) {
    match v
    case NoneVal => false
    case Bool(b) => b
    case Int(i) => i != 0
    case Str(s) => s != []
    case Bytes(b) => b != []
  }

  datatype TypeErrorKind =
    | NotLabelOrName      // "You must specify a label ... or a fully-qualified name"
    | NotUnderRegistrar   // "This registrar only manages names under .eth"
    | Unorderable         // comparing a non-integer gas value with the block gas limit

  datatype ValueErrorKind =
    | TooManyAuctions     // "There are too many auctions to fit in a block"
    | MissingSender       // "You must specify the sending account when creating a bid"

  /** The exceptions the core raises. */
  datatype Error =
    | InvalidName(name: string)
    | AddressMismatch
    | UnownedName
    | Unauthorized(account: Value, subject: string)
    | TypeError(typeKind: TypeErrorKind)
    | ValueError(valueKind: ValueErrorKind)
    | IndexError

  function Last<T>(s: seq<T>): T
    requires |s| > 0
  {
    s[|s| - 1]
  }

  /** `s.split('.')`: the pieces between dots; never empty, `''` gives `['']`. */
  function Split(s: string): (pieces: seq<string>)
    ensures |pieces| >= 1
  {
    if s == [] then [[]]
    else
      var rest := Split(s[1..]);
      if s[0] == '.' then [[]] + rest
      else [[s[0]] + rest[0]] + rest[1..]
  }

  /** `'.'.join(pieces)`. */
  function Join(pieces: seq<string>): string
  {
    if |pieces| == 0 then []
    else if |pieces| == 1 then pieces[0]
    else pieces[0] + "." + Join(pieces[1..])
  }

  lemma JoinCons(piece: string, rest: seq<string>)
    requires |rest| >= 1
    ensures Join([piece] + rest) == piece + "." + Join(rest)
  {
    assert ([piece] + rest)[1..] == rest;
  }

  /** Splitting and joining again gives back the text. */
  lemma {:induction false} JoinSplit(s: string)
    ensures Join(Split(s)) == s
  {
    if s != [] {
      JoinSplit(s[1..]);
      JoinStep(s[0], Split(s[1..]));
      assert s == [s[0]] + s[1..];
    }
  }

  /** One step of JoinSplit: prefixing a character to the first piece, or
      a fresh empty piece for a dot, prefixes that character to the join. */
  lemma JoinStep(c: char, rest: seq<string>)
    requires |rest| >= 1
    ensures Join(if c == '.' then [[]] + rest else [[c] + rest[0]] + rest[1..]) == [c] + Join(rest)
  {
    if c == '.' {
      JoinCons([], rest);
    } else if |rest| > 1 {
      JoinCons(rest[0], rest[1..]);
      assert rest == [rest[0]] + rest[1..];
      JoinCons([c] + rest[0], rest[1..]);
    }
  }

  /** A dot in the text is exactly a boundary between pieces. */
  lemma {:induction false} SplitConcat(s: string, t: string)
    ensures Split(s + "." + t) == Split(s) + Split(t)
  {
    var u := s + "." + t;
    if s == [] {
      assert u[0] == '.' && u[1..] == t;
    } else {
      assert u[0] == s[0] && u[1..] == s[1..] + "." + t;
      SplitConcat(s[1..], t);
      SplitStep(s[0], Split(s[1..]), Split(t));
    }
  }

  /** The sequence algebra of one step of SplitConcat. */
  lemma SplitStep(c: char, rest: seq<string>, tail: seq<string>)
    requires |rest| >= 1
    ensures [[]] + (rest + tail) == ([[]] + rest) + tail
    ensures [[c] + (rest + tail)[0]] + (rest + tail)[1..] == ([[c] + rest[0]] + rest[1..]) + tail
  {
    assert (rest + tail)[1..] == rest[1..] + tail;
  }

  /** Text without a dot is a single piece. */
  lemma {:induction false} SplitNoDot(s: string)
    requires '.' !in s
    ensures Split(s) == [s]
  {
    if s != [] {
      assert '.' !in s[1..] by {
        forall i | 0 <= i < |s[1..]| ensures s[1..][i] != '.' {
          assert s[1..][i] == s[i + 1];
        }
      }
      SplitNoDot(s[1..]);
      assert s == [s[0]] + s[1..];
    }
  }

  /** Text with a dot splits into at least two pieces. */
  lemma {:induction false} SplitDotted(s: string)
    requires '.' in s
    ensures |Split(s)| >= 2
  {
    if s[0] != '.' {
      assert '.' in s[1..] by {
        var i :| 0 <= i < |s| && s[i] == '.';
        assert s[1..][i - 1] == '.';
      }
      SplitDotted(s[1..]);
    }
  }

  /** No piece of a split holds a dot. */
  lemma {:induction false} SplitPiecesHaveNoDot(s: string)
    ensures forall i :: 0 <= i < |Split(s)| ==> '.' !in Split(s)[i]
  {
    if s != [] {
      SplitPiecesHaveNoDot(s[1..]);
      var rest := Split(s[1..]);
      if s[0] != '.' {
        assert forall c :: c in [s[0]] + rest[0] ==> c == s[0] || c in rest[0];
      }
    }
  }

  lemma {:induction false} JoinAppend(pieces: seq<string>, piece: string)
    requires |pieces| >= 1
    ensures Join(pieces + [piece]) == Join(pieces) + "." + piece
  {
    if |pieces| == 1 {
      JoinCons(pieces[0], [piece]);
    } else {
      JoinAppend(pieces[1..], piece);
      assert pieces + [piece] == [pieces[0]] + (pieces[1..] + [piece]);
      JoinCons(pieces[0], pieces[1..] + [piece]);
    }
  }

  /** `str.lower()` on the ASCII letters; other characters are kept. */
  function LowerChar(c: char): char
  {
    if 'A' <= c <= 'Z' then (c as int + 32) as char else c
  }

  function Lower(s: string): (r: string)
    ensures |r| == |s|
    ensures forall i :: 0 <= i < |s| ==> r[i] == LowerChar(s[i])
  {
    if s == [] then [] else [LowerChar(s[0])] + Lower(s[1..])
  }

  /** One character in UTF-8 (`str.encode('utf-8')`). */
  function Utf8Char(c: char): (r: seq<Byte>)
    ensures 1 <= |r| <= 4
    ensures c as int < 0x80 <==> |r| == 1
  {
    var n := c as int;
    if n < 0x80 then [n]
    else if n < 0x800 then [0xC0 + n / 64, 0x80 + n % 64]
    else if n < 0x10000 then [0xE0 + n / 4096, 0x80 + (n / 64) % 64, 0x80 + n % 64]
    else [0xF0 + n / 262144, 0x80 + (n / 4096) % 64, 0x80 + (n / 64) % 64, 0x80 + n % 64]
  }

  function Utf8(s: string): seq<Byte>
  {
    if s == [] then [] else Utf8Char(s[0]) + Utf8(s[1..])
  }

  /** A mutable Python `dict` from text keys, shared by reference. */
  class Dict {
    var items: map<string, Value>

    constructor (items: map<string, Value>)
      ensures this.items == items
    {
      this.items := items;
    }

    method Set(key: string, value: Value)
      modifies this
      ensures items == old(items)[key := value]
    {
      items := items[key := value];
    }
  }
}
