/** Decimal integers (crates/llvm_poc/runtime/ubel_rt.c) and the building of interpolated strings
    (crates/llvm_poc/src/emit.rs). Characters stand for bytes. */
module Strings {
  const TWO_63: int := 0x8000_0000_0000_0000
  const TWO_64: int := 0x1_0000_0000_0000_0000

  type i64 = v: int | -TWO_63 <= v < TWO_63
  type u64 = v: int | 0 <= v < TWO_64

  // ---------------------------------------------------------------- integers in decimal

  function Digit(d: nat): char
    requires d < 10
  {
    '0' + d as char
  }

  /** The decimal digits of a number. */
  function Digits(u: nat): (s: string)
    ensures |s| >= 1
  {
    if u < 10 then [Digit(u)] else Digits(u / 10) + [Digit(u % 10)]
  }

  function Abs(v: int): nat {
    if v < 0 then -v else v
  }

  function Show(v: int): string {
    if v < 0 then ['-'] + Digits(Abs(v)) else Digits(Abs(v))
  }

  /** Reads decimal digits. */
  function Number(s: string): int {
    if s == [] then 0 else 10 * Number(s[..|s| - 1]) + (s[|s| - 1] as int - '0' as int)
  }

  function Parse(s: string): int {
    if s != [] && s[0] == '-' then -Number(s[1..]) else Number(s)
  }

  lemma {:induction false} DigitsNumber(u: nat)
    ensures Number(Digits(u)) == u && forall c :: c in Digits(u) ==> '0' <= c <= '9'
    decreases u
  {
    if u >= 10 {
      DigitsNumber(u / 10);
      var s := Digits(u);
      assert s[..|s| - 1] == Digits(u / 10);
    } else {
      assert Digits(u)[..0] == [];
    }
  }

  /** Every integer, the smallest one included, is read back from what is written. */
  lemma ParseShow(v: int)
    ensures Parse(Show(v)) == v
  {
    if v < 0 {
      DigitsNumber(Abs(v));
      assert Show(v)[1..] == Digits(Abs(v));
    } else {
      DigitsNumber(v);
      assert Digits(v)[0] in Digits(v);
    }
  }

  /** Decimal digits, without a zero in front. */
  predicate Numeral(s: string) {
    s != [] && (forall c :: c in s ==> '0' <= c <= '9') && (s[0] == '0' ==> |s| == 1)
  }

  predicate Decimal(s: string) {
    if s != [] && s[0] == '-' then Numeral(s[1..]) && s[1..] != "0" else Numeral(s)
  }

  /** What is written for `v` is its decimal form: the one decimal that reads as `v`. */
  lemma ShowIsDecimal(v: int, s: string)
    ensures Show(v) == s <==> Decimal(s) && Parse(s) == v
  {
    ParseShow(v);
    DigitsNumeral(Abs(v));
    if v < 0 {
      assert Show(v)[1..] == Digits(Abs(v));
      OnlyZero(Abs(v));
    } else {
      assert Digits(v)[0] in Digits(v);
    }
    assert Decimal(Show(v));
    if Decimal(s) && Parse(s) == v {
      var digits := if s[0] == '-' then s[1..] else s;
      NumeralDigits(digits);
      assert s[0] == '-' ==> s == ['-'] + digits;
    }
  }

  lemma {:induction false} DigitsNumeral(u: nat)
    ensures Numeral(Digits(u)) && (u > 0 ==> Digits(u)[0] != '0')
    decreases u
  {
    if u >= 10 {
      DigitsNumeral(u / 10);
    }
  }

  lemma OnlyZero(u: nat)
    ensures Digits(u) == "0" ==> u == 0
  {
  }

  lemma {:induction false} NumeralDigits(s: string)
    requires Numeral(s)
    ensures Number(s) >= 0 && Digits(Number(s)) == s && (Number(s) == 0 ==> s == "0")
    decreases |s|
  {
    var n := |s| - 1;
    assert s[n] in s && s == s[..n] + [s[n]];
    if n > 0 {
      assert forall c :: c in s[..n] ==> c in s;
      assert s[..n][0] == s[0];
      NumeralDigits(s[..n]);
      assert Number(s) / 10 == Number(s[..n]) && Number(s) % 10 == s[n] as int - '0' as int;
    } else {
      assert Number(s[..0]) == 0;
    }
  }

  /** The conversion to an unsigned integer. */
  function Unsigned(v: i64): u64 {
    if v < 0 then v + TWO_64 else v
  }

  /** Unsigned subtraction, which wraps around. */
  function Minus(x: u64, y: u64): u64 {
    if x >= y then x - y else x - y + TWO_64
  }

  /** The magnitude, computed in unsigned arithmetic; that of the smallest integer has no signed form. */
  function Magnitude(v: i64): (u: u64)
    ensures u == Abs(v)
  {
    if v < 0 then Minus(0, Unsigned(v)) else Unsigned(v)
  }

  /** `ubel_i64_len`. */
  method I64Len(v: i64) returns (n: nat)
    ensures n == |Show(v)|
  {
    var u: nat := Magnitude(v);
    n := if v < 0 then 2 else 1;
    while u >= 10
      invariant n + |Digits(u)| == |Show(v)| + 1
    {
      u := u / 10;
      n := n + 1;
    }
  }

  /** `after` is `before` with `s` written from position `dst` on. */
  ghost predicate Spliced(before: seq<char>, after: seq<char>, dst: nat, s: string) {
    && dst + |s| <= |before| == |after|
    && forall k :: 0 <= k < |before| ==> after[k] == if dst <= k < dst + |s| then s[k - dst] else before[k]
  }

  lemma SplicedPrefix(before: seq<char>, after: seq<char>, dst: nat, s: string)
    requires Spliced(before, after, dst, s)
    ensures after[..dst + |s|] == before[..dst] + s
  {
  }

  /** All characters of `shown` but the first `i` have been written from position `dst` on, and the sign if there is one. */
  ghost predicate Behind(before: seq<char>, after: seq<char>, dst: nat, shown: string, first: nat, i: nat) {
    && dst + |shown| <= |before| == |after| && first <= i <= |shown|
    && forall k :: 0 <= k < |before| ==>
         after[k] == if dst <= k < dst + first || dst + i <= k < dst + |shown| then shown[k - dst] else before[k]
  }

  lemma BehindNext(before: seq<char>, after: seq<char>, dst: nat, shown: string, first: nat, i: nat, c: char)
    requires Behind(before, after, dst, shown, first, i) && i > first && c == shown[i - 1]
    ensures dst + i - 1 < |after| && Behind(before, after[dst + i - 1 := c], dst, shown, first, i - 1)
  {
  }

  lemma BehindAll(before: seq<char>, after: seq<char>, dst: nat, shown: string, first: nat)
    requires Behind(before, after, dst, shown, first, first)
    ensures Spliced(before, after, dst, shown)
  {
  }

  /** The digits still to be written are those of `u`. */
  ghost predicate Left(shown: string, first: nat, i: nat, u: nat) {
    first <= i <= |shown| && (i > first ==> Digits(u) == shown[first..i])
  }

  lemma LeftNext(shown: string, first: nat, i: nat, u: nat)
    requires Left(shown, first, i, u) && i > first
    ensures shown[i - 1] == Digit(u % 10) && Left(shown, first, i - 1, u / 10)
  {
    DigitsLast(u);
    hide Digits;
    if i - 1 > first {
      assert shown[first..i][..i - 1 - first] == shown[first..i - 1];
    }
  }

  lemma LeftAll(v: i64)
    ensures Left(Show(v), if v < 0 then 1 else 0, |Show(v)|, Magnitude(v))
  {
    hide Digits;
    var shown, digits := Show(v), Digits(Abs(v));
    if v < 0 {
      assert shown[1..] == digits && shown[1..|shown|] == shown[1..];
    } else {
      assert shown[0..|shown|] == digits;
    }
  }

  lemma SignWritten(before: seq<char>, after: seq<char>, dst: nat, v: i64)
    requires dst + |Show(v)| <= |before| && after == if v < 0 then before[dst := '-'] else before
    ensures Behind(before, after, dst, Show(v), if v < 0 then 1 else 0, |Show(v)|)
  {
    hide Digits;
  }

  /** `ubel_i64_write`: the digits are written from the last one back. */
  method I64Write(a: array<char>, dst: nat, v: i64)
    requires dst + |Show(v)| <= a.Length
    modifies a
    ensures Spliced(old(a[..]), a[..], dst, Show(v))
  {
    ghost var before, shown := a[..], Show(v);
    LeftAll(v);
    hide Behind, Show, Digits;
    var u: nat := Magnitude(v);
    var first: nat := if v < 0 then 1 else 0;
    if v < 0 {
      a[dst] := '-';
    }
    SignWritten(before, a[..], dst, v);
    var n := I64Len(v);
    hide Left;
    var i: int := n - 1;
    while i >= first
      invariant first - 1 <= i < n == |shown| && Behind(before, a[..], dst, shown, first, i + 1) && Left(shown, first, i + 1, u)
    {
      LeftNext(shown, first, i + 1, u);
      BehindNext(before, a[..], dst, shown, first, i + 1, Digit(u % 10));
      ghost var was := a[..];
      a[dst + i] := Digit(u % 10);
      assert a[..] == was[dst + i := Digit(u % 10)];
      u := u / 10;
      i := i - 1;
    }
    BehindAll(before, a[..], dst, shown, first);
  }

  lemma DigitsLast(u: nat)
    ensures Digits(u)[|Digits(u)| - 1] == Digit(u % 10)
    ensures u >= 10 ==> Digits(u / 10) == Digits(u)[..|Digits(u)| - 1]
    ensures u < 10 <==> |Digits(u)| == 1
  {
  }

  // ---------------------------------------------------------------- interpolated strings

  datatype Piece = Text(s: string) | IntPiece(v: i64) | BoolPiece(b: bool) | StrPiece(s: string)

  function ShowBool(b: bool): string {
    if b then "true" else "false"
  }

  /** A boolean is written as its literal. */
  lemma ShowBoolIs(b: bool, s: string)
    ensures ShowBool(b) == s <==> (s == "true" && b) || (s == "false" && !b)
  {
  }

  function ShowPiece(p: Piece): string {
    match p
    case Text(s) => s
    case IntPiece(v) => Show(v)
    case BoolPiece(b) => ShowBool(b)
    case StrPiece(s) => s
  }

  /** What the string is meant to be. */
  function Concat(pieces: seq<Piece>): string {
    if pieces == [] then "" else Concat(pieces[..|pieces| - 1]) + ShowPiece(pieces[|pieces| - 1])
  }

  method PieceLen(p: Piece) returns (n: nat)
    ensures n == |ShowPiece(p)|
  {
    match p
    case Text(s) => n := |s|;
    case IntPiece(v) => n := I64Len(v);
    case BoolPiece(b) => n := if b then 4 else 5;
    case StrPiece(s) => n := |s|;
  }

  /** `ubel_put`. */
  method Put(a: array<char>, dst: nat, s: string)
    requires dst + |s| <= a.Length
    modifies a
    ensures Spliced(old(a[..]), a[..], dst, s)
  {
    for i := 0 to |s|
      invariant forall k :: 0 <= k < a.Length ==> a[k] == if dst <= k < dst + i then s[k - dst] else old(a[k])
    {
      a[dst + i] := s[i];
    }
  }

  lemma {:induction false} ConcatPrefix(pieces: seq<Piece>, i: nat)
    requires i <= |pieces|
    ensures |Concat(pieces[..i])| <= |Concat(pieces)|
    decreases |pieces|
  {
    if i < |pieces| {
      ConcatPrefix(pieces[..|pieces| - 1], i);
      assert pieces[..|pieces| - 1][..i] == pieces[..i];
    } else {
      assert pieces[..i] == pieces;
    }
  }

  lemma ConcatNext(pieces: seq<Piece>, i: nat)
    requires i < |pieces|
    ensures Concat(pieces[..i + 1]) == Concat(pieces[..i]) + ShowPiece(pieces[i])
  {
    assert pieces[..i + 1][..i] == pieces[..i];
  }

  lemma ConcatNone(pieces: seq<Piece>)
    ensures Concat(pieces[..0]) == []
  {
  }

  lemma PieceShown(p: Piece)
    ensures match p
            case Text(s) => ShowPiece(p) == s
            case IntPiece(v) => ShowPiece(p) == Show(v)
            case BoolPiece(b) => ShowPiece(p) == ShowBool(b)
            case StrPiece(s) => ShowPiece(p) == s
  {
  }

  lemma SplicedLength(before: seq<char>, after: seq<char>, dst: nat, s: string)
    requires Spliced(before, after, dst, s)
    ensures |after| == |before| && dst + |s| <= |before|
  {
  }

  /** `interp_string`: the lengths are added up first, and the pieces are then written one after the other. They fill the
      payload exactly. */
  method Interpolate(pieces: seq<Piece>) returns (length: nat, payload: array<char>)
    ensures fresh(payload) && length == payload.Length && payload[..] == Concat(pieces)
  {
    hide Concat, ShowPiece, Spliced, Show;
    ConcatNone(pieces);
    var lens: seq<nat> := [];
    length := 0;
    for i := 0 to |pieces|
      invariant |lens| == i && length == |Concat(pieces[..i])|
      invariant forall k :: 0 <= k < i ==> lens[k] == |ShowPiece(pieces[k])|
    {
      var n := PieceLen(pieces[i]);
      ConcatNext(pieces, i);
      lens := lens + [n];
      length := length + n;
    }
    assert pieces[..|pieces|] == pieces;
    payload := new char[length];
    var dst := 0;
    for i := 0 to |pieces|
      invariant dst == |Concat(pieces[..i])| <= length == payload.Length && payload[..dst] == Concat(pieces[..i])
    {
      ConcatNext(pieces, i);
      ConcatPrefix(pieces, i + 1);
      var p := pieces[i];
      ghost var before := payload[..];
      PieceShown(p);
      match p {
        case IntPiece(v) => I64Write(payload, dst, v);
        case BoolPiece(b) => Put(payload, dst, ShowBool(b));
        case Text(s) => Put(payload, dst, s);
        case StrPiece(s) => Put(payload, dst, s);
      }
      SplicedPrefix(before, payload[..], dst, ShowPiece(p));
      SplicedLength(before, payload[..], dst, ShowPiece(p));
      dst := dst + lens[i];
    }
  }
}
