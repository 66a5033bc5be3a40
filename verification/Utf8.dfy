/**
 UTF-8 well-formedness as Go's unicode/utf8 defines it, and the clamp that cuts a metadata
 string to its bound without splitting a rune.
 */
module Utf8 {
  import opened Wire

  predicate Continuation(b: byte)
  {
    0x80 <= b < 0xC0
  }

  /** utf8.RuneStart */
  predicate RuneStart(b: byte)
  {
    !Continuation(b)
  }

  /** The length of the well-formed rune at the front of `s`, or 0 when there is none. */
  function RuneLen(s: bytes): (n: nat)
    ensures n <= |s| && n <= 4
    ensures n > 0 ==> RuneStart(s[0]) && forall i | 1 <= i < n :: Continuation(s[i])
  {
    if s == [] then 0
    else if s[0] < 0x80 then 1
    else if 0xC2 <= s[0] <= 0xDF && |s| >= 2 && Continuation(s[1]) then 2
    else if |s| >= 3 && Continuation(s[1]) && Continuation(s[2])
         && ((s[0] == 0xE0 && s[1] >= 0xA0) || 0xE1 <= s[0] <= 0xEC || (s[0] == 0xED && s[1] <= 0x9F)
             || 0xEE <= s[0] <= 0xEF) then 3
    else if |s| >= 4 && Continuation(s[1]) && Continuation(s[2]) && Continuation(s[3])
         && ((s[0] == 0xF0 && s[1] >= 0x90) || 0xF1 <= s[0] <= 0xF3 || (s[0] == 0xF4 && s[1] <= 0x8F)) then 4
    else 0
  }

  /** utf8.ValidString */
  predicate Valid(s: bytes)
  {
    s == [] || (RuneLen(s) > 0 && Valid(s[RuneLen(s)..]))
  }

  /** strings.ToValidUTF8(s, ""): bytes that belong to no rune are dropped. */
  function ToValid(s: bytes): bytes
    decreases |s|
  {
    if s == [] then []
    else if RuneLen(s) > 0 then s[..RuneLen(s)] + ToValid(s[RuneLen(s)..])
    else ToValid(s[1..])
  }

  /** Walking a cut back to the start of the rune it would split. */
  function RuneBoundary(s: bytes, cut: nat): (r: nat)
    requires cut <= |s|
    ensures r <= cut && (r == 0 || r == |s| || RuneStart(s[r]))
    ensures forall i | r < i <= cut :: i < |s| && Continuation(s[i])
  {
    if 0 < cut < |s| && !RuneStart(s[cut]) then RuneBoundary(s, cut - 1) else cut
  }

  /** The clamped string and whether it differs. */
  function Clamped(s: bytes, max: nat): (bytes, bool)
  {
    if |s| <= max && Valid(s) then (s, false)
    else
      var head := s[..RuneBoundary(s, if max < |s| then max else |s|)];
      (if Valid(head) then head else ToValid(head), true)
  }

  /** clampToValidUTF8Bound */
  method Clamp(s: bytes, max: nat) returns (out: bytes, changed: bool)
    ensures (out, changed) == Clamped(s, max)
  {
    if |s| <= max && Valid(s) { return s, false; }
    var cut: nat := max;
    if cut > |s| { cut := |s|; }
    ghost var start := cut;
    while cut > 0 && cut < |s| && !RuneStart(s[cut])
      invariant cut <= |s| && RuneBoundary(s, start) == RuneBoundary(s, cut)
    {
      cut := cut - 1;
    }
    out := s[..cut];
    if !Valid(out) { out := ToValid(out); }
    return out, true;
  }

  // ------------------------------------------------- what the clamp achieves

  /** A well-formed rune is recognized whatever follows it. */
  lemma RuneLenPrefix(s: bytes, n: nat)
    requires n <= |s| && 0 < RuneLen(s)
    ensures RuneLen(s[..n]) == if RuneLen(s) <= n then RuneLen(s) else 0
  {
  }

  lemma RuneLenExtend(rune: bytes, rest: bytes)
    requires 0 < RuneLen(rune) == |rune|
    ensures RuneLen(rune + rest) == |rune|
  {
  }

  lemma {:induction false} ToValidIsValid(s: bytes)
    ensures Valid(ToValid(s)) && |ToValid(s)| <= |s|
    decreases |s|
  {
    hide RuneLen;
    if s != [] {
      var n := RuneLen(s);
      if n > 0 {
        ToValidIsValid(s[n..]);
        RuneLenPrefix(s, n);
        RuneLenExtend(s[..n], ToValid(s[n..]));
        assert ToValid(s)[n..] == ToValid(s[n..]);
      } else {
        ToValidIsValid(s[1..]);
      }
    }
  }

  /** The result is well-formed and within the bound, and clamping it again changes nothing. */
  lemma ClampedFits(s: bytes, max: nat)
    ensures var out := Clamped(s, max).0;
            Valid(out) && |out| <= max && Clamped(out, max) == (out, false)
    ensures !Clamped(s, max).1 <==> |s| <= max && Valid(s)
    ensures !Clamped(s, max).1 ==> Clamped(s, max).0 == s
  {
    hide RuneLen;
    if Clamped(s, max).1 {
      var head := s[..RuneBoundary(s, if max < |s| then max else |s|)];
      ToValidIsValid(head);
    }
  }

  /** In a well-formed string, a prefix is well-formed exactly when it ends where a rune starts. */
  lemma {:induction false} PrefixValid(s: bytes, c: nat)
    requires Valid(s) && c <= |s|
    ensures Valid(s[..c]) <==> c == |s| || RuneStart(s[c])
    decreases |s|
  {
    hide RuneLen;
    if s == [] || c == 0 {
      assert s[..c] == [];
    } else {
      var n := RuneLen(s);
      RuneLenPrefix(s, c);
      if c >= n {
        PrefixValid(s[n..], c - n);
        assert s[..c][n..] == s[n..][..c - n];
      }
    }
  }

  /** A well-formed string keeps its longest well-formed prefix within the bound. */
  lemma ClampKeepsLongestPrefix(s: bytes, max: nat)
    requires Valid(s) && |s| > max
    ensures var out := Clamped(s, max).0;
            && out <= s
            && forall n | |out| < n <= max :: !Valid(s[..n])
  {
    hide RuneLen;
    var r := RuneBoundary(s, max);
    assert Valid(s[..r]) by {
      if r == 0 { assert s[..r] == []; } else { PrefixValid(s, r); }
    }
    forall n | r < n <= max ensures !Valid(s[..n]) { PrefixValid(s, n); }
  }

  // ------------------------------------------------- what the runes are

  /** A Unicode scalar value: a code point that is no surrogate. */
  predicate Scalar(v: nat)
  {
    v < 0xD800 || 0xE000 <= v <= 0x10FFFF
  }

  /** Its encoding, by section 3 of RFC 3629. */
  function Encode(v: nat): (bs: bytes)
    requires Scalar(v)
    ensures 1 <= |bs| <= 4
  {
    if v < 0x80 then [v]
    else if v < 0x800 then [0xC0 + v / 0x40, 0x80 + v % 0x40]
    else if v < 0x1_0000 then [0xE0 + v / 0x1000, 0x80 + v / 0x40 % 0x40, 0x80 + v % 0x40]
    else [0xF0 + v / 0x4_0000, 0x80 + v / 0x1000 % 0x40, 0x80 + v / 0x40 % 0x40, 0x80 + v % 0x40]
  }

  /** Every encoded scalar value is recognized, as far as it goes. */
  lemma EncodedIsRune(v: nat, rest: bytes)
    requires Scalar(v)
    ensures RuneLen(Encode(v) + rest) == |Encode(v)|
  {
    var bs := Encode(v) + rest;
    assert forall i | 0 <= i < |Encode(v)| :: bs[i] == Encode(v)[i];
    if v < 0x80 {
    } else if v < 0x800 {
      assert v / 0x40 >= 2;
    } else if v < 0x1_0000 {
      assert bs[0] == 0xE0 + v / 0x1000;
    } else {
      assert v / 0x4_0000 <= 4;
    }
  }

  /** The value a recognized rune stands for. */
  function Decoded(s: bytes): nat
    requires RuneLen(s) > 0
  {
    var n := RuneLen(s);
    if n == 1 then s[0]
    else if n == 2 then Joined([s[0] - 0xC0, s[1] - 0x80])
    else if n == 3 then Joined([s[0] - 0xE0, s[1] - 0x80, s[2] - 0x80])
    else Joined([s[0] - 0xF0, s[1] - 0x80, s[2] - 0x80, s[3] - 0x80])
  }

  /** Groups of six bits, most significant first. */
  function Joined(groups: seq<nat>): nat
    requires 2 <= |groups| <= 4
  {
    if |groups| == 2 then groups[0] * 0x40 + groups[1]
    else if |groups| == 3 then groups[0] * 0x1000 + groups[1] * 0x40 + groups[2]
    else groups[0] * 0x4_0000 + groups[1] * 0x1000 + groups[2] * 0x40 + groups[3]
  }

  /** Nothing else is recognized: a rune is the encoding of a scalar value. */
  lemma RuneIsEncoded(s: bytes)
    requires RuneLen(s) > 0
    ensures Scalar(Decoded(s)) && s[..RuneLen(s)] == Encode(Decoded(s))
  {
    hide RuneLen, Encode, Decoded;
    var n := RuneLen(s);
    if n == 1 { OneByte(s); } else if n == 2 { TwoBytes(s); } else if n == 3 { ThreeBytes(s); } else { FourBytes(s); }
  }

  lemma OneByte(s: bytes)
    requires RuneLen(s) == 1
    ensures Scalar(Decoded(s)) && s[..1] == Encode(Decoded(s))
  {
  }

  lemma TwoBytes(s: bytes)
    requires RuneLen(s) == 2
    ensures Scalar(Decoded(s)) && s[..2] == Encode(Decoded(s))
  {
    var a: nat, b: nat := s[0] - 0xC0, s[1] - 0x80;
    Groups2(a, b);
    assert Decoded(s) == a * 0x40 + b && 0x80 <= Decoded(s) < 0x800;
  }

  lemma ThreeBytes(s: bytes)
    requires RuneLen(s) == 3
    ensures Scalar(Decoded(s)) && s[..3] == Encode(Decoded(s))
  {
    var a: nat, b: nat, c: nat := s[0] - 0xE0, s[1] - 0x80, s[2] - 0x80;
    Groups3(a, b, c);
    assert Decoded(s) == a * 0x1000 + b * 0x40 + c && 0x800 <= Decoded(s) < 0x1_0000;
  }

  lemma FourBytes(s: bytes)
    requires RuneLen(s) == 4
    ensures Scalar(Decoded(s)) && s[..4] == Encode(Decoded(s))
  {
    var a: nat, b: nat, c: nat, d: nat := s[0] - 0xF0, s[1] - 0x80, s[2] - 0x80, s[3] - 0x80;
    Groups4(a, b, c, d);
    assert Decoded(s) == a * 0x4_0000 + b * 0x1000 + c * 0x40 + d && 0x1_0000 <= Decoded(s) <= 0x10FFFF;
  }

  lemma Groups2(a: nat, b: nat)
    requires b < 0x40
    ensures (a * 0x40 + b) / 0x40 == a && (a * 0x40 + b) % 0x40 == b
  {
  }

  lemma Groups3(a: nat, b: nat, c: nat)
    requires b < 0x40 && c < 0x40
    ensures var v := a * 0x1000 + b * 0x40 + c; v / 0x1000 == a && v / 0x40 % 0x40 == b && v % 0x40 == c
  {
    var v := a * 0x1000 + b * 0x40 + c;
    assert v / 0x40 == a * 0x40 + b;
  }

  lemma Groups4(a: nat, b: nat, c: nat, d: nat)
    requires b < 0x40 && c < 0x40 && d < 0x40
    ensures var v := a * 0x4_0000 + b * 0x1000 + c * 0x40 + d;
            v / 0x4_0000 == a && v / 0x1000 % 0x40 == b && v / 0x40 % 0x40 == c && v % 0x40 == d
  {
    var v := a * 0x4_0000 + b * 0x1000 + c * 0x40 + d;
    assert v / 0x1000 == a * 0x40 + b;
    Groups3(a * 0x40 + b, c, d);
  }

  function EncodeAll(vs: seq<nat>): bytes
    requires forall v | v in vs :: Scalar(v)
  {
    if vs == [] then [] else Encode(vs[0]) + EncodeAll(vs[1..])
  }

  /** A string is well-formed exactly when it is the encoding of some sequence of scalar values. */
  lemma {:induction false} EncodedIsValid(vs: seq<nat>)
    requires forall v | v in vs :: Scalar(v)
    ensures Valid(EncodeAll(vs))
  {
    hide RuneLen, Encode;
    if vs != [] {
      EncodedIsRune(vs[0], EncodeAll(vs[1..]));
      EncodedIsValid(vs[1..]);
      assert EncodeAll(vs)[|Encode(vs[0])|..] == EncodeAll(vs[1..]);
    }
  }

  lemma {:induction false} ValidIsEncoded(s: bytes) returns (vs: seq<nat>)
    requires Valid(s)
    ensures (forall v | v in vs :: Scalar(v)) && EncodeAll(vs) == s
    decreases |s|
  {
    hide RuneLen, Encode, Decoded;
    if s == [] {
      vs := [];
    } else {
      var n := RuneLen(s);
      var rest := ValidIsEncoded(s[n..]);
      RuneIsEncoded(s);
      vs := [Decoded(s)] + rest;
      assert vs[1..] == rest;
      assert s == s[..n] + s[n..];
    }
  }

  /** What the repair drops are bytes of no rune; what it keeps it keeps in order: a well-formed string stays as it is. */
  lemma {:induction false} ToValidKeepsValid(s: bytes)
    requires Valid(s)
    ensures ToValid(s) == s
    decreases |s|
  {
    hide RuneLen;
    if s != [] {
      ToValidKeepsValid(s[RuneLen(s)..]);
      assert s == s[..RuneLen(s)] + s[RuneLen(s)..];
    }
  }

  /** A byte that starts no rune and continues none is dropped wherever it stands, and nothing else with it. */
  lemma {:induction false} StrayDropped(a: bytes, b: byte, rest: bytes)
    requires Valid(a) && (b == 0xC0 || b == 0xC1 || b >= 0xF5)
    ensures ToValid(a + [b] + rest) == a + ToValid(rest)
    decreases |a|
  {
    hide RuneLen, ToValid;
    if a == [] {
      StrayFirst(b, rest);
      assert a + [b] + rest == [b] + rest && a + ToValid(rest) == ToValid(rest);
    } else {
      var n := FirstRune(a);
      var tail := a[n..] + [b] + rest;
      StrayDropped(a[n..], b, rest);
      RuneKept(a[..n], tail);
      assert a + [b] + rest == a[..n] + tail && a == a[..n] + a[n..];
      assert a[..n] + (a[n..] + ToValid(rest)) == a + ToValid(rest);
    }
  }

  lemma StrayFirst(b: byte, rest: bytes)
    requires b == 0xC0 || b == 0xC1 || b >= 0xF5
    ensures ToValid([b] + rest) == ToValid(rest)
  {
    assert ([b] + rest)[1..] == rest;
  }

  lemma FirstRune(a: bytes) returns (n: nat)
    requires Valid(a) && a != []
    ensures 0 < n <= |a| && Valid(a[n..]) && RuneLen(a[..n]) == n
  {
    hide RuneLen;
    n := RuneLen(a);
    RuneLenPrefix(a, n);
  }

  lemma RuneKept(rune: bytes, rest: bytes)
    requires 0 < RuneLen(rune) == |rune|
    ensures ToValid(rune + rest) == rune + ToValid(rest)
  {
    hide RuneLen;
    RuneLenExtend(rune, rest);
    assert (rune + rest)[..|rune|] == rune && (rune + rest)[|rune|..] == rest;
  }

  /** A string that is short enough only loses the bytes of no rune; a longer one is cut at the last rune start in bounds first. */
  lemma ClampedIsRepaired(s: bytes, max: nat)
    ensures |s| <= max ==> Clamped(s, max).0 == ToValid(s)
    ensures |s| > max ==> exists cut | 0 <= cut <= max ::
              && Clamped(s, max).0 == ToValid(s[..cut]) && (cut == 0 || RuneStart(s[cut]))
              && forall i | cut < i <= max :: Continuation(s[i])
  {
    hide RuneLen, ToValid, Valid;
    var cut := RuneBoundary(s, if max < |s| then max else |s|);
    if Valid(s[..cut]) { ToValidKeepsValid(s[..cut]); }
    if |s| <= max {
      assert s[..|s|] == s;
    }
  }
}
