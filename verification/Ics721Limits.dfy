/**
 Where the ICS-721 laws end: a small codec that meets every law asked of one, and with it a
 class and a token whose raw blob does not survive the second hop.
 */
module Ics721Limits {
  import opened Options
  import opened Wire
  import opened Messages
  import opened NftStore
  import opened Ics721

  // ------------------------------------------------- a printer with a parser

  /** A string as its bytes, each announced by a 1, and a final 0. */
  function Spelled(s: bytes): bytes
  {
    if s == [] then [0] else [1, s[0]] + Spelled(s[1..])
  }

  lemma {:induction false} SpelledReads(s: bytes, t: bytes, x: bytes, y: bytes)
    requires Spelled(s) + x == Spelled(t) + y
    ensures s == t && x == y
  {
    var a, b := Spelled(s) + x, Spelled(t) + y;
    assert a[0] == if s == [] then 0 else 1;
    assert b[0] == if t == [] then 0 else 1;
    if s == [] {
      assert a[1..] == x && b[1..] == y;
    } else {
      assert a[1] == s[0] && b[1] == t[0];
      assert a[2..] == Spelled(s[1..]) + x && b[2..] == Spelled(t[1..]) + y;
      SpelledReads(s[1..], t[1..], x, y);
    }
  }

  /** A media field: one string or boolean under "value". */
  predicate Media(v: Json)
  {
    v.Obj? && v.fields.Keys == {ValueKey} && (v.fields[ValueKey].Bool? || v.fields[ValueKey].Str?)
  }

  /** An object with nothing but reserved media fields. */
  predicate Plainly(m: JsonObject)
  {
    m.Keys <= CLASS_KEYS && forall k | k in m :: Media(m[k])
  }

  /** What is there: nothing, a boolean, or a string. */
  function Code(m: JsonObject, k: MemberName): byte
    requires Plainly(m)
  {
    if k !in m then 0
    else
      var v := m[k].fields[ValueKey];
      if v.Bool? then (if v.b then 1 else 2) else 3
  }

  function Text(m: JsonObject, k: MemberName): bytes
    requires Plainly(m)
  {
    if k in m && m[k].fields[ValueKey].Str? then Spelled(m[k].fields[ValueKey].s) else []
  }

  function Entry(m: JsonObject, k: MemberName): bytes
    requires Plainly(m)
  {
    [Code(m, k)] + Text(m, k)
  }

  /** The entries from the n-th reserved key on. */
  function Printed(m: JsonObject, n: nat): bytes
    requires Plainly(m) && n <= 8
    decreases 8 - n
  {
    if n == 8 then [] else Entry(m, KeyAt(n)) + Printed(m, n + 1)
  }

  lemma EntryReads(m: JsonObject, m': JsonObject, k: MemberName, x: bytes, y: bytes)
    requires Plainly(m) && Plainly(m') && Entry(m, k) + x == Entry(m', k) + y
    ensures x == y && (k in m <==> k in m') && (k in m ==> m[k] == m'[k])
  {
    hide Code, Text, Plainly;
    var a, b := Entry(m, k) + x, Entry(m', k) + y;
    assert a[0] == Code(m, k) && b[0] == Code(m', k);
    assert a[1..] == Text(m, k) + x && b[1..] == Text(m', k) + y;
    TextReads(m, m', k, x, y);
  }

  lemma TextReads(m: JsonObject, m': JsonObject, k: MemberName, x: bytes, y: bytes)
    requires Plainly(m) && Plainly(m') && Code(m, k) == Code(m', k) && Text(m, k) + x == Text(m', k) + y
    ensures x == y && (k in m <==> k in m') && (k in m ==> m[k] == m'[k])
  {
    hide Spelled;
    assert [] + x == x && [] + y == y;
    if k in m {
      var v, v' := m[k].fields[ValueKey], m'[k].fields[ValueKey];
      if v.Str? { SpelledReads(v.s, v'.s, x, y); }
      assert m[k].fields == m'[k].fields;
    }
  }

  lemma {:induction false} PrintedReads(m: JsonObject, m': JsonObject, n: nat)
    requires Plainly(m) && Plainly(m') && n <= 8 && Printed(m, n) == Printed(m', n)
    ensures forall i | n <= i < 8 :: (KeyAt(i) in m <==> KeyAt(i) in m') && (KeyAt(i) in m ==> m[KeyAt(i)] == m'[KeyAt(i)])
    decreases 8 - n
  {
    hide Plainly, Entry, KeyAt;
    if n < 8 {
      EntryReads(m, m', KeyAt(n), Printed(m, n + 1), Printed(m', n + 1));
      PrintedReads(m, m', n + 1);
    }
  }

  /** Different objects print differently. */
  lemma PrintedInjective(m: JsonObject, m': JsonObject)
    requires Plainly(m) && Plainly(m') && Printed(m, 0) == Printed(m', 0)
    ensures m == m'
  {
    hide Printed, KeyAt;
    PrintedReads(m, m', 0);
    forall k | k in CLASS_KEYS ensures (k in m <==> k in m') && (k in m ==> m[k] == m'[k]) { RankOf(k); }
    assert m.Keys == m'.Keys;
  }

  lemma RankOf(k: MemberName)
    requires k in CLASS_KEYS
    ensures exists i :: 0 <= i < 8 && KeyAt(i) == k
  {
    assert KeyAt(0) == NameKey && KeyAt(1) == SymbolKey && KeyAt(2) == DescriptionKey && KeyAt(3) == UriHashKey;
    assert KeyAt(4) == MintRestrictedKey && KeyAt(5) == UpdateRestrictedKey && KeyAt(6) == CreatorKey && KeyAt(7) == SchemaKey;
  }

  ghost function Render(m: JsonObject): bytes
  {
    if Plainly(m) then Printed(m, 0) else []
  }

  ghost function Parse(x: bytes): Parsed
  {
    if exists m: JsonObject :: Plainly(m) && Printed(m, 0) == x
    then var m: JsonObject :| Plainly(m) && Printed(m, 0) == x; Object(m)
    else NotObject(map[])
  }

  const MODULE: bytes := [0x61]

  /** Text is its own base64, hex and address form; the empty text is no address. */
  ghost function SmallCodec(): Codecs
  {
    Codecs(Parse, Render, x => x, Plainly, x => x, x => Some(x), a => a, x => Some(x),
           x => if x == [] then None else Some(x), a => a, MODULE)
  }

  lemma ParseInverts(m: JsonObject)
    requires Plainly(m)
    ensures Parse(Render(m)) == Object(m)
  {
    hide Plainly, Printed;
    var x := Printed(m, 0);
    assert Plainly(m) && Printed(m, 0) == x;
    forall m': JsonObject | Plainly(m') && Printed(m', 0) == x ensures m' == m { PrintedInjective(m', m); }
  }

  /** Nothing shorter than two bytes is an object. */
  lemma ShortIsRaw(x: bytes)
    requires |x| < 2
    ensures Parse(x) == NotObject(map[])
  {
    hide Plainly, Entry;
    forall m: JsonObject | Plainly(m) ensures |Printed(m, 0)| >= 2 {
      EntryThere(m, KeyAt(0));
      EntryThere(m, KeyAt(1));
    }
  }

  lemma EntryThere(m: JsonObject, k: MemberName)
    requires Plainly(m)
    ensures |Entry(m, k)| >= 1
  {
  }

  /** The laws are consistent: this codec meets them all, and it has raw blobs. */
  lemma SmallCodecLawful()
    ensures SmallCodec().Lawful()
  {
    hide Parse, Render, Printed, Entry, Put, Without;
    var c := SmallCodec();
    forall m, k, v | Plainly(m) && k in CLASS_KEYS && c.Plain(v) ensures Plainly(Put(m, k, v)) { PutPlainly(c, m, k, v); }
    forall m, ks | Plainly(m) ensures Plainly(Without(m, ks)) { WithoutPlainly(m, ks); }
    forall m | Plainly(m) ensures c.parse(c.render(m)) == Object(m) { ParseInverts(m); }
    forall x ensures match c.parse(x) case Object(m) => c.canonical(m) case NotObject(m) => c.canonical(m) case NullDocument => true {
      ParsedPlainly(x);
    }
    ShortIsRaw([]);
  }

  lemma PutPlainly(c: Codecs, m: JsonObject, k: MemberName, v: Json)
    requires Plainly(m) && k in CLASS_KEYS && c.Plain(v)
    ensures Plainly(Put(m, k, v))
  {
  }

  lemma WithoutPlainly(m: JsonObject, ks: set<MemberName>)
    requires Plainly(m)
    ensures Plainly(Without(m, ks))
  {
  }

  lemma ParsedPlainly(x: bytes)
    ensures match Parse(x) case Object(m) => Plainly(m) case NotObject(m) => Plainly(m) case NullDocument => false
  {
  }

  // ------------------------------------------------- raw blobs under ids that are no vouchers'

  const VOUCHER: Id := IBC_PREFIX + [0x31]
  const PLAIN: Id := [0x61, 0x62, 0x63]
  const RAW: bytes := [0x21]

  /**
   A voucher class and a token of it with a raw blob, delivered under a plain id: the next hop
   no longer carries the blob. This is so for every lawful codec and every raw blob in bounds.
   */
  lemma RawBlobDropped(c: Codecs, raw: bytes, next: Id)
    requires c.Lawful() && IsRaw(c, raw) && |raw| <= MAX_DENOM_DATA_LEN
    ensures var cls := Class(VOUCHER, [], [], [], [], [], ClassMeta(DenomMetadata(c.moduleAddr, [], true, true, raw)));
            var t := Token(VOUCHER, [0x31], [], [], TokenMeta(NFTMetadata([], raw)));
            && ClassHop(c, cls, PLAIN) == Done(cls.(id := PLAIN)) && TokenHop(c, t, PLAIN) == Done(t.(classId := PLAIN))
            && ClassHop(c, cls.(id := PLAIN), next) != Done(cls.(id := next))
            && TokenHop(c, t.(classId := PLAIN), next) != Done(t.(classId := next))
  {
    hide ClassHop, TokenHop, Codecs.Lawful, IsRaw;
    var cls := Class(VOUCHER, [], [], [], [], [], ClassMeta(DenomMetadata(c.moduleAddr, [], true, true, raw)));
    ClassHopRaw(c, cls, cls.data.meta, PLAIN);
    ClassHopIdentity(c, cls, PLAIN, next);
    var t := Token(VOUCHER, [0x31], [], [], TokenMeta(NFTMetadata([], raw)));
    TokenHopRaw(c, t, t.data.meta, PLAIN);
    TokenHopIdentity(c, t, PLAIN, next);
  }

  /** There are such codecs and blobs. */
  lemma SmallCodecHasRaw()
    ensures SmallCodec().Lawful() && IsRaw(SmallCodec(), RAW) && |RAW| <= MAX_DENOM_DATA_LEN
  {
    hide Parse, Render, Codecs.Lawful;
    SmallCodecLawful();
    ShortIsRaw(RAW);
  }
}
