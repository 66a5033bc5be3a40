/**
 The gate in front of the ERC20 IBC callback: with permissionless registration off, an
 inbound packet must not create a token pair; with it on, the voucher's metadata is
 repaired before the pair that freezes it is created.
 */
module IbcGate {
  import opened Options
  import opened Voucher

  /** An inbound packet: the denom it credits, or nothing when its payload does not decode. */
  datatype Packet = Packet(denom: Option<string>, id: nat)

  datatype Ack = Ack(success: bool, payload: string)

  /**
   The upstream callback: whether it creates a pair for the packet's denom, and the
   acknowledgement it returns. Only its documented behaviour is assumed, by `Lawful`.
   */
  datatype Callback = Callback(registers: (set<string>, Packet, Ack) -> bool, answer: (set<string>, Packet, Ack) -> Ack)
  {
    /** A pair is created only for a voucher denom without one. */
    ghost predicate Lawful()
    {
      forall pairs, p, ack: Ack | registers(pairs, p, ack) :: WouldRegister(pairs, p)
    }

    /**
     On a packet that would register but does not, the callback returns the acknowledgement
     as it is. Its early returns do; a registration attempt that fails need not.
     */
    ghost predicate KeepsIdleAcks()
    {
      forall pairs, p, ack: Ack | ack.success && WouldRegister(pairs, p) && !registers(pairs, p, ack) ::
        answer(pairs, p, ack) == ack
    }
  }

  /** wouldAutoRegisterTokenPair */
  predicate WouldRegister(pairs: set<string>, p: Packet)
  {
    p.denom.Some? && p.denom.value !in pairs && IsVoucher(p.denom.value)
  }

  /** A created pair, with the metadata its denom had at that moment. */
  datatype Creation = Creation(denom: string, md: Option<Metadata>)

  datatype State = State(permissionless: bool, pairs: set<string>, book: Book, made: seq<Creation>)

  function Lookup(book: Book, denom: string): Option<Metadata>
  {
    if denom in book then Some(book[denom]) else None
  }

  /** The bare callback. */
  function Delegate(cb: Callback, s: State, p: Packet, ack: Ack): (State, Ack)
  {
    var s' := if p.denom.Some? && cb.registers(s.pairs, p, ack)
              then s.(pairs := s.pairs + {p.denom.value}, made := s.made + [Creation(p.denom.value, Lookup(s.book, p.denom.value))])
              else s;
    (s', cb.answer(s.pairs, p, ack))
  }

  /** OnRecvPacket through the gate. */
  function Received(r: Rules, cb: Callback, s: State, p: Packet, ack: Ack): (State, Ack)
  {
    if ack.success && s.permissionless then
      Delegate(cb, if WouldRegister(s.pairs, p) then s.(book := Repaired(r, s.book, p.denom.value)) else s, p, ack)
    else if !ack.success || !WouldRegister(s.pairs, p) then Delegate(cb, s, p, ack)
    else (s, ack)
  }

  class ERC20IBCGate {
    const callback: Callback
    const bank: Bank
    var permissionless: bool
    var pairs: set<string>
    ghost var made: seq<Creation>

    constructor (callback: Callback, bank: Bank, permissionless: bool, pairs: set<string>)
      ensures this.callback == callback && this.bank == bank
      ensures this.permissionless == permissionless && this.pairs == pairs && made == []
    {
      this.callback, this.bank, this.permissionless, this.pairs, made := callback, bank, permissionless, pairs, [];
    }

    ghost function Now(): State
      reads this, bank
    {
      State(permissionless, pairs, bank.book, made)
    }

    /** The keeper's own callback. */
    method Upstream(p: Packet, ack: Ack) returns (answer: Ack)
      modifies this`pairs, this`made
      ensures (Now(), answer) == Delegate(callback, old(Now()), p, ack)
    {
      answer := callback.answer(pairs, p, ack);
      if p.denom.Some? && callback.registers(pairs, p, ack) {
        made := made + [Creation(p.denom.value, Lookup(bank.book, p.denom.value))];
        pairs := pairs + {p.denom.value};
      }
    }

    /** The repair, for exactly the packets the callback is about to register. */
    method NormalizeVoucher(p: Packet)
      modifies bank
      ensures bank.book == if WouldRegister(pairs, p) then Repaired(bank.rules, old(bank.book), p.denom.value) else old(bank.book)
    {
      if !WouldRegister(pairs, p) { return; }
      var _ := bank.NormalizeVoucherDecimals(p.denom.value);
    }

    method OnRecvPacket(p: Packet, ack: Ack) returns (answer: Ack)
      modifies this`pairs, this`made, bank
      ensures (Now(), answer) == Received(bank.rules, callback, old(Now()), p, ack)
    {
      if ack.success && permissionless {
        NormalizeVoucher(p);
        answer := Upstream(p, ack);
        return;
      }
      if !ack.success || !WouldRegister(pairs, p) {
        answer := Upstream(p, ack);
        return;
      }
      return ack;
    }
  }

  // ------------------------------------------------- one packet

  /**
   With the switch off a packet creates a pair exactly when its transfer failed and the
   callback registers failed transfers; a successful packet never does.
   */
  lemma OffCreatesOnlyOnFailure(r: Rules, cb: Callback, s: State, p: Packet, ack: Ack)
    requires cb.Lawful() && !s.permissionless
    ensures Received(r, cb, s, p, ack).0 != s <==> !ack.success && cb.registers(s.pairs, p, ack)
    ensures Received(r, cb, s, p, ack).0.book == s.book
  {
    if cb.registers(s.pairs, p, ack) {
      var s' := Received(r, cb, s, p, ack).0;
      if !ack.success { assert |s'.made| == |s.made| + 1; }
    }
  }

  /**
   With the switch off a successful packet for an unpaired voucher is suppressed and gets its
   own acknowledgement back; every other one is delegated. So the gate and the bare callback
   differ exactly on the suppressed packets for which the callback would have created a pair,
   or would have changed the acknowledgement because its registration attempt failed.
   */
  lemma GateSuppressesOnlyRegistration(r: Rules, cb: Callback, s: State, p: Packet, ack: Ack)
    requires cb.Lawful() && !s.permissionless && ack.success
    ensures Received(r, cb, s, p, ack) == if WouldRegister(s.pairs, p) then (s, ack) else Delegate(cb, s, p, ack)
    ensures Received(r, cb, s, p, ack) != Delegate(cb, s, p, ack)
            <==> WouldRegister(s.pairs, p) && (cb.registers(s.pairs, p, ack) || cb.answer(s.pairs, p, ack) != ack)
    ensures cb.KeepsIdleAcks() ==>
              (Received(r, cb, s, p, ack) != Delegate(cb, s, p, ack) <==> cb.registers(s.pairs, p, ack))
  {
    if cb.registers(s.pairs, p, ack) {
      assert |Delegate(cb, s, p, ack).0.made| == |s.made| + 1;
    }
  }

  /**
   With the switch on the callback is asked about every packet and its answer returned: the
   pair it registers is created, over metadata repaired just before if it was its first.
   */
  lemma OnDelegates(r: Rules, cb: Callback, s: State, p: Packet, ack: Ack)
    requires cb.Lawful() && (s.permissionless || !ack.success)
    ensures var (s', answer) := Received(r, cb, s, p, ack);
            && answer == cb.answer(s.pairs, p, ack) && s'.permissionless == s.permissionless
            && s'.pairs == (if cb.registers(s.pairs, p, ack) then s.pairs + {p.denom.value} else s.pairs)
            && s'.book == (if ack.success && WouldRegister(s.pairs, p) then Repaired(r, s.book, p.denom.value) else s.book)
            && s'.made == (if cb.registers(s.pairs, p, ack) then s.made + [Creation(p.denom.value, Lookup(s'.book, p.denom.value))] else s.made)
  {
  }

  /** A packet would register exactly when it credits a denom under "ibc/" that has no pair. */
  lemma WouldRegisterExactly(pairs: set<string>, p: Packet)
    ensures WouldRegister(pairs, p)
            <==> p.denom.Some? && p.denom.value !in pairs && |p.denom.value| >= 4 && p.denom.value[..4] == "ibc/"
  {
  }

  /** A callback that registers whatever it may creates a pair with the switch off, on a packet whose transfer failed. */
  lemma FailedTransferCreatesPair(r: Rules)
    ensures var cb := Callback((pairs, p, ack) => WouldRegister(pairs, p), (pairs, p, ack) => ack);
            var s := State(false, {}, map[], []);
            cb.Lawful() && Received(r, cb, s, Packet(Some("ibc/A"), 0), Ack(false, "")).0.pairs == {"ibc/A"}
  {
    assert IsVoucher("ibc/A");
  }

  // ------------------------------------------------- whole runs

  datatype Event =
    | Inbound(p: Packet, ack: Ack)
    | Switch(on: bool)              // governance
    | WriteMetadata(md: Metadata)   // ibc-go recording a voucher

  function Next(r: Rules, cb: Callback, s: State, e: Event): State
  {
    match e
    case Inbound(p, ack) => Received(r, cb, s, p, ack).0
    case Switch(on) => s.(permissionless := on)
    case WriteMetadata(md) => s.(book := s.book[md.base := md])
  }

  function Run(r: Rules, cb: Callback, s: State, es: seq<Event>): State
  {
    if es == [] then s else Next(r, cb, Run(r, cb, s, es[..|es| - 1]), es[|es| - 1])
  }

  /** Once metadata is written and the switch is on, a successful packet the callback registers gets its pair, over the repaired record. */
  lemma SwitchedOnRegisters(r: Rules, cb: Callback, s: State, md: Metadata, p: Packet, ack: Ack)
    requires cb.Lawful() && ack.success && cb.registers(s.pairs, p, ack)
    ensures var end := Run(r, cb, s, [WriteMetadata(md), Switch(true), Inbound(p, ack)]);
            && end.permissionless && p.denom.Some? && end.pairs == s.pairs + {p.denom.value}
            && end.book == Repaired(r, s.book[md.base := md], p.denom.value)
            && end.made == s.made + [Creation(p.denom.value, Lookup(end.book, p.denom.value))]
  {
    var es := [WriteMetadata(md), Switch(true), Inbound(p, ack)];
    assert es[..2] == [WriteMetadata(md), Switch(true)] && es[..2][..1] == [WriteMetadata(md)] && es[..2][..1][..0] == [];
    assert Run(r, cb, s, es[..2][..1]) == s.(book := s.book[md.base := md]);
    assert Run(r, cb, s, es[..2]) == s.(book := s.book[md.base := md], permissionless := true);
  }

  /** The event is no failed transfer for which the callback registers a pair all the same. */
  predicate Quiet(cb: Callback, pairs: set<string>, e: Event)
  {
    e.Inbound? && !e.ack.success ==> !cb.registers(pairs, e.p, e.ack)
  }

  /**
   With the switch off throughout, a run of packets and metadata writes creates no pair
   exactly when the callback registers for none of its failed transfers.
   */
  lemma {:induction false} OffRunCreatesNothing(r: Rules, cb: Callback, s: State, es: seq<Event>)
    requires cb.Lawful() && !s.permissionless
    requires forall e | e in es :: !e.Switch?
    ensures var end := Run(r, cb, s, es);
            && !end.permissionless && |end.made| >= |s.made|
            && (|end.made| == |s.made| <==> forall e | e in es :: Quiet(cb, s.pairs, e))
            && ((forall e | e in es :: Quiet(cb, s.pairs, e)) ==> end.pairs == s.pairs && end.made == s.made)
  {
    if es != [] {
      var init, last := es[..|es| - 1], es[|es| - 1];
      assert es == init + [last];
      OffRunCreatesNothing(r, cb, s, init);
      assert last in es;
      var before := Run(r, cb, s, init);
      if last.Inbound? {
        OffCreatesOnlyOnFailure(r, cb, before, last.p, last.ack);
      }
    }
  }

  /** The metadata of a new pair is absent, already normalized, or beyond repair. */
  ghost predicate Ready(r: Rules, c: Creation)
  {
    IsVoucher(c.denom) && (c.md.Some? ==> Settled(r, c.md.value))
  }

  /** The event is no failed transfer that registers a pair over metadata somebody could still repair. */
  ghost predicate Sound(r: Rules, cb: Callback, s: State, e: Event)
  {
    e.Inbound? && !e.ack.success && e.p.denom.Some? && cb.registers(s.pairs, e.p, e.ack) ==>
      (e.p.denom.value in s.book ==> Settled(r, s.book[e.p.denom.value]))
  }

  ghost predicate AllReady(r: Rules, made: seq<Creation>)
  {
    forall c | c in made :: Ready(r, c)
  }

  lemma AllReadySnoc(r: Rules, made: seq<Creation>, c: Creation)
    ensures AllReady(r, made + [c]) <==> AllReady(r, made) && Ready(r, c)
  {
    hide Ready;
    assert c in made + [c];
    assert forall x | x in made :: x in made + [c];
  }

  /**
   A packet creates at most one pair. What it creates is created on ready metadata exactly
   when the packet is sound: a successful one always is, because the repair comes first; a
   failed one is forwarded without the repair.
   */
  lemma CreationReady(r: Rules, cb: Callback, s: State, p: Packet, ack: Ack)
    requires cb.Lawful() && KeyedByBase(s.book)
    ensures var s' := Received(r, cb, s, p, ack).0;
            && KeyedByBase(s'.book)
            && (s'.made == s.made || (|s'.made| == |s.made| + 1 && s'.made[..|s.made|] == s.made))
            && (AllReady(r, s'.made[|s.made|..]) <==> Sound(r, cb, s, Inbound(p, ack)))
  {
    hide Settled;
    var s' := Received(r, cb, s, p, ack).0;
    if WouldRegister(s.pairs, p) {
      RepairedIsSettled(r, s.book, p.denom.value);
    }
    if s'.made == s.made {
      assert s'.made[|s.made|..] == [];
    } else {
      var d := p.denom.value;
      assert s'.made == s.made + [Creation(d, Lookup(s'.book, d))];
      assert s'.made[|s.made|..] == [Creation(d, Lookup(s'.book, d))];
      assert Creation(d, Lookup(s'.book, d)) in s'.made[|s.made|..];
    }
  }

  /** Every event of a run is sound in the state it meets. */
  ghost predicate SoundRun(r: Rules, cb: Callback, s: State, es: seq<Event>)
  {
    forall i | 0 <= i < |es| :: Sound(r, cb, Run(r, cb, s, es[..i]), es[i])
  }

  lemma SoundRunSnoc(r: Rules, cb: Callback, s: State, es: seq<Event>)
    requires es != []
    ensures var init := es[..|es| - 1];
            SoundRun(r, cb, s, es) <==> SoundRun(r, cb, s, init) && Sound(r, cb, Run(r, cb, s, init), es[|es| - 1])
  {
    hide Sound, Run;
    var init := es[..|es| - 1];
    assert forall i | 0 <= i < |init| :: es[..i] == init[..i] && es[i] == init[i];
    if SoundRun(r, cb, s, es) {
      forall i | 0 <= i < |init| ensures Sound(r, cb, Run(r, cb, s, init[..i]), init[i]) { assert Sound(r, cb, Run(r, cb, s, es[..i]), es[i]); }
      assert Sound(r, cb, Run(r, cb, s, es[..|es| - 1]), es[|es| - 1]);
    } else if SoundRun(r, cb, s, init) && Sound(r, cb, Run(r, cb, s, init), es[|es| - 1]) {
      forall i | 0 <= i < |es| ensures Sound(r, cb, Run(r, cb, s, es[..i]), es[i]) {
        if i < |init| { assert Sound(r, cb, Run(r, cb, s, init[..i]), init[i]); }
      }
    }
  }

  /** Over every run, with the switch flipped at will, all pairs are created on ready metadata exactly when every event is sound. */
  lemma {:induction false} EveryPairReady(r: Rules, cb: Callback, s: State, es: seq<Event>)
    requires cb.Lawful() && KeyedByBase(s.book)
    ensures KeyedByBase(Run(r, cb, s, es).book)
    ensures AllReady(r, Run(r, cb, s, es).made) <==> AllReady(r, s.made) && SoundRun(r, cb, s, es)
  {
    hide Ready, Received, Sound, SoundRun, AllReady, KeyedByBase;
    if es == [] {
      NothingUnsound(r, cb, s);
    } else {
      var init, last := es[..|es| - 1], es[|es| - 1];
      var before, after := Run(r, cb, s, init), Run(r, cb, s, es);
      EveryPairReady(r, cb, s, init);
      SoundRunSnoc(r, cb, s, es);
      EventReady(r, cb, before, last);
    }
  }

  lemma NothingUnsound(r: Rules, cb: Callback, s: State)
    ensures SoundRun(r, cb, s, [])
  {
  }

  lemma EventReady(r: Rules, cb: Callback, s: State, e: Event)
    requires cb.Lawful() && KeyedByBase(s.book)
    ensures KeyedByBase(Next(r, cb, s, e).book)
    ensures AllReady(r, Next(r, cb, s, e).made) <==> AllReady(r, s.made) && Sound(r, cb, s, e)
  {
    hide Ready, Received, AllReady;
    if e.Inbound? {
      hide Sound;
      CreationReady(r, cb, s, e.p, e.ack);
      var s' := Next(r, cb, s, e);
      if s'.made == s.made {
        assert s'.made[|s.made|..] == [];
        AllReadyNone(r);
      } else {
        var c := s'.made[|s.made|];
        assert s'.made == s.made + [c] && s'.made[|s.made|..] == [] + [c];
        AllReadySnoc(r, s.made, c);
        AllReadySnoc(r, [], c);
        AllReadyNone(r);
      }
    }
  }

  lemma AllReadyNone(r: Rules)
    ensures AllReady(r, [])
  {
  }

  /** Rules that accept every denom and derive 18 decimals for each. */
  function LooseRules(): Rules
  {
    Rules(_ => true, x => x == "", _ => true, _ => Some(18))
  }

  /** A voucher record as ibc-go writes it. */
  const RAW_RECORD := Metadata("", [Some(DenomUnit("auoc", 0, []))], "ibc/A", "t/auoc", "n", "s", "", "")

  lemma RawRecordShape()
    ensures var u := ShapeC(RAW_RECORD, "auoc", 18); !HasNilUnit(u.units) && BankValid(LooseRules(), u)
  {
    var u := ShapeC(RAW_RECORD, "auoc", 18);
    assert "ibc/A"[0] != "auoc"[0];
    assert u.units[1] in u.units && u.units[1].value.denom == u.display;
  }

  lemma RawRecordSource()
    ensures LastSegment(RAW_RECORD.display) == "auoc"
  {
    LastSegmentOfPath("t", "auoc");
    assert "t" + "/" + "auoc" == "t/auoc";
  }

  lemma RawRecordRepairable()
    ensures !Settled(LooseRules(), RAW_RECORD)
  {
    hide BankValid, LastSegment;
    RawRecordSource();
    RawRecordShape();
    assert NonZeroUnitExponent(RAW_RECORD.units, "auoc").None?;
  }

  /** A failed transfer whose pair is created over a record the repair would have rewritten. */
  lemma FailedTransferSkipsRepair()
    ensures var cb := Callback((pairs, p, ack) => WouldRegister(pairs, p), (pairs, p, ack) => ack);
            var s := State(true, {}, map["ibc/A" := RAW_RECORD], []);
            && cb.Lawful() && KeyedByBase(s.book)
            && !AllReady(LooseRules(), Received(LooseRules(), cb, s, Packet(Some("ibc/A"), 0), Ack(false, "")).0.made)
  {
    hide Settled;
    RawRecordRepairable();
    assert IsVoucher("ibc/A");
    var cb := Callback((pairs, p, ack) => WouldRegister(pairs, p), (pairs, p, ack) => ack);
    var s := State(true, {}, map["ibc/A" := RAW_RECORD], []);
    var c := Creation("ibc/A", Some(RAW_RECORD));
    var made := Received(LooseRules(), cb, s, Packet(Some("ibc/A"), 0), Ack(false, "")).0.made;
    assert made == [c];
    assert c in made && !Ready(LooseRules(), c);
  }
}
