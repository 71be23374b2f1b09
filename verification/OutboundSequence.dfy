/** `OutboundSequenceState` and the persisted boot epoch: how a node draws the (epoch, seq)
    pair that becomes the AEAD nonce of a frame. */
module OutboundSequence {
  import opened Types

  const EPOCH_MAX: U32 := 0xFFFF_FFFF

  /** `persistOrEscalate` on a security-relevant key: the write succeeds, or it is reported
      failed and the device restarts. A failed write may or may not have reached flash. `Skipped`
      is a store that was never initialised: it reads as zero, keeps nothing and reports nothing. */
  datatype Write = Done | Lost | Kept | Skipped

  function AfterWrite(stored: U32, value: U32, w: Write): U32 {
    if w == Lost || w == Skipped then stored else value
  }

  /** The caller goes on. */
  predicate Passes(w: Write) { w == Done || w == Skipped }

  /** `loadBootEpoch`. */
  function LoadedEpoch(stored: U32, w: Write): U32 {
    if w == Skipped then 0 else stored
  }

  /** The stored epoch and the RAM of `OutboundSequenceState`. `on` is false between a restart
      and the next completed boot. */
  datatype Device = Device(stored: U32, on: bool, boot: U32, tx: U16, sealed: Mark)

  const NEVER_SEALED := Mark(EPOCH_MAX, 0)

  /** `uint32_t` and `uint16_t` increments wrap. */
  function NextEpoch(e: U32): U32 { (e + 1) % 0x1_0000_0000 }
  function NextSeq(s: U16): U16 { (s + 1) % 0x1_0000 }

  /** `Mesh::init`: load, add one, save, start counting from zero. */
  function Booted(d: Device, w: Write): Device {
    var epoch := NextEpoch(LoadedEpoch(d.stored, w));
    var stored := AfterWrite(d.stored, epoch, w);
    if Passes(w) then Device(stored, true, epoch, 0, NEVER_SEALED)
    else d.(stored := stored, on := false)
  }

  /** `nextSeqGuarded`. */
  function Drawn(d: Device, w: Write): Device {
    var seqNum := NextSeq(d.tx);
    if seqNum != 0 then d.(tx := seqNum)
    else
      var epoch := NextEpoch(d.boot);
      var stored := AfterWrite(d.stored, epoch, w);
      if Passes(w) then d.(stored := stored, boot := epoch, tx := 1)
      else d.(stored := stored, tx := 0, on := false)
  }

  /** `checkEpochRollback` lets the pair through. */
  predicate SealAllowed(last: Mark, m: Mark) {
    last.epoch == EPOCH_MAX || Newer(m, last)
  }

  datatype Event =
    | Boot(w: Write)      // power-up or restart, at any moment
    | Draw(w: Write)      // a frame built but not sealed: beacon, broadcast, enrollment
    | DrawSeal(w: Write)  // a frame built and sealed in one call

  function Step(d: Device, e: Event): Device {
    match e
    case Boot(w) => Booted(d, w)
    case Draw(w) => if d.on then Drawn(d, w) else d
    case DrawSeal(w) =>
      if !d.on then d
      else
        var r := Drawn(d, w);
        if !r.on then r
        else if SealAllowed(r.sealed, Mark(r.boot, r.tx)) then r.(sealed := Mark(r.boot, r.tx))
        else r.(on := false)
  }

  /** The pair an event hands out, if it does. */
  function Output(d: Device, e: Event): seq<Mark> {
    if e.Boot? || !d.on then []
    else
      var r := Drawn(d, e.w);
      if r.on then [Mark(r.boot, r.tx)] else []
  }

  function Trace(d: Device, es: seq<Event>): seq<Mark>
    decreases es
  {
    if es == [] then [] else Output(d, es[0]) + Trace(Step(d, es[0]), es[1..])
  }

  /** No event starts with the stored epoch at its 32-bit maximum, and the store is up. */
  predicate EpochRoom(d: Device, es: seq<Event>)
    decreases es
  {
    es == [] || (d.stored < EPOCH_MAX && es[0].w != Skipped && EpochRoom(Step(d, es[0]), es[1..]))
  }

  /** A running device stores the epoch it uses, has drawn nothing beyond its counter and has
      sealed nothing beyond it. */
  predicate Consistent(d: Device) {
    d.on ==> d.stored == d.boot
             && (d.sealed.epoch == EPOCH_MAX || !Newer(d.sealed, Mark(d.boot, d.tx)))
  }

  /** Everything handed out so far lies at or below the device's position. */
  predicate Above(d: Device, m: Mark) {
    if d.on then !Newer(m, Mark(d.boot, d.tx)) else m.epoch <= d.stored
  }

  lemma StepConsistent(d: Device, e: Event)
    requires Consistent(d) && d.stored < EPOCH_MAX && e.w != Skipped
    ensures Consistent(Step(d, e))
  {
  }

  /** A freshly built frame sealed in the same call always passes the rollback guard. */
  lemma SealNeverRejected(d: Device, w: Write)
    requires Consistent(d) && d.on && d.stored < EPOCH_MAX
    ensures var r := Drawn(d, w); r.on ==> SealAllowed(r.sealed, Mark(r.boot, r.tx))
    ensures Drawn(d, w).on ==> Step(d, DrawSeal(w)).on
  {
  }

  lemma StepAbove(d: Device, e: Event, m: Mark)
    requires Consistent(d) && d.stored < EPOCH_MAX && e.w != Skipped && Above(d, m)
    ensures Above(Step(d, e), m)
    ensures forall x :: x in Output(d, e) ==> Newer(x, m)
  {
    if !e.Boot? && d.on {
      var r := Drawn(d, e.w);
      assert r.on ==> Newer(Mark(r.boot, r.tx), m);
    }
  }

  predicate Rising(tr: seq<Mark>) {
    forall i, j :: 0 <= i < j < |tr| ==> Newer(tr[j], tr[i])
  }

  /** Every pair of the rest of a run lies above `m`. */
  lemma {:induction false} TraceAbove(d: Device, es: seq<Event>, m: Mark)
    requires Consistent(d) && EpochRoom(d, es) && Above(d, m)
    ensures forall x :: x in Trace(d, es) ==> Newer(x, m)
    decreases es
  {
    if es != [] {
      StepConsistent(d, es[0]);
      StepAbove(d, es[0], m);
      TraceAbove(Step(d, es[0]), es[1..], m);
    }
  }

  /** Nonce uniqueness: over any mix of draws, sequence wraps, restarts and failed epoch
      writes, the pairs a node hands out strictly increase and none has sequence zero. */
  lemma {:induction false} NoncesRise(d: Device, es: seq<Event>)
    requires Consistent(d) && EpochRoom(d, es)
    ensures Rising(Trace(d, es))
    ensures forall x :: x in Trace(d, es) ==> x.seqNum != 0
    decreases es
  {
    if es != [] {
      var out, d', rest := Output(d, es[0]), Step(d, es[0]), Trace(Step(d, es[0]), es[1..]);
      StepConsistent(d, es[0]);
      NoncesRise(d', es[1..]);
      if out != [] {
        OutputAbove(d, es[0]);
        TraceAbove(d', es[1..], out[0]);
        assert forall j :: 0 <= j < |rest| ==> rest[j] in rest;
      }
    }
  }

  lemma OutputAbove(d: Device, e: Event)
    requires Consistent(d) && d.stored < EPOCH_MAX && e.w != Skipped
    ensures forall x :: x in Output(d, e) ==> x.seqNum != 0 && Above(Step(d, e), x)
  {
  }

  /** No pair is ever handed out twice. */
  lemma NoncesDistinct(d: Device, es: seq<Event>, i: nat, j: nat)
    requires Consistent(d) && EpochRoom(d, es)
    requires i < j < |Trace(d, es)|
    ensures Trace(d, es)[i] != Trace(d, es)[j]
  {
    NoncesRise(d, es);
  }

  /** With the store up, whether an epoch change keeps the order is decided by the stored epoch
      alone: a reboot or a sequence wrap moves forward exactly when the epoch is below its
      maximum. With the store down a reboot starts again at epoch 1, which moves forward only for
      a device that has drawn nothing at epoch 1 or above. */
  lemma EpochChangeAdvances(d: Device)
    requires Consistent(d) && d.on
    ensures Newer(Mark(Booted(d, Done).boot, 1), Mark(d.boot, d.tx)) <==> d.stored < EPOCH_MAX
    ensures d.tx == 0xFFFF ==>
              (Newer(Mark(Drawn(d, Done).boot, Drawn(d, Done).tx), Mark(d.boot, d.tx))
               <==> d.stored < EPOCH_MAX)
    ensures Newer(Mark(Booted(d, Skipped).boot, 1), Mark(d.boot, d.tx))
       <==> d.boot == 0 || (d.boot == 1 && d.tx == 0)
  {
    if d.stored == EPOCH_MAX {
      assert NextEpoch(d.stored) == 0;
    }
  }

  /** The store must be up: with it down every boot hands out the same first pair. */
  lemma StoreDownRepeats(d: Device, w: Write, w': Write)
    ensures Trace(d, [Boot(Skipped), Draw(w), Boot(Skipped), Draw(w')]) == [Mark(1, 1), Mark(1, 1)]
  {
    StoreDownFirstPair(d, w, [Boot(Skipped), Draw(w')]);
    assert [Boot(Skipped), Draw(w)] + [Boot(Skipped), Draw(w')] == [Boot(Skipped), Draw(w), Boot(Skipped), Draw(w')];
    StoreDownFirstPair(Drawn(Booted(d, Skipped), w), w', []);
    assert [Boot(Skipped), Draw(w')] + [] == [Boot(Skipped), Draw(w')];
  }

  lemma StoreDownFirstPair(d: Device, w: Write, rest: seq<Event>)
    ensures Trace(d, [Boot(Skipped), Draw(w)] + rest) == [Mark(1, 1)] + Trace(Drawn(Booted(d, Skipped), w), rest)
  {
    var es := [Boot(Skipped), Draw(w)] + rest;
    assert es[1..] == [Draw(w)] + rest;
    assert es[1..][1..] == rest;
  }

  function Boots(n: nat): seq<Event> {
    seq(n, i => Boot(Done))
  }

  lemma EpochsAdd(e: U32, n: nat)
    requires n > 0
    ensures (NextEpoch(e) + (n - 1)) % 0x1_0000_0000 == (e + n) % 0x1_0000_0000
  {
  }

  lemma {:induction false} BootsThenDraw(d: Device, n: nat)
    requires d.on && d.stored == d.boot && d.tx == 0
    ensures Trace(d, Boots(n) + [Draw(Done)]) == [Mark((d.stored + n) % 0x1_0000_0000, 1)]
    decreases n
  {
    var es := Boots(n) + [Draw(Done)];
    if n == 0 {
      assert es == [Draw(Done)];
      assert Trace(Step(d, es[0]), es[1..]) == [];
    } else {
      assert es[0] == Boot(Done) && es[1..] == Boots(n - 1) + [Draw(Done)];
      BootsThenDraw(Step(d, es[0]), n - 1);
      EpochsAdd(d.stored, n);
    }
  }

  /** The room is needed: 2^32 restarts later a device hands out the pair of its first draw. */
  lemma EpochOverflowRepeats(d: Device)
    requires d.on && d.stored == d.boot && d.tx == 0
    ensures var es := [Draw(Done)] + (Boots(0x1_0000_0000) + [Draw(Done)]);
            Trace(d, es) == [Mark(d.boot, 1), Mark(d.boot, 1)]
  {
    var later := Boots(0x1_0000_0000) + [Draw(Done)];
    var es := [Draw(Done)] + later;
    assert es[0] == Draw(Done) && es[1..] == later;
    var d1 := Step(d, es[0]);
    var b := Boots(0xFFFF_FFFF) + [Draw(Done)];
    assert later[0] == Boot(Done) && later[1..] == b;
    BootsThenDraw(Step(d1, later[0]), 0xFFFF_FFFF);
  }

  // ---- The class and its store ----

  /** The `BOOT_EPOCH` key of the NVS namespace. */
  class EpochStore {
    var epoch: U32

    constructor (value: U32)
      ensures epoch == value
    {
      epoch := value;
    }

    /** `loadBootEpoch`: zero from a store that was never initialised. */
    method Load(w: Write) returns (value: U32)
      ensures value == LoadedEpoch(epoch, w)
    {
      if w == Skipped {
        return 0;
      }
      return epoch;
    }

    /** `saveBootEpoch`: false when the write is reported failed and the device restarts. A store
        that was never initialised returns silently. */
    method Save(value: U32, w: Write) returns (ok: bool)
      modifies this
      ensures epoch == AfterWrite(old(epoch), value, w)
      ensures ok == Passes(w)
    {
      if w == Skipped {
        return true;
      }
      if w != Lost {
        epoch := value;
      }
      ok := w == Done;
    }
  }

  class OutboundSequenceState {
    var bootEpoch: U32
    var txSeqNum: U16
    var lastRelayed: Mark
    var lastSealed: Mark

    constructor ()
      ensures bootEpoch == 0 && txSeqNum == 0 && lastRelayed == Mark(0, 0) && lastSealed == NEVER_SEALED
    {
      bootEpoch, txSeqNum, lastRelayed, lastSealed := 0, 0, Mark(0, 0), NEVER_SEALED;
    }

    ghost function View(store: EpochStore, on: bool): Device
      reads this, store
    {
      Device(store.epoch, on, bootEpoch, txSeqNum, lastSealed)
    }

    /** The boot sequence of `Mesh::init`. RAM starts from the constructor's state. */
    method Init(store: EpochStore, w: Write) returns (on: bool)
      requires lastSealed == NEVER_SEALED
      modifies this, store
      ensures on == Passes(w)
      ensures on ==> View(store, on) == Booted(old(View(store, true)), w) && lastRelayed == Mark(0, 0)
      ensures !on ==> View(store, on) == Booted(old(View(store, true)), w) && lastRelayed == old(lastRelayed)
    {
      var stored: U32 := store.Load(w);
      var epoch: U32 := (stored + 1) % 0x1_0000_0000;
      on := store.Save(epoch, w);
      if on {
        bootEpoch, txSeqNum, lastRelayed := epoch, 0, Mark(0, 0);
      }
    }

    /** The only place a pair is drawn: on the 0xFFFF wrap the epoch is bumped and persisted
        before the redraw. False when that write restarts the device. */
    method NextSeqGuarded(store: EpochStore, w: Write) returns (seqNum: U16, on: bool)
      modifies this, store
      ensures View(store, on) == Drawn(old(View(store, true)), w) && seqNum == txSeqNum
      ensures lastRelayed == old(lastRelayed)
    {
      txSeqNum := (txSeqNum + 1) % 0x1_0000;
      seqNum, on := txSeqNum, true;
      if seqNum == 0 {
        var epoch: U32 := (bootEpoch + 1) % 0x1_0000_0000;
        on := store.Save(epoch, w);
        if on {
          bootEpoch := epoch;
          txSeqNum := (txSeqNum + 1) % 0x1_0000;
          seqNum := txSeqNum;
        }
      }
    }

    /** False when the pair does not strictly advance: the device halts rather than seal. */
    method CheckEpochRollback(epoch: U32, seqNum: U16) returns (ok: bool)
      modifies `lastSealed
      ensures ok == SealAllowed(old(lastSealed), Mark(epoch, seqNum))
      ensures lastSealed == if ok then Mark(epoch, seqNum) else old(lastSealed)
    {
      if lastSealed.epoch == EPOCH_MAX {
        lastSealed := Mark(epoch, seqNum);
        return true;
      }
      if epoch > lastSealed.epoch {
        lastSealed := Mark(epoch, seqNum);
        return true;
      }
      if epoch == lastSealed.epoch && seqNum > lastSealed.seqNum {
        lastSealed := Mark(epoch, seqNum);
        return true;
      }
      return false;
    }

    method MarkRelayed(epoch: U32, seqNum: U16)
      modifies `lastRelayed
      ensures lastRelayed == Mark(epoch, seqNum)
    {
      lastRelayed := Mark(epoch, seqNum);
    }

    /** Not strictly newer than the last beacon this node scheduled. */
    predicate WasRelayedBefore(epoch: U32, seqNum: U16)
      reads this
    {
      !Newer(Mark(epoch, seqNum), lastRelayed)
    }
  }
}
