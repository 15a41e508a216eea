/** The two cascaded 8259A interrupt controllers: the kernel keeps one mask
    byte per controller (bit set = IRQ line masked), updates it a bit at a
    time and writes it to the controller's data port. Port writes are kept
    as a log of (value, port) pairs. */
module Pic {

  /** The controller constants, which live in a header that is not part of
      this model: the highest IRQ number, the number of lines per
      controller, the master line the slave is cascaded on, the
      end-of-interrupt command byte and the four I/O ports. */
  datatype PicConfig = PicConfig(
    maxIrq: nat, picIrqNum: nat, slaveIrqOnMaster: nat, eoi: bv8,
    masterPort: int, masterData: int, slavePort: int, slaveData: int)
  {
    predicate Valid() {
      picIrqNum <= 8 && maxIrq < picIrqNum + 8 && slaveIrqOnMaster < picIrqNum && slaveIrqOnMaster <= maxIrq
    }
  }

  /** The usual PC values: IRQs 0..15, 8 per controller, slave on line 2. */
  function Evident(eoi: bv8, masterPort: int, masterData: int, slavePort: int, slaveData: int): (c: PicConfig)
    ensures c.Valid()
  {
    PicConfig(15, 8, 2, eoi, masterPort, masterData, slavePort, slaveData)
  }

  datatype PortWrite = PortWrite(value: bv8, port: int)

  /** The mask byte with only bit `j` set, as a literal. */
  function BitMask(j: nat): (b: bv8)
    requires j < 8
  {
    if j == 0 then 1 else if j == 1 then 2 else if j == 2 then 4 else if j == 3 then 8
    else if j == 4 then 16 else if j == 5 then 32 else if j == 6 then 64 else 128
  }

  /** `1 << j` is that literal. */
  lemma ShiftIsBitMask(j: nat)
    requires j < 8
    ensures (1 as bv8) << j == BitMask(j)
  {
    if j == 0 {} else if j == 1 {} else if j == 2 {} else if j == 3 {}
    else if j == 4 {} else if j == 5 {} else if j == 6 {} else {}
  }

  /** Bit `j` of a mask byte. */
  predicate Bit(m: bv8, j: nat)
    requires j < 8
  {
    m & BitMask(j) != 0
  }

  /** `m &= ~(1 << bit)`: clears exactly bit `bit`. */
  function Unmask(m: bv8, bit: nat): (r: bv8)
    requires bit < 8
    ensures forall j: nat :: j < 8 ==> (Bit(r, j) <==> Bit(m, j) && j != bit)
  {
    ShiftIsBitMask(bit);
    m & !((1 as bv8) << bit)
  }

  /** `m |= (1 << bit)`: sets exactly bit `bit`. */
  function Mask(m: bv8, bit: nat): (r: bv8)
    requires bit < 8
    ensures forall j: nat :: j < 8 ==> (Bit(r, j) <==> Bit(m, j) || j == bit)
  {
    ShiftIsBitMask(bit);
    m | ((1 as bv8) << bit)
  }

  /** Unmasking then masking a line that was masked gives the mask back;
      masking then unmasking a line that was unmasked does too. */
  lemma {:induction false} MaskUnmaskRoundTrip(m: bv8, bit: nat)
    requires bit < 8
    ensures Bit(m, bit) ==> Mask(Unmask(m, bit), bit) == m
    ensures !Bit(m, bit) ==> Unmask(Mask(m, bit), bit) == m
  {
    ShiftIsBitMask(bit);
  }

  /** Each operation is idempotent. */
  lemma {:induction false} MaskIdempotent(m: bv8, bit: nat)
    requires bit < 8
    ensures Unmask(Unmask(m, bit), bit) == Unmask(m, bit)
    ensures Mask(Mask(m, bit), bit) == Mask(m, bit)
  {
    ShiftIsBitMask(bit);
  }

  /** The command-port writes `send_eoi(irq)` performs. The IRQ bounds 7, 8,
      15 and the cascade line 2 are literals in the source, not the
      configurable constants. */
  function EoiWrites(cfg: PicConfig, irq: nat): (w: seq<PortWrite>)
    ensures irq > 15 ==> w == []
    ensures 8 <= irq <= 15 ==> |w| == 2 && w[0].port == cfg.slavePort && w[1].port == cfg.masterPort
    ensures irq <= 7 ==> |w| == 1 && w[0].port == cfg.masterPort
    ensures irq <= 15 ==> w[|w| - 1] == PortWrite(cfg.eoi | (if irq > 7 then 2 else irq as bv8), cfg.masterPort)
  {
    if irq > 15 then []
    else if irq > 7 then
      [PortWrite(cfg.eoi | ((irq - 8) as bv8), cfg.slavePort), PortWrite(cfg.eoi | 2, cfg.masterPort)]
    else [PortWrite(cfg.eoi | (irq as bv8), cfg.masterPort)]
  }

  /** The controller pair: the two mask globals and the port-write log. */
  class Controllers {
    const cfg: PicConfig
    var masterMask: bv8
    var slaveMask: bv8
    var ports: seq<PortWrite>

    /** Whether IRQ line `irq` is masked by its controller's mask byte. */
    predicate Masked(irq: nat)
      requires cfg.Valid() && irq <= cfg.maxIrq
      reads this
    {
      if irq >= cfg.picIrqNum then Bit(slaveMask, irq - cfg.picIrqNum) else Bit(masterMask, irq)
    }

    /** Both masks start at 0xFF: every line masked. */
    constructor (cfg: PicConfig)
      requires cfg.Valid()
      ensures this.cfg == cfg && masterMask == 0xFF && slaveMask == 0xFF && ports == []
      ensures forall irq: nat :: irq <= cfg.maxIrq ==> Masked(irq)
    {
      this.cfg := cfg;
      masterMask := 0xFF;
      slaveMask := 0xFF;
      ports := [];
    }

    /** `enable_irq`: unmask one line; out-of-range lines change nothing. */
    method EnableIrq(irq: nat)
      requires cfg.Valid()
      modifies this
      ensures irq > cfg.maxIrq ==> masterMask == old(masterMask) && slaveMask == old(slaveMask) && ports == old(ports)
      ensures cfg.picIrqNum <= irq <= cfg.maxIrq ==>
        slaveMask == Unmask(old(slaveMask), irq - cfg.picIrqNum) && masterMask == old(masterMask)
        && ports == old(ports) + [PortWrite(slaveMask, cfg.slaveData)]
      ensures irq <= cfg.maxIrq && irq < cfg.picIrqNum ==>
        masterMask == Unmask(old(masterMask), irq) && slaveMask == old(slaveMask)
        && ports == old(ports) + [PortWrite(masterMask, cfg.masterData)]
      ensures forall j: nat :: j <= cfg.maxIrq ==> Masked(j) == (old(Masked(j)) && j != irq)
    {
      if irq > cfg.maxIrq {
        return;
      }
      if irq >= cfg.picIrqNum {
        slaveMask := Unmask(slaveMask, irq - cfg.picIrqNum);
        ports := ports + [PortWrite(slaveMask, cfg.slaveData)];
      } else {
        masterMask := Unmask(masterMask, irq);
        ports := ports + [PortWrite(masterMask, cfg.masterData)];
      }
    }

    /** `disable_irq`: mask one line; out-of-range lines change nothing. */
    method DisableIrq(irq: nat)
      requires cfg.Valid()
      modifies this
      ensures irq > cfg.maxIrq ==> masterMask == old(masterMask) && slaveMask == old(slaveMask) && ports == old(ports)
      ensures cfg.picIrqNum <= irq <= cfg.maxIrq ==>
        slaveMask == Mask(old(slaveMask), irq - cfg.picIrqNum) && masterMask == old(masterMask)
        && ports == old(ports) + [PortWrite(slaveMask, cfg.slaveData)]
      ensures irq <= cfg.maxIrq && irq < cfg.picIrqNum ==>
        masterMask == Mask(old(masterMask), irq) && slaveMask == old(slaveMask)
        && ports == old(ports) + [PortWrite(masterMask, cfg.masterData)]
      ensures forall j: nat :: j <= cfg.maxIrq ==> Masked(j) == (old(Masked(j)) || j == irq)
    {
      if irq > cfg.maxIrq {
        return;
      }
      if irq >= cfg.picIrqNum {
        slaveMask := Mask(slaveMask, irq - cfg.picIrqNum);
        ports := ports + [PortWrite(slaveMask, cfg.slaveData)];
      } else {
        masterMask := Mask(masterMask, irq);
        ports := ports + [PortWrite(masterMask, cfg.masterData)];
      }
    }

    /** `send_eoi`: acknowledges an interrupt; masks are not touched. */
    method SendEoi(irq: nat)
      modifies this
      ensures masterMask == old(masterMask) && slaveMask == old(slaveMask)
      ensures ports == old(ports) + EoiWrites(cfg, irq)
    {
      if irq > 15 {
        return;
      }
      if irq > 7 {
        ports := ports + [PortWrite(cfg.eoi | ((irq - 8) as bv8), cfg.slavePort)];
        ports := ports + [PortWrite(cfg.eoi | 2, cfg.masterPort)];
      } else {
        ports := ports + [PortWrite(cfg.eoi | (irq as bv8), cfg.masterPort)];
      }
    }

    /** The mask effect of `i8259_init`: both data ports get 0xFF, but the
        saved masks `master_mask` and `slave_mask` are not reset; the
        cascade line is then unmasked in whatever master mask is saved, and
        that mask is written out. The ICW1..ICW4 initialisation words are
        header constants and are not logged. */
    method Init()
      requires cfg.Valid()
      modifies this
      ensures masterMask == Unmask(old(masterMask), cfg.slaveIrqOnMaster) && slaveMask == old(slaveMask)
      ensures forall j: nat :: j <= cfg.maxIrq ==> (Masked(j) <==> old(Masked(j)) && j != cfg.slaveIrqOnMaster)
      ensures ports == old(ports) + [PortWrite(0xFF, cfg.masterData), PortWrite(0xFF, cfg.slaveData),
                                     PortWrite(masterMask, cfg.masterData)]
    {
      ports := ports + [PortWrite(0xFF, cfg.masterData), PortWrite(0xFF, cfg.slaveData)];
      EnableIrq(cfg.slaveIrqOnMaster);
    }
  }
}
