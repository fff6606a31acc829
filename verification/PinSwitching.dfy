/**
 Switching the shared pins between Bluetooth AUX PCM and FM I2S: one group of registers is driven to
 pin control, then the other to normal mode, one fallible register write at a time.
 */
module PinSwitching {
  const BT_PCM_BCLK_MODE := 0x88
  const BT_PCM_SYNC_MODE := 0x8B
  const FM_I2S_SD_MODE := 0x8E
  const FM_I2S_SCK_MODE := 0x90
  const I2C_PIN_CTL := 0x15
  const I2C_NORMAL := 0x40
  const MODE_FM := 0

  type Registers = map<int, int>

  /** A register write: done, or failed with a negative code, perhaps after reaching the chip. */
  datatype WriteResult = Written | Failed(code: int, landed: bool)

  predicate Negative(results: seq<WriteResult>) {
    forall i | 0 <= i < |results| && results[i].Failed? :: results[i].code < 0
  }

  /** Registers now, every register state passed through, results used up, and the return value so far. */
  datatype Progress = Progress(regs: Registers, trace: seq<Registers>, used: nat, ret: int)

  function Attempt(p: Progress, reg: int, value: int, results: seq<WriteResult>): Progress {
    var result := if p.used < |results| then results[p.used] else Written;
    var regs := if result.Written? || result.landed then p.regs[reg := value] else p.regs;
    Progress(regs, p.trace + [regs], p.used + 1, if result.Failed? then result.code else 0)
  }

  /** Writes `value` to the registers `reg..last`, stopping at the first failure. */
  function Drive(p: Progress, reg: int, last: int, value: int, results: seq<WriteResult>): Progress
    decreases last - reg + 1
  {
    if reg > last || p.ret < 0 then p else Drive(Attempt(p, reg, value, results), reg + 1, last, value, results)
  }

  /** Any mode but FM selects Bluetooth. */
  function Switch(regs: Registers, mode: int, results: seq<WriteResult>): Progress {
    var start := Progress(regs, [], 0, 0);
    if mode == MODE_FM then
      Drive(Drive(start, BT_PCM_BCLK_MODE, BT_PCM_SYNC_MODE, I2C_PIN_CTL, results),
            FM_I2S_SD_MODE, FM_I2S_SCK_MODE, I2C_NORMAL, results)
    else
      Drive(Drive(start, FM_I2S_SD_MODE, FM_I2S_SCK_MODE, I2C_PIN_CTL, results),
            BT_PCM_BCLK_MODE, BT_PCM_SYNC_MODE, I2C_NORMAL, results)
  }

  /* ---------- break before make ---------- */

  predicate PartlyNormal(regs: Registers, first: int, last: int) {
    exists r :: first <= r <= last && r in regs && regs[r] == I2C_NORMAL
  }

  predicate BothDriven(regs: Registers) {
    && PartlyNormal(regs, BT_PCM_BCLK_MODE, BT_PCM_SYNC_MODE)
    && PartlyNormal(regs, FM_I2S_SD_MODE, FM_I2S_SCK_MODE)
  }

  predicate Uniform(regs: Registers, first: int, last: int, value: int) {
    forall r | first <= r <= last :: r in regs && regs[r] == value
  }

  predicate NeverBoth(trace: seq<Registers>) {
    forall i | 0 <= i < |trace| :: !BothDriven(trace[i])
  }

  /** Driving a group to pin control never adds a normal register. */
  lemma {:induction false} DriveBreaks(p: Progress, first: int, reg: int, last: int, results: seq<WriteResult>)
    requires Negative(results) && !BothDriven(p.regs) && NeverBoth(p.trace) && first <= reg
    requires (p.ret >= 0 ==> Uniform(p.regs, first, reg - 1, I2C_PIN_CTL)) && reg <= last + 1
    ensures var q := Drive(p, reg, last, I2C_PIN_CTL, results);
            && !BothDriven(q.regs) && NeverBoth(q.trace)
            && (q.ret >= 0 ==> Uniform(q.regs, first, last, I2C_PIN_CTL))
    decreases last - reg + 1
  {
    if reg <= last && p.ret >= 0 {
      var q := Attempt(p, reg, I2C_PIN_CTL, results);
      assert forall r :: r in q.regs && q.regs[r] == I2C_NORMAL ==> r in p.regs && p.regs[r] == I2C_NORMAL;
      DriveBreaks(q, first, reg + 1, last, results);
    }
  }

  /** Driving one group to normal is safe once the other is wholly in pin control, which it stays. */
  lemma {:induction false} DriveMakes(p: Progress, first: int, reg: int, last: int, off: int, offLast: int,
                                      results: seq<WriteResult>)
    requires (off, offLast, first, last) == (BT_PCM_BCLK_MODE, BT_PCM_SYNC_MODE, FM_I2S_SD_MODE, FM_I2S_SCK_MODE)
          || (off, offLast, first, last) == (FM_I2S_SD_MODE, FM_I2S_SCK_MODE, BT_PCM_BCLK_MODE, BT_PCM_SYNC_MODE)
    requires Negative(results) && NeverBoth(p.trace) && Uniform(p.regs, off, offLast, I2C_PIN_CTL)
    requires first <= reg <= last + 1 && (p.ret >= 0 ==> Uniform(p.regs, first, reg - 1, I2C_NORMAL))
    ensures var q := Drive(p, reg, last, I2C_NORMAL, results);
            && NeverBoth(q.trace) && Uniform(q.regs, off, offLast, I2C_PIN_CTL)
            && (q.ret >= 0 ==> Uniform(q.regs, first, last, I2C_NORMAL))
    decreases last - reg + 1
  {
    if reg <= last && p.ret >= 0 {
      var q := Attempt(p, reg, I2C_NORMAL, results);
      assert !PartlyNormal(q.regs, off, offLast);
      DriveMakes(q, first, reg + 1, last, off, offLast, results);
    }
  }

  /**
   From registers that do not have both groups partly in normal mode, no register state on the way of
   a switch has, failures included; a switch that returns 0 leaves the requested group wholly normal
   and the other wholly in pin control.
   */
  lemma SwitchBreaksBeforeMaking(regs: Registers, mode: int, results: seq<WriteResult>)
    requires !BothDriven(regs) && Negative(results)
    ensures var p := Switch(regs, mode, results);
            && NeverBoth(p.trace) && !BothDriven(p.regs)
            && (p.ret >= 0 && mode == MODE_FM ==>
                  && Uniform(p.regs, FM_I2S_SD_MODE, FM_I2S_SCK_MODE, I2C_NORMAL)
                  && Uniform(p.regs, BT_PCM_BCLK_MODE, BT_PCM_SYNC_MODE, I2C_PIN_CTL))
            && (p.ret >= 0 && mode != MODE_FM ==>
                  && Uniform(p.regs, BT_PCM_BCLK_MODE, BT_PCM_SYNC_MODE, I2C_NORMAL)
                  && Uniform(p.regs, FM_I2S_SD_MODE, FM_I2S_SCK_MODE, I2C_PIN_CTL))
  {
    var start := Progress(regs, [], 0, 0);
    if mode == MODE_FM {
      DriveBreaks(start, BT_PCM_BCLK_MODE, BT_PCM_BCLK_MODE, BT_PCM_SYNC_MODE, results);
      var p := Drive(start, BT_PCM_BCLK_MODE, BT_PCM_SYNC_MODE, I2C_PIN_CTL, results);
      if p.ret >= 0 {
        DriveMakes(p, FM_I2S_SD_MODE, FM_I2S_SD_MODE, FM_I2S_SCK_MODE, BT_PCM_BCLK_MODE, BT_PCM_SYNC_MODE, results);
      }
    } else {
      DriveBreaks(start, FM_I2S_SD_MODE, FM_I2S_SD_MODE, FM_I2S_SCK_MODE, results);
      var p := Drive(start, FM_I2S_SD_MODE, FM_I2S_SCK_MODE, I2C_PIN_CTL, results);
      if p.ret >= 0 {
        DriveMakes(p, BT_PCM_BCLK_MODE, BT_PCM_BCLK_MODE, BT_PCM_SYNC_MODE, FM_I2S_SD_MODE, FM_I2S_SCK_MODE, results);
      }
    }
  }

  /** One requested switch: the mode, whether the bus device opens, and how its writes go. */
  datatype Request = Request(mode: int, opens: bool, results: seq<WriteResult>)

  /** Every register state of a sequence of requests, in order. */
  function Trace(regs: Registers, requests: seq<Request>): seq<Registers>
    decreases |requests|
  {
    if requests == [] then []
    else if !requests[0].opens then Trace(regs, requests[1..])
    else
      var p := Switch(regs, requests[0].mode, requests[0].results);
      p.trace + Trace(p.regs, requests[1..])
  }

  /** No sequence of switches, however it fails, ever drives both groups. */
  lemma {:induction false} SwitchesNeverDriveBoth(regs: Registers, requests: seq<Request>)
    requires !BothDriven(regs) && forall i | 0 <= i < |requests| :: Negative(requests[i].results)
    ensures NeverBoth(Trace(regs, requests))
    decreases |requests|
  {
    if requests != [] {
      if requests[0].opens {
        SwitchBreaksBeforeMaking(regs, requests[0].mode, requests[0].results);
        SwitchesNeverDriveBoth(Switch(regs, requests[0].mode, requests[0].results).regs, requests[1..]);
      } else {
        SwitchesNeverDriveBoth(regs, requests[1..]);
      }
    }
  }

  /* ---------- which writes a switch makes ---------- */

  /** The seven registers in the order a switch writes them, and the value each gets. */
  function Order(mode: int): (plan: seq<(int, int)>)
    ensures |plan| == 7
  {
    if mode == 0 then
      [(0x88, 0x15), (0x89, 0x15), (0x8A, 0x15), (0x8B, 0x15), (0x8E, 0x40), (0x8F, 0x40), (0x90, 0x40)]
    else
      [(0x8E, 0x15), (0x8F, 0x15), (0x90, 0x15), (0x88, 0x40), (0x89, 0x40), (0x8A, 0x40), (0x8B, 0x40)]
  }

  function ResultAt(results: seq<WriteResult>, i: nat): WriteResult {
    if i < |results| then results[i] else Written
  }

  /** The registers after the first `n` writes of a plan: each changes its own, unless it failed short of the chip. */
  function StateAfter(regs: Registers, plan: seq<(int, int)>, results: seq<WriteResult>, n: nat): Registers
    requires n <= |plan|
  {
    if n == 0 then regs
    else
      var before, result := StateAfter(regs, plan, results, n - 1), ResultAt(results, n - 1);
      if result.Failed? && !result.landed then before else before[plan[n - 1].0 := plan[n - 1].1]
  }

  function StatesTo(regs: Registers, plan: seq<(int, int)>, results: seq<WriteResult>, n: nat): seq<Registers>
    requires n <= |plan|
  {
    if n == 0 then [] else StatesTo(regs, plan, results, n - 1) + [StateAfter(regs, plan, results, n)]
  }

  function After(regs: Registers, plan: seq<(int, int)>, results: seq<WriteResult>, n: nat): Progress
    requires n <= |plan|
  {
    var failed := n > 0 && ResultAt(results, n - 1).Failed?;
    Progress(StateAfter(regs, plan, results, n), StatesTo(regs, plan, results, n), n,
             if failed then results[n - 1].code else 0)
  }

  /** How many writes are made before `n` are done or one has failed, once `k` have succeeded. */
  function Made(results: seq<WriteResult>, k: nat, n: nat): (m: nat)
    requires k <= n
    ensures k <= m <= n
    decreases n - k
  {
    if k == n then n else if ResultAt(results, k).Failed? then k + 1 else Made(results, k + 1, n)
  }

  lemma {:induction false} DriveFollows(regs: Registers, plan: seq<(int, int)>, k: nat, reg: int, last: int, value: int,
                                        results: seq<WriteResult>)
    requires Negative(results) && reg <= last + 1 && k + last - reg + 1 <= |plan|
    requires After(regs, plan, results, k).ret == 0
    requires forall i | k <= i < k + last - reg + 1 :: plan[i] == (reg + i - k, value)
    ensures Drive(After(regs, plan, results, k), reg, last, value, results)
            == After(regs, plan, results, Made(results, k, k + last - reg + 1))
    decreases last - reg + 1
  {
    if reg <= last {
      assert plan[k] == (reg, value);
      assert Attempt(After(regs, plan, results, k), reg, value, results) == After(regs, plan, results, k + 1);
      if !ResultAt(results, k).Failed? {
        DriveFollows(regs, plan, k + 1, reg + 1, last, value, results);
      }
    }
  }

  lemma {:induction false} MadeJoins(results: seq<WriteResult>, k: nat, m: nat, n: nat)
    requires k <= m <= n
    ensures var made := Made(results, k, m);
            Made(results, k, n) == if made > k && ResultAt(results, made - 1).Failed? then made else Made(results, m, n)
    decreases m - k
  {
    if k < m && !ResultAt(results, k).Failed? {
      MadeJoins(results, k + 1, m, n);
    }
  }

  lemma {:induction false} MadeMeans(results: seq<WriteResult>, k: nat, n: nat)
    requires k <= n
    ensures var m := Made(results, k, n);
            && (forall i | k <= i < m - 1 :: ResultAt(results, i).Written?)
            && (m == k || ResultAt(results, m - 1).Written? ==> m == n)
    decreases n - k
  {
    if k < n && !ResultAt(results, k).Failed? {
      MadeMeans(results, k + 1, n);
    }
  }

  /** Two groups of registers, one after the other, follow a plan that lists them. */
  lemma GroupsFollow(regs: Registers, plan: seq<(int, int)>, first: int, last: int, next: int, end: int,
                     results: seq<WriteResult>)
    requires Negative(results) && first <= last && next <= end && |plan| == last - first + 1 + end - next + 1
    requires forall i | 0 <= i < last - first + 1 :: plan[i] == (first + i, I2C_PIN_CTL)
    requires forall i | last - first + 1 <= i < |plan| :: plan[i] == (next + i - (last - first + 1), I2C_NORMAL)
    ensures var p := Drive(Progress(regs, [], 0, 0), first, last, I2C_PIN_CTL, results);
            Drive(p, next, end, I2C_NORMAL, results) == After(regs, plan, results, Made(results, 0, |plan|))
  {
    var m := last - first + 1;
    var made := Made(results, 0, m);
    DriveFollows(regs, plan, 0, first, last, I2C_PIN_CTL, results);
    MadeJoins(results, 0, m, |plan|);
    MadeMeans(results, 0, m);
    if ResultAt(results, made - 1).Failed? {
      assert results[made - 1].code < 0;
    } else {
      DriveFollows(regs, plan, m, next, end, I2C_NORMAL, results);
    }
  }

  /** A switch writes its registers in that order up to the first failure. It returns 0 exactly when all seven writes
      succeed, and otherwise the code of the one that failed. */
  lemma SwitchExactly(regs: Registers, mode: int, results: seq<WriteResult>)
    requires Negative(results)
    ensures Switch(regs, mode, results) == After(regs, Order(mode), results, Made(results, 0, 7))
    ensures Switch(regs, mode, results).ret == 0 <==> forall i | 0 <= i < 7 :: ResultAt(results, i).Written?
  {
    if mode == MODE_FM {
      GroupsFollow(regs, Order(mode), 0x88, 0x8B, 0x8E, 0x90, results);
    } else {
      GroupsFollow(regs, Order(mode), 0x8E, 0x90, 0x88, 0x8B, results);
    }
    hide Drive, StateAfter, StatesTo;
    MadeMeans(results, 0, 7);
  }

  /* ---------- the code ---------- */

  /** The chip behind the I2C bus, with every register state it passes through. */
  class Marimba {
    var regs: Registers
    ghost var trace: seq<Registers>

    constructor (regs: Registers)
      ensures this.regs == regs && trace == []
    {
      this.regs, trace := regs, [];
    }

    method Write(reg: int, value: int, result: WriteResult) returns (ret: int)
      modifies this
      ensures regs == if result.Written? || result.landed then old(regs)[reg := value] else old(regs)
      ensures trace == old(trace) + [regs]
      ensures ret == if result.Failed? then result.code else 0
    {
      if result.Written? || result.landed {
        regs := regs[reg := value];
      }
      trace := trace + [regs];
      ret := if result.Failed? then result.code else 0;
    }

    ghost predicate Reached(p: Progress, before: seq<Registers>)
      reads this
    {
      regs == p.regs && trace == before + p.trace
    }

    /** One loop of register writes. */
    method DriveGroup(first: int, last: int, value: int, results: seq<WriteResult>, used: nat, ghost p: Progress,
                      ghost before: seq<Registers>)
      returns (ret: int, used': nat)
      requires Reached(p, before) && used == p.used && p.ret == 0 && Negative(results)
      requires first <= last
      modifies this
      ensures var q := Drive(p, first, last, value, results);
              Reached(q, before) && used' == q.used && ret == q.ret && ret <= 0
    {
      ret, used' := 0, used;
      ghost var now := p;
      var reg := first;
      while reg <= last
        invariant reg <= last + 1 && Reached(now, before) && used' == now.used && ret == now.ret == 0
        invariant Drive(now, reg, last, value, results) == Drive(p, first, last, value, results)
      {
        now := Attempt(now, reg, value, results);
        ret := Write(reg, value, if used' < |results| then results[used'] else Written);
        used' := used' + 1;
        if ret < 0 {
          return;
        }
        reg := reg + 1;
      }
    }

    method SwitchPins(mode: int, results: seq<WriteResult>) returns (ret: int)
      requires Negative(results)
      modifies this
      ensures var p := Switch(old(regs), mode, results);
              regs == p.regs && trace == old(trace) + p.trace && ret == p.ret
      ensures !BothDriven(old(regs)) ==> !BothDriven(regs) && NeverBoth(trace[|old(trace)|..])
    {
      if !BothDriven(regs) {
        SwitchBreaksBeforeMaking(regs, mode, results);
      }
      ghost var before := trace;
      ghost var start := Progress(regs, [], 0, 0);
      var used: nat;
      if mode == MODE_FM {
        ret, used := DriveGroup(BT_PCM_BCLK_MODE, BT_PCM_SYNC_MODE, I2C_PIN_CTL, results, 0, start, before);
        if ret < 0 {
          return;
        }
        ghost var p := Drive(start, BT_PCM_BCLK_MODE, BT_PCM_SYNC_MODE, I2C_PIN_CTL, results);
        ret, used := DriveGroup(FM_I2S_SD_MODE, FM_I2S_SCK_MODE, I2C_NORMAL, results, used, p, before);
      } else {
        ret, used := DriveGroup(FM_I2S_SD_MODE, FM_I2S_SCK_MODE, I2C_PIN_CTL, results, 0, start, before);
        if ret < 0 {
          return;
        }
        ghost var p := Drive(start, FM_I2S_SD_MODE, FM_I2S_SCK_MODE, I2C_PIN_CTL, results);
        ret, used := DriveGroup(BT_PCM_BCLK_MODE, BT_PCM_SYNC_MODE, I2C_NORMAL, results, used, p, before);
      }
    }

    /** Fails without touching a register when the bus device does not open. */
    method SwitchMode(request: Request) returns (rc: int)
      requires Negative(request.results)
      modifies this
      ensures !request.opens ==> rc == -1 && regs == old(regs)
      ensures request.opens ==> rc == Switch(old(regs), request.mode, request.results).ret
      ensures trace == old(trace) + Trace(old(regs), [request])
    {
      rc := -1;
      assert [request][1..] == [];
      if request.opens {
        rc := SwitchPins(request.mode, request.results);
      }
    }
  }
}
