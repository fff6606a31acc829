/** Choosing the supported input rate nearest to a requested one, with a search that stops early. */
module RateSearch {
  const TWO31: nat := 0x8000_0000
  const TWO32: nat := 0x1_0000_0000

  const INPUT_SAMPLING_RATES: seq<nat> := [8000, 11025, 12000, 16000, 22050, 24000, 32000, 44100, 48000]

  /** `abs` of an unsigned 32-bit difference, taken as the signed 32-bit number with the same bits. */
  function Delta(a: nat, b: nat): (d: nat)
    requires a < TWO32 && b < TWO32
    ensures d <= TWO31
    ensures a < TWO31 && b < TWO31 ==> d == if a >= b then a - b else b - a
  {
    var diff := (a - b + TWO32) % TWO32;
    if diff < TWO31 then diff else TWO32 - diff
  }

  function Distance(a: nat, b: nat): nat {
    if a >= b then a - b else b - a
  }

  predicate Ascending(rates: seq<nat>) {
    forall i, j | 0 <= i < j < |rates| :: rates[i] < rates[j]
  }

  /** The entry of `rates` nearest to `rate`; of two equally near ones, the higher. */
  ghost predicate IsNearest(rates: seq<nat>, rate: nat, k: nat) {
    && k < |rates|
    && (forall i | 0 <= i < |rates| :: Distance(rate, rates[k]) <= Distance(rate, rates[i]))
    && (forall i | k < i < |rates| :: Distance(rate, rates[k]) < Distance(rate, rates[i]))
  }

  /** A nearest rate, the higher of two equally near ones. */
  ghost predicate Nearest(rates: seq<nat>, rate: nat, answer: nat) {
    exists k: nat :: IsNearest(rates, rate, k) && rates[k] == answer
  }

  /** Where the search stops: the first entry at which the 32-bit distance grows, or the last one. */
  ghost predicate StopsAt(rates: seq<nat>, rate: nat, k: nat)
    requires rate < TWO32 && forall i | 0 <= i < |rates| :: rates[i] < TWO32
  {
    && k < |rates|
    && (forall i | 0 <= i < k :: Delta(rate, rates[i + 1]) <= Delta(rate, rates[i]))
    && (k + 1 < |rates| ==> Delta(rate, rates[k + 1]) > Delta(rate, rates[k]))
  }

  /** The early-exit loop over a non-empty table. */
  method GetInputSampleRate(rates: seq<nat>, rate: nat) returns (answer: nat)
    requires rates != [] && rate < TWO32 && forall i | 0 <= i < |rates| :: rates[i] < TWO32
    ensures exists k: nat :: StopsAt(rates, rate, k) && answer == rates[k]
    ensures rate < TWO31 && Ascending(rates) && rates[|rates| - 1] < TWO31 ==> Nearest(rates, rate, answer)
    ensures rates == INPUT_SAMPLING_RATES ==> (Nearest(rates, rate, answer) <==> rate < FIRST_WRONG)
  {
    hide Delta, Nearest, Ascending, INPUT_SAMPLING_RATES;
    var i := 0;
    var prevDelta := 0xFFFF_FFFF;
    while i < |rates|
      invariant 0 <= i <= |rates|
      invariant prevDelta == if i == 0 then 0xFFFF_FFFF else Delta(rate, rates[i - 1])
      invariant forall j | 0 <= j < i - 1 :: Delta(rate, rates[j + 1]) <= Delta(rate, rates[j])
    {
      var delta := Delta(rate, rates[i]);
      if delta > prevDelta {
        break;
      }
      i := i + 1;
      prevDelta := delta;
    }
    answer := rates[i - 1];
    ghost var k := i - 1;
    assert StopsAt(rates, rate, k);
    if rate < TWO31 && Ascending(rates) && rates[|rates| - 1] < TWO31 {
      LastIsHighest(rates);
      StopIsNearest(rates, rate, k);
      NearestAt(rates, rate, k);
    }
    if rates == INPUT_SAMPLING_RATES {
      TableAnswer(rate, k);
    }
  }

  lemma LastIsHighest(rates: seq<nat>)
    requires Ascending(rates) && rates != [] && rates[|rates| - 1] < TWO31
    ensures forall i | 0 <= i < |rates| :: rates[i] < TWO31
  {
  }

  lemma NearestAt(rates: seq<nat>, rate: nat, k: nat)
    requires IsNearest(rates, rate, k)
    ensures Nearest(rates, rate, rates[k])
  {
  }

  /** Distances fall towards the request and rise behind it, so the first rise is the minimum. */
  lemma StopIsNearest(rates: seq<nat>, rate: nat, k: nat)
    requires rate < TWO31 && Ascending(rates) && forall i | 0 <= i < |rates| :: rates[i] < TWO31
    requires StopsAt(rates, rate, k)
    ensures IsNearest(rates, rate, k)
  {
    forall i | 0 <= i < k ensures Distance(rate, rates[k]) <= Distance(rate, rates[i]) {
      Falling(rates, rate, i, k);
    }
    if k + 1 < |rates| {
      assert rates[k] < rates[k + 1];
    }
  }

  lemma {:induction false} Falling(rates: seq<nat>, rate: nat, i: nat, k: nat)
    requires rate < TWO31 && forall j | 0 <= j < |rates| :: rates[j] < TWO31
    requires StopsAt(rates, rate, k) && i <= k
    ensures Delta(rate, rates[k]) <= Delta(rate, rates[i])
    decreases k - i
  {
    if i < k {
      Falling(rates, rate, i + 1, k);
    }
  }

  /** The search returns the request itself exactly when the table has it. */
  lemma FixesTableEntries(rates: seq<nat>, rate: nat, k: nat)
    requires IsNearest(rates, rate, k)
    ensures rates[k] == rate <==> rate in rates
  {
    if rate in rates {
      var i :| 0 <= i < |rates| && rates[i] == rate;
      assert Distance(rate, rates[i]) == 0;
    }
  }

  /** Requests from here on are answered wrongly: the signed difference to the first rate has overflowed. */
  const FIRST_WRONG: nat := TWO31 + 9513

  /** On the built-in table the answer is a nearest rate exactly for requests below `FIRST_WRONG`. */
  lemma NearestExactlyBelow(rate: nat, k: nat)
    requires rate < TWO32 && StopsAt(INPUT_SAMPLING_RATES, rate, k)
    ensures IsNearest(INPUT_SAMPLING_RATES, rate, k) <==> rate < FIRST_WRONG
  {
    TableShape();
    hide Delta, Distance, IsNearest, INPUT_SAMPLING_RATES;
    if rate < TWO31 {
      StopIsNearest(INPUT_SAMPLING_RATES, rate, k);
    } else if rate < FIRST_WRONG {
      HighStopsLast(rate, k);
    } else {
      WrongStopsFirst(rate, k);
    }
  }

  /** Table entries are distinct, so what holds of the position holds of the answer. */
  lemma TableAnswer(rate: nat, k: nat)
    requires rate < TWO32 && StopsAt(INPUT_SAMPLING_RATES, rate, k)
    ensures Nearest(INPUT_SAMPLING_RATES, rate, INPUT_SAMPLING_RATES[k]) <==> rate < FIRST_WRONG
  {
    TableShape();
    NearestExactlyBelow(rate, k);
    hide IsNearest, StopsAt, INPUT_SAMPLING_RATES;
    if Nearest(INPUT_SAMPLING_RATES, rate, INPUT_SAMPLING_RATES[k]) {
      var j: nat :| IsNearest(INPUT_SAMPLING_RATES, rate, j) && INPUT_SAMPLING_RATES[j] == INPUT_SAMPLING_RATES[k];
      SamePosition(INPUT_SAMPLING_RATES, rate, j, k);
    }
  }

  lemma SamePosition(rates: seq<nat>, rate: nat, j: nat, k: nat)
    requires Ascending(rates) && IsNearest(rates, rate, j) && k < |rates| && rates[j] == rates[k]
    ensures j == k
  {
  }

  lemma TableShape()
    ensures Ascending(INPUT_SAMPLING_RATES)
    ensures forall i | 0 <= i < |INPUT_SAMPLING_RATES| :: INPUT_SAMPLING_RATES[i] < TWO31
  {
  }

  lemma HighStopsLast(rate: nat, k: nat)
    requires TWO31 <= rate < FIRST_WRONG && StopsAt(INPUT_SAMPLING_RATES, rate, k)
    ensures k == 8 && IsNearest(INPUT_SAMPLING_RATES, rate, k)
  {
    if k < 8 {
      var a, b := INPUT_SAMPLING_RATES[k], INPUT_SAMPLING_RATES[k + 1];
      assert Delta(rate, b) > Delta(rate, a);
      assert k > 0 ==> a >= 11025;
      assert k == 0 ==> a == 8000 && b == 11025;
      HighDelta(rate, a);
      HighDelta(rate, b);
      assert false;
    }
  }

  lemma WrongStopsFirst(rate: nat, k: nat)
    requires FIRST_WRONG <= rate < TWO32 && StopsAt(INPUT_SAMPLING_RATES, rate, k)
    ensures k == 0 && !IsNearest(INPUT_SAMPLING_RATES, rate, k)
  {
    HighDelta(rate, 8000);
    HighDelta(rate, 11025);
    hide Delta;
    assert INPUT_SAMPLING_RATES[0] == 8000 && INPUT_SAMPLING_RATES[1] == 11025 && INPUT_SAMPLING_RATES[8] == 48000;
    assert Delta(rate, INPUT_SAMPLING_RATES[0 + 1]) > Delta(rate, INPUT_SAMPLING_RATES[0]);
    assert Distance(rate, INPUT_SAMPLING_RATES[8]) < Distance(rate, INPUT_SAMPLING_RATES[0]);
  }

  /** The 32-bit distance to a request above every signed number. */
  lemma HighDelta(rate: nat, b: nat)
    requires TWO31 <= rate < TWO32 && b < TWO31
    ensures Delta(rate, b) == if rate - b < TWO31 then rate - b else TWO32 - (rate - b)
  {
  }

  /* ---------- the pre-processing table index ---------- */

  /** The index as an unsigned word: an unknown rate gives -1, all bits set. */
  function AudpreTableIndex(rate: nat): nat {
    match rate
    case 48000 => 8
    case 44100 => 7
    case 32000 => 6
    case 24000 => 5
    case 22050 => 4
    case 16000 => 3
    case 12000 => 2
    case 11025 => 1
    case 8000 => 0
    case _ => TWO32 - 1
  }

  /** The index is the inverse of looking the rate up, and is out of range for every other rate. */
  lemma AudpreIndexInvertsTable(rate: nat, k: nat)
    requires k < |INPUT_SAMPLING_RATES|
    ensures AudpreTableIndex(INPUT_SAMPLING_RATES[k]) == k
    ensures AudpreTableIndex(rate) == k <==> rate == INPUT_SAMPLING_RATES[k]
    ensures rate !in INPUT_SAMPLING_RATES <==> AudpreTableIndex(rate) == TWO32 - 1
  {
    assert INPUT_SAMPLING_RATES[0] == 8000 && INPUT_SAMPLING_RATES[1] == 11025 && INPUT_SAMPLING_RATES[2] == 12000;
  }
}
