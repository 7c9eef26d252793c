/** snmp/snmp.go: big integers updated in place, counter differences and value conversion. */
module Counters {
  import opened Wrappers
  import opened Decimal
  import opened Float64

  const MAX32 := 0xFFFF_FFFF
  const MAX64 := 0xFFFF_FFFF_FFFF_FFFF

  /** math/big.Int: the receiver takes the result, whatever it aliases. */
  class BigInt {
    var v: int

    constructor (v: int)
      ensures this.v == v
    {
      this.v := v;
    }

    method Sub(x: BigInt, y: BigInt)
      modifies this
      ensures v == old(x.v) - old(y.v)
    {
      v := x.v - y.v;
    }

    method Add(x: BigInt, y: BigInt)
      modifies this
      ensures v == old(x.v) + old(y.v)
    {
      v := x.v + y.v;
    }

    /** Int.Div is Euclidean division, as Dafny's is; a zero divisor panics. */
    method Div(x: BigInt, y: BigInt)
      requires y.v != 0
      modifies this
      ensures v == old(x.v) / old(y.v)
    {
      v := x.v / y.v;
    }
  }

  /** The difference CalculateCounterDiff reports. */
  function CounterDiff(last: int, current: int): int {
    if current >= last then current - last
    else if last >= MAX32 then current - last + MAX64
    else current - last + MAX32
  }

  /** The result replaces currentValue's own value; lastValue keeps its value unless it is the
      same object. */
  method CalculateCounterDiff(lastValue: BigInt, currentValue: BigInt) returns (diff: BigInt)
    modifies currentValue
    ensures diff == currentValue
    ensures diff.v == CounterDiff(old(lastValue.v), old(currentValue.v))
    ensures lastValue != currentValue ==> lastValue.v == old(lastValue.v)
  {
    currentValue.Sub(currentValue, lastValue);
    diff := currentValue;
    if diff.v < 0 {
      var maxCounter32Value := new BigInt(MAX32);
      var maxCounter64Value := new BigInt(MAX64);
      if lastValue.v >= maxCounter32Value.v {
        diff.Add(diff, maxCounter64Value);
      } else {
        diff.Add(diff, maxCounter32Value);
      }
    }
  }

  /** How far a counter of the given modulus advanced (sections 7.1.6 and 7.1.10 of RFC 2578:
      counters wrap to zero past their maximum). */
  function Advance(last: nat, current: nat, modulus: nat): nat
    requires modulus > 0
  {
    (current - last) % modulus
  }

  /** For any two unsigned 64-bit readings the difference is not negative; without rollover it is
      exact, and on rollover it is one less than a counter advances whose modulus is guessed from
      the last reading: 2^32 below the 32-bit maximum, 2^64 from there on. */
  lemma CounterDiffLaw(last: nat, current: nat)
    requires last <= MAX64 && current <= MAX64
    ensures CounterDiff(last, current) >= 0
    ensures current >= last ==> CounterDiff(last, current) == Advance(last, current, MAX64 + 1)
    ensures current < last ==>
              CounterDiff(last, current) ==
              Advance(last, current, if last < MAX32 then MAX32 + 1 else MAX64 + 1) - 1
  {
  }

  /** The error against a real 32-bit counter: none without rollover, one too few on rollover,
      and nearly 2^64 too many when the last reading was exactly the 32-bit maximum. */
  lemma Counter32Error(last: nat, current: nat)
    requires last <= MAX32 && current <= MAX32
    ensures CounterDiff(last, current) - Advance(last, current, MAX32 + 1) ==
            if current >= last then 0 else if last < MAX32 then -1 else MAX64 - MAX32 - 1
  {
  }

  /** The error against a real 64-bit counter: the guess is wrong by 2^64 - 2^32 and one when it
      falls from below the 32-bit maximum. */
  lemma Counter64Error(last: nat, current: nat)
    requires last <= MAX64 && current <= MAX64
    ensures CounterDiff(last, current) - Advance(last, current, MAX64 + 1) ==
            if current >= last then 0 else if last < MAX32 then MAX32 - MAX64 - 1 else -1
  {
  }

  // ---- a whole run of readings ----

  /** A counter of the given modulus that really stood at totals[i] at reading i, and wrapped at
      most once between two readings. */
  predicate Counts(totals: seq<nat>, modulus: nat)
    requires modulus > 0
  {
    forall i :: 0 < i < |totals| ==> totals[i - 1] <= totals[i] < totals[i - 1] + modulus
  }

  predicate RollsOver(totals: seq<nat>, modulus: nat, i: nat)
    requires modulus > 0 && 0 < i < |totals|
  {
    totals[i] % modulus < totals[i - 1] % modulus
  }

  /** A rollover at which the code guesses the wrong width. */
  predicate Misguessed(totals: seq<nat>, modulus: nat, i: nat)
    requires modulus > 0 && 0 < i < |totals|
  {
    RollsOver(totals, modulus, i) && !(totals[i - 1] % modulus < MAX32 <==> modulus == MAX32 + 1)
  }

  function SumOfDiffs(totals: seq<nat>, modulus: nat, n: nat): int
    requires modulus > 0 && n < |totals|
  {
    if n == 0 then 0
    else SumOfDiffs(totals, modulus, n - 1) + CounterDiff(totals[n - 1] % modulus, totals[n] % modulus)
  }

  function Rollovers(totals: seq<nat>, modulus: nat, n: nat): nat
    requires modulus > 0 && n < |totals|
  {
    if n == 0 then 0
    else Rollovers(totals, modulus, n - 1) + (if RollsOver(totals, modulus, n) then 1 else 0)
  }

  function Misguesses(totals: seq<nat>, modulus: nat, n: nat): nat
    requires modulus > 0 && n < |totals|
  {
    if n == 0 then 0
    else Misguesses(totals, modulus, n - 1) + (if Misguessed(totals, modulus, n) then 1 else 0)
  }

  /** What one wrong guess adds: a 32-bit counter gets the width of a 64-bit one, or the other way
      round. */
  function GuessError(modulus: nat): int {
    if modulus == MAX32 + 1 then MAX64 - MAX32 else MAX32 - MAX64
  }

  /** Over any run of readings of a 32-bit or 64-bit counter the differences add up to the real
      advance, less one for each rollover, and off by the difference of the widths for each
      rollover whose width is guessed wrong. */
  lemma {:induction false} DiffsAddUp(totals: seq<nat>, modulus: nat, n: nat)
    requires modulus == MAX32 + 1 || modulus == MAX64 + 1
    requires n < |totals| && Counts(totals, modulus)
    ensures SumOfDiffs(totals, modulus, n) ==
            totals[n] - totals[0] - Rollovers(totals, modulus, n)
            + GuessError(modulus) * Misguesses(totals, modulus, n)
  {
    if n > 0 {
      DiffsAddUp(totals, modulus, n - 1);
      OneReading(totals, modulus, n);
      OneMore(GuessError(modulus), Misguesses(totals, modulus, n - 1));
    }
  }

  /** Wrong guesses never cancel out: the differences add up to the advance less the rollovers if
      and only if every width was guessed right. */
  lemma DiffsExactIff(totals: seq<nat>, modulus: nat, n: nat)
    requires modulus == MAX32 + 1 || modulus == MAX64 + 1
    requires n < |totals| && Counts(totals, modulus)
    ensures SumOfDiffs(totals, modulus, n) == totals[n] - totals[0] - Rollovers(totals, modulus, n) <==>
            forall i :: 0 < i <= n ==> !Misguessed(totals, modulus, i)
  {
    DiffsAddUp(totals, modulus, n);
    NoMisguesses(totals, modulus, n);
    var k := Misguesses(totals, modulus, n);
    assert GuessError(modulus) * k == 0 <==> k == 0;
  }

  lemma {:induction false} NoMisguesses(totals: seq<nat>, modulus: nat, n: nat)
    requires modulus > 0 && n < |totals|
    ensures Misguesses(totals, modulus, n) == 0 <==> forall i :: 0 < i <= n ==> !Misguessed(totals, modulus, i)
  {
    if n > 0 {
      NoMisguesses(totals, modulus, n - 1);
    }
  }

  lemma OneMore(x: int, k: nat)
    ensures x * (k + 1) == x * k + x
  {
  }

  lemma OneReading(totals: seq<nat>, modulus: nat, n: nat)
    requires modulus == MAX32 + 1 || modulus == MAX64 + 1
    requires 0 < n < |totals| && Counts(totals, modulus)
    ensures CounterDiff(totals[n - 1] % modulus, totals[n] % modulus) ==
            totals[n] - totals[n - 1] - (if RollsOver(totals, modulus, n) then 1 else 0)
            + (if Misguessed(totals, modulus, n) then GuessError(modulus) else 0)
  {
    if modulus == MAX32 + 1 {
      Wrap32(totals[n - 1], totals[n]);
    } else {
      Wrap64(totals[n - 1], totals[n]);
    }
  }

  lemma Wrap32(before: nat, now: nat)
    requires before <= now < before + (MAX32 + 1)
    ensures now - before == now % (MAX32 + 1) - before % (MAX32 + 1) +
                            (if now % (MAX32 + 1) < before % (MAX32 + 1) then MAX32 + 1 else 0)
  {
    var p, q := before / (MAX32 + 1), now / (MAX32 + 1);
    assert q == p || q == p + 1;
  }

  lemma Wrap64(before: nat, now: nat)
    requires before <= now < before + (MAX64 + 1)
    ensures now - before == now % (MAX64 + 1) - before % (MAX64 + 1) +
                            (if now % (MAX64 + 1) < before % (MAX64 + 1) then MAX64 + 1 else 0)
  {
    var p, q := before / (MAX64 + 1), now / (MAX64 + 1);
    assert q == p || q == p + 1;
  }

  /** Go's integer types. */
  datatype IntType = Int | Int8 | Int16 | Int32 | Int64 | Uint | Uint8 | Uint16 | Uint32 | Uint64

  /** int and uint are 64 bits wide. */
  predicate Fits(t: IntType, n: int) {
    match t
    case Int8 => -0x80 <= n < 0x80
    case Int16 => -0x8000 <= n < 0x8000
    case Int32 => -0x8000_0000 <= n < 0x8000_0000
    case Int | Int64 => InInt64(n)
    case Uint8 => 0 <= n < 0x100
    case Uint16 => 0 <= n < 0x1_0000
    case Uint32 => 0 <= n <= MAX32
    case Uint | Uint64 => 0 <= n <= MAX64
  }

  /** An SNMP value with its dynamic type. */
  datatype Value = Integer(t: IntType, n: int) | Text(s: string) | Bytes(b: string) | Other

  predicate InRange(value: Value) {
    value.Integer? ==> Fits(value.t, value.n)
  }

  /** int64(n) of an integer of any width: the low 64 bits, read as a signed number. */
  function LowBits(n: int): Float64.Int64 {
    (n + TWO63) % (MAX64 + 1) - TWO63
  }

  /** strconv.ParseInt(s, 10, 64) and whether it fails; a number out of range is clamped. */
  function ParseInt(s: string): (r: (Float64.Int64, bool)) {
    var n := ParseInteger(s);
    if n.None? then (0, true)
    else if n.value < -TWO63 then (-TWO63, true)
    else if n.value >= TWO63 then (MAX_INT64, true)
    else (n.value, false)
  }

  /** s is text of n, and n is an int64. */
  ghost predicate Int64Text(s: string, n: int) {
    InInt64(n) && exists sign, k :: Numeral(s, sign, k, n)
  }

  /** What the conversion yields: only a uint of 2^63 or more is changed, by 2^64, and what is
      neither an integer nor text of an int64 counts as 0. */
  function BigIntOf(value: Value): int
    requires InRange(value)
  {
    match value
    case Integer(t, n) => if t == Uint && n >= TWO63 then n - (MAX64 + 1) else n
    case Text(s) =>
      var n := ParseInteger(s);
      if n.Some? && InInt64(n.value) then n.value else 0
    case Bytes(_) => 0
    case Other => 0
  }

  /** The type switch. */
  method ToBigInt(value: Value) returns (r: BigInt)
    requires InRange(value)
    ensures fresh(r) && r.v == BigIntOf(value)
    ensures value.Integer? ==> (r.v == value.n <==> value.t == Uint64 || InInt64(value.n))
    ensures value.Text? ==> forall n :: Int64Text(value.s, n) ==> r.v == n
    ensures (value.Text? ==> forall n :: !Int64Text(value.s, n)) && !value.Integer? ==> r.v == 0
  {
    var val: Float64.Int64;
    match value {
      case Integer(t, n) =>
        match t {
          case Int | Int8 | Int16 | Int32 => val := LowBits(n);
          case Int64 => val := n;
          case Uint | Uint8 | Uint16 | Uint32 => val := LowBits(n);
          case Uint64 =>
            r := new BigInt(n);
            return;
        }
      case Text(s) =>
        var parsed := ParseInt(s);
        val := parsed.0;
        if parsed.1 {
          val := 0;
        }
        forall n | Int64Text(s, n)
          ensures BigIntOf(value) == n
        {
          TextValue(s, n);
        }
        TextValue(s, 0);
      case _ =>
        val := 0;
    }
    r := new BigInt(val);
  }

  /** Text counts for the int64 it denotes, whatever its sign and leading zeros; any other text,
      and a number too large for an int64, counts as 0. */
  lemma TextValue(s: string, n: int)
    ensures BigIntOf(Value.Text(s)) == n <==> Int64Text(s, n) || (n == 0 && forall m :: !Int64Text(s, m))
  {
    forall m: int
      ensures Int64Text(s, m) <==> ParseInteger(s) == Some(m) && InInt64(m)
    {
      ParsesNumerals(s, m);
    }
  }

  /** A uint converts exactly if and only if it fits into an int64; a uint64 always does; printed
      as text it counts as 0 when it does not fit. */
  lemma UintExactIff(u: int)
    requires 0 <= u <= MAX64
    ensures BigIntOf(Integer(Uint, u)) == LowBits(u)
    ensures LowBits(u) == u <==> u < TWO63
    ensures BigIntOf(Integer(Uint64, u)) == u
    ensures BigIntOf(Value.Text(Decimal.Text(u))) == (if u < TWO63 then u else 0)
  {
    LowBitsExact(u);
    ParseText(u);
  }

  lemma LowBitsExact(u: int)
    requires 0 <= u <= MAX64
    ensures LowBits(u) == if u < TWO63 then u else u - (MAX64 + 1)
  {
    if u >= TWO63 {
      assert u + TWO63 == (u - TWO63) + (MAX64 + 1);
    }
  }
}
