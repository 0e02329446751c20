/** What `strtol` and `strtoul` make of a number, with blanks and a sign in front of it, when
    the result is cut down to an `int`. */
module Scanning {
  import opened CText

  function Power(b: int, k: nat): int { if k == 0 then 1 else b * Power(b, k - 1) }

  /** The number that decimal digits denote: each counts as many times ten as digits follow. */
  function Decimal(ds: string): int {
    if ds == "" then 0 else (ds[0] as int - '0' as int) * Power(10, |ds| - 1) + Decimal(ds[1..])
  }

  predicate Digits(ds: string) { ds != "" && forall i | 0 <= i < |ds| :: '0' <= ds[i] <= '9' }

  predicate BlankText(t: string) { forall i | 0 <= i < |t| :: t[i] == ' ' || '\t' <= t[i] <= '\r' }

  lemma {:induction false} DecimalSnoc(ds: string, c: char)
    ensures Decimal(ds + [c]) == 10 * Decimal(ds) + (c as int - '0' as int)
  {
    if ds == "" {
      assert ([c])[1..] == "" && Power(10, 0) == 1;
    } else {
      assert (ds + [c])[1..] == ds[1..] + [c];
      DecimalSnoc(ds[1..], c);
      var d, p := ds[0] as int - '0' as int, Power(10, |ds| - 1);
      assert Power(10, |ds|) == 10 * p;
      assert d * (10 * p) == 10 * (d * p);
    }
  }

  lemma {:induction false} DecimalIs(ds: string)
    requires forall i | 0 <= i < |ds| :: '0' <= ds[i] <= '9'
    ensures DigitsValue(ds) == Decimal(ds)
  {
    if ds != "" {
      var h := ds[..|ds| - 1];
      DecimalIs(h);
      DecimalSnoc(h, ds[|ds| - 1]);
      assert h + [ds[|ds| - 1]] == ds;
    }
  }

  /** Printed numbers are decimal. */
  lemma PrintedDecimal(n: nat)
    ensures Digits(PrintNat(n)) && Decimal(PrintNat(n)) == n
  {
    DecimalIs(PrintNat(n));
  }

  lemma {:induction false} BlankSkipped(mem: string, i: nat, t: string)
    requires Holds(mem, i, t) && BlankText(t)
    ensures SkipSpace(mem, i) == SkipSpace(mem, i + |t|)
    decreases |t|
  {
    if t != "" {
      HoldsAt(mem, i, t, 0);
      assert t == [t[0]] + t[1..];
      HoldsSplit(mem, i, [t[0]], t[1..]);
      BlankSkipped(mem, i + 1, t[1..]);
    }
  }

  /** The text `t` at `i` is blanks, an optional sign, and digits, as many as there are. */
  predicate NumberText(mem: string, i: nat, blanks: string, sign: string, ds: string) {
    && BlankText(blanks) && (sign == "" || sign == "+" || sign == "-") && Digits(ds)
    && Holds(mem, i, blanks + (sign + ds))
    && var c := At(mem, i + |blanks| + |sign| + |ds|);
       !('0' <= c <= '9')
  }

  lemma DigitsFrom(mem: string, k: nat, ds: string)
    requires Holds(mem, k, ds) && Digits(ds) && !('0' <= At(mem, k + |ds|) <= '9')
    ensures DigitsEnd(mem, k) == k + |ds| <= |mem| && mem[k..k + |ds|] == ds
  {
    forall x | k <= x < k + |ds| ensures IsDigit(mem[x]) { HoldsAt(mem, k, ds, x - k); }
    DigitsEndAt(mem, k, k + |ds|);
  }

  lemma SignedStart(mem: string, j: nat, sign: string, ds: string)
    requires Holds(mem, j, sign + ds) && Digits(ds) && (sign == "" || sign == "+" || sign == "-")
    ensures SkipSpace(mem, j) == j && DigitsStart(mem, j) == j + |sign|
    ensures IsNegative(mem, j) <==> sign == "-"
  {
    assert sign == "" ==> sign + ds == ds;
    HoldsAt(mem, j, sign + ds, 0);
  }

  lemma Placed(mem: string, i: nat, blanks: string, sign: string, ds: string)
    requires NumberText(mem, i, blanks, sign, ds)
    ensures var k := i + |blanks| + |sign|;
            && DigitsStart(mem, i) == k && (IsNegative(mem, i) <==> sign == "-")
            && DigitsEnd(mem, k) == k + |ds| <= |mem| && mem[k..k + |ds|] == ds
  {
    hide Holds, BlankText, Digits;
    var j := i + |blanks|;
    HoldsSplit(mem, i, blanks, sign + ds);
    HoldsSplit(mem, j, sign, ds);
    BlankSkipped(mem, i, blanks);
    SignedStart(mem, j, sign, ds);
    DigitsFrom(mem, j + |sign|, ds);
  }

  /** The same number, modulo 2^32, as an `int`. */
  predicate CutDown(v: int, r: int) {
    -0x8000_0000 <= r < 0x8000_0000 && (r - v) % 0x1_0000_0000 == 0
  }

  lemma Narrowed(v: int)
    ensures CutDown(v, ToInt(v))
  {
  }

  lemma StrtolIs(mem: string, i: nat, k: nat, e: nat)
    requires DigitsStart(mem, i) == k < e == DigitsEnd(mem, k)
    ensures k <= e <= |mem|
    ensures var v: int := DigitsValue(mem[k..e]);
            Strtol(mem, i) == Number(ToInt(ClampLong(if IsNegative(mem, i) then -v else v)), e)
    ensures Strtoul(mem, i) == Number(ToInt(ClampULong(IsNegative(mem, i), DigitsValue(mem[k..e]))), e)
  {
    hide DigitsStart, DigitsEnd, IsNegative, ToInt, ClampLong, ClampULong;
  }

  lemma TextScanned(mem: string, i: nat, blanks: string, sign: string, ds: string)
    requires NumberText(mem, i, blanks, sign, ds)
    ensures Decimal(ds) >= 0
    ensures var v, e := Decimal(ds), i + |blanks| + |sign| + |ds|;
            && Strtol(mem, i) == Number(ToInt(ClampLong(if sign == "-" then -v else v)), e)
            && Strtoul(mem, i) == Number(ToInt(ClampULong(sign == "-", v)), e)
  {
    var k := i + |blanks| + |sign|;
    hide Holds, BlankText, Strtol, Strtoul, ToInt, ClampLong, ClampULong;
    Placed(mem, i, blanks, sign, ds);
    DecimalIs(ds);
    hide NumberText, Digits, DigitsStart, DigitsEnd, DigitsValue, Decimal;
    StrtolIs(mem, i, k, k + |ds|);
  }

  /** What the signed number `v` is as a `long` cut down to an `int`. */
  predicate FromLong(v: int, r: int) {
    if v > 0x7fff_ffff_ffff_ffff then r == -1
    else if v < -0x8000_0000_0000_0000 then r == 0
    else CutDown(v, r)
  }

  /** The same for an `unsigned long` and the digits behind the sign. */
  predicate FromULong(neg: bool, v: int, r: int) {
    if v > 0xffff_ffff_ffff_ffff then r == -1 else CutDown(if neg then -v else v, r)
  }

  lemma LongCut(v: int)
    ensures FromLong(v, ToInt(ClampLong(v)))
  {
  }

  lemma ULongCut(neg: bool, v: int)
    requires v >= 0
    ensures FromULong(neg, v, ToInt(ClampULong(neg, v)))
  {
    if v <= 0xffff_ffff_ffff_ffff {
      var n := -v % 0x1_0000_0000_0000_0000;
      assert n == if v == 0 then 0 else 0x1_0000_0000_0000_0000 - v;
      Narrowed(if neg then n else v);
    }
  }

  /** `strtol` gives the decimal number, with its sign, unless that does not fit a `long`:
      then it gives the largest or the smallest `long`, which become -1 and 0 as an `int`. */
  lemma StrtolExact(mem: string, i: nat, blanks: string, sign: string, ds: string)
    requires NumberText(mem, i, blanks, sign, ds)
    ensures var r := Strtol(mem, i);
            && r.end == i + |blanks| + |sign| + |ds|
            && FromLong(if sign == "-" then -Decimal(ds) else Decimal(ds), r.value)
  {
    hide *;
    TextScanned(mem, i, blanks, sign, ds);
    LongCut(if sign == "-" then -Decimal(ds) else Decimal(ds));
  }

  /** `strtoul` gives the decimal number, negated modulo 2^64 behind a minus; the largest
      `unsigned long`, which becomes -1, if the digits denote more than fits. */
  lemma StrtoulExact(mem: string, i: nat, blanks: string, sign: string, ds: string)
    requires NumberText(mem, i, blanks, sign, ds)
    ensures var r := Strtoul(mem, i);
            && r.end == i + |blanks| + |sign| + |ds|
            && FromULong(sign == "-", Decimal(ds), r.value)
  {
    hide *;
    TextScanned(mem, i, blanks, sign, ds);
    ULongCut(sign == "-", Decimal(ds));
  }

  /** Without a digit behind blanks and a sign no number is found, and nothing is consumed. */
  lemma NoNumberExact(mem: string, i: nat, blanks: string, sign: string)
    requires BlankText(blanks) && (sign == "" || sign == "+" || sign == "-")
    requires Holds(mem, i, blanks + sign)
    requires var c := At(mem, i + |blanks| + |sign|);
             !('0' <= c <= '9') && (sign == "" ==> c != ' ' && !('\t' <= c <= '\r') && c != '+' && c != '-')
    ensures Strtol(mem, i) == Number(0, i) == Strtoul(mem, i)
  {
    HoldsSplit(mem, i, blanks, sign);
    BlankSkipped(mem, i, blanks);
    if sign != "" { HoldsAt(mem, i + |blanks|, sign, 0); }
    assert SkipSpace(mem, i) == i + |blanks|;
    assert DigitsStart(mem, i) == i + |blanks| + |sign|;
  }
}
