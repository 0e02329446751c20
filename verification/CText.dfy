/** The C string and character functions the client relies on, over plain sequences. */
module CText {
  const NUL: char := '\0'

  datatype Option<+T> = None | Some(value: T)

  /** The cell `i` places after a pointer; `mem` holds the cells known to follow the
      pointer, and every cell beyond them reads as the terminating NUL. */
  function At(mem: string, i: nat): char {
    if i < |mem| then mem[i] else NUL
  }

  lemma Assoc<T>(a: seq<T>, b: seq<T>, c: seq<T>)
    ensures a + (b + c) == a + b + c
  {
  }

  predicate IsSpace(c: char) { c == ' ' || '\t' <= c <= '\r' }

  predicate IsDigit(c: char) { '0' <= c <= '9' }

  predicate IsAlpha(c: char) { 'a' <= c <= 'z' || 'A' <= c <= 'Z' }

  predicate IsAlnum(c: char) { IsAlpha(c) || IsDigit(c) }

  function Lower(c: char): char {
    if 'A' <= c <= 'Z' then c + ('a' - 'A') else c
  }

  predicate NulFree(s: string) { forall i | 0 <= i < |s| :: s[i] != NUL }

  function NulAt(mem: string, i: nat): (n: nat)
    requires i <= |mem|
    ensures i <= n <= |mem| && At(mem, n) == NUL
    ensures forall j | i <= j < n :: mem[j] != NUL
    decreases |mem| - i
  {
    if i < |mem| && mem[i] != NUL then NulAt(mem, i + 1) else i
  }

  function StrLen(mem: string): nat { NulAt(mem, 0) }

  /** The string a pointer to `mem` denotes. */
  function CStr(mem: string): string { mem[..StrLen(mem)] }

  lemma CStrAt(mem: string, t: string)
    requires NulFree(t) && t <= mem && At(mem, |t|) == NUL
    ensures StrLen(mem) == |t| && CStr(mem) == t
  {
    assert forall i | 0 <= i < |t| :: mem[i] == t[i];
  }

  // ---------------------------------------------------------------- numbers

  /** A scanned number and the offset of the first character after it; `end` equals the
      start offset when there was no digit. */
  datatype Number = Number(value: int, end: nat)

  function SkipSpace(mem: string, i: nat): (j: nat)
    ensures i <= j
    decreases |mem| - i
  {
    if i < |mem| && IsSpace(mem[i]) then SkipSpace(mem, i + 1) else i
  }

  function DigitsEnd(mem: string, i: nat): (j: nat)
    ensures i <= j && (i < j ==> j <= |mem|)
    ensures forall k | i <= k < j :: IsDigit(mem[k])
    ensures !IsDigit(At(mem, j))
    decreases |mem| - i
  {
    if i < |mem| && IsDigit(mem[i]) then DigitsEnd(mem, i + 1) else i
  }

  function DigitsValue(ds: string): nat
    requires forall k | 0 <= k < |ds| :: IsDigit(ds[k])
  {
    if ds == "" then 0
    else
      var d := ds[|ds| - 1];
      assert IsDigit(d);
      10 * DigitsValue(ds[..|ds| - 1]) + (d as int - '0' as int)
  }

  const INT_MIN: int := -0x8000_0000
  const INT_MAX: int := 0x7fff_ffff
  const LONG_MIN: int := -0x8000_0000_0000_0000
  const LONG_MAX: int := 0x7fff_ffff_ffff_ffff
  const ULONG_MAX: int := 0xffff_ffff_ffff_ffff

  predicate IsInt(n: int) { INT_MIN <= n <= INT_MAX }

  /** Conversion of a wider integer to a 32-bit `int`. */
  function ToInt(v: int): (r: int)
    ensures IsInt(r) && (IsInt(v) ==> r == v)
  {
    (v + 0x8000_0000) % 0x1_0000_0000 - 0x8000_0000
  }

  function ClampLong(v: int): int {
    if v < LONG_MIN then LONG_MIN else if v > LONG_MAX then LONG_MAX else v
  }

  /** `strtoul` negates modulo 2^64, and saturates what does not fit. */
  function ClampULong(neg: bool, v: int): int {
    if v > ULONG_MAX then ULONG_MAX else if neg then -v % 0x1_0000_0000_0000_0000 else v
  }

  /** The offset of the first digit `strtol`/`strtoul` would read from `i`. */
  function DigitsStart(mem: string, i: nat): (k: nat)
    ensures i <= k
  {
    var j := SkipSpace(mem, i);
    if At(mem, j) == '-' || At(mem, j) == '+' then j + 1 else j
  }

  predicate IsNegative(mem: string, i: nat) { At(mem, SkipSpace(mem, i)) == '-' }

  /** `(int)strtol(mem + i, &end, 10)` */
  function Strtol(mem: string, i: nat): (r: Number)
    ensures i <= r.end && IsInt(r.value)
  {
    var k := DigitsStart(mem, i);
    var e := DigitsEnd(mem, k);
    if e == k then Number(0, i)
    else
      var v: int := DigitsValue(mem[k..e]);
      Number(ToInt(ClampLong(if IsNegative(mem, i) then -v else v)), e)
  }

  /** `(int)strtoul(mem + i, &end, 10)` */
  function Strtoul(mem: string, i: nat): (r: Number)
    ensures i <= r.end && IsInt(r.value)
  {
    var k := DigitsStart(mem, i);
    var e := DigitsEnd(mem, k);
    if e == k then Number(0, i)
    else Number(ToInt(ClampULong(IsNegative(mem, i), DigitsValue(mem[k..e]))), e)
  }

  /** `printf("%d")` */
  function PrintNat(n: nat): (s: string)
    ensures s != "" && forall i | 0 <= i < |s| :: IsDigit(s[i])
    ensures DigitsValue(s) == n
  {
    if n < 10 then
      var s := ['0' + n as char];
      assert s[..|s| - 1] == "";
      s
    else
      var p := PrintNat(n / 10);
      var s := p + ['0' + (n % 10) as char];
      assert s[..|s| - 1] == p;
      s
  }

  function PrintInt(n: int): (s: string)
    ensures s != "" && NulFree(s)
    ensures forall i | 0 <= i < |s| :: IsDigit(s[i]) || s[i] == '-'
  {
    if n < 0 then "-" + PrintNat(-n) else PrintNat(n)
  }

  function Pow10(k: nat): nat { if k == 0 then 1 else 10 * Pow10(k - 1) }

  lemma {:induction false} PrintedShort(n: nat, k: nat)
    requires k > 0 && n < Pow10(k)
    ensures |PrintNat(n)| <= k
    decreases k
  {
    if n >= 10 {
      assert k > 1;
      PrintedShort(n / 10, k - 1);
    }
  }

  lemma PrintedIntShort(n: int)
    requires IsInt(n)
    ensures |PrintInt(n)| <= 11
  {
    assert Pow10(10) == 10_000_000_000 by { assert Pow10(5) == 100_000; }
    hide PrintNat, Pow10;
    PrintedShort(if n < 0 then -n else n, 10);
  }

  /** What a record parser makes of the memory it is pointed at: the record, or NULL, and
      the offset it stopped at. */
  datatype Conv<+T> = Conv(data: Option<T>, end: nat)

  // ------------------------------------------- text placed inside a memory

  /** The text `t` lies in `mem` from offset `i` on. */
  predicate Holds(mem: string, i: nat, t: string) {
    i + |t| <= |mem| && mem[i..i + |t|] == t
  }

  lemma HoldsSplit(mem: string, i: nat, a: string, b: string)
    ensures Holds(mem, i, a + b) <==> Holds(mem, i, a) && Holds(mem, i + |a|, b)
  {
    if i + |a + b| <= |mem| {
      var m := mem[i..i + |a + b|];
      assert m[..|a|] == mem[i..i + |a|] && m[|a|..] == mem[i + |a|..i + |a| + |b|];
      assert m == m[..|a|] + m[|a|..];
      assert (a + b)[..|a|] == a && (a + b)[|a|..] == b;
    }
  }

  lemma HoldsAt(mem: string, i: nat, t: string, k: nat)
    requires Holds(mem, i, t) && k < |t|
    ensures At(mem, i + k) == t[k]
  {
    assert mem[i..i + |t|][k] == t[k];
  }

  /** Texts with commas between them. */
  function Joined(ts: seq<string>): string {
    if ts == [] then "" else if |ts| == 1 then ts[0] else ts[0] + ("," + Joined(ts[1..]))
  }

  /** The first of the texts and what follows it. */
  lemma JoinedFirst(mem: string, i: nat, ts: seq<string>)
    requires ts != [] && Holds(mem, i, Joined(ts))
    ensures Holds(mem, i, ts[0]) && (|ts| == 1 ==> Joined(ts) == ts[0])
    ensures |ts| > 1 ==>
              && At(mem, i + |ts[0]|) == ',' && Holds(mem, i + |ts[0]| + 1, Joined(ts[1..]))
              && |Joined(ts)| == |ts[0]| + 1 + |Joined(ts[1..])|
  {
    hide Holds;
    if |ts| > 1 {
      HoldsSplit(mem, i, ts[0], "," + Joined(ts[1..]));
      HoldsSplit(mem, i + |ts[0]|, ",", Joined(ts[1..]));
      HoldsAt(mem, i + |ts[0]|, ",", 0);
    }
  }

  lemma HoldsWhole(t: string)
    ensures Holds(t, 0, t) && At(t, |t|) == NUL
  {
  }

  lemma DigitsEndAt(mem: string, i: nat, j: nat)
    requires i <= j <= |mem| && !IsDigit(At(mem, j))
    requires forall k | i <= k < j :: IsDigit(mem[k])
    ensures DigitsEnd(mem, i) == j
  {
    var e := DigitsEnd(mem, i);
    assert e < |mem| ==> !IsDigit(mem[e]);
  }

  /** Scanning undoes printing, wherever the digits stand and whatever follows them. */
  lemma ScanPrinted(mem: string, i: nat, n: int)
    requires Holds(mem, i, PrintInt(n)) && !IsDigit(At(mem, i + |PrintInt(n)|))
    ensures IsInt(n) ==> Strtol(mem, i) == Number(n, i + |PrintInt(n)|)
    ensures 0 <= n <= INT_MAX ==> Strtoul(mem, i) == Number(n, i + |PrintInt(n)|)
  {
    var t := PrintInt(n);
    var j := i + |t|;
    var k := if n < 0 then i + 1 else i;
    HoldsAt(mem, i, t, 0);
    assert SkipSpace(mem, i) == i;
    assert DigitsStart(mem, i) == k;
    if n < 0 { HoldsSplit(mem, i, "-", PrintNat(-n)); }
    var ds := if n < 0 then PrintNat(-n) else t;
    assert mem[k..j] == ds;
    forall x | k <= x < j ensures IsDigit(mem[x]) { assert mem[x] == mem[k..j][x - k]; }
    DigitsEndAt(mem, k, j);
  }

  /** One blank in front of a number does not matter. */
  lemma ScanBlank(mem: string, i: nat, n: int)
    requires At(mem, i) == ' ' && Holds(mem, i + 1, PrintInt(n)) && IsInt(n)
    requires !IsDigit(At(mem, i + 1 + |PrintInt(n)|))
    ensures Strtol(mem, i) == Number(n, i + 1 + |PrintInt(n)|)
  {
    hide PrintInt;
    ScanPrinted(mem, i + 1, n);
    assert SkipSpace(mem, i) == SkipSpace(mem, i + 1);
  }

  lemma ScanNothing(mem: string, i: nat)
    requires At(mem, i) == NUL
    ensures Strtol(mem, i) == Number(0, i) == Strtoul(mem, i)
  {
  }

  lemma DigitsLocal(t: string, junk: string, k: nat)
    requires k <= |t|
    ensures DigitsEnd(t + [NUL] + junk, k) == DigitsEnd(t, k) <= |t|
  {
    var m, e := t + [NUL] + junk, DigitsEnd(t, k);
    assert forall x | k <= x < e :: m[x] == t[x];
    assert At(m, e) == At(t, e);
    DigitsEndAt(m, k, e);
  }

  lemma {:induction false} SkipLocal(t: string, junk: string, i: nat)
    requires NulFree(t) && i <= |t|
    ensures SkipSpace(t + [NUL] + junk, i) == SkipSpace(t, i) <= |t|
    decreases |t| - i
  {
    var m := t + [NUL] + junk;
    assert At(m, i) == At(t, i);
    if i < |t| && IsSpace(t[i]) {
      SkipLocal(t, junk, i + 1);
    }
  }

  /** What a scan sees does not depend on the memory after the terminator of the string. */
  lemma ScanLocal(t: string, junk: string, i: nat)
    requires NulFree(t) && i <= |t|
    ensures Strtol(t + [NUL] + junk, i) == Strtol(t, i) && Strtol(t, i).end <= |t|
  {
    var m := t + [NUL] + junk;
    SkipLocal(t, junk, i);
    assert At(m, SkipSpace(t, i)) == At(t, SkipSpace(t, i));
    var k := DigitsStart(t, i);
    assert DigitsStart(m, i) == k <= |t|;
    DigitsLocal(t, junk, k);
    var e := DigitsEnd(t, k);
    assert m[k..e] == t[k..e];
  }
}
