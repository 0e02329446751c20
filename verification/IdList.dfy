/** Lists of ids with a cursor, and the text they are given as: ids and ranges. */
module IdList {
  import opened CText

  function IdAt(ids: seq<int>, i: nat): int { if i < |ids| then ids[i] else -1 }

  /** The ids from `from` to `to`, both included. */
  function UpTo(from: int, to: int): (s: seq<int>)
    ensures |s| == if from <= to then to - from + 1 else 0
    ensures forall i | 0 <= i < |s| :: s[i] == from + i
    decreases if from <= to then to - from + 1 else 0
  {
    if from > to then [] else UpTo(from, to - 1) + [to]
  }

  function SkipComma(mem: string, i: nat): nat { if At(mem, i) == ',' then i + 1 else i }

  /** The ids of the item at `i` and where the next one starts; None if it is wrong. */
  function ItemAt(mem: string, i: nat): Option<(seq<int>, nat)> {
    var id1 := Strtoul(mem, i);
    if At(mem, id1.end) != '-' then Some(([id1.value], SkipComma(mem, id1.end)))
    else
      var id2 := Strtoul(mem, id1.end + 1);
      if id2.end == id1.end + 1 || id2.value <= id1.value then None
      else Some((UpTo(id1.value, id2.value), SkipComma(mem, id2.end)))
  }

  lemma ItemAdvances(mem: string, i: nat)
    requires IsDigit(At(mem, i))
    ensures i < Strtoul(mem, i).end && i < |mem|
    ensures ItemAt(mem, i).Some? ==> i < ItemAt(mem, i).value.1
  {
    assert SkipSpace(mem, i) == i;
  }

  /** The list after reading items from `i` on, and the offset behind the last one; None if
      an item is wrong. */
  function ListFrom(mem: string, i: nat, ids: seq<int>): (seq<int>, Option<nat>)
    decreases |mem| - i
  {
    if !IsDigit(At(mem, i)) then (ids, Some(i))
    else
      ItemAdvances(mem, i);
      match ItemAt(mem, i)
      case None => (ids, None)
      case Some((more, next)) => ListFrom(mem, next, ids + more)
  }

  lemma ListUnfold(mem: string, i: nat, ids: seq<int>)
    ensures !IsDigit(At(mem, i)) ==> ListFrom(mem, i, ids) == (ids, Some(i))
    ensures IsDigit(At(mem, i)) ==>
              var it := ItemAt(mem, i);
              && i < |mem| && (it.Some? ==> i < it.value.1)
              && ListFrom(mem, i, ids) == if it.None? then (ids, None)
                                          else ListFrom(mem, it.value.1, ids + it.value.0)
  {
    if IsDigit(At(mem, i)) { ItemAdvances(mem, i); }
  }

  class IdList {
    var ids: seq<int>
    var cur: nat

    constructor ()
      ensures ids == [] && cur == 0
    {
      ids, cur := [], 0;
    }

    method Add(id: int)
      modifies this`ids
      ensures ids == old(ids) + [id]
    {
      ids := ids + [id];
    }

    /** The id under the cursor, or -1 behind the end. */
    method Cur() returns (id: int)
      ensures id == IdAt(ids, cur)
    {
      if cur < |ids| { return ids[cur]; }
      return -1;
    }

    method Begin() returns (id: int)
      modifies this`cur
      ensures cur == 0 && id == IdAt(ids, cur)
    {
      cur := 0;
      id := Cur();
    }

    method Next() returns (id: int)
      modifies this`cur
      ensures cur == old(cur) + 1 && id == IdAt(ids, cur)
    {
      cur := cur + 1;
      id := Cur();
    }

    /** Appends the ids a list text names. When an item is wrong nothing is reported as
        consumed, but the ids of the items before it stay in the list. */
    method AddList(list: string) returns (added: nat, end: nat)
      modifies this`ids
      ensures var (all, ok) := ListFrom(list, 0, old(ids));
              && ids == all
              && added == (if ok.Some? then |ids| - |old(ids)| else 0)
              && end == (if ok.Some? then ok.value else 0)
    {
      hide Strtoul, ListFrom, UpTo;
      var tok := 0;
      added, end := 0, 0;
      while IsDigit(At(list, tok))
        invariant |ids| == |old(ids)| + added
        invariant ListFrom(list, tok, ids) == ListFrom(list, 0, old(ids))
        decreases |list| - tok
      {
        ListUnfold(list, tok, ids);
        ghost var before, start := ids, tok;
        var id1 := Strtoul(list, tok);
        tok := id1.end;
        if At(list, tok) == '-' {
          tok := tok + 1;
          var id2 := Strtoul(list, tok);
          if id2.end == tok { return 0, 0; }
          tok := id2.end;
          if id2.value <= id1.value { return 0, 0; }
          added := AddRange(id1.value, id2.value, added);
        } else {
          Add(id1.value);
          added := added + 1;
        }
        if At(list, tok) == ',' { tok := tok + 1; }
        assert ItemAt(list, start) == Some((ids[|before|..], tok));
      }
      ListUnfold(list, tok, ids);
      end := tok;
    }

    method AddRange(from: int, to: int, added: nat) returns (total: nat)
      requires from < to
      modifies this`ids
      ensures ids == old(ids) + UpTo(from, to) && total == added + |UpTo(from, to)|
    {
      var id := from;
      total := added;
      while id <= to
        invariant from <= id <= to + 1
        invariant ids == old(ids) + UpTo(from, id - 1) && total == added + (id - from)
      {
        Add(id);
        total := total + 1;
        id := id + 1;
      }
    }
  }

  // ------------------------------------------------------------------ what lists mean

  datatype Item = Id(id: nat) | Range(from: nat, to: nat)

  function ItemText(it: Item): string {
    match it
    case Id(id) => PrintNat(id)
    case Range(from, to) => PrintNat(from) + "-" + PrintNat(to)
  }

  function Texts(its: seq<Item>): seq<string> {
    seq(|its|, i requires 0 <= i < |its| => ItemText(its[i]))
  }

  function ListText(its: seq<Item>): string { Joined(Texts(its)) }

  function Expansion(it: Item): seq<int> {
    match it
    case Id(id) => [id]
    case Range(from, to) => seq(if from <= to then to - from + 1 else 0, i => from + i)
  }

  function Expansions(its: seq<Item>): seq<int> {
    if its == [] then [] else Expansion(its[0]) + Expansions(its[1..])
  }

  predicate Bounded(it: Item) {
    match it
    case Id(id) => id <= INT_MAX
    case Range(from, to) => from <= INT_MAX && to < INT_MAX
  }

  predicate Good(it: Item) { Bounded(it) && (it.Range? ==> it.from < it.to) }

  predicate AllGood(its: seq<Item>) { forall i | 0 <= i < |its| :: Good(its[i]) }

  /** What may follow an item without being taken for a part of it. */
  predicate EndsItem(c: char) { !IsDigit(c) && c != '-' }

  lemma DigitFirst(mem: string, i: nat, t: string)
    requires Holds(mem, i, t) && t != "" && IsDigit(t[0])
    ensures IsDigit(At(mem, i))
  {
    HoldsAt(mem, i, t, 0);
  }

  lemma ItemScanned(mem: string, i: nat, it: Item)
    requires Bounded(it) && Holds(mem, i, ItemText(it))
    requires EndsItem(At(mem, i + |ItemText(it)|))
    ensures IsDigit(At(mem, i))
    ensures ItemAt(mem, i) == if Good(it) then Some((Expansion(it), SkipComma(mem, i + |ItemText(it)|)))
                              else None
  {
    hide Strtoul, Holds, PrintNat, Strtol;
    match it
    case Id(id) =>
      DigitFirst(mem, i, PrintNat(id));
      ScanPrinted(mem, i, id);
    case Range(from, to) =>
      assert Expansion(it) == UpTo(from, to);
      HoldsSplit(mem, i, PrintNat(from) + "-", PrintNat(to));
      HoldsSplit(mem, i, PrintNat(from), "-");
      HoldsAt(mem, i + |PrintNat(from)|, "-", 0);
      DigitFirst(mem, i, PrintNat(from));
      ScanPrinted(mem, i, from);
      ScanPrinted(mem, i + |PrintNat(from)| + 1, to);
  }

  /** The text of the first item, followed by what ends it. */
  lemma FirstItem(mem: string, i: nat, its: seq<Item>)
    requires its != [] && Holds(mem, i, ListText(its))
    requires EndsItem(At(mem, i + |ListText(its)|))
    ensures var t := ItemText(its[0]);
            && Holds(mem, i, t) && EndsItem(At(mem, i + |t|))
            && (|its| == 1 ==> ListText(its) == t)
            && (|its| > 1 ==> At(mem, i + |t|) == ',' && Holds(mem, i + |t| + 1, ListText(its[1..]))
                              && i + |t| + 1 + |ListText(its[1..])| == i + |ListText(its)|)
  {
    hide Holds, ItemText, Joined;
    JoinedFirst(mem, i, Texts(its));
    assert Texts(its)[1..] == Texts(its[1..]);
  }

  /** Every list of ids and increasing ranges is read as the ids it stands for, in order,
      and to its end; one comma behind it is taken for a part of it. */
  lemma {:induction false} ListExact(mem: string, i: nat, its: seq<Item>, ids: seq<int>)
    requires its != [] && AllGood(its) && Holds(mem, i, ListText(its))
    requires var c := At(mem, i + |ListText(its)|);
             EndsItem(c) && (c == ',' ==> !IsDigit(At(mem, i + |ListText(its)| + 1)))
    ensures var end := i + |ListText(its)|;
            ListFrom(mem, i, ids) == (ids + Expansions(its), Some(if At(mem, end) == ',' then end + 1 else end))
    decreases |its|
  {
    hide ItemAt, ItemText, ListText, Holds, Expansion;
    FirstItem(mem, i, its);
    ItemScanned(mem, i, its[0]);
    var j := i + |ItemText(its[0])|;
    if |its| == 1 {
      assert Expansions(its) == Expansion(its[0]) by { assert its[1..] == []; }
    } else {
      ListExact(mem, j + 1, its[1..], ids + Expansion(its[0]));
      assert ids + Expansion(its[0]) + Expansions(its[1..]) == ids + Expansions(its);
    }
  }

  /** A range that does not increase makes the list wrong, whatever follows it; the items
      before it have been added by then. */
  lemma {:induction false} BadRange(mem: string, i: nat, its: seq<Item>, bad: Item, ids: seq<int>)
    requires AllGood(its) && bad.Range? && Bounded(bad) && bad.to <= bad.from
    requires Holds(mem, i, ListText(its + [bad])) && EndsItem(At(mem, i + |ListText(its + [bad])|))
    ensures ListFrom(mem, i, ids) == (ids + Expansions(its), None)
    decreases |its|
  {
    hide ItemAt, ItemText, ListText, Holds, Expansion;
    FirstItem(mem, i, its + [bad]);
    ItemScanned(mem, i, (its + [bad])[0]);
    if its == [] {
      assert ids + Expansions(its) == ids;
    } else {
      assert (its + [bad])[1..] == its[1..] + [bad];
      var j := i + |ItemText(its[0])|;
      BadRange(mem, j + 1, its[1..], bad, ids + Expansion(its[0]));
      assert ids + Expansion(its[0]) + Expansions(its[1..]) == ids + Expansions(its);
    }
  }

  /** A range without a second number, or one that does not increase. */
  predicate WrongAt(mem: string, i: nat) {
    var id1 := Strtoul(mem, i);
    IsDigit(At(mem, i)) && At(mem, id1.end) == '-'
    && var id2 := Strtoul(mem, id1.end + 1);
       id2.end == id1.end + 1 || id2.value <= id1.value
  }

  /** Reading from `i` on comes to an item at `p`. */
  predicate Reached(mem: string, i: nat, p: nat)
    decreases |mem| - i
  {
    p == i
    || (IsDigit(At(mem, i)) && ItemAt(mem, i).Some?
        && (ItemAdvances(mem, i); Reached(mem, ItemAt(mem, i).value.1, p)))
  }

  /** On any text, reading fails if and only if it comes to a wrong range. */
  lemma {:induction false} FailsIff(mem: string, i: nat, ids: seq<int>)
    ensures ListFrom(mem, i, ids).1.None? <==> exists p :: WrongAt(mem, p) && Reached(mem, i, p)
    decreases |mem| - i
  {
    hide Strtoul, UpTo;
    ListUnfold(mem, i, ids);
    if IsDigit(At(mem, i)) && ItemAt(mem, i).Some? {
      var (more, next) := ItemAt(mem, i).value;
      FailsIff(mem, next, ids + more);
      if p :| WrongAt(mem, p) && Reached(mem, next, p) {
        assert Reached(mem, i, p);
      }
      if p :| WrongAt(mem, p) && Reached(mem, i, p) {
        assert p != i;
      }
    } else if IsDigit(At(mem, i)) {
      assert WrongAt(mem, i) && Reached(mem, i, i);
    }
  }

  lemma EndsAtNul()
    ensures EndsItem(NUL) && NUL != ','
  {
  }

  /** For a text that is just the list, as `AddList` is given it. */
  lemma ListMeaning(its: seq<Item>, ids: seq<int>)
    requires its != [] && AllGood(its)
    ensures ListFrom(ListText(its), 0, ids) == (ids + Expansions(its), Some(|ListText(its)|))
  {
    hide *;
    HoldsWhole(ListText(its));
    EndsAtNul();
    ListExact(ListText(its), 0, its, ids);
  }
}
