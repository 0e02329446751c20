/** Plain comma-separated lists of users and of tags. */
module ItemList {
  import opened CText
  import IdList
  import opened Lookup

  /** `val_user` and `val_tag`: the two kinds of items that come in plain lists. */
  datatype Kind = User | Tag

  predicate EndsWord(c: char) { c == NUL || c == '\t' || c == ' ' }

  function WordEnd(mem: string, i: nat): (e: nat)
    ensures i <= e && EndsWord(At(mem, e)) && (i <= |mem| ==> e <= |mem|)
    ensures forall k | i <= k < e :: k < |mem| && !EndsWord(mem[k])
    decreases |mem| - i
  {
    if i < |mem| && !EndsWord(mem[i]) then WordEnd(mem, i + 1) else i
  }

  const MAX_TAG: nat := 10

  function ScanItem(s: Server, kind: Kind, mem: string, i: nat, asked: seq<Question>): Scan {
    var n := Strtoul(mem, i);
    if kind == User || n.end != i then Scan(n.value, n.end, asked)
    else
      var e := WordEnd(mem, i);
      if e - i >= MAX_TAG || i > |mem| then Scan(-1, i, asked)
      else
        assert e <= |mem|;
        var id := s.tagId(|asked|, mem[i..e]);
        Scan(if id < 0 then -1 else id, if id < 0 then i else e, asked + [TagId(mem[i..e])])
  }

  /** `val_user`, `val_tag` */
  method ValItem(link: Link, kind: Kind, mem: string, i: nat) returns (id: int, end: nat)
    requires i <= |mem|
    modifies link
    ensures var r := ScanItem(link.server, kind, mem, i, old(link.asked));
            id == r.value && end == r.end && link.asked == r.asked
  {
    var n := Strtoul(mem, i);
    if kind == User || n.end != i { return n.value, n.end; }
    var e := WordEnd(mem, i);
    if e - i >= MAX_TAG { return -1, i; }
    id := link.TagToId(mem[i..e]);
    if id < 0 { return -1, i; }
    end := e;
  }

  /** Reads items from `i` on: the list, the offset behind the last item or None, and the
      questions asked. */
  function ItemsFrom(s: Server, kind: Kind, mem: string, i: nat, ids: seq<int>, asked: seq<Question>)
    : (seq<int>, Option<nat>, seq<Question>)
    decreases |mem| - i
  {
    var r := ScanItem(s, kind, mem, i, asked);
    if r.end <= i then (ids, None, r.asked)
    else if At(mem, r.end) != ',' then (ids + [r.value], Some(r.end), r.asked)
    else ItemsFrom(s, kind, mem, r.end + 1, ids + [r.value], r.asked)
  }

  lemma ScanItemBounds(s: Server, kind: Kind, mem: string, i: nat, asked: seq<Question>)
    requires i <= |mem|
    ensures i <= ScanItem(s, kind, mem, i, asked).end
  {
  }

  /** `idl_addclist`: when an item is wrong nothing is reported as consumed, but the items
      before it stay in the list. */
  method AddItems(idl: IdList.IdList, link: Link, kind: Kind, list: string) returns (added: nat, end: nat)
    modifies idl`ids, link
    ensures var (ids, e, asked) := ItemsFrom(link.server, kind, list, 0, old(idl.ids), old(link.asked));
            && idl.ids == ids && link.asked == asked
            && added == (if e.None? then 0 else |ids| - |old(idl.ids)|)
            && end == (if e.None? then 0 else e.value)
  {
    hide ScanItem;
    var ntok := 0;
    added, end := 0, 0;
    while true
      invariant ntok <= |list| && |idl.ids| == |old(idl.ids)| + added
      invariant ItemsFrom(link.server, kind, list, ntok, idl.ids, link.asked)
                == ItemsFrom(link.server, kind, list, 0, old(idl.ids), old(link.asked))
      decreases |list| - ntok
    {
      ScanItemBounds(link.server, kind, list, ntok, link.asked);
      var id, e := ValItem(link, kind, list, ntok);
      if e == ntok { return 0, 0; }
      idl.Add(id);
      added := added + 1;
      if At(list, e) != ',' { return added, e; }
      ntok := e + 1;
    }
  }

  // ---------------------------------------------------------------- what lists mean

  /** An item of a list as it is documented: an id, or the name of a tag. */
  datatype Item = Id(id: nat) | Name(name: string)

  predicate IsWord(t: string) {
    t != "" && forall i | 0 <= i < |t| :: t[i] != NUL && t[i] != ',' && !IsSpace(t[i])
  }

  predicate Proper(it: Item) {
    match it
    case Id(id) => id <= INT_MAX
    case Name(name) => IsWord(name)
  }

  predicate AllProper(its: seq<Item>) { forall i | 0 <= i < |its| :: Proper(its[i]) }

  function Text(it: Item): string {
    match it
    case Id(id) => PrintNat(id)
    case Name(name) => name
  }

  function Texts(its: seq<Item>): seq<string> {
    seq(|its|, i requires 0 <= i < |its| => Text(its[i]))
  }

  function ListText(its: seq<Item>): string { Joined(Texts(its)) }

  /** What a list stands for, item by item: ids as they are, names looked up in their order.
      The list so far, whether all was well, and the questions asked. */
  function Meant(s: Server, its: seq<Item>, ids: seq<int>, asked: seq<Question>)
    : (seq<int>, bool, seq<Question>)
    decreases |its|
  {
    if its == [] then (ids, true, asked)
    else
      match its[0]
      case Id(id) => Meant(s, its[1..], ids + [id], asked)
      case Name(name) =>
        var id := s.tagId(|asked|, name);
        if id < 0 then (ids, false, asked + [TagId(name)])
        else Meant(s, its[1..], ids + [id], asked + [TagId(name)])
  }

  /** What reading the list must give if it stands for `m`. */
  function Delivered(m: (seq<int>, bool, seq<Question>), end: nat): (seq<int>, Option<nat>, seq<Question>) {
    (m.0, if m.1 then Some(end) else None, m.2)
  }

  /** The beginning of the word would be taken for a number. */
  predicate NumberLike(name: string) { Strtoul(name, 0).end != 0 }

  predicate Readable(name: string) { |name| < 10 && !NumberLike(name) }

  /** A blank, a tab or the end of the string. */
  predicate Gap(c: char) { c == ' ' || c == '\t' || c == '\0' }

  /** All items but the last are ids, and the last one is an id, or a name that is short and
      not number-like. */
  predicate ItemWise(its: seq<Item>) {
    && (forall i | 0 <= i < |its| - 1 :: its[i].Id?)
    && (its != [] && its[|its| - 1].Name? ==> Readable(its[|its| - 1].name))
  }

  lemma FirstItem(mem: string, i: nat, its: seq<Item>)
    requires its != [] && Holds(mem, i, ListText(its))
    ensures var t := Text(its[0]);
            && Holds(mem, i, t) && (|its| == 1 ==> ListText(its) == t)
            && (|its| > 1 ==> At(mem, i + |t|) == ',' && Holds(mem, i + |t| + 1, ListText(its[1..]))
                              && |ListText(its)| == |t| + 1 + |ListText(its[1..])|)
  {
    hide Holds, Text, Joined;
    JoinedFirst(mem, i, Texts(its));
    assert Texts(its)[1..] == Texts(its[1..]);
  }

  lemma ItemsUnfold(s: Server, kind: Kind, mem: string, i: nat, ids: seq<int>, asked: seq<Question>)
    ensures var r := ScanItem(s, kind, mem, i, asked);
            ItemsFrom(s, kind, mem, i, ids, asked)
            == if r.end <= i then (ids, None, r.asked)
               else if At(mem, r.end) != ',' then (ids + [r.value], Some(r.end), r.asked)
               else ItemsFrom(s, kind, mem, r.end + 1, ids + [r.value], r.asked)
  {
    hide ScanItem;
  }

  lemma IdScanned(s: Server, kind: Kind, mem: string, i: nat, id: nat, asked: seq<Question>)
    requires id <= INT_MAX && Holds(mem, i, PrintNat(id)) && !IsDigit(At(mem, i + |PrintNat(id)|))
    ensures ScanItem(s, kind, mem, i, asked) == Scan(id, i + |PrintNat(id)|, asked)
  {
    hide Strtoul, Holds;
    ScanPrinted(mem, i, id);
  }

  /** A list of ids is read as these ids, and to its end, as users and as tags. */
  lemma {:induction false} IdItemsExact(s: Server, kind: Kind, mem: string, i: nat, its: seq<Item>,
                                        ids: seq<int>, asked: seq<Question>)
    requires its != [] && AllProper(its) && (forall k | 0 <= k < |its| :: its[k].Id?)
    requires Holds(mem, i, ListText(its))
    requires var c := At(mem, i + |ListText(its)|);
             !IsDigit(c) && c != ','
    ensures ItemsFrom(s, kind, mem, i, ids, asked)
            == Delivered(Meant(s, its, ids, asked), i + |ListText(its)|)
    decreases |its|
  {
    hide Holds, ScanItem, ItemsFrom, ListText;
    FirstItem(mem, i, its);
    var id := its[0].id;
    assert Proper(its[0]);
    ItemsUnfold(s, kind, mem, i, ids, asked);
    IdScanned(s, kind, mem, i, id, asked);
    if |its| == 1 {
      assert its[1..] == [];
    } else {
      IdItemsExact(s, kind, mem, i + |PrintNat(id)| + 1, its[1..], ids + [id], asked);
    }
  }

  function Numbers(its: seq<Item>): seq<int>
    requires forall k | 0 <= k < |its| :: its[k].Id?
  {
    seq(|its|, i requires 0 <= i < |its| => its[i].id)
  }

  lemma NumbersFirst(its: seq<Item>, ids: seq<int>)
    requires its != [] && forall k | 0 <= k < |its| :: its[k].Id?
    ensures ids + [its[0].id] + Numbers(its[1..]) == ids + Numbers(its)
  {
  }

  /** The list stands at `i` with a comma behind it, or is empty; `end` is behind that. */
  predicate UsersThen(mem: string, i: nat, its: seq<Item>, end: nat) {
    if its == [] then end == i
    else Holds(mem, i, ListText(its)) && At(mem, i + |ListText(its)|) == ',' && end == i + |ListText(its)| + 1
  }

  lemma UserFirst(s: Server, mem: string, i: nat, its: seq<Item>, end: nat, ids: seq<int>, asked: seq<Question>)
    requires its != [] && AllProper(its) && its[0].Id? && UsersThen(mem, i, its, end)
    ensures var j := i + |Text(its[0])| + 1;
            && ItemsFrom(s, User, mem, i, ids, asked) == ItemsFrom(s, User, mem, j, ids + [its[0].id], asked)
            && UsersThen(mem, j, its[1..], end)
  {
    hide Holds, ItemsFrom, ListText, ScanItem;
    FirstItem(mem, i, its);
    assert Proper(its[0]) && Text(its[0]) == PrintNat(its[0].id);
    IdScanned(s, User, mem, i, its[0].id, asked);
    ItemsUnfold(s, User, mem, i, ids, asked);
  }

  lemma NoUsers(s: Server, mem: string, i: nat, end: nat, ids: seq<int>, asked: seq<Question>)
    requires UsersThen(mem, i, [], end) && Strtoul(mem, end).end == end
    ensures ItemsFrom(s, User, mem, i, ids, asked) == (ids + Numbers([]), None, asked)
  {
    hide Strtoul;
    ItemsUnfold(s, User, mem, i, ids, asked);
    assert ids + Numbers([]) == ids;
  }

  lemma RestProper(its: seq<Item>)
    requires AllProper(its) && its != []
    ensures AllProper(its[1..])
  {
  }

  /** A list of users that goes on with something else than a number is wrong: nothing is
      reported as consumed, but the ids before it stay added, and nothing is asked. */
  lemma {:induction false} UsersWrong(s: Server, mem: string, i: nat, its: seq<Item>, end: nat,
                                      ids: seq<int>, asked: seq<Question>)
    requires AllProper(its) && (forall k | 0 <= k < |its| :: its[k].Id?)
    requires UsersThen(mem, i, its, end) && Strtoul(mem, end).end == end
    ensures ItemsFrom(s, User, mem, i, ids, asked) == (ids + Numbers(its), None, asked)
    decreases |its|
  {
    hide *;
    if its == [] {
      NoUsers(s, mem, i, end, ids, asked);
    } else {
      UserFirst(s, mem, i, its, end, ids, asked);
      RestProper(its);
      NumbersFirst(its, ids);
      UsersWrong(s, mem, i + |Text(its[0])| + 1, its[1..], end, ids + [its[0].id], asked);
    }
  }

  // ---------------------------------------------------------- when tag lists are read so

  /** The text of a list holds no blank. */
  lemma {:induction false} TextUnbroken(its: seq<Item>)
    requires AllProper(its)
    ensures forall k | 0 <= k < |ListText(its)| :: !Gap(ListText(its)[k])
    decreases |its|
  {
    if its != [] {
      var t, n := Text(its[0]), |Text(its[0])|;
      assert Proper(its[0]) && Texts(its)[0] == t;
      assert forall k | 0 <= k < n :: !Gap(t[k]);
      if |its| > 1 {
        assert Texts(its)[1..] == Texts(its[1..]);
        assert ListText(its) == t + ("," + ListText(its[1..]));
        TextUnbroken(its[1..]);
        forall k | 0 <= k < |ListText(its)| ensures !Gap(ListText(its)[k]) {
          if k > n { assert ListText(its)[k] == ListText(its[1..])[k - n - 1]; }
        }
      }
    }
  }

  /** Where the digits of a number at `i` would start, if there is no blank. */
  function Sign(mem: string, i: nat): nat { if At(mem, i) == '-' || At(mem, i) == '+' then 1 else 0 }

  lemma NumberIff(mem: string, i: nat)
    requires !IsSpace(At(mem, i))
    ensures Strtoul(mem, i).end != i <==> IsDigit(At(mem, i + Sign(mem, i)))
  {
    assert SkipSpace(mem, i) == i;
    var k := i + Sign(mem, i);
    assert DigitsStart(mem, i) == k;
  }

  /** Whether a word is number-like does not depend on where it stands. */
  lemma NumberLikeAt(mem: string, i: nat, name: string)
    requires IsWord(name) && Holds(mem, i, name) && !IsDigit(At(mem, i + |name|))
    ensures Strtoul(mem, i).end != i <==> NumberLike(name)
  {
    hide Strtoul, Holds;
    HoldsAt(mem, i, name, 0);
    NumberIff(name, 0);
    NumberIff(mem, i);
    if Sign(mem, i) < |name| { HoldsAt(mem, i, name, Sign(mem, i)); }
  }

  lemma WordEndIs(mem: string, i: nat, t: string)
    requires Holds(mem, i, t) && Gap(At(mem, i + |t|))
    requires forall k | 0 <= k < |t| :: !Gap(t[k])
    ensures WordEnd(mem, i) == i + |t| <= |mem| && mem[i..i + |t|] == t
  {
    forall k | i <= k < i + |t| ensures !Gap(mem[k]) { HoldsAt(mem, i, t, k - i); }
    var e := WordEnd(mem, i);
  }

  /** A text without blanks that is not number-like is taken for one name, with all commas;
      it is looked up if it is short. */
  lemma NameScanned(s: Server, mem: string, i: nat, t: string, ids: seq<int>, asked: seq<Question>)
    requires Holds(mem, i, t) && t != "" && Gap(At(mem, i + |t|))
    requires (forall k | 0 <= k < |t| :: !Gap(t[k])) && Strtoul(mem, i).end == i
    ensures var id := s.tagId(|asked|, t);
            ItemsFrom(s, Tag, mem, i, ids, asked)
            == if |t| >= 10 then (ids, None, asked)
               else if id < 0 then (ids, None, asked + [TagId(t)])
               else (ids + [id], Some(i + |t|), asked + [TagId(t)])
  {
    hide Strtoul, Holds;
    WordEndIs(mem, i, t);
    ItemsUnfold(s, Tag, mem, i, ids, asked);
  }

  lemma {:induction false} ItemsGrow(s: Server, kind: Kind, mem: string, i: nat, ids: seq<int>,
                                     asked: seq<Question>)
    ensures |ItemsFrom(s, kind, mem, i, ids, asked).0| >= |ids|
    decreases |mem| - i
  {
    hide ScanItem;
    ItemsUnfold(s, kind, mem, i, ids, asked);
    var r := ScanItem(s, kind, mem, i, asked);
    if r.end > i && At(mem, r.end) == ',' { ItemsGrow(s, kind, mem, r.end + 1, ids + [r.value], r.asked); }
  }

  /** A server that knows no tag. */
  function Ignorant(): Server { Server(_ => None, (_, _) => None, (_, _, _) => -1, (_, _) => -1) }

  /** Reading gives what the items stand for, for every server and all questions before. */
  ghost predicate ReadAsMeant(mem: string, i: nat, its: seq<Item>, ids: seq<int>) {
    forall s: Server, asked: seq<Question> ::
      ItemsFrom(s, Tag, mem, i, ids, asked) == Delivered(Meant(s, its, ids, asked), i + |ListText(its)|)
  }

  /** The list text stands at `i` and a blank or the end of the string follows it. */
  predicate Stands(mem: string, i: nat, its: seq<Item>) {
    its != [] && AllProper(its) && Holds(mem, i, ListText(its)) && Gap(At(mem, i + |ListText(its)|))
  }

  lemma BlankEnds(c: char)
    requires Gap(c) || c == ','
    ensures !IsDigit(c)
  {
  }

  /** A list of one short name. */
  lemma OneName(mem: string, i: nat, its: seq<Item>, ids: seq<int>)
    requires Stands(mem, i, its) && |its| == 1 && its[0].Name? && Readable(its[0].name)
    ensures ReadAsMeant(mem, i, its, ids)
  {
    hide Holds, Strtoul, ItemsFrom, Gap;
    var name := its[0].name;
    assert Proper(its[0]);
    TextUnbroken(its);
    FirstItem(mem, i, its);
    BlankEnds(At(mem, i + |name|));
    NumberLikeAt(mem, i, name);
    forall s: Server, asked: seq<Question>
      ensures ItemsFrom(s, Tag, mem, i, ids, asked)
              == Delivered(Meant(s, its, ids, asked), i + |ListText(its)|)
    {
      NameScanned(s, mem, i, name, ids, asked);
      assert its[1..] == [];
    }
  }

  lemma NumberGrows(s: Server, mem: string, i: nat, ids: seq<int>, asked: seq<Question>)
    requires Strtoul(mem, i).end != i
    ensures |ItemsFrom(s, Tag, mem, i, ids, asked).0| > |ids|
  {
    hide Strtoul, ItemsFrom;
    ItemsUnfold(s, Tag, mem, i, ids, asked);
    var r := ScanItem(s, Tag, mem, i, asked);
    ItemsGrow(s, Tag, mem, r.end + 1, ids + [r.value], asked);
  }

  /** Any other list that begins with a name is read differently from a server that knows
      no tag: a number-like name is added as a number; otherwise the whole text is taken for
      the name, and another question is asked, or none. */
  lemma OtherName(mem: string, i: nat, its: seq<Item>, ids: seq<int>)
    requires Stands(mem, i, its) && its[0].Name? && !(|its| == 1 && Readable(its[0].name))
    ensures ItemsFrom(Ignorant(), Tag, mem, i, ids, [])
            != Delivered(Meant(Ignorant(), its, ids, []), i + |ListText(its)|)
  {
    hide Holds, Strtoul, ItemsFrom, Gap, ListText;
    var s, name := Ignorant(), its[0].name;
    assert Proper(its[0]);
    FirstItem(mem, i, its);
    BlankEnds(At(mem, i + |name|));
    NumberLikeAt(mem, i, name);
    var none: seq<Question> := [];
    assert Meant(s, its, ids, none) == (ids, false, none + [TagId(name)]);
    assert (none + [TagId(name)])[0] == TagId(name);
    if NumberLike(name) {
      ItemsUnfold(s, Tag, mem, i, ids, []);
      NumberGrows(s, mem, i, ids, []);
    } else {
      TextUnbroken(its);
      NameScanned(s, mem, i, ListText(its), ids, none);
      assert (none + [TagId(ListText(its))])[0] == TagId(ListText(its));
    }
  }

  lemma BlankNoComma(c: char)
    requires Gap(c)
    ensures !IsDigit(c) && c != ','
  {
  }

  lemma TailItemWise(its: seq<Item>)
    requires |its| > 1 && its[0].Id?
    ensures ItemWise(its) <==> ItemWise(its[1..])
  {
    if ItemWise(its[1..]) {
      forall k | 0 <= k < |its| - 1 ensures its[k].Id? {
        if k > 0 { assert its[1..][k - 1].Id?; }
      }
    }
  }

  /** An id in front does not matter. */
  lemma IdFirst(mem: string, i: nat, its: seq<Item>, ids: seq<int>)
    requires Stands(mem, i, its) && |its| > 1 && its[0].Id?
    ensures var j := i + |PrintNat(its[0].id)|;
            ReadAsMeant(mem, i, its, ids) <==> ReadAsMeant(mem, j + 1, its[1..], ids + [its[0].id])
  {
    hide Holds, Strtoul, ItemsFrom, ScanItem, Gap, ListText;
    assert Proper(its[0]);
    FirstItem(mem, i, its);
    var id := its[0].id;
    var j := i + |PrintNat(id)|;
    forall s: Server, asked: seq<Question>
      ensures ItemsFrom(s, Tag, mem, i, ids, asked) == ItemsFrom(s, Tag, mem, j + 1, ids + [id], asked)
      ensures Meant(s, its, ids, asked) == Meant(s, its[1..], ids + [id], asked)
    {
      ItemsUnfold(s, Tag, mem, i, ids, asked);
      IdScanned(s, Tag, mem, i, id, asked);
    }
  }

  /** A tag list is read item by item, whatever the server, if and only if all items but the
      last are ids and a name at the end is short and not number-like. */
  lemma {:induction false} TagListIff(mem: string, i: nat, its: seq<Item>, ids: seq<int>)
    requires Stands(mem, i, its)
    ensures ReadAsMeant(mem, i, its, ids) <==> ItemWise(its)
    decreases |its|
  {
    hide Holds, Strtoul, ItemsFrom, ScanItem, Gap, ListText, Readable;
    assert Proper(its[0]);
    FirstItem(mem, i, its);
    if its[0].Name? {
      if |its| == 1 && Readable(its[0].name) {
        OneName(mem, i, its, ids);
      } else {
        OtherName(mem, i, its, ids);
      }
    } else if |its| == 1 {
      BlankNoComma(At(mem, i + |ListText(its)|));
      forall s: Server, asked: seq<Question>
        ensures ItemsFrom(s, Tag, mem, i, ids, asked)
                == Delivered(Meant(s, its, ids, asked), i + |ListText(its)|)
      {
        IdItemsExact(s, Tag, mem, i, its, ids, asked);
      }
    } else {
      var j := i + |PrintNat(its[0].id)|;
      TagListIff(mem, j + 1, its[1..], ids + [its[0].id]);
      IdFirst(mem, i, its, ids);
      TailItemWise(its);
    }
  }

  /** Two names: the list fails, and the server is not even asked. */
  lemma TwoNames(s: Server, asked: seq<Question>)
    ensures ItemsFrom(s, Tag, "rock,metal", 0, [], asked) == ([], None, asked)
    ensures !ItemWise([Name("rock"), Name("metal")])
  {
    var t := "rock,metal";
    HoldsWhole(t);
    NumberIff(t, 0);
    NameScanned(s, t, 0, t, [], asked);
    assert [Name("rock"), Name("metal")][0].Name?;
  }

  /** A name that begins with a digit: the digits are taken for the tag. */
  lemma DigitName(s: Server, asked: seq<Question>)
    ensures ItemsFrom(s, Tag, "70s", 0, [], asked) == ([70], Some(2), asked)
    ensures !ItemWise([Name("70s")])
  {
    var t := "70s";
    assert PrintNat(7) == "7" && PrintNat(70) == "70";
    assert t[0..2] == "70";
    ScanPrinted(t, 0, 70);
    hide Strtoul;
    var none: seq<int> := [];
    assert At(t, 2) == 's' && none + [70] == [70];
    assert ScanItem(s, Tag, t, 0, asked) == Scan(70, 2, asked);
    ItemsUnfold(s, Tag, t, 0, [], asked);
  }
}
