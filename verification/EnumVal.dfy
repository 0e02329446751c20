/** Words that stand for numbers, looked up in a table without regard to case. */
module EnumVal {
  import opened CText

  datatype Entry = Entry(text: string, val: int)

  function Lowered(s: string): (l: string)
    ensures |l| == |s| && forall i | 0 <= i < |s| :: l[i] == Lower(s[i])
  {
    seq(|s|, i requires 0 <= i < |s| => Lower(s[i]))
  }

  /** `0 == strncasecmp(a, b, n)` for strings of at least `n` characters */
  predicate SameCase(a: string, b: string, n: nat)
    requires n <= |a| && n <= |b|
  {
    forall i | 0 <= i < n :: Lower(a[i]) == Lower(b[i])
  }

  /** The same character, or the same letter in another case. */
  predicate SameLetter(a: char, b: char) {
    || a == b
    || ('a' <= a <= 'z' && b as int == a as int - 32)
    || ('A' <= a <= 'Z' && b as int == a as int + 32)
  }

  lemma SameCaseIff(a: string, b: string, n: nat)
    requires n <= |a| && n <= |b|
    ensures SameCase(a, b, n) <==> forall i | 0 <= i < n :: SameLetter(a[i], b[i])
  {
    if SameCase(a, b, n) {
      forall i | 0 <= i < n ensures SameLetter(a[i], b[i]) { assert Lower(a[i]) == Lower(b[i]); }
    } else {
      var i :| 0 <= i < n && Lower(a[i]) != Lower(b[i]);
      assert !SameLetter(a[i], b[i]);
    }
  }

  /** The entry is a word at the start of `s`, not continued by a letter or digit. */
  predicate Matches(e: Entry, s: string) {
    |e.text| <= |s| && SameCase(e.text, s, |e.text|) && !IsAlnum(At(s, |e.text|))
  }

  // ------------------------------------------------------------- what a table means

  function WordFrom(s: string, i: nat): (n: nat)
    requires i <= |s|
    ensures i <= n <= |s| && !IsAlnum(At(s, n)) && forall k | i <= k < n :: IsAlnum(s[k])
    decreases |s| - i
  {
    if i < |s| && IsAlnum(s[i]) then WordFrom(s, i + 1) else i
  }

  /** The longest word at the start of `s`. */
  function WordLen(s: string): (n: nat)
    ensures n <= |s| && !IsAlnum(At(s, n)) && forall i | 0 <= i < n :: IsAlnum(s[i])
  {
    WordFrom(s, 0)
  }

  function Word(s: string): string { Lowered(s[..WordLen(s)]) }

  predicate IsWord(t: string) {
    t != "" && forall i | 0 <= i < |t| :: IsAlnum(t[i]) && Lower(t[i]) == t[i]
  }

  predicate AllWords(table: seq<Entry>) { forall k | 0 <= k < |table| :: IsWord(table[k].text) }

  predicate Distinct(table: seq<Entry>) {
    forall j, k | 0 <= j < k < |table| :: table[j].text != table[k].text
  }

  /** The texts are lower-case words, and no text occurs twice. */
  predicate IsTable(table: seq<Entry>) { AllWords(table) && Distinct(table) }

  /** An entry matches if and only if it is the whole word at the start of the input. So of
      two entries one of which continues the other, as `track` and `trackpeak`, each is
      found, whichever comes first. */
  lemma MatchIsWord(e: Entry, s: string)
    requires IsWord(e.text)
    ensures Matches(e, s) <==> e.text == Word(s)
  {
  }

  lemma MatchesAreWords(table: seq<Entry>, s: string)
    requires IsTable(table)
    ensures forall k | 0 <= k < |table| :: Matches(table[k], s) <==> table[k].text == Word(s)
  {
    forall k | 0 <= k < |table| ensures Matches(table[k], s) <==> table[k].text == Word(s) {
      MatchIsWord(table[k], s);
    }
  }

  /** The result the documentation promises: the value of the word at the start of the
      input, whatever its case, and the end of that word. */
  ghost predicate Means(table: seq<Entry>, s: string, val: int, end: nat) {
    if exists k :: 0 <= k < |table| && table[k].text == Word(s) then
      end == WordLen(s) && Entry(Word(s), val) in table
    else val == -1 && end == 0
  }

  /** `val_enum`: the first matching entry; -1 and nothing consumed without one. */
  method ValEnum(table: seq<Entry>, s: string) returns (val: int, end: nat)
    ensures end <= |s|
    ensures forall k | 0 <= k < |table| && Matches(table[k], s)
                       && (forall j | 0 <= j < k :: !Matches(table[j], s)) ::
              val == table[k].val && end == |table[k].text|
    ensures (forall j | 0 <= j < |table| :: !Matches(table[j], s)) ==> val == -1 && end == 0
    ensures IsTable(table) ==> Means(table, s, val, end)
  {
    if IsTable(table) { MatchesAreWords(table, s); }
    var i := 0;
    while i < |table|
      invariant 0 <= i <= |table| && forall j | 0 <= j < i :: !Matches(table[j], s)
    {
      var len := |table[i].text|;
      if len <= |s| && SameCase(table[i].text, s, len) && !(|s| > len && IsAlnum(s[len])) {
        assert IsTable(table) ==> table[i] == Entry(Word(s), table[i].val);
        return table[i].val, len;
      }
      i := i + 1;
    }
    return -1, 0;
  }

  lemma SameEntries(t1: seq<Entry>, t2: seq<Entry>)
    requires multiset(t1) == multiset(t2)
    ensures forall e | e in t1 :: e in t2
  {
    forall e | e in t1 ensures e in t2 { assert e in multiset(t1); }
  }

  /** Only one result fits a table, in any order of its entries. */
  lemma MeansOne(t1: seq<Entry>, t2: seq<Entry>, s: string, v1: int, e1: nat, v2: int, e2: nat)
    requires IsTable(t1) && multiset(t1) == multiset(t2)
    requires Means(t1, s, v1, e1) && Means(t2, s, v2, e2)
    ensures v1 == v2 && e1 == e2
  {
    SameEntries(t1, t2);
    SameEntries(t2, t1);
    if k :| 0 <= k < |t1| && t1[k].text == Word(s) {
      assert t1[k] in t2;
      var a, b := Entry(Word(s), v1), Entry(Word(s), v2);
      assert a in t1 && b in t1;
    } else {
      forall k | 0 <= k < |t2| ensures t2[k].text != Word(s) { assert t2[k] in t1; }
    }
  }

  const BOOLS: seq<Entry> :=
    [Entry("on", 1), Entry("off", 0), Entry("true", 1), Entry("false", 0), Entry("yes", 1),
     Entry("no", 0), Entry("1", 1), Entry("0", 0)]

  const RIGHTS: seq<Entry> :=
    [Entry("any", 0), Entry("quest", 1), Entry("user", 2), Entry("admin", 3), Entry("master", 4)]

  const RGTYPES: seq<Entry> :=
    [Entry("none", 0), Entry("trackpeak", 2), Entry("track", 1), Entry("albumpeak", 4),
     Entry("album", 3), Entry("0", 0), Entry("1", 1), Entry("2", 2), Entry("3", 3), Entry("4", 4)]

  lemma BoolsTable()
    ensures IsTable(BOOLS)
  {
  }

  lemma RightsTable()
    ensures IsTable(RIGHTS)
  {
  }

  lemma RgtypesWords()
    ensures AllWords(RGTYPES)
  {
  }

  lemma RgtypesDistinct()
    ensures Distinct(RGTYPES)
  {
  }

  lemma TableParts(table: seq<Entry>)
    requires AllWords(table) && Distinct(table)
    ensures IsTable(table)
  {
  }

  lemma RgtypesTable()
    ensures IsTable(RGTYPES)
  {
    hide *;
    RgtypesWords();
    RgtypesDistinct();
    TableParts(RGTYPES);
  }

  /** The tables of the client are such tables. */
  lemma ClientTables()
    ensures IsTable(BOOLS) && IsTable(RIGHTS) && IsTable(RGTYPES)
  {
    BoolsTable();
    RightsTable();
    RgtypesTable();
  }

  // --------------------------------------------------------------- what the words mean

  predicate AlnumChar(c: char) { 'a' <= c <= 'z' || 'A' <= c <= 'Z' || '0' <= c <= '9' }

  /** The text begins with the word, in any case, and not with a longer one. */
  predicate BeginsWith(s: string, word: string) {
    && |word| <= |s| && (forall i | 0 <= i < |word| :: SameLetter(word[i], s[i]))
    && (|word| < |s| ==> !AlnumChar(s[|word|]))
  }

  lemma BeginsIff(s: string, word: string)
    requires IsWord(word)
    ensures BeginsWith(s, word) <==> Word(s) == word
    ensures Word(s) == word ==> WordLen(s) == |word|
  {
    MatchIsWord(Entry(word, 0), s);
    if |word| <= |s| { SameCaseIff(word, s, |word|); }
  }

  /** The text begins with one of the words, and `end` is where that ends. */
  predicate BeginsWithOne(s: string, words: seq<string>, end: nat) {
    exists k :: 0 <= k < |words| && BeginsWith(s, words[k]) && end == |words[k]|
  }

  /** The words of a table that stand for a value. */
  function WordsFor(table: seq<Entry>, val: int): seq<string> {
    if table == [] then []
    else (if table[0].val == val then [table[0].text] else []) + WordsFor(table[1..], val)
  }

  lemma {:induction false} InWordsFor(table: seq<Entry>, val: int, word: string)
    ensures word in WordsFor(table, val) <==> Entry(word, val) in table
  {
    if table != [] {
      InWordsFor(table[1..], val, word);
      assert table == [table[0]] + table[1..];
    }
  }

  /** A value is the result if and only if the text begins with one of its words. */
  lemma ValueIff(table: seq<Entry>, s: string, val: int, end: nat, v: int)
    requires IsTable(table) && Means(table, s, val, end) && v >= 0
    ensures val == v <==> BeginsWithOne(s, WordsFor(table, v), end)
  {
    hide WordLen, BeginsWith, IsWord;
    var ws := WordsFor(table, v);
    InWordsFor(table, v, Word(s));
    forall k | 0 <= k < |ws|
      ensures (BeginsWith(s, ws[k]) <==> Word(s) == ws[k]) && (Word(s) == ws[k] ==> WordLen(s) == |ws[k]|)
      ensures Entry(ws[k], v) in table
    {
      InWordsFor(table, v, ws[k]);
      var i :| 0 <= i < |table| && table[i] == Entry(ws[k], v);
      assert IsWord(table[i].text);
      BeginsIff(s, ws[k]);
    }
    if BeginsWithOne(s, ws, end) {
      var k :| 0 <= k < |ws| && BeginsWith(s, ws[k]) && end == |ws[k]|;
      var i :| 0 <= i < |table| && table[i] == Entry(ws[k], v);
      var j :| 0 <= j < |table| && table[j] == Entry(Word(s), val);
      assert i == j;
    }
    if val == v {
      assert Entry(Word(s), v) in table && Word(s) in ws;
      var k :| 0 <= k < |ws| && ws[k] == Word(s);
      assert BeginsWith(s, ws[k]) && end == |ws[k]|;
    }
  }

  lemma BoolWordsFor()
    ensures WordsFor(BOOLS, 1) == ["on", "true", "yes", "1"]
    ensures WordsFor(BOOLS, 0) == ["off", "false", "no", "0"]
  {
  }

  /** What `val_enum` makes of a switch: these words in any case, and no others. */
  lemma BoolWords(s: string, val: int, end: nat)
    requires Means(BOOLS, s, val, end)
    ensures val == 1 <==> BeginsWithOne(s, ["on", "true", "yes", "1"], end)
    ensures val == 0 <==> BeginsWithOne(s, ["off", "false", "no", "0"], end)
  {
    BoolsTable();
    BoolWordsFor();
    hide *;
    ValueIff(BOOLS, s, val, end, 0);
    ValueIff(BOOLS, s, val, end, 1);
  }

  /** What it makes of a user's rights. */
  lemma RightWords(s: string, val: int, end: nat)
    requires Means(RIGHTS, s, val, end)
    ensures val == 0 <==> BeginsWithOne(s, ["any"], end)
    ensures val == 1 <==> BeginsWithOne(s, ["quest"], end)
    ensures val == 2 <==> BeginsWithOne(s, ["user"], end)
    ensures val == 3 <==> BeginsWithOne(s, ["admin"], end)
    ensures val == 4 <==> BeginsWithOne(s, ["master"], end)
  {
    RightsTable();
    assert WordsFor(RIGHTS, 0) == ["any"] && WordsFor(RIGHTS, 1) == ["quest"] && WordsFor(RIGHTS, 2) == ["user"];
    assert WordsFor(RIGHTS, 3) == ["admin"] && WordsFor(RIGHTS, 4) == ["master"];
    hide *;
    for v := 0 to 5
      invariant forall w | 0 <= w < v :: val == w <==> BeginsWithOne(s, WordsFor(RIGHTS, w), end)
    {
      ValueIff(RIGHTS, s, val, end, v);
    }
  }

  lemma {:induction false} WordsForConcat(a: seq<Entry>, b: seq<Entry>, val: int)
    ensures WordsFor(a + b, val) == WordsFor(a, val) + WordsFor(b, val)
  {
    if a == [] {
      assert a + b == b;
    } else {
      assert (a + b)[0] == a[0] && (a + b)[1..] == a[1..] + b;
      WordsForConcat(a[1..], b, val);
    }
  }

  lemma GainWordsFor()
    ensures WordsFor(RGTYPES, 0) == ["none", "0"] && WordsFor(RGTYPES, 1) == ["track", "1"]
    ensures WordsFor(RGTYPES, 2) == ["trackpeak", "2"]
    ensures WordsFor(RGTYPES, 3) == ["album", "3"] && WordsFor(RGTYPES, 4) == ["albumpeak", "4"]
  {
    hide IsWord, AllWords, Distinct, Lower, IsAlnum;
    var names, digits := RGTYPES[..5], RGTYPES[5..];
    forall v | 0 <= v < 5
      ensures WordsFor(RGTYPES, v) == WordsFor(names, v) + WordsFor(digits, v)
    {
      WordsForConcat(names, digits, v);
      assert RGTYPES == names + digits;
    }
  }

  /** What it makes of a kind of replay gain. */
  lemma GainWords(s: string, val: int, end: nat)
    requires Means(RGTYPES, s, val, end)
    ensures val == 0 <==> BeginsWithOne(s, ["none", "0"], end)
    ensures val == 1 <==> BeginsWithOne(s, ["track", "1"], end)
    ensures val == 2 <==> BeginsWithOne(s, ["trackpeak", "2"], end)
    ensures val == 3 <==> BeginsWithOne(s, ["album", "3"], end)
    ensures val == 4 <==> BeginsWithOne(s, ["albumpeak", "4"], end)
  {
    RgtypesTable();
    GainWordsFor();
    hide *;
    for v := 0 to 5
      invariant forall w | 0 <= w < v :: val == w <==> BeginsWithOne(s, WordsFor(RGTYPES, w), end)
    {
      ValueIff(RGTYPES, s, val, end, v);
    }
  }
}
