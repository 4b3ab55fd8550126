/**
  High-score table of the final game (Final/main.cpp): three entries of a
  three-letter name and a `uint16` score, kept in descending order, reset to
  "---"/0, saved to and loaded from EEPROM, and edited letter by letter on the
  name-entry screen.
 */
module FinalScores {
  import opened Uint

  const HighScoreCount: nat := 3
  const MaxNameLength: nat := 3
  /** EEPROM address of the first entry; each entry takes `sizeof(HighScoreEntry)` = 6 bytes. */
  const ScoresAddress: nat := 20
  const EntrySize: nat := 6

  datatype Entry = Entry(name: string, score: nat)

  const EmptyEntry: Entry := Entry("---", 0)

  /** What an erased EEPROM cell holds: every byte 0xFF. */
  const ErasedEntry: Entry := Entry([0xFF as char, 0xFF as char, 0xFF as char], 0xFFFF)

  /** Scores in descending order, as the insertion keeps them. */
  predicate Descending(t: seq<Entry>) {
    forall i, j :: 0 <= i < j < |t| ==> t[i].score >= t[j].score
  }

  /** `handleVictory`'s test: the score beats some entry of the table. */
  predicate Qualifies(t: seq<Entry>, score: nat) {
    exists i :: 0 <= i < |t| && score > t[i].score
  }

  /** Index of the first entry the score beats, or `|t|` when it beats none. */
  function FirstBelow(t: seq<Entry>, score: nat): (i: nat)
    ensures i <= |t|
    ensures forall j :: 0 <= j < i ==> score <= t[j].score
    ensures i < |t| ==> score > t[i].score
  {
    if |t| == 0 then 0
    else if score > t[0].score then 0
    else 1 + FirstBelow(t[1..], score)
  }

  /**
    The table after `handleNameEntry` saves `e`: it goes in at the first slot
    with a smaller score, the entries below shift down one place and the last
    one is dropped; a score that beats no entry leaves the table as it was.
   */
  function Inserted(t: seq<Entry>, e: Entry): seq<Entry> {
    var i := FirstBelow(t, e.score);
    if i == |t| then t else t[..i] + [e] + t[i..|t| - 1]
  }

  /** The score qualifies exactly when some slot is below it. */
  lemma QualifiesIffSlot(t: seq<Entry>, score: nat)
    ensures Qualifies(t, score) <==> FirstBelow(t, score) < |t|
  {
    if Qualifies(t, score) {
      var j :| 0 <= j < |t| && score > t[j].score;
      assert FirstBelow(t, score) <= j;
    }
  }

  /** On a sorted table, beating some entry is the same as beating the last one. */
  lemma QualifiesIffBeatsLast(t: seq<Entry>, score: nat)
    requires Descending(t) && |t| > 0
    ensures Qualifies(t, score) <==> score > t[|t| - 1].score
  {
    if Qualifies(t, score) {
      var j :| 0 <= j < |t| && score > t[j].score;
      assert t[j].score >= t[|t| - 1].score;
    }
  }

  /**
    Insertion keeps the table's size and its descending order, puts the new
    entry in its slot, and otherwise changes nothing.
   */
  lemma InsertedSound(t: seq<Entry>, e: Entry)
    requires Descending(t)
    ensures |Inserted(t, e)| == |t|
    ensures Descending(Inserted(t, e))
    ensures Qualifies(t, e.score) ==> Inserted(t, e)[FirstBelow(t, e.score)] == e
    ensures !Qualifies(t, e.score) ==> Inserted(t, e) == t
  {
    QualifiesIffSlot(t, e.score);
    var i := FirstBelow(t, e.score);
    if i < |t| {
      var r := Inserted(t, e);
      InsertedSlots(t, e, i);
      forall a, b | 0 <= a < b < |r| ensures r[a].score >= r[b].score {
        var a', b' := if a <= i then a else a - 1, if b <= i then b else b - 1;
        if a != i && b != i {
          assert r[a] == t[a'] && r[b] == t[b'];
        } else if a == i {
          assert r[b] == t[b'];
        } else {
          assert r[a] == t[a'];
        }
      }
    }
  }

  /** Where each entry of the table ends up when `e` goes in at slot `i`. */
  lemma InsertedSlots(t: seq<Entry>, e: Entry, i: nat)
    requires i == FirstBelow(t, e.score) < |t|
    ensures |Inserted(t, e)| == |t| && Inserted(t, e)[i] == e
    ensures forall k :: 0 <= k < i ==> Inserted(t, e)[k] == t[k]
    ensures forall k :: i < k < |t| ==> Inserted(t, e)[k] == t[k - 1]
  {
  }

  /** Insertion drops exactly the last entry and adds the new one. */
  lemma InsertedMultiset(t: seq<Entry>, e: Entry)
    requires Qualifies(t, e.score)
    ensures multiset(Inserted(t, e)) + multiset{t[|t| - 1]} == multiset(t) + multiset{e}
  {
    QualifiesIffSlot(t, e.score);
    ShiftInMultiset(t, FirstBelow(t, e.score), e);
  }

  /**
    `loadHighScores`' character check (`&&` binds tighter than `||`) on the
    AVR's signed `char`: a byte of 0x80 or above is negative, so below 'A'.
   */
  function SanitizeChar(c: char, score: nat): (d: char)
    ensures c < 'A' || c >= '\U{80}' ==> d == '-'
    ensures 'A' <= c <= 'Z' ==> d == c
    ensures score != 0 ==> (d == '-' <==> !('A' <= c <= 'Z'))
    ensures score == 0 && 'Z' < c < '\U{80}' ==> d == c
  {
    if c < 'A' || c >= '\U{80}' || (c > 'Z' && score != 0) then '-' else c
  }

  function SanitizeName(name: string, score: nat): (r: string)
    ensures |r| == |name|
    ensures forall k :: 0 <= k < |name| ==> r[k] == SanitizeChar(name[k], score)
  {
    if |name| == 0 then [] else [SanitizeChar(name[0], score)] + SanitizeName(name[1..], score)
  }

  /** A name made of capitals and dashes, which sanitising leaves as it is. */
  predicate ShowableName(name: string) {
    forall k :: 0 <= k < |name| ==> name[k] == '-' || 'A' <= name[k] <= 'Z'
  }

  lemma {:induction false} SanitizeShowable(name: string, score: nat)
    requires ShowableName(name)
    ensures SanitizeName(name, score) == name
  {
    if |name| > 0 {
      assert ShowableName(name[1..]) by {
        forall k | 0 <= k < |name[1..]| ensures name[1..][k] == '-' || 'A' <= name[1..][k] <= 'Z' {
          assert name[1..][k] == name[k + 1];
        }
      }
      SanitizeShowable(name[1..], score);
    }
  }

  function Addr(i: nat): nat {
    ScoresAddress + EntrySize * i
  }

  /** EEPROM as a record store: a cell never written reads as erased. */
  function ReadCell(store: map<nat, Entry>, a: nat): Entry {
    if a in store then store[a] else ErasedEntry
  }

  /** What `loadHighScores` makes of slot `i`. */
  function LoadedEntry(store: map<nat, Entry>, i: nat): Entry {
    var e := ReadCell(store, Addr(i));
    Entry(SanitizeName(e.name, e.score), e.score)
  }

  /** Saving then loading gives back every entry whose name is showable. */
  lemma SaveLoadRoundTrip(store: map<nat, Entry>, t: seq<Entry>, i: nat)
    requires i < |t| && ShowableName(t[i].name)
    requires Addr(i) in store && store[Addr(i)] == t[i]
    ensures LoadedEntry(store, i) == t[i]
  {
    SanitizeShowable(t[i].name, t[i].score);
  }

  /**
    On a board whose score cells were never written, every slot loads with
    score 65535, so no `uint16` score can enter the table.
   */
  lemma ErasedTableNeverQualifies(store: map<nat, Entry>, score: nat, i: nat)
    requires forall j :: 0 <= j < HighScoreCount ==> Addr(j) !in store
    requires score < U16 && i < HighScoreCount
    ensures LoadedEntry(store, i) == Entry("---", 0xFFFF)
    ensures !Qualifies([LoadedEntry(store, 0), LoadedEntry(store, 1), LoadedEntry(store, 2)], score)
  {
    var n := SanitizeName(ErasedEntry.name, 0xFFFF);
    assert n == "---";
  }

  /** Letter up on the name-entry screen: after 'Z' comes 'A'. */
  function NextLetter(c: char): (d: char)
    requires 'A' <= c <= 'Z'
    ensures 'A' <= d <= 'Z'
  {
    if (c as int + 1) as char > 'Z' then 'A' else (c as int + 1) as char
  }

  /** Letter down: before 'A' comes 'Z'. */
  function PrevLetter(c: char): (d: char)
    requires 'A' <= c <= 'Z'
    ensures 'A' <= d <= 'Z'
  {
    if (c as int - 1) as char < 'A' then 'Z' else (c as int - 1) as char
  }

  lemma LettersUndo(c: char)
    requires 'A' <= c <= 'Z'
    ensures PrevLetter(NextLetter(c)) == c && NextLetter(PrevLetter(c)) == c
    ensures NextLetter('Z') == 'A' && PrevLetter('A') == 'Z'
  {
  }

  /** Cursor right and left over the three letters. */
  function NextCursor(i: nat): (j: nat) {
    (i + 1) % MaxNameLength
  }

  function PrevCursor(i: nat): (j: nat) {
    (i - 1 + MaxNameLength) % MaxNameLength
  }

  lemma CursorsUndo(i: nat)
    requires i < MaxNameLength
    ensures NextCursor(i) < MaxNameLength && PrevCursor(i) < MaxNameLength
    ensures PrevCursor(NextCursor(i)) == i && NextCursor(PrevCursor(i)) == i
  {
  }

  /** Every letter of a name stays a capital. */
  predicate CapitalName(name: string) {
    forall k :: 0 <= k < |name| ==> 'A' <= name[k] <= 'Z'
  }

  /** `highScores[]` and the EEPROM cells it is saved to. */
  class HighScores {
    const table: array<Entry>
    var store: map<nat, Entry>

    ghost predicate Valid()
      reads this
    {
      table.Length == HighScoreCount
    }

    /** The table before `loadHighScores` has run: every slot zero-initialised. */
    constructor (store0: map<nat, Entry>)
      ensures Valid() && fresh(table) && store == store0
    {
      table := new Entry[HighScoreCount](_ => Entry("", 0));
      store := store0;
    }

    /** The loop of `handleVictory`: does the score beat some entry? */
    method IsHighScore(score: nat) returns (b: bool)
      ensures b <==> Qualifies(table[..], score)
    {
      b := false;
      var i := 0;
      while i < table.Length
        invariant 0 <= i <= table.Length
        invariant forall j :: 0 <= j < i ==> score <= table[j].score
      {
        if score > table[i].score {
          b := true;
          assert score > table[..][i].score;
          break;
        }
        i := i + 1;
      }
      if !b {
        forall j | 0 <= j < table.Length ensures score <= table[..][j].score {
          assert table[..][j] == table[j];
        }
      }
    }

    /** The shift-and-insert of `handleNameEntry`. */
    method Insert(score: nat, name: string)
      modifies table
      ensures table[..] == Inserted(old(table[..]), Entry(name, score))
    {
      var i := 0;
      while i < table.Length && score <= table[i].score
        invariant 0 <= i <= table.Length
        invariant forall j :: 0 <= j < i ==> score <= table[j].score
      {
        i := i + 1;
      }
      ghost var t := table[..];
      assert FirstBelow(t, score) == i by {
        var k := FirstBelow(t, score);
        if k < i {
          assert false;
        }
      }
      if i < table.Length {
        PutAt(i, Entry(name, score));
      }
    }

    /** The insertion at slot `i`: the entries from `i` on move down one slot, the last one falls off. */
    method PutAt(i: nat, e: Entry)
      requires i < table.Length
      modifies table
      ensures table[..] == old(table[..])[..i] + [e] + old(table[..])[i..table.Length - 1]
    {
      ghost var t := table[..];
      ShiftDown(i);
      table[i] := e;
      ghost var r := t[..i] + [e] + t[i..|t| - 1];
      forall k | 0 <= k < table.Length ensures table[k] == r[k] {
        if k < i {
          assert r[k] == t[k];
        } else if k > i {
          assert r[k] == t[k - 1];
        }
      }
      assert table[..] == r;
    }

    /** The inner loop of the insertion: entries `i ..` move down one slot, the last one falls off. */
    method ShiftDown(i: nat)
      requires i < table.Length
      modifies table
      ensures forall k :: 0 <= k <= i ==> table[k] == old(table[k])
      ensures forall k :: i < k < table.Length ==> table[k] == old(table[k - 1])
    {
      var j := table.Length - 1;
      while j > i
        invariant i <= j < table.Length
        invariant forall k :: 0 <= k <= j ==> table[k] == old(table[k])
        invariant forall k :: j < k < table.Length ==> table[k] == old(table[k - 1])
      {
        table[j] := table[j - 1];
        j := j - 1;
      }
    }

    /** `saveHighScores`: entry `i` goes to address 20 + 6i. */
    method Save()
      modifies this`store
      ensures forall i :: 0 <= i < table.Length ==> Addr(i) in store && store[Addr(i)] == table[i]
      ensures forall a :: a in old(store) && !(exists i :: 0 <= i < table.Length && a == Addr(i)) ==>
        a in store && store[a] == old(store)[a]
    {
      var i := 0;
      while i < table.Length
        invariant 0 <= i <= table.Length
        invariant forall j :: 0 <= j < i ==> Addr(j) in store && store[Addr(j)] == table[j]
        invariant forall a :: a in old(store) && !(exists j :: 0 <= j < i && a == Addr(j)) ==>
          a in store && store[a] == old(store)[a]
      {
        store := store[Addr(i) := table[i]];
        i := i + 1;
      }
    }

    /** `loadHighScores`: read each slot and replace letters outside 'A'..'Z' by '-'. */
    method Load()
      modifies table
      ensures forall i :: 0 <= i < table.Length ==> table[i] == LoadedEntry(store, i)
    {
      var i := 0;
      while i < table.Length
        invariant 0 <= i <= table.Length
        invariant forall j :: 0 <= j < i ==> table[j] == LoadedEntry(store, j)
      {
        table[i] := LoadedEntry(store, i);
        i := i + 1;
      }
    }

    /** `resetHighScores`: every slot becomes "---" with score 0, then the table is saved. */
    method Reset()
      modifies table, this`store
      ensures forall i :: 0 <= i < table.Length ==> table[i] == EmptyEntry
      ensures Descending(table[..])
      ensures forall i :: 0 <= i < table.Length ==> Addr(i) in store && store[Addr(i)] == EmptyEntry
    {
      var i := 0;
      while i < table.Length
        invariant 0 <= i <= table.Length
        invariant forall j :: 0 <= j < i ==> table[j] == EmptyEntry
      {
        table[i] := EmptyEntry;
        i := i + 1;
      }
      Save();
    }
  }
}
