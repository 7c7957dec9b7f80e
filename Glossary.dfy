/**
 * The botanical glossary's letter bar and letter filter (App.tsx:121-124): the
 * distinct upper-cased initials of the entries, sorted, and the entries whose
 * initial is the active letter.
 */
module Glossary {
  import opened Wrappers
  import opened Arrays

  datatype GlossaryItem = GlossaryItem(name: string, inci: string, description: string)

  /** `toUpperCase` on one character, for the ASCII letters. */
  function UpperCase(c: char): (u: char)
    ensures 'a' <= c <= 'z' ==> u as int == c as int - 32
    ensures !('a' <= c <= 'z') ==> u == c
    ensures !('a' <= u <= 'z')
  {
    if 'a' <= c <= 'z' then (c as int - 32) as char else c
  }

  /** Every entry has a name to take an initial from (`name[0]` of an empty
      name is `undefined`, and calling `toUpperCase` on it throws). */
  predicate NamesNonEmpty(items: seq<GlossaryItem>)
  {
    forall k :: 0 <= k < |items| ==> |items[k].name| > 0
  }

  function Initial(item: GlossaryItem): char
    requires |item.name| > 0
  {
    UpperCase(item.name[0])
  }

  /** `items.map(i => i.name[0].toUpperCase())`. */
  function Initials(items: seq<GlossaryItem>): (r: seq<char>)
    requires NamesNonEmpty(items)
    ensures |r| == |items| && forall k :: 0 <= k < |items| ==> r[k] == Initial(items[k])
  {
    seq(|items|, k requires 0 <= k < |items| => Initial(items[k]))
  }

  /** `Array.from(new Set(xs))`: each value once, at its first occurrence. */
  function Distinct(xs: seq<char>): (r: seq<char>)
    ensures forall c :: c in r <==> c in xs
    ensures forall i, j :: 0 <= i < j < |r| ==> r[i] != r[j]
  {
    if xs == [] then []
    else
      var d := Distinct(xs[..|xs| - 1]);
      var last := xs[|xs| - 1];
      assert forall c :: c in xs <==> c in xs[..|xs| - 1] || c == last by {
        assert xs == xs[..|xs| - 1] + [last];
      }
      if last in d then d else d + [last]
  }

  predicate Sorted(s: seq<char>)
  {
    forall i, j :: 0 <= i < j < |s| ==> s[i] <= s[j]
  }

  /** Insertion of one value into a sorted sequence. */
  function Insert(c: char, s: seq<char>): (r: seq<char>)
    requires Sorted(s)
    ensures Sorted(r) && multiset(r) == multiset(s) + multiset{c}
  {
    if s == [] then [c]
    else if c <= s[0] then
      SortedCons(c, s);
      [c] + s
    else
      var ins := Insert(c, s[1..]);
      HeadBelow(s, c, ins);
      SortedCons(s[0], ins);
      assert s == [s[0]] + s[1..];
      [s[0]] + ins
  }

  /** The head of a sorted sequence lies below every value of its tail and below `c`. */
  lemma HeadBelow(s: seq<char>, c: char, ins: seq<char>)
    requires Sorted(s) && s != [] && s[0] < c
    requires multiset(ins) == multiset(s[1..]) + multiset{c}
    ensures forall k :: 0 <= k < |ins| ==> s[0] <= ins[k]
  {
    forall k | 0 <= k < |ins| ensures s[0] <= ins[k] {
      assert ins[k] in multiset(ins);
      if ins[k] != c {
        assert ins[k] in multiset(s[1..]);
        var j :| 0 <= j < |s[1..]| && s[1..][j] == ins[k];
        assert s[j + 1] == ins[k];
      }
    }
  }

  lemma SortedCons(x: char, r: seq<char>)
    requires Sorted(r) && (r != [] ==> x <= r[0])
    ensures Sorted([x] + r)
  {
    var t := [x] + r;
    forall i, j | 0 <= i < j < |t| ensures t[i] <= t[j] {
      assert t[j] == r[j - 1];
      if i > 0 { assert t[i] == r[i - 1]; }
    }
  }

  /** `.sort()` with no comparator on one-character strings: ascending code units. */
  function Sort(s: seq<char>): (r: seq<char>)
    ensures Sorted(r) && multiset(r) == multiset(s)
  {
    if s == [] then []
    else
      assert s == [s[0]] + s[1..];
      Insert(s[0], Sort(s[1..]))
  }

  predicate StrictlySorted(s: seq<char>)
  {
    forall i, j :: 0 <= i < j < |s| ==> s[i] < s[j]
  }

  /** Inserting a new value into a strictly sorted sequence keeps it strict. */
  lemma {:induction false} InsertStrict(c: char, s: seq<char>)
    requires StrictlySorted(s) && c !in s
    ensures StrictlySorted(Insert(c, s))
  {
    if s != [] && c > s[0] {
      var tail := s[1..];
      assert StrictlySorted(tail) && c !in tail;
      InsertStrict(c, tail);
      var r := Insert(c, tail);
      assert Insert(c, s) == [s[0]] + r;
      forall k | 0 <= k < |r| ensures s[0] < r[k] {
        assert r[k] in multiset(r);
        if r[k] != c {
          assert r[k] in multiset(tail);
          var j :| 0 <= j < |tail| && tail[j] == r[k];
          assert s[j + 1] == r[k];
        }
      }
      StrictCons(s[0], r);
    } else if s != [] {
      assert Insert(c, s) == [c] + s;
      StrictCons(c, s);
    }
  }

  lemma StrictCons(x: char, r: seq<char>)
    requires StrictlySorted(r) && forall k :: 0 <= k < |r| ==> x < r[k]
    ensures StrictlySorted([x] + r)
  {
    var t := [x] + r;
    forall i, j | 0 <= i < j < |t| ensures t[i] < t[j] {
      assert t[j] == r[j - 1];
      if i > 0 { assert t[i] == r[i - 1]; }
    }
  }

  /** Sorting values that are pairwise different gives a strictly ascending sequence. */
  lemma {:induction false} SortStrict(s: seq<char>)
    requires forall i, j :: 0 <= i < j < |s| ==> s[i] != s[j]
    ensures StrictlySorted(Sort(s))
  {
    if s != [] {
      var rest := s[1..];
      assert forall i, j :: 0 <= i < j < |rest| ==> rest[i] != rest[j] by {
        forall i, j | 0 <= i < j < |rest| ensures rest[i] != rest[j] {
          assert rest[i] == s[i + 1] && rest[j] == s[j + 1];
        }
      }
      SortStrict(rest);
      assert s[0] !in Sort(rest) by {
        assert s[0] !in rest;
        assert s[0] !in multiset(rest);
      }
      InsertStrict(s[0], Sort(rest));
    }
  }

  /** `glossaryLetters` (App.tsx:121). */
  function Letters(items: seq<GlossaryItem>): seq<char>
    requires NamesNonEmpty(items)
  {
    Sort(Distinct(Initials(items)))
  }

  /** The letter bar holds each initial of the glossary exactly once, in
      ascending order, and nothing else. */
  lemma LettersAreSortedInitials(items: seq<GlossaryItem>)
    requires NamesNonEmpty(items)
    ensures StrictlySorted(Letters(items))
    ensures forall c :: c in Letters(items) <==> exists k :: 0 <= k < |items| && Initial(items[k]) == c
  {
    var initials := Initials(items);
    var d := Distinct(initials);
    SortStrict(d);
    forall c ensures c in Letters(items) <==> c in initials {
      assert c in Letters(items) <==> c in multiset(d);
    }
  }

  /** The total form of the filter's test: a non-empty name whose upper-cased
      first character is `letter`. */
  predicate HasInitial(item: GlossaryItem, letter: char)
  {
    |item.name| > 0 && UpperCase(item.name[0]) == letter
  }

  /** `filteredGlossary` (App.tsx:122-124): with a letter selected, the entries
      under it, in their original order; with none, every entry. */
  function FilterGlossary(items: seq<GlossaryItem>, activeLetter: Option<char>): (r: seq<GlossaryItem>)
    requires NamesNonEmpty(items)
    ensures activeLetter.None? ==> r == items
    ensures activeLetter.Some? ==> IsSubsequence(r, items)
    ensures activeLetter.Some? ==>
              forall k :: 0 <= k < |r| ==> r[k] in items && Initial(r[k]) == activeLetter.value
    ensures activeLetter.Some? ==>
              forall k :: 0 <= k < |items| && Initial(items[k]) == activeLetter.value ==> items[k] in r
  {
    match activeLetter
    case None => items
    case Some(letter) => Filter(items, (item: GlossaryItem) => HasInitial(item, letter))
  }

  /** An entry listed under a letter is listed as often as it appears in the glossary. */
  lemma FilterGlossaryKeepsEveryCopy(items: seq<GlossaryItem>, letter: char)
    requires NamesNonEmpty(items)
    ensures forall k :: 0 <= k < |items| && Initial(items[k]) == letter ==>
              multiset(FilterGlossary(items, Some(letter)))[items[k]] == multiset(items)[items[k]]
  {
    FilterKeepsEveryCopy(items, (item: GlossaryItem) => HasInitial(item, letter));
  }

  /** A letter shows some entries exactly when it is on the letter bar. */
  lemma FilterNonEmptyIffLetter(items: seq<GlossaryItem>, letter: char)
    requires NamesNonEmpty(items)
    ensures FilterGlossary(items, Some(letter)) != [] <==> letter in Letters(items)
  {
    LettersAreSortedInitials(items);
    var r := FilterGlossary(items, Some(letter));
    if r != [] {
      assert r[0] in items;
      var k :| 0 <= k < |items| && items[k] == r[0];
      assert Initial(items[k]) == letter;
    }
    if letter in Letters(items) {
      var k :| 0 <= k < |items| && Initial(items[k]) == letter;
      assert items[k] in r;
    }
  }
}
