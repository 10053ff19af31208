/** Text matching as the agent does it: `query.lower() in name.lower()`.
    Lower-casing is modelled on ASCII letters only. */
module Text {

  /** Lower-case one character (ASCII letters only). */
  function LowerChar(c: char): char
  {
    if 'A' <= c <= 'Z' then (c as int - 'A' as int + 'a' as int) as char else c
  }

  /** `s.lower()`, character by character. */
  function Lower(s: string): string
  {
    seq(|s|, i requires 0 <= i < |s| => LowerChar(s[i]))
  }

  /** Python's substring test `needle in hay`: the needle is a prefix of
      some suffix of the hay. */
  function Contains(hay: string, needle: string): bool
    decreases |hay|
  {
    needle <= hay || (|hay| > 0 && Contains(hay[1..], needle))
  }

  /** The agent's name test: the lowered query occurs in the lowered name. */
  function NameMatches(name: string, query: string): bool
  {
    Contains(Lower(name), Lower(query))
  }

  /** `s.replace(' ', '.')`. */
  function DotSpaces(s: string): (r: string)
    ensures |r| == |s|
    ensures forall i :: 0 <= i < |s| ==> r[i] == (if s[i] == ' ' then '.' else s[i])
    ensures forall i :: 0 <= i < |r| ==> r[i] != ' '
  {
    if s == [] then [] else [if s[0] == ' ' then '.' else s[0]] + DotSpaces(s[1..])
  }

  /** The needle sits in the hay at position `i`. */
  predicate OccursAt(hay: string, needle: string, i: int)
  {
    0 <= i <= |hay| - |needle| && hay[i..i + |needle|] == needle
  }

  /** A window of the hay that equals the needle makes `Contains` true. */
  lemma {:induction false} OccursGivesContains(hay: string, needle: string, i: int)
    requires OccursAt(hay, needle, i)
    ensures Contains(hay, needle)
    decreases i
  {
    if i > 0 {
      assert hay[1..][i - 1..i - 1 + |needle|] == hay[i..i + |needle|];
      OccursGivesContains(hay[1..], needle, i - 1);
    } else {
      assert hay[..|needle|] == needle;
    }
  }

  /** `Contains` holds only where some window of the hay equals the needle. */
  lemma {:induction false} ContainsGivesOccurs(hay: string, needle: string)
    requires Contains(hay, needle)
    ensures exists i :: OccursAt(hay, needle, i)
    decreases |hay|
  {
    if needle <= hay {
      assert OccursAt(hay, needle, 0);
    } else {
      ContainsGivesOccurs(hay[1..], needle);
      var i :| OccursAt(hay[1..], needle, i);
      assert hay[1..][i..i + |needle|] == hay[i + 1..i + 1 + |needle|];
      assert OccursAt(hay, needle, i + 1);
    }
  }

  /** `Contains` agrees with the positional reading of `in`: some window of
      the hay equals the needle. */
  lemma ContainsIffOccurs(hay: string, needle: string)
    ensures Contains(hay, needle) <==> exists i :: OccursAt(hay, needle, i)
  {
    if Contains(hay, needle) {
      ContainsGivesOccurs(hay, needle);
    }
    if exists i :: OccursAt(hay, needle, i) {
      var i :| OccursAt(hay, needle, i);
      OccursGivesContains(hay, needle, i);
    }
  }

  /** The empty query occurs in every name, so it matches every entity. */
  lemma EmptyQueryMatchesEveryName(name: string)
    ensures NameMatches(name, "")
  {
  }

  /** Every name matches itself. */
  lemma SelfMatches(name: string)
    ensures NameMatches(name, name)
  {
  }

  /** Matching ignores case on both sides. */
  lemma {:induction false} MatchIgnoresCase(name: string, query: string)
    ensures NameMatches(Lower(name), query) == NameMatches(name, query)
    ensures NameMatches(name, Lower(query)) == NameMatches(name, query)
  {
    LowerIdempotent(name);
    LowerIdempotent(query);
  }

  /** Lower-casing is idempotent. */
  lemma LowerIdempotent(s: string)
    ensures Lower(Lower(s)) == Lower(s)
  {
  }
}
