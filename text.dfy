/** Option, the value-or-nothing result the matcher returns where Python returns None. */
module Wrappers {
  datatype Option<+T> = None | Some(value: T)
}

/**
 * The handful of Python string operations the agent relies on: `str.lower`
 * (restricted to ASCII), the substring test `needle in hay`, `sep.join(parts)`
 * and, as the inverse of joining lines, splitting on a separator character.
 */
module Text {

  /** ASCII lower-casing of one character; every other character is unchanged. */
  function LowerChar(c: char): char
  {
    if 'A' <= c <= 'Z' then (c as int + 32) as char else c
  }

  /** `s.lower()` for ASCII text: the same length, lowered character by character. */
  function Lower(s: string): (r: string)
    ensures |r| == |s|
    ensures forall i :: 0 <= i < |s| ==> r[i] == LowerChar(s[i])
  {
    if s == [] then [] else [LowerChar(s[0])] + Lower(s[1..])
  }

  /** Lower-casing twice is lower-casing once. */
  lemma LowerIdempotent(s: string)
    ensures Lower(Lower(s)) == Lower(s)
  {
  }

  /** `needle` occurs in `hay` starting at position `i`. */
  predicate OccursAt(hay: string, needle: string, i: int)
  {
    0 <= i && i + |needle| <= |hay| && hay[i..i + |needle|] == needle
  }

  /** Python's `needle in hay` for strings; the empty needle occurs everywhere. */
  function Contains(hay: string, needle: string): bool
    decreases |hay|
  {
    if |needle| > |hay| then false
    else if hay[..|needle|] == needle then true
    else Contains(hay[1..], needle)
  }

  /** The substring test holds exactly when the needle occurs at some position. */
  lemma {:induction false} ContainsIff(hay: string, needle: string)
    ensures Contains(hay, needle) <==> exists i :: OccursAt(hay, needle, i)
    decreases |hay|
  {
    if |needle| > |hay| {
    } else if hay[..|needle|] == needle {
      assert OccursAt(hay, needle, 0);
    } else {
      ContainsIff(hay[1..], needle);
      if Contains(hay[1..], needle) {
        var i :| OccursAt(hay[1..], needle, i);
        assert hay[1..][i..i + |needle|] == hay[i + 1..i + 1 + |needle|];
        assert OccursAt(hay, needle, i + 1);
      } else {
        forall i | OccursAt(hay, needle, i)
          ensures false
        {
          if i > 0 {
            assert hay[1..][i - 1..i - 1 + |needle|] == hay[i..i + |needle|];
            assert OccursAt(hay[1..], needle, i - 1);
          }
        }
      }
    }
  }

  /** `sep.join(parts)`. */
  function Join(sep: string, parts: seq<string>): string
  {
    if |parts| == 0 then ""
    else if |parts| == 1 then parts[0]
    else parts[0] + sep + Join(sep, parts[1..])
  }

  /** The joined text begins with the first part. */
  lemma JoinStartsWithFirst(sep: string, parts: seq<string>)
    requires |parts| > 0
    ensures parts[0] <= Join(sep, parts)
  {
  }

  /** The pieces one after another, as an f-string lays out its text and values. */
  function Concat(pieces: seq<string>): string
  {
    if pieces == [] then "" else Concat(pieces[..|pieces| - 1]) + pieces[|pieces| - 1]
  }

  /** Where piece `k` starts in `Concat(pieces)`. */
  function Offset(pieces: seq<string>, k: nat): nat
    requires k <= |pieces|
  {
    |Concat(pieces[..k])|
  }

  /** `text` sits in `s` at offset `at`. */
  predicate Holds(s: string, at: int, text: string)
  {
    0 <= at && at + |text| <= |s| && s[at..at + |text|] == text
  }

  /** Concatenating the first `k` pieces gives a prefix of concatenating them all. */
  lemma {:induction false} ConcatPrefix(pieces: seq<string>, k: nat)
    requires k <= |pieces|
    ensures Concat(pieces[..k]) <= Concat(pieces)
    decreases |pieces|
  {
    if k < |pieces| {
      var init := pieces[..|pieces| - 1];
      ConcatPrefix(init, k);
      assert init[..k] == pieces[..k];
    } else {
      assert pieces[..k] == pieces;
    }
  }

  /** Each piece sits in the concatenation at its offset. */
  lemma ConcatHolds(pieces: seq<string>, j: nat)
    requires j < |pieces|
    ensures Holds(Concat(pieces), Offset(pieces, j), pieces[j])
  {
    var upTo := pieces[..j + 1];
    assert upTo[..j] == pieces[..j];
    assert Concat(upTo) == Concat(pieces[..j]) + pieces[j];
    ConcatPrefix(pieces, j + 1);
    var whole := Concat(pieces);
    assert whole[..|Concat(upTo)|] == Concat(upTo);
    assert whole[Offset(pieces, j)..Offset(pieces, j) + |pieces[j]|] == Concat(upTo)[Offset(pieces, j)..];
  }

  /** A piece ends no later than any later piece starts. */
  lemma OffsetOrdered(pieces: seq<string>, j: nat, j': nat)
    requires j < j' <= |pieces|
    ensures Offset(pieces, j) + |pieces[j]| <= Offset(pieces, j')
  {
    var upTo := pieces[..j + 1];
    assert upTo[..j] == pieces[..j];
    assert Concat(upTo) == Concat(pieces[..j]) + pieces[j];
    ConcatPrefix(pieces[..j'], j + 1);
    assert pieces[..j'][..j + 1] == upTo;
  }

  /** The next piece starts right where a piece ends. */
  lemma OffsetNext(pieces: seq<string>, j: nat)
    requires j < |pieces|
    ensures Offset(pieces, j + 1) == Offset(pieces, j) + |pieces[j]|
  {
    assert pieces[..j + 1][..j] == pieces[..j];
  }

  /**
   * Every piece sits at its offset, each piece starts right where the one
   * before it ends, and the pieces follow one another in order.
   */
  lemma ConcatLayout(pieces: seq<string>)
    ensures forall j :: 0 <= j < |pieces| ==> Holds(Concat(pieces), Offset(pieces, j), pieces[j])
    ensures forall j :: 0 <= j < |pieces| ==> Offset(pieces, j + 1) == Offset(pieces, j) + |pieces[j]|
    ensures forall j, j' :: 0 <= j < j' < |pieces| ==> Offset(pieces, j) + |pieces[j]| <= Offset(pieces, j')
  {
    forall j | 0 <= j < |pieces|
      ensures Offset(pieces, j + 1) == Offset(pieces, j) + |pieces[j]|
    {
      OffsetNext(pieces, j);
    }
    forall j | 0 <= j < |pieces|
      ensures Holds(Concat(pieces), Offset(pieces, j), pieces[j])
    {
      ConcatHolds(pieces, j);
    }
    forall j, j' | 0 <= j < j' < |pieces|
      ensures Offset(pieces, j) + |pieces[j]| <= Offset(pieces, j')
    {
      OffsetOrdered(pieces, j, j');
    }
  }

  /** The pieces of `s` between occurrences of `c`, as Python's `s.split(c)`. */
  function Split(s: string, c: char): (r: seq<string>)
    ensures |r| > 0
  {
    if s == [] then [""]
    else
      var rest := Split(s[1..], c);
      if s[0] == c then [""] + rest else [[s[0]] + rest[0]] + rest[1..]
  }

  /** A string free of the separator splits into itself alone. */
  lemma {:induction false} SplitPlain(a: string, c: char)
    requires c !in a
    ensures Split(a, c) == [a]
  {
    if a != [] {
      SplitPlain(a[1..], c);
      assert [a[0]] + a[1..] == a;
    }
  }

  /** Splitting `a + [c] + b` cuts at the first separator, right after `a`. */
  lemma {:induction false} SplitAfter(a: string, c: char, b: string)
    requires c !in a
    ensures Split(a + [c] + b, c) == [a] + Split(b, c)
  {
    var s := a + [c] + b;
    if a == [] {
      assert s[0] == c && s[1..] == b;
    } else {
      assert s[0] == a[0] && s[1..] == a[1..] + [c] + b;
      SplitAfter(a[1..], c, b);
      assert [a[0]] + a[1..] == a;
    }
  }

  /**
   * Joining lines with a separator character and splitting on it gives the
   * lines back, provided no line contains the separator.
   */
  lemma {:induction false} SplitJoin(parts: seq<string>, c: char)
    requires |parts| > 0
    requires forall k :: 0 <= k < |parts| ==> c !in parts[k]
    ensures Split(Join([c], parts), c) == parts
  {
    if |parts| == 1 {
      SplitPlain(parts[0], c);
    } else {
      SplitJoin(parts[1..], c);
      SplitAfter(parts[0], c, Join([c], parts[1..]));
      assert [parts[0]] + parts[1..] == parts;
    }
  }
}
