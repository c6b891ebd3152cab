/**
 * String helpers shared by the commands. A `string` holds the Unicode scalar
 * values of a JavaScript string, one `char` each; the source's `s.length`
 * counts UTF-16 code units, which is `Utf16Length(s)`, not `|s|`.
 */
module Text {
  import opened Wrappers
  import Seqs

  /** Case folding of the ASCII letters, the only letters a non-unicode `/i` regex folds to ASCII. */
  function AsciiLower(c: char): char {
    if 'A' <= c <= 'Z' then (c as int + 32) as char else c
  }

  /** The first code point outside the Basic Multilingual Plane: from here on a character takes two UTF-16 code units. */
  const FirstAstral: int := 0x1_0000

  /** `s.length`: the number of UTF-16 code units, a surrogate pair for each character outside the Basic Multilingual Plane. */
  function Utf16Length(s: string): (n: nat)
    ensures |s| <= n <= 2 * |s|
    ensures n == |s| <==> forall i :: 0 <= i < |s| ==> s[i] as int < FirstAstral
    decreases |s|
  {
    if |s| == 0 then 0
    else (if s[0] as int < FirstAstral then 1 else 2) + Utf16Length(s[1..])
  }

  /** Code units add up over concatenation. */
  lemma {:induction false} Utf16LengthAppend(a: string, b: string)
    ensures Utf16Length(a + b) == Utf16Length(a) + Utf16Length(b)
    decreases |a|
  {
    if |a| == 0 {
      assert a + b == b;
    } else {
      assert (a + b)[0] == a[0];
      assert (a + b)[1..] == a[1..] + b;
      Utf16LengthAppend(a[1..], b);
    }
  }

  /** `pat` occurs in `s` starting at index `i`. */
  predicate OccursAt(s: string, pat: string, i: int) {
    0 <= i && i + |pat| <= |s| && s[i..i + |pat|] == pat
  }

  /** `s.indexOf(pat) >= 0`. */
  predicate Contains(s: string, pat: string) {
    exists i | 0 <= i <= |s| :: OccursAt(s, pat, i)
  }

  /** `words.join(sep)`: the words with one separator between neighbours. */
  function Join(words: seq<string>, sep: char): string
    decreases |words|
  {
    if |words| == 0 then ""
    else if |words| == 1 then words[0]
    else words[0] + [sep] + Join(words[1..], sep)
  }

  /** `s.split(sep)` for a one-character separator: always at least one piece. */
  function Split(s: string, sep: char): (r: seq<string>)
    ensures |r| >= 1
    ensures forall i :: 0 <= i < |r| ==> sep !in r[i]
    decreases |s|
  {
    match Seqs.FirstIndex(c => c == sep, s)
    case None => [s]
    case Some(i) => [s[..i]] + Split(s[i + 1..], sep)
  }

  /** Splitting a joined list of separator-free words gives the words back. */
  lemma {:induction false} SplitJoin(words: seq<string>, sep: char)
    requires |words| >= 1
    requires forall i :: 0 <= i < |words| ==> sep !in words[i]
    ensures Split(Join(words, sep), sep) == words
    decreases |words|
  {
    var w := words[0];
    if |words| == 1 {
      assert Seqs.FirstIndex(c => c == sep, w).None?;
    } else {
      var rest := Join(words[1..], sep);
      var s := w + [sep] + rest;
      assert s[|w|] == sep;
      assert forall j :: 0 <= j < |w| ==> s[j] == w[j];
      var k := Seqs.FirstIndex(c => c == sep, s);
      assert k == Some(|w|) by {
        assert k.Some? && k.value <= |w|;
      }
      assert s[..|w|] == w;
      assert s[|w| + 1..] == rest;
      SplitJoin(words[1..], sep);
      assert words == [w] + words[1..];
    }
  }

  /** Joining the pieces of a split gives the original string back. */
  lemma {:induction false} JoinSplit(s: string, sep: char)
    ensures Join(Split(s, sep), sep) == s
    decreases |s|
  {
    match Seqs.FirstIndex(c => c == sep, s)
    case None =>
    case Some(i) =>
      var tail := s[i + 1..];
      JoinSplit(tail, sep);
      var pieces := Split(tail, sep);
      assert Split(s, sep) == [s[..i]] + pieces;
      assert ([s[..i]] + pieces)[1..] == pieces;
      assert s == s[..i] + [sep] + tail;
  }
}
