/**
 * The string operations the view-models and use cases rely on: ASCII lower-casing,
 * substring search (`contains`), trimming with Foundation's two whitespace character
 * sets, and reversal.
 */
module Text {

  predicate IsAsciiDigit(c: char) {
    '0' <= c <= '9'
  }

  /** `Character.lowercased()` restricted to ASCII letters. */
  function AsciiLower(c: char): char {
    if 'A' <= c <= 'Z' then (c as int + 32) as char else c
  }

  /** `String.lowercased()`: each character lower-cased, length kept. */
  function Lowercased(s: string): (r: string)
    ensures |r| == |s|
    ensures forall i :: 0 <= i < |s| ==> r[i] == AsciiLower(s[i])
  {
    seq(|s|, i requires 0 <= i < |s| => AsciiLower(s[i]))
  }

  /** The position of the first `c` in `s`, or `|s|` when there is none. */
  function IndexOf(s: string, c: char): (k: nat)
    ensures k <= |s|
    ensures k < |s| ==> s[k] == c
    ensures forall i :: 0 <= i < k ==> s[i] != c
  {
    if s == [] then 0 else if s[0] == c then 0 else 1 + IndexOf(s[1..], c)
  }

  /** `needle` occurs in `hay` starting at position `i`. */
  predicate OccursAt(hay: string, needle: string, i: int) {
    0 <= i && i + |needle| <= |hay| && hay[i..i + |needle|] == needle
  }

  /** `hay.contains(needle)`, computed by trying each start position in turn. */
  predicate Contains(hay: string, needle: string)
    decreases |hay|
  {
    needle <= hay || (hay != [] && Contains(hay[1..], needle))
  }

  /** A match at position `i` is found by Contains. */
  lemma {:induction false} OccursThenContains(hay: string, needle: string, i: int)
    requires OccursAt(hay, needle, i)
    ensures Contains(hay, needle)
    decreases i
  {
    if i == 0 {
      assert hay[..|needle|] == needle;
    } else {
      assert hay[1..][i - 1..i - 1 + |needle|] == hay[i..i + |needle|];
      OccursThenContains(hay[1..], needle, i - 1);
    }
  }

  /** When Contains holds, some position matches. */
  lemma {:induction false} ContainsThenOccurs(hay: string, needle: string)
    requires Contains(hay, needle)
    ensures exists i :: OccursAt(hay, needle, i)
    decreases |hay|
  {
    if needle <= hay {
      assert OccursAt(hay, needle, 0);
    } else {
      ContainsThenOccurs(hay[1..], needle);
      var i :| OccursAt(hay[1..], needle, i);
      assert hay[1..][i..i + |needle|] == hay[i + 1..i + 1 + |needle|];
      assert OccursAt(hay, needle, i + 1);
    }
  }

  /** Contains is substring search: it holds exactly when some position matches. */
  lemma ContainsIffOccurs(hay: string, needle: string)
    ensures Contains(hay, needle) <==> exists i :: OccursAt(hay, needle, i)
  {
    if Contains(hay, needle) {
      ContainsThenOccurs(hay, needle);
    }
    forall i | OccursAt(hay, needle, i) ensures Contains(hay, needle) {
      OccursThenContains(hay, needle, i);
    }
  }

  /** Foundation's `CharacterSet.whitespaces`: tab and the Unicode space separators (Zs). */
  predicate IsWhitespace(c: char) {
    || c == '\t' || c == ' ' || c == '\U{A0}' || c == '\U{1680}'
    || ('\U{2000}' <= c <= '\U{200A}') || c == '\U{202F}' || c == '\U{205F}' || c == '\U{3000}'
  }

  /** The line and paragraph separators that `CharacterSet.newlines` adds. */
  predicate IsNewline(c: char) {
    ('\n' <= c <= '\r') || c == '\U{85}' || c == '\U{2028}' || c == '\U{2029}'
  }

  /** The two character sets the source trims with. */
  datatype CharacterSet = Whitespaces | WhitespacesAndNewlines {
    predicate Has(c: char) {
      match this
      case Whitespaces => IsWhitespace(c)
      case WhitespacesAndNewlines => IsWhitespace(c) || IsNewline(c)
    }
  }

  /** Drops the leading characters that belong to `cs`. */
  function DropLeading(s: string, cs: CharacterSet): (r: string)
    ensures |r| <= |s|
    ensures forall i :: 0 <= i < |s| - |r| ==> cs.Has(s[i])
    ensures r != [] ==> !cs.Has(r[0])
  {
    if s != [] && cs.Has(s[0]) then DropLeading(s[1..], cs) else s
  }

  /** Drops the trailing characters that belong to `cs`. */
  function DropTrailing(s: string, cs: CharacterSet): (r: string)
    ensures |r| <= |s|
    ensures forall i :: |r| <= i < |s| ==> cs.Has(s[i])
    ensures r != [] ==> !cs.Has(r[|r| - 1])
  {
    if s != [] && cs.Has(s[|s| - 1]) then DropTrailing(s[..|s| - 1], cs) else s
  }

  /** What is left after dropping leading characters is a suffix of the input. */
  lemma {:induction false} DropLeadingIsSuffix(s: string, cs: CharacterSet)
    ensures DropLeading(s, cs) == s[|s| - |DropLeading(s, cs)|..]
  {
    if s != [] && cs.Has(s[0]) {
      DropLeadingIsSuffix(s[1..], cs);
      assert s[1..][|s| - 1 - |DropLeading(s, cs)|..] == s[|s| - |DropLeading(s, cs)|..];
    }
  }

  /** What is left after dropping trailing characters is a prefix of the input. */
  lemma {:induction false} DropTrailingIsPrefix(s: string, cs: CharacterSet)
    ensures DropTrailing(s, cs) == s[..|DropTrailing(s, cs)|]
  {
    if s != [] && cs.Has(s[|s| - 1]) {
      DropTrailingIsPrefix(s[..|s| - 1], cs);
      assert s[..|s| - 1][..|DropTrailing(s, cs)|] == s[..|DropTrailing(s, cs)|];
    }
  }

  /** `s.trimmingCharacters(in: cs)` */
  function Trimming(s: string, cs: CharacterSet): string {
    DropTrailing(DropLeading(s, cs), cs)
  }

  /** `s.trimmingCharacters(in: cs).isEmpty` */
  predicate IsBlank(s: string, cs: CharacterSet) {
    Trimming(s, cs) == []
  }

  /** A string made only of characters of `cs` loses all of them. */
  lemma {:induction false} DropLeadingAll(s: string, cs: CharacterSet)
    requires forall i :: 0 <= i < |s| ==> cs.Has(s[i])
    ensures DropLeading(s, cs) == []
  {
    if s != [] {
      DropLeadingAll(s[1..], cs);
    }
  }

  /** A string is blank exactly when every character belongs to the trimmed set. */
  lemma BlankIffAllInSet(s: string, cs: CharacterSet)
    ensures IsBlank(s, cs) <==> forall i :: 0 <= i < |s| ==> cs.Has(s[i])
  {
    if forall i :: 0 <= i < |s| ==> cs.Has(s[i]) {
      DropLeadingAll(s, cs);
    }
  }

  /** `String(s.reversed())` */
  function Reverse(s: string): (r: string)
    ensures |r| == |s|
    ensures forall i :: 0 <= i < |s| ==> r[i] == s[|s| - 1 - i]
  {
    if s == [] then [] else Reverse(s[1..]) + [s[0]]
  }

  /** Reversing twice gives the string back, so reversal is injective. */
  lemma ReverseReverse(s: string)
    ensures Reverse(Reverse(s)) == s
  {
  }
}
