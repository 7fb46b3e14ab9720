/** The string operations the pages use: `toLowerCase`, `includes`,
    `split` and `join` with a one-character separator, and the decimal
    text of an id (`'' + n` and `parseInt`). */
module Text {

  /** JavaScript's `s.length`: the number of UTF-16 code units, so a
      character outside the Basic Multilingual Plane counts twice. */
  function Utf16Length(s: string): (n: nat)
    ensures |s| <= n <= 2 * |s|
    ensures n == |s| <==> forall i :: 0 <= i < |s| ==> s[i] as int <= 0xFFFF
  {
    if s == [] then 0
    else
      var n := Utf16Length(s[1..]);
      assert forall i :: 1 <= i < |s| ==> s[i] == s[1..][i - 1];
      (if s[0] as int > 0xFFFF then 2 else 1) + n
  }

  /** `toLowerCase` on one character; only ASCII letters are mapped. */
  function LowerChar(c: char): (r: char)
    ensures !('A' <= r <= 'Z')
    ensures !('A' <= c <= 'Z') ==> r == c
    ensures 'A' <= c <= 'Z' ==> 'a' <= r <= 'z' && r as int - 'a' as int == c as int - 'A' as int
  {
    if 'A' <= c <= 'Z' then (c as int + 32) as char else c
  }

  /** `s.toLowerCase()`: the same length, each character lowered, and no
      ASCII capital left. */
  function Lower(s: string): (r: string)
    ensures |r| == |s|
    ensures forall i :: 0 <= i < |s| ==> r[i] == LowerChar(s[i]) && !('A' <= r[i] <= 'Z')
  {
    seq(|s|, i requires 0 <= i < |s| => LowerChar(s[i]))
  }

  /** Lower-casing twice is lower-casing once. */
  lemma LowerIdempotent(s: string)
    ensures Lower(Lower(s)) == Lower(s)
  {
    forall i | 0 <= i < |s| ensures Lower(Lower(s))[i] == Lower(s)[i] {
      assert Lower(s)[i] == LowerChar(s[i]);
    }
  }

  /** `hay.includes(needle)`, written the way it is computed: `needle` is a
      prefix of `hay` or of one of its suffixes. */
  predicate Includes(hay: string, needle: string)
    ensures needle <= hay ==> Includes(hay, needle)
    ensures Includes(hay, needle) ==> |needle| <= |hay|
    decreases |hay|
  {
    needle <= hay || (hay != [] && Includes(hay[1..], needle))
  }

  /** `needle` occurs in `hay` starting at position `i`. */
  predicate OccursAt(hay: string, needle: string, i: int)
  {
    0 <= i <= |hay| - |needle| && hay[i..i + |needle|] == needle
  }

  /** `includes` holds exactly when `needle` occurs at some position of `hay`. */
  lemma {:induction false} IncludesIffOccurs(hay: string, needle: string)
    ensures Includes(hay, needle) <==> exists i :: OccursAt(hay, needle, i)
  {
    if needle <= hay {
      assert OccursAt(hay, needle, 0);
    } else if hay == [] {
    } else {
      IncludesIffOccurs(hay[1..], needle);
      if Includes(hay[1..], needle) {
        var i :| OccursAt(hay[1..], needle, i);
        assert OccursAt(hay, needle, i + 1);
      }
      if i :| OccursAt(hay, needle, i) {
        assert i != 0;
        assert OccursAt(hay[1..], needle, i - 1);
      }
    }
  }

  /** The search rule of the list pages: the lower-cased term occurs in the
      lower-cased text of one of `fields`, tried in order with `||`. */
  predicate MatchesAny(fields: seq<string>, term: string)
    ensures MatchesAny(fields, term) <==>
            exists k :: 0 <= k < |fields| && Includes(Lower(fields[k]), Lower(term))
    decreases |fields|
  {
    fields != [] && (Includes(Lower(fields[0]), Lower(term)) || MatchesAny(fields[1..], term))
  }

  /** The empty term matches any entry that has a field at all. */
  lemma {:induction false} EmptyTermMatches(fields: seq<string>)
    requires fields != []
    ensures MatchesAny(fields, "")
  {
    assert Lower("") == "";
    assert Lower("") <= Lower(fields[0]);
  }

  /** Searching is case-insensitive: a term and its lower-cased form match
      the same entries. */
  lemma {:induction false} MatchesAnyIgnoresCase(fields: seq<string>, term: string)
    ensures MatchesAny(fields, Lower(term)) == MatchesAny(fields, term)
    decreases |fields|
  {
    LowerIdempotent(term);
    if fields != [] {
      MatchesAnyIgnoresCase(fields[1..], term);
    }
  }

  /** `s.split(sep)`: the pieces between occurrences of `sep`, always at
      least one (`"".split("-")` is `[""]`). */
  function Split(s: string, sep: char): (parts: seq<string>)
    ensures |parts| >= 1
    ensures forall k :: 0 <= k < |parts| ==> sep !in parts[k]
    ensures parts[0] <= s && (parts[0] == s || s[|parts[0]|] == sep)
    decreases |s|
  {
    if s == [] then [""]
    else
      var rest := Split(s[1..], sep);
      if s[0] == sep then [""] + rest
      else
        assert forall k :: 1 <= k < |rest| ==> ([[s[0]] + rest[0]] + rest[1..])[k] == rest[k];
        [[s[0]] + rest[0]] + rest[1..]
  }

  /** `parts.join(sep)`. */
  function Join(parts: seq<string>, sep: char): (r: string)
    ensures |parts| == 1 ==> r == parts[0]
    ensures |parts| >= 1 ==> parts[0] <= r
    ensures |parts| >= 2 ==> |parts[0]| < |r| && r[|parts[0]|] == sep
    decreases |parts|
  {
    if |parts| == 0 then ""
    else if |parts| == 1 then parts[0]
    else parts[0] + [sep] + Join(parts[1..], sep)
  }

  /** A string without the separator splits into itself alone. */
  lemma {:induction false} SplitWithoutSeparator(s: string, sep: char)
    requires sep !in s
    ensures Split(s, sep) == [s]
  {
    if s != [] {
      SplitWithoutSeparator(s[1..], sep);
    }
  }

  /** One step of `Split`, as an equation on a leading character. */
  lemma SplitCons(c: char, t: string, sep: char)
    ensures Split([c] + t, sep) ==
            if c == sep then [""] + Split(t, sep)
            else [[c] + Split(t, sep)[0]] + Split(t, sep)[1..]
  {
    assert ([c] + t)[0] == c && ([c] + t)[1..] == t;
  }

  /** One leading character before pieces that are the concatenation of
      two lists lands on the first list. */
  lemma ConsPieces(c: char, sep: char, x: seq<string>, r: seq<string>, q: seq<string>)
    requires |r| >= 1 && x == r + q
    ensures (if c == sep then [""] + x else [[c] + x[0]] + x[1..]) ==
            (if c == sep then [""] + r else [[c] + r[0]] + r[1..]) + q
  {
    assert x[0] == r[0] && x[1..] == r[1..] + q;
  }

  /** Splitting at a separator splits the two sides independently. */
  lemma {:induction false} SplitAround(a: string, b: string, sep: char)
    ensures Split(a + [sep] + b, sep) == Split(a, sep) + Split(b, sep)
    decreases |a|
  {
    if a == [] {
      assert a + [sep] + b == [sep] + b;
      SplitCons(sep, b, sep);
    } else {
      var c, t := a[0], a[1..];
      assert a == [c] + t;
      assert a + [sep] + b == [c] + (t + [sep] + b);
      SplitAround(t, b, sep);
      SplitCons(c, t + [sep] + b, sep);
      SplitCons(c, t, sep);
      ConsPieces(c, sep, Split(t + [sep] + b, sep), Split(t, sep), Split(b, sep));
    }
  }

  /** A string that contains the separator splits into two pieces or more. */
  lemma SplitAtSeparator(s: string, sep: char)
    requires sep in s
    ensures |Split(s, sep)| >= 2
  {
    var i :| 0 <= i < |s| && s[i] == sep;
    assert s == s[..i] + [sep] + s[i + 1..];
    SplitAround(s[..i], s[i + 1..], sep);
  }

  /** Joining pieces that do not contain the separator and splitting again
      gives the pieces back. */
  lemma {:induction false} SplitJoin(parts: seq<string>, sep: char)
    requires |parts| >= 1
    requires forall k :: 0 <= k < |parts| ==> sep !in parts[k]
    ensures Split(Join(parts, sep), sep) == parts
  {
    if |parts| == 1 {
      SplitWithoutSeparator(parts[0], sep);
    } else {
      SplitWithoutSeparator(parts[0], sep);
      SplitJoin(parts[1..], sep);
      SplitAround(parts[0], Join(parts[1..], sep), sep);
      assert parts == [parts[0]] + parts[1..];
    }
  }

  function DigitChar(d: nat): char
    requires d < 10
  {
    ('0' as int + d) as char
  }

  /** `'' + n` for a natural number: its decimal digits. */
  function NatToString(n: nat): (s: string)
    ensures |s| >= 1
    ensures forall k :: 0 <= k < |s| ==> '0' <= s[k] <= '9'
    decreases n
  {
    if n < 10 then [DigitChar(n)] else NatToString(n / 10) + [DigitChar(n % 10)]
  }

  /** `parseInt` of a string of decimal digits. */
  function ParseDigits(s: string): (n: nat)
    requires forall k :: 0 <= k < |s| ==> '0' <= s[k] <= '9'
    ensures n == 0 <==> forall k :: 0 <= k < |s| ==> s[k] == '0'
    decreases |s|
  {
    if s == [] then 0
    else ParseDigits(s[..|s| - 1]) * 10 + (s[|s| - 1] as int - '0' as int)
  }

  /** Ids are stored as decimal text and read back with `parseInt`: the
      round trip returns the number. */
  lemma {:induction false} ParseDigitsNatToString(n: nat)
    ensures ParseDigits(NatToString(n)) == n
    decreases n
  {
    var s := NatToString(n);
    if n >= 10 {
      ParseDigitsNatToString(n / 10);
      assert s[..|s| - 1] == NatToString(n / 10);
    }
  }
}
