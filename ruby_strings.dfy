/** The handful of Ruby String and Array methods the library relies on,
    with Ruby's edge cases: `split` drops trailing empty fields, the
    argument-less `split` ignores runs of whitespace, `delete_prefix` and
    `delete_suffix` remove at most one occurrence. */
module RubyStrings {
  import opened RubyValues

  /** Every field between separator characters, empty fields included, as
      `str.split(pattern, -1)` gives them; "" has one empty field. */
  function FieldsWhere(s: string, isSep: char -> bool): (r: seq<string>)
    ensures |r| >= 1
    ensures forall f, c :: f in r && c in f ==> !isSep(c)
    decreases |s|
  {
    if s == [] then [[]]
    else
      var rest := FieldsWhere(s[1..], isSep);
      if isSep(s[0]) then [[]] + rest
      else [[s[0]] + rest[0]] + rest[1..]
  }

  /** The fields of `s` between occurrences of `sep`. */
  function Split(s: string, sep: char): seq<string> {
    FieldsWhere(s, c => c == sep)
  }

  /** Ruby's `s.split(sep)` for a one-character separator: trailing empty
      fields are dropped, so "" and "///" give no field at all. */
  function RubySplit(s: string, sep: char): seq<string> {
    DropTrailingEmpty(Split(s, sep))
  }

  function DropTrailingEmpty(fs: seq<string>): (r: seq<string>)
    ensures r <= fs
    ensures r != [] ==> r[|r| - 1] != []
    ensures fs != [] && fs[|fs| - 1] != [] ==> r == fs
    ensures fs != [] && fs[0] != [] ==> r != [] && r[0] == fs[0]
  {
    if fs != [] && fs[|fs| - 1] == [] then DropTrailingEmpty(fs[..|fs| - 1]) else fs
  }

  function NonEmpty(fs: seq<string>): (r: seq<string>)
    ensures forall f :: f in r ==> f != [] && f in fs
  {
    if fs == [] then []
    else (if fs[0] == [] then [] else [fs[0]]) + NonEmpty(fs[1..])
  }

  /** The whitespace of Ruby's argument-less `split`. */
  predicate IsSpace(c: char) {
    c == ' ' || c == '\t' || c == '\n' || c == '\U{0B}' || c == '\U{0C}' || c == '\r'
  }

  /** Ruby's argument-less `s.split`: the maximal runs of non-whitespace. */
  function Words(s: string): (r: seq<string>)
    ensures forall w :: w in r ==> w != []
    ensures forall w, c :: w in r && c in w ==> !IsSpace(c)
  {
    NonEmpty(FieldsWhere(s, IsSpace))
  }

  lemma {:induction false} NoSeparatorOneField(s: string, isSep: char -> bool)
    requires forall c :: c in s ==> !isSep(c)
    ensures FieldsWhere(s, isSep) == [s]
    decreases |s|
  {
    if s != [] {
      NoSeparatorOneField(s[1..], isSep);
      assert [s[0]] + s[1..] == s;
    }
  }

  /** A string without the separator is a single field. */
  lemma SplitWithoutSeparator(s: string, sep: char)
    requires sep !in s
    ensures Split(s, sep) == [s]
  {
    NoSeparatorOneField(s, c => c == sep);
  }

  /** `parts.join(sep)`. */
  function Join(parts: seq<string>, sep: string): string {
    if parts == [] then ""
    else if |parts| == 1 then parts[0]
    else parts[0] + sep + Join(parts[1..], sep)
  }

  predicate StartsWith(s: string, p: string) {
    |p| <= |s| && s[..|p|] == p
  }

  predicate EndsWith(s: string, p: string) {
    |p| <= |s| && s[|s| - |p|..] == p
  }

  /** `s.delete_prefix(p)`: one leading `p` removed, if there is one. */
  function DeletePrefix(s: string, p: string): (r: string)
    ensures StartsWith(s, p) ==> p + r == s
    ensures !StartsWith(s, p) ==> r == s
  {
    if StartsWith(s, p) then s[|p|..] else s
  }

  /** `s.delete_suffix(p)`: one trailing `p` removed, if there is one. */
  function DeleteSuffix(s: string, p: string): (r: string)
    ensures EndsWith(s, p) ==> r + p == s
    ensures !EndsWith(s, p) ==> r == s
  {
    if EndsWith(s, p) then s[..|s| - |p|] else s
  }

  /** Deleting a suffix the string was built with gives back what was before it. */
  lemma DeleteSuffixOfConcat(a: string, b: string)
    ensures DeleteSuffix(a + b, b) == a
  {
    assert (a + b)[|a + b| - |b|..] == b;
    assert (a + b)[..|a + b| - |b|] == a;
  }

  /** `s.delete(c)` (and `s.gsub(c, "")`) for a one-character `c`: every
      occurrence removed, everything else kept in order. */
  function Delete(s: string, c: char): (r: string)
    ensures c !in r
    ensures c !in s ==> r == s
    ensures forall x :: x in r <==> x in s && x != c
  {
    if s == [] then []
    else (if s[0] == c then [] else [s[0]]) + Delete(s[1..], c)
  }

  /** The part of `s` before its first `c` (all of `s` when there is none). */
  function TakeUntil(s: string, c: char): (r: string)
    ensures r <= s
    ensures c !in r
    ensures c !in s ==> r == s
    ensures c in s ==> |r| < |s| && s[|r|] == c
  {
    if s == [] || s[0] == c then [] else [s[0]] + TakeUntil(s[1..], c)
  }

  function Count(s: string, c: char): nat {
    if s == [] then 0 else (if s[0] == c then 1 else 0) + Count(s[1..], c)
  }

  /** Splitting at a separator character splits the two sides apart. */
  lemma {:induction false} FieldsAppend(a: string, c: char, b: string, isSep: char -> bool)
    requires isSep(c)
    ensures FieldsWhere(a + [c] + b, isSep) == FieldsWhere(a, isSep) + FieldsWhere(b, isSep)
  {
    if a == [] {
      assert a + [c] + b == [c] + b;
      assert ([c] + b)[1..] == b;
    } else {
      assert (a + [c] + b)[1..] == a[1..] + [c] + b;
      FieldsAppend(a[1..], c, b, isSep);
    }
  }

  /** Joining the fields with the separator gives the string back. */
  lemma {:induction false} JoinSplit(s: string, sep: char)
    ensures Join(Split(s, sep), [sep]) == s
    decreases |s|
  {
    if s != [] {
      JoinSplit(s[1..], sep);
      var rest := Split(s[1..], sep);
      if s[0] == sep {
        assert Split(s, sep) == [[]] + rest;
        assert ([[]] + rest)[1..] == rest;
      } else {
        assert Split(s, sep) == [[s[0]] + rest[0]] + rest[1..];
        if |rest| > 1 {
          assert ([[s[0]] + rest[0]] + rest[1..])[1..] == rest[1..];
        }
      }
    }
  }

  /** One more field than there are separators. */
  lemma {:induction false} SplitCount(s: string, sep: char)
    ensures |Split(s, sep)| == Count(s, sep) + 1
    decreases |s|
  {
    if s != [] {
      SplitCount(s[1..], sep);
    }
  }

  /** A string that does not end in the separator has a non-empty last field. */
  lemma {:induction false} SplitLastNonEmpty(s: string, sep: char)
    requires s != [] && s[|s| - 1] != sep
    ensures var fs := Split(s, sep); fs[|fs| - 1] != []
    decreases |s|
  {
    var rest := Split(s[1..], sep);
    if |s| == 1 {
      assert Split(s, sep) == [[s[0]] + rest[0]] + rest[1..];
    } else {
      assert s[1..][|s[1..]| - 1] == s[|s| - 1];
      SplitLastNonEmpty(s[1..], sep);
      if s[0] == sep {
        assert Split(s, sep) == [[]] + rest;
      } else {
        assert Split(s, sep) == [[s[0]] + rest[0]] + rest[1..];
      }
    }
  }

  lemma {:induction false} JoinSnoc(xs: seq<string>, y: string, sep: string)
    requires xs != []
    ensures Join(xs + [y], sep) == Join(xs, sep) + sep + y
    decreases |xs|
  {
    if |xs| > 1 {
      assert (xs + [y])[1..] == xs[1..] + [y];
      JoinSnoc(xs[1..], y, sep);
    }
  }
}
