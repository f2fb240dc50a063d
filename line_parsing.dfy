/** The line-oriented reading of a Jbuilder template that `Template` and its
    predecessor `Parser` share: cutting the source into code lines, taking
    a line apart into property, inline schema and arguments, and folding
    the parsed lines into a property map. */
module LineParsing {
  import opened RubyValues
  import opened RubyStrings

  predicate IsNewline(c: char) {
    c == '\n' || c == '\r'
  }

  /** `source.to_s.split(/\n+|\r+/).reject(&:empty?)`: the non-empty runs of
      characters between line breaks. Splitting on runs of `\n` or of `\r`
      and then rejecting empty strings leaves exactly these runs. */
  function SourceLines(source: string): (r: seq<string>)
    ensures forall l, c :: l in r && c in l ==> !IsNewline(c)
  {
    NonEmpty(FieldsWhere(source, IsNewline))
  }

  /** `.reject { |l| l.start_with?("#") }.map { |l| l.split("#").first }`
      on lines that are already non-empty. */
  function StripComments(ls: seq<string>): (r: seq<string>)
    ensures |r| <= |ls|
    ensures forall l :: l in r ==> l != [] && '#' !in l && exists i :: 0 <= i < |ls| && l <= ls[i]
  {
    if ls == [] then []
    else
      (if ls[0] == [] || ls[0][0] == '#' then [] else [TakeUntil(ls[0], '#')])
      + StripComments(ls[1..])
  }

  /** `_lines`: the code part of every line that is not a comment line. */
  function CodeLines(source: string): (r: seq<string>)
    ensures forall l :: l in r ==> l != [] && '#' !in l && '\n' !in l && '\r' !in l
  {
    StripCommentsShape(SourceLines(source));
    StripComments(SourceLines(source))
  }

  lemma {:induction false} StripCommentsShape(ls: seq<string>)
    requires forall l, c :: l in ls && c in l ==> !IsNewline(c)
    ensures forall l :: l in StripComments(ls) ==> l != [] && '#' !in l && '\n' !in l && '\r' !in l
  {
    if ls != [] {
      assert forall l :: l in ls[1..] ==> l in ls;
      StripCommentsShape(ls[1..]);
      if ls[0] != [] && ls[0][0] != '#' {
        var t := TakeUntil(ls[0], '#');
        assert forall c :: c in t ==> c in ls[0];
      }
    }
  }

  lemma {:induction false} NonEmptyAppend(a: seq<string>, b: seq<string>)
    ensures NonEmpty(a + b) == NonEmpty(a) + NonEmpty(b)
  {
    if a == [] {
      assert a + b == b;
    } else {
      assert (a + b)[1..] == a[1..] + b;
      NonEmptyAppend(a[1..], b);
    }
  }

  lemma {:induction false} StripCommentsAppend(a: seq<string>, b: seq<string>)
    ensures StripComments(a + b) == StripComments(a) + StripComments(b)
  {
    if a == [] {
      assert a + b == b;
    } else {
      assert (a + b)[1..] == a[1..] + b;
      StripCommentsAppend(a[1..], b);
    }
  }

  /** Lines are read independently and in source order: the code lines of
      two pieces of source joined by a line break (`\n` or `\r`) are the code
      lines of the first piece followed by those of the second. */
  lemma CodeLinesAppend(a: string, c: char, b: string)
    requires IsNewline(c)
    ensures CodeLines(a + [c] + b) == CodeLines(a) + CodeLines(b)
  {
    FieldsAppend(a, c, b, IsNewline);
    NonEmptyAppend(FieldsWhere(a, IsNewline), FieldsWhere(b, IsNewline));
    StripCommentsAppend(SourceLines(a), SourceLines(b));
  }

  /** A single line yields nothing when it is empty or starts with `#`, and
      otherwise the part before its first `#`. */
  lemma {:induction false} CodeLinesOfLine(l: string)
    requires '\n' !in l && '\r' !in l
    ensures CodeLines(l) == if l == [] || l[0] == '#' then [] else [TakeUntil(l, '#')]
  {
    NoSeparatorOneField(l, IsNewline);
    assert [l][1..] == [];
    assert NonEmpty([l]) == (if l == [] then [] else [l]) + NonEmpty([]);
    assert SourceLines(l) == if l == [] then [] else [l];
    if l != [] {
      assert StripComments([l]) == (if l[0] == '#' then [] else [TakeUntil(l, '#')]) + StripComments([]);
    }
  }

  /** What `_lines` keeps of a code line, `TakeUntil(l, '#')`, is the
      `first` of Ruby's `l.split("#")`. */
  lemma {:induction false} BeforeCommentIsFirstField(l: string)
    requires l != [] && l[0] != '#'
    ensures RubySplit(l, '#') != [] && RubySplit(l, '#')[0] == TakeUntil(l, '#')
  {
    FirstFieldIsTakeUntil(l, '#');
    assert TakeUntil(l, '#') != [];
  }

  lemma {:induction false} FirstFieldIsTakeUntil(s: string, sep: char)
    ensures Split(s, sep)[0] == TakeUntil(s, sep)
    decreases |s|
  {
    if s != [] && s[0] != sep {
      FirstFieldIsTakeUntil(s[1..], sep);
    }
  }

  /** What the abstract fragment cutter returns for a line it can read: the
      line with its `schema: {...}` fragment cut out (`slice!`), and the hash
      that `SafeParser` read from that fragment (`{}` when there is none). */
  datatype Cut = Cut(rest: string, schema: Dict<Key, Value>)

  /** One parsed line: `{property:, schema:, arguments:}`. */
  datatype Line = Line(property: Key, schema: Dict<Key, Value>, arguments: seq<string>)

  /** `line.split.first.delete_prefix("json.")`, or `None` where `split.first`
      is `nil` (a line of whitespace only) and the call fails. */
  function PropertyName(line: string): (r: Option<string>)
    ensures r.None? <==> Words(line) == []
    ensures r.Some? && StartsWith(Words(line)[0], "json.") ==> "json." + r.value == Words(line)[0]
    ensures r.Some? && !StartsWith(Words(line)[0], "json.") ==> r.value == Words(line)[0]
  {
    var ws := Words(line);
    if ws == [] then None else Some(DeletePrefix(ws[0], "json."))
  }

  /** `line.split[1..].map { |e| e.delete(",") }`, or `None` where the
      line has no word at all and `split[1..]` is `nil`. */
  function ArgumentsOf(line: string): (r: Option<seq<string>>)
    ensures r.None? <==> Words(line) == []
    ensures r.Some? ==> |r.value| == |Words(line)| - 1
    ensures r.Some? ==> forall i :: 0 <= i < |r.value| ==> ',' !in r.value[i]
    ensures r.Some? ==> forall i :: 0 <= i < |r.value| ==> r.value[i] == Delete(Words(line)[i + 1], ',')
  {
    var ws := Words(line);
    if ws == [] then None
    else Some(seq(|ws| - 1, i requires 0 <= i < |ws| - 1 => Delete(ws[i + 1], ',')))
  }

  /** The entries `property => schema`, one per line, in line order. */
  function PropertyEntries(lines: seq<Line>): (es: Dict<Key, Dict<Key, Value>>)
    ensures |es| == |lines|
    ensures forall i :: 0 <= i < |lines| ==> es[i] == Entry(lines[i].property, lines[i].schema)
  {
    seq(|lines|, i requires 0 <= i < |lines| => Entry(lines[i].property, lines[i].schema))
  }

  /** The hash built by `_create_properties!` and `_create_schema!`:
      `hash[line[:property]] = line[:schema]` for each line in order. */
  function PropertyMap(lines: seq<Line>): Dict<Key, Dict<Key, Value>> {
    StoreAll([], PropertyEntries(lines))
  }

  /** The property map has exactly the lines' property names as keys, each
      once, and a repeated name keeps the schema of its last line. */
  lemma PropertyMapSpec(lines: seq<Line>)
    ensures DistinctKeys(PropertyMap(lines))
    ensures forall k :: HasKey(PropertyMap(lines), k) <==> exists i :: 0 <= i < |lines| && lines[i].property == k
    ensures forall i :: 0 <= i < |lines| && (forall j :: i < j < |lines| ==> lines[j].property != lines[i].property) ==>
      Get(PropertyMap(lines), lines[i].property) == Some(lines[i].schema)
  {
    var es := PropertyEntries(lines);
    StoreAllSpec([], es);
    forall k ensures HasKey(es, k) <==> exists i :: 0 <= i < |lines| && lines[i].property == k {
      HasKeyAt(es, k);
    }
    forall i | 0 <= i < |lines| && (forall j :: i < j < |lines| ==> lines[j].property != lines[i].property)
      ensures Get(PropertyMap(lines), lines[i].property) == Some(lines[i].schema)
    {
      LastWithAt(es, lines[i].property, i);
    }
  }

  /** The loop of `_create_properties!` / `_create_schema!` over the parsed
      lines, sorted by line index. */
  method IndexByProperty(lines: seq<Line>) returns (hash: Dict<Key, Dict<Key, Value>>)
    ensures hash == PropertyMap(lines)
  {
    var es := PropertyEntries(lines);
    hash := [];
    var i := 0;
    while i < |lines|
      invariant 0 <= i <= |lines|
      invariant StoreAll(hash, es[i..]) == StoreAll([], es)
    {
      assert es[i..][1..] == es[i + 1..];
      hash := Store(hash, lines[i].property, lines[i].schema);
      i := i + 1;
    }
  }
}
