/** The part of Python's `pathlib.PurePosixPath` that the command line relies on: reading a
    path string into a root flag and components, writing it back, the final component with its
    stem and suffix, the parent, joining with `/`, and `with_suffix`. */
module PathNames {
  import opened Wrappers
  import opened PyText

  /** A parsed path: whether it starts at the root, and its components in order. */
  datatype PurePath = PurePath(absolute: bool, parts: seq<string>)

  /** A component as parsing leaves it: not empty, not `.`, and without a separator. */
  predicate ValidPart(part: string) {
    part != "" && part != "." && '/' !in part
  }

  predicate ValidPath(p: PurePath) {
    forall k :: 0 <= k < |p.parts| ==> ValidPart(p.parts[k])
  }

  /** The pieces between separators, less the empty ones and the `.` ones, in order. */
  function Keep(pieces: seq<string>): (kept: seq<string>)
    ensures |kept| <= |pieces|
    ensures forall k :: 0 <= k < |kept| ==> kept[k] != "" && kept[k] != "." && kept[k] in pieces
  {
    if pieces == [] then []
    else (if pieces[0] == "" || pieces[0] == "." then [] else [pieces[0]]) + Keep(pieces[1..])
  }

  lemma {:induction false} KeepValid(parts: seq<string>)
    requires forall k :: 0 <= k < |parts| ==> ValidPart(parts[k])
    ensures Keep(parts) == parts
  {
    if parts != [] {
      KeepValid(parts[1..]);
      assert [parts[0]] + parts[1..] == parts;
    }
  }

  /** `PurePosixPath(s)`: a leading `/` makes it absolute; `a//b`, `a/./b` and a trailing `/`
      collapse, while `..` stays a component. */
  function Parse(s: string): (p: PurePath)
    ensures ValidPath(p)
    ensures p.absolute <==> |s| > 0 && s[0] == '/'
  {
    var pieces := Split(s, '/');
    var kept := Keep(pieces);
    assert forall k :: 0 <= k < |kept| ==> '/' !in kept[k] by {
      forall k | 0 <= k < |kept|
        ensures '/' !in kept[k]
      {
        var j :| 0 <= j < |pieces| && pieces[j] == kept[k];
      }
    }
    PurePath(|s| > 0 && s[0] == '/', kept)
  }

  /** `str(p)`: `.` for the empty relative path, `/` for the root. */
  function Format(p: PurePath): string {
    if p.parts == [] then (if p.absolute then "/" else ".")
    else (if p.absolute then "/" else "") + Join(p.parts, '/')
  }

  /** The joined components of a relative path read back as that path. */
  lemma ParseJoined(parts: seq<string>)
    requires |parts| > 0 && forall k :: 0 <= k < |parts| ==> ValidPart(parts[k])
    ensures Parse(Join(parts, '/')) == PurePath(false, parts)
  {
    var joined := Join(parts, '/');
    JoinSplitRoundTrip(parts, '/');
    JoinStartsWithFirst(parts, '/');
    assert joined[0] == parts[0][0];
    KeepValid(parts);
  }

  /** A leading separator adds an empty first piece. */
  lemma SplitRooted(s: string)
    ensures Split("/" + s, '/') == [""] + Split(s, '/')
  {
    SplitAppend("", s, '/');
    assert "" + ['/'] + s == "/" + s;
  }

  /** An empty first piece is dropped. */
  lemma KeepAfterEmpty(pieces: seq<string>)
    ensures Keep([""] + pieces) == Keep(pieces)
  {
    assert ([""] + pieces)[1..] == pieces;
  }

  /** The same behind a leading separator: an absolute path. */
  lemma ParseRooted(parts: seq<string>)
    requires |parts| > 0 && forall k :: 0 <= k < |parts| ==> ValidPart(parts[k])
    ensures Parse("/" + Join(parts, '/')) == PurePath(true, parts)
  {
    var joined := Join(parts, '/');
    JoinSplitRoundTrip(parts, '/');
    SplitRooted(joined);
    KeepAfterEmpty(parts);
    KeepValid(parts);
  }

  /** Writing a parsed path out and reading it back gives the same path. */
  lemma ParseFormat(p: PurePath)
    requires ValidPath(p)
    ensures Parse(Format(p)) == p
  {
    if p.parts == [] {
      if p.absolute {
        assert Split("/", '/') == ["", ""] by {
          SplitAppend("", "", '/');
          assert "" + ['/'] + "" == "/";
        }
      } else {
        SplitNoSep(".", '/');
      }
    } else if p.absolute {
      ParseRooted(p.parts);
    } else {
      assert Format(p) == Join(p.parts, '/');
      ParseJoined(p.parts);
    }
  }

  /** `p.name`: the last component, or `""` when there is none. */
  function Name(p: PurePath): string {
    if p.parts == [] then "" else p.parts[|p.parts| - 1]
  }

  /** `p.parent`: the path without its last component; the root and `.` are their own parent. */
  function Parent(p: PurePath): PurePath {
    if p.parts == [] then p else PurePath(p.absolute, p.parts[..|p.parts| - 1])
  }

  /** Where the suffix of a name starts: at its last dot, unless that dot is the first or
      the last character. */
  predicate HasSuffixAt(name: string, i: int) {
    0 < i < |name| - 1
  }

  /** `p.suffix` of a final component: from its last dot on, or `""`. */
  function Suffix(name: string): string {
    var i := RFind(name, '.');
    if HasSuffixAt(name, i) then name[i..] else ""
  }

  /** `p.stem` of a final component: everything before the suffix. */
  function Stem(name: string): string {
    var i := RFind(name, '.');
    if HasSuffixAt(name, i) then name[..i] else name
  }

  /** A name is its stem followed by its suffix; a suffix is empty, or a dot followed by at least
      one character and no further dot; a non-empty name has a non-empty stem. */
  lemma StemSuffix(name: string)
    ensures Stem(name) + Suffix(name) == name
    ensures Suffix(name) == "" || (|Suffix(name)| >= 2 && Suffix(name)[0] == '.' && '.' !in Suffix(name)[1..])
    ensures name != "" ==> Stem(name) != ""
  {
    var i := RFind(name, '.');
    if HasSuffixAt(name, i) {
      assert name[..i] + name[i..] == name;
      var suffix := name[i..];
      forall k | 1 <= k < |suffix|
        ensures suffix[k] != '.'
      {
        assert suffix[k] == name[i + k];
      }
    }
  }

  /** `p / s`: an absolute `s` replaces `p`; otherwise its components follow those of `p`. */
  function Div(p: PurePath, s: string): PurePath {
    var q := Parse(s);
    if q.absolute then q else PurePath(p.absolute, p.parts + q.parts)
  }

  /** Joining a single valid component appends it. */
  lemma DivPart(p: PurePath, part: string)
    requires ValidPart(part)
    ensures Div(p, part) == PurePath(p.absolute, p.parts + [part])
  {
    SplitNoSep(part, '/');
    assert Keep([part]) == [part];
  }

  /** The suffixes `with_suffix` accepts: `""`, or one that starts with a dot, is not a lone dot
      and holds no separator. */
  predicate ValidSuffix(suffix: string) {
    '/' !in suffix && (suffix == "" || suffix[0] == '.') && suffix != "."
  }

  /** `p.with_suffix(suffix)`: raises `ValueError` for an invalid suffix, then for a path
      without a name; otherwise the last component becomes its stem followed by `suffix`. */
  function WithSuffix(p: PurePath, suffix: string): (r: Result<PurePath, string>)
    ensures r.Success? <==> ValidSuffix(suffix) && Name(p) != ""
    ensures r.Success? ==> && r.value.absolute == p.absolute
                           && Parent(r.value) == Parent(p)
                           && Name(r.value) == Stem(Name(p)) + suffix
  {
    if '/' in suffix || (suffix != "" && suffix[0] != '.') || suffix == "." then Failure("Invalid suffix")
    else if Name(p) == "" then Failure("has an empty name")
    else
      var q := PurePath(p.absolute, p.parts[..|p.parts| - 1] + [Stem(Name(p)) + suffix]);
      assert q.parts[..|q.parts| - 1] == p.parts[..|p.parts| - 1];
      Success(q)
  }

  /** Replacing the suffix of a valid path with a valid non-empty one gives a valid path. */
  lemma WithSuffixValid(p: PurePath, suffix: string)
    requires ValidPath(p) && ValidSuffix(suffix) && suffix != "" && Name(p) != ""
    ensures ValidPath(WithSuffix(p, suffix).value)
  {
    var name := Name(p);
    StemSuffix(name);
    var q := WithSuffix(p, suffix).value;
    var n := |p.parts|;
    assert q.parts == p.parts[..n - 1] + [Stem(name) + suffix];
    assert '/' !in Stem(name) by {
      assert forall k :: 0 <= k < |Stem(name)| ==> Stem(name)[k] == name[k];
    }
    assert ValidPart(Stem(name) + suffix) by {
      assert |Stem(name) + suffix| >= 2;
      assert forall k :: 0 <= k < |Stem(name) + suffix| ==>
        (Stem(name) + suffix)[k] == if k < |Stem(name)| then Stem(name)[k] else suffix[k - |Stem(name)|];
    }
  }
}
