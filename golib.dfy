/** The pieces of Go's standard library whose exact behaviour the core's decisions
    depend on: int64 wrap-around, fmt's `%d` and strconv.ParseInt in base 10,
    strings.TrimSpace and strings.Trim with a one-character cut set, the
    segments of a '/'-separated path, path.Clean, and path.Join of a directory
    and a name.
    Strings are sequences of Unicode code points (Go's runes). */
module GoLib {
  import opened Wrappers

  const MinInt64: int := -0x8000_0000_0000_0000
  const MaxInt64: int := 0x7FFF_FFFF_FFFF_FFFF
  const TwoTo64: int := 0x1_0000_0000_0000_0000

  type int64 = x: int | MinInt64 <= x <= MaxInt64

  /** Go's `x + 1` on an int64: the int64 congruent to x + 1 modulo 2^64. */
  function Inc(x: int64): (r: int64)
    ensures (r - (x + 1)) % TwoTo64 == 0
    ensures x < MaxInt64 ==> r > x
  {
    if x == MaxInt64 then MinInt64 else x + 1
  }

  // ---------------------------------------------------------------------------
  // Fallback chains

  /** The first non-empty string among `candidates`, or "" when every one is empty. */
  function FirstNonEmpty(candidates: seq<string>): (s: string)
    ensures s != "" <==> exists i :: 0 <= i < |candidates| && candidates[i] != ""
    ensures s != "" ==> exists i :: 0 <= i < |candidates| && candidates[i] == s &&
                                    forall j :: 0 <= j < i ==> candidates[j] == ""
  {
    if candidates == [] then ""
    else if candidates[0] != "" then candidates[0]
    else FirstNonEmpty(candidates[1..])
  }

  /** The three-step fallback the title and slug chains use. */
  lemma FirstNonEmptyOfThree(x: string, y: string, z: string)
    ensures FirstNonEmpty([x, y, z]) == if x != "" then x else if y != "" then y else z
  {
    assert [x, y, z][1..] == [y, z];
    assert [y, z][1..] == [z];
    assert [z][1..] == [];
    if x == "" {
      assert FirstNonEmpty([x, y, z]) == FirstNonEmpty([y, z]);
      if y == "" {
        assert FirstNonEmpty([y, z]) == FirstNonEmpty([z]);
      }
    }
  }

  // ---------------------------------------------------------------------------
  // Decimal numbers

  predicate IsDigit(c: char) { '0' <= c <= '9' }

  predicate AllDigits(s: string) { forall i :: 0 <= i < |s| ==> IsDigit(s[i]) }

  function DigitValue(c: char): (d: nat)
    requires IsDigit(c)
    ensures d < 10
  {
    c as int - '0' as int
  }

  function DigitChar(d: nat): (c: char)
    requires d < 10
    ensures IsDigit(c) && DigitValue(c) == d
  {
    ('0' as int + d) as char
  }

  /** The decimal digits of n, most significant first, without leading zeros. */
  function NatToDecimal(n: nat): (s: string)
    ensures |s| > 0 && AllDigits(s)
    ensures s[0] == '0' ==> n == 0
    decreases n
  {
    if n < 10 then [DigitChar(n)] else NatToDecimal(n / 10) + [DigitChar(n % 10)]
  }

  /** The number a string of decimal digits denotes. */
  function DigitsValue(s: string): nat
    requires AllDigits(s)
  {
    if s == [] then 0 else DigitsValue(s[..|s| - 1]) * 10 + DigitValue(s[|s| - 1])
  }

  /** fmt's `%d` of an integer. */
  function FormatInt(x: int): (s: string)
    ensures |s| > 0 && (s[0] == '-' <==> x < 0)
  {
    if x < 0 then "-" + NatToDecimal(-x) else NatToDecimal(x)
  }

  /** strconv.ParseInt(s, 10, _) before its range check: an optional sign
      followed by one or more decimal digits (leading zeros allowed). */
  function ParseDecimal(s: string): (r: Option<int>)
    ensures r.Some? ==> s != "" && (IsDigit(s[0]) || s[0] == '+' || s[0] == '-')
    ensures r.Some? && r.value < 0 ==> s[0] == '-'
  {
    if s != [] && (s[0] == '+' || s[0] == '-') then
      if |s| > 1 && AllDigits(s[1..]) then
        var v: int := DigitsValue(s[1..]);
        Some(if s[0] == '-' then -v else v)
      else None
    else if s != [] && AllDigits(s) then Some(DigitsValue(s))
    else None
  }

  /** strconv.ParseInt(s, 10, 64): fails on a malformed string or a value outside int64. */
  function ParseInt64(s: string): (r: Option<int64>)
    ensures r.Some? <==> ParseDecimal(s).Some? && MinInt64 <= ParseDecimal(s).value <= MaxInt64
    ensures r.Some? ==> r.value == ParseDecimal(s).value
  {
    match ParseDecimal(s)
    case Some(v) => if MinInt64 <= v <= MaxInt64 then Some(v) else None
    case None => None
  }

  lemma {:induction false} DigitsValueOfDecimal(n: nat)
    ensures DigitsValue(NatToDecimal(n)) == n
    decreases n
  {
    if n >= 10 {
      var s := NatToDecimal(n);
      assert s[..|s| - 1] == NatToDecimal(n / 10);
      DigitsValueOfDecimal(n / 10);
    }
  }

  /** Parsing what `%d` prints gives back the number. */
  lemma FormatThenParse(x: int)
    ensures ParseDecimal(FormatInt(x)) == Some(x)
  {
    var s := FormatInt(x);
    if x < 0 {
      assert s[1..] == NatToDecimal(-x);
      DigitsValueOfDecimal(-x);
    } else {
      DigitsValueOfDecimal(x);
    }
  }

  lemma FormatThenParseInt64(x: int64)
    ensures ParseInt64(FormatInt(x)) == Some(x)
  {
    FormatThenParse(x);
  }

  // ---------------------------------------------------------------------------
  // strings.TrimSpace and strings.Trim

  /** unicode.IsSpace: the white space strings.TrimSpace removes. */
  predicate IsSpace(c: char)
  {
    || c == ' ' || c == '\t' || c == '\n' || c == '\U{000B}' || c == '\U{000C}' || c == '\r'
    || c == '\U{0085}' || c == '\U{00A0}' || c == '\U{1680}'
    || ('\U{2000}' <= c <= '\U{200A}')
    || c == '\U{2028}' || c == '\U{2029}' || c == '\U{202F}' || c == '\U{205F}' || c == '\U{3000}'
  }

  /** The longest suffix of s that does not start with a character in the cut set. */
  function TrimLeft(s: string, cut: char -> bool): (r: string)
    ensures |r| <= |s| && r == s[|s| - |r|..]
    ensures r != [] ==> !cut(r[0])
    ensures forall i :: 0 <= i < |s| - |r| ==> cut(s[i])
  {
    if s != [] && cut(s[0]) then
      var r := TrimLeft(s[1..], cut);
      assert s[1..][|s| - 1 - |r|..] == s[|s| - |r|..];
      assert forall i :: 1 <= i < |s| - |r| ==> s[i] == s[1..][i - 1];
      r
    else s
  }

  /** The longest prefix of s that does not end with a character in the cut set. */
  function TrimRight(s: string, cut: char -> bool): (r: string)
    ensures |r| <= |s| && r == s[..|r|]
    ensures r != [] ==> !cut(r[|r| - 1])
    ensures forall i :: |r| <= i < |s| ==> cut(s[i])
  {
    if s != [] && cut(s[|s| - 1]) then TrimRight(s[..|s| - 1], cut) else s
  }

  /** Nothing is trimmed from a string that starts and ends outside the cut set. */
  lemma TrimUnchanged(s: string, cut: char -> bool)
    requires s == [] || (!cut(s[0]) && !cut(s[|s| - 1]))
    ensures TrimLeft(s, cut) == s && TrimRight(s, cut) == s
  {
  }

  /** One character of the cut set in front of a string that starts outside it is trimmed. */
  lemma TrimLeftOne(c: char, rest: string, cut: char -> bool)
    requires cut(c) && rest != [] && !cut(rest[0])
    ensures TrimLeft([c] + rest, cut) == rest
  {
    assert ([c] + rest)[1..] == rest;
  }

  /** strings.TrimSpace. */
  function TrimSpace(s: string): string
  {
    TrimRight(TrimLeft(s, IsSpace), IsSpace)
  }

  /** strings.Trim(s, "/"): strips every leading and trailing '/'. */
  function TrimSlashes(s: string): string
  {
    TrimRight(TrimLeft(s, IsSlash), IsSlash)
  }

  // ---------------------------------------------------------------------------
  // Paths

  /** The length of p's first segment: everything before the first '/'. */
  function NameLength(p: string): (n: nat)
    ensures n <= |p| && '/' !in p[..n] && (n < |p| ==> p[n] == '/')
  {
    if p == [] || p[0] == '/' then 0 else 1 + NameLength(p[1..])
  }

  /** The non-empty names of a '/'-separated path, in order. */
  function Segments(p: string): (r: seq<string>)
    ensures forall i :: 0 <= i < |r| ==> r[i] != "" && '/' !in r[i]
    decreases |p|
  {
    if p == [] then []
    else if p[0] == '/' then Segments(p[1..])
    else var n := NameLength(p); [p[..n]] + Segments(p[n..])
  }

  /** The names of a path after path.Clean's lexical rules, read left to
      right: "." is dropped; ".." removes the name before it, is dropped at
      the root of a rooted path, and is kept at the start of a relative one. */
  function CleanNames(rooted: bool, names: seq<string>): (r: seq<string>)
    requires forall i :: 0 <= i < |names| ==> names[i] != "" && '/' !in names[i]
    ensures forall i :: 0 <= i < |r| ==> r[i] != "" && '/' !in r[i] && r[i] != "."
    ensures rooted ==> forall i :: 0 <= i < |r| ==> r[i] != ".."
    decreases |names|
  {
    if names == [] then []
    else
      var prev := CleanNames(rooted, names[..|names| - 1]);
      var last := names[|names| - 1];
      if last == "." then prev
      else if last == ".." then
        if prev != [] && prev[|prev| - 1] != ".." then prev[..|prev| - 1]
        else if rooted then prev
        else prev + [".."]
      else prev + [last]
  }

  /** strings.Join(names, "/"). */
  function JoinNames(names: seq<string>): string
    decreases |names|
  {
    if names == [] then ""
    else if |names| == 1 then names[0]
    else JoinNames(names[..|names| - 1]) + "/" + names[|names| - 1]
  }

  predicate IsRooted(p: string)
  {
    p != [] && p[0] == '/'
  }

  /** path.Clean: the shortest equivalent path, by lexical processing alone;
      "/" stays the root and an empty result is ".". */
  function Clean(p: string): string
  {
    var body := JoinNames(CleanNames(IsRooted(p), Segments(p)));
    if IsRooted(p) then "/" + body
    else if body == "" then "."
    else body
  }

  /** path.Join(dir, name): the non-empty arguments joined by '/', then
      cleaned; "" when both are empty. */
  function JoinPath(dir: string, name: string): string
  {
    if dir == "" && name == "" then ""
    else if dir == "" then Clean(name)
    else if name == "" then Clean(dir)
    else Clean(dir + "/" + name)
  }

  predicate IsSlash(c: char) { c == '/' }

  lemma {:induction false} NameLengthAppend(a: string, s: string)
    requires NameLength(a) < |a| || (s != [] && s[0] == '/')
    ensures NameLength(a + s) == NameLength(a)
    decreases |a|
  {
    if a != [] && a[0] != '/' {
      assert (a + s)[1..] == a[1..] + s;
      NameLengthAppend(a[1..], s);
    }
  }

  /** Joining two paths with a '/' concatenates their segments. */
  lemma {:induction false} SegmentsConcatSlash(a: string, b: string)
    ensures Segments(a + "/" + b) == Segments(a) + Segments(b)
    decreases |a|
  {
    var p := a + "/" + b;
    if a == [] {
      assert p[1..] == b;
    } else if a[0] == '/' {
      assert p[1..] == a[1..] + "/" + b;
      SegmentsConcatSlash(a[1..], b);
    } else {
      var n := NameLength(a);
      assert p == a + ("/" + b);
      NameLengthAppend(a, "/" + b);
      assert p[..n] == a[..n];
      assert p[n..] == a[n..] + "/" + b;
      SegmentsConcatSlash(a[n..], b);
    }
  }

  /** Joining names by '/' and splitting the result gives the names back. */
  lemma {:induction false} SegmentsOfJoinNames(names: seq<string>)
    requires forall i :: 0 <= i < |names| ==> names[i] != "" && '/' !in names[i]
    ensures Segments(JoinNames(names)) == names
    decreases |names|
  {
    if |names| == 1 {
      SegmentsOfName(names[0]);
    } else if |names| > 1 {
      var init, last := names[..|names| - 1], names[|names| - 1];
      SegmentsOfJoinNames(init);
      SegmentsConcatSlash(JoinNames(init), last);
      SegmentsOfName(last);
      assert init + [last] == names;
    }
  }

  /** path.Join of a directory and a single ordinary name adds that name below
      the cleaned directory. */
  lemma JoinPathSegments(dir: string, name: string)
    requires name != "" && '/' !in name && name != "." && name != ".."
    ensures Segments(JoinPath(dir, name)) == CleanNames(IsRooted(dir), Segments(dir)) + [name]
  {
    SegmentsOfName(name);
    var p := if dir == "" then name else dir + "/" + name;
    if dir != "" {
      SegmentsConcatSlash(dir, name);
      assert IsRooted(p) == IsRooted(dir);
    }
    var names := Segments(dir) + [name];
    assert Segments(p) == names;
    assert names[..|names| - 1] == Segments(dir);
    var cleaned := CleanNames(IsRooted(dir), names);
    assert cleaned == CleanNames(IsRooted(dir), Segments(dir)) + [name];
    SegmentsOfJoinNames(cleaned);
    var body := JoinNames(cleaned);
    assert body != "";
    if IsRooted(dir) {
      assert ("/" + body)[1..] == body;
    }
  }

  /** `-out ./d` writes into "d": a leading "./" is cleaned away. */
  lemma JoinPathCleansDot(d: char, x: char)
    requires d != '/' && d != '.' && x != '/' && x != '.'
    ensures JoinPath(['.', '/', d], [x]) == [d, '/', x]
  {
    var p := ['.', '/', d] + "/" + [x];
    assert p == ['.', '/', d, '/', x];
    SegmentsOfName([x]);
    assert Segments(['/', x]) == [[x]] by { assert ['/', x][1..] == [x]; }
    assert Segments([d, '/', x]) == [[d], [x]] by {
      var q := [d, '/', x];
      assert NameLength(q) == 1 by { assert q[1..] == ['/', x]; }
      assert q[..1] == [d] && q[1..] == ['/', x];
    }
    assert Segments(p) == [['.'], [d], [x]] by {
      assert NameLength(p) == 1 by { assert p[1..] == ['/', d, '/', x]; }
      assert p[..1] == ['.'] && p[1..] == ['/', d, '/', x];
      assert Segments(['/', d, '/', x]) == [[d], [x]] by {
        assert ['/', d, '/', x][1..] == [d, '/', x];
      }
    }
    var names := [['.'], [d], [x]];
    assert [d] != "." && [d] != ".." && [x] != "." && [x] != "..";
    assert CleanNames(false, [['.']]) == [] by { assert [['.']][..0] == []; }
    assert CleanNames(false, [['.'], [d]]) == [[d]] by { assert [['.'], [d]][..1] == [['.']]; }
    assert CleanNames(false, names) == [[d], [x]] by { assert names[..2] == [['.'], [d]]; }
    assert JoinNames([[d], [x]]) == [d] + "/" + [x] by { assert [[d], [x]][..1] == [[d]]; }
  }

  /** A single name is its own only segment. */
  lemma SegmentsOfName(s: string)
    requires s != "" && '/' !in s
    ensures Segments(s) == [s]
  {
    NameLengthOfName(s);
    assert s[0] != '/' by { assert s[0] in s; }
    assert s[..NameLength(s)] == s;
    assert s[NameLength(s)..] == [];
  }

  lemma {:induction false} NameLengthOfName(s: string)
    requires '/' !in s
    ensures NameLength(s) == |s|
  {
    if s != [] {
      assert '/' !in s[1..];
      NameLengthOfName(s[1..]);
    }
  }
}
