/**
 Text as the server sees it: a string of UTF-8 bytes, one `char` per byte. Splitting, prefix
 tests and comparisons on such text agree with the same operations on Rust's `str`, because
 every separator used is ASCII.
 */
module Text {
  import opened Prelude

  /** Rust's `split(sep)`: one more part than there are separators, never empty. */
  function Split(s: string, sep: char): (r: seq<string>)
    ensures |r| > 0
    ensures forall i :: 0 <= i < |r| ==> sep !in r[i]
  {
    if s == "" then [""]
    else
      var rest := Split(s[1..], sep);
      if s[0] == sep then [""] + rest else [[s[0]] + rest[0]] + rest[1..]
  }

  function Join(parts: seq<string>, sep: char): string {
    if parts == [] then ""
    else if |parts| == 1 then parts[0]
    else parts[0] + [sep] + Join(parts[1..], sep)
  }

  lemma {:induction false} SplitAtSeparator(a: string, sep: char, b: string)
    requires sep !in a
    ensures Split(a + [sep] + b, sep) == [a] + Split(b, sep)
  {
    var s := a + [sep] + b;
    if a == "" {
      assert s[1..] == b;
    } else {
      assert s[0] == a[0] && s[1..] == a[1..] + [sep] + b;
      SplitAtSeparator(a[1..], sep, b);
      assert [a[0]] + a[1..] == a;
    }
  }

  lemma {:induction false} SplitWithoutSeparator(a: string, sep: char)
    requires sep !in a
    ensures Split(a, sep) == [a]
  {
    if a != "" {
      SplitWithoutSeparator(a[1..], sep);
      assert [a[0]] + a[1..] == a;
    }
  }

  /** Parts that do not contain the separator survive joining and splitting. */
  lemma {:induction false} SplitOfJoin(parts: seq<string>, sep: char)
    requires parts != [] && forall i :: 0 <= i < |parts| ==> sep !in parts[i]
    ensures Split(Join(parts, sep), sep) == parts
  {
    if |parts| == 1 {
      SplitWithoutSeparator(parts[0], sep);
    } else {
      SplitAtSeparator(parts[0], sep, Join(parts[1..], sep));
      SplitOfJoin(parts[1..], sep);
    }
  }

  lemma {:induction false} JoinOfSplit(s: string, sep: char)
    ensures Join(Split(s, sep), sep) == s
  {
    if s != "" {
      JoinOfSplit(s[1..], sep);
      var rest := Split(s[1..], sep);
      if s[0] == sep {
        assert ([""] + rest)[1..] == rest;
      } else {
        var parts := [[s[0]] + rest[0]] + rest[1..];
        assert parts[1..] == rest[1..];
      }
    }
  }

  /** The parts, each followed by the separator. */
  function Terminated(parts: seq<string>, sep: char): string {
    if parts == [] then "" else parts[0] + [sep] + Terminated(parts[1..], sep)
  }

  lemma {:induction false} TerminatedAppend(parts: seq<string>, part: string, sep: char)
    ensures Terminated(parts + [part], sep) == Terminated(parts, sep) + part + [sep]
  {
    if parts == [] {
      assert parts + [part] == [part];
    } else {
      assert (parts + [part])[1..] == parts[1..] + [part];
      TerminatedAppend(parts[1..], part, sep);
    }
  }

  lemma {:induction false} SplitTerminated(parts: seq<string>, sep: char, rest: string)
    requires forall i :: 0 <= i < |parts| ==> sep !in parts[i]
    ensures Split(Terminated(parts, sep) + rest, sep) == parts + Split(rest, sep)
  {
    if parts == [] {
      assert Terminated(parts, sep) + rest == rest;
    } else {
      SplitTerminated(parts[1..], sep, rest);
      SplitAtSeparator(parts[0], sep, Terminated(parts[1..], sep) + rest);
      AppendAssociates(parts[0] + [sep], Terminated(parts[1..], sep), rest);
      HeadAndRest(parts, Split(rest, sep));
    }
  }

  /** Rust's `split_once(sep)`. */
  function SplitOnce(s: string, sep: char): (r: Option<(string, string)>)
    ensures r.Some? ==> sep !in r.value.0 && s == r.value.0 + [sep] + r.value.1
    ensures r.None? <==> sep !in s
  {
    if s == "" then None
    else if s[0] == sep then Some(("", s[1..]))
    else
      var rest := SplitOnce(s[1..], sep);
      if rest.None? then None else Some(([s[0]] + rest.value.0, rest.value.1))
  }

  lemma {:induction false} SplitOnceAt(a: string, sep: char, b: string)
    requires sep !in a
    ensures SplitOnce(a + [sep] + b, sep) == Some((a, b))
  {
    var s := a + [sep] + b;
    if a == "" {
      assert s[1..] == b;
    } else {
      assert s[0] == a[0] && s[1..] == a[1..] + [sep] + b;
      SplitOnceAt(a[1..], sep, b);
      assert [a[0]] + a[1..] == a;
    }
  }

  /** Rust's `trim_matches(c)`. */
  function TrimMatches(s: string, c: char): string {
    TrimEnd(TrimStart(s, c), c)
  }

  function TrimStart(s: string, c: char): string {
    if s != "" && s[0] == c then TrimStart(s[1..], c) else s
  }

  function TrimEnd(s: string, c: char): (r: string)
    ensures r <= s
    ensures r != "" ==> r[|r| - 1] != c
    ensures forall i :: |r| <= i < |s| ==> s[i] == c
  {
    if s != "" && s[|s| - 1] == c then TrimEnd(s[..|s| - 1], c) else s
  }

  function Repeat(c: char, n: nat): string { seq(n, _ => c) }

  lemma {:induction false} TrimStartOf(c: char, n: nat, rest: string)
    requires rest == "" || rest[0] != c
    ensures TrimStart(Repeat(c, n) + rest, c) == rest
  {
    if n > 0 {
      assert (Repeat(c, n) + rest)[1..] == Repeat(c, n - 1) + rest;
      TrimStartOf(c, n - 1, rest);
    } else {
      assert Repeat(c, n) + rest == rest;
    }
  }

  /** Trimming removes the repeated character at both ends, and nothing else. */
  lemma TrimMatchesOf(c: char, before: nat, s: string, after: nat)
    requires s != "" && s[0] != c && s[|s| - 1] != c
    ensures TrimMatches(Repeat(c, before) + s + Repeat(c, after), c) == s
  {
    var rest := s + Repeat(c, after);
    assert Repeat(c, before) + s + Repeat(c, after) == Repeat(c, before) + rest;
    TrimStartOf(c, before, rest);
    var r := TrimEnd(rest, c);
    assert rest[|s| - 1] != c && |r| >= |s|;
    assert r[|r| - 1] == rest[|r| - 1];
    assert |r| == |s| && rest[..|s|] == s;
  }

  lemma TrimEndOf(s: string, c: char, n: nat)
    requires s == "" || s[|s| - 1] != c
    ensures TrimEnd(s + Repeat(c, n), c) == s
  {
    var text := s + Repeat(c, n);
    var r := TrimEnd(text, c);
    assert r == text[..|r|] && s == text[..|s|];
    assert s != "" ==> text[|s| - 1] != c;
    assert r != "" ==> r[|r| - 1] == text[|r| - 1];
    assert |r| == |s|;
  }

  function StripPrefix(s: string, prefix: string): Option<string> {
    if prefix <= s then Some(s[|prefix|..]) else None
  }

  // ---- Order ----------------------------------------------------------------------------------

  /** Byte-wise lexicographic order, Rust's `Ord` for `str`. */
  predicate LexLe(a: string, b: string) {
    a == "" || (b != "" && (a[0] < b[0] || (a[0] == b[0] && LexLe(a[1..], b[1..]))))
  }

  lemma SameHead(a: string, b: string, i: nat)
    requires 0 < i <= |a| && i <= |b| && a[..i] == b[..i]
    ensures a[0] == b[0]
  {
    assert a[0] == a[..i][0] && b[0] == b[..i][0];
  }

  /** The first byte at which two texts differ decides, and a prefix comes first. */
  lemma {:induction false} LexLeMeaning(a: string, b: string)
    ensures LexLe(a, b) <==>
            a <= b || exists i :: 0 <= i < |a| && i < |b| && a[..i] == b[..i] && a[i] < b[i]
  {
    if a != "" && b != "" && a[0] == b[0] {
      var x, y := a[1..], b[1..];
      LexLeMeaning(x, y);
      assert a == [a[0]] + x && b == [b[0]] + y;
      if i :| 0 <= i < |x| && i < |y| && x[..i] == y[..i] && x[i] < y[i] {
        assert a[..i + 1] == [a[0]] + x[..i] && b[..i + 1] == [b[0]] + y[..i] && a[i + 1] < b[i + 1];
      }
      if i :| 0 <= i < |a| && i < |b| && a[..i] == b[..i] && a[i] < b[i] {
        assert x[..i - 1] == a[..i][1..] && y[..i - 1] == b[..i][1..] && x[i - 1] < y[i - 1];
      }
    } else if a != "" && b != "" {
      assert a[0] < b[0] ==> a[..0] == b[..0];
      if i :| 0 <= i < |a| && i < |b| && a[..i] == b[..i] && a[i] < b[i] {
        if i > 0 {
          SameHead(a, b, i);
        }
      }
    }
  }

  lemma {:induction false} LexTotal(a: string, b: string)
    ensures LexLe(a, b) || LexLe(b, a)
  {
    if a != "" && b != "" && a[0] == b[0] {
      LexTotal(a[1..], b[1..]);
    }
  }

  lemma {:induction false} LexAntisymmetric(a: string, b: string)
    requires LexLe(a, b) && LexLe(b, a)
    ensures a == b
  {
    if a != "" {
      LexAntisymmetric(a[1..], b[1..]);
    }
  }

  lemma {:induction false} LexTransitive(a: string, b: string, c: string)
    requires LexLe(a, b) && LexLe(b, c)
    ensures LexLe(a, c)
  {
    if a != "" && a[0] == b[0] && b[0] == c[0] {
      LexTransitive(a[1..], b[1..], c[1..]);
    }
  }
}
