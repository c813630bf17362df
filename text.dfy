/** The string operations of JavaScript that the tree view relies on, over `seq<char>`. */
module Text {

  /** `toLowerCase` on one character; only the ASCII letters A-Z are mapped. */
  function LowerChar(c: char): char {
    if 'A' <= c <= 'Z' then (c as int + 32) as char else c
  }

  /** A character that lower-casing leaves alone and that no other character lower-cases to. */
  predicate CaselessChar(c: char) {
    !('A' <= c <= 'Z') && !('a' <= c <= 'z')
  }

  /** `s.toLowerCase()`. */
  function ToLower(s: string): (r: string)
    ensures |r| == |s|
    ensures forall i :: 0 <= i < |s| ==> r[i] == LowerChar(s[i])
  {
    seq(|s|, i requires 0 <= i < |s| => LowerChar(s[i]))
  }

  lemma ToLowerIdempotent(s: string)
    ensures ToLower(ToLower(s)) == ToLower(s)
  {
  }

  /** `s.startsWith(p)`. */
  predicate StartsWith(s: string, p: string) {
    |p| <= |s| && s[..|p|] == p
  }

  /** `s.endsWith(p)`. */
  predicate EndsWith(s: string, p: string) {
    |p| <= |s| && s[|s| - |p|..] == p
  }

  /** `s.split(c)[0]`: the text before the first `c` (all of `s` when there is none). */
  function BeforeFirst(s: string, c: char): string {
    if s == [] then []
    else if s[0] == c then []
    else [s[0]] + BeforeFirst(s[1..], c)
  }

  /** The text before the first `c` is a prefix free of `c`, followed by `c` unless it is all of `s`. */
  lemma {:induction false} BeforeFirstIsPrefix(s: string, c: char)
    ensures StartsWith(s, BeforeFirst(s, c))
    ensures c !in BeforeFirst(s, c)
    ensures |BeforeFirst(s, c)| < |s| ==> s[|BeforeFirst(s, c)|] == c
  {
    if s != [] && s[0] != c {
      BeforeFirstIsPrefix(s[1..], c);
      var r := BeforeFirst(s[1..], c);
      assert BeforeFirst(s, c) == [s[0]] + r;
      assert s == [s[0]] + s[1..];
    }
  }

  /** `s.split(c).pop()`: the text after the last `c` (all of `s` when there is none). */
  function AfterLast(s: string, c: char): string {
    if s == [] then []
    else if s[|s| - 1] == c then []
    else AfterLast(s[..|s| - 1], c) + [s[|s| - 1]]
  }

  /** The text after the last `c` is a suffix free of `c`, preceded by `c` unless it is all of `s`. */
  lemma {:induction false} AfterLastIsSuffix(s: string, c: char)
    ensures EndsWith(s, AfterLast(s, c))
    ensures c !in AfterLast(s, c)
    ensures |AfterLast(s, c)| < |s| ==> s[|s| - |AfterLast(s, c)| - 1] == c
  {
    if s != [] && s[|s| - 1] != c {
      var init := s[..|s| - 1];
      AfterLastIsSuffix(init, c);
      var r := AfterLast(init, c);
      assert AfterLast(s, c) == r + [s[|s| - 1]];
      assert s == init + [s[|s| - 1]];
    }
  }

  /** Lower-casing commutes with cutting at a caseless separator. */
  lemma {:induction false} LowerBeforeFirst(s: string, c: char)
    requires CaselessChar(c)
    ensures ToLower(BeforeFirst(s, c)) == BeforeFirst(ToLower(s), c)
  {
    if s != [] && s[0] != c {
      LowerBeforeFirst(s[1..], c);
      assert ToLower(s)[1..] == ToLower(s[1..]);
      assert ToLower([s[0]] + BeforeFirst(s[1..], c))
          == [LowerChar(s[0])] + ToLower(BeforeFirst(s[1..], c));
    }
  }

  lemma ToLowerSnoc(a: string, x: char)
    ensures ToLower(a + [x]) == ToLower(a) + [LowerChar(x)]
  {
  }

  lemma {:induction false} LowerAfterLast(s: string, c: char)
    requires CaselessChar(c)
    ensures ToLower(AfterLast(s, c)) == AfterLast(ToLower(s), c)
  {
    if s != [] {
      var init, x := s[..|s| - 1], s[|s| - 1];
      assert s == init + [x];
      ToLowerSnoc(init, x);
      var ls := ToLower(s);
      assert ls[..|s| - 1] == ToLower(init) && ls[|s| - 1] == LowerChar(x);
      if x != c {
        assert LowerChar(x) != c;
        LowerAfterLast(init, c);
        ToLowerSnoc(AfterLast(init, c), x);
      }
    }
  }

  lemma {:induction false} AfterLastWithoutSeparator(s: string, c: char)
    requires c !in s
    ensures AfterLast(s, c) == s
  {
    if s != [] {
      AfterLastWithoutSeparator(s[..|s| - 1], c);
      assert s[..|s| - 1] + [s[|s| - 1]] == s;
    }
  }

  lemma {:induction false} AfterLastOfSuffix(x: string, y: string, c: char)
    requires c !in y
    ensures AfterLast(x + [c] + y, c) == y
  {
    var s := x + [c] + y;
    if y != [] {
      var y0 := y[..|y| - 1];
      assert s[..|s| - 1] == x + [c] + y0;
      AfterLastOfSuffix(x, y0, c);
      assert y0 + [y[|y| - 1]] == y;
    }
  }

  lemma {:induction false} BeforeFirstOfPrefix(x: string, y: string, c: char)
    requires c !in x
    ensures BeforeFirst(x + [c] + y, c) == x
  {
    var s := x + [c] + y;
    if x != [] {
      assert s[1..] == x[1..] + [c] + y;
      BeforeFirstOfPrefix(x[1..], y, c);
      assert [x[0]] + x[1..] == x;
    }
  }

  /** `s.replace(/\/$/, "")`: one trailing slash removed. */
  function StripTrailingSlash(s: string): (r: string)
    ensures r == s || s == r + "/"
    ensures r != s <==> |s| > 0 && s[|s| - 1] == '/'
  {
    if |s| > 0 && s[|s| - 1] == '/' then s[..|s| - 1] else s
  }
}
