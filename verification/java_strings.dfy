/**
 * The java.lang.String operations the argument parser of VaCreatorApplication relies on:
 * trim(), toUpperCase(), equalsIgnoreCase() and split(",").
 */
module JavaStrings {

  /** String.trim() strips leading and trailing characters whose code is at most U+0020. */
  predicate IsTrimmable(c: char) {
    c <= ' '
  }

  /** The regular-expression class \s: [ \t\n\x0B\f\r]. */
  predicate IsRegexSpace(c: char) {
    c == ' ' || c == '\t' || c == '\n' || c == '\U{000B}' || c == '\U{000C}' || c == '\r'
  }

  /** s without its leading trimmable characters. */
  function TrimStart(s: string): (r: string)
    ensures |r| <= |s| && r == s[|s| - |r|..]
    ensures r == [] || !IsTrimmable(r[0])
    ensures forall i :: 0 <= i < |s| - |r| ==> IsTrimmable(s[i])
  {
    if s != [] && IsTrimmable(s[0]) then TrimStart(s[1..]) else s
  }

  /** s without its trailing trimmable characters. */
  function TrimEnd(s: string): (r: string)
    ensures |r| <= |s| && r == s[..|r|]
    ensures r == [] || !IsTrimmable(r[|r| - 1])
    ensures forall i :: |r| <= i < |s| ==> IsTrimmable(s[i])
  {
    if s != [] && IsTrimmable(s[|s| - 1]) then TrimEnd(s[..|s| - 1]) else s
  }

  /** String.trim(): what is left once the leading and then the trailing trimmable characters are gone. */
  function Trim(s: string): (r: string)
    ensures r == [] || (!IsTrimmable(r[0]) && !IsTrimmable(r[|r| - 1]))
    ensures r == [] <==> forall i :: 0 <= i < |s| ==> IsTrimmable(s[i])
  {
    var t := TrimStart(s);
    var r := TrimEnd(t);
    assert r != [] ==> r[0] == s[|s| - |t|];
    r
  }

  /**
   * The trimmed string is the infix of s between a run of trimmable characters at its start
   * and one at its end.
   */
  lemma TrimIsInfix(s: string)
    ensures var r, k := Trim(s), |s| - |TrimStart(s)|;
      && k + |r| <= |s| && r == s[k..k + |r|]
      && (forall i :: 0 <= i < k ==> IsTrimmable(s[i]))
      && (forall i :: k + |r| <= i < |s| ==> IsTrimmable(s[i]))
  {
    var t := TrimStart(s);
    var r := TrimEnd(t);
    var k := |s| - |t|;
    assert t == s[k..];
    assert r == s[k..k + |r|] by {
      assert r == t[..|r|];
    }
    forall i | k + |r| <= i < |s|
      ensures IsTrimmable(s[i])
    {
      assert s[i] == t[i - k];
    }
  }

  /** Character.toUpperCase on the ASCII letters; every other character is kept. */
  function UpperChar(c: char): char {
    if 'a' <= c <= 'z' then (c as int - 32) as char else c
  }

  /** String.toUpperCase(). */
  function ToUpper(s: string): (r: string)
    ensures |r| == |s|
  {
    if s == [] then [] else [UpperChar(s[0])] + ToUpper(s[1..])
  }

  /** Each character is upper-cased where it stands. */
  lemma {:induction false} ToUpperAt(s: string)
    ensures forall i :: 0 <= i < |s| ==> ToUpper(s)[i] == UpperChar(s[i])
  {
    if s != [] {
      ToUpperAt(s[1..]);
    }
  }

  /** Upper-casing twice is upper-casing once. */
  lemma ToUpperIdempotent(s: string)
    ensures ToUpper(ToUpper(s)) == ToUpper(s)
  {
    ToUpperAt(s);
    ToUpperAt(ToUpper(s));
  }

  /** String.equalsIgnoreCase. */
  predicate EqualsIgnoreCase(a: string, b: string) {
    ToUpper(a) == ToUpper(b)
  }

  /** The pieces of s between occurrences of sep, empty pieces included. */
  function SplitAll(s: string, sep: char): (r: seq<string>)
    ensures |r| >= 1
    ensures forall i :: 0 <= i < |r| ==> sep !in r[i]
  {
    if s == [] then [""]
    else
      var init := SplitAll(s[..|s| - 1], sep);
      if s[|s| - 1] == sep then init + [""]
      else init[..|init| - 1] + [init[|init| - 1] + [s[|s| - 1]]]
  }

  /** The pieces written one after another with sep between neighbours. */
  function JoinWith(ps: seq<string>, sep: char): string
    requires |ps| >= 1
  {
    if |ps| == 1 then ps[0] else JoinWith(ps[..|ps| - 1], sep) + [sep] + ps[|ps| - 1]
  }

  /** Joining the pieces of s gives s back. */
  lemma {:induction false} JoinSplitAll(s: string, sep: char)
    ensures JoinWith(SplitAll(s, sep), sep) == s
  {
    if s != [] {
      var prefix := s[..|s| - 1];
      var init := SplitAll(prefix, sep);
      JoinSplitAll(prefix, sep);
      if s[|s| - 1] == sep {
        assert (init + [""])[..|init|] == init;
      } else {
        var r := SplitAll(s, sep);
        if |init| > 1 {
          assert r[..|r| - 1] == init[..|init| - 1];
        }
      }
      assert prefix + [s[|s| - 1]] == s;
    }
  }

  lemma {:induction false} SplitAllWithoutSep(s: string, sep: char)
    requires sep !in s
    ensures SplitAll(s, sep) == [s]
  {
    if s != [] {
      SplitAllWithoutSep(s[..|s| - 1], sep);
      assert s[..|s| - 1] + [s[|s| - 1]] == s;
    }
  }

  lemma {:induction false} SplitAllAfterSep(x: string, sep: char, y: string)
    requires sep !in y
    ensures SplitAll(x + [sep] + y, sep) == SplitAll(x, sep) + [y]
  {
    var s := x + [sep] + y;
    if y == [] {
      assert s[..|s| - 1] == x;
    } else {
      var y' := y[..|y| - 1];
      assert s[..|s| - 1] == x + [sep] + y';
      SplitAllAfterSep(x, sep, y');
      assert y' + [y[|y| - 1]] == y;
    }
  }

  /** Splitting the joined pieces gives the pieces back when none of them holds sep. */
  lemma {:induction false} SplitAllJoin(ps: seq<string>, sep: char)
    requires |ps| >= 1
    requires forall i :: 0 <= i < |ps| ==> sep !in ps[i]
    ensures SplitAll(JoinWith(ps, sep), sep) == ps
  {
    if |ps| == 1 {
      SplitAllWithoutSep(ps[0], sep);
    } else {
      var init := ps[..|ps| - 1];
      SplitAllJoin(init, sep);
      SplitAllAfterSep(JoinWith(init, sep), sep, ps[|ps| - 1]);
      assert init + [ps[|ps| - 1]] == ps;
    }
  }

  /** The pieces without the empty ones at the end. */
  function DropTrailingEmpty(ps: seq<string>): (r: seq<string>)
    ensures r <= ps
    ensures r == [] || r[|r| - 1] != ""
    ensures forall i :: |r| <= i < |ps| ==> ps[i] == ""
  {
    if ps != [] && ps[|ps| - 1] == "" then DropTrailingEmpty(ps[..|ps| - 1]) else ps
  }

  /**
   * String.split with a one-character separator: s itself when sep does not occur in it,
   * otherwise every piece but the trailing empty ones.
   */
  function Split(s: string, sep: char): (r: seq<string>)
    ensures r <= SplitAll(s, sep)
    ensures forall i :: |r| <= i < |SplitAll(s, sep)| ==> SplitAll(s, sep)[i] == ""
    ensures sep in s ==> r == [] || r[|r| - 1] != ""
    ensures sep !in s ==> r == [s]
  {
    if sep !in s then
      SplitAllWithoutSep(s, sep);
      [s]
    else
      DropTrailingEmpty(SplitAll(s, sep))
  }
}
