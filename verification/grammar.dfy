/**
 * The command-line grammar of VaCreatorApplication as functions: what run, parseRangeArgs and
 * parseForArgs compute, with each IllegalArgumentException as an Err carrying its message.
 */
module Grammar {
  import opened Wrappers
  import opened JavaStrings
  import opened JavaIntegers

  const MissingRangeArguments := "Missing arguments for FROM/TO range."
  const InvalidStart := "Invalid start value in range: "
  const MissingEnd := "Missing end value in range."
  const InvalidEnd := "Invalid end value in range: "
  const MissingList := "Missing list for FOR command."
  const NoIdentifiersInList := "No identifiers provided in list."
  const InvalidIdentifier := "Invalid identifier in list: "
  const UnrecognizedType := "Unrecognized analytics type: "
  const UnrecognizedCommand := "Unrecognized command: "
  const NoStreamIdentifiers := "No stream identifiers provided."

  // ---------------------------------------------------------------- FROM <start> [TO] <end>

  function Min(a: int, b: int): int {
    if a <= b then a else b
  }

  function Max(a: int, b: int): int {
    if a <= b then b else a
  }

  /** Every int from lo to hi, inclusive, ascending. */
  function Range(lo: int, hi: int): (r: seq<int>)
    ensures |r| == if lo <= hi then hi - lo + 1 else 0
    ensures forall k :: 0 <= k < |r| ==> r[k] == lo + k
    decreases hi - lo
  {
    if hi < lo then [] else Range(lo, hi - 1) + [hi]
  }

  /** Where parseRangeArgs looks for the end bound: after a TO keyword at index 3, or at index 3. */
  function EndIndex(args: seq<string>): (i: nat)
    requires |args| >= 4
    ensures i == 3 || i == 4
    ensures i == 4 <==> ToUpper(args[3]) == "TO"
  {
    assert ToUpper("TO") == "TO";
    if EqualsIgnoreCase(args[3], "TO") then 4 else 3
  }

  /**
   * parseRangeArgs on the arguments without the analytics type. A range that parses is never
   * empty, and every error carries one of the range messages.
   */
  function ParseRange(args: seq<string>): (r: Result<seq<int>, string>)
    ensures r.Ok? ==> |args| >= 5 && r.value != []
    ensures r.Err? ==>
      || r.error == MissingRangeArguments || r.error == MissingEnd
      || InvalidStart <= r.error || InvalidEnd <= r.error
  {
    if |args| < 5 then Err(MissingRangeArguments)
    else
      match ParseInt(args[2])
      case None => Err(InvalidStart + args[2])
      case Some(start) =>
        var endIndex := EndIndex(args);
        if endIndex >= |args| then Err(MissingEnd)
        else
          match ParseInt(args[endIndex])
          case None => Err(InvalidEnd + args[endIndex])
          case Some(end) => Ok(Range(Min(start, end), Max(start, end)))
  }

  /**
   * The errors of the range form, in the order they are checked: too few tokens, then a bad
   * start, then a bad end. The "missing end value" error never occurs.
   */
  lemma RangeErrors(args: seq<string>)
    ensures |args| < 5 ==> ParseRange(args) == Err(MissingRangeArguments)
    ensures |args| >= 5 && ParseInt(args[2]).None? ==> ParseRange(args) == Err(InvalidStart + args[2])
    ensures |args| >= 5 && ParseInt(args[2]).Some? && ParseInt(args[EndIndex(args)]).None?
      ==> ParseRange(args) == Err(InvalidEnd + args[EndIndex(args)])
    ensures ParseRange(args) != Err(MissingEnd)
  {
    if |args| >= 5 {
      assert (InvalidStart + args[2])[0] != MissingEnd[0];
      assert (InvalidEnd + args[EndIndex(args)])[0] != MissingEnd[0];
    }
  }

  /**
   * A range that parses holds every int between the smaller and the larger bound, once each,
   * ascending: |end - start| + 1 ids from Min(start, end) to Max(start, end).
   */
  lemma RangeOfBounds(args: seq<string>, start: int, end: int)
    requires |args| >= 5
    requires ParseInt(args[2]) == Some(start) && ParseInt(args[EndIndex(args)]) == Some(end)
    ensures ParseRange(args).Ok?
    ensures var ids := ParseRange(args).value;
      && |ids| == (if start <= end then end - start else start - end) + 1
      && ids[0] == Min(start, end) && ids[|ids| - 1] == Max(start, end)
      && (forall i, j :: 0 <= i < j < |ids| ==> ids[i] < ids[j])
      && (forall x :: x in ids <==> Min(start, end) <= x <= Max(start, end))
  {
    var ids := ParseRange(args).value;
    forall x | Min(start, end) <= x <= Max(start, end)
      ensures x in ids
    {
      assert ids[x - Min(start, end)] == x;
    }
  }

  /** The arguments with the start and end bounds exchanged. */
  function SwapBounds(args: seq<string>): seq<string>
    requires |args| >= 5
  {
    var e := EndIndex(args);
    args[2 := args[e]][e := args[2]]
  }

  lemma IntIsNotTo(s: string)
    requires ParseInt(s).Some?
    ensures !EqualsIgnoreCase(s, "TO")
  {
    var last := |s| - 1;
    ToUpperAt(s);
    assert ToUpper(s)[last] == s[last] && IsDigit(s[last]);
    assert ToUpper("TO") == "TO";
  }

  /** FROM x TO y and FROM y TO x give the same ids. */
  lemma RangeIgnoresBoundOrder(args: seq<string>)
    requires |args| >= 5
    requires ParseRange(args).Ok?
    ensures ParseRange(SwapBounds(args)) == ParseRange(args)
  {
    var swapped := SwapBounds(args);
    var e := EndIndex(args);
    var start, end := ParseInt(args[2]).value, ParseInt(args[e]).value;
    assert swapped[2] == args[e] && swapped[e] == args[2];
    assert EndIndex(swapped) == e by {
      if e == 3 {
        IntIsNotTo(args[2]);
      } else {
        assert swapped[3] == args[3];
      }
    }
    assert Min(end, start) == Min(start, end) && Max(end, start) == Max(start, end);
  }

  // ---------------------------------------------------------------- FOR [<id>, <id>, ...]

  /** What the StringBuilder loop of parseForArgs builds: the tokens, one space between neighbours. */
  function JoinTokens(ts: seq<string>): string {
    if ts == [] then "" else JoinWith(ts, ' ')
  }

  /** One more token is written after a space, unless it is the first. */
  lemma JoinTokensStep(ts: seq<string>, t: string)
    ensures JoinTokens(ts + [t]) == if ts == [] then t else JoinTokens(ts) + " " + t
  {
    var all := ts + [t];
    assert all[..|all| - 1] == ts;
  }

  lemma SliceExtends(ts: seq<string>, lo: nat, i: nat)
    requires lo <= i < |ts|
    ensures ts[lo..i + 1] == ts[lo..i] + [ts[i]]
  {
  }

  /** Tokens without spaces come back from their join split on spaces. */
  lemma JoinTokensSplits(ts: seq<string>)
    requires |ts| >= 1
    requires forall i :: 0 <= i < |ts| ==> ' ' !in ts[i]
    ensures SplitAll(JoinTokens(ts), ' ') == ts
  {
    SplitAllJoin(ts, ' ');
  }

  /** replaceAll("^\\[", ""): one '[' at the very start goes, and nothing else changes. */
  function StripOpenBracket(s: string): (r: string)
    ensures s == r || s == ['['] + r
    ensures s != [] && s[0] == '[' ==> s == ['['] + r
  {
    if s != [] && s[0] == '[' then s[1..] else s
  }

  /** replaceAll("\\]$", ""): one ']' at the very end goes, and nothing else changes. */
  function StripCloseBracket(s: string): (r: string)
    ensures s == r || s == r + [']']
    ensures s != [] && s[|s| - 1] == ']' ==> s == r + [']']
  {
    if s != [] && s[|s| - 1] == ']' then s[..|s| - 1] else s
  }

  /** Number of \s characters at the start of s. */
  function SpaceRun(s: string): (k: nat)
    ensures k <= |s|
    ensures forall i :: 0 <= i < k ==> IsRegexSpace(s[i])
    ensures k < |s| ==> !IsRegexSpace(s[k])
  {
    if s != [] && IsRegexSpace(s[0]) then 1 + SpaceRun(s[1..]) else 0
  }

  /** If s[i] is a comma, no \s character stands right before or right after it. */
  predicate UnpaddedAt(s: string, i: int)
    requires 0 <= i < |s|
  {
    s[i] == ',' ==> (i == 0 || !IsRegexSpace(s[i - 1])) && (i + 1 == |s| || !IsRegexSpace(s[i + 1]))
  }

  /** No \s character stands right before or right after a comma. */
  predicate CommasUnpadded(s: string) {
    forall i :: 0 <= i < |s| ==> UnpaddedAt(s, i)
  }

  /**
   * replaceAll("\\s*,\\s*", ","), scanning as the regex engine does: a comma takes the \s run
   * after it, and a \s run takes part in a match only when a comma follows it.
   */
  function CollapseCommaSpace(s: string): (r: string)
    ensures |r| == 0 <==> |s| == 0
    ensures |s| > 0 && !IsRegexSpace(s[0]) ==> r[0] == s[0]
    ensures ',' !in s ==> r == s
    decreases |s|
  {
    if s == [] then []
    else if s[0] == ',' then
      [','] + CollapseCommaSpace(s[1 + SpaceRun(s[1..])..])
    else
      var k := SpaceRun(s);
      if k == 0 then
        assert ',' !in s ==> ',' !in s[1..];
        [s[0]] + CollapseCommaSpace(s[1..])
      else if k < |s| && s[k] == ',' then
        CollapseCommaSpace(s[k..])
      else
        assert ',' !in s ==> ',' !in s[k..];
        assert s[..k] + s[k..] == s;
        s[..k] + CollapseCommaSpace(s[k..])
  }

  lemma CommasUnpaddedAfter(head: string, tail: string)
    requires CommasUnpadded(tail)
    requires head != [] && forall i :: 0 <= i < |head| ==> head[i] != ','
    requires tail != [] && tail[0] == ',' ==> !IsRegexSpace(head[|head| - 1])
    ensures CommasUnpadded(head + tail)
  {
    var r := head + tail;
    forall i | 0 <= i < |r| && r[i] == ','
      ensures UnpaddedAt(r, i)
    {
      assert i >= |head|;
      assert tail[i - |head|] == ',';
      assert UnpaddedAt(tail, i - |head|);
      if i > |head| {
        assert r[i - 1] == tail[i - |head| - 1];
      }
      if i + 1 < |r| {
        assert r[i + 1] == tail[i - |head| + 1];
      }
    }
  }

  lemma CommaBeforeUnpadded(tail: string)
    requires CommasUnpadded(tail)
    requires tail != [] ==> !IsRegexSpace(tail[0])
    ensures CommasUnpadded([','] + tail)
  {
    var r := [','] + tail;
    forall i | 0 <= i < |r| && r[i] == ','
      ensures UnpaddedAt(r, i)
    {
      if i > 0 {
        assert tail[i - 1] == ',';
        assert UnpaddedAt(tail, i - 1);
        assert r[i - 1] == ',' || r[i - 1] == tail[i - 2];
        if i + 1 < |r| {
          assert r[i + 1] == tail[i];
        }
      }
    }
  }

  /** After collapsing, no \s character stands next to a comma. */
  lemma {:induction false} CollapseUnpadsCommas(s: string)
    ensures CommasUnpadded(CollapseCommaSpace(s))
    decreases |s|
  {
    if s == [] {
    } else if s[0] == ',' {
      var run := SpaceRun(s[1..]);
      var rest := s[1 + run..];
      assert rest == s[1..][run..];
      CollapseUnpadsCommas(rest);
      CommaBeforeUnpadded(CollapseCommaSpace(rest));
    } else {
      var k := SpaceRun(s);
      if k == 0 {
        CollapseUnpadsCommas(s[1..]);
        CommasUnpaddedAfter([s[0]], CollapseCommaSpace(s[1..]));
      } else if k < |s| && s[k] == ',' {
        CollapseUnpadsCommas(s[k..]);
      } else {
        CollapseUnpadsCommas(s[k..]);
        CommasUnpaddedAfter(s[..k], CollapseCommaSpace(s[k..]));
      }
    }
  }

  /** s without its \s characters. */
  function Visible(s: string): (r: string)
    ensures |r| <= |s|
  {
    if s == [] then [] else (if IsRegexSpace(s[0]) then [] else [s[0]]) + Visible(s[1..])
  }

  lemma {:induction false} VisibleAppend(a: string, b: string)
    ensures Visible(a + b) == Visible(a) + Visible(b)
  {
    if a == [] {
      assert a + b == b;
    } else {
      VisibleAppend(a[1..], b);
      VisibleCons(a[0], a[1..] + b);
      VisibleCons(a[0], a[1..]);
      assert [a[0]] + (a[1..] + b) == a + b;
      assert [a[0]] + a[1..] == a;
    }
  }

  lemma {:induction false} VisibleSpaceRun(s: string)
    ensures Visible(s) == Visible(s[SpaceRun(s)..])
  {
    if s != [] && IsRegexSpace(s[0]) {
      VisibleSpaceRun(s[1..]);
      assert s[1..][SpaceRun(s[1..])..] == s[SpaceRun(s)..];
    }
  }

  lemma {:induction false} VisibleOfSpaces(s: string)
    requires forall i :: 0 <= i < |s| ==> IsRegexSpace(s[i])
    ensures Visible(s) == []
  {
    if s != [] {
      VisibleOfSpaces(s[1..]);
    }
  }

  lemma VisibleCons(c: char, s: string)
    ensures Visible([c] + s) == (if IsRegexSpace(c) then [] else [c]) + Visible(s)
  {
    assert ([c] + s)[0] == c && ([c] + s)[1..] == s;
  }

  /** Collapsing removes \s characters and nothing else. */
  lemma {:induction false} CollapseKeepsVisible(s: string)
    ensures Visible(CollapseCommaSpace(s)) == Visible(s)
    decreases |s|
  {
    if s == [] {
    } else if s[0] == ',' {
      var rest := s[1 + SpaceRun(s[1..])..];
      assert s[1..][SpaceRun(s[1..])..] == rest;
      CollapseKeepsVisible(rest);
      VisibleCons(',', CollapseCommaSpace(rest));
      VisibleSpaceRun(s[1..]);
      VisibleCons(',', s[1..]);
      assert [','] + s[1..] == s;
    } else {
      var k := SpaceRun(s);
      if k == 0 {
        CollapseKeepsVisible(s[1..]);
        VisibleCons(s[0], CollapseCommaSpace(s[1..]));
        VisibleCons(s[0], s[1..]);
        assert [s[0]] + s[1..] == s;
      } else {
        CollapseKeepsVisible(s[k..]);
        VisibleSpaceRun(s);
        if !(k < |s| && s[k] == ',') {
          VisibleAppend(s[..k], CollapseCommaSpace(s[k..]));
          VisibleOfSpaces(s[..k]);
        }
      }
    }
  }

  /** A \s run that ends before a non-\s character is the same run with anything after it. */
  lemma {:induction false} SpaceRunBefore(a: string, rest: string)
    requires rest != [] && !IsRegexSpace(rest[0])
    ensures SpaceRun(a + rest) == SpaceRun(a)
  {
    if a != [] {
      assert (a + rest)[0] == a[0];
      if IsRegexSpace(a[0]) {
        SpaceRunBefore(a[1..], rest);
        assert (a + rest)[1..] == a[1..] + rest;
      }
    }
  }

  /**
   * A character that is neither \s nor a comma takes part in no match, so the collapse on
   * either side of it is independent of the other side: \s characters that touch no comma,
   * like the one in "1 2,3", are kept where they are.
   */
  lemma {:induction false} CollapseSplitsAtVisible(x: string, c: char, y: string)
    requires !IsRegexSpace(c) && c != ','
    ensures CollapseCommaSpace(x + [c] + y) == CollapseCommaSpace(x) + [c] + CollapseCommaSpace(y)
    decreases |x|, 1
  {
    if x == [] {
      var s := x + [c] + y;
      assert s == [c] + y && s[1..] == y;
    } else if x[0] == ',' {
      SplitAfterComma(x, c, y);
    } else if !IsRegexSpace(x[0]) {
      SplitAfterVisible(x, c, y);
    } else if SpaceRun(x) < |x| {
      SplitAfterInnerRun(x, c, y);
    } else {
      SplitAfterWholeRun(x, c, y);
    }
  }

  lemma {:induction false} SplitAfterComma(x: string, c: char, y: string)
    requires !IsRegexSpace(c) && c != ','
    requires x != [] && x[0] == ','
    ensures CollapseCommaSpace(x + [c] + y) == CollapseCommaSpace(x) + [c] + CollapseCommaSpace(y)
    decreases |x|, 0
  {
    var rest := x[1 + SpaceRun(x[1..])..];
    var cr, cy := CollapseCommaSpace(rest), CollapseCommaSpace(y);
    CollapseCommaFirst(x);
    CommaSkipsRun(x, c, y);
    CollapseSplitsAtVisible(rest, c, y);
    AppendAssoc([','], cr + [c], cy);
    AppendAssoc([','], cr, [c]);
  }

  /** The comma in front of x is kept and the \s run after it goes, whatever follows x. */
  lemma CommaSkipsRun(x: string, c: char, y: string)
    requires !IsRegexSpace(c)
    requires x != [] && x[0] == ','
    ensures CollapseCommaSpace(x + [c] + y) ==
      [','] + CollapseCommaSpace(x[1 + SpaceRun(x[1..])..] + [c] + y)
  {
    var run := SpaceRun(x[1..]);
    var s := x + [c] + y;
    assert s[0] == ',';
    assert s[1..] == x[1..] + ([c] + y);
    SpaceRunBefore(x[1..], [c] + y);
    assert s[1 + run..] == x[1 + run..] + [c] + y;
    CollapseCommaFirst(s);
  }

  lemma {:induction false} SplitAfterVisible(x: string, c: char, y: string)
    requires !IsRegexSpace(c) && c != ','
    requires x != [] && x[0] != ',' && !IsRegexSpace(x[0])
    ensures CollapseCommaSpace(x + [c] + y) == CollapseCommaSpace(x) + [c] + CollapseCommaSpace(y)
    decreases |x|, 0
  {
    var s := x + [c] + y;
    assert s[0] == x[0] && s[1..] == x[1..] + [c] + y;
    CollapseFirstKept(s);
    CollapseFirstKept(x);
    CollapseSplitsAtVisible(x[1..], c, y);
  }

  lemma {:induction false} SplitAfterInnerRun(x: string, c: char, y: string)
    requires !IsRegexSpace(c) && c != ','
    requires x != [] && IsRegexSpace(x[0]) && SpaceRun(x) < |x|
    ensures CollapseCommaSpace(x + [c] + y) == CollapseCommaSpace(x) + [c] + CollapseCommaSpace(y)
    decreases |x|, 0
  {
    var k := SpaceRun(x);
    var head := if x[k] == ',' then [] else x[..k];
    var cr, cy := CollapseCommaSpace(x[k..]), CollapseCommaSpace(y);
    CollapseRunFollowed(x);
    RunSkipsInner(x, c, y);
    CollapseSplitsAtVisible(x[k..], c, y);
    AppendAssoc(head, cr + [c], cy);
    AppendAssoc(head, cr, [c]);
  }

  /** A \s run that ends inside x is handled the same whatever follows x. */
  lemma RunSkipsInner(x: string, c: char, y: string)
    requires !IsRegexSpace(c)
    requires x != [] && IsRegexSpace(x[0]) && SpaceRun(x) < |x|
    ensures var k := SpaceRun(x);
      CollapseCommaSpace(x + [c] + y) ==
      (if x[k] == ',' then [] else x[..k]) + CollapseCommaSpace(x[k..] + [c] + y)
  {
    var s := x + [c] + y;
    var k := SpaceRun(x);
    assert s == x + ([c] + y) && s[0] == x[0];
    SpaceRunBefore(x, [c] + y);
    assert s[k] == x[k] && s[..k] == x[..k];
    assert s[k..] == x[k..] + [c] + y;
    CollapseRunFollowed(s);
  }

  lemma {:induction false} SplitAfterWholeRun(x: string, c: char, y: string)
    requires !IsRegexSpace(c) && c != ','
    requires x != [] && SpaceRun(x) == |x|
    ensures CollapseCommaSpace(x + [c] + y) == CollapseCommaSpace(x) + [c] + CollapseCommaSpace(y)
    decreases |x|, 0
  {
    var s := x + [c] + y;
    var k := |x|;
    assert s == x + ([c] + y) && s[0] == x[0];
    SpaceRunBefore(x, [c] + y);
    assert s[..k] == x && s[k..] == [c] + y && s[k] == c;
    CollapseRunFollowed(s);
    assert CollapseCommaSpace(s) == x + CollapseCommaSpace([c] + y);
    CollapseConsKept(c, y);
    CollapseOfRun(x);
    var cy := CollapseCommaSpace(y);
    assert CollapseCommaSpace(s) == x + ([c] + cy);
    AppendAssoc(x, [c], cy);
  }

  lemma AppendAssoc(a: string, b: string, c: string)
    ensures a + (b + c) == a + b + c
  {
  }

  /** A character that is neither a comma nor \s is kept in front of the rest's collapse. */
  lemma CollapseConsKept(c: char, y: string)
    requires !IsRegexSpace(c) && c != ','
    ensures CollapseCommaSpace([c] + y) == [c] + CollapseCommaSpace(y)
  {
    var s := [c] + y;
    assert s[0] == c && s[1..] == y;
    CollapseFirstKept(s);
  }

  /** A leading comma is kept and the \s run after it goes. */
  lemma CollapseCommaFirst(s: string)
    requires s != [] && s[0] == ','
    ensures CollapseCommaSpace(s) == [','] + CollapseCommaSpace(s[1 + SpaceRun(s[1..])..])
  {
  }

  /** A first character that is neither a comma nor \s is kept. */
  lemma CollapseFirstKept(s: string)
    requires s != [] && s[0] != ',' && !IsRegexSpace(s[0])
    ensures CollapseCommaSpace(s) == [s[0]] + CollapseCommaSpace(s[1..])
  {
  }

  /**
   * A leading \s run followed by another character goes when that character is a comma and
   * stays otherwise.
   */
  lemma CollapseRunFollowed(s: string)
    requires s != [] && IsRegexSpace(s[0]) && SpaceRun(s) < |s|
    ensures var k := SpaceRun(s);
      CollapseCommaSpace(s) == (if s[k] == ',' then [] else s[..k]) + CollapseCommaSpace(s[k..])
  {
  }

  /** A string of \s characters only is left as it is. */
  lemma CollapseOfRun(s: string)
    requires SpaceRun(s) == |s|
    ensures CollapseCommaSpace(s) == s
  {
    assert ',' !in s by {
      forall i | 0 <= i < |s|
        ensures s[i] != ','
      {
        assert IsRegexSpace(s[i]);
      }
    }
  }

  /**
   * The string parseForArgs splits: the tokens after the keyword joined and trimmed, one
   * leading '[' and one trailing ']' removed, the spaces around commas removed.
   */
  function NormalizedList(args: seq<string>): (r: string)
    requires |args| >= 3
    ensures CommasUnpadded(r)
  {
    var t := StripCloseBracket(StripOpenBracket(Trim(JoinTokens(args[2..]))));
    CollapseUnpadsCommas(t);
    CollapseCommaSpace(t)
  }

  /** The parts, trimmed, without those that trimming leaves empty, in their original order. */
  function KeptParts(parts: seq<string>): (kept: seq<string>)
    ensures |kept| <= |parts|
    ensures forall i :: 0 <= i < |kept| ==>
      kept[i] != [] && !IsTrimmable(kept[i][0]) && !IsTrimmable(kept[i][|kept[i]| - 1])
  {
    if parts == [] then []
    else
      var part := Trim(parts[|parts| - 1]);
      KeptParts(parts[..|parts| - 1]) + (if part == [] then [] else [part])
  }

  /** The loop over the split parts in parseForArgs: skip empty parts, stop at the first bad one. */
  function ParseParts(parts: seq<string>): (r: Result<seq<int>, string>)
    ensures r.Ok? ==> |r.value| <= |parts|
  {
    if parts == [] then Ok([])
    else
      match ParseParts(parts[..|parts| - 1])
      case Err(message) => Err(message)
      case Ok(ids) =>
        var part := Trim(parts[|parts| - 1]);
        if part == [] then Ok(ids)
        else
          match ParseInt(part)
          case None => Err(InvalidIdentifier + part)
          case Some(id) => Ok(ids + [id])
  }

  predicate AllParse(kept: seq<string>) {
    forall i :: 0 <= i < |kept| ==> ParseInt(kept[i]).Some?
  }

  /** ids are the values of the kept parts, one for one and in the same order. */
  predicate ValuesOf(kept: seq<string>, ids: seq<int>) {
    |ids| == |kept| && forall i :: 0 <= i < |ids| ==> ParseInt(kept[i]) == Some(ids[i])
  }

  lemma ValuesOfAppend(kept: seq<string>, ids: seq<int>, part: string, id: int)
    requires ValuesOf(kept, ids) && ParseInt(part) == Some(id)
    ensures ValuesOf(kept + [part], ids + [id])
  {
    var k, v := kept + [part], ids + [id];
    forall i | 0 <= i < |v|
      ensures ParseInt(k[i]) == Some(v[i])
    {
      if i < |ids| {
        assert k[i] == kept[i] && v[i] == ids[i];
      }
    }
  }

  lemma AllParseAppend(kept: seq<string>, more: seq<string>)
    ensures AllParse(kept + more) <==> AllParse(kept) && AllParse(more)
  {
    var all := kept + more;
    if AllParse(all) {
      forall i | 0 <= i < |kept|
        ensures ParseInt(kept[i]).Some?
      {
        assert kept[i] == all[i];
      }
      forall i | 0 <= i < |more|
        ensures ParseInt(more[i]).Some?
      {
        assert more[i] == all[|kept| + i];
      }
    }
    if AllParse(kept) && AllParse(more) {
      forall i | 0 <= i < |all|
        ensures ParseInt(all[i]).Some?
      {
        if i >= |kept| {
          assert all[i] == more[i - |kept|];
        }
      }
    }
  }

  /**
   * The list parser keeps order and duplicates: it succeeds exactly when every kept part is an
   * int, and then yields one id per kept part, in order.
   */
  lemma {:induction false} ParsePartsInOrder(parts: seq<string>)
    ensures ParseParts(parts).Ok? <==> AllParse(KeptParts(parts))
    ensures ParseParts(parts).Ok? ==> ValuesOf(KeptParts(parts), ParseParts(parts).value)
  {
    if parts != [] {
      var init := parts[..|parts| - 1];
      ParsePartsInOrder(init);
      var k0 := KeptParts(init);
      var kept := KeptParts(parts);
      var part := Trim(parts[|parts| - 1]);
      var more := if part == [] then [] else [part];
      assert kept == k0 + more;
      AllParseAppend(k0, more);
      if ParseParts(init).Ok? && part != [] && ParseInt(part).Some? {
        ValuesOfAppend(k0, ParseParts(init).value, part, ParseInt(part).value);
      }
    }
  }

  /** kept[j] is the first kept part that is not an int. */
  predicate FirstBad(kept: seq<string>, j: int) {
    0 <= j < |kept| && ParseInt(kept[j]).None? && AllParse(kept[..j])
  }

  lemma FirstBadExtends(kept: seq<string>, more: seq<string>, j: int)
    requires FirstBad(kept, j)
    ensures FirstBad(kept + more, j) && (kept + more)[j] == kept[j]
  {
    assert (kept + more)[..j] == kept[..j];
  }

  lemma FirstBadAtEnd(kept: seq<string>, part: string)
    requires AllParse(kept) && ParseInt(part).None?
    ensures FirstBad(kept + [part], |kept|) && (kept + [part])[|kept|] == part
  {
    assert (kept + [part])[..|kept|] == kept;
  }

  /** A list that fails names the first kept part that is not an int. */
  lemma {:induction false} ParsePartsFirstError(parts: seq<string>)
    ensures ParseParts(parts).Err? ==>
      exists j :: FirstBad(KeptParts(parts), j)
        && ParseParts(parts).error == InvalidIdentifier + KeptParts(parts)[j]
  {
    if parts != [] {
      var init := parts[..|parts| - 1];
      var k0 := KeptParts(init);
      var kept := KeptParts(parts);
      var part := Trim(parts[|parts| - 1]);
      var more := if part == [] then [] else [part];
      assert kept == k0 + more;
      if ParseParts(init).Err? {
        ParsePartsFirstError(init);
        var j :| FirstBad(k0, j) && ParseParts(init).error == InvalidIdentifier + k0[j];
        FirstBadExtends(k0, more, j);
      } else if part != [] && ParseInt(part).None? {
        ParsePartsInOrder(init);
        FirstBadAtEnd(k0, part);
      }
    }
  }

  lemma PrefixOfPrefix(parts: seq<string>, k: nat)
    requires k < |parts|
    ensures parts[..k + 1][..k] == parts[..k] && parts[..k + 1][k] == parts[k]
  {
  }

  /** The list parser takes the parts one at a time, and skips a part that trims to nothing. */
  lemma PartSkipped(parts: seq<string>, k: nat, ids: seq<int>)
    requires k < |parts| && ParseParts(parts[..k]) == Ok(ids)
    requires Trim(parts[k]) == []
    ensures ParseParts(parts[..k + 1]) == Ok(ids)
  {
    PrefixOfPrefix(parts, k);
  }

  /** A part that is not an int fails the list up to it with its message (and so the whole list). */
  lemma PartRejected(parts: seq<string>, k: nat, ids: seq<int>)
    requires k < |parts| && ParseParts(parts[..k]) == Ok(ids)
    requires Trim(parts[k]) != [] && ParseInt(Trim(parts[k])).None?
    ensures ParseParts(parts[..k + 1]) == Err(InvalidIdentifier + Trim(parts[k]))
  {
    PrefixOfPrefix(parts, k);
  }

  /** Any other part adds its value after those of the parts before it. */
  lemma PartAccepted(parts: seq<string>, k: nat, ids: seq<int>, id: int)
    requires k < |parts| && ParseParts(parts[..k]) == Ok(ids)
    requires Trim(parts[k]) != [] && ParseInt(Trim(parts[k])) == Some(id)
    ensures ParseParts(parts[..k + 1]) == Ok(ids + [id])
  {
    PrefixOfPrefix(parts, k);
  }

  /** Once a prefix of the parts has failed, the whole list fails with the same message. */
  lemma {:induction false} ParsePartsStopsAtError(parts: seq<string>, k: nat)
    requires k <= |parts| && ParseParts(parts[..k]).Err?
    ensures ParseParts(parts) == ParseParts(parts[..k])
  {
    if k == |parts| {
      assert parts[..k] == parts;
    } else {
      var init := parts[..|parts| - 1];
      assert init[..k] == parts[..k];
      ParsePartsStopsAtError(init, k);
    }
  }

  /** parseForArgs on the arguments without the analytics type; each error is one of its messages. */
  function ParseList(args: seq<string>): (r: Result<seq<int>, string>)
    ensures r.Ok? ==> |args| >= 3
    ensures r.Err? ==>
      r.error == MissingList || r.error == NoIdentifiersInList || InvalidIdentifier <= r.error
  {
    if |args| < 3 then Err(MissingList)
    else
      var combined := NormalizedList(args);
      if combined == [] then Err(NoIdentifiersInList)
      else
        var parts := Split(combined, ',');
        if ParseParts(parts).Err? then
          InvalidIdentifierMessage(parts);
          ParseParts(parts)
        else ParseParts(parts)
  }

  /** Removing the brackets leaves nothing only from "", "[", "]" and "[]". */
  lemma BracketsOnly(t: string)
    ensures StripCloseBracket(StripOpenBracket(t)) == [] <==> t in ["", "[", "]", "[]"]
  {
    var o := StripOpenBracket(t);
    assert |StripCloseBracket(o)| + 2 >= |t|;
    if |t| == 1 {
      assert t == [t[0]];
    } else if |t| == 2 {
      assert t == [t[0], t[1]];
    }
  }

  /** Every message of the part loop is an invalid-identifier message. */
  lemma {:induction false} InvalidIdentifierMessage(parts: seq<string>)
    requires ParseParts(parts).Err?
    ensures InvalidIdentifier <= ParseParts(parts).error
    ensures |ParseParts(parts).error| > 0 && ParseParts(parts).error[0] == 'I'
  {
    ParsePartsFirstError(parts);
    var kept := KeptParts(parts);
    var j :| FirstBad(kept, j) && ParseParts(parts).error == InvalidIdentifier + kept[j];
  }

  /**
   * "No identifiers provided in list." is reported exactly when the joined, trimmed tokens are
   * empty or nothing but the brackets.
   */
  lemma NothingListed(args: seq<string>)
    requires |args| >= 3
    ensures ParseList(args) == Err(NoIdentifiersInList)
      <==> Trim(JoinTokens(args[2..])) in ["", "[", "]", "[]"]
  {
    var t := Trim(JoinTokens(args[2..]));
    BracketsOnly(t);
    var parts := Split(NormalizedList(args), ',');
    if NormalizedList(args) != [] && ParseParts(parts).Err? {
      InvalidIdentifierMessage(parts);
    }
  }

  /** A list that is blank inside its brackets parses to no ids at all, not to an error. */
  lemma BlankListIsEmpty(args: seq<string>)
    requires |args| >= 3
    requires IsBlank(StripCloseBracket(StripOpenBracket(Trim(JoinTokens(args[2..])))))
    ensures ParseList(args) == Ok([])
  {
    var s := StripCloseBracket(StripOpenBracket(Trim(JoinTokens(args[2..]))));
    BlankParsesEmpty(s);
    assert NormalizedList(args) == CollapseCommaSpace(s);
  }

  /** A blank list body is left alone by the comma collapse and its one part trims to nothing. */
  lemma BlankParsesEmpty(s: string)
    requires IsBlank(s)
    ensures CollapseCommaSpace(s) == s
    ensures ParseParts(Split(s, ',')) == Ok([])
  {
    assert ',' !in s by {
      forall i | 0 <= i < |s|
        ensures s[i] != ','
      {
        assert IsRegexSpace(s[i]);
      }
    }
    assert Trim(s) == [] by {
      forall i | 0 <= i < |s|
        ensures IsTrimmable(s[i])
      {
        assert IsRegexSpace(s[i]);
      }
    }
    assert [s][..0] == [];
  }

  /** Non-empty and made of \s characters only. */
  predicate IsBlank(s: string) {
    s != [] && forall i :: 0 <= i < |s| ==> IsRegexSpace(s[i])
  }

  // ---------------------------------------------------------------- run

  /** What makes run stop before any request: usage only, or a message (with or without usage). */
  datatype Failure = Usage | Rejected(message: string, withUsage: bool)

  /** An accepted command line: the bearer token, the upper-cased analytics type and the ids. */
  datatype Invocation = Invocation(token: string, analyticsType: string, ids: seq<int>)

  /**
   * The switch of run on the command keyword, given the arguments before the type: the range
   * parser for FROM, the list parser for FOR, and any other keyword reported as written.
   */
  function ParseStreamIds(baseArgs: seq<string>): (r: Result<seq<int>, string>)
    requires |baseArgs| >= 2
    ensures r.Ok? ==> ToUpper(baseArgs[1]) in ["FROM", "FOR"]
  {
    var command := ToUpper(baseArgs[1]);
    if command == "FROM" then ParseRange(baseArgs)
    else if command == "FOR" then ParseList(baseArgs)
    else Err(UnrecognizedCommand + baseArgs[1])
  }

  /** The checks run makes before its dispatch loop. */
  function ParseArguments(args: seq<string>): (r: Result<Invocation, Failure>)
    ensures r.Ok? ==>
      && |args| >= 4 && r.value.token == args[0] && r.value.ids != []
      && r.value.analyticsType == ToUpper(args[|args| - 1]) && r.value.analyticsType in ["OD", "SVA"]
  {
    if |args| < 4 then Err(Usage)
    else
      var analyticsType := ToUpper(args[|args| - 1]);
      if analyticsType != "OD" && analyticsType != "SVA" then
        Err(Rejected(UnrecognizedType + analyticsType, true))
      else
        match ParseStreamIds(args[..|args| - 1])
        case Err(message) => Err(Rejected(message, true))
        case Ok(ids) =>
          if ids == [] then Err(Rejected(NoStreamIdentifiers, false))
          else Ok(Invocation(args[0], analyticsType, ids))
  }

  /**
   * Fewer than four arguments show the usage and nothing else; then the analytics type is
   * checked, before the command keyword; then the keyword, reported in its original case.
   */
  lemma ArgumentChecksInOrder(args: seq<string>)
    ensures |args| < 4 ==> ParseArguments(args) == Err(Usage)
    ensures |args| >= 4 && ToUpper(args[|args| - 1]) !in ["OD", "SVA"] ==>
      ParseArguments(args) == Err(Rejected(UnrecognizedType + ToUpper(args[|args| - 1]), true))
    ensures |args| >= 4 && ToUpper(args[|args| - 1]) in ["OD", "SVA"]
      && ToUpper(args[1]) !in ["FROM", "FOR"]
      ==> ParseArguments(args) == Err(Rejected(UnrecognizedCommand + args[1], true))
  {
  }

  /**
   * Once the type has passed, an error of the command switch is shown with the usage, an empty
   * list of ids stops run with "No stream identifiers provided." alone, and any other list is
   * accepted as it stands.
   */
  lemma StreamIdsChecked(args: seq<string>)
    requires |args| >= 4 && ToUpper(args[|args| - 1]) in ["OD", "SVA"]
    ensures var parsed := ParseStreamIds(args[..|args| - 1]);
      && (parsed.Err? ==> ParseArguments(args) == Err(Rejected(parsed.error, true)))
      && (parsed == Ok([]) ==> ParseArguments(args) == Err(Rejected(NoStreamIdentifiers, false)))
      && (parsed.Ok? && parsed.value != [] ==>
            ParseArguments(args) == Ok(Invocation(args[0], ToUpper(args[|args| - 1]), parsed.value)))
  {
  }

  /**
   * An accepted command line has OD or SVA as its type, a non-empty list of ids, and those ids
   * are what the range or the list parser gives for the arguments before the type.
   */
  lemma AcceptedArguments(args: seq<string>)
    requires ParseArguments(args).Ok?
    ensures |args| >= 4
    ensures var inv := ParseArguments(args).value;
      && inv.token == args[0]
      && inv.analyticsType == ToUpper(args[|args| - 1])
      && inv.analyticsType in ["OD", "SVA"]
      && inv.ids != []
      && (ToUpper(args[1]) == "FROM" ==> ParseRange(args[..|args| - 1]) == Ok(inv.ids))
      && (ToUpper(args[1]) == "FOR" ==> ParseList(args[..|args| - 1]) == Ok(inv.ids))
      && ToUpper(args[1]) in ["FROM", "FOR"]
  {
    AcceptedStreamIds(args);
  }

  lemma AcceptedStreamIds(args: seq<string>)
    requires ParseArguments(args).Ok?
    ensures |args| >= 4 && args[..|args| - 1][1] == args[1]
    ensures ParseStreamIds(args[..|args| - 1]) == Ok(ParseArguments(args).value.ids)
  {
  }

  /** The analytics type is matched without regard to case. */
  lemma TypeIgnoresCase(args: seq<string>, t: string, u: string)
    requires |args| >= 4
    requires ToUpper(t) == ToUpper(u)
    ensures ParseArguments(args[|args| - 1 := t]) == ParseArguments(args[|args| - 1 := u])
  {
    var n := |args|;
    var a, b := args[n - 1 := t], args[n - 1 := u];
    LastReplaced(args, t);
    LastReplaced(args, u);
    SameArguments(a, b);
  }

  lemma LastReplaced(args: seq<string>, t: string)
    requires |args| >= 4
    ensures var a := args[|args| - 1 := t];
      |a| == |args| && a[..|a| - 1] == args[..|args| - 1] && a[0] == args[0] && a[1] == args[1]
      && a[|a| - 1] == t
  {
  }

  /** run looks at the token, the command, the type up to case and the tokens before the type. */
  lemma SameArguments(a: seq<string>, b: seq<string>)
    requires |a| >= 4 && |b| >= 4
    requires a[0] == b[0] && a[1] == b[1] && a[..|a| - 1] == b[..|b| - 1]
    requires ToUpper(a[|a| - 1]) == ToUpper(b[|b| - 1])
    ensures ParseArguments(a) == ParseArguments(b)
  {
  }

  /** The FOR list can never be missing once run has passed its own argument count check. */
  lemma MissingListUnreachable(args: seq<string>)
    ensures ParseArguments(args) != Err(Rejected(MissingList, true))
  {
    if |args| >= 4 && ToUpper(args[|args| - 1]) in ["OD", "SVA"] {
      StreamIdsNeverMissList(args[..|args| - 1]);
    } else if |args| >= 4 {
      assert (UnrecognizedType + ToUpper(args[|args| - 1]))[0] != MissingList[0];
    }
  }

  /** Whatever the keyword, the switch of run never reports a missing FOR list. */
  lemma StreamIdsNeverMissList(baseArgs: seq<string>)
    requires |baseArgs| >= 3
    ensures ParseStreamIds(baseArgs) != Err(MissingList)
  {
    RangeNeverMissesList(baseArgs);
    ListPresent(baseArgs);
    assert (UnrecognizedCommand + baseArgs[1])[0] != MissingList[0];
  }

  lemma RangeNeverMissesList(args: seq<string>)
    ensures ParseRange(args) != Err(MissingList)
  {
    RangeErrors(args);
    if ParseRange(args).Err? {
      var m := ParseRange(args).error;
      assert m[0] == 'I' || m == MissingRangeArguments;
      assert MissingRangeArguments[8] != MissingList[8];
    }
  }

  lemma ListPresent(args: seq<string>)
    requires |args| >= 3
    ensures ParseList(args) != Err(MissingList)
  {
    if NormalizedList(args) != [] && ParseList(args).Err? {
      InvalidIdentifierMessage(Split(NormalizedList(args), ','));
    }
  }
}
