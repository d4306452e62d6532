/** The Python string operations the conversion pipelines are built from:
    `str.strip()`, `str.rstrip(c)`, `str.split(c)`, `str.splitlines()`,
    `sep.join(parts)`, `str.upper()`, and the comprehension
    `[x.strip() for x in parts if x.strip()]` that both pipelines use to turn
    an assistant reply into a statement list. */
module Text {

  /** Python's `str.isspace` for one character: the set `str.strip()` removes. */
  predicate IsSpace(c: char) {
    || c == ' '
    || ('\t' <= c <= '\r')
    || ('\U{1C}' <= c <= '\U{1F}')
    || c == '\U{85}' || c == '\U{A0}' || c == '\U{1680}'
    || ('\U{2000}' <= c <= '\U{200A}')
    || c == '\U{2028}' || c == '\U{2029}' || c == '\U{202F}' || c == '\U{205F}'
    || c == '\U{3000}'
  }

  /** The line boundaries `str.splitlines()` recognises (`\r\n` counts as one). */
  predicate IsLineBreak(c: char) {
    || ('\n' <= c <= '\r')
    || ('\U{1C}' <= c <= '\U{1E}')
    || c == '\U{85}' || c == '\U{2028}' || c == '\U{2029}'
  }

  predicate IsSemicolon(c: char) {
    c == ';'
  }

  predicate IsNewline(c: char) {
    c == '\n'
  }

  /** No character of `s` satisfies `bad`. */
  predicate Avoids(s: string, bad: char -> bool) {
    forall i :: 0 <= i < |s| ==> !bad(s[i])
  }

  /** `s` has no whitespace at either end. */
  predicate IsTrimmed(s: string) {
    |s| == 0 || (!IsSpace(s[0]) && !IsSpace(s[|s| - 1]))
  }

  /** `s` is `r` with a whitespace-only margin of length `k` before it and a
      whitespace-only margin after it. */
  ghost predicate Surrounds(s: string, k: nat, r: string) {
    && k + |r| <= |s|
    && (forall i :: 0 <= i < |r| ==> s[k + i] == r[i])
    && (forall i :: 0 <= i < k ==> IsSpace(s[i]))
    && (forall i :: k + |r| <= i < |s| ==> IsSpace(s[i]))
  }

  /** Number of whitespace characters `s` starts with. */
  function Leading(s: string): (n: nat)
    ensures n <= |s|
    ensures forall i :: 0 <= i < n ==> IsSpace(s[i])
    ensures n < |s| ==> !IsSpace(s[n])
    decreases |s|
  {
    if |s| > 0 && IsSpace(s[0]) then 1 + Leading(s[1..]) else 0
  }

  /** Number of whitespace characters `s` ends with. */
  function Trailing(s: string): (n: nat)
    ensures n <= |s|
    ensures forall i :: |s| - n <= i < |s| ==> IsSpace(s[i])
    ensures n < |s| ==> !IsSpace(s[|s| - 1 - n])
    decreases |s|
  {
    if |s| > 0 && IsSpace(s[|s| - 1]) then 1 + Trailing(s[..|s| - 1]) else 0
  }

  /** `str.strip()`: `s` without its leading and trailing whitespace. */
  function Strip(s: string): string {
    var i := Leading(s);
    if i == |s| then "" else s[i..|s| - Trailing(s)]
  }

  /** Where the strip starts and ends: after the leading whitespace, before
      the trailing whitespace, and empty only when `s` is all whitespace. */
  lemma {:induction false} StripBounds(s: string)
    ensures Leading(s) < |s| ==> Leading(s) < |s| - Trailing(s)
    ensures Leading(s) < |s| ==> !IsSpace(s[Leading(s)]) && !IsSpace(s[|s| - 1 - Trailing(s)])
  {
    var i, t := Leading(s), Trailing(s);
    if i < |s| {
      assert !IsSpace(s[i]);
    }
  }

  /** What Strip returns: a trimmed string that `s` surrounds with
      whitespace margins. */
  lemma {:induction false} StripSpec(s: string)
    ensures IsTrimmed(Strip(s))
    ensures Surrounds(s, Leading(s), Strip(s))
  {
    StripIsTrimmed(s);
    StripMargins(s);
  }

  lemma {:induction false} StripIsTrimmed(s: string)
    ensures IsTrimmed(Strip(s))
  {
    var i, t := Leading(s), Trailing(s);
    StripBounds(s);
    if i < |s| {
      var r := s[i..|s| - t];
      assert r[0] == s[i] && r[|r| - 1] == s[|s| - 1 - t];
    }
  }

  lemma {:induction false} StripMargins(s: string)
    ensures Surrounds(s, Leading(s), Strip(s))
  {
    var i, t := Leading(s), Trailing(s);
    StripBounds(s);
    var r := Strip(s);
    if i < |s| {
      assert forall m :: 0 <= m < |r| ==> s[i + m] == r[m];
      assert forall m :: i + |r| <= m < |s| ==> IsSpace(s[m]);
    }
  }

  /** Strip is characterised by its contract: the only trimmed string that
      `s` surrounds with whitespace margins is `Strip(s)`. */
  lemma {:induction false} StripUnique(s: string, k: nat, r: string)
    requires IsTrimmed(r) && Surrounds(s, k, r)
    ensures r == Strip(s)
  {
    var t := Strip(s);
    var k' := Leading(s);
    StripSpec(s);
    if |r| > 0 {
      assert s[k] == r[0] && s[k + |r| - 1] == r[|r| - 1];
      assert k == k';
      assert |t| > 0 by {
        assert s[k' + 0] == t[0];
      }
      assert s[k' + |t| - 1] == t[|t| - 1];
    }
  }

  /** Stripping is idempotent: a trimmed string is its own strip. */
  lemma {:induction false} StripTrimmed(s: string)
    requires IsTrimmed(s)
    ensures Strip(s) == s
  {
    StripUnique(s, 0, s);
  }

  /** Strip only removes characters: whatever `s` avoids, `Strip(s)` avoids. */
  lemma {:induction false} StripAvoids(s: string, bad: char -> bool)
    requires Avoids(s, bad)
    ensures Avoids(Strip(s), bad)
  {
    var r := Strip(s);
    var k := Leading(s);
    StripSpec(s);
    forall i | 0 <= i < |r|
      ensures !bad(r[i])
    {
      assert r[i] == s[k + i];
    }
  }

  /** `str.rstrip(c)`: `s` without every trailing copy of `c` (not just one). */
  function TrimTrailing(s: string, c: char): (r: string)
    ensures |r| <= |s| && r == s[..|r|]
    ensures forall i :: |r| <= i < |s| ==> s[i] == c
    ensures r == [] || r[|r| - 1] != c
    decreases |s|
  {
    if |s| > 0 && s[|s| - 1] == c then TrimTrailing(s[..|s| - 1], c) else s
  }

  /** `sep.join(parts)`. */
  function Join(parts: seq<string>, sep: string): string
    decreases |parts|
  {
    if |parts| == 0 then ""
    else if |parts| == 1 then parts[0]
    else parts[0] + sep + Join(parts[1..], sep)
  }

  /** `s.split(sep)` for a one-character separator: the pieces between the
      separators, at least one, none containing the separator, and joining
      them back with the separator gives `s` again. */
  function Split(s: string, sep: char): (r: seq<string>)
    ensures |r| >= 1
    ensures forall k :: 0 <= k < |r| ==> sep !in r[k]
    ensures Join(r, [sep]) == s
    decreases |s|
  {
    if |s| == 0 then [""]
    else
      var rest := Split(s[1..], sep);
      if s[0] == sep then
        assert [sep] + s[1..] == s;
        [""] + rest
      else
        var r := [[s[0]] + rest[0]] + rest[1..];
        assert r[1..] == rest[1..];
        assert |rest| > 1 ==> Join(rest, [sep]) == rest[0] + [sep] + Join(rest[1..], [sep]);
        assert [s[0]] + s[1..] == s;
        r
  }

  lemma {:induction false} SplitNoSeparator(s: string, sep: char)
    requires sep !in s
    ensures Split(s, sep) == [s]
    decreases |s|
  {
    if |s| > 0 {
      assert sep !in s[1..] by {
        forall i | 0 <= i < |s[1..]| ensures s[1..][i] != sep {
          assert s[1..][i] == s[i + 1];
        }
      }
      SplitNoSeparator(s[1..], sep);
      assert [s[0]] + s[1..] == s;
    }
  }

  /** Splitting distributes over a separator occurrence. */
  lemma {:induction false} SplitAppend(a: string, b: string, sep: char)
    ensures Split(a + [sep] + b, sep) == Split(a, sep) + Split(b, sep)
    decreases |a|
  {
    var s := a + [sep] + b;
    if |a| == 0 {
      assert s[1..] == b;
    } else {
      assert s[1..] == a[1..] + [sep] + b;
      SplitAppend(a[1..], b, sep);
    }
  }

  /** Split is the inverse of Join on separator-free pieces. */
  lemma {:induction false} SplitJoin(parts: seq<string>, sep: char)
    requires |parts| >= 1
    requires forall k :: 0 <= k < |parts| ==> sep !in parts[k]
    ensures Split(Join(parts, [sep]), sep) == parts
    decreases |parts|
  {
    if |parts| == 1 {
      SplitNoSeparator(parts[0], sep);
    } else {
      SplitJoin(parts[1..], sep);
      SplitAppend(parts[0], Join(parts[1..], [sep]), sep);
      SplitNoSeparator(parts[0], sep);
      assert [parts[0]] + parts[1..] == parts;
    }
  }

  /** Index of the first line boundary in `s`, or `|s|` when there is none. */
  function LineEnd(s: string): (i: nat)
    ensures i <= |s|
    ensures i < |s| ==> IsLineBreak(s[i])
    decreases |s|
  {
    if |s| == 0 || IsLineBreak(s[0]) then 0 else 1 + LineEnd(s[1..])
  }

  /** No line boundary comes before the first one. */
  lemma {:induction false} LineEndFirst(s: string)
    ensures forall k :: 0 <= k < LineEnd(s) ==> !IsLineBreak(s[k])
    decreases |s|
  {
    if |s| > 0 && !IsLineBreak(s[0]) {
      LineEndFirst(s[1..]);
      assert forall k :: 1 <= k < LineEnd(s) ==> s[k] == s[1..][k - 1];
    }
  }

  /** Length of the line boundary at `i`: two for `\r\n`, one otherwise. */
  function BoundaryWidth(s: string, i: nat): nat
    requires i < |s|
  {
    if s[i] == '\r' && i + 1 < |s| && s[i + 1] == '\n' then 2 else 1
  }

  /** `str.splitlines()`: the lines of `s` without their boundaries; an empty
      string has no lines and a final boundary does not start a new line. */
  function SplitLines(s: string): seq<string>
    decreases |s|
  {
    if |s| == 0 then []
    else
      var i := LineEnd(s);
      if i == |s| then [s]
      else [s[..i]] + SplitLines(s[i + BoundaryWidth(s, i)..])
  }

  /** No line returned by SplitLines holds a line boundary. */
  lemma {:induction false} SplitLinesUnbroken(s: string)
    ensures forall k :: 0 <= k < |SplitLines(s)| ==> Avoids(SplitLines(s)[k], IsLineBreak)
    decreases |s|
  {
    if |s| > 0 {
      LineEndFirst(s);
      var i := LineEnd(s);
      if i < |s| {
        SplitLinesUnbroken(s[i + BoundaryWidth(s, i)..]);
        assert forall k :: 0 <= k < i ==> s[..i][k] == s[k];
      }
    }
  }

  lemma {:induction false} AppendAssociates<T>(a: seq<T>, b: seq<T>, c: seq<T>)
    ensures a + (b + c) == (a + b) + c
  {
  }

  /** What the comprehension keeps of one piece: its strip, unless blank. */
  function Keep(x: string): seq<string> {
    var t := Strip(x);
    if t == "" then [] else [t]
  }

  /** `[x.strip() for x in parts if x.strip()]`. */
  function Clean(parts: seq<string>): seq<string>
    decreases |parts|
  {
    if |parts| == 0 then [] else Keep(parts[0]) + Clean(parts[1..])
  }

  /** Every entry the comprehension keeps is non-blank and stripped. */
  lemma {:induction false} CleanEntries(parts: seq<string>)
    ensures |Clean(parts)| <= |parts|
    ensures forall k :: 0 <= k < |Clean(parts)| ==> Clean(parts)[k] != "" && IsTrimmed(Clean(parts)[k])
    decreases |parts|
  {
    if |parts| > 0 {
      StripSpec(parts[0]);
      CleanEntries(parts[1..]);
    }
  }

  /** One step of the comprehension: the first piece contributes its strip
      when that is non-blank. */
  lemma {:induction false} CleanCons(x: string, rest: seq<string>)
    ensures Clean([x] + rest) == Keep(x) + Clean(rest)
  {
    assert ([x] + rest)[1..] == rest;
  }

  lemma {:induction false} CleanAppend(a: seq<string>, b: seq<string>)
    ensures Clean(a + b) == Clean(a) + Clean(b)
    decreases |a|
  {
    if |a| == 0 {
      assert a + b == b;
    } else {
      assert a + b == [a[0]] + (a[1..] + b);
      assert a == [a[0]] + a[1..];
      CleanAppend(a[1..], b);
      CleanCons(a[0], a[1..] + b);
      CleanCons(a[0], a[1..]);
      AppendAssociates(Keep(a[0]), Clean(a[1..]), Clean(b));
    }
  }

  /** Cleaning keeps only stripped pieces, so a character no piece contains
      appears in no entry of the result. */
  lemma {:induction false} CleanAvoids(parts: seq<string>, bad: char -> bool)
    requires forall k :: 0 <= k < |parts| ==> Avoids(parts[k], bad)
    ensures forall k :: 0 <= k < |Clean(parts)| ==> Avoids(Clean(parts)[k], bad)
    decreases |parts|
  {
    if |parts| > 0 {
      StripAvoids(parts[0], bad);
      CleanAvoids(parts[1..], bad);
    }
  }

  /** The pieces of a reply split on one-character `sep`, stripped, blanks
      dropped: `[x.strip() for x in s.split(sep) if x.strip()]`. */
  function NonBlankPieces(s: string, sep: char): (r: seq<string>)
    ensures forall k :: 0 <= k < |r| ==> r[k] != "" && IsTrimmed(r[k]) && sep !in r[k]
  {
    var pieces := Split(s, sep);
    var r := Clean(pieces);
    CleanEntries(pieces);
    forall k | 0 <= k < |r| ensures sep !in r[k] {
      CleanAvoids(pieces, c => c == sep);
      assert Avoids(r[k], c => c == sep);
    }
    r
  }

  /** The lines of a reply, stripped, blanks dropped:
      `[x.strip() for x in s.splitlines() if x.strip()]`. */
  function NonBlankLines(s: string): (r: seq<string>)
    ensures forall k :: 0 <= k < |r| ==> r[k] != "" && IsTrimmed(r[k]) && Avoids(r[k], IsLineBreak)
  {
    SplitLinesUnbroken(s);
    CleanEntries(SplitLines(s));
    CleanAvoids(SplitLines(s), IsLineBreak);
    Clean(SplitLines(s))
  }

  lemma {:induction false} CleanSingle(x: string)
    ensures Clean([x]) == Keep(x)
  {
    CleanCons(x, []);
    assert [x] + [] == [x];
  }

  /** A reply without the separator is one piece. */
  lemma {:induction false} NonBlankPiecesSingle(s: string, sep: char)
    requires sep !in s
    ensures NonBlankPieces(s, sep) == if Strip(s) == "" then [] else [Strip(s)]
  {
    SplitNoSeparator(s, sep);
    CleanSingle(s);
  }

  /** Every separator cuts the piece list in two: together with
      NonBlankPiecesSingle this determines NonBlankPieces on every input. */
  lemma {:induction false} NonBlankPiecesAppend(a: string, sep: char, b: string)
    ensures NonBlankPieces(a + [sep] + b, sep) == NonBlankPieces(a, sep) + NonBlankPieces(b, sep)
  {
    SplitAppend(a, b, sep);
    CleanAppend(Split(a, sep), Split(b, sep));
  }

  lemma {:induction false} LineEndExtend(a: string, t: string)
    requires LineEnd(a) < |a|
    ensures LineEnd(a + t) == LineEnd(a)
    decreases |a|
  {
    if !IsLineBreak(a[0]) {
      assert (a + t)[1..] == a[1..] + t;
      LineEndExtend(a[1..], t);
    }
  }

  lemma {:induction false} LineEndUnbroken(a: string, t: string)
    requires LineEnd(a) == |a|
    ensures LineEnd(a + t) == |a| + LineEnd(t)
    decreases |a|
  {
    if |a| == 0 {
      assert a + t == t;
    } else {
      assert (a + t)[1..] == a[1..] + t;
      LineEndUnbroken(a[1..], t);
    }
  }

  /** A line without boundaries yields its strip, unless that is blank. */
  lemma {:induction false} NonBlankLinesSingle(s: string)
    requires Avoids(s, IsLineBreak)
    ensures NonBlankLines(s) == if Strip(s) == "" then [] else [Strip(s)]
  {
    CleanSingle(s);
  }

  /** A reply that starts with a line boundary has the lines of the rest. */
  lemma {:induction false} SkipBreak(c: char, b: string)
    requires IsLineBreak(c) && c != '\r'
    ensures Clean(SplitLines([c] + b)) == Clean(SplitLines(b))
  {
    var s := [c] + b;
    assert LineEnd(s) == 0 && BoundaryWidth(s, 0) == 1;
    assert s[1..] == b && s[..0] == "";
    assert SplitLines(s) == [""] + SplitLines(b);
    CleanAppend([""], SplitLines(b));
    CleanSingle("");
  }

  /** Every line boundary cuts the statement list in two, including a
      boundary that completes a preceding `\r` to `\r\n`: together with
      NonBlankLinesSingle this determines NonBlankLines on every input. */
  lemma {:induction false} NonBlankLinesAppend(a: string, c: char, b: string)
    requires IsLineBreak(c)
    ensures NonBlankLines(a + [c] + b) == NonBlankLines(a) + NonBlankLines(b)
  {
    CleanLinesAppend(a, c, b);
  }

  lemma {:induction false} CleanLinesAppend(a: string, c: char, b: string)
    requires IsLineBreak(c)
    ensures Clean(SplitLines(a + [c] + b)) == Clean(SplitLines(a)) + Clean(SplitLines(b))
    decreases |a|
  {
    var i := LineEnd(a);
    if i < |a| {
      var rest, merged := SplitLinesAfterBrokenLine(a, c, b);
      if merged {
        CleanShared(a[..i], SplitLines(b), SplitLines(rest), Clean(SplitLines(b)));
      } else {
        CleanLinesAppend(rest, c, b);
        CleanShared(a[..i], SplitLines(rest + [c] + b), SplitLines(rest), Clean(SplitLines(b)));
      }
    } else {
      var b' := SplitLinesAfterUnbrokenLine(a, c, b);
      CleanAppend([a], SplitLines(b'));
      CleanSingle(a);
      if |a| == 0 {
        CleanSingle("");
      }
      if b' != b {
        SkipBreak(b[0], b');
      }
    }
  }

  /** Two line lists with the same first line and tails whose cleanings
      differ by `extra` have cleanings that differ by `extra`. */
  lemma {:induction false} CleanShared(first: string, xs: seq<string>, ys: seq<string>, extra: seq<string>)
    requires Clean(xs) == Clean(ys) + extra
    ensures Clean([first] + xs) == Clean([first] + ys) + extra
  {
    CleanCons(first, xs);
    CleanCons(first, ys);
    AppendAssociates(Keep(first), Clean(ys), extra);
  }

  /** When `a` already holds a line boundary, `a + [c] + b` and `a` share
      their first line; what follows is `rest + [c] + b` and `rest`, unless
      the last character of `a` is `\r` and `c` is `\n`, which are then
      `merged` into one boundary (`rest` is empty and `b` follows). */
  lemma {:induction false} SplitLinesAfterBrokenLine(a: string, c: char, b: string) returns (rest: string, merged: bool)
    requires IsLineBreak(c) && LineEnd(a) < |a|
    ensures |rest| < |a|
    ensures SplitLines(a) == [a[..LineEnd(a)]] + SplitLines(rest)
    ensures merged ==> rest == [] && SplitLines(a + [c] + b) == [a[..LineEnd(a)]] + SplitLines(b)
    ensures !merged ==> SplitLines(a + [c] + b) == [a[..LineEnd(a)]] + SplitLines(rest + [c] + b)
  {
    var i := LineEnd(a);
    var wa := BoundaryWidth(a, i);
    rest := a[i + wa..];
    merged := SplitLinesAfterBoundary(a, c, b);
  }

  /** The part of SplitLinesAfterBrokenLine about `a + [c] + b`. */
  lemma {:induction false} SplitLinesAfterBoundary(a: string, c: char, b: string) returns (merged: bool)
    requires IsLineBreak(c) && LineEnd(a) < |a|
    ensures var rest := a[LineEnd(a) + BoundaryWidth(a, LineEnd(a))..];
      && (merged ==> rest == [] && SplitLines(a + [c] + b) == [a[..LineEnd(a)]] + SplitLines(b))
      && (!merged ==> SplitLines(a + [c] + b) == [a[..LineEnd(a)]] + SplitLines(rest + [c] + b))
  {
    merged := LineEnd(a) == |a| - 1 && a[|a| - 1] == '\r' && c == '\n';
    if merged {
      BoundaryMerges(a, c, b);
    } else {
      BoundaryKept(a, [c] + b);
      AppendAssociates(a, [c], b);
      AppendAssociates(a[LineEnd(a) + BoundaryWidth(a, LineEnd(a))..], [c], b);
    }
  }

  /** A `\r` ending `a` and a `\n` after it form one boundary. */
  lemma {:induction false} BoundaryMerges(a: string, c: char, b: string)
    requires LineEnd(a) == |a| - 1 && a[|a| - 1] == '\r' && c == '\n'
    ensures SplitLines(a + [c] + b) == [a[..|a| - 1]] + SplitLines(b)
  {
    var s := a + [c] + b;
    var i := |a| - 1;
    assert s == a + ([c] + b);
    LineEndExtend(a, [c] + b);
    assert BoundaryWidth(s, i) == 2;
    SplitLinesStep(s);
    assert s[..i] == a[..i];
    assert s[i + 2..] == b;
  }

  /** Otherwise the first boundary of `a` is the first boundary of
      `a + t`, with the same width. */
  lemma {:induction false} BoundaryKept(a: string, t: string)
    requires LineEnd(a) < |a|
    requires !(LineEnd(a) == |a| - 1 && a[|a| - 1] == '\r' && |t| > 0 && t[0] == '\n')
    ensures SplitLines(a + t)
         == [a[..LineEnd(a)]] + SplitLines(a[LineEnd(a) + BoundaryWidth(a, LineEnd(a))..] + t)
  {
    var i := LineEnd(a);
    var w := BoundaryWidth(a, i);
    var s := a + t;
    LineEndExtend(a, t);
    BoundaryWidthExtend(a, t, i);
    assert s[..i] == a[..i];
    SliceOfAppend(a, t, i + w);
    SplitLinesAt(s, i, w);
  }

  lemma {:induction false} SplitLinesAfterUnbrokenLine(a: string, c: char, b: string) returns (b': string)
    requires IsLineBreak(c) && LineEnd(a) == |a|
    ensures SplitLines(a + [c] + b) == [a] + SplitLines(b')
    ensures b' == b || (|b| > 0 && b[0] == '\n' && b' == b[1..])
  {
    var s := a + [c] + b;
    assert s == a + ([c] + b);
    LineEndUnbroken(a, [c] + b);
    assert s[..|a|] == a;
    var ws := BoundaryWidth(s, |a|);
    SplitLinesStep(s);
    b' := s[|a| + ws..];
    if ws == 2 {
      assert b' == b[1..];
    } else {
      assert b' == b;
    }
  }

  /** Appending text after `a` leaves the width of a boundary in `a`
      unchanged, unless it turns a final `\r` into `\r\n`. */
  lemma {:induction false} BoundaryWidthExtend(a: string, t: string, i: nat)
    requires i < |a|
    requires !(i == |a| - 1 && a[i] == '\r' && |t| > 0 && t[0] == '\n')
    ensures BoundaryWidth(a + t, i) == BoundaryWidth(a, i)
  {
    if i + 1 < |a| {
      assert (a + t)[i + 1] == a[i + 1];
    }
  }

  /** SplitLinesStep with the boundary's position and width named. */
  lemma {:induction false} SplitLinesAt(s: string, i: nat, w: nat)
    requires i == LineEnd(s) < |s| && w == BoundaryWidth(s, i)
    ensures SplitLines(s) == [s[..i]] + SplitLines(s[i + w..])
  {
    SplitLinesStep(s);
  }

  /** The first line of `s` followed by the lines after its boundary. */
  lemma {:induction false} SplitLinesStep(s: string)
    requires LineEnd(s) < |s|
    ensures SplitLines(s) == [s[..LineEnd(s)]] + SplitLines(s[LineEnd(s) + BoundaryWidth(s, LineEnd(s))..])
  {
  }

  lemma {:induction false} SliceOfAppend(a: string, t: string, j: nat)
    requires j <= |a|
    ensures (a + t)[j..] == a[j..] + t
  {
  }

  function UpperChar(c: char): char {
    if 'a' <= c <= 'z' then (c as int - 'a' as int + 'A' as int) as char else c
  }

  function LowerChar(c: char): char {
    if 'A' <= c <= 'Z' then (c as int - 'A' as int + 'a' as int) as char else c
  }

  /** `str.upper()` on ASCII letters; every other character is kept. */
  function Upper(s: string): (r: string)
    ensures |r| == |s|
    ensures forall i :: 0 <= i < |s| ==> r[i] == UpperChar(s[i])
  {
    seq(|s|, i requires 0 <= i < |s| => UpperChar(s[i]))
  }
}
