/**
 * The JavaScript string operations the core relies on: `startsWith`,
 * `split` on a non-empty separator, `join`, ASCII `toLowerCase` and `trim`.
 */
module Strings {

  /** `s.startsWith(prefix)`; also `s.indexOf(prefix) === 0`. */
  predicate StartsWith(s: string, prefix: string)
  {
    prefix <= s
  }

  /**
   * `s.split(sep)` for a non-empty separator: the pieces between the
   * leftmost non-overlapping occurrences of `sep`.
   */
  function Split(s: string, sep: string): (parts: seq<string>)
    requires sep != []
    ensures |parts| >= 1
    decreases |s|
  {
    if s == [] then [""]
    else if sep <= s then [""] + Split(s[|sep|..], sep)
    else
      var rest := Split(s[1..], sep);
      [[s[0]] + rest[0]] + rest[1..]
  }

  /** `parts.join(sep)`. */
  function Join(parts: seq<string>, sep: string): string
  {
    if |parts| == 0 then ""
    else if |parts| == 1 then parts[0]
    else parts[0] + sep + Join(parts[1..], sep)
  }

  lemma JoinPrepend(x: string, parts: seq<string>, sep: string)
    requires |parts| >= 1
    ensures Join([x + parts[0]] + parts[1..], sep) == x + Join(parts, sep)
  {
    var ps := [x + parts[0]] + parts[1..];
    if |parts| > 1 {
      assert ps[1..] == parts[1..];
      assert Join(ps, sep) == (x + parts[0]) + sep + Join(parts[1..], sep);
    }
  }

  /** Joining the pieces of a split with the same separator gives back the string. */
  lemma {:induction false} JoinSplit(s: string, sep: string)
    requires sep != []
    ensures Join(Split(s, sep), sep) == s
    decreases |s|
  {
    if s == [] {
    } else if sep <= s {
      JoinSplit(s[|sep|..], sep);
      JoinAfterSeparator(s, sep, Split(s[|sep|..], sep));
    } else {
      var rest := Split(s[1..], sep);
      JoinSplit(s[1..], sep);
      JoinPrepend([s[0]], rest, sep);
      assert Split(s, sep) == [[s[0]] + rest[0]] + rest[1..];
      assert s == [s[0]] + s[1..];
    }
  }

  /** Pieces that join back to what follows a leading separator, behind an empty first piece, join back to the whole string. */
  lemma JoinAfterSeparator(s: string, sep: string, rest: seq<string>)
    requires sep <= s && |rest| >= 1
    requires Join(rest, sep) == s[|sep|..]
    ensures Join([""] + rest, sep) == s
  {
    var parts := [""] + rest;
    var tail := s[|sep|..];
    assert parts[0] == "" && parts[1..] == rest && |parts| >= 2;
    assert Join(parts, sep) == "" + sep + tail;
    assert "" + sep == sep;
    assert s[..|sep|] == sep;
    assert s == s[..|sep|] + tail;
  }

  lemma {:induction false} SplitWithoutSeparator(x: string, c: char)
    requires c !in x
    ensures Split(x, [c]) == [x]
    decreases |x|
  {
    if x != [] {
      assert x[0] in x;
      assert !([c] <= x);
      SplitWithoutSeparator(x[1..], c);
      assert [x[0]] + x[1..] == x;
    }
  }

  lemma {:induction false} SplitAtFirstSeparator(x: string, c: char, y: string)
    requires c !in x
    ensures Split(x + [c] + y, [c]) == [x] + Split(y, [c])
    decreases |x|
  {
    var s := x + [c] + y;
    if x == [] {
      assert [c] <= s;
      assert s[1..] == y;
    } else {
      assert s[0] == x[0];
      assert !([c] <= s);
      assert s[1..] == x[1..] + [c] + y;
      SplitAtFirstSeparator(x[1..], c, y);
      assert [x[0]] + x[1..] == x;
    }
  }

  /** Splitting on a one-character separator that no piece contains undoes a join. */
  lemma {:induction false} SplitJoin(parts: seq<string>, c: char)
    requires |parts| >= 1
    requires forall i :: 0 <= i < |parts| ==> c !in parts[i]
    ensures Split(Join(parts, [c]), [c]) == parts
    decreases |parts|
  {
    if |parts| == 1 {
      SplitWithoutSeparator(parts[0], c);
    } else {
      SplitJoin(parts[1..], c);
      SplitAtFirstSeparator(parts[0], c, Join(parts[1..], [c]));
      assert [parts[0]] + parts[1..] == parts;
    }
  }

  /** The first piece of a split on one character is the longest prefix free of that character. */
  lemma {:induction false} FirstPiece(s: string, c: char)
    ensures Split(s, [c])[0] <= s
    ensures c !in Split(s, [c])[0]
    ensures |Split(s, [c])[0]| < |s| ==> s[|Split(s, [c])[0]|] == c
    decreases |s|
  {
    if s != [] && !([c] <= s) {
      FirstPiece(s[1..], c);
    }
  }

  /** No piece of a split on one character contains that character. */
  lemma {:induction false} SplitPiecesFree(s: string, c: char)
    ensures forall i :: 0 <= i < |Split(s, [c])| ==> c !in Split(s, [c])[i]
    decreases |s|
  {
    if s != [] {
      if [c] <= s {
        SplitPiecesFree(s[1..], c);
        assert s[|[c]|..] == s[1..];
      } else {
        SplitPiecesFree(s[1..], c);
        assert s[0] != c;
      }
    }
  }

  /** `toLowerCase` on one character, for the ASCII letters. */
  function LowerChar(c: char): char
  {
    if 'A' <= c <= 'Z' then (c as int + 32) as char else c
  }

  /** `toLowerCase`, for the ASCII letters; every other character is kept. */
  function Lower(s: string): (r: string)
    ensures |r| == |s|
    ensures forall i :: 0 <= i < |s| ==> r[i] == LowerChar(s[i])
  {
    seq(|s|, i requires 0 <= i < |s| => LowerChar(s[i]))
  }

  lemma LowerHasNoUpperCase(s: string)
    ensures forall i :: 0 <= i < |s| ==> !('A' <= Lower(s)[i] <= 'Z')
  {
  }

  lemma LowerIdempotent(s: string)
    ensures Lower(Lower(s)) == Lower(s)
  {
  }

  /**
   * The white space and line terminators `trim` removes: tab, vertical tab,
   * form feed, the byte order mark, every space separator (space, no-break
   * space, ogham space mark, the spaces U+2000 to U+200A, narrow no-break
   * space, medium mathematical space, ideographic space), line feed,
   * carriage return, line separator and paragraph separator.
   */
  predicate IsTrimmed(c: char)
  {
    || c in {'\t', '\U{000B}', '\U{000C}', '\U{FEFF}', '\n', '\r', '\U{2028}', '\U{2029}'}
    || c in {' ', '\U{00A0}', '\U{1680}', '\U{202F}', '\U{205F}', '\U{3000}'}
    || '\U{2000}' <= c <= '\U{200A}'
  }

  function TrimStart(s: string): (r: string)
    ensures |r| <= |s| && r == s[|s| - |r|..]
    ensures r == [] || !IsTrimmed(r[0])
    decreases |s|
  {
    if s != [] && IsTrimmed(s[0]) then TrimStart(s[1..]) else s
  }

  function TrimEnd(s: string): (r: string)
    ensures r <= s
    ensures r == [] || !IsTrimmed(r[|r| - 1])
    decreases |s|
  {
    if s != [] && IsTrimmed(s[|s| - 1]) then TrimEnd(s[..|s| - 1]) else s
  }

  /** `s.trim()`: `s` without its leading and trailing white space. */
  function Trim(s: string): (r: string)
    ensures r == [] || (!IsTrimmed(r[0]) && !IsTrimmed(r[|r| - 1]))
    ensures |r| <= |s|
  {
    TrimEnd(TrimStart(s))
  }

  /** What `TrimStart` drops is white space. */
  lemma {:induction false} TrimStartDrops(s: string)
    ensures forall k :: 0 <= k < |s| - |TrimStart(s)| ==> IsTrimmed(s[k])
    decreases |s|
  {
    if s != [] && IsTrimmed(s[0]) {
      TrimStartDrops(s[1..]);
    }
  }

  /** What `TrimEnd` drops is white space. */
  lemma {:induction false} TrimEndDrops(s: string)
    ensures forall k :: |TrimEnd(s)| <= k < |s| ==> IsTrimmed(s[k])
    decreases |s|
  {
    if s != [] && IsTrimmed(s[|s| - 1]) {
      TrimEndDrops(s[..|s| - 1]);
    }
  }

  /**
   * `trim` keeps the slice of `s` between its leading and its trailing
   * white space: everything cut off on either side is white space, and the
   * slice neither starts nor ends with any.
   */
  lemma TrimExactly(s: string)
    ensures exists i, j ::
      && 0 <= i <= j <= |s| && Trim(s) == s[i..j]
      && (forall k :: 0 <= k < i ==> IsTrimmed(s[k]))
      && (forall k :: j <= k < |s| ==> IsTrimmed(s[k]))
  {
    var t := TrimStart(s);
    var i := |s| - |t|;
    var j := i + |Trim(s)|;
    TrimStartDrops(s);
    TrimEndDrops(t);
    assert Trim(s) == s[i..j];
    forall k | j <= k < |s|
      ensures IsTrimmed(s[k])
    {
      assert s[k] == t[k - i];
    }
  }
}
