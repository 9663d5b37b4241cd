/**
 * Document normalisation. The reconcilers compare policy and runbook
 * documents after `JSON.stringify(JSON.parse(doc))`, which keeps the keys in
 * their order and the text of every string literal but drops the white space
 * between tokens. `Normalize` models exactly that part: a scanner that
 * tracks whether it is inside a string literal (and after a backslash in one)
 * and drops JSON white space outside string literals.
 */
module Json {

  /** Where the scanner is: between tokens, inside a string literal, or just after a backslash in one. */
  datatype Scan = Outside | InString | Escaped

  predicate IsJsonWhitespace(c: char)
  {
    c == ' ' || c == '\t' || c == '\n' || c == '\r'
  }

  function Step(st: Scan, c: char): Scan
  {
    match st
    case Outside => if c == '"' then InString else Outside
    case InString => if c == '\\' then Escaped else if c == '"' then Outside else InString
    case Escaped => InString
  }

  /** A character `stringify(parse(..))` does not reproduce: white space between tokens. */
  predicate Dropped(st: Scan, c: char)
  {
    st == Outside && IsJsonWhitespace(c)
  }

  function NormalizeFrom(s: string, st: Scan): (r: string)
    ensures |r| <= |s|
    decreases |s|
  {
    if s == [] then []
    else
      var rest := NormalizeFrom(s[1..], Step(st, s[0]));
      if Dropped(st, s[0]) then rest else [s[0]] + rest
  }

  /** The compact form of a document: `JSON.stringify(JSON.parse(doc))`. */
  function Normalize(doc: string): (r: string)
    ensures |r| <= |doc|
  {
    NormalizeFrom(doc, Outside)
  }

  /** The scanner state after reading all of `s` from state `st`. */
  function ScanEnd(s: string, st: Scan): Scan
    decreases |s|
  {
    if s == [] then st else ScanEnd(s[1..], Step(st, s[0]))
  }

  /** Normalising twice is normalising once, so a stored compact document compares equal to itself. */
  lemma {:induction false} NormalizeFromIdempotent(s: string, st: Scan)
    ensures NormalizeFrom(NormalizeFrom(s, st), st) == NormalizeFrom(s, st)
    decreases |s|
  {
    if s != [] {
      var c := s[0];
      var rest := NormalizeFrom(s[1..], Step(st, c));
      if Dropped(st, c) {
        assert Step(st, c) == st;
        NormalizeFromIdempotent(s[1..], st);
      } else {
        NormalizeFromIdempotent(s[1..], Step(st, c));
        var out := [c] + rest;
        assert out[0] == c && out[1..] == rest;
      }
    }
  }

  lemma NormalizeIdempotent(doc: string)
    ensures Normalize(Normalize(doc)) == Normalize(doc)
  {
    NormalizeFromIdempotent(doc, Outside);
  }

  /**
   * White space between tokens does not change the compact form: two
   * documents that differ only in such white space compare equal.
   */
  lemma {:induction false} WhitespaceBetweenTokensIgnored(x: string, w: char, y: string, st: Scan)
    requires IsJsonWhitespace(w)
    requires ScanEnd(x, st) == Outside
    ensures NormalizeFrom(x + [w] + y, st) == NormalizeFrom(x + y, st)
    decreases |x|
  {
    if x == [] {
      assert (x + [w] + y)[1..] == y;
      assert x + y == y;
    } else {
      assert (x + [w] + y)[0] == x[0] && (x + [w] + y)[1..] == x[1..] + [w] + y;
      assert (x + y)[0] == x[0] && (x + y)[1..] == x[1..] + y;
      WhitespaceBetweenTokensIgnored(x[1..], w, y, Step(st, x[0]));
    }
  }

  /** `s.replace(/\r?\n|\r/g, '')`: every carriage return and line feed removed. */
  function StripLineBreaks(s: string): (r: string)
    ensures '\n' !in r && '\r' !in r
    ensures |r| <= |s|
    decreases |s|
  {
    if s == [] then []
    else if s[0] == '\n' || s[0] == '\r' then StripLineBreaks(s[1..])
    else [s[0]] + StripLineBreaks(s[1..])
  }

  /** Removing line breaks works piece by piece: it distributes over concatenation. */
  lemma {:induction false} StripLineBreaksConcat(a: string, b: string)
    ensures StripLineBreaks(a + b) == StripLineBreaks(a) + StripLineBreaks(b)
    decreases |a|
  {
    if a != [] {
      assert (a + b)[0] == a[0] && (a + b)[1..] == a[1..] + b;
      StripLineBreaksConcat(a[1..], b);
    } else {
      assert a + b == b;
    }
  }

  /** One character: a carriage return or a line feed goes, anything else stays. */
  lemma StripLineBreaksChar(c: char)
    ensures StripLineBreaks([c]) == if c == '\n' || c == '\r' then [] else [c]
  {
    assert [c][1..] == [];
  }

  /** Text without line breaks is kept as it is. */
  lemma {:induction false} StripLineBreaksKeeps(s: string)
    requires '\n' !in s && '\r' !in s
    ensures StripLineBreaks(s) == s
    decreases |s|
  {
    if s != [] {
      assert s[0] in s;
      assert forall c :: c in s[1..] ==> c in s;
      StripLineBreaksKeeps(s[1..]);
      assert [s[0]] + s[1..] == s;
    }
  }
}
